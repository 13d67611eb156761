/**
 The outbox publisher (services/identity/src/outbox/publisher.rs) as a step
 system: any number of replicas of the `run` loop, the PostgreSQL advisory
 lock, the outbox table and a Kafka partition, interleaved one step at a time.

 Every choice the environment makes is part of the action, so a run is a
 sequence of actions and its states are computed by `Next`.
 */
module Publisher {
  import opened Basics
  import opened Outbox

  type Rid = nat
  type Req = nat

  /** What a consumer finds in a record of the topic. */
  datatype Value = Empty | Corrupt | Mail(message: Message)

  /**
   A record of the partition. `seen` is history: the events that were committed
   when the poll that produced the record read the table.
   */
  datatype Record = Published(row: OutboxRow, seen: set<EventId>) | Foreign(value: Value)

  /** Where a replica is in its loop; the fetched rows still to do are in `rest`. */
  datatype Pc =
    | Idle
    | Fetching
    | Looping(rest: seq<OutboxRow>, seen: set<EventId>)
    | Sending(row: OutboxRow, req: Req, rest: seq<OutboxRow>, seen: set<EventId>)
    | Marking(row: OutboxRow, rest: seq<OutboxRow>, seen: set<EventId>)
    | Stopped

  /**
   `sessions` are the lock connections PostgreSQL considers alive. A produce
   request sits in `inflight` until the broker appends or loses it, whatever
   its sender does meanwhile.
   */
  datatype State = State(
    table: Table,
    lock: Option<Rid>,
    sessions: set<Rid>,
    procs: map<Rid, Pc>,
    log: seq<Record>,
    inflight: map<Req, Record>,
    appended: set<Req>,
    nextReq: Req)

  datatype Action =
    | Commit(row: OutboxRow)
    | Start(r: Rid)
    | Shutdown(r: Rid)
    | Crash(r: Rid)
    | DropSession(r: Rid)
    | LockGranted(r: Rid)
    | LockNotGranted(r: Rid)
    | LockReplyLost(r: Rid)
    | Fetch(r: Rid, limit: nat, batch: seq<OutboxRow>)
    | FetchFailed(r: Rid)
    | SkipUnroutable(r: Rid)
    | NoPartitionClient(r: Rid)
    | EndBatch(r: Rid)
    | Send(r: Rid)
    | BrokerAppend(req: Req)
    | BrokerLose(req: Req)
    | ProduceOk(r: Rid)
    | ProduceFailed(r: Rid)
    | MarkOk(r: Rid)
    | MarkFailed(r: Rid, applied: bool)
    | ForeignRecord(value: Value)

  ghost predicate Init(s: State) {
    s == State(map[], None, {}, map[], [], map[], {}, 0)
  }

  predicate At(s: State, r: Rid, pc: Pc) {
    r in s.procs && s.procs[r] == pc
  }

  /** The `for` loop is at a row it has not looked at yet. */
  predicate AtRow(s: State, r: Rid) {
    r in s.procs && s.procs[r].Looping? && s.procs[r].rest != []
  }

  /** `pg_try_advisory_lock` answers true: free, or already held by this session. */
  predicate LockFree(s: State, r: Rid) {
    r in s.sessions && (s.lock == None || s.lock == Some(r))
  }

  predicate Enabled(s: State, a: Action) {
    match a
    case Commit(row) => row.id !in s.table && (Routable(row) ==> row.payload.key == row.id)
    case Start(r) => r !in s.procs && r !in s.sessions
    case Shutdown(r) => At(s, r, Idle)
    case Crash(r) => r in s.procs
    case DropSession(r) => r in s.sessions
    case LockGranted(r) => At(s, r, Idle) && LockFree(s, r)
    case LockNotGranted(r) => At(s, r, Idle)
    case LockReplyLost(r) => At(s, r, Idle) && LockFree(s, r)
    case Fetch(r, limit, batch) => At(s, r, Fetching) && IsBatch(s.table, limit, batch)
    case FetchFailed(r) => At(s, r, Fetching)
    case SkipUnroutable(r) => AtRow(s, r) && !Routable(s.procs[r].rest[0])
    case NoPartitionClient(r) => AtRow(s, r) && Routable(s.procs[r].rest[0])
    case EndBatch(r) => r in s.procs && s.procs[r].Looping? && s.procs[r].rest == []
    case Send(r) => AtRow(s, r) && Routable(s.procs[r].rest[0])
    case BrokerAppend(req) => req in s.inflight
    case BrokerLose(req) => req in s.inflight
    case ProduceOk(r) => r in s.procs && s.procs[r].Sending? && s.procs[r].req in s.appended
    case ProduceFailed(r) => r in s.procs && s.procs[r].Sending?
    case MarkOk(r) => r in s.procs && s.procs[r].Marking?
    case MarkFailed(r, applied) => r in s.procs && s.procs[r].Marking?
    case ForeignRecord(value) => !value.Mail?
  }

  function Goto(s: State, r: Rid, pc: Pc): State {
    s.(procs := s.procs[r := pc])
  }

  function Next(s: State, a: Action): State
    requires Enabled(s, a)
  {
    match a
    case Commit(row) => s.(table := s.table[row.id := Stored(row, false)])
    case Start(r) => Goto(s, r, Idle).(sessions := s.sessions + {r})
    case Shutdown(r) => Goto(s, r, Stopped)
    case Crash(r) => s.(procs := s.procs - {r})
    case DropSession(r) => s.(sessions := s.sessions - {r}, lock := if s.lock == Some(r) then None else s.lock)
    case LockGranted(r) => Goto(s, r, Fetching).(lock := Some(r))
    case LockNotGranted(r) => s
    case LockReplyLost(r) => s.(lock := Some(r))
    case Fetch(r, limit, batch) => Goto(s, r, if batch == [] then Idle else Looping(batch, s.table.Keys))
    case FetchFailed(r) => Goto(s, r, Idle)
    case SkipUnroutable(r) => Goto(s, r, Looping(s.procs[r].rest[1..], s.procs[r].seen))
    case NoPartitionClient(r) => Goto(s, r, Idle)
    case EndBatch(r) => Goto(s, r, Idle)
    case Send(r) =>
      var pc := s.procs[r];
      Goto(s, r, Sending(pc.rest[0], s.nextReq, pc.rest[1..], pc.seen))
        .(inflight := s.inflight[s.nextReq := Published(pc.rest[0], pc.seen)], nextReq := s.nextReq + 1)
    case BrokerAppend(req) =>
      s.(log := s.log + [s.inflight[req]], inflight := s.inflight - {req}, appended := s.appended + {req})
    case BrokerLose(req) => s.(inflight := s.inflight - {req})
    case ProduceOk(r) => Goto(s, r, Marking(s.procs[r].row, s.procs[r].rest, s.procs[r].seen))
    case ProduceFailed(r) => Goto(s, r, Idle)
    case MarkOk(r) =>
      Goto(s, r, Looping(s.procs[r].rest, s.procs[r].seen)).(table := MarkPublished(s.table, s.procs[r].row.id))
    case MarkFailed(r, applied) =>
      Goto(s, r, Looping(s.procs[r].rest, s.procs[r].seen))
        .(table := if applied then MarkPublished(s.table, s.procs[r].row.id) else s.table)
    case ForeignRecord(value) => s.(log := s.log + [Foreign(value)])
  }

  /** The actions can be taken one after the other from `s`. */
  ghost predicate Runs(s: State, actions: seq<Action>)
    decreases |actions|
  {
    actions == [] || (Enabled(s, actions[0]) && Runs(Next(s, actions[0]), actions[1..]))
  }

  ghost function After(s: State, actions: seq<Action>): State
    requires Runs(s, actions)
    decreases |actions|
  {
    if actions == [] then s else After(Next(s, actions[0]), actions[1..])
  }

  lemma {:induction false} RunsAppend(s: State, actions: seq<Action>, a: Action)
    requires Runs(s, actions) && Enabled(After(s, actions), a)
    ensures Runs(s, actions + [a]) && After(s, actions + [a]) == Next(After(s, actions), a)
    decreases |actions|
  {
    if actions == [] {
      assert [a][1..] == [];
    } else {
      RunsAppend(Next(s, actions[0]), actions[1..], a);
      assert (actions + [a])[1..] == actions[1..] + [a];
    }
  }

  lemma {:induction false} RunsConcat(s: State, early: seq<Action>, late: seq<Action>)
    requires Runs(s, early) && Runs(After(s, early), late)
    ensures Runs(s, early + late) && After(s, early + late) == After(After(s, early), late)
    decreases |early|
  {
    if early == [] {
      assert early + late == late;
    } else {
      RunsConcat(Next(s, early[0]), early[1..], late);
      assert (early + late)[1..] == early[1..] + late;
    }
  }
}
