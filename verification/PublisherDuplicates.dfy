/**
 How often an event can reach the partition: each record beyond the first is paid
 for by a fault, in every run. As long as no lock session drops while its replica
 is inside a poll, only one replica publishes at a time.
 */
module PublisherDuplicates {
  import opened Basics
  import opened Outbox
  import opened Publisher
  import opened PublisherSafety

  predicate Active(pc: Pc) {
    !pc.Idle? && !pc.Stopped?
  }

  /** The action is not the loss of a lock session in the middle of a poll. */
  predicate Calm(s: State, a: Action) {
    a.DropSession? && a.r in s.procs ==> !Active(s.procs[a.r])
  }

  ghost predicate CalmRun(s: State, actions: seq<Action>)
    requires Runs(s, actions)
    decreases |actions|
  {
    actions != [] ==> Calm(s, actions[0]) && CalmRun(Next(s, actions[0]), actions[1..])
  }

  /** The rows the replica still has to settle, the current one first. */
  function Todo(pc: Pc): seq<OutboxRow> {
    match pc
    case Looping(rest, _) => rest
    case Sending(row, _, rest, _) => [row] + rest
    case Marking(row, rest, _) => [row] + rest
    case _ => []
  }

  ghost predicate FreshRows(table: Table, rows: seq<OutboxRow>) {
    DistinctIds(rows) && forall i | 0 <= i < |rows| :: Unpublished(table, rows[i].id)
  }

  ghost predicate Exclusive(s: State) {
    && (forall r | r in s.procs && Active(s.procs[r]) :: s.lock == Some(r))
    && (forall r | r in s.procs :: FreshRows(s.table, Todo(s.procs[r])))
  }

  lemma TailFresh(table: Table, rows: seq<OutboxRow>)
    requires rows != [] && FreshRows(table, rows)
    ensures FreshRows(table, rows[1..]) && FreshRows(MarkPublished(table, rows[0].id), rows[1..])
    ensures [rows[0]] + rows[1..] == rows
  {
  }

  /** A step of its own takes a replica no further than one row down its list. */
  lemma TodoStep(s: State, a: Action, r: Rid)
    requires Enabled(s, a) && r in s.procs && r in Next(s, a).procs && !a.Fetch?
    ensures var now := Todo(Next(s, a).procs[r]); var rows := Todo(s.procs[r]);
            now == rows || now == [] || (rows != [] && now == rows[1..])
  {
    var pc := s.procs[r];
    match a
    case Send(_) => assert pc.Looping? && pc.rest != [] ==> [pc.rest[0]] + pc.rest[1..] == pc.rest;
    case MarkOk(_) => assert pc.Marking? ==> ([pc.row] + pc.rest)[1..] == pc.rest;
    case MarkFailed(_, _) => assert pc.Marking? ==> ([pc.row] + pc.rest)[1..] == pc.rest;
    case _ =>
  }

  /** Marking a row disturbs no replica: nobody else is inside a poll, and the marker drops the row. */
  lemma FreshAtMark(s: State, a: Action, r: Rid)
    requires Exclusive(s) && Enabled(s, a) && (a.MarkOk? || a.MarkFailed?) && r in s.procs
    ensures FreshRows(Next(s, a).table, Todo(Next(s, a).procs[r]))
  {
    var rows := Todo(s.procs[r]);
    if a.r == r {
      TailFresh(s.table, rows);
      assert rows[1..] == s.procs[r].rest;
    } else {
      assert !Active(s.procs[r]);
    }
  }

  /** A fetch gives fresh rows to the fetcher and nothing to the others. */
  lemma FreshAtFetch(s: State, a: Action, r: Rid)
    requires Exclusive(s) && Enabled(s, a) && a.Fetch? && r in s.procs
    ensures FreshRows(Next(s, a).table, Todo(Next(s, a).procs[r]))
  {
  }

  /** All other steps leave the table as it is, up to new rows, and take at most the first row off a replica's list. */
  lemma FreshElsewhere(s: State, a: Action, r: Rid)
    requires Exclusive(s) && Enabled(s, a) && r in s.procs && r in Next(s, a).procs
    requires !a.Fetch? && !a.MarkOk? && !a.MarkFailed?
    ensures FreshRows(Next(s, a).table, Todo(Next(s, a).procs[r]))
  {
    TodoStep(s, a, r);
    if Todo(s.procs[r]) != [] {
      TailFresh(s.table, Todo(s.procs[r]));
    }
  }

  lemma FreshKept(s: State, a: Action, r: Rid)
    requires Exclusive(s) && Enabled(s, a) && r in Next(s, a).procs
    ensures FreshRows(Next(s, a).table, Todo(Next(s, a).procs[r]))
  {
    if a.MarkOk? || a.MarkFailed? {
      FreshAtMark(s, a, r);
    } else if a.Fetch? {
      FreshAtFetch(s, a, r);
    } else if r in s.procs {
      FreshElsewhere(s, a, r);
    }
  }

  lemma ExclusiveKept(s: State, a: Action)
    requires Inv(s) && Exclusive(s) && Enabled(s, a) && Calm(s, a)
    ensures Exclusive(Next(s, a))
  {
    var t := Next(s, a);
    forall r | r in t.procs ensures FreshRows(t.table, Todo(t.procs[r])) {
      FreshKept(s, a, r);
    }
    ActiveHoldsLock(s, a);
  }

  lemma ActiveHoldsLock(s: State, a: Action)
    requires Exclusive(s) && Enabled(s, a) && Calm(s, a)
    ensures forall r | r in Next(s, a).procs && Active(Next(s, a).procs[r]) :: Next(s, a).lock == Some(r)
  {
  }

  ghost function LogCount(log: seq<Record>, id: EventId): nat {
    if log == [] then 0
    else
      var last := log[|log| - 1];
      LogCount(log[..|log| - 1], id) + if last.Published? && last.row.id == id then 1 else 0
  }

  ghost function Requests(s: State, id: EventId): set<Req> {
    set q | q in s.inflight && s.inflight[q].Published? && s.inflight[q].row.id == id
  }

  /** The replica has a produce of the event under way that may reach, or has reached, the log. */
  predicate Owns(s: State, pc: Pc, id: EventId) {
    match pc
    case Sending(row, req, _, _) => row.id == id && (req in s.inflight || req in s.appended)
    case Marking(row, _, _) => row.id == id
    case _ => false
  }

  ghost predicate Done(s: State, id: EventId) {
    id in s.table && s.table[id].published
  }

  /** The rows of its batch that the replica has not sent yet. */
  function Unsent(pc: Pc): seq<OutboxRow> {
    match pc
    case Looping(rest, _) => rest
    case Sending(_, _, rest, _) => rest
    case Marking(_, rest, _) => rest
    case _ => []
  }

  /**
   The replica may send the event once more: it is in its batch, or may be in the
   batch it fetches without the lock.
   */
  predicate MaySend(s: State, r: Rid, id: EventId) {
    r in s.procs && (Lists(Unsent(s.procs[r]), id) || (s.procs[r].Fetching? && s.lock != Some(r)))
  }

  ghost function Senders(s: State, id: EventId): set<Rid> {
    set r | r in s.procs && MaySend(s, r, id)
  }

  /** The lock holder has the event in its batch, or its produce under way. */
  predicate Carried(s: State, id: EventId) {
    && s.lock.Some? && s.lock.value in s.procs
    && (Lists(Unsent(s.procs[s.lock.value]), id) || Owns(s, s.procs[s.lock.value], id))
  }

  /** A lock holder may still fetch the event. */
  ghost function Fetchable(s: State, id: EventId): nat {
    if Done(s, id) || Carried(s, id) then 0 else 1
  }

  /** Records that are there, on their way, or still allowed without a further fault. */
  ghost function Owed(s: State, id: EventId): nat {
    LogCount(s.log, id) + |Requests(s, id)| + |Senders(s, id)| + Fetchable(s, id)
  }

  /**
   The faults that allow another record of the event: an error reported for a
   produce the broker may have taken, a mark that did not happen, a crash between
   the produce and the mark, and the loss of a lock session whose replica is
   fetching or has the event still to settle.
   */
  function Charge(s: State, a: Action, id: EventId): nat {
    match a
    case ProduceFailed(r) => if r in s.procs && Owns(s, s.procs[r], id) then 1 else 0
    case MarkFailed(r, applied) => if !applied && r in s.procs && Owns(s, s.procs[r], id) then 1 else 0
    case Crash(r) => if r in s.procs && Owns(s, s.procs[r], id) then 1 else 0
    case DropSession(r) => if r in s.procs && (s.procs[r].Fetching? || Lists(Todo(s.procs[r]), id)) then 1 else 0
    case _ => 0
  }

  ghost function Charges(s: State, actions: seq<Action>, id: EventId): nat
    requires Runs(s, actions)
    decreases |actions|
  {
    if actions == [] then 0
    else Charge(s, actions[0], id) + Charges(Next(s, actions[0]), actions[1..], id)
  }

  ghost predicate Tidy(s: State) {
    forall r | r in s.procs :: DistinctIds(Todo(s.procs[r]))
  }

  lemma TidyKept(s: State, a: Action)
    requires Tidy(s) && Enabled(s, a)
    ensures Tidy(Next(s, a))
  {
    var t := Next(s, a);
    forall r | r in t.procs ensures DistinctIds(Todo(t.procs[r])) {
      if r in s.procs && !a.Fetch? {
        TodoStep(s, a, r);
      }
    }
  }

  lemma RequestAdded(s: State, t: State, req: Req, row: OutboxRow, seen: set<EventId>, id: EventId)
    requires req !in s.inflight && t.inflight == s.inflight[req := Published(row, seen)]
    ensures |Requests(t, id)| == |Requests(s, id)| + if row.id == id then 1 else 0
  {
    assert Requests(t, id) == if row.id == id then Requests(s, id) + {req} else Requests(s, id);
  }

  lemma RequestRemoved(s: State, t: State, req: Req, id: EventId)
    requires req in s.inflight && t.inflight == s.inflight - {req}
    ensures |Requests(t, id)| == |Requests(s, id)| - if req in Requests(s, id) then 1 else 0
  {
    assert Requests(t, id) == Requests(s, id) - {req};
  }

  predicate OfReplica(a: Action) {
    !a.Commit? && !a.BrokerAppend? && !a.BrokerLose? && !a.ForeignRecord?
  }

  /** A replica's action changes nothing in what the others may send. */
  lemma SendersStep(s: State, a: Action, id: EventId)
    requires Enabled(s, a) && OfReplica(a)
    ensures |Senders(Next(s, a), id)| + (if MaySend(s, a.r, id) then 1 else 0)
         == |Senders(s, id)| + if MaySend(Next(s, a), a.r, id) then 1 else 0
  {
    var t := Next(s, a);
    forall r | r != a.r ensures MaySend(s, r, id) <==> MaySend(t, r, id) {
    }
    SameBut(Senders(s, id), Senders(t, id), a.r);
  }

  lemma SameBut(x: set<Rid>, y: set<Rid>, r: Rid)
    requires forall q | q != r :: q in x <==> q in y
    ensures |y| + (if r in x then 1 else 0) == |x| + if r in y then 1 else 0
  {
    assert x - {r} == y - {r};
    assert |x - {r}| == |x| - if r in x then 1 else 0;
    assert |y - {r}| == |y| - if r in y then 1 else 0;
  }

  lemma ListsTail(rows: seq<OutboxRow>, id: EventId)
    requires rows != [] && DistinctIds(rows)
    ensures Lists(rows, id) <==> rows[0].id == id || Lists(rows[1..], id)
    ensures rows[0].id == id ==> !Lists(rows[1..], id)
  {
    var tail := rows[1..];
    if Lists(rows, id) && rows[0].id != id {
      var i :| 0 <= i < |rows| && rows[i].id == id;
      assert tail[i - 1].id == id;
    }
    if Lists(tail, id) {
      var i :| 0 <= i < |tail| && tail[i].id == id;
      assert rows[i + 1].id == id;
    }
  }

  lemma OwedAtSend(s: State, r: Rid, id: EventId)
    requires Inv(s) && Tidy(s) && Enabled(s, Send(r))
    ensures Owed(Next(s, Send(r)), id) <= Owed(s, id)
  {
    var t := Next(s, Send(r));
    var pc := s.procs[r];
    RequestAdded(s, t, s.nextReq, pc.rest[0], pc.seen, id);
    SendersStep(s, Send(r), id);
    ListsTail(pc.rest, id);
    assert Carried(s, id) ==> Carried(t, id);
  }

  lemma OwedAtAppend(s: State, req: Req, id: EventId)
    requires Inv(s) && Enabled(s, BrokerAppend(req))
    ensures Owed(Next(s, BrokerAppend(req)), id) <= Owed(s, id)
  {
    var t := Next(s, BrokerAppend(req));
    assert t.log[..|t.log| - 1] == s.log;
    RequestRemoved(s, t, req, id);
    assert Senders(t, id) == Senders(s, id);
    assert Carried(s, id) ==> Carried(t, id);
  }

  lemma OwedAtLose(s: State, req: Req, id: EventId)
    requires Inv(s) && Enabled(s, BrokerLose(req))
    ensures Owed(Next(s, BrokerLose(req)), id) <= Owed(s, id)
  {
    var t := Next(s, BrokerLose(req));
    RequestRemoved(s, t, req, id);
    assert Senders(t, id) == Senders(s, id);
    if Carried(s, id) && !Carried(t, id) {
      assert PcOk(s, s.procs[s.lock.value]);
    }
  }

  /** A fetch by the lock holder uses up the right to fetch; any other fetch was counted before. */
  lemma OwedAtFetch(s: State, r: Rid, limit: nat, batch: seq<OutboxRow>, id: EventId)
    requires Inv(s) && Enabled(s, Fetch(r, limit, batch))
    ensures Owed(Next(s, Fetch(r, limit, batch)), id) <= Owed(s, id)
  {
    var a := Fetch(r, limit, batch);
    var t := Next(s, a);
    SendersStep(s, a, id);
    assert Requests(t, id) == Requests(s, id);
    if Lists(batch, id) {
      var i :| 0 <= i < |batch| && batch[i].id == id;
      assert !Done(s, id);
    }
  }

  /** The end of a produce. */
  lemma OwedAtProduce(s: State, a: Action, id: EventId)
    requires Inv(s) && Tidy(s) && Enabled(s, a) && (a.ProduceOk? || a.ProduceFailed?)
    ensures Owed(Next(s, a), id) <= Owed(s, id) + Charge(s, a, id)
  {
    var t := Next(s, a);
    SendersStep(s, a, id);
    assert Requests(t, id) == Requests(s, id);
  }

  /** The end of a mark. */
  lemma OwedAtMark(s: State, a: Action, id: EventId)
    requires Inv(s) && Tidy(s) && Enabled(s, a) && (a.MarkOk? || a.MarkFailed?)
    ensures Owed(Next(s, a), id) <= Owed(s, id) + Charge(s, a, id)
  {
    var t := Next(s, a);
    SendersStep(s, a, id);
    assert Requests(t, id) == Requests(s, id);
    assert PcOk(s, s.procs[a.r]);
    assert Done(s, id) ==> Done(t, id);
  }

  lemma OwedAtSkip(s: State, r: Rid, id: EventId)
    requires Tidy(s) && Enabled(s, SkipUnroutable(r))
    ensures Owed(Next(s, SkipUnroutable(r)), id) <= Owed(s, id)
  {
    var t := Next(s, SkipUnroutable(r));
    SendersStep(s, SkipUnroutable(r), id);
    assert Requests(t, id) == Requests(s, id);
    ListsTail(s.procs[r].rest, id);
  }

  /** A batch that is left. */
  lemma OwedAtLeaving(s: State, a: Action, id: EventId)
    requires Enabled(s, a) && (a.NoPartitionClient? || a.EndBatch?)
    ensures Owed(Next(s, a), id) <= Owed(s, id)
  {
    var t := Next(s, a);
    SendersStep(s, a, id);
    assert Requests(t, id) == Requests(s, id);
  }

  lemma UnsentIsTodo(s: State, pc: Pc, id: EventId)
    requires Lists(Unsent(pc), id) || Owns(s, pc, id)
    ensures Lists(Todo(pc), id)
  {
    var rows := Todo(pc);
    if Lists(Unsent(pc), id) {
      var i :| 0 <= i < |Unsent(pc)| && Unsent(pc)[i].id == id;
      assert rows[if pc.Looping? then i else i + 1].id == id;
    } else {
      assert rows[0].id == id;
    }
  }

  /** Losing the session frees the lock: somebody else may fetch what this replica still has. */
  lemma OwedAtDrop(s: State, r: Rid, id: EventId)
    requires Inv(s) && Enabled(s, DropSession(r))
    ensures Owed(Next(s, DropSession(r)), id) <= Owed(s, id) + Charge(s, DropSession(r), id)
  {
    var t := Next(s, DropSession(r));
    SendersStep(s, DropSession(r), id);
    assert Requests(t, id) == Requests(s, id);
    if s.lock == Some(r) && Carried(s, id) {
      UnsentIsTodo(s, s.procs[r], id);
    }
  }

  /** What happens outside a batch, and the crash of a process. */
  lemma OwedOutside(s: State, a: Action, id: EventId)
    requires Inv(s) && Enabled(s, a)
    requires a.Start? || a.Shutdown? || a.Crash? || a.LockGranted? || a.LockNotGranted? || a.LockReplyLost? ||
             a.FetchFailed?
    ensures Owed(Next(s, a), id) <= Owed(s, id) + Charge(s, a, id)
  {
    var t := Next(s, a);
    SendersStep(s, a, id);
    assert Requests(t, id) == Requests(s, id);
  }

  lemma OwedAtForeign(s: State, value: Value, id: EventId)
    requires Enabled(s, ForeignRecord(value))
    ensures Owed(Next(s, ForeignRecord(value)), id) <= Owed(s, id)
  {
    var t := Next(s, ForeignRecord(value));
    assert t.log[..|t.log| - 1] == s.log;
    assert Requests(t, id) == Requests(s, id) && Senders(t, id) == Senders(s, id);
    assert Carried(s, id) <==> Carried(t, id);
  }

  lemma OwedAtCommit(s: State, row: OutboxRow, id: EventId)
    requires Enabled(s, Commit(row))
    ensures Owed(Next(s, Commit(row)), id) <= Owed(s, id)
  {
    var t := Next(s, Commit(row));
    assert Requests(t, id) == Requests(s, id) && Senders(t, id) == Senders(s, id);
    assert Carried(s, id) <==> Carried(t, id);
    assert Done(s, id) ==> Done(t, id);
  }

  /** A step adds to what is owed no more than it is charged for. */
  lemma OwedGrowsByCharge(s: State, a: Action, id: EventId)
    requires Inv(s) && Tidy(s) && Enabled(s, a)
    ensures Owed(Next(s, a), id) <= Owed(s, id) + Charge(s, a, id)
  {
    if a.Send? {
      OwedAtSend(s, a.r, id);
    } else if a.BrokerAppend? {
      OwedAtAppend(s, a.req, id);
    } else if a.BrokerLose? {
      OwedAtLose(s, a.req, id);
    } else if a.Fetch? {
      OwedAtFetch(s, a.r, a.limit, a.batch, id);
    } else if a.DropSession? {
      OwedAtDrop(s, a.r, id);
    } else if a.Commit? {
      OwedAtCommit(s, a.row, id);
    } else if a.ForeignRecord? {
      OwedAtForeign(s, a.value, id);
    } else if a.ProduceOk? || a.ProduceFailed? {
      OwedAtProduce(s, a, id);
    } else if a.MarkOk? || a.MarkFailed? {
      OwedAtMark(s, a, id);
    } else if a.SkipUnroutable? {
      OwedAtSkip(s, a.r, id);
    } else if a.NoPartitionClient? || a.EndBatch? {
      OwedAtLeaving(s, a, id);
    } else {
      OwedOutside(s, a, id);
    }
  }

  lemma {:induction false} OwedOverRun(s: State, actions: seq<Action>, id: EventId)
    requires Inv(s) && Tidy(s) && Runs(s, actions)
    ensures Owed(After(s, actions), id) <= Owed(s, id) + Charges(s, actions, id)
    decreases |actions|
  {
    if actions == [] {
    } else {
      InvKept(s, actions[0]);
      TidyKept(s, actions[0]);
      OwedGrowsByCharge(s, actions[0], id);
      OwedOverRun(Next(s, actions[0]), actions[1..], id);
    }
  }

  /** In every run an event is in the partition at most once, plus once for each charged fault. */
  lemma BoundedDuplicates(s: State, actions: seq<Action>, id: EventId)
    requires Init(s) && Runs(s, actions)
    ensures LogCount(After(s, actions).log, id) <= 1 + Charges(s, actions, id)
  {
    OwedOverRun(s, actions, id);
    assert Requests(s, id) == {} && Senders(s, id) == {};
  }

  lemma {:induction false} ExclusiveOverRun(s: State, actions: seq<Action>)
    requires Inv(s) && Exclusive(s) && Runs(s, actions) && CalmRun(s, actions)
    ensures Exclusive(After(s, actions))
    decreases |actions|
  {
    if actions == [] {
    } else {
      InvKept(s, actions[0]);
      ExclusiveKept(s, actions[0]);
      ExclusiveOverRun(Next(s, actions[0]), actions[1..]);
    }
  }

  /** At most one replica is inside a poll. */
  lemma OneReplicaPolls(s: State, actions: seq<Action>, r1: Rid, r2: Rid)
    requires Init(s) && Runs(s, actions) && CalmRun(s, actions)
    requires var t := After(s, actions);
             r1 in t.procs && r2 in t.procs && Active(t.procs[r1]) && Active(t.procs[r2])
    ensures r1 == r2
  {
    ExclusiveOverRun(s, actions);
  }

  const FIRST: OutboxRow := OutboxRow(7, "auth_email", Message(7, "a@b", ""), 0)

  /** No produce, no mark and no process fails. */
  predicate NoFailures(actions: seq<Action>) {
    forall i | 0 <= i < |actions| :: !actions[i].ProduceFailed? && !actions[i].MarkFailed? && !actions[i].Crash?
  }

  lemma {:induction false} ChargesAppend(s: State, actions: seq<Action>, a: Action, id: EventId)
    requires Runs(s, actions) && Enabled(After(s, actions), a)
    ensures Runs(s, actions + [a]) &&
            Charges(s, actions + [a], id) == Charges(s, actions, id) + Charge(After(s, actions), a, id)
    ensures After(s, actions + [a]) == Next(After(s, actions), a)
    decreases |actions|
  {
    RunsAppend(s, actions, a);
    if actions == [] {
      assert [a][1..] == [];
    } else {
      ChargesAppend(Next(s, actions[0]), actions[1..], a, id);
      assert (actions + [a])[1..] == actions[1..] + [a];
    }
  }

  /** Replica `r` sends the one row it fetched and the broker appends it, without a fault. */
  lemma SendFetched(s: State, actions: seq<Action>, r: Rid) returns (more: seq<Action>)
    requires Runs(s, actions) && NoFailures(actions)
    requires var t := After(s, actions);
             r in t.procs && t.procs[r].Looping? && t.procs[r].rest == [FIRST] && t.nextReq !in t.inflight
    ensures Runs(s, more) && NoFailures(more) && Charges(s, more, FIRST.id) == Charges(s, actions, FIRST.id)
    ensures var t := After(s, actions);
            After(s, more) ==
              t.(procs := t.procs[r := Sending(FIRST, t.nextReq, [], t.procs[r].seen)],
                 log := t.log + [Published(FIRST, t.procs[r].seen)],
                 appended := t.appended + {t.nextReq}, nextReq := t.nextReq + 1)
  {
    var t := After(s, actions);
    assert [FIRST][1..] == [];
    ChargesAppend(s, actions, Send(r), FIRST.id);
    more := actions + [Send(r)];
    ChargesAppend(s, more, BrokerAppend(t.nextReq), FIRST.id);
    more := more + [BrokerAppend(t.nextReq)];
    assert After(s, more).inflight == t.inflight;
  }

  /** Replica `r` starts and gets the lock, which is free. */
  lemma TakeLead(s: State, actions: seq<Action>, r: Rid) returns (more: seq<Action>)
    requires Runs(s, actions) && NoFailures(actions)
    requires var t := After(s, actions); t.lock == None && r !in t.procs && r !in t.sessions
    ensures Runs(s, more) && NoFailures(more) && Charges(s, more, FIRST.id) == Charges(s, actions, FIRST.id)
    ensures var t := After(s, actions);
            After(s, more) == t.(procs := t.procs[r := Fetching], sessions := t.sessions + {r}, lock := Some(r))
  {
    var t := After(s, actions);
    ChargesAppend(s, actions, Start(r), FIRST.id);
    more := actions + [Start(r)];
    ChargesAppend(s, more, LockGranted(r), FIRST.id);
    more := more + [LockGranted(r)];
    assert After(s, more).procs == t.procs[r := Fetching];
  }

  /** Then it fetches the one event there is. */
  lemma FetchFirst(s: State, actions: seq<Action>, r: Rid) returns (more: seq<Action>)
    requires Runs(s, actions) && NoFailures(actions)
    requires var t := After(s, actions);
             && t.table == map[FIRST.id := Stored(FIRST, false)]
             && t.lock == None && r !in t.procs && r !in t.sessions
    ensures Runs(s, more) && NoFailures(more) && Charges(s, more, FIRST.id) == Charges(s, actions, FIRST.id)
    ensures var t := After(s, actions);
            After(s, more) ==
              t.(procs := t.procs[r := Looping([FIRST], {FIRST.id})], sessions := t.sessions + {r}, lock := Some(r))
  {
    var t := After(s, actions);
    more := TakeLead(s, actions, r);
    FetchOnly(After(s, more));
    ChargesAppend(s, more, Fetch(r, 50, [FIRST]), FIRST.id);
    more := more + [Fetch(r, 50, [FIRST])];
    assert t.table.Keys == {FIRST.id};
    assert After(s, more).procs == t.procs[r := Looping([FIRST], {FIRST.id})];
  }

  /** Replica 1 has the lock and has fetched the one event there is. */
  function OneFetched(): State {
    State(map[FIRST.id := Stored(FIRST, false)], Some(1), {1}, map[1 := Looping([FIRST], {FIRST.id})], [], map[], {}, 0)
  }

  lemma FirstFetched() returns (s: State, actions: seq<Action>)
    ensures Init(s) && Runs(s, actions) && NoFailures(actions) && Charges(s, actions, FIRST.id) == 0
    ensures After(s, actions) == OneFetched()
  {
    s := State(map[], None, {}, map[], [], map[], {}, 0);
    ChargesAppend(s, [], Commit(FIRST), FIRST.id);
    actions := [] + [Commit(FIRST)];
    actions := FetchFirst(s, actions, 1);
  }

  /** A run without faults that ends with the one event in the partition. */
  lemma FirstAppended() returns (s: State, actions: seq<Action>)
    ensures Init(s) && Runs(s, actions)
    ensures var log := After(s, actions).log; |log| == 1 && log[0].Published? && log[0].row == FIRST
  {
    s, actions := FirstFetched();
    actions := SendFetched(s, actions, 1);
  }

  /** Replica `r` then sees the produce succeed and marks the row. */
  lemma PublishFetched(s: State, actions: seq<Action>, r: Rid) returns (more: seq<Action>)
    requires Runs(s, actions) && NoFailures(actions)
    requires var t := After(s, actions);
             r in t.procs && t.procs[r].Looping? && t.procs[r].rest == [FIRST] && t.nextReq !in t.inflight
    ensures Runs(s, more) && NoFailures(more) && Charges(s, more, FIRST.id) == Charges(s, actions, FIRST.id)
    ensures var t := After(s, actions); var u := After(s, more);
            && LogCount(u.log, FIRST.id) == LogCount(t.log, FIRST.id) + 1
            && u.procs == t.procs[r := Looping([], t.procs[r].seen)]
            && u.inflight == t.inflight && u.nextReq == t.nextReq + 1
  {
    var t := After(s, actions);
    more := SendFetched(s, actions, r);
    var u := After(s, more);
    assert u.log[..|u.log| - 1] == t.log;
    ChargesAppend(s, more, ProduceOk(r), FIRST.id);
    more := more + [ProduceOk(r)];
    ChargesAppend(s, more, MarkOk(r), FIRST.id);
    more := more + [MarkOk(r)];
  }

  /** Then its session drops, which is charged. */
  lemma FirstDropped() returns (s: State, actions: seq<Action>)
    ensures Init(s) && Runs(s, actions) && NoFailures(actions) && Charges(s, actions, FIRST.id) == 1
    ensures After(s, actions) == OneFetched().(sessions := {}, lock := None)
  {
    s, actions := FirstFetched();
    assert Lists([FIRST], FIRST.id) by {
      assert [FIRST][0].id == FIRST.id;
    }
    ChargesAppend(s, actions, DropSession(1), FIRST.id);
    actions := actions + [DropSession(1)];
  }

  /** Replica 2 gets the lock and fetches the same event. */
  lemma BothFetched() returns (s: State, actions: seq<Action>)
    ensures Init(s) && Runs(s, actions) && NoFailures(actions) && Charges(s, actions, FIRST.id) == 1
    ensures var t := After(s, actions); var looping := Looping([FIRST], {FIRST.id});
            t.procs == map[1 := looping, 2 := looping] && t.log == [] && t.inflight == map[] && t.nextReq == 0
  {
    s, actions := FirstDropped();
    actions := FetchFirst(s, actions, 2);
  }

  /**
   The session drop does count: when replica 1 loses its session between its fetch
   and its first produce, replica 2 fetches the same row and both publish it,
   although no produce, no mark and no process failed. The bound is attained.
   */
  lemma DropMidPollDuplicates() returns (s: State, actions: seq<Action>)
    ensures Init(s) && Runs(s, actions) && NoFailures(actions)
    ensures LogCount(After(s, actions).log, FIRST.id) == 2 == 1 + Charges(s, actions, FIRST.id)
  {
    s, actions := BothFetched();
    actions := PublishFetched(s, actions, 1);
    actions := PublishFetched(s, actions, 2);
  }

  lemma FetchOnly(s: State)
    requires s.table == map[FIRST.id := Stored(FIRST, false)]
    ensures IsBatch(s.table, 50, [FIRST])
  {
    assert Lists([FIRST], FIRST.id) by {
      assert [FIRST][0].id == FIRST.id;
    }
  }
}
