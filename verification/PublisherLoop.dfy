/**
 The body of the publisher's `run` loop as imperative code
 (services/identity/src/outbox/publisher.rs), executed while every other replica,
 the broker and the handlers interfere between its statements. Each statement
 that talks to the outside is one action of the step system, so whatever the
 code does is a run of that system and inherits all that is proved about runs.
 */
module PublisherLoop {
  import opened Basics
  import opened Outbox
  import opened Publisher
  import opened PublisherSafety
  import Drain

  /** The action is a move of the replica's own loop. */
  predicate By(a: Action, me: Rid) {
    !a.Commit? && !a.DropSession? && !a.BrokerAppend? && !a.BrokerLose? && !a.ForeignRecord? && a.r == me
  }

  /** The replica's own moves in a run. */
  function Own(trace: seq<Action>, me: Rid): seq<Action> {
    if trace == [] then []
    else
      var last := trace[|trace| - 1];
      Own(trace[..|trace| - 1], me) + if By(last, me) then [last] else []
  }

  function Flat(steps: seq<seq<Action>>): seq<Action> {
    if steps == [] then [] else Flat(steps[..|steps| - 1]) + steps[|steps| - 1]
  }

  /** The moves for a row after which the loop goes on: the mark may fail. */
  ghost predicate Continues(me: Rid, row: OutboxRow, step: seq<Action>) {
    if Routable(row) then
      || step == [Send(me), ProduceOk(me), MarkOk(me)]
      || step == [Send(me), ProduceOk(me), MarkFailed(me, true)]
      || step == [Send(me), ProduceOk(me), MarkFailed(me, false)]
    else step == [SkipUnroutable(me)]
  }

  /** The moves for a row after which the loop ends early: no client, or a failed produce. */
  ghost predicate Stops(me: Rid, row: OutboxRow, step: seq<Action>) {
    Routable(row) && (step == [NoPartitionClient(me)] || step == [Send(me), ProduceFailed(me)])
  }

  ghost predicate Settles(me: Rid, rows: seq<OutboxRow>, steps: seq<seq<Action>>) {
    |steps| <= |rows| && forall k | 0 <= k < |steps| :: Continues(me, rows[k], steps[k])
  }

  /** One complete pass over the fetched rows: one step a row, in order, up to the end or the first stop. */
  ghost predicate Pass(me: Rid, rows: seq<OutboxRow>, steps: seq<seq<Action>>) {
    steps != [] &&
    var n := |steps| - 1;
    && Settles(me, rows, steps[..n])
    && if n == |rows| then steps[n] == [EndBatch(me)] else Stops(me, rows[n], steps[n])
  }

  /** Some row of the pass was sent. */
  predicate SendsIn(me: Rid, steps: seq<seq<Action>>) {
    exists k | 0 <= k < |steps| :: steps[k] != [] && steps[k][0] == Send(me)
  }

  /**
   The client cache decides: a pass that sent a row has the topic's client, and one
   that stopped for want of it has not.
   */
  ghost predicate ClientDecides(me: Rid, steps: seq<seq<Action>>, clients: set<string>) {
    && (SendsIn(me, steps) ==> "email.auth" in clients)
    && ([NoPartitionClient(me)] in steps ==> "email.auth" !in clients)
  }

  /** The moves of one poll: the lock test, the fetch, and a pass over a non-empty batch. */
  ghost predicate PollMoves(me: Rid, limit: nat, lock: Action, fetch: Option<Action>, pass: seq<seq<Action>>) {
    if lock != LockGranted(me) then
      (lock == LockNotGranted(me) || lock == LockReplyLost(me)) && fetch == None && pass == []
    else
      fetch.Some? &&
      if fetch.value.Fetch? && fetch.value.batch != [] then
        fetch.value == Fetch(me, limit, fetch.value.batch) && Pass(me, fetch.value.batch, pass)
      else
        (fetch.value == FetchFailed(me) || fetch.value == Fetch(me, limit, [])) && pass == []
  }

  /** What a replica did in one poll. */
  datatype PollTrace = PollTrace(lock: Action, fetch: Option<Action>, pass: seq<seq<Action>>)

  function Moves(poll: PollTrace): seq<Action> {
    [poll.lock] + (if poll.fetch.Some? then [poll.fetch.value] else []) + Flat(poll.pass)
  }

  function AllMoves(polls: seq<PollTrace>): seq<Action> {
    if polls == [] then [] else AllMoves(polls[..|polls| - 1]) + Moves(polls[|polls| - 1])
  }

  ghost predicate AllPolls(me: Rid, limit: nat, polls: seq<PollTrace>) {
    forall i | 0 <= i < |polls| :: PollMoves(me, limit, polls[i].lock, polls[i].fetch, polls[i].pass)
  }

  /** Once a row was sent the client is there, and no later poll stops for want of it. */
  ghost predicate KeepsClient(me: Rid, polls: seq<PollTrace>, clients: set<string>) {
    && (forall i | 0 <= i < |polls| && SendsIn(me, polls[i].pass) :: "email.auth" in clients)
    && (forall i, j | 0 <= i < j < |polls| && SendsIn(me, polls[i].pass) :: [NoPartitionClient(me)] !in polls[j].pass)
  }

  lemma KeepsClientOn(me: Rid, polls: seq<PollTrace>, poll: PollTrace, clients: set<string>, clients': set<string>)
    requires KeepsClient(me, polls, clients) && clients <= clients' && ClientDecides(me, poll.pass, clients')
    ensures KeepsClient(me, polls + [poll], clients')
  {
    var all := polls + [poll];
    forall i | 0 <= i < |polls| ensures all[i] == polls[i] {
    }
    assert all[|polls|] == poll;
  }

  datatype LockReply = Held | Refused | Failed

  /**
   PostgreSQL, Kafka and all other replicas. In a `calm` run no query and no client
   fails, and what was appended is acknowledged.
   */
  class World {
    const calm: bool
    var st: State
    ghost const start: State
    ghost var trace: seq<Action>

    /** `trace` is a run from the initial state to `st`. */
    ghost predicate Valid()
      reads this
    {
      Init(start) && Runs(start, trace) && After(start, trace) == st
    }

    /** What the code did is a run, so the invariant of all runs holds. */
    lemma Safe()
      requires Valid()
      ensures Inv(st)
    {
      InvHolds(start, trace);
    }

    constructor (calm: bool)
      ensures Valid() && trace == [] && st.procs == map[] && st.sessions == {} && this.calm == calm
    {
      this.calm := calm;
      var s := State(map[], None, {}, map[], [], map[], {}, 0);
      st := s;
      start := s;
      trace := [];
    }

    method Do(a: Action)
      requires Valid() && Enabled(st, a)
      modifies this
      ensures Valid() && st == Next(old(st), a) && trace == old(trace) + [a]
      ensures forall r :: Own(trace, r) == Own(old(trace), r) + if By(a, r) then [a] else []
    {
      RunsAppend(start, trace, a);
      st := Next(st, a);
      trace := trace + [a];
      assert trace[..|trace| - 1] == old(trace);
    }

    /**
     Any number of actions of everybody else. The body stands for the one
     interleaving in which nobody moves; callers know only the contract.
     */
    method Others(me: Rid)
      requires Valid() && me in st.procs
      modifies this
      ensures Valid() && old(trace) <= trace
      ensures me in st.procs && st.procs[me] == old(st).procs[me]
      ensures Own(trace, me) == Own(old(trace), me)
    {
    }

    method TryAcquireLeaderLock(me: Rid) returns (reply: LockReply, ghost move: Action)
      requires Valid() && At(st, me, Idle)
      modifies this
      ensures Valid() && old(trace) <= trace && Own(trace, me) == Own(old(trace), me) + [move]
      ensures reply == Held <==> move == LockGranted(me)
      ensures reply != Held ==> move == LockNotGranted(me) || (reply == Failed && move == LockReplyLost(me))
      ensures reply == Refused ==> me in st.sessions && st.lock.Some? && st.lock != Some(me)
      ensures reply == Failed ==> !calm || me !in st.sessions
      ensures At(st, me, if reply == Held then Fetching else Idle)
    {
      Others(me);
      var fails: bool, granted: bool := *, *;
      fails := fails && !calm;
      if !fails && LockFree(st, me) {
        Do(LockGranted(me));
        return Held, LockGranted(me);
      } else if fails && granted && LockFree(st, me) {
        Do(LockReplyLost(me));
        return Failed, LockReplyLost(me);
      }
      Do(LockNotGranted(me));
      return if fails || me !in st.sessions then Failed else Refused, LockNotGranted(me);
    }

    lemma SomeAnswer(limit: nat)
      requires Valid()
      ensures exists answer :: IsBatch(st.table, limit, answer)
    {
      Safe();
      var some := Drain.SomeBatch(st.table, limit);
    }

    /** The answer is any the query may give, and there always is one. */
    method FetchUnpublished(me: Rid, limit: nat) returns (rows: Option<seq<OutboxRow>>, ghost move: Action)
      requires Valid() && At(st, me, Fetching)
      modifies this
      ensures Valid() && old(trace) <= trace && Own(trace, me) == Own(old(trace), me) + [move]
      ensures move == if rows.Some? then Fetch(me, limit, rows.value) else FetchFailed(me)
      ensures (rows.None? ==> !calm) && (rows.Some? ==> |rows.value| <= limit)
      ensures rows.None? || rows.value == [] ==> At(st, me, Idle)
      ensures rows.Some? && rows.value != [] ==>
                me in st.procs && st.procs[me].Looping? && st.procs[me].rest == rows.value
    {
      Others(me);
      var fails: bool := *;
      if fails && !calm {
        Do(FetchFailed(me));
        return None, FetchFailed(me);
      }
      SomeAnswer(limit);
      var answer: seq<OutboxRow> :| IsBatch(st.table, limit, answer);
      assert |answer| <= limit;
      Do(Fetch(me, limit, answer));
      return Some(answer), Fetch(me, limit, answer);
    }

    /** `produce`: the request may reach the log with the error reported, and long after it. */
    method Produce(me: Rid) returns (ok: bool)
      requires Valid() && AtRow(st, me) && Routable(st.procs[me].rest[0])
      modifies this
      ensures Valid() && old(trace) <= trace
      ensures Own(trace, me) == Own(old(trace), me) + [Send(me), if ok then ProduceOk(me) else ProduceFailed(me)]
      ensures var pc := old(st).procs[me];
              At(st, me, if ok then Marking(pc.rest[0], pc.rest[1..], pc.seen) else Idle)
      ensures !ok ==> !calm || old(st).nextReq !in st.appended
    {
      Do(Send(me));
      Others(me);
      var acknowledged: bool := *;
      if st.procs[me].req in st.appended && (acknowledged || calm) {
        Do(ProduceOk(me));
        return true;
      }
      Do(ProduceFailed(me));
      return false;
    }

    method MarkPublished(me: Rid) returns (ok: bool, ghost move: Action)
      requires Valid() && me in st.procs && st.procs[me].Marking?
      modifies this
      ensures Valid() && old(trace) <= trace && Own(trace, me) == Own(old(trace), me) + [move]
      ensures if ok then move == MarkOk(me) else move == MarkFailed(me, true) || move == MarkFailed(me, false)
      ensures var pc := old(st).procs[me]; At(st, me, Looping(pc.rest, pc.seen))
      ensures !ok ==> !calm
    {
      Others(me);
      var fails: bool, applied: bool := *, *;
      if !fails || calm {
        Do(MarkOk(me));
        return true, MarkOk(me);
      }
      Do(MarkFailed(me, applied));
      return false, MarkFailed(me, applied);
    }
  }

  class Replica {
    const world: World
    const me: Rid
    const batchSize: nat
    var isLeader: bool
    var partitionClients: set<string>

    ghost predicate Valid()
      reads this, world
    {
      world.Valid() && me in world.st.procs
    }

    constructor (world: World, me: Rid, batchSize: nat)
      requires world.Valid() && Enabled(world.st, Start(me))
      modifies world
      ensures this.world == world && this.me == me && this.batchSize == batchSize
      ensures Valid() && At(world.st, me, Idle) && world.trace == old(world.trace) + [Start(me)]
      ensures !isLeader && partitionClients == {}
    {
      this.world := world;
      this.me := me;
      this.batchSize := batchSize;
      isLeader := false;
      partitionClients := {};
      new;
      world.Do(Start(me));
    }

    /** The cached client of the topic, or a new one, which Kafka may refuse. */
    method PartitionClient(topic: string) returns (ok: bool)
      modifies this`partitionClients
      ensures old(partitionClients) <= partitionClients
      ensures topic in old(partitionClients) ==> ok
      ensures (ok <==> topic in partitionClients) && partitionClients <= old(partitionClients) + {topic}
      ensures !ok ==> !world.calm
    {
      if topic in partitionClients {
        return true;
      }
      var refused: bool := *;
      if !refused || world.calm {
        partitionClients := partitionClients + {topic};
        return true;
      }
      return false;
    }

    /** Produce the row and mark it; a failed mark is passed over. */
    method ProduceAndMark(ghost event: OutboxRow) returns (go: bool, ghost step: seq<Action>)
      requires Valid() && AtRow(world.st, me) && world.st.procs[me].rest[0] == event && Routable(event)
      modifies world
      ensures Valid() && old(world.trace) <= world.trace
      ensures Own(world.trace, me) == Own(old(world.trace), me) + step
      ensures go ==> Continues(me, event, step)
      ensures go ==> world.st.procs[me].Looping? && world.st.procs[me].rest == old(world.st).procs[me].rest[1..]
      ensures !go ==> step == [Send(me), ProduceFailed(me)] && At(world.st, me, Idle)
    {
      var produced := world.Produce(me);
      if !produced {
        return false, [Send(me), ProduceFailed(me)];
      }
      ghost var sent := Own(world.trace, me);
      var marked, mark := world.MarkPublished(me);
      step := [Send(me), ProduceOk(me), mark];
      assert sent + [mark] == Own(old(world.trace), me) + step;
      return true, step;
    }

    /** The body of the `for` loop for one row; `go` says that the loop goes on to the next. */
    method PublishRow(event: OutboxRow) returns (go: bool, ghost step: seq<Action>)
      requires Valid() && AtRow(world.st, me) && world.st.procs[me].rest[0] == event
      modifies this`partitionClients, world
      ensures Valid() && old(world.trace) <= world.trace
      ensures Own(world.trace, me) == Own(old(world.trace), me) + step
      ensures go ==> Continues(me, event, step)
      ensures go ==> world.st.procs[me].Looping? && world.st.procs[me].rest == old(world.st).procs[me].rest[1..]
      ensures !go ==> Stops(me, event, step) && At(world.st, me, Idle)
      ensures old(partitionClients) <= partitionClients && ClientDecides(me, [step], partitionClients)
      ensures if event.eventType != "auth_email" then step == [SkipUnroutable(me)]
              else if "email.auth" in partitionClients then step != [] && step[0] == Send(me)
              else step == [NoPartitionClient(me)] && "email.auth" !in old(partitionClients) && !world.calm
    {
      var topic := RouteTopic(event.eventType);
      if topic.Err? {
        world.Do(SkipUnroutable(me));
        return true, [SkipUnroutable(me)];
      }
      var hasClient := PartitionClient(topic.value);
      if !hasClient {
        world.Do(NoPartitionClient(me));
        return false, [NoPartitionClient(me)];
      }
      go, step := ProduceAndMark(event);
    }

    /** The `for` loop over the fetched rows. */
    method PassOver(events: seq<OutboxRow>) returns (ghost pass: seq<seq<Action>>)
      requires Valid() && world.st.procs[me].Looping? && world.st.procs[me].rest == events
      modifies this`partitionClients, world
      ensures Valid() && At(world.st, me, Idle) && old(world.trace) <= world.trace
      ensures Own(world.trace, me) == Own(old(world.trace), me) + Flat(pass) && Pass(me, events, pass)
      ensures old(partitionClients) <= partitionClients && ClientDecides(me, pass, partitionClients)
    {
      pass := [];
      var i := 0;
      while i < |events|
        invariant 0 <= i <= |events| && |pass| == i
        invariant Valid() && old(world.trace) <= world.trace
        invariant Own(world.trace, me) == Own(old(world.trace), me) + Flat(pass)
        invariant world.st.procs[me].Looping? && world.st.procs[me].rest == events[i..]
        invariant Settles(me, events, pass)
        invariant old(partitionClients) <= partitionClients && ClientDecides(me, pass, partitionClients)
      {
        ghost var clients := partitionClients;
        var go, step := PublishRow(events[i]);
        StepTaken(me, events, Own(old(world.trace), me), pass, step, clients, partitionClients);
        pass := pass + [step];
        if !go {
          return;
        }
        i := i + 1;
      }
      world.Do(EndBatch(me));
      StepTaken(me, events, Own(old(world.trace), me), pass, [EndBatch(me)], partitionClients, partitionClients);
      pass := pass + [[EndBatch(me)]];
    }

    /** The part of a poll behind the lock test: the fetch, and the pass over what it gives. */
    method FetchAndPublish() returns (ghost fetch: Action, ghost pass: seq<seq<Action>>)
      requires Valid() && At(world.st, me, Fetching)
      modifies this`partitionClients, world
      ensures Valid() && At(world.st, me, Idle) && old(world.trace) <= world.trace
      ensures Own(world.trace, me) == Own(old(world.trace), me) + [fetch] + Flat(pass)
      ensures PollMoves(me, batchSize, LockGranted(me), Some(fetch), pass) && |pass| <= batchSize + 1
      ensures old(partitionClients) <= partitionClients && ClientDecides(me, pass, partitionClients)
    {
      var fetched;
      fetched, fetch := world.FetchUnpublished(me, batchSize);
      pass := [];
      if fetched.None? || fetched.value == [] {
        return;
      }
      pass := PassOver(fetched.value);
    }

    /**
     One poll. `did` are the replica's own actions, in order: they make one
     complete poll, and together with everybody else's they are a run.
     */
    method Poll() returns (ghost did: PollTrace)
      requires Valid() && At(world.st, me, Idle)
      modifies this, world
      ensures Valid() && At(world.st, me, Idle) && old(world.trace) <= world.trace
      ensures Own(world.trace, me) == Own(old(world.trace), me) + Moves(did)
      ensures PollMoves(me, batchSize, did.lock, did.fetch, did.pass) && |did.pass| <= batchSize + 1
      ensures isLeader == (did.lock == LockGranted(me))
      ensures old(partitionClients) <= partitionClients && ClientDecides(me, did.pass, partitionClients)
    {
      var reply;
      ghost var lock, fetch, pass;
      reply, lock := world.TryAcquireLeaderLock(me);
      did := PollTrace(lock, None, []);
      isLeader := reply == Held;
      if isLeader {
        fetch, pass := FetchAndPublish();
        did := PollTrace(lock, Some(fetch), pass);
        Together(Own(old(world.trace), me), [lock], [fetch], Flat(pass));
      }
    }

    /**
     `run`: complete polls, one after the other, until it is cancelled, which it notices
     only between them. Once a row was sent, no later poll stops for want of a client.
     */
    method Run(polls: nat) returns (ghost done: seq<PollTrace>)
      requires Valid() && At(world.st, me, Idle)
      modifies this, world
      ensures Valid() && At(world.st, me, Stopped) && old(world.trace) <= world.trace
      ensures |done| == polls && AllPolls(me, batchSize, done)
      ensures Own(world.trace, me) == Own(old(world.trace), me) + AllMoves(done) + [Shutdown(me)]
      ensures forall i, j | 0 <= i < j < |done| && SendsIn(me, done[i].pass) :: [NoPartitionClient(me)] !in done[j].pass
    {
      done := [];
      for n := 0 to polls
        invariant Valid() && At(world.st, me, Idle) && old(world.trace) <= world.trace
        invariant |done| == n && AllPolls(me, batchSize, done)
        invariant Own(world.trace, me) == Own(old(world.trace), me) + AllMoves(done)
        invariant KeepsClient(me, done, partitionClients)
      {
        ghost var clients := partitionClients;
        ghost var did := Poll();
        KeepsClientOn(me, done, did, clients, partitionClients);
        MovesSnoc(done, did);
        Together(Own(old(world.trace), me), AllMoves(done), Moves(did), []);
        done := done + [did];
      }
      world.Do(Shutdown(me));
    }
  }

  lemma Together(before: seq<Action>, x: seq<Action>, y: seq<Action>, z: seq<Action>)
    ensures before + x + y + z == before + (x + y + z)
    ensures before + x + y == before + (x + y)
  {
  }

  lemma MovesSnoc(polls: seq<PollTrace>, poll: PollTrace)
    ensures AllMoves(polls + [poll]) == AllMoves(polls) + Moves(poll)
  {
    assert (polls + [poll])[..|polls|] == polls;
  }

  /** A row more: rows settled before it did not stop for want of a client. */
  lemma ClientDecidesOn(me: Rid, rows: seq<OutboxRow>, steps: seq<seq<Action>>, step: seq<Action>,
                        clients: set<string>, clients': set<string>)
    requires Settles(me, rows, steps) && ClientDecides(me, steps, clients) && clients <= clients'
    requires ClientDecides(me, [step], clients')
    ensures ClientDecides(me, steps + [step], clients')
  {
    var all := steps + [step];
    forall k | 0 <= k < |steps| ensures all[k] != [NoPartitionClient(me)] {
      assert Continues(me, rows[k], steps[k]);
    }
    if SendsIn(me, all) {
      var k :| 0 <= k < |all| && all[k] != [] && all[k][0] == Send(me);
      if k < |steps| {
        assert steps[k] != [] && steps[k][0] == Send(me);
      } else {
        assert [step][0] == all[k];
      }
    }
  }

  lemma SettlesOn(me: Rid, rows: seq<OutboxRow>, steps: seq<seq<Action>>, step: seq<Action>)
    requires Settles(me, rows, steps)
    ensures |steps| < |rows| && Continues(me, rows[|steps|], step) ==> Settles(me, rows, steps + [step])
    ensures |steps| < |rows| && Stops(me, rows[|steps|], step) ==> Pass(me, rows, steps + [step])
    ensures |steps| == |rows| && step == [EndBatch(me)] ==> Pass(me, rows, steps + [step])
  {
    var all := steps + [step];
    assert all[..|steps|] == steps && all[|steps|] == step;
  }

  /** One step more in a pass: the loop goes on, or the pass is complete. */
  lemma StepTaken(me: Rid, rows: seq<OutboxRow>, before: seq<Action>, steps: seq<seq<Action>>, step: seq<Action>,
                  clients: set<string>, clients': set<string>)
    requires Settles(me, rows, steps) && ClientDecides(me, steps, clients) && clients <= clients'
    requires ClientDecides(me, [step], clients')
    ensures before + Flat(steps) + step == before + Flat(steps + [step])
    ensures ClientDecides(me, steps + [step], clients')
    ensures |steps| < |rows| && Continues(me, rows[|steps|], step) ==> Settles(me, rows, steps + [step])
    ensures |steps| < |rows| && Stops(me, rows[|steps|], step) ==> Pass(me, rows, steps + [step])
    ensures |steps| == |rows| && step == [EndBatch(me)] ==> Pass(me, rows, steps + [step])
  {
    ClientDecidesOn(me, rows, steps, step, clients, clients');
    FlatSnoc(steps, step);
    SettlesOn(me, rows, steps, step);
    Together(before, Flat(steps), step, []);
  }

  lemma FlatSnoc(steps: seq<seq<Action>>, step: seq<Action>)
    ensures Flat(steps + [step]) == Flat(steps) + step
  {
    assert (steps + [step])[..|steps|] == steps;
  }
}
