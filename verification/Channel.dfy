/**
 The gateway's channel to the identity service (services/gateway/src/pool.rs):
 `client` rebuilds the shared channel after an SVID rotation, with a check, a
 write lock and a second check, while any number of tasks call it.
 */
module Channel {
  import opened Basics

  type Tid = nat

  /** A channel, known by the source's sequence number at its TLS handshake. */
  datatype Channel = Channel(handshake: nat)

  /** Where a call of `client` is; `current` is the sequence number it read first. */
  datatype Pc =
    | ReadSeq(current: nat)
    | WaitRead(current: nat)
    | WaitWrite(current: nat)
    | Reading(current: nat)
    | Locked(current: nat)
    | Connecting(current: nat)
    | Connected(current: nat, channel: Channel)
    | Installed(current: nat)
    | Cloning(current: nat)
    | Returned(current: nat, channel: Channel)
    | Failed(current: nat)

  /**
   `stored` are all values `created_seq` has held: its relaxed load outside the
   lock may still see an old one. `writer` and `readers` are the RwLock.
   */
  datatype State = State(
    sourceSeq: nat,
    channel: Channel,
    created: nat,
    stored: set<nat>,
    writer: Option<Tid>,
    readers: set<Tid>,
    tasks: map<Tid, Pc>)

  datatype Action =
    | Rotate(times: nat)
    | Call(t: Tid)
    | LoadPrev(t: Tid, prev: nat)
    | LockRead(t: Tid)
    | LockWrite(t: Tid)
    | Recheck(t: Tid)
    | Handshake(t: Tid)
    | ConnectFailed(t: Tid)
    | Install(t: Tid)
    | Store(t: Tid)
    | ReturnWrite(t: Tid)
    | ReturnRead(t: Tid)
    | Cancel(t: Tid)

  /**
   What `new` leaves: the handshake happened at sequence number `handshake`, and
   `created_seq` is read from the source only afterwards.
   */
  function New(handshake: nat, created: nat): State {
    State(created, Channel(handshake), created, {created}, None, {}, map[])
  }

  predicate HoldsWrite(pc: Pc) {
    pc.Locked? || pc.Connecting? || pc.Connected? || pc.Installed? || pc.Cloning?
  }

  predicate Enabled(s: State, a: Action) {
    match a
    case Rotate(times) => times > 0
    case Call(t) => t !in s.tasks
    case LoadPrev(t, prev) => t in s.tasks && s.tasks[t].ReadSeq? && prev in s.stored
    case LockRead(t) => t in s.tasks && s.tasks[t].WaitRead? && s.writer == None
    case LockWrite(t) => t in s.tasks && s.tasks[t].WaitWrite? && s.writer == None && s.readers == {}
    case Recheck(t) => t in s.tasks && s.tasks[t].Locked?
    case Handshake(t) => t in s.tasks && s.tasks[t].Connecting?
    case ConnectFailed(t) => t in s.tasks && (s.tasks[t].Connecting? || s.tasks[t].Connected?)
    case Install(t) => t in s.tasks && s.tasks[t].Connected?
    case Store(t) => t in s.tasks && s.tasks[t].Installed?
    case ReturnWrite(t) => t in s.tasks && s.tasks[t].Cloning?
    case ReturnRead(t) => t in s.tasks && s.tasks[t].Reading?
    case Cancel(t) =>
      t in s.tasks &&
      var pc := s.tasks[t];
      pc.WaitRead? || pc.WaitWrite? || pc.Connecting? || pc.Connected? || pc.Returned? || pc.Failed?
  }

  function Goto(s: State, t: Tid, pc: Pc): State {
    s.(tasks := s.tasks[t := pc])
  }

  /** A dropped guard frees the write lock. */
  function Unlock(s: State, t: Tid): State {
    if s.writer == Some(t) then s.(writer := None) else s
  }

  function Next(s: State, a: Action): State
    requires Enabled(s, a)
  {
    match a
    case Rotate(times) => s.(sourceSeq := s.sourceSeq + times)
    case Call(t) => Goto(s, t, ReadSeq(s.sourceSeq))
    case LoadPrev(t, prev) =>
      var current := s.tasks[t].current;
      Goto(s, t, if current != prev then WaitWrite(current) else WaitRead(current))
    case LockRead(t) => Goto(s, t, Reading(s.tasks[t].current)).(readers := s.readers + {t})
    case LockWrite(t) => Goto(s, t, Locked(s.tasks[t].current)).(writer := Some(t))
    case Recheck(t) =>
      var current := s.tasks[t].current;
      Goto(s, t, if s.created != current then Connecting(current) else Cloning(current))
    case Handshake(t) => Goto(s, t, Connected(s.tasks[t].current, Channel(s.sourceSeq)))
    case ConnectFailed(t) => Unlock(Goto(s, t, Failed(s.tasks[t].current)), t)
    case Install(t) => Goto(s, t, Installed(s.tasks[t].current)).(channel := s.tasks[t].channel)
    case Store(t) =>
      var current := s.tasks[t].current;
      Goto(s, t, Cloning(current)).(created := current, stored := s.stored + {current})
    case ReturnWrite(t) => Unlock(Goto(s, t, Returned(s.tasks[t].current, s.channel)), t)
    case ReturnRead(t) => Goto(s, t, Returned(s.tasks[t].current, s.channel)).(readers := s.readers - {t})
    case Cancel(t) => Unlock(s.(tasks := s.tasks - {t}), t)
  }

  ghost predicate Runs(s: State, actions: seq<Action>)
    decreases |actions|
  {
    actions == [] || (Enabled(s, actions[0]) && Runs(Next(s, actions[0]), actions[1..]))
  }

  ghost function After(s: State, actions: seq<Action>): State
    requires Runs(s, actions)
    decreases |actions|
  {
    if actions == [] then s else After(Next(s, actions[0]), actions[1..])
  }

  lemma {:induction false} RunsAppend(s: State, actions: seq<Action>, a: Action)
    requires Runs(s, actions) && Enabled(After(s, actions), a)
    ensures Runs(s, actions + [a]) && After(s, actions + [a]) == Next(After(s, actions), a)
    decreases |actions|
  {
    if actions == [] {
      assert [a][1..] == [];
    } else {
      RunsAppend(Next(s, actions[0]), actions[1..], a);
      assert (actions + [a])[1..] == actions[1..] + [a];
    }
  }

  // ----- freshness -----

  /** What is known of a call: the channel it will return is at least as fresh as what it read. */
  ghost predicate PcOk(s: State, pc: Pc) {
    && pc.current <= s.sourceSeq
    && match pc
       case WaitRead(current) => current in s.stored
       case Reading(current) => current in s.stored
       case Connecting(current) => s.created != current
       case Connected(current, ch) => s.created != current && current <= ch.handshake <= s.sourceSeq &&
         s.channel.handshake <= ch.handshake
       case Installed(current) => s.created != current && current <= s.channel.handshake
       case Cloning(current) => current <= s.channel.handshake
       case Returned(current, ch) => current <= ch.handshake
       case _ => true
  }

  /**
   Every value `created_seq` ever held is at most the sequence number at which the
   present channel shook hands. The number itself may go down; this does not.
   */
  ghost predicate Inv(s: State) {
    && s.created in s.stored
    && (forall v | v in s.stored :: v <= s.channel.handshake)
    && s.channel.handshake <= s.sourceSeq
    && (forall t | t in s.tasks :: PcOk(s, s.tasks[t]))
    && (forall t | t in s.tasks && HoldsWrite(s.tasks[t]) :: s.writer == Some(t))
    && (s.writer.Some? ==> s.writer.value in s.tasks && HoldsWrite(s.tasks[s.writer.value]) && s.readers == {})
  }

  lemma PcKept(s: State, a: Action, t: Tid)
    requires Inv(s) && Enabled(s, a) && t in Next(s, a).tasks
    ensures PcOk(Next(s, a), Next(s, a).tasks[t])
  {
    if t in s.tasks {
      assert PcOk(s, s.tasks[t]);
      if (a.Install? || a.Store?) && a.t != t {
        assert !HoldsWrite(s.tasks[t]);
      }
      if a.Install? {
        assert PcOk(s, s.tasks[a.t]);
      }
    }
  }

  lemma InvKept(s: State, a: Action)
    requires Inv(s) && Enabled(s, a)
    ensures Inv(Next(s, a))
  {
    var n := Next(s, a);
    forall t | t in n.tasks ensures PcOk(n, n.tasks[t]) {
      PcKept(s, a, t);
    }
    if a.Install? || a.Store? {
      assert PcOk(s, s.tasks[a.t]);
    }
  }

  lemma {:induction false} InvHolds(s: State, actions: seq<Action>)
    requires Inv(s) && Runs(s, actions)
    ensures Inv(After(s, actions))
    decreases |actions|
  {
    if actions == [] {
    } else {
      InvKept(s, actions[0]);
      InvHolds(Next(s, actions[0]), actions[1..]);
    }
  }

  /** Every call that has returned got a channel at least as fresh as the number it read first. */
  ghost predicate AllFresh(s: State) {
    forall t | t in s.tasks && s.tasks[t].Returned? :: s.tasks[t].current <= s.tasks[t].channel.handshake
  }

  /**
   Freshness, for any number of tasks, rotations, failed connects, cancelled
   calls and stale loads: it holds in all runs exactly when no rotation fell
   between the handshake in `new` and its reading of the sequence number.
   */
  lemma FreshExactlyWhen(handshake: nat, created: nat)
    requires handshake <= created
    ensures (forall actions :: Runs(New(handshake, created), actions) ==>
            AllFresh(After(New(handshake, created), actions)))
       <==> handshake == created
  {
    var s := New(handshake, created);
    if handshake == created {
      forall actions | Runs(s, actions) ensures AllFresh(After(s, actions)) {
        InvHolds(s, actions);
        var t := After(s, actions);
        assert forall id | id in t.tasks :: PcOk(t, t.tasks[id]);
      }
    } else {
      var run := StaleRun(handshake, created);
      assert !AllFresh(After(s, run));
    }
  }

  /** The first call after a rotation inside `new` gets the old channel. */
  lemma StaleRun(handshake: nat, created: nat) returns (run: seq<Action>)
    requires handshake < created
    ensures Runs(New(handshake, created), run)
    ensures !AllFresh(After(New(handshake, created), run))
  {
    var s := New(handshake, created);
    run := [];
    RunsAppend(s, run, Call(0));
    run := run + [Call(0)];
    RunsAppend(s, run, LoadPrev(0, created));
    run := run + [LoadPrev(0, created)];
    RunsAppend(s, run, LockRead(0));
    run := run + [LockRead(0)];
    RunsAppend(s, run, ReturnRead(0));
    run := run + [ReturnRead(0)];
    assert After(s, run).tasks[0] == Returned(created, Channel(handshake));
  }

  // ----- how often the channel is rebuilt -----

  /** The call may still rebuild the channel. */
  predicate MayRebuild(pc: Pc) {
    !pc.Cloning? && !pc.Returned? && !pc.Failed? && !pc.WaitRead? && !pc.Reading?
  }

  function Stale(s: State): set<Tid> {
    set t | t in s.tasks && MayRebuild(s.tasks[t]) && s.tasks[t].current != s.sourceSeq
  }

  function Potential(s: State): nat {
    2 * |Stale(s)| + if s.created == s.sourceSeq then 0 else 1
  }

  function Rebuilds(actions: seq<Action>): nat {
    if actions == [] then 0 else (if actions[0].Store? then 1 else 0) + Rebuilds(actions[1..])
  }

  lemma StaleOnlyShrinks(s: State, a: Action)
    requires Enabled(s, a) && !a.Rotate?
    ensures Stale(Next(s, a)) <= Stale(s)
    ensures a.Store? && s.tasks[a.t].current != s.sourceSeq ==> a.t in Stale(s) && a.t !in Stale(Next(s, a))
  {
    var n := Next(s, a);
    forall t | t in Stale(n) ensures t in Stale(s) {
      assert t in s.tasks;
    }
  }

  /** A rebuild spends potential, and nothing but a rotation creates any. */
  lemma PotentialSpent(s: State, a: Action)
    requires Inv(s) && Enabled(s, a) && !a.Rotate?
    ensures Potential(Next(s, a)) + (if a.Store? then 1 else 0) <= Potential(s)
  {
    var n := Next(s, a);
    StaleOnlyShrinks(s, a);
    SubsetCount(Stale(n), Stale(s));
    if a.Store? {
      assert PcOk(s, s.tasks[a.t]);
      assert s.tasks[a.t].current != s.sourceSeq ==> Stale(s) - Stale(n) != {};
    }
  }

  lemma {:induction false} PotentialOverRun(s: State, actions: seq<Action>)
    requires Inv(s) && Runs(s, actions) && forall i | 0 <= i < |actions| :: !actions[i].Rotate?
    ensures Rebuilds(actions) + Potential(After(s, actions)) <= Potential(s)
    decreases |actions|
  {
    if actions == [] {
    } else {
      assert !actions[0].Rotate?;
      PotentialSpent(s, actions[0]);
      InvKept(s, actions[0]);
      PotentialOverRun(Next(s, actions[0]), actions[1..]);
    }
  }

  /**
   Once the SVID stops rotating, with `k` calls still holding an old sequence
   number, the channel is rebuilt at most `2 * k + 1` more times in any schedule.
   */
  lemma RebuildBound(start: State, before: seq<Action>, after: seq<Action>, k: nat)
    requires Inv(start) && Runs(start, before) && Runs(After(start, before), after)
    requires forall i | 0 <= i < |after| :: !after[i].Rotate?
    requires |Stale(After(start, before))| == k
    ensures Rebuilds(after) <= 2 * k + 1
  {
    InvHolds(start, before);
    PotentialOverRun(After(start, before), after);
  }

  // ----- the bound is attained, and the stored number does go down -----

  /** The actions by which a call that waits for the write lock rebuilds the channel. */
  function RebuildActions(t: Tid): seq<Action> {
    [LockWrite(t), Recheck(t), Handshake(t), Install(t), Store(t), ReturnWrite(t)]
  }

  function AfterRebuild(s: State, t: Tid): State
    requires t in s.tasks
  {
    var current := s.tasks[t].current;
    Goto(s, t, Returned(current, Channel(s.sourceSeq)))
      .(channel := Channel(s.sourceSeq), created := current, stored := s.stored + {current})
  }

  /** The call holds the write lock and its new connection. */
  function Reconnected(s: State, t: Tid): State
    requires t in s.tasks
  {
    Goto(s, t, Connected(s.tasks[t].current, Channel(s.sourceSeq))).(writer := Some(t))
  }

  lemma ConnectRuns(s: State, t: Tid, rest: seq<Action>)
    requires t in s.tasks && s.tasks[t].WaitWrite? && s.writer == None && s.readers == {}
    requires s.created != s.tasks[t].current && Runs(Reconnected(s, t), rest)
    ensures var run := [LockWrite(t)] + ([Recheck(t)] + ([Handshake(t)] + rest));
            Runs(s, run) && After(s, run) == After(Reconnected(s, t), rest) && Rebuilds(run) == Rebuilds(rest)
  {
    var s1 := Next(s, LockWrite(t));
    var s2 := Next(s1, Recheck(t));
    assert Next(s2, Handshake(t)).tasks == Reconnected(s, t).tasks;
    Prefixed(s2, Handshake(t), rest);
    Prefixed(s1, Recheck(t), [Handshake(t)] + rest);
    Prefixed(s, LockWrite(t), [Recheck(t)] + ([Handshake(t)] + rest));
  }

  lemma InstallRuns(s: State, t: Tid, rest: seq<Action>)
    requires t in s.tasks && s.writer == None && s.readers == {} && Runs(AfterRebuild(s, t), rest)
    ensures var run := [Install(t)] + ([Store(t)] + ([ReturnWrite(t)] + rest));
            && Runs(Reconnected(s, t), run) && After(Reconnected(s, t), run) == After(AfterRebuild(s, t), rest)
            && Rebuilds(run) == 1 + Rebuilds(rest)
  {
    var s3 := Reconnected(s, t);
    var s4 := Next(s3, Install(t));
    var s5 := Next(s4, Store(t));
    assert Next(s5, ReturnWrite(t)).tasks == AfterRebuild(s, t).tasks;
    assert Next(s5, ReturnWrite(t)) == AfterRebuild(s, t);
    Prefixed(s5, ReturnWrite(t), rest);
    Prefixed(s4, Store(t), [ReturnWrite(t)] + rest);
    Prefixed(s3, Install(t), [Store(t)] + ([ReturnWrite(t)] + rest));
  }

  lemma RebuildRuns(s: State, t: Tid, rest: seq<Action>)
    requires t in s.tasks && s.tasks[t].WaitWrite? && s.writer == None && s.readers == {}
    requires s.created != s.tasks[t].current
    requires Runs(AfterRebuild(s, t), rest)
    ensures Runs(s, RebuildActions(t) + rest)
    ensures After(s, RebuildActions(t) + rest) == After(AfterRebuild(s, t), rest)
    ensures Rebuilds(RebuildActions(t) + rest) == 1 + Rebuilds(rest)
  {
    var last := [Install(t)] + ([Store(t)] + ([ReturnWrite(t)] + rest));
    InstallRuns(s, t, rest);
    ConnectRuns(s, t, last);
    assert RebuildActions(t) + rest == [LockWrite(t)] + ([Recheck(t)] + ([Handshake(t)] + last));
  }

  lemma Prefixed(s: State, a: Action, rest: seq<Action>)
    requires Enabled(s, a) && Runs(Next(s, a), rest)
    ensures Runs(s, [a] + rest) && After(s, [a] + rest) == After(Next(s, a), rest)
    ensures Rebuilds([a] + rest) == Rebuilds(rest) + if a.Store? then 1 else 0
  {
    assert ([a] + rest)[1..] == rest;
  }

  /** Stale calls 0 to k - 1 wait for the free lock; later numbers are unused. */
  ghost predicate Waiting(s: State, k: nat, newcomer: Tid) {
    && s.writer == None && s.readers == {} && s.created in s.stored
    && (forall t: Tid | t < k :: t in s.tasks && s.tasks[t].WaitWrite? && s.tasks[t].current < s.sourceSeq)
    && k <= newcomer && (forall t | t in s.tasks :: t < newcomer)
  }

  /** A new call that finds `created_seq` out of date rebuilds the channel. */
  lemma FreshRebuild(s: State, newcomer: Tid, rest: seq<Action>)
    requires newcomer !in s.tasks && s.writer == None && s.readers == {} && s.created in s.stored &&
             s.created != s.sourceSeq
    requires Runs(AfterRebuild(Goto(s, newcomer, WaitWrite(s.sourceSeq)), newcomer), rest)
    ensures var actions := [Call(newcomer)] + ([LoadPrev(newcomer, s.created)] + (RebuildActions(newcomer) + rest));
            Runs(s, actions) && Rebuilds(actions) == 1 + Rebuilds(rest)
  {
    var s1 := Next(s, Call(newcomer));
    var s2 := Next(s1, LoadPrev(newcomer, s.created));
    assert s2.tasks == Goto(s, newcomer, WaitWrite(s.sourceSeq)).tasks;
    assert s2 == Goto(s, newcomer, WaitWrite(s.sourceSeq));
    RebuildRuns(s2, newcomer, rest);
    Prefixed(s1, LoadPrev(newcomer, s.created), RebuildActions(newcomer) + rest);
    Prefixed(s, Call(newcomer), [LoadPrev(newcomer, s.created)] + (RebuildActions(newcomer) + rest));
  }

  /** The state after a new call has rebuilt the channel. */
  function AfterNewcomer(s: State, newcomer: Tid): State {
    AfterRebuild(Goto(s, newcomer, WaitWrite(s.sourceSeq)), newcomer)
  }

  /** Then the stale call `k - 1` may rebuild it once more, and the others still wait. */
  lemma NextWaits(s: State, k: nat, newcomer: Tid)
    requires Waiting(s, k, newcomer) && k > 0 && s.created != s.sourceSeq
    ensures var t := AfterNewcomer(s, newcomer);
            && k - 1 in t.tasks && t.tasks[k - 1].WaitWrite? && t.writer == None && t.readers == {}
            && t.created != t.tasks[k - 1].current
            && Waiting(AfterRebuild(t, k - 1), k - 1, newcomer + 1)
            && AfterRebuild(t, k - 1).created != AfterRebuild(t, k - 1).sourceSeq
  {
  }

  lemma {:induction false} BoundAttained(s: State, k: nat, newcomer: Tid) returns (actions: seq<Action>)
    requires Waiting(s, k, newcomer) && s.created != s.sourceSeq
    ensures Runs(s, actions) && Rebuilds(actions) == 2 * k + 1
    ensures forall i | 0 <= i < |actions| :: !actions[i].Rotate?
    decreases k
  {
    var rest: seq<Action>;
    if k == 0 {
      rest := [];
    } else {
      var t := AfterNewcomer(s, newcomer);
      NextWaits(s, k, newcomer);
      var more := BoundAttained(AfterRebuild(t, k - 1), k - 1, newcomer + 1);
      RebuildRuns(t, k - 1, more);
      rest := RebuildActions(k - 1) + more;
    }
    FreshRebuild(s, newcomer, rest);
    actions := [Call(newcomer)] + ([LoadPrev(newcomer, s.created)] + (RebuildActions(newcomer) + rest));
  }

  function Numbers(k: nat): (numbers: set<Tid>)
    ensures |numbers| == k && forall t: Tid :: t in numbers <==> t < k
  {
    if k == 0 then {} else Numbers(k - 1) + {k - 1}
  }

  /** Calls 0 to k - 1 have read sequence number 1 and found `created_seq` at 0. */
  function Queued(k: nat): State {
    New(0, 0).(sourceSeq := 1, tasks := map t | t in Numbers(k) :: WaitWrite(1))
  }

  lemma {:induction false} QueueRun(k: nat) returns (run: seq<Action>)
    ensures Runs(New(0, 0), run) && After(New(0, 0), run) == Queued(k)
  {
    if k == 0 {
      RunsAppend(New(0, 0), [], Rotate(1));
      run := [] + [Rotate(1)];
    } else {
      var s := Queued(k - 1);
      run := QueueRun(k - 1);
      RunsAppend(New(0, 0), run, Call(k - 1));
      run := run + [Call(k - 1)];
      RunsAppend(New(0, 0), run, LoadPrev(k - 1, 0));
      run := run + [LoadPrev(k - 1, 0)];
      assert After(New(0, 0), run).tasks == Queued(k).tasks;
    }
  }

  /** For every `k` the bound is attained: no smaller number of rebuilds can be promised. */
  lemma RebuildBoundIsTight(k: nat) returns (before: seq<Action>, after: seq<Action>)
    ensures Runs(New(0, 0), before) && |Stale(After(New(0, 0), before))| == k
    ensures Runs(After(New(0, 0), before), after) && Rebuilds(after) == 2 * k + 1
    ensures forall i | 0 <= i < |after| :: !after[i].Rotate?
  {
    before := QueueRun(k);
    RunsAppend(New(0, 0), before, Rotate(1));
    before := before + [Rotate(1)];
    var s := After(New(0, 0), before);
    assert s == Queued(k).(sourceSeq := 2);
    assert forall t | t in s.tasks :: t in Numbers(k);
    assert Stale(s) == Numbers(k);
    assert Waiting(s, k, k);
    after := BoundAttained(s, k, k);
  }

  /** A task holding an old number overwrites a newer `created_seq`. */
  lemma CreatedSeqGoesDown(s: State, t: Tid)
    requires t in s.tasks && s.tasks[t].WaitWrite? && s.writer == None && s.readers == {}
    requires s.tasks[t].current < s.created
    ensures Runs(s, RebuildActions(t)) && After(s, RebuildActions(t)).created < s.created
  {
    RebuildRuns(s, t, []);
    assert RebuildActions(t) + [] == RebuildActions(t);
  }

  // ----- the code -----

  datatype ChannelError = Transport

  /**
   The shared object; `st` are its fields and the places of all tasks in `client`. In a
   `calm` run no connect fails.
   */
  class IdentityChannel {
    const calm: bool
    var st: State
    ghost const start: State
    ghost var trace: seq<Action>

    /** `trace` is a run from the object's creation to `st`. */
    ghost predicate Valid()
      reads this
    {
      Inv(start) && Runs(start, trace) && After(start, trace) == st
    }

    /** `new`: connect at sequence number `source`, then read it again after `rotated` more rotations. */
    constructor (source: nat, rotated: nat, calm: bool)
      ensures st == New(source, source + rotated) && trace == [] && this.calm == calm
      ensures rotated == 0 ==> Valid()
    {
      this.calm := calm;
      var handshake := Channel(source);
      var s := State(source + rotated, handshake, source + rotated, {source + rotated}, None, {}, map[]);
      st := s;
      start := s;
      trace := [];
    }

    method Do(a: Action)
      requires Valid() && Enabled(st, a)
      modifies this
      ensures Valid() && st == Next(old(st), a) && trace == old(trace) + [a]
    {
      RunsAppend(start, trace, a);
      st := Next(st, a);
      trace := trace + [a];
    }

    /**
     Any number of actions of the source and of the other tasks. The body stands
     for the one interleaving in which nobody moves; callers know only the
     contract, which gives a lock holder no more than the run does.
     */
    method Others(me: Tid)
      requires Valid()
      modifies this
      ensures Valid() && old(trace) <= trace && old(st).sourceSeq <= st.sourceSeq
      ensures me in old(st).tasks <==> me in st.tasks
      ensures me in st.tasks ==> st.tasks[me] == old(st).tasks[me]
    {
    }

    lemma CreatedIsStored()
      requires Valid()
      ensures st.created in st.stored
    {
      InvHolds(start, trace);
    }

    /** The invariant of all runs, for one returned call. */
    lemma ReturnedIsFresh(me: Tid)
      requires Valid() && me in st.tasks
      ensures st.tasks[me].Returned? ==> st.tasks[me].current <= st.tasks[me].channel.handshake
    {
      InvHolds(start, trace);
      assert PcOk(st, st.tasks[me]);
    }

    /** `connect`: the handshake happens at some moment of it, and it may fail before and after. */
    method Connect(me: Tid) returns (ok: bool)
      requires Valid() && me in st.tasks && st.tasks[me].Connecting?
      modifies this
      ensures Valid() && old(trace) <= trace && me in st.tasks
      ensures st.tasks[me].current == old(st).tasks[me].current
      ensures if ok then st.tasks[me].Connected? else st.tasks[me].Failed? && !calm
    {
      Others(me);
      var reached: bool, accepted: bool := *, *;
      if reached || calm {
        Do(Handshake(me));
        Others(me);
      }
      if (reached && accepted) || calm {
        return true;
      }
      Do(ConnectFailed(me));
      return false;
    }

    lemma WaiterIsNoWriter(me: Tid)
      requires Valid() && me in st.tasks && !HoldsWrite(st.tasks[me])
      ensures st.writer != Some(me)
    {
      InvHolds(start, trace);
    }

    /** Wait for the lock. A call whose lock is not granted is dropped by its caller while it waits. */
    method AwaitLock(me: Tid) returns (granted: bool)
      requires Valid() && me in st.tasks && (st.tasks[me].WaitRead? || st.tasks[me].WaitWrite?)
      modifies this
      ensures Valid() && old(trace) <= trace && (granted <==> me in st.tasks)
      ensures var current := old(st).tasks[me].current;
              granted ==> st.tasks[me] == if old(st).tasks[me].WaitRead? then Reading(current) else Locked(current)
      ensures !granted ==> st.writer.Some? || (old(st).tasks[me].WaitWrite? && st.readers != {})
    {
      Others(me);
      WaiterIsNoWriter(me);
      if st.tasks[me].WaitRead? && st.writer == None {
        Do(LockRead(me));
        return true;
      } else if st.tasks[me].WaitWrite? && st.writer == None && st.readers == {} {
        Do(LockWrite(me));
        return true;
      }
      Do(Cancel(me));
      return false;
    }

    /** The part of `client` that holds the write lock. */
    method RebuildIfStale(me: Tid) returns (r: Result<Channel, ChannelError>)
      requires Valid() && me in st.tasks && st.tasks[me].Locked?
      modifies this
      ensures Valid() && old(trace) <= trace && me in st.tasks
      ensures var current := old(st).tasks[me].current;
              st.tasks[me] == if r.Ok? then Returned(current, r.value) else Failed(current)
      ensures r.Err? ==> !calm
    {
      Do(Recheck(me));
      if st.tasks[me].Connecting? {
        var ok := Connect(me);
        if !ok {
          return Err(Transport);
        }
        Do(Install(me));
        Others(me);
        Do(Store(me));
      }
      Others(me);
      var ch := st.channel;
      Do(ReturnWrite(me));
      return Ok(ch);
    }

    /**
     `client`. Under every interference, and whatever old value the relaxed load
     sees, the channel returned shook hands at or after the sequence number this
     call read first; an error means that its own connect failed.
     */
    method Client(me: Tid) returns (r: Option<Result<Channel, ChannelError>>, ghost current: nat)
      requires Valid() && me !in st.tasks
      modifies this
      ensures Valid() && old(trace) <= trace && old(st).sourceSeq <= current
      ensures r.Some? && r.value.Ok? ==> current <= r.value.value.handshake
      ensures r.Some? && r.value.Err? ==> !calm
      ensures (r.None? <==> me !in st.tasks) && (r.None? ==> st.writer.Some? || st.readers != {})
      ensures r.Some? ==> st.tasks[me] == if r.value.Ok? then Returned(current, r.value.value) else Failed(current)
    {
      Others(me);
      current := st.sourceSeq;
      Do(Call(me));
      Others(me);
      CreatedIsStored();
      var prev: nat :| prev in st.stored;
      Do(LoadPrev(me, prev));
      var rotated := st.tasks[me].WaitWrite?;
      var granted := AwaitLock(me);
      if !granted {
        return None, current;
      }
      var result: Result<Channel, ChannelError>;
      if rotated {
        result := RebuildIfStale(me);
      } else {
        Others(me);
        result := Ok(st.channel);
        Do(ReturnRead(me));
      }
      ReturnedIsFresh(me);
      return Some(result), current;
    }
  }
}
