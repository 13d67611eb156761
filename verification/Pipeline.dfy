/**
 From a committed outbox row to an email: the publisher and the email service run
 together, and what they do is "send each committed event at most once".
 */
module Pipeline {
  import opened Basics
  import opened Outbox
  import Publisher
  import PublisherDuplicates
  import PublisherSafety
  import Consumer

  datatype State = State(pub: Publisher.State, con: Consumer.State)

  datatype Action = Pub(p: Publisher.Action) | Con(c: Consumer.Action)

  ghost predicate Init(s: State) {
    Publisher.Init(s.pub) && Consumer.Init(s.con)
  }

  predicate Enabled(s: State, a: Action) {
    match a
    case Pub(p) => Publisher.Enabled(s.pub, p)
    case Con(c) => Consumer.Enabled(s.pub.log, s.con, c)
  }

  function Next(s: State, a: Action): State
    requires Enabled(s, a)
  {
    match a
    case Pub(p) => s.(pub := Publisher.Next(s.pub, p))
    case Con(c) => s.(con := Consumer.Next(s.pub.log, s.con, c))
  }

  ghost predicate Runs(s: State, actions: seq<Action>)
    decreases |actions|
  {
    actions == [] || (Enabled(s, actions[0]) && Runs(Next(s, actions[0]), actions[1..]))
  }

  ghost function After(s: State, actions: seq<Action>): State
    requires Runs(s, actions)
    decreases |actions|
  {
    if actions == [] then s else After(Next(s, actions[0]), actions[1..])
  }

  ghost predicate Inv(s: State) {
    PublisherSafety.Inv(s.pub) && Consumer.Inv(s.pub.log, s.con)
  }

  lemma InvKept(s: State, a: Action)
    requires Inv(s) && Enabled(s, a)
    ensures Inv(Next(s, a))
  {
    match a
    case Pub(p) =>
      PublisherSafety.InvKept(s.pub, p);
      PublisherSafety.NextGrows(s.pub, p);
      Consumer.LogGrows(s.pub.log, Publisher.Next(s.pub, p).log, s.con);
    case Con(c) => Consumer.InvKept(s.pub.log, s.con, c);
  }

  lemma {:induction false} InvHolds(s: State, actions: seq<Action>)
    requires Inv(s) && Runs(s, actions)
    ensures Inv(After(s, actions))
    decreases |actions|
  {
    if actions == [] {
    } else {
      InvKept(s, actions[0]);
      InvHolds(Next(s, actions[0]), actions[1..]);
    }
  }

  // ----- the specification -----

  /** Events with the message each stands for, and the events mailed, in order. */
  datatype Spec = Spec(events: map<EventId, Message>, mailed: seq<EventId>)

  ghost predicate CommitStep(s: Spec, t: Spec) {
    exists id | id in t.events :: id !in s.events && t == s.(events := s.events[id := t.events[id]])
  }

  /** An email goes out for a committed event that has had none. */
  ghost predicate MailStep(s: Spec, t: Spec) {
    t.events == s.events && |t.mailed| == |s.mailed| + 1 && t.mailed[..|s.mailed|] == s.mailed &&
    var id := t.mailed[|s.mailed|];
    id in s.events && id !in s.mailed
  }

  ghost predicate SpecStep(s: Spec, t: Spec) {
    s == t || CommitStep(s, t) || MailStep(s, t)
  }

  function Events(table: Table): map<EventId, Message> {
    map id | id in table :: table[id].row.payload
  }

  /** What a state shows of the specification. */
  function Abs(s: State): Spec {
    Spec(Events(s.pub.table),
         seq(|s.con.outbound|, i requires 0 <= i < |s.con.outbound| => s.con.outbound[i].key))
  }

  ghost function Shown(s: State, actions: seq<Action>): seq<Spec>
    requires Runs(s, actions)
    decreases |actions|
  {
    [Abs(s)] + if actions == [] then [] else Shown(Next(s, actions[0]), actions[1..])
  }

  /** An email in the log belongs to a committed routable row, and is that row's message. */
  lemma MailIsCommitted(s: State, p: nat, m: Message)
    requires Inv(s) && p < |s.pub.log| && Consumer.ValueOf(s.pub.log[p]) == Publisher.Mail(m)
    ensures m.key in s.pub.table && Routable(s.pub.table[m.key].row) && s.pub.table[m.key].row.payload == m
  {
    var rec := s.pub.log[p];
    assert PublisherSafety.RecordOk(s.pub.table, s.pub.log[..p], rec);
    assert rec.Published?;
  }

  lemma EventsOnlyCommitted(s: Publisher.State, p: Publisher.Action)
    requires PublisherSafety.Inv(s) && Publisher.Enabled(s, p)
    ensures Events(Publisher.Next(s, p).table)
         == if p.Commit? then Events(s.table)[p.row.id := p.row.payload] else Events(s.table)
  {
    PublisherSafety.NextGrows(s, p);
    if !p.Commit? {
      PublisherSafety.OnlyCommitAddsRows(s, p);
    }
  }

  lemma PublisherStepRefines(s: State, p: Publisher.Action)
    requires Inv(s) && Enabled(s, Pub(p))
    ensures SpecStep(Abs(s), Abs(Next(s, Pub(p))))
  {
    EventsOnlyCommitted(s.pub, p);
    var pub := Publisher.Next(s.pub, p);
    var t := s.(pub := pub);
    assert Abs(t).mailed == Abs(s).mailed;
    if p.Commit? {
      assert p.row.id in Abs(t).events && p.row.id !in Abs(s).events;
    }
  }

  lemma ConsumerStepRefines(s: State, c: Consumer.Action)
    requires Inv(s) && Enabled(s, Con(c))
    ensures SpecStep(Abs(s), Abs(Next(s, Con(c))))
  {
    var t := s.(con := Consumer.Next(s.pub.log, s.con, c));
    assert Abs(t).events == Abs(s).events;
    Consumer.TakesDelivered(s.pub.log, s.con, c);
    if t.con.outbound == s.con.outbound {
      assert Abs(t) == Abs(s);
    } else {
      var m := Consumer.ValueOf(s.pub.log[s.con.workers[c.w].next]).message;
      MailIsCommitted(s, s.con.workers[c.w].next, m);
      assert Abs(t).mailed == Abs(s).mailed + [m.key];
      forall i | 0 <= i < |s.con.outbound| ensures s.con.outbound[i].key != m.key {
        assert s.con.outbound[i].key in s.con.accepted;
      }
    }
  }

  /**
   Refinement. Whatever replicas, consumers and faults a run has, the events it
   commits and the emails it sends form a behaviour of the specification: each
   step is none, one commit, or one email for a committed event not mailed yet.
   */
  lemma {:induction false} PipelineRefines(s: State, actions: seq<Action>)
    requires Inv(s) && Runs(s, actions)
    ensures var shown := Shown(s, actions);
            |shown| == |actions| + 1 && forall i | 0 <= i < |actions| :: SpecStep(shown[i], shown[i + 1])
    decreases |actions|
  {
    if actions == [] {
    } else {
      var t := Next(s, actions[0]);
      match actions[0] {
        case Pub(p) => PublisherStepRefines(s, p);
        case Con(c) => ConsumerStepRefines(s, c);
      }
      InvKept(s, actions[0]);
      PipelineRefines(t, actions[1..]);
      var shown, tail := Shown(s, actions), Shown(t, actions[1..]);
      assert tail[0] == Abs(t);
      forall i | 0 <= i < |actions| ensures SpecStep(shown[i], shown[i + 1]) {
        assert shown[i + 1] == tail[i] && (i > 0 ==> shown[i] == tail[i - 1]);
      }
    }
  }

  lemma InitInv(s: State)
    requires Init(s)
    ensures Inv(s)
  {
  }

  /** Only a commit adds a row, and rows are never changed. */
  lemma RowsStay(s: State, p: Publisher.Action)
    requires Inv(s) && Publisher.Enabled(s.pub, p) && !p.Commit?
    ensures var t := Publisher.Next(s.pub, p);
            t.table.Keys == s.pub.table.Keys && forall id | id in t.table :: t.table[id].row == s.pub.table[id].row
  {
    PublisherSafety.NextGrows(s.pub, p);
    PublisherSafety.OnlyCommitAddsRows(s.pub, p);
  }

  /** An email sent is the message of a committed routable row, and the only one under its key. */
  lemma OutboundCommitted(s: State, i: nat)
    requires Inv(s) && i < |s.con.outbound|
    ensures var m := s.con.outbound[i];
            && m.key in s.pub.table && Routable(s.pub.table[m.key].row) && s.pub.table[m.key].row.payload == m
            && forall j | 0 <= j < |s.con.outbound| && j != i :: s.con.outbound[j].key != m.key
  {
    assert Consumer.InLog(s.pub.log, s.con.outbound[i]);
    var p :| 0 <= p < |s.pub.log| && Consumer.ValueOf(s.pub.log[p]) == Publisher.Mail(s.con.outbound[i]);
    MailIsCommitted(s, p, s.con.outbound[i]);
  }

  /** At most one email an event, only for committed routable events, and with the committed message. */
  lemma EmailsAreCommittedEvents(s: State, actions: seq<Action>)
    requires Init(s) && Runs(s, actions)
    ensures var t := After(s, actions);
            && (forall i, j | 0 <= i < j < |t.con.outbound| :: t.con.outbound[i].key != t.con.outbound[j].key)
            && (forall i | 0 <= i < |t.con.outbound| ::
                  var m := t.con.outbound[i];
                  m.key in t.pub.table && Routable(t.pub.table[m.key].row) && t.pub.table[m.key].row.payload == m)
  {
    InitInv(s);
    InvHolds(s, actions);
    var t := After(s, actions);
    forall i | 0 <= i < |t.con.outbound|
      ensures var m := t.con.outbound[i];
              m.key in t.pub.table && Routable(t.pub.table[m.key].row) && t.pub.table[m.key].row.payload == m
    {
      OutboundCommitted(t, i);
    }
  }

  /** The record was empty, or its email was sent, or it was given up on with a non-retryable error. */
  ghost predicate AccountedFor(s: State, pos: nat)
    requires pos < |s.pub.log|
  {
    match Consumer.ValueOf(s.pub.log[pos])
    case Empty => true
    case Corrupt => false
    case Mail(m) => m in s.con.outbound || (pos in s.con.skipped && !Consumer.IsRetryable(s.con.skipped[pos]))
  }

  /** A settled record is accounted for: the message accepted under its key is the one it carries. */
  lemma SettledMeans(s: State, pos: nat)
    requires Inv(s) && pos < |s.pub.log| && Consumer.Settled(s.pub.log, s.con, pos)
    ensures AccountedFor(s, pos)
  {
    match Consumer.ValueOf(s.pub.log[pos])
    case Empty =>
    case Mail(m) =>
      if m.key in s.con.accepted {
        var sent := s.con.accepted[m.key];
        assert sent in s.con.outbound;
        var i :| 0 <= i < |s.con.outbound| && s.con.outbound[i] == sent;
        assert Consumer.InLog(s.pub.log, s.con.outbound[i]);
        var p :| 0 <= p < |s.pub.log| && Consumer.ValueOf(s.pub.log[p]) == Publisher.Mail(sent);
        MailIsCommitted(s, p, sent);
        MailIsCommitted(s, pos, m);
      }
  }

  /**
   Consumer accounting: a record between the start of the consumer whose offset is
   committed (`StartOf`) and that offset had an empty value, or carries a message
   whose email was sent, or was given up on with a non-retryable error. A record
   that does not decode is never passed.
   */
  lemma ConsumerAccounting(s: State, actions: seq<Action>, pos: nat)
    requires Init(s) && Runs(s, actions)
    requires var t := After(s, actions);
             t.con.committed.Some? && t.con.committed.value.start <= pos < t.con.committed.value.next
    ensures pos < |After(s, actions).pub.log| && AccountedFor(After(s, actions), pos)
  {
    InitInv(s);
    InvHolds(s, actions);
    var t := After(s, actions);
    assert Consumer.Settled(t.pub.log, t.con, pos);
    SettledMeans(t, pos);
  }

  /**
   End to end: a committed routable event either still waits in the table, or its
   message stands in the log; and once a consumer that started before that position
   has committed an offset behind it, the email was sent exactly once or given up on with a non-retryable error.
   */
  lemma EndToEnd(s: State, actions: seq<Action>, id: EventId) returns (pos: nat)
    requires Init(s) && Runs(s, actions)
    requires var t := After(s, actions).pub.table; id in t && Routable(t[id].row) && t[id].published
    ensures var t := After(s, actions);
            var m := t.pub.table[id].row.payload;
            && pos < |t.pub.log| && Consumer.ValueOf(t.pub.log[pos]) == Publisher.Mail(m)
            && (t.con.committed.Some? && t.con.committed.value.start <= pos < t.con.committed.value.next ==>
                  || (pos in t.con.skipped && !Consumer.IsRetryable(t.con.skipped[pos]))
                  || (exists i | 0 <= i < |t.con.outbound| ::
                        && t.con.outbound[i] == m
                        && forall j | 0 <= j < |t.con.outbound| && j != i :: t.con.outbound[j].key != m.key))
  {
    InitInv(s);
    InvHolds(s, actions);
    var t := After(s, actions);
    pos :| 0 <= pos < |t.pub.log| && t.pub.log[pos].Published? && t.pub.log[pos].row.id == id;
    assert PublisherSafety.RecordOk(t.pub.table, t.pub.log[..pos], t.pub.log[pos]);
    if t.con.committed.Some? && t.con.committed.value.start <= pos < t.con.committed.value.next {
      ConsumerAccounting(s, actions, pos);
      EmailsAreCommittedEvents(s, actions);
    }
  }

  // ----- where a consumer started, and what a rejoin skips -----

  /** The last action of a run. */
  lemma {:induction false} RunsSnoc(s: State, actions: seq<Action>)
    requires actions != [] && Runs(s, actions)
    ensures var front, last := actions[..|actions| - 1], actions[|actions| - 1];
            Runs(s, front) && Enabled(After(s, front), last) && After(s, actions) == Next(After(s, front), last)
    decreases |actions|
  {
    var front := actions[..|actions| - 1];
    if |actions| == 1 {
      assert front == [];
    } else {
      RunsSnoc(Next(s, actions[0]), actions[1..]);
      assert front[1..] == actions[1..][..|actions| - 2];
    }
  }

  ghost predicate HasPlace(s: Consumer.State, place: Consumer.Place) {
    s.committed == Some(place) || exists w | w in s.workers :: s.workers[w] == place
  }

  lemma CommittedPlace(s: State, a: Action)
    requires Enabled(s, a)
    ensures var committed := Next(s, a).con.committed; committed.Some? ==> HasPlace(s.con, committed.value)
  {
  }

  /** A place that is new after a step continues an old one, or comes from a join without a committed offset. */
  lemma PlaceStep(s: State, a: Action, place: Consumer.Place) returns (earlier: Option<Consumer.Place>)
    requires Enabled(s, a) && HasPlace(Next(s, a).con, place)
    ensures if earlier.Some? then HasPlace(s.con, earlier.value) && earlier.value.start == place.start
            else a.Con? && a.c.Join? && s.con.committed.None? && place.start == |s.pub.log|
  {
    if HasPlace(s.con, place) {
      return Some(place);
    }
    CommittedPlace(s, a);
    var t := Next(s, a).con;
    var w :| w in t.workers && t.workers[w] == place;
    Consumer.PlaceFrom(s.pub.log, s.con, a.c, w);
    if w in s.con.workers {
      assert HasPlace(s.con, s.con.workers[w]);
      return Some(s.con.workers[w]);
    }
    return s.con.committed;
  }

  /** Every consumer's start is the end of the log at a join that found no committed offset. */
  lemma {:induction false} StartOf(s: State, actions: seq<Action>, place: Consumer.Place) returns (early: seq<Action>)
    requires Init(s) && Runs(s, actions) && HasPlace(After(s, actions).con, place)
    ensures |early| < |actions| && early == actions[..|early|] && Runs(s, early)
    ensures actions[|early|].Con? && actions[|early|].c.Join?
    ensures After(s, early).con.committed.None? && |After(s, early).pub.log| == place.start
    decreases |actions|
  {
    if actions == [] {
      assert false;
    } else {
      RunsSnoc(s, actions);
      var front := actions[..|actions| - 1];
      var earlier := PlaceStep(After(s, front), actions[|actions| - 1], place);
      if earlier.None? {
        return front;
      }
      early := StartOf(s, front, earlier.value);
    }
  }

  /** In every state of the run, nothing since the group's first start has been skipped. */
  ghost predicate NothingSkipped(s: State, actions: seq<Action>)
    requires Runs(s, actions)
    decreases |actions|
  {
    Consumer.Complete(s.pub.log, s.con) && (actions != [] ==> NothingSkipped(Next(s, actions[0]), actions[1..]))
  }

  /** Every join finds a committed offset, or no unsettled record since the group's first start. */
  ghost predicate CleanJoins(s: State, actions: seq<Action>)
    requires Runs(s, actions)
    decreases |actions|
  {
    actions != [] ==>
      && (actions[0].Con? ==> Consumer.Clean(s.pub.log, s.con, actions[0].c))
      && CleanJoins(Next(s, actions[0]), actions[1..])
  }

  lemma StepCompleteExactlyWhen(s: State, a: Action)
    requires Inv(s) && Consumer.Complete(s.pub.log, s.con) && Enabled(s, a)
    ensures Consumer.Complete(Next(s, a).pub.log, Next(s, a).con)
            <==> (a.Con? ==> Consumer.Clean(s.pub.log, s.con, a.c))
  {
    match a
    case Pub(p) =>
      PublisherSafety.NextGrows(s.pub, p);
      Consumer.CompleteInLonger(s.pub.log, Publisher.Next(s.pub, p).log, s.con);
    case Con(c) => Consumer.CompleteExactlyWhen(s.pub.log, s.con, c);
  }

  /**
   No record is ever skipped exactly in the runs in which every join finds a
   committed offset or nothing left to settle since the group first started.
   */
  lemma {:induction false} NothingSkippedExactlyWhen(s: State, actions: seq<Action>)
    requires Inv(s) && Consumer.Complete(s.pub.log, s.con) && Runs(s, actions)
    ensures NothingSkipped(s, actions) <==> CleanJoins(s, actions)
    decreases |actions|
  {
    if actions == [] {
    } else {
      StepCompleteExactlyWhen(s, actions[0]);
      if Consumer.Complete(Next(s, actions[0]).pub.log, Next(s, actions[0]).con) {
        InvKept(s, actions[0]);
        NothingSkippedExactlyWhen(Next(s, actions[0]), actions[1..]);
      } else if actions[1..] == [] {
      }
    }
  }

  lemma {:induction false} CompleteHolds(s: State, actions: seq<Action>)
    requires Inv(s) && Consumer.Complete(s.pub.log, s.con) && Runs(s, actions) && CleanJoins(s, actions)
    ensures Consumer.Complete(After(s, actions).pub.log, After(s, actions).con)
    decreases |actions|
  {
    if actions == [] {
    } else {
      StepCompleteExactlyWhen(s, actions[0]);
      InvKept(s, actions[0]);
      CompleteHolds(Next(s, actions[0]), actions[1..]);
    }
  }

  /** With clean joins the accounting goes back to where the group first started. */
  lemma CleanAccounting(s: State, actions: seq<Action>, pos: nat)
    requires Init(s) && Runs(s, actions) && CleanJoins(s, actions)
    requires var t := After(s, actions);
             t.con.committed.Some? && t.con.first.Some? && t.con.first.value <= pos < t.con.committed.value.next
    ensures pos < |After(s, actions).pub.log| && AccountedFor(After(s, actions), pos)
  {
    InitInv(s);
    InvHolds(s, actions);
    CompleteHolds(s, actions);
    var t := After(s, actions);
    assert Consumer.Settled(t.pub.log, t.con, pos);
    SettledMeans(t, pos);
  }

  lemma Prefixed(s: State, a: Action, rest: seq<Action>)
    requires Enabled(s, a) && Runs(Next(s, a), rest)
    ensures Runs(s, [a] + rest) && After(s, [a] + rest) == After(Next(s, a), rest)
  {
    assert ([a] + rest)[1..] == rest;
  }

  /**
   A rejoin that skips: from any state in which nothing was ever committed and the
   only consumer is at a mail Resend has not seen, a retryable failure, a restart
   and a commit leave the mail behind the committed offset, neither sent nor given
   up on.
   */
  lemma RejoinSkips(s: State, w: Consumer.Wid, m: Message)
    requires Inv(s) && s.con.committed.None? && s.con.workers.Keys == {w}
    requires var p := s.con.workers[w].next;
             && p < |s.pub.log| && Consumer.ValueOf(s.pub.log[p]) == Publisher.Mail(m)
             && m.key !in s.con.accepted && p !in s.con.skipped
    ensures var p := s.con.workers[w].next;
            var fails := Consumer.Deliver(w, None, false, Consumer.Rejected("rate limited"));
            var run := [Con(fails), Con(Consumer.Leave(w)), Con(Consumer.Join(w)), Con(Consumer.CommitOffset(w))];
            && Runs(s, run) && After(s, run).pub.log == s.pub.log
            && After(s, run).con.committed.Some? && p < After(s, run).con.committed.value.next
            && !AccountedFor(After(s, run), p)
  {
    var fails := Consumer.Deliver(w, None, false, Consumer.Rejected("rate limited"));
    RateLimitedIsRetryable();
    assert Next(s, Con(fails)) == s;
    var s2 := Next(s, Con(Consumer.Leave(w)));
    var s3 := Next(s2, Con(Consumer.Join(w)));
    var s4 := Next(s3, Con(Consumer.CommitOffset(w)));
    var last := [Con(Consumer.CommitOffset(w))];
    var three := [Con(Consumer.Join(w))] + last;
    var two := [Con(Consumer.Leave(w))] + three;
    Prefixed(s3, Con(Consumer.CommitOffset(w)), []);
    assert last + [] == last;
    Prefixed(s2, Con(Consumer.Join(w)), last);
    Prefixed(s, Con(Consumer.Leave(w)), three);
    Prefixed(s, Con(fails), two);
    assert [Con(fails)] + two
        == [Con(fails), Con(Consumer.Leave(w)), Con(Consumer.Join(w)), Con(Consumer.CommitOffset(w))];
    assert s4.con.outbound == s.con.outbound;
    forall i | 0 <= i < |s.con.outbound| ensures s.con.outbound[i] != m {
      assert s.con.outbound[i].key in s.con.accepted;
    }
  }

  lemma RateLimitedIsRetryable()
    ensures Consumer.IsRetryable("rate limited")
  {
    var text := "rate limited";
    forall i | 0 <= i < |Consumer.NON_RETRYABLE_ERRORS|
      ensures !Consumer.Includes(text, Consumer.NON_RETRYABLE_ERRORS[i])
    {
      assert |Consumer.NON_RETRYABLE_ERRORS[i]| > |text|;
    }
  }

  /** A run of the publisher alone is a run of the whole. */
  function Lifted(moves: seq<Publisher.Action>): seq<Action> {
    if moves == [] then [] else [Pub(moves[0])] + Lifted(moves[1..])
  }

  lemma {:induction false} LiftedRun(s: State, moves: seq<Publisher.Action>)
    requires Publisher.Runs(s.pub, moves)
    ensures Runs(s, Lifted(moves)) && After(s, Lifted(moves)) == s.(pub := Publisher.After(s.pub, moves))
    decreases |moves|
  {
    if moves == [] {
    } else {
      LiftedRun(Next(s, Pub(moves[0])), moves[1..]);
      Prefixed(s, Pub(moves[0]), Lifted(moves[1..]));
    }
  }

  lemma {:induction false} RunsConcat(s: State, early: seq<Action>, late: seq<Action>)
    requires Runs(s, early) && Runs(After(s, early), late)
    ensures Runs(s, early + late) && After(s, early + late) == After(After(s, early), late)
    decreases |early|
  {
    if early == [] {
      assert early + late == late;
    } else {
      RunsConcat(Next(s, early[0]), early[1..], late);
      assert (early + late)[1..] == early[1..] + late;
    }
  }

  /** A whole run that skips the first mail there ever was. */
  lemma SkippingRun() returns (s: State, run: seq<Action>)
    ensures Init(s) && Runs(s, run)
    ensures var t := After(s, run);
            && t.con.first == Some(0) && t.con.committed.Some? && 0 < t.con.committed.value.next
            && |t.pub.log| > 0 && !AccountedFor(t, 0)
  {
    var pub, moves := PublisherDuplicates.FirstAppended();
    s := State(pub, Consumer.State.State(None, None, map[], map[], [], map[]));
    var joined := Next(s, Con(Consumer.Join(1)));
    var lifted := Lifted(moves);
    LiftedRun(joined, moves);
    Prefixed(s, Con(Consumer.Join(1)), lifted);
    run := [Con(Consumer.Join(1))] + lifted;
    InitInv(s);
    InvHolds(s, run);
    var t := After(s, run);
    assert t.con.workers.Keys == {1};
    RejoinSkips(t, 1, PublisherDuplicates.FIRST.payload);
    var fails := Consumer.Deliver(1, None, false, Consumer.Rejected("rate limited"));
    var more := [Con(fails), Con(Consumer.Leave(1)), Con(Consumer.Join(1)), Con(Consumer.CommitOffset(1))];
    RunsConcat(s, run, more);
    FirstStays(t, more);
    run := run + more;
  }

  lemma {:induction false} FirstStays(s: State, actions: seq<Action>)
    requires Runs(s, actions) && s.con.first.Some?
    ensures After(s, actions).con.first == s.con.first
    decreases |actions|
  {
    if actions == [] {
    } else {
      FirstStays(Next(s, actions[0]), actions[1..]);
    }
  }
}
