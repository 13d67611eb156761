/**
 From every reachable state the pipeline can be brought to an end: fault-free polls
 of one publisher (services/identity/src/outbox/publisher.rs) and deliveries that
 Resend accepts (services/email/src/consumer/index.ts) mail what is left.
 */
module Liveness {
  import opened Basics
  import opened Outbox
  import Publisher
  import PublisherSafety
  import Consumer
  import opened Pipeline
  import Drain

  // ----- the moves -----

  /** One delivery that Resend takes and acknowledges. */
  function Accept(w: Consumer.Wid): Action {
    Con(Consumer.Deliver(w, None, true, Consumer.Accepted))
  }

  function AcceptAll(w: Consumer.Wid, n: nat): seq<Action> {
    if n == 0 then [] else [Accept(w)] + AcceptAll(w, n - 1)
  }

  /** Every record from this place on decodes. */
  ghost predicate Readable(log: seq<Publisher.Record>, from: nat) {
    forall q | from <= q < |log| :: Consumer.ValueOf(log[q]) != Publisher.Corrupt
  }

  /** An accepted delivery of a record that decodes moves the consumer on. */
  lemma AcceptMoves(s: State, w: Consumer.Wid)
    requires w in s.con.workers && s.con.workers[w].next < |s.pub.log|
    requires Readable(s.pub.log, s.con.workers[w].next)
    ensures Enabled(s, Accept(w))
    ensures var t := Next(s, Accept(w)); var place := s.con.workers[w];
            t.pub == s.pub && w in t.con.workers && t.con.workers[w] == place.(next := place.next + 1)
  {
  }

  lemma {:induction false} AcceptAllRun(s: State, w: Consumer.Wid, n: nat)
    requires w in s.con.workers && s.con.workers[w].next + n == |s.pub.log|
    requires Readable(s.pub.log, s.con.workers[w].next)
    ensures Runs(s, AcceptAll(w, n))
    ensures var t := After(s, AcceptAll(w, n)); var place := s.con.workers[w];
            t.pub == s.pub && w in t.con.workers && t.con.workers[w] == place.(next := |s.pub.log|)
    decreases n
  {
    if n == 0 {
    } else {
      AcceptMoves(s, w);
      AcceptAllRun(Next(s, Accept(w)), w, n - 1);
      Prefixed(s, Accept(w), AcceptAll(w, n - 1));
    }
  }

  // ----- where they lead -----

  /** The event waits for the publisher, or has a record the consumer comes to. */
  ghost predicate Reachable(s: State, w: Consumer.Wid, id: EventId)
    requires w in s.con.workers
  {
    Unpublished(s.pub.table, id) || Drain.Listed(s.pub.log, s.con.workers[w].start, id)
  }

  /** The event's message was sent, exactly once, or a record of it was given up on with a non-retryable error. */
  ghost predicate Resolved(s: State, id: EventId)
    requires id in s.pub.table
  {
    Mailed(s, s.pub.table[id].row.payload) || exists p | 0 <= p < |s.pub.log| :: GivenUp(s, p, id)
  }

  ghost predicate Mailed(s: State, m: Message) {
    exists i | 0 <= i < |s.con.outbound| ::
      s.con.outbound[i] == m && forall j | 0 <= j < |s.con.outbound| && j != i :: s.con.outbound[j].key != m.key
  }

  ghost predicate GivenUp(s: State, p: nat, id: EventId)
    requires p < |s.pub.log|
  {
    && s.pub.log[p].Published? && s.pub.log[p].row.id == id
    && p in s.con.skipped && !Consumer.IsRetryable(s.con.skipped[p])
  }

  /** A record of the event behind a consumer's start and in front of its place resolves the event. */
  lemma PassedIsResolved(s: State, w: Consumer.Wid, id: EventId)
    requires Inv(s) && w in s.con.workers && id in s.pub.table && s.con.workers[w].next == |s.pub.log|
    requires Drain.Listed(s.pub.log, s.con.workers[w].start, id)
    ensures Resolved(s, id)
  {
    var p :| s.con.workers[w].start <= p < |s.pub.log| && s.pub.log[p].Published? && s.pub.log[p].row.id == id;
    assert PublisherSafety.RecordOk(s.pub.table, s.pub.log[..p], s.pub.log[p]);
    assert Consumer.PlaceOk(s.pub.log, s.con, s.con.workers[w]);
    assert Consumer.Settled(s.pub.log, s.con, p);
    SettledMeans(s, p);
    var m := s.pub.table[id].row.payload;
    if m in s.con.outbound {
      var i :| 0 <= i < |s.con.outbound| && s.con.outbound[i] == m;
      OutboundCommitted(s, i);
    } else {
      assert GivenUp(s, p, id);
    }
  }

  /** What the polls leave: every reachable event has a record that the consumer comes to. */
  lemma DrainedIsListed(s: State, final: Table, log: seq<Publisher.Record>, w: Consumer.Wid, id: EventId)
    requires Drain.Logs(s.pub.table, s.pub.log, final, log) && Drain.RoutableBacklog(final) == {}
    requires w in s.con.workers && s.con.workers[w].start <= |s.pub.log|
    requires id in s.pub.table && Routable(final[id].row) && Reachable(s, w, id)
    ensures Drain.Listed(log, s.con.workers[w].start, id)
  {
    if Unpublished(s.pub.table, id) {
      assert id !in Drain.RoutableBacklog(final);
      var q :| |s.pub.log| <= q < |log| && log[q].Published? && log[q].row.id == id;
    } else {
      var q :| s.con.workers[w].start <= q < |s.pub.log| && s.pub.log[q].Published? && s.pub.log[q].row.id == id;
      assert log[q] == s.pub.log[q];
    }
  }

  /** The publisher's moves are a run, and the consumer is not past the log behind them. */
  ghost predicate CanFinish(s: State, moves: seq<Publisher.Action>, w: Consumer.Wid) {
    w in s.con.workers && Publisher.Runs(s.pub, moves)
    && s.con.workers[w].next <= |Publisher.After(s.pub, moves).log|
  }

  /** The publisher's moves, and then accepted deliveries up to the end of its log. */
  ghost function Finish(s: State, moves: seq<Publisher.Action>, w: Consumer.Wid): seq<Action>
    requires CanFinish(s, moves, w)
  {
    Lifted(moves) + AcceptAll(w, |Publisher.After(s.pub, moves).log| - s.con.workers[w].next)
  }

  /** An idle replica that holds or can get the lock, and a consumer for which every record to come decodes. */
  ghost predicate Ready(s: State, r: Publisher.Rid, w: Consumer.Wid) {
    && Publisher.At(s.pub, r, Publisher.Idle) && Publisher.LockFree(s.pub, r)
    && w in s.con.workers && Readable(s.pub.log, s.con.workers[w].next)
  }

  lemma FinishRuns(s: State, moves: seq<Publisher.Action>, w: Consumer.Wid)
    requires CanFinish(s, moves, w) && Readable(Publisher.After(s.pub, moves).log, s.con.workers[w].next)
    ensures Runs(s, Finish(s, moves, w))
    ensures var t := After(s, Finish(s, moves, w));
            && t.pub == Publisher.After(s.pub, moves) && w in t.con.workers
            && t.con.workers[w] == s.con.workers[w].(next := |t.pub.log|)
  {
    LiftedRun(s, moves);
    ThenAccept(s, Lifted(moves), w, |Publisher.After(s.pub, moves).log| - s.con.workers[w].next);
  }

  lemma ThenAccept(s: State, early: seq<Action>, w: Consumer.Wid, n: nat)
    requires Runs(s, early)
    requires var u := After(s, early);
             && w in u.con.workers && u.con.workers[w].next + n == |u.pub.log|
             && Readable(u.pub.log, u.con.workers[w].next)
    ensures Runs(s, early + AcceptAll(w, n))
    ensures var u := After(s, early);
            var t := After(s, early + AcceptAll(w, n));
            t.pub == u.pub && w in t.con.workers && t.con.workers[w] == u.con.workers[w].(next := |u.pub.log|)
  {
    AcceptAllRun(After(s, early), w, n);
    RunsConcat(s, early, AcceptAll(w, n));
  }

  lemma StillReadable(table: Table, log: seq<Publisher.Record>, table': Table, log': seq<Publisher.Record>, from: nat)
    requires Drain.Logs(table, log, table', log') && Readable(log, from)
    ensures Readable(log', from)
  {
    forall q | from <= q < |log'| ensures Consumer.ValueOf(log'[q]) != Publisher.Corrupt {
      assert q < |log| ==> log'[q] == log[q];
    }
  }

  /** Every event that was reachable is resolved. */
  ghost predicate AllResolved(s: State, w: Consumer.Wid, t: State)
    requires w in s.con.workers
  {
    forall id | id in s.pub.table && Routable(s.pub.table[id].row) && Reachable(s, w, id) ::
      id in t.pub.table && Resolved(t, id)
  }

  /** Moves that leave no backlog, and the deliveries behind them, resolve what was reachable. */
  lemma FinishResolves(s: State, r: Publisher.Rid, moves: seq<Publisher.Action>, final: Table, w: Consumer.Wid)
    requires Inv(s) && Ready(s, r, w)
    requires Drain.Drains(s.pub, r, moves, final) && Drain.RoutableBacklog(final) == {}
    ensures CanFinish(s, moves, w) && Runs(s, Finish(s, moves, w))
    ensures AllResolved(s, w, After(s, Finish(s, moves, w)))
  {
    assert Consumer.PlaceOk(s.pub.log, s.con, s.con.workers[w]);
    StillReadable(s.pub.table, s.pub.log, final, Publisher.After(s.pub, moves).log, s.con.workers[w].next);
    FinishRuns(s, moves, w);
    var t := After(s, Finish(s, moves, w));
    InvHolds(s, Finish(s, moves, w));
    forall id | id in s.pub.table && Routable(s.pub.table[id].row) && Reachable(s, w, id)
      ensures id in t.pub.table && Resolved(t, id)
    {
      RowKept(s.pub, moves, id);
      DrainedIsListed(s, final, t.pub.log, w, id);
      PassedIsResolved(t, w, id);
    }
  }

  /**
   Nothing is stuck. From every reachable state with an idle replica that can lead,
   a consumer in front of which every record decodes, and fewer unroutable rows than
   the batch size: whichever batches enough fault-free polls get, after them and the
   accepted deliveries behind them every committed routable event that waits in the
   table, or has a record behind that consumer's start, was mailed exactly once or
   given up on with a non-retryable error.
   */
  lemma EverythingResolved(s: State, actions: seq<Action>, r: Publisher.Rid, limit: nat,
                           batches: seq<seq<OutboxRow>>, final: Table, w: Consumer.Wid)
    requires Init(s) && Runs(s, actions) && Ready(After(s, actions), r, w)
    requires var t := After(s, actions).pub.table;
             Drain.Rounds(t, limit, batches, final) && Drain.Enough(t, limit, |batches|)
    ensures var t := After(s, actions);
            var polls := Drain.RoundsActions(r, limit, batches, t.pub.nextReq);
            && CanFinish(t, polls, w) && Runs(t, Finish(t, polls, w))
            && AllResolved(t, w, After(t, Finish(t, polls, w)))
  {
    InitInv(s);
    InvHolds(s, actions);
    var t := After(s, actions);
    Drain.DrainsOverRun(t.pub, r, limit, batches, final);
    FinishResolves(t, r, Drain.RoundsActions(r, limit, batches, t.pub.nextReq), final, w);
  }

  lemma {:induction false} RowKept(s: Publisher.State, moves: seq<Publisher.Action>, id: EventId)
    requires Publisher.Runs(s, moves) && id in s.table
    ensures id in Publisher.After(s, moves).table && Publisher.After(s, moves).table[id].row == s.table[id].row
    decreases |moves|
  {
    if moves == [] {
    } else {
      PublisherSafety.NextGrows(s, moves[0]);
      RowKept(Publisher.Next(s, moves[0]), moves[1..], id);
    }
  }

  /** None of the moves adds a row. */
  predicate CommitsNothing(moves: seq<Action>) {
    forall i | 0 <= i < |moves| :: !(moves[i].Pub? && moves[i].p.Commit?)
  }

  lemma {:induction false} LiftedCommits(moves: seq<Publisher.Action>)
    requires forall i | 0 <= i < |moves| :: !moves[i].Commit?
    ensures CommitsNothing(Lifted(moves))
    decreases |moves|
  {
    if moves == [] {
    } else {
      LiftedCommits(moves[1..]);
    }
  }

  lemma {:induction false} AcceptsCommit(w: Consumer.Wid, n: nat)
    ensures CommitsNothing(AcceptAll(w, n))
    decreases n
  {
    if n == 0 {
    } else {
      AcceptsCommit(w, n - 1);
    }
  }

  lemma FinishCommits(s: State, moves: seq<Publisher.Action>, w: Consumer.Wid)
    requires CanFinish(s, moves, w) && forall i | 0 <= i < |moves| :: !moves[i].Commit?
    ensures CommitsNothing(Finish(s, moves, w))
  {
    LiftedCommits(moves);
    AcceptsCommit(w, |Publisher.After(s.pub, moves).log| - s.con.workers[w].next);
  }

  /** A record that does not decode does hold a consumer up: nobody who started before it is ever behind it. */
  lemma CorruptBlocks(s: State, actions: seq<Action>, w: Consumer.Wid, p: nat)
    requires Init(s) && Runs(s, actions) && w in After(s, actions).con.workers
    requires p < |After(s, actions).pub.log| && Consumer.ValueOf(After(s, actions).pub.log[p]) == Publisher.Corrupt
    ensures var place := After(s, actions).con.workers[w]; p < place.start || place.next <= p
  {
    InitInv(s);
    InvHolds(s, actions);
    var t := After(s, actions);
    assert Consumer.PlaceOk(t.pub.log, t.con, t.con.workers[w]);
    forall q | t.con.workers[w].start <= q < t.con.workers[w].next
      ensures Consumer.ValueOf(t.pub.log[q]) != Publisher.Corrupt
    {
      assert Consumer.Settled(t.pub.log, t.con, q);
    }
  }
}
