/**
 How fast the publisher works off its backlog. Rows whose type has no topic are
 fetched, skipped and never marked, so they use up part of every batch.
 */
module Drain {
  import opened Basics
  import opened Outbox
  import opened Publisher
  import opened PublisherSafety

  function RoutableBacklog(table: Table): set<EventId> {
    set id | id in table && Unpublished(table, id) && Routable(table[id].row)
  }

  function Unroutable(table: Table): set<EventId> {
    set id | id in table && Unpublished(table, id) && !Routable(table[id].row)
  }

  function RoutableIds(rows: seq<OutboxRow>): set<EventId> {
    set i | 0 <= i < |rows| && Routable(rows[i]) :: rows[i].id
  }

  /** The table after a poll without faults: the routable rows of the batch are marked. */
  function AfterRound(table: Table, batch: seq<OutboxRow>): Table {
    if batch == [] then table
    else AfterRound(if Routable(batch[0]) then MarkPublished(table, batch[0].id) else table, batch[1..])
  }

  function Sent(batch: seq<OutboxRow>, seen: set<EventId>): seq<Record> {
    if batch == [] then []
    else (if Routable(batch[0]) then [Published(batch[0], seen)] else []) + Sent(batch[1..], seen)
  }

  /** How many rows are sent. */
  function Sends(rows: seq<OutboxRow>): nat {
    if rows == [] then 0 else (if Routable(rows[0]) then 1 else 0) + Sends(rows[1..])
  }

  /** What replica `r` does with the fetched rows when nothing fails. */
  function RowActions(r: Rid, rows: seq<OutboxRow>, req: Req): seq<Action> {
    if rows == [] then [EndBatch(r)]
    else if Routable(rows[0]) then
      [Send(r), BrokerAppend(req), ProduceOk(r), MarkOk(r)] + RowActions(r, rows[1..], req + 1)
    else [SkipUnroutable(r)] + RowActions(r, rows[1..], req)
  }

  function RoundActions(r: Rid, limit: nat, batch: seq<OutboxRow>, req: Req): seq<Action> {
    [LockGranted(r), Fetch(r, limit, batch)] + if batch == [] then [] else RowActions(r, batch, req)
  }

  /** The state after `r` sent the row at the head of its loop and the broker appended it. */
  function AfterAppend(s: State, r: Rid): State
    requires AtRow(s, r)
  {
    var pc := s.procs[r];
    s.(procs := s.procs[r := Sending(pc.rest[0], s.nextReq, pc.rest[1..], pc.seen)],
       log := s.log + [Published(pc.rest[0], pc.seen)],
       appended := s.appended + {s.nextReq},
       nextReq := s.nextReq + 1)
  }

  /** The state after the row was also acknowledged and marked. */
  function AfterRow(s: State, r: Rid): State
    requires AtRow(s, r)
  {
    var pc := s.procs[r];
    AfterAppend(s, r)
      .(table := MarkPublished(s.table, pc.rest[0].id), procs := s.procs[r := Looping(pc.rest[1..], pc.seen)])
  }

  lemma AppendRun(s: State, r: Rid, rest: seq<Action>)
    requires AtRow(s, r) && Routable(s.procs[r].rest[0]) && s.nextReq !in s.inflight
    requires Runs(AfterAppend(s, r), rest)
    ensures var actions := [Send(r)] + ([BrokerAppend(s.nextReq)] + rest);
            Runs(s, actions) && After(s, actions) == After(AfterAppend(s, r), rest)
  {
    var s1 := Next(s, Send(r));
    var s2 := Next(s1, BrokerAppend(s.nextReq));
    assert s2.inflight == s.inflight;
    assert s2 == AfterAppend(s, r);
    Prefixed(s1, BrokerAppend(s.nextReq), rest);
    Prefixed(s, Send(r), [BrokerAppend(s.nextReq)] + rest);
  }

  lemma MarkRun(s: State, r: Rid, rest: seq<Action>)
    requires AtRow(s, r) && Runs(AfterRow(s, r), rest)
    ensures var actions := [ProduceOk(r)] + ([MarkOk(r)] + rest);
            Runs(AfterAppend(s, r), actions) && After(AfterAppend(s, r), actions) == After(AfterRow(s, r), rest)
  {
    var s2 := AfterAppend(s, r);
    var s3 := Next(s2, ProduceOk(r));
    assert Next(s3, MarkOk(r)).procs == AfterRow(s, r).procs;
    assert Next(s3, MarkOk(r)) == AfterRow(s, r);
    Prefixed(s3, MarkOk(r), rest);
    Prefixed(s2, ProduceOk(r), [MarkOk(r)] + rest);
  }

  lemma RowRun(s: State, r: Rid, rest: seq<Action>)
    requires AtRow(s, r) && Routable(s.procs[r].rest[0]) && s.nextReq !in s.inflight
    requires Runs(AfterRow(s, r), rest)
    ensures var actions := [Send(r), BrokerAppend(s.nextReq), ProduceOk(r), MarkOk(r)] + rest;
            Runs(s, actions) && After(s, actions) == After(AfterRow(s, r), rest)
  {
    MarkRun(s, r, rest);
    var last := [ProduceOk(r)] + ([MarkOk(r)] + rest);
    AppendRun(s, r, last);
    var row := [Send(r), BrokerAppend(s.nextReq), ProduceOk(r), MarkOk(r)];
    assert row + rest == [Send(r)] + ([BrokerAppend(s.nextReq)] + last);
  }

  lemma SkipRun(s: State, r: Rid, rest: seq<Action>)
    requires AtRow(s, r) && !Routable(s.procs[r].rest[0])
    requires Runs(Next(s, SkipUnroutable(r)), rest)
    ensures Runs(s, [SkipUnroutable(r)] + rest)
    ensures After(s, [SkipUnroutable(r)] + rest) == After(Next(s, SkipUnroutable(r)), rest)
  {
    Prefixed(s, SkipUnroutable(r), rest);
  }

  lemma EndRun(s: State, r: Rid)
    requires r in s.procs && s.procs[r].Looping? && s.procs[r].rest == []
    ensures Runs(s, [EndBatch(r)]) && After(s, [EndBatch(r)]) == Goto(s, r, Idle)
  {
    Prefixed(s, EndBatch(r), []);
    assert [EndBatch(r)] + [] == [EndBatch(r)];
  }

  /** `actions` takes `r` through `rows`: it marks and appends the routable ones and ends at rest. */
  ghost predicate Publishes(s: State, r: Rid, actions: seq<Action>, rows: seq<OutboxRow>, seen: set<EventId>) {
    && Runs(s, actions)
    && After(s, actions).table == AfterRound(s.table, rows)
    && After(s, actions).log == s.log + Sent(rows, seen)
    && At(After(s, actions), r, Idle) && LockFree(After(s, actions), r)
    && After(s, actions).nextReq == s.nextReq + Sends(rows)
  }

  lemma PublishesFirst(s: State, r: Rid, rest: seq<Action>, rows: seq<OutboxRow>, seen: set<EventId>)
    requires AtRow(s, r) && s.procs[r].rest == rows && s.procs[r].seen == seen && Routable(rows[0]) &&
             s.nextReq !in s.inflight
    requires Publishes(AfterRow(s, r), r, rest, rows[1..], seen)
    ensures Publishes(s, r, [Send(r), BrokerAppend(s.nextReq), ProduceOk(r), MarkOk(r)] + rest, rows, seen)
  {
    RowRun(s, r, rest);
    assert AfterRow(s, r).log + Sent(rows[1..], seen) == s.log + Sent(rows, seen);
  }

  lemma SkipsFirst(s: State, r: Rid, rest: seq<Action>, rows: seq<OutboxRow>, seen: set<EventId>)
    requires AtRow(s, r) && s.procs[r].rest == rows && s.procs[r].seen == seen && !Routable(rows[0])
    requires Publishes(Next(s, SkipUnroutable(r)), r, rest, rows[1..], seen)
    ensures Publishes(s, r, [SkipUnroutable(r)] + rest, rows, seen)
  {
    SkipRun(s, r, rest);
    assert Sent(rows, seen) == Sent(rows[1..], seen);
  }

  lemma {:induction false} RowActionsRun(s: State, r: Rid)
    requires r in s.procs && s.procs[r].Looping? && LockFree(s, r) && forall q | q in s.inflight :: q < s.nextReq
    ensures Publishes(s, r, RowActions(r, s.procs[r].rest, s.nextReq), s.procs[r].rest, s.procs[r].seen)
    decreases |s.procs[r].rest|
  {
    var rows, seen := s.procs[r].rest, s.procs[r].seen;
    if rows == [] {
      EndRun(s, r);
    } else if Routable(rows[0]) {
      RowActionsRun(AfterRow(s, r), r);
      PublishesFirst(s, r, RowActions(r, rows[1..], s.nextReq + 1), rows, seen);
    } else {
      RowActionsRun(Next(s, SkipUnroutable(r)), r);
      SkipsFirst(s, r, RowActions(r, rows[1..], s.nextReq), rows, seen);
    }
  }

  lemma Prefixed(s: State, a: Action, rest: seq<Action>)
    requires Enabled(s, a) && Runs(Next(s, a), rest)
    ensures Runs(s, [a] + rest) && After(s, [a] + rest) == After(Next(s, a), rest)
  {
    assert ([a] + rest)[1..] == rest;
  }

  /** An action that touches neither the table nor the partition may come first. */
  lemma PublishesAfter(s: State, a: Action, r: Rid, rest: seq<Action>, rows: seq<OutboxRow>, seen: set<EventId>)
    requires Enabled(s, a) && Next(s, a).table == s.table && Next(s, a).log == s.log && Next(s, a).nextReq == s.nextReq
    requires Publishes(Next(s, a), r, rest, rows, seen)
    ensures Publishes(s, r, [a] + rest, rows, seen)
  {
    Prefixed(s, a, rest);
  }

  /**
   A poll without faults is a run of the step system: it marks the routable rows
   of its batch and appends exactly those, in batch order.
   */
  lemma FaultFreeRound(s: State, r: Rid, limit: nat, batch: seq<OutboxRow>)
    requires Inv(s) && At(s, r, Idle) && LockFree(s, r) && IsBatch(s.table, limit, batch)
    ensures Publishes(s, r, RoundActions(r, limit, batch, s.nextReq), batch, s.table.Keys)
  {
    var s1 := Next(s, LockGranted(r));
    var s2 := Next(s1, Fetch(r, limit, batch));
    var rest := if batch == [] then [] else RowActions(r, batch, s.nextReq);
    if batch != [] {
      RowActionsRun(s2, r);
    }
    PublishesAfter(s1, Fetch(r, limit, batch), r, rest, batch, s.table.Keys);
    PublishesAfter(s, LockGranted(r), r, [Fetch(r, limit, batch)] + rest, batch, s.table.Keys);
    assert RoundActions(r, limit, batch, s.nextReq) == [LockGranted(r)] + ([Fetch(r, limit, batch)] + rest);
  }

  lemma {:induction false} AfterRoundMarks(table: Table, batch: seq<OutboxRow>)
    requires RowsCommitted(table, batch)
    ensures var t := AfterRound(table, batch);
            && t.Keys == table.Keys
            && forall id | id in table ::
                 && t[id].row == table[id].row
                 && (t[id].published <==> table[id].published || id in RoutableIds(batch))
  {
    if batch == [] {
    } else {
      var next := if Routable(batch[0]) then MarkPublished(table, batch[0].id) else table;
      AfterRoundMarks(next, batch[1..]);
      forall id | id in table
        ensures id in RoutableIds(batch) <==> (Routable(batch[0]) && id == batch[0].id) || id in RoutableIds(batch[1..])
      {
        if id in RoutableIds(batch[1..]) {
          var i :| 0 <= i < |batch| - 1 && Routable(batch[1..][i]) && batch[1..][i].id == id;
          assert batch[i + 1].id == id;
        }
      }
    }
  }

  function Ids(rows: seq<OutboxRow>): set<EventId> {
    set i | 0 <= i < |rows| :: rows[i].id
  }

  lemma {:induction false} IdsCount(rows: seq<OutboxRow>)
    requires DistinctIds(rows)
    ensures |Ids(rows)| == |rows|
  {
    if rows == [] {
    } else {
      var last := |rows| - 1;
      IdsCount(rows[..last]);
      assert Ids(rows) == Ids(rows[..last]) + {rows[last].id};
    }
  }

  /** A batch is full, or it is the whole backlog. */
  lemma BatchSize(table: Table, limit: nat, batch: seq<OutboxRow>)
    requires IsBatch(table, limit, batch) && RowsKeyed(table)
    ensures Ids(batch) <= RoutableBacklog(table) + Unroutable(table)
    ensures |Ids(batch)| == |batch|
    ensures |batch| == limit || Ids(batch) == RoutableBacklog(table) + Unroutable(table)
    ensures RoutableIds(batch) == Ids(batch) * RoutableBacklog(table)
  {
    IdsCount(batch);
    if |batch| != limit {
      forall id | id in RoutableBacklog(table) + Unroutable(table) ensures id in Ids(batch) {
        assert Unpublished(table, id);
        assert Lists(batch, id);
      }
    }
    forall id | id in Ids(batch) * RoutableBacklog(table) ensures id in RoutableIds(batch) {
      var i :| 0 <= i < |batch| && batch[i].id == id;
      assert Committed(table, batch[i]);
    }
  }

  ghost predicate RowsKeyed(table: Table) {
    forall id | id in table :: table[id].row.id == id
  }

  /** A poll removes the routable rows of its batch from the backlog and touches nothing else in it. */
  lemma RoundBacklog(table: Table, limit: nat, batch: seq<OutboxRow>)
    requires RowsKeyed(table) && IsBatch(table, limit, batch)
    ensures RowsKeyed(AfterRound(table, batch))
    ensures Unroutable(AfterRound(table, batch)) == Unroutable(table)
    ensures RoutableBacklog(AfterRound(table, batch)) == RoutableBacklog(table) - RoutableIds(batch)
  {
    AfterRoundMarks(table, batch);
    BatchSize(table, limit, batch);
    forall id | id in Unroutable(table) ensures id !in RoutableIds(batch) {
      assert id !in RoutableBacklog(table);
    }
  }

  lemma RoomCount(R: set<EventId>, U: set<EventId>, B: set<EventId>, limit: nat)
    requires R !! U && B <= R + U && |U| < limit && (|B| == limit || B == R + U)
    ensures |R| - |R - (B * R)| >= if |R| < limit - |U| then |R| else limit - |U|
  {
    SubsetCount(B * R, R);
    SubsetCount(B * U, U);
    assert B == (B * R) + (B * U);
    assert |B| == |B * R| + |B * U|;
    if B == R + U {
      assert B * R == R;
    }
  }

  /**
   One fault-free poll publishes at least as many routable rows as the batch has
   room for beside the unroutable ones, and leaves the unroutable ones alone.
   */
  lemma DrainRound(table: Table, limit: nat, batch: seq<OutboxRow>)
    requires RowsKeyed(table) && IsBatch(table, limit, batch) && |Unroutable(table)| < limit
    ensures var t := AfterRound(table, batch);
            var room := limit - |Unroutable(table)|;
            && RowsKeyed(t)
            && Unroutable(t) == Unroutable(table)
            && (|RoutableBacklog(table)| - |RoutableBacklog(t)|
                >= if |RoutableBacklog(table)| < room then |RoutableBacklog(table)| else room)
  {
    RoundBacklog(table, limit, batch);
    BatchSize(table, limit, batch);
    RoomCount(RoutableBacklog(table), Unroutable(table), Ids(batch), limit);
  }

  /** The table after several fault-free polls, whichever batches the database returned. */
  ghost predicate Rounds(table: Table, limit: nat, batches: seq<seq<OutboxRow>>, final: Table)
    decreases |batches|
  {
    if batches == [] then final == table
    else IsBatch(table, limit, batches[0]) && Rounds(AfterRound(table, batches[0]), limit, batches[1..], final)
  }

  lemma LeftAfterOne(n: nat, left: nat, rounds: nat, room: nat)
    requires rounds > 0 && n <= rounds * room && n - left >= if n < room then n else room
    ensures left <= (rounds - 1) * room
  {
    assert rounds * room == (rounds - 1) * room + room;
  }

  /** The backlog fits into so many rounds, each with the room the unroutable rows leave. */
  ghost predicate Enough(table: Table, limit: nat, rounds: nat) {
    |Unroutable(table)| < limit && |RoutableBacklog(table)| <= rounds * (limit - |Unroutable(table)|)
  }

  /** With `u` unroutable rows and a larger batch size, `k` polls empty a backlog of up to `k * (limit - u)` rows. */
  lemma {:induction false} BacklogDrains(table: Table, limit: nat, batches: seq<seq<OutboxRow>>, final: Table)
    requires RowsKeyed(table) && Rounds(table, limit, batches, final) && Enough(table, limit, |batches|)
    ensures RoutableBacklog(final) == {}
    decreases |batches|
  {
    if batches == [] {
    } else {
      DrainRound(table, limit, batches[0]);
      var next := AfterRound(table, batches[0]);
      LeftAfterOne(|RoutableBacklog(table)|, |RoutableBacklog(next)|, |batches|, limit - |Unroutable(table)|);
      BacklogDrains(next, limit, batches[1..], final);
    }
  }

  // ----- the rounds as one run -----

  /** The moves of fault-free polls of `r`, one after the other, that get these batches; `req` numbers the requests. */
  function RoundsActions(r: Rid, limit: nat, batches: seq<seq<OutboxRow>>, req: Req): seq<Action> {
    if batches == [] then []
    else
      RoundActions(r, limit, batches[0], req)
      + RoundsActions(r, limit, batches[1..], req + Sends(batches[0]))
  }

  lemma {:induction false} RowsCommit(r: Rid, rows: seq<OutboxRow>, req: Req)
    ensures forall a | a in RowActions(r, rows, req) :: !a.Commit?
    decreases |rows|
  {
    if rows == [] {
    } else {
      RowsCommit(r, rows[1..], req + if Routable(rows[0]) then 1 else 0);
    }
  }

  /** Polls add no rows. */
  lemma {:induction false} RoundsCommit(r: Rid, limit: nat, batches: seq<seq<OutboxRow>>, req: Req)
    ensures forall a | a in RoundsActions(r, limit, batches, req) :: !a.Commit?
    decreases |batches|
  {
    if batches == [] {
    } else {
      RowsCommit(r, batches[0], req);
      RoundsCommit(r, limit, batches[1..], req + Sends(batches[0]));
    }
  }

  /** Only published records are added, among them one for every row that is marked. */
  ghost predicate Logs(table: Table, log: seq<Record>, table': Table, log': seq<Record>) {
    && table.Keys == table'.Keys && log <= log'
    && (forall q | |log| <= q < |log'| :: log'[q].Published?)
    && (forall id | id in table && table'[id].published && !table[id].published :: Listed(log', |log|, id))
    && (forall id | id in table && table[id].published :: table'[id].published)
  }

  /** The event has a record at or behind a place. */
  ghost predicate Listed(log: seq<Record>, from: nat, id: EventId) {
    exists q | from <= q < |log| :: log[q].Published? && log[q].row.id == id
  }

  lemma LogsOn(table: Table, log: seq<Record>, table': Table, log': seq<Record>, table'': Table, log'': seq<Record>)
    requires Logs(table, log, table', log') && Logs(table', log', table'', log'')
    ensures Logs(table, log, table'', log'')
  {
    forall q | |log| <= q < |log''| ensures log''[q].Published? {
      assert q < |log'| ==> log''[q] == log'[q];
    }
    forall id | id in table && table''[id].published && !table[id].published ensures Listed(log'', |log|, id) {
      if table'[id].published {
        var q :| |log| <= q < |log'| && log'[q].Published? && log'[q].row.id == id;
        assert log''[q] == log'[q];
      }
    }
  }

  lemma SentLogs(table: Table, log: seq<Record>, row: OutboxRow, seen: set<EventId>, final: Table, log': seq<Record>)
    requires row.id in table
    requires Logs(MarkPublished(table, row.id), log + [Published(row, seen)], final, log')
    ensures Logs(table, log, final, log')
  {
    var mid := log + [Published(row, seen)];
    assert mid[|log|] == Published(row, seen);
    assert Listed(mid, |log|, row.id);
    LogsOn(table, log, MarkPublished(table, row.id), mid, final, log');
  }

  lemma {:induction false} RoundLogs(table: Table, log: seq<Record>, batch: seq<OutboxRow>, seen: set<EventId>)
    requires forall i | 0 <= i < |batch| :: batch[i].id in table
    ensures Logs(table, log, AfterRound(table, batch), log + Sent(batch, seen))
    decreases |batch|
  {
    if batch == [] {
    } else if Routable(batch[0]) {
      var table', log' := MarkPublished(table, batch[0].id), log + [Published(batch[0], seen)];
      RoundLogs(table', log', batch[1..], seen);
      assert log' + Sent(batch[1..], seen) == log + Sent(batch, seen);
      SentLogs(table, log, batch[0], seen, AfterRound(table', batch[1..]), log + Sent(batch, seen));
    } else {
      RoundLogs(table, log, batch[1..], seen);
      assert Sent(batch, seen) == Sent(batch[1..], seen);
    }
  }

  /** The database always has some batch to return, and so some batches for any number of rounds. */
  lemma SomeBatch(table: Table, limit: nat) returns (batch: seq<OutboxRow>)
    requires RowsKeyed(table)
    ensures IsBatch(table, limit, batch)
  {
    var ids := set id | id in table && Unpublished(table, id);
    batch := Oldest(table, ids, if |ids| <= limit then |ids| else limit);
    IdsCount(batch);
    if |ids| <= limit {
      SameCount(Ids(batch), ids);
    }
    forall i | 0 <= i < |batch| ensures Committed(table, batch[i]) && !table[batch[i].id].published {
      assert batch[i].id in Ids(batch);
    }
    forall id | id in table && Unpublished(table, id) && !Lists(batch, id) ensures id !in Ids(batch) {
    }
  }

  lemma SameCount(a: set<EventId>, b: set<EventId>)
    requires a <= b && |a| == |b|
    ensures a == b
  {
    SubsetCount(a, b);
    assert b - a == {};
  }

  lemma {:induction false} SomeRounds(table: Table, limit: nat, k: nat)
    returns (batches: seq<seq<OutboxRow>>, final: Table)
    requires RowsKeyed(table)
    ensures |batches| == k && Rounds(table, limit, batches, final)
    decreases k
  {
    if k == 0 {
      batches, final := [], table;
    } else {
      var batch := SomeBatch(table, limit);
      RoundBacklog(table, limit, batch);
      var rest;
      rest, final := SomeRounds(AfterRound(table, batch), limit, k - 1);
      batches := [batch] + rest;
    }
  }

  /** The actions are a run to `final` that only logs and marks, and leaves `r` ready for its next poll. */
  ghost predicate Drains(s: State, r: Rid, actions: seq<Action>, final: Table) {
    && Runs(s, actions) && After(s, actions).table == final
    && Logs(s.table, s.log, final, After(s, actions).log)
    && At(After(s, actions), r, Idle) && LockFree(After(s, actions), r)
  }

  lemma DrainsOn(s: State, r: Rid, early: seq<Action>, table: Table, late: seq<Action>, final: Table)
    requires Drains(s, r, early, table) && Drains(After(s, early), r, late, final)
    ensures Drains(s, r, early + late, final)
  {
    RunsConcat(s, early, late);
    LogsOn(s.table, s.log, table, After(s, early).log, final, After(After(s, early), late).log);
  }

  lemma RoundDrains(s: State, r: Rid, limit: nat, batch: seq<OutboxRow>)
    requires Inv(s) && At(s, r, Idle) && LockFree(s, r) && IsBatch(s.table, limit, batch)
    ensures var round := RoundActions(r, limit, batch, s.nextReq);
            Drains(s, r, round, AfterRound(s.table, batch)) && Inv(After(s, round))
            && After(s, round).nextReq == s.nextReq + Sends(batch)
  {
    FaultFreeRound(s, r, limit, batch);
    InvHolds(s, RoundActions(r, limit, batch, s.nextReq));
    RoundLogs(s.table, s.log, batch, s.table.Keys);
  }

  /** Whichever batches the database returns, fault-free polls of one replica compose to a run. */
  lemma {:induction false} RoundsRun(s: State, r: Rid, limit: nat, batches: seq<seq<OutboxRow>>, final: Table)
    requires Inv(s) && At(s, r, Idle) && LockFree(s, r) && Rounds(s.table, limit, batches, final)
    ensures Drains(s, r, RoundsActions(r, limit, batches, s.nextReq), final)
    decreases |batches|
  {
    if batches == [] {
    } else {
      var round := RoundActions(r, limit, batches[0], s.nextReq);
      RoundDrains(s, r, limit, batches[0]);
      RoundsRun(After(s, round), r, limit, batches[1..], final);
      var later := RoundsActions(r, limit, batches[1..], s.nextReq + Sends(batches[0]));
      DrainsOn(s, r, round, AfterRound(s.table, batches[0]), later, final);
    }
  }

  /**
   The drain over a run: with `u` unroutable rows and a larger batch size, `k`
   fault-free polls in a row, whichever batches they get, are a run that leaves
   nothing of a backlog of up to `k * (limit - u)` rows.
   */
  lemma DrainsOverRun(s: State, r: Rid, limit: nat, batches: seq<seq<OutboxRow>>, final: Table)
    requires Inv(s) && At(s, r, Idle) && LockFree(s, r) && Rounds(s.table, limit, batches, final)
    requires Enough(s.table, limit, |batches|)
    ensures Drains(s, r, RoundsActions(r, limit, batches, s.nextReq), final) && RoutableBacklog(final) == {}
  {
    RoundsRun(s, r, limit, batches, final);
    BacklogDrains(s.table, limit, batches, final);
  }

  /** The rows are among the given ones, and none of the others is older than any of them. */
  ghost predicate OldestOf(table: Table, ids: set<EventId>, rows: seq<OutboxRow>) {
    && RowsCommitted(table, rows) && Ids(rows) <= ids && ids <= table.Keys
    && DistinctIds(rows) && SortedByCreation(rows)
    && forall id, i | id in ids && id !in Ids(rows) && 0 <= i < |rows| :: rows[i].createdAt <= table[id].row.createdAt
  }

  lemma IdsOfCons(row: OutboxRow, tail: seq<OutboxRow>)
    ensures Ids([row] + tail) == {row.id} + Ids(tail)
  {
    var rows := [row] + tail;
    assert rows[0] == row && forall i | 0 <= i < |tail| :: rows[i + 1] == tail[i];
    forall id | id in Ids(rows) ensures id in {row.id} + Ids(tail) {
      var i :| 0 <= i < |rows| && rows[i].id == id;
      assert i > 0 ==> tail[i - 1].id == id;
    }
    forall id | id in Ids(tail) ensures id in Ids(rows) {
      var i :| 0 <= i < |tail| && tail[i].id == id;
      assert rows[i + 1].id == id;
    }
  }

  /** The oldest row in front of the oldest of the others. */
  lemma OldestCons(table: Table, ids: set<EventId>, first: EventId, tail: seq<OutboxRow>)
    requires RowsKeyed(table) && ids <= table.Keys && first in ids
    requires forall id | id in ids :: table[first].row.createdAt <= table[id].row.createdAt
    requires OldestOf(table, ids - {first}, tail)
    ensures OldestOf(table, ids, [table[first].row] + tail)
  {
    var row := table[first].row;
    var rows := [row] + tail;
    IdsOfCons(row, tail);
    forall i | 0 <= i < |tail| ensures tail[i].id in ids - {first} && row.createdAt <= tail[i].createdAt {
      assert tail[i].id in Ids(tail) && Committed(table, tail[i]);
    }
    forall id, i | id in ids && id !in Ids(rows) && 0 <= i < |rows|
      ensures rows[i].createdAt <= table[id].row.createdAt
    {
      assert id in ids - {first} && id !in Ids(tail);
    }
  }

  /** Any number of the oldest rows of a set can be listed in creation order. */
  lemma {:induction false} Oldest(table: Table, ids: set<EventId>, n: nat) returns (rows: seq<OutboxRow>)
    requires RowsKeyed(table) && ids <= table.Keys && n <= |ids|
    ensures |rows| == n && OldestOf(table, ids, rows)
    decreases n
  {
    if n == 0 {
      rows := [];
    } else {
      var first := OldestOne(table, ids);
      SubsetCount({first}, ids);
      var tail := Oldest(table, ids - {first}, n - 1);
      OldestCons(table, ids, first, tail);
      rows := [table[first].row] + tail;
    }
  }

  lemma {:induction false} OldestOne(table: Table, ids: set<EventId>) returns (first: EventId)
    requires ids <= table.Keys && ids != {}
    ensures first in ids && forall id | id in ids :: table[first].row.createdAt <= table[id].row.createdAt
    decreases ids
  {
    var x :| x in ids;
    if ids == {x} {
      first := x;
    } else {
      var y := OldestOne(table, ids - {x});
      first := if table[x].row.createdAt <= table[y].row.createdAt then x else y;
    }
  }

  /** The unroutable rows that are as old as row `a`. */
  function Blockers(table: Table, a: EventId): set<EventId>
    requires a in table
  {
    set id | id in Unroutable(table) && table[id].row.createdAt <= table[a].row.createdAt
  }

  lemma BatchOfBlockers(table: Table, limit: nat, a: EventId) returns (batch: seq<OutboxRow>)
    requires RowsKeyed(table) && a in RoutableBacklog(table)
    requires forall b | b in RoutableBacklog(table) :: table[a].row.createdAt <= table[b].row.createdAt
    requires limit <= |Blockers(table, a)|
    ensures IsBatch(table, limit, batch) && forall i | 0 <= i < |batch| :: !Routable(batch[i])
  {
    batch := Oldest(table, Blockers(table, a), limit);
    forall i | 0 <= i < |batch| ensures batch[i].id in Blockers(table, a) && Committed(table, batch[i]) {
      assert batch[i].id in Ids(batch);
    }
    forall id, i | Unpublished(table, id) && !Lists(batch, id) && 0 <= i < |batch|
      ensures batch[i].createdAt <= table[id].row.createdAt
    {
      assert batch[i].id in Blockers(table, a);
      if id in Blockers(table, a) {
        assert id !in Ids(batch);
      } else if Routable(table[id].row) {
        assert id in RoutableBacklog(table);
      }
    }
  }

  /**
   When a poll is sure to publish something: `a` being the oldest routable row
   that waits, every batch the database may return has a routable row exactly
   when fewer than `limit` unroutable rows are as old as `a`. Otherwise a poll
   may change nothing, and so may every later one.
   */
  lemma ProgressExactlyWhen(table: Table, limit: nat, a: EventId)
    requires RowsKeyed(table) && a in RoutableBacklog(table)
    requires forall b | b in RoutableBacklog(table) :: table[a].row.createdAt <= table[b].row.createdAt
    ensures (forall batch | IsBatch(table, limit, batch) :: AfterRound(table, batch) != table) <==>
            |Blockers(table, a)| < limit
  {
    if |Blockers(table, a)| < limit {
      forall batch | IsBatch(table, limit, batch) ensures AfterRound(table, batch) != table {
        if RoutableIds(batch) == {} {
          NoRoutable(table, limit, batch, a);
        }
        var id :| id in RoutableIds(batch);
        AfterRoundMarks(table, batch);
        BatchSize(table, limit, batch);
        assert AfterRound(table, batch)[id].published;
      }
    } else {
      var batch := BatchOfBlockers(table, limit, a);
      UnroutableBatch(table, batch);
    }
  }

  lemma {:induction false} UnroutableBatch(table: Table, batch: seq<OutboxRow>)
    requires forall i | 0 <= i < |batch| :: !Routable(batch[i])
    ensures AfterRound(table, batch) == table
  {
    if batch == [] {
    } else {
      UnroutableBatch(table, batch[1..]);
    }
  }

  lemma NoRoutable(table: Table, limit: nat, batch: seq<OutboxRow>, a: EventId)
    requires RowsKeyed(table) && IsBatch(table, limit, batch) && a in RoutableBacklog(table) && RoutableIds(batch) == {}
    ensures limit <= |Blockers(table, a)|
  {
    BatchSize(table, limit, batch);
    forall id | id in Ids(batch) ensures id !in RoutableBacklog(table) {
      assert id in RoutableBacklog(table) ==> id in Ids(batch) * RoutableBacklog(table);
    }
    NotListed(batch, a);
    assert Unpublished(table, a);
    assert |batch| == limit;
    forall id | id in Ids(batch) ensures id in Blockers(table, a) {
      var i :| 0 <= i < |batch| && batch[i].id == id;
      assert Committed(table, batch[i]);
    }
    SubsetCount(Ids(batch), Blockers(table, a));
  }

  lemma NotListed(batch: seq<OutboxRow>, a: EventId)
    requires a !in Ids(batch)
    ensures !Lists(batch, a)
  {
    forall i | 0 <= i < |batch| ensures batch[i].id != a {
      assert batch[i].id in Ids(batch);
    }
  }
}
