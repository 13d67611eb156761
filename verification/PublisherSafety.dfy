/** What every run of the publisher keeps, and that no routable event is lost. */
module PublisherSafety {
  import opened Basics
  import opened Outbox
  import opened Publisher

  ghost predicate InLog(log: seq<Record>, id: EventId) {
    exists j | 0 <= j < |log| :: log[j].Published? && log[j].row.id == id
  }

  /** Every routable event the poll could see and that is older than `row` is in the log. */
  ghost predicate OlderLogged(table: Table, log: seq<Record>, seen: set<EventId>, row: OutboxRow) {
    forall a | a in seen && OlderRoutable(table, a, row) :: InLog(log, a)
  }

  /** The same for rows still to do, where an older one may also come earlier in `rest`. */
  ghost predicate RestOrdered(table: Table, log: seq<Record>, seen: set<EventId>, rest: seq<OutboxRow>,
                              held: Option<OutboxRow>)
  {
    forall i, a | 0 <= i < |rest| && a in seen && OlderRoutable(table, a, rest[i]) ::
      InLog(log, a) || Lists(rest[..i], a) || (held.Some? && held.value.id == a)
  }

  ghost predicate RowsCommitted(table: Table, rows: seq<OutboxRow>) {
    forall i | 0 <= i < |rows| :: Committed(table, rows[i])
  }

  ghost predicate RecordOk(table: Table, log: seq<Record>, rec: Record) {
    rec.Published? ==>
      && Committed(table, rec.row)
      && Routable(rec.row)
      && rec.seen <= table.Keys
      && OlderLogged(table, log, rec.seen, rec.row)
  }

  ghost predicate PcOk(s: State, pc: Pc) {
    match pc
    case Idle => true
    case Fetching => true
    case Stopped => true
    case Looping(rest, seen) =>
      RowsCommitted(s.table, rest) && seen <= s.table.Keys && RestOrdered(s.table, s.log, seen, rest, None)
    case Sending(row, req, rest, seen) =>
      && RowsCommitted(s.table, rest) && seen <= s.table.Keys
      && Committed(s.table, row) && Routable(row) && req < s.nextReq
      && RestOrdered(s.table, s.log, seen, rest, Some(row))
      && (req in s.inflight ==> s.inflight[req] == Published(row, seen))
      && (req in s.appended ==> InLog(s.log, row.id))
    case Marking(row, rest, seen) =>
      && RowsCommitted(s.table, rest) && seen <= s.table.Keys
      && Committed(s.table, row) && Routable(row) && InLog(s.log, row.id)
      && RestOrdered(s.table, s.log, seen, rest, None)
  }

  ghost predicate TableOk(s: State) {
    forall id | id in s.table ::
      && s.table[id].row.id == id
      && (Routable(s.table[id].row) ==> s.table[id].row.payload.key == id)
      && (s.table[id].published ==> Routable(s.table[id].row) && InLog(s.log, id))
  }

  ghost predicate LogOk(s: State) {
    forall j | 0 <= j < |s.log| ::
      RecordOk(s.table, s.log[..j], s.log[j]) && (s.log[j].Foreign? ==> !s.log[j].value.Mail?)
  }

  ghost predicate InflightOk(s: State) {
    && (forall q | q in s.inflight ::
          q < s.nextReq && s.inflight[q].Published? && RecordOk(s.table, s.log, s.inflight[q]))
    && (forall q | q in s.appended :: q < s.nextReq)
  }

  ghost predicate ProcsOk(s: State) {
    forall r | r in s.procs :: PcOk(s, s.procs[r])
  }

  ghost predicate Inv(s: State) {
    TableOk(s) && LogOk(s) && InflightOk(s) && ProcsOk(s)
  }

  /** Rows are never changed or removed, marks never taken back, the log only grows. */
  ghost predicate Grows(s: State, t: State) {
    && (forall id | id in s.table ::
          && id in t.table && t.table[id].row == s.table[id].row
          && (s.table[id].published ==> t.table[id].published))
    && s.log <= t.log
    && s.nextReq <= t.nextReq
  }

  lemma InLogGrows(log: seq<Record>, log': seq<Record>, id: EventId)
    requires log <= log' && InLog(log, id)
    ensures InLog(log', id)
  {
    var j :| 0 <= j < |log| && log[j].Published? && log[j].row.id == id;
    assert log'[j] == log[j];
  }

  lemma OlderLoggedGrows(s: State, t: State, seen: set<EventId>, row: OutboxRow)
    requires Grows(s, t) && seen <= s.table.Keys && OlderLogged(s.table, s.log, seen, row)
    ensures OlderLogged(t.table, t.log, seen, row)
  {
    forall a | a in seen && OlderRoutable(t.table, a, row) ensures InLog(t.log, a) {
      assert OlderRoutable(s.table, a, row);
      InLogGrows(s.log, t.log, a);
    }
  }

  lemma RestOrderedGrows(s: State, t: State, seen: set<EventId>, rest: seq<OutboxRow>, held: Option<OutboxRow>)
    requires Grows(s, t) && seen <= s.table.Keys && RestOrdered(s.table, s.log, seen, rest, held)
    ensures RestOrdered(t.table, t.log, seen, rest, held)
  {
    forall i, a | 0 <= i < |rest| && a in seen && OlderRoutable(t.table, a, rest[i])
      ensures InLog(t.log, a) || Lists(rest[..i], a) || (held.Some? && held.value.id == a)
    {
      assert OlderRoutable(s.table, a, rest[i]);
      if InLog(s.log, a) {
        InLogGrows(s.log, t.log, a);
      }
    }
  }

  /** A replica that did not move stays well-formed when the rest of the system does. */
  lemma PcOkGrows(s: State, t: State, pc: Pc)
    requires Grows(s, t) && PcOk(s, pc)
    requires pc.Sending? ==>
               && (pc.req in t.inflight ==> pc.req in s.inflight && t.inflight[pc.req] == s.inflight[pc.req])
               && (pc.req in t.appended ==> pc.req in s.appended || InLog(t.log, pc.row.id))
    ensures PcOk(t, pc)
  {
    match pc
    case Idle =>
    case Fetching =>
    case Stopped =>
    case Looping(rest, seen) => RestOrderedGrows(s, t, seen, rest, None);
    case Sending(row, req, rest, seen) =>
      RestOrderedGrows(s, t, seen, rest, Some(row));
      if req in t.appended && req in s.appended {
        InLogGrows(s.log, t.log, row.id);
      }
    case Marking(row, rest, seen) =>
      RestOrderedGrows(s, t, seen, rest, None);
      InLogGrows(s.log, t.log, row.id);
  }

  lemma NextGrows(s: State, a: Action)
    requires Enabled(s, a)
    ensures Grows(s, Next(s, a))
  {
  }

  lemma OnlyCommitAddsRows(s: State, a: Action)
    requires Inv(s) && Enabled(s, a) && !a.Commit?
    ensures Next(s, a).table.Keys == s.table.Keys
  {
    if a.MarkOk? || a.MarkFailed? {
      assert PcOk(s, s.procs[a.r]);
    }
  }

  /** A row is marked by a replica that has seen it appended. */
  lemma MarkedIsLogged(s: State, a: Action, id: EventId)
    requires Inv(s) && Enabled(s, a) && id in Next(s, a).table
    requires Next(s, a).table[id].published && !(id in s.table && s.table[id].published)
    ensures id in s.table && Routable(s.table[id].row) && InLog(s.log, id) && Next(s, a).log == s.log
  {
    assert a.MarkOk? || a.MarkFailed?;
    assert PcOk(s, s.procs[a.r]);
  }

  lemma TableKept(s: State, a: Action)
    requires Inv(s) && Enabled(s, a)
    ensures TableOk(Next(s, a))
  {
    var t := Next(s, a);
    NextGrows(s, a);
    forall id | id in t.table
      ensures t.table[id].row.id == id
      ensures Routable(t.table[id].row) ==> t.table[id].row.payload.key == id
      ensures t.table[id].published ==> Routable(t.table[id].row) && InLog(t.log, id)
    {
      if id in s.table && s.table[id].published {
        InLogGrows(s.log, t.log, id);
      } else if t.table[id].published {
        MarkedIsLogged(s, a, id);
      }
    }
  }

  lemma LogKept(s: State, a: Action)
    requires Inv(s) && Enabled(s, a)
    ensures LogOk(Next(s, a))
  {
    var t := Next(s, a);
    NextGrows(s, a);
    forall j | 0 <= j < |t.log|
      ensures RecordOk(t.table, t.log[..j], t.log[j]) && (t.log[j].Foreign? ==> !t.log[j].value.Mail?)
    {
      if j < |s.log| {
        assert t.log[..j] == s.log[..j] && t.log[j] == s.log[j];
        RecordOkGrows(s.(log := s.log[..j]), t.(log := t.log[..j]), s.log[j]);
      } else {
        assert t.log[..j] == s.log;
        if a.BrokerAppend? {
          assert RecordOk(s.table, s.log, s.inflight[a.req]);
        }
      }
    }
  }

  lemma RecordOkGrows(s: State, t: State, rec: Record)
    requires Grows(s, t) && RecordOk(s.table, s.log, rec)
    ensures RecordOk(t.table, t.log, rec)
  {
    if rec.Published? {
      OlderLoggedGrows(s, t, rec.seen, rec.row);
    }
  }

  /** The head of the loop has every older event behind it. */
  lemma HeadOlderLogged(table: Table, log: seq<Record>, seen: set<EventId>, rest: seq<OutboxRow>)
    requires rest != [] && RestOrdered(table, log, seen, rest, None)
    ensures OlderLogged(table, log, seen, rest[0])
  {
    forall a | a in seen && OlderRoutable(table, a, rest[0]) ensures InLog(log, a) {
      assert rest[..0] == [];
    }
  }

  lemma SentRecordOk(s: State, r: Rid)
    requires Inv(s) && Enabled(s, Send(r))
    ensures RecordOk(s.table, s.log, Published(s.procs[r].rest[0], s.procs[r].seen))
  {
    var pc := s.procs[r];
    assert PcOk(s, pc);
    HeadOlderLogged(s.table, s.log, pc.seen, pc.rest);
  }

  lemma RequestsNumbered(s: State, a: Action)
    requires InflightOk(s) && Enabled(s, a)
    ensures var t := Next(s, a);
            && (forall q | q in t.inflight :: q < t.nextReq && t.inflight[q].Published?)
            && (forall q | q in t.appended :: q < t.nextReq)
            && (forall q | q in t.inflight && q < s.nextReq :: q in s.inflight && t.inflight[q] == s.inflight[q])
  {
  }

  lemma InflightKept(s: State, a: Action)
    requires Inv(s) && Enabled(s, a)
    ensures InflightOk(Next(s, a))
  {
    var t := Next(s, a);
    NextGrows(s, a);
    RequestsNumbered(s, a);
    forall q | q in t.inflight ensures RecordOk(t.table, t.log, t.inflight[q]) {
      if a.Send? && q == s.nextReq {
        SentRecordOk(s, a.r);
      } else {
        RecordOkGrows(s, t, s.inflight[q]);
      }
    }
  }

  /** A fetched batch: each older event the fetch saw was published, or is earlier in the batch. */
  lemma BatchOrdered(s: State, limit: nat, batch: seq<OutboxRow>)
    requires Inv(s) && IsBatch(s.table, limit, batch)
    ensures RowsCommitted(s.table, batch) && RestOrdered(s.table, s.log, s.table.Keys, batch, None)
  {
    forall i, a | 0 <= i < |batch| && a in s.table.Keys && OlderRoutable(s.table, a, batch[i])
      ensures InLog(s.log, a) || Lists(batch[..i], a)
    {
      if !s.table[a].published {
        assert Unpublished(s.table, a);
        assert batch[i].createdAt > s.table[a].row.createdAt;
        assert Lists(batch, a);
        var j :| 0 <= j < |batch| && batch[j].id == a;
        assert Committed(s.table, batch[j]);
        assert j < i;
        assert batch[..i][j].id == a;
      }
    }
  }

  lemma TailOrdered(table: Table, log: seq<Record>, seen: set<EventId>, rest: seq<OutboxRow>, held: Option<OutboxRow>)
    requires rest != [] && RowsCommitted(table, rest) && RestOrdered(table, log, seen, rest, None)
    requires held == Some(rest[0]) || (held == None && !Routable(rest[0]))
    ensures RestOrdered(table, log, seen, rest[1..], held)
  {
    var tail := rest[1..];
    forall i, a | 0 <= i < |tail| && a in seen && OlderRoutable(table, a, tail[i])
      ensures InLog(log, a) || Lists(tail[..i], a) || (held.Some? && held.value.id == a)
    {
      assert tail[i] == rest[i + 1];
      if !InLog(log, a) {
        assert Lists(rest[..i + 1], a);
        var j :| 0 <= j < |rest[..i + 1]| && rest[..i + 1][j].id == a;
        assert Committed(table, rest[j]);
        if j > 0 {
          assert tail[..i][j - 1].id == a;
        }
      }
    }
  }

  lemma SenderKept(s: State, r: Rid)
    requires Inv(s) && Enabled(s, Send(r))
    ensures PcOk(Next(s, Send(r)), Next(s, Send(r)).procs[r])
  {
    var pc := s.procs[r];
    assert PcOk(s, pc);
    TailOrdered(s.table, s.log, pc.seen, pc.rest, Some(pc.rest[0]));
  }

  lemma MarkerKept(s: State, a: Action)
    requires Inv(s) && Enabled(s, a) && (a.MarkOk? || a.MarkFailed?)
    ensures PcOk(Next(s, a), Next(s, a).procs[a.r])
  {
    var t, pc := Next(s, a), s.procs[a.r];
    assert PcOk(s, pc);
    NextGrows(s, a);
    RestOrderedGrows(s, t, pc.seen, pc.rest, None);
  }

  /** The replica that takes a step ends up well-formed. */
  lemma MoverKept(s: State, a: Action, r: Rid)
    requires Inv(s) && Enabled(s, a)
    requires r in Next(s, a).procs && (r !in s.procs || Next(s, a).procs[r] != s.procs[r])
    ensures PcOk(Next(s, a), Next(s, a).procs[r])
  {
    if r in s.procs {
      var pc := s.procs[r];
      assert PcOk(s, pc);
      match a
      case Fetch(_, limit, batch) => BatchOrdered(s, limit, batch);
      case SkipUnroutable(_) => TailOrdered(s.table, s.log, pc.seen, pc.rest, None);
      case Send(_) => SenderKept(s, r);
      case MarkOk(_) => MarkerKept(s, a);
      case MarkFailed(_, _) => MarkerKept(s, a);
      case _ =>
    }
  }

  lemma ProcsKept(s: State, a: Action)
    requires Inv(s) && Enabled(s, a)
    ensures ProcsOk(Next(s, a))
  {
    var t := Next(s, a);
    NextGrows(s, a);
    forall r | r in t.procs ensures PcOk(t, t.procs[r]) {
      if r !in s.procs || t.procs[r] != s.procs[r] {
        MoverKept(s, a, r);
      } else {
        var pc := s.procs[r];
        if a.BrokerAppend? && pc.Sending? && pc.req == a.req {
          assert t.log[|s.log|] == s.inflight[a.req];
        }
        PcOkGrows(s, t, pc);
      }
    }
  }

  lemma InvKept(s: State, a: Action)
    requires Inv(s) && Enabled(s, a)
    ensures Inv(Next(s, a))
  {
    TableKept(s, a);
    LogKept(s, a);
    InflightKept(s, a);
    ProcsKept(s, a);
  }

  lemma {:induction false} InvHolds(s: State, actions: seq<Action>)
    requires Inv(s) && Runs(s, actions)
    ensures Inv(After(s, actions))
    decreases |actions|
  {
    if actions == [] {
    } else {
      InvKept(s, actions[0]);
      InvHolds(Next(s, actions[0]), actions[1..]);
    }
  }

  /**
   Nothing is lost and nothing is marked too early: in every reachable state a
   committed routable event is still fetchable or its own row is in the
   partition, and an event without a topic is never marked published.
   */
  lemma {:induction false} NothingLost(s: State, actions: seq<Action>, id: EventId)
    requires Init(s) && Runs(s, actions) && id in After(s, actions).table
    ensures var t := After(s, actions);
            var row := t.table[id].row;
            if Routable(row)
            then Unpublished(t.table, id) || exists j | 0 <= j < |t.log| :: t.log[j].Published? && t.log[j].row == row
            else Unpublished(t.table, id)
  {
    InvHolds(s, actions);
    var t := After(s, actions);
    if t.table[id].published {
      var j :| 0 <= j < |t.log| && t.log[j].Published? && t.log[j].row.id == id;
      assert RecordOk(t.table, t.log[..j], t.log[j]);
      assert t.log[j].row == t.table[id].row;
    }
  }

  /** The lock connection of a live replica is gone. */
  ghost predicate Orphaned(s: State, r: Rid) {
    r in s.procs && r !in s.sessions
  }

  /**
   `run` takes its lock connection once and never replaces it: after the
   session drops, the replica finishes the batch it is in and polls no more,
   until the process dies.
   */
  lemma {:induction false} DroppedReplicaFetchesNoMore(s: State, actions: seq<Action>, r: Rid)
    requires Orphaned(s, r) && !s.procs[r].Fetching? && Runs(s, actions)
    requires forall i | 0 <= i < |actions| :: actions[i] != Crash(r)
    ensures Orphaned(After(s, actions), r) && !After(s, actions).procs[r].Fetching?
    ensures forall i | 0 <= i < |actions| :: !(actions[i].Fetch? && actions[i].r == r)
    decreases |actions|
  {
    if actions == [] {
    } else {
      var t := Next(s, actions[0]);
      assert Orphaned(t, r) && !t.procs[r].Fetching?;
      DroppedReplicaFetchesNoMore(t, actions[1..], r);
      forall i | 0 <= i < |actions| ensures !(actions[i].Fetch? && actions[i].r == r) {
        if i > 0 {
          assert actions[i] == actions[1..][i - 1];
        }
      }
    }
  }
}
