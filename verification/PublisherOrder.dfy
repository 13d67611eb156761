/**
 The order of first deliveries: an older event reaches the partition before a
 newer one, whichever replicas overlap and whatever fails, as soon as the fetch
 that produced the newer one could see the older.
 */
module PublisherOrder {
  import opened Outbox
  import opened Publisher
  import opened PublisherSafety

  // ----- where a record comes from -----

  /** The state in which the `i`-th action is taken. */
  ghost function Before(s: State, actions: seq<Action>, i: nat): State
    requires Runs(s, actions) && i <= |actions|
    decreases i
  {
    if i == 0 then s else Before(Next(s, actions[0]), actions[1..], i - 1)
  }

  lemma {:induction false} BeforeStep(s: State, actions: seq<Action>, i: nat)
    requires Runs(s, actions) && i < |actions|
    ensures Enabled(Before(s, actions, i), actions[i])
    ensures Before(s, actions, i + 1) == Next(Before(s, actions, i), actions[i])
    decreases i
  {
    if i == 0 {
      assert Before(s, actions, 1) == Before(Next(s, actions[0]), actions[1..], 0);
    } else {
      BeforeStep(Next(s, actions[0]), actions[1..], i - 1);
    }
  }

  lemma {:induction false} BeforeEnd(s: State, actions: seq<Action>)
    requires Runs(s, actions)
    ensures Before(s, actions, |actions|) == After(s, actions)
    decreases |actions|
  {
    if actions == [] {
    } else {
      BeforeEnd(Next(s, actions[0]), actions[1..]);
    }
  }

  lemma {:induction false} BeforeInv(s: State, actions: seq<Action>, i: nat)
    requires Inv(s) && Runs(s, actions) && i <= |actions|
    ensures Inv(Before(s, actions, i))
    decreases i
  {
    if i == 0 {
    } else {
      BeforeInv(s, actions, i - 1);
      BeforeStep(s, actions, i - 1);
      InvKept(Before(s, actions, i - 1), actions[i - 1]);
    }
  }

  predicate FetchBy(a: Action, r: Rid) {
    a.Fetch? && a.r == r
  }

  /** Action `m` is the last fetch of replica `r` before action `n`. */
  predicate LastFetch(actions: seq<Action>, r: Rid, m: nat, n: nat) {
    m < n <= |actions| && FetchBy(actions[m], r) && forall i | m < i < n :: !FetchBy(actions[i], r)
  }

  /**
   The record at place `j` was fetched by action `m`, sent by action `n` and
   appended by action `k`: `k` appends at that place the request that `n` made,
   and `m` is the last fetch of the sender before it.
   */
  ghost predicate Origin(s: State, actions: seq<Action>, m: nat, n: nat, k: nat, j: nat)
    requires Runs(s, actions)
  {
    && n < |actions| && k < |actions|
    && actions[n].Send? && LastFetch(actions, actions[n].r, m, n)
    && actions[k] == BrokerAppend(Before(s, actions, n).nextReq) && |Before(s, actions, k).log| == j
  }

  predicate Reading(pc: Pc) {
    pc.Looping? || pc.Sending? || pc.Marking?
  }

  lemma StillReads(s: State, a: Action, r: Rid)
    requires Enabled(s, a) && !FetchBy(a, r) && r in Next(s, a).procs && Reading(Next(s, a).procs[r])
    ensures r in s.procs && Reading(s.procs[r]) && s.procs[r].seen == Next(s, a).procs[r].seen
  {
  }

  /** What a replica inside a batch has seen is what was committed at its last fetch. */
  lemma {:induction false} FetchOf(s: State, actions: seq<Action>, i: nat, r: Rid) returns (m: nat)
    requires Init(s) && Runs(s, actions) && i <= |actions|
    requires r in Before(s, actions, i).procs && Reading(Before(s, actions, i).procs[r])
    ensures LastFetch(actions, r, m, i)
    ensures Before(s, actions, i).procs[r].seen == Before(s, actions, m).table.Keys
    decreases i
  {
    if i == 0 {
      assert false;
    } else {
      BeforeStep(s, actions, i - 1);
      if FetchBy(actions[i - 1], r) {
        m := i - 1;
      } else {
        StillReads(Before(s, actions, i - 1), actions[i - 1], r);
        m := FetchOf(s, actions, i - 1, r);
      }
    }
  }

  lemma InflightFrom(s: State, a: Action, q: Req)
    requires Inv(s) && Enabled(s, a) && q in Next(s, a).inflight
    ensures if a.Send? && s.nextReq == q
            then AtRow(s, a.r) && Next(s, a).inflight[q] == Published(s.procs[a.r].rest[0], s.procs[a.r].seen)
            else q in s.inflight && Next(s, a).inflight[q] == s.inflight[q]
  {
  }

  /** A request on its way was made by one send, and carries the row and the view of its sender. */
  lemma {:induction false} SendOf(s: State, actions: seq<Action>, i: nat, q: Req) returns (n: nat)
    requires Init(s) && Runs(s, actions) && i <= |actions| && q in Before(s, actions, i).inflight
    ensures n < i && actions[n].Send? && Before(s, actions, n).nextReq == q &&
            AtRow(Before(s, actions, n), actions[n].r)
    ensures var pc := Before(s, actions, n).procs[actions[n].r];
            Before(s, actions, i).inflight[q] == Published(pc.rest[0], pc.seen)
    decreases i
  {
    if i == 0 {
      assert false;
    } else {
      BeforeStep(s, actions, i - 1);
      var t := Before(s, actions, i - 1);
      BeforeInv(s, actions, i - 1);
      InflightFrom(t, actions[i - 1], q);
      if actions[i - 1].Send? && t.nextReq == q {
        n := i - 1;
      } else {
        n := SendOf(s, actions, i - 1, q);
      }
    }
  }

  /** A published record was appended at its place by one append. */
  lemma {:induction false} AppendOf(s: State, actions: seq<Action>, i: nat, j: nat) returns (k: nat)
    requires Init(s) && Runs(s, actions) && i <= |actions|
    requires j < |Before(s, actions, i).log| && Before(s, actions, i).log[j].Published?
    ensures k < i && actions[k].BrokerAppend? && |Before(s, actions, k).log| == j
    ensures actions[k].req in Before(s, actions, k).inflight
    ensures Before(s, actions, i).log[j] == Before(s, actions, k).inflight[actions[k].req]
    decreases i
  {
    if i == 0 {
      assert false;
    } else {
      BeforeStep(s, actions, i - 1);
      if j < |Before(s, actions, i - 1).log| {
        k := AppendOf(s, actions, i - 1, j);
      } else {
        k := i - 1;
      }
    }
  }

  /** Request numbers and the partition only grow. */
  lemma {:induction false} BeforeGrows(s: State, actions: seq<Action>, i: nat, i': nat)
    requires Runs(s, actions) && i <= i' <= |actions|
    ensures Before(s, actions, i).nextReq <= Before(s, actions, i').nextReq
    ensures |Before(s, actions, i).log| <= |Before(s, actions, i').log|
    decreases i'
  {
    if i == i' {
    } else {
      BeforeStep(s, actions, i' - 1);
      BeforeGrows(s, actions, i, i' - 1);
    }
  }

  lemma SendUnique(s: State, actions: seq<Action>, n: nat, n': nat)
    requires Runs(s, actions) && n < n' < |actions| && actions[n].Send?
    ensures Before(s, actions, n).nextReq < Before(s, actions, n').nextReq
  {
    BeforeStep(s, actions, n);
    BeforeGrows(s, actions, n + 1, n');
  }

  lemma AppendUnique(s: State, actions: seq<Action>, k: nat, k': nat)
    requires Runs(s, actions) && k < k' < |actions| && actions[k].BrokerAppend?
    ensures |Before(s, actions, k).log| < |Before(s, actions, k').log|
  {
    BeforeStep(s, actions, k);
    BeforeGrows(s, actions, k + 1, k');
  }

  /** A record has at most one origin. */
  lemma OriginUnique(s: State, actions: seq<Action>, j: nat, m: nat, n: nat, k: nat, m': nat, n': nat, k': nat)
    requires Runs(s, actions) && Origin(s, actions, m, n, k, j) && Origin(s, actions, m', n', k', j)
    ensures m == m' && n == n' && k == k'
  {
    if k < k' {
      AppendUnique(s, actions, k, k');
    } else if k' < k {
      AppendUnique(s, actions, k', k);
    }
    if n < n' {
      SendUnique(s, actions, n, n');
    } else if n' < n {
      SendUnique(s, actions, n', n);
    }
  }

  /** Every published record has an origin, and `seen` is exactly what was committed at its fetch. */
  lemma OriginOf(s: State, actions: seq<Action>, j: nat) returns (m: nat, n: nat, k: nat)
    requires Init(s) && Runs(s, actions) && j < |After(s, actions).log| && After(s, actions).log[j].Published?
    ensures Origin(s, actions, m, n, k, j)
    ensures After(s, actions).log[j].seen == Before(s, actions, m).table.Keys
  {
    BeforeEnd(s, actions);
    k := AppendOf(s, actions, |actions|, j);
    n := SendOf(s, actions, k, actions[k].req);
    m := FetchOf(s, actions, n, actions[n].r);
  }

  /** In terms of what a record's fetch has seen: everything older is in the partition before it. */
  lemma OlderBefore(s: State, actions: seq<Action>, a: EventId, j: nat)
    requires Init(s) && Runs(s, actions)
    requires var log := After(s, actions).log; j < |log| && log[j].Published? && a in log[j].seen
    requires OlderRoutable(After(s, actions).table, a, After(s, actions).log[j].row)
    ensures InLog(After(s, actions).log[..j], a)
  {
    InvHolds(s, actions);
    var t := After(s, actions);
    assert RecordOk(t.table, t.log[..j], t.log[j]);
  }

  /**
   First-delivery order, over every run with overlapping replicas and any faults:
   for each record, if `a` is routable, created strictly before the record's event,
   and committed before the fetch the record comes from, then a record of `a`
   stands before it.
   */
  lemma FirstDeliveryOrder(s: State, actions: seq<Action>, m: nat, n: nat, k: nat, j: nat, a: EventId)
    requires Init(s) && Runs(s, actions)
    requires j < |After(s, actions).log| && After(s, actions).log[j].Published? && Origin(s, actions, m, n, k, j)
    requires a in Before(s, actions, m).table && OlderRoutable(After(s, actions).table, a, After(s, actions).log[j].row)
    ensures InLog(After(s, actions).log[..j], a)
  {
    var m', n', k' := OriginOf(s, actions, j);
    OriginUnique(s, actions, j, m, n, k, m', n', k');
    OlderBefore(s, actions, a, j);
  }

  // ----- a condition that can be seen before the fetch -----

  /** No replica holds `b`, no request carries it and the log does not have it. */
  ghost predicate Untouched(s: State, b: EventId) {
    && !InLog(s.log, b)
    && (forall q | q in s.inflight :: s.inflight[q].Published? ==> s.inflight[q].row.id != b)
    && (forall r | r in s.procs :: !Holds(s.procs[r], b))
  }

  ghost predicate Holds(pc: Pc, b: EventId) {
    match pc
    case Looping(rest, _) => Lists(rest, b)
    case Sending(row, _, rest, _) => row.id == b || Lists(rest, b)
    case Marking(row, rest, _) => row.id == b || Lists(rest, b)
    case _ => false
  }

  /** Whoever deals with `b` read the table when `a` was already committed. */
  ghost predicate SeenWith(s: State, a: EventId, b: EventId) {
    && a in s.table
    && (forall j | 0 <= j < |s.log| && s.log[j].Published? && s.log[j].row.id == b :: a in s.log[j].seen)
    && (forall q | q in s.inflight && s.inflight[q].Published? && s.inflight[q].row.id == b :: a in s.inflight[q].seen)
    && (forall r | r in s.procs && Holds(s.procs[r], b) :: a in s.procs[r].seen)
  }

  lemma HolderSaw(s: State, x: Action, a: EventId, b: EventId, r: Rid)
    requires Enabled(s, x) && SeenWith(s, a, b)
    requires r in Next(s, x).procs && Holds(Next(s, x).procs[r], b)
    ensures a in Next(s, x).procs[r].seen
  {
    var t := Next(s, x);
    if r in s.procs && !x.Fetch? && t.procs[r] != s.procs[r] {
      HoldsKept(s.procs[r], t.procs[r], b);
    }
  }

  lemma SeenWithKept(s: State, x: Action, a: EventId, b: EventId)
    requires Enabled(s, x) && SeenWith(s, a, b)
    ensures SeenWith(Next(s, x), a, b)
  {
    var t := Next(s, x);
    forall r | r in t.procs && Holds(t.procs[r], b) ensures a in t.procs[r].seen {
      HolderSaw(s, x, a, b, r);
    }
    if x.Send? {
      var pc := s.procs[x.r];
      assert pc.rest[0].id == b ==> Holds(pc, b);
    }
  }

  /** Within a batch a replica holds no event it did not hold one step before. */
  lemma HoldsKept(before: Pc, now: Pc, b: EventId)
    requires Holds(now, b)
    requires before.Looping? || before.Sending? || before.Marking?
    requires
      var rest := now.rest;
      || (before.rest == rest && (now.Looping? || (now.Marking? && before.Sending? && now.row == before.row)))
      || (before.Looping? && before.rest != [] && rest == before.rest[1..]
         && (now.Looping? || (now.Sending? && now.row == before.rest[0])))
    ensures Holds(before, b)
  {
    if Lists(now.rest, b) {
      var i :| 0 <= i < |now.rest| && now.rest[i].id == b;
      if now.rest == before.rest {
        assert Lists(before.rest, b);
      } else {
        assert before.rest[i + 1].id == b;
      }
    } else if before.Looping? {
      assert before.rest[0].id == b;
    }
  }

  lemma {:induction false} SeenWithHolds(s: State, actions: seq<Action>, a: EventId, b: EventId)
    requires Inv(s) && Runs(s, actions) && SeenWith(s, a, b)
    ensures SeenWith(After(s, actions), a, b)
    decreases |actions|
  {
    if actions == [] {
    } else {
      InvKept(s, actions[0]);
      SeenWithKept(s, actions[0], a, b);
      SeenWithHolds(Next(s, actions[0]), actions[1..], a, b);
    }
  }

  /**
   A corollary that speaks of one moment: if `a` is committed while nobody deals
   with `b` yet, then in every later state each record of `b` has a record of `a`
   before it.
   */
  lemma OrderWhenUntouched(s: State, early: seq<Action>, late: seq<Action>, a: EventId, b: EventId, j: nat)
    requires Init(s) && Runs(s, early) && Runs(After(s, early), late)
    requires a in After(s, early).table && Untouched(After(s, early), b)
    requires var log := After(After(s, early), late).log;
             j < |log| && log[j].Published? && log[j].row.id == b
    requires var t := After(After(s, early), late);
             OlderRoutable(t.table, a, t.log[j].row)
    ensures InLog(After(After(s, early), late).log[..j], a)
  {
    var m := After(s, early);
    InvHolds(s, early);
    assert SeenWith(m, a, b);
    SeenWithHolds(m, late, a, b);
    RunsConcat(s, early, late);
    OlderBefore(s, early + late, a, j);
  }
}
