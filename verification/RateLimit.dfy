/**
 The limit on verification emails (services/identity/src/services/resend_verification.rs):
 the count is taken before the transaction that inserts, so the true bound depends
 on how many requests are between the two.
 */
module RateLimit {
  import opened Basics
  import opened Base64Url
  import opened Libraries
  import opened Accounts
  import opened AccountsSafety

  /** The user's tokens created from `w` on and before `w + 1 hour`. */
  function InWindow(tokens: seq<Token>, user: UserId, w: Time): nat {
    if tokens == [] then 0
    else
      var last := tokens[|tokens| - 1];
      InWindow(tokens[..|tokens| - 1], user, w)
      + if last.user == user && w <= last.createdAt < w + HOUR then 1 else 0
  }

  predicate IsPending(call: Call, user: UserId) {
    (call.Counted? || call.Reissuing?) && call.user == user
  }

  /** The user's requests between their count and their commit. */
  function Pending(s: State, user: UserId): set<CallId> {
    set c | c in s.calls && IsPending(s.calls[c], user)
  }

  /** Those that counted before `bound`. */
  function CountedBefore(s: State, user: UserId, bound: Time): set<CallId> {
    set c | c in s.calls && IsPending(s.calls[c], user) && s.calls[c].countedAt < bound
  }

  /** Every window's tokens, and the requests that may still add to it, are at most `2 + k`. */
  ghost predicate Bounded(s: State, user: UserId, k: nat) {
    forall w: Time :: InWindow(s.tokens, user, w) + |CountedBefore(s, user, w + HOUR)| <= MAX_TOKENS_PER_HOUR - 1 + k
  }

  /** Never more than `k` of the user's requests are between count and commit. */
  ghost predicate AtMost(s: State, actions: seq<Action>, user: UserId, k: nat)
    requires Runs(s, actions)
    decreases |actions|
  {
    |Pending(s, user)| <= k && (actions != [] ==> AtMost(Next(s, actions[0]), actions[1..], user, k))
  }

  /** The user's token is younger than 3600 seconds. */
  predicate Young(token: Token, user: UserId, now: Time) {
    token.user == user && token.createdAt + 3_600_000_000 > now
  }

  /** The user's token was created within the 3600 seconds from `w` on. */
  predicate InHour(token: Token, user: UserId, w: Time) {
    token.user == user && w <= token.createdAt < w + 3_600_000_000
  }

  /** The count query, as the number of the tokens it is meant to count. */
  lemma {:induction false} RecentTokensExactly(tokens: seq<Token>, user: UserId, now: Time)
    ensures RecentTokens(tokens, user, now) == |set i | 0 <= i < |tokens| && Young(tokens[i], user, now)|
  {
    if tokens == [] {
    } else {
      var n, front := |tokens| - 1, tokens[..|tokens| - 1];
      RecentTokensExactly(front, user, now);
      var before := set i | 0 <= i < |front| && Young(front[i], user, now);
      var all := set i | 0 <= i < |tokens| && Young(tokens[i], user, now);
      assert all == before + if Young(tokens[n], user, now) then {n} else {};
    }
  }

  /** The tokens of a window, as their number. */
  lemma {:induction false} InWindowExactly(tokens: seq<Token>, user: UserId, w: Time)
    ensures InWindow(tokens, user, w) == |set i | 0 <= i < |tokens| && InHour(tokens[i], user, w)|
  {
    if tokens == [] {
    } else {
      var n, front := |tokens| - 1, tokens[..|tokens| - 1];
      InWindowExactly(front, user, w);
      var before := set i | 0 <= i < |front| && InHour(front[i], user, w);
      var all := set i | 0 <= i < |tokens| && InHour(tokens[i], user, w);
      assert all == before + if InHour(tokens[n], user, w) then {n} else {};
    }
  }

  lemma {:induction false} WindowInRecent(tokens: seq<Token>, user: UserId, w: Time, now: Time)
    requires now < w + HOUR
    ensures InWindow(tokens, user, w) <= RecentTokens(tokens, user, now)
  {
    if tokens == [] {
    } else {
      WindowInRecent(tokens[..|tokens| - 1], user, w, now);
    }
  }

  lemma {:induction false} WindowOfStranger(tokens: seq<Token>, user: UserId, w: Time)
    requires forall i | 0 <= i < |tokens| :: tokens[i].user != user
    ensures InWindow(tokens, user, w) == 0
  {
    if tokens == [] {
    } else {
      WindowOfStranger(tokens[..|tokens| - 1], user, w);
    }
  }

  lemma {:induction false} WindowSame(tokens: seq<Token>, tokens': seq<Token>, user: UserId, w: Time)
    requires |tokens| == |tokens'|
    requires forall i | 0 <= i < |tokens| ::
               tokens[i].user == tokens'[i].user && tokens[i].createdAt == tokens'[i].createdAt
    ensures InWindow(tokens, user, w) == InWindow(tokens', user, w)
  {
    if tokens == [] {
    } else {
      var n := |tokens| - 1;
      WindowSame(tokens[..n], tokens'[..n], user, w);
    }
  }

  lemma WindowAppend(tokens: seq<Token>, token: Token, user: UserId, w: Time)
    ensures InWindow(tokens + [token], user, w)
         == InWindow(tokens, user, w) + if token.user == user && w <= token.createdAt < w + HOUR then 1 else 0
  {
    assert (tokens + [token])[..|tokens|] == tokens;
  }

  /** A count below the limit: what is pending and what is in the window stay within the bound. */
  lemma CountBounded(s: State, c: CallId, user: UserId, k: nat, w: Time)
    requires Enabled(s, Count(c)) && Bounded(s, user, k) && |Pending(Next(s, Count(c)), user)| <= k
    ensures InWindow(s.tokens, user, w) + |CountedBefore(Next(s, Count(c)), user, w + HOUR)| <= 2 + k
  {
    var t := Next(s, Count(c));
    if s.calls[c].user == user && s.now < w + HOUR {
      WindowInRecent(s.tokens, user, w, s.now);
      SubsetCount(CountedBefore(t, user, w + HOUR), Pending(t, user));
    } else {
      assert CountedBefore(t, user, w + HOUR) == CountedBefore(s, user, w + HOUR);
    }
  }

  lemma CommitBounded(s: State, c: CallId, user: UserId, k: nat, w: Time)
    requires RowsOk(s) && Enabled(s, Commit(c)) && s.calls[c].Reissuing? && Bounded(s, user, k)
    ensures InWindow(Next(s, Commit(c)).tokens, user, w) + |CountedBefore(Next(s, Commit(c)), user, w + HOUR)| <= 2 + k
  {
    var t := Next(s, Commit(c));
    var before, after := CountedBefore(s, user, w + HOUR), CountedBefore(t, user, w + HOUR);
    assert CallOk(s, s.calls[c]);
    WindowAppend(s.tokens, t.tokens[|s.tokens|], user, w);
    assert after == before - {c};
    if c in before {
      assert |before - {c}| == |before| - 1;
    }
  }

  /** An account that does not exist yet has no tokens and no requests. */
  lemma NothingYet(s: State, user: UserId, w: Time)
    requires RowsOk(s) && user == |s.users|
    ensures InWindow(s.tokens, user, w) == 0 && CountedBefore(s, user, w + HOUR) == {}
  {
    forall i | 0 <= i < |s.tokens| ensures s.tokens[i].user != user {
      assert TokenOk(s, s.tokens[i]);
    }
    WindowOfStranger(s.tokens, user, w);
    forall d | d in s.calls ensures !IsPending(s.calls[d], user) {
      assert CallOk(s, s.calls[d]);
    }
  }

  lemma SignUpBounded(s: State, c: CallId, user: UserId, k: nat, w: Time)
    requires RowsOk(s) && Enabled(s, Commit(c)) && s.calls[c].SigningUp? && Bounded(s, user, k)
    ensures InWindow(Next(s, Commit(c)).tokens, user, w) + |CountedBefore(Next(s, Commit(c)), user, w + HOUR)| <= 2 + k
  {
    var t := Next(s, Commit(c));
    WindowAppend(s.tokens, t.tokens[|s.tokens|], user, w);
    assert CountedBefore(t, user, w + HOUR) == CountedBefore(s, user, w + HOUR);
    if user == |s.users| {
      NothingYet(s, user, w);
    }
  }

  lemma SameTokens(s: State, a: Action)
    requires Enabled(s, a) && (a.Commit? ==> s.calls[a.c].Marked?)
    ensures var t := Next(s, a); |s.tokens| == |t.tokens| && forall i | 0 <= i < |s.tokens| ::
              s.tokens[i].user == t.tokens[i].user && s.tokens[i].createdAt == t.tokens[i].createdAt
  {
  }

  lemma FewerCounted(s: State, a: Action, user: UserId, bound: Time)
    requires Enabled(s, a) && !a.Count?
    ensures CountedBefore(Next(s, a), user, bound) <= CountedBefore(s, user, bound)
  {
  }

  lemma OthersBounded(s: State, a: Action, user: UserId, k: nat, w: Time)
    requires RowsOk(s) && Enabled(s, a) && Bounded(s, user, k) && !a.Count? && (a.Commit? ==> s.calls[a.c].Marked?)
    ensures InWindow(Next(s, a).tokens, user, w) + |CountedBefore(Next(s, a), user, w + HOUR)| <= 2 + k
  {
    var t := Next(s, a);
    SameTokens(s, a);
    WindowSame(s.tokens, t.tokens, user, w);
    FewerCounted(s, a, user, w + HOUR);
    SubsetCount(CountedBefore(t, user, w + HOUR), CountedBefore(s, user, w + HOUR));
  }

  lemma BoundedKept(s: State, a: Action, user: UserId, k: nat)
    requires RowsOk(s) && Enabled(s, a) && Bounded(s, user, k) && |Pending(Next(s, a), user)| <= k
    ensures Bounded(Next(s, a), user, k)
  {
    forall w: Time ensures InWindow(Next(s, a).tokens, user, w) + |CountedBefore(Next(s, a), user, w + HOUR)| <= 2 + k {
      if a.Count? {
        CountBounded(s, a.c, user, k, w);
      } else if a.Commit? && s.calls[a.c].Reissuing? {
        CommitBounded(s, a.c, user, k, w);
      } else if a.Commit? && s.calls[a.c].SigningUp? {
        SignUpBounded(s, a.c, user, k, w);
      } else {
        OthersBounded(s, a, user, k, w);
      }
    }
  }

  lemma {:induction false} BoundedHolds(s: State, actions: seq<Action>, user: UserId, k: nat)
    requires Inv(s) && Bounded(s, user, k) && Runs(s, actions) && AtMost(s, actions, user, k)
    ensures Bounded(After(s, actions), user, k)
    decreases |actions|
  {
    if actions == [] {
    } else {
      InvKept(s, actions[0]);
      BoundedKept(s, actions[0], user, k);
      BoundedHolds(Next(s, actions[0]), actions[1..], user, k);
    }
  }

  /**
   Over every run in which at most `k` of a user's requests are ever between count
   and commit, every window of one hour holds at most `2 + k` of the user's tokens,
   the one of sign-up included: three when requests come one at a time.
   */
  lemma RateLimited(actions: seq<Action>, user: UserId, k: nat, w: Time)
    requires Runs(Init(), actions) && AtMost(Init(), actions, user, k)
    ensures var tokens := After(Init(), actions).tokens;
            |set i | 0 <= i < |tokens| && InHour(tokens[i], user, w)| <= 2 + k
  {
    InWindowExactly(After(Init(), actions).tokens, user, w);
    InitInv();
    forall v: Time ensures InWindow(Init().tokens, user, v) + |CountedBefore(Init(), user, v + HOUR)| <= 2 + k {
      assert CountedBefore(Init(), user, v + HOUR) == {};
    }
    BoundedHolds(Init(), actions, user, k);
  }

  // ----- the bound is attained -----

  /** Different random tokens, as many as a run needs. */
  ghost predicate Draws(raws: seq<Bytes>) {
    && (forall i | 0 <= i < |raws| :: |raws[i]| == TOKEN_LEN)
    && (forall i, j | 0 <= i < j < |raws| :: raws[i] != raws[j])
  }

  function TokenFor(raw: Bytes): Token {
    Token(0, Sha256(raw), HOUR, false, 0)
  }

  function EventFor(raw: Bytes): Event {
    Event(0, "a@b", VerificationMail(Encode(raw)))
  }

  /** Calls `from` to `to - 1` have passed the count. */
  function Waiting(from: nat, to: nat): (calls: map<CallId, Call>)
    requires from <= to
    ensures forall c: CallId :: c in calls <==> from <= c < to
    ensures forall c | c in calls :: calls[c] == Counted(0, 0)
    ensures |calls.Keys| == to - from
  {
    if from == to then map[]
    else
      var rest := Waiting(from, to - 1);
      var calls := rest[to - 1 := Counted(0, 0)];
      assert calls.Keys == rest.Keys + {to - 1};
      calls
  }

  function Firsts(raws: seq<Bytes>, n: nat): set<Bytes>
    requires n <= |raws|
  {
    set i | 0 <= i < n :: raws[i]
  }

  /** One user with `n` tokens, all of the first moment, and calls `from` to `to - 1` past the count. */
  function Crowd(raws: seq<Bytes>, n: nat, from: nat, to: nat): State
    requires n <= |raws| && from <= to
  {
    State(0, [NewAccount("a", "a@b", "")],
          seq(n, i requires 0 <= i < n => TokenFor(raws[i])), seq(n, i requires 0 <= i < n => EventFor(raws[i])),
          Waiting(from, to), Firsts(raws, n), [])
  }

  lemma {:induction false} AllRecent(tokens: seq<Token>)
    requires forall i | 0 <= i < |tokens| :: tokens[i].user == 0 && tokens[i].createdAt == 0
    ensures RecentTokens(tokens, 0, 0) == InWindow(tokens, 0, 0) == |tokens|
  {
    if tokens == [] {
    } else {
      AllRecent(tokens[..|tokens| - 1]);
    }
  }

  /** The run leads from `s` to `t` with never more than `k` of the user's requests pending. */
  ghost predicate Reaches(s: State, run: seq<Action>, t: State, k: nat) {
    Runs(s, run) && AtMost(s, run, 0, k) && After(s, run) == t
  }

  lemma Prepend(s: State, a: Action, b: Action, rest: seq<Action>, t: State, k: nat) returns (run: seq<Action>)
    requires Enabled(s, a) && Enabled(Next(s, a), b) && Reaches(Next(Next(s, a), b), rest, t, k)
    requires |Pending(s, 0)| <= k && |Pending(Next(s, a), 0)| <= k
    ensures Reaches(s, run, t, k)
  {
    run := [a] + ([b] + rest);
    assert run[1..] == [b] + rest && ([b] + rest)[1..] == rest;
  }

  lemma FewPending(s: State, k: nat)
    requires forall c | c in s.calls :: c < k
    ensures |Pending(s, 0)| <= k
  {
    SubsetCount(Pending(s, 0), Waiting(0, k).Keys);
  }

  lemma DrawsGrow(raws: seq<Bytes>, n: nat)
    requires Draws(raws) && n < |raws|
    ensures raws[n] !in Firsts(raws, n) && Firsts(raws, n + 1) == Firsts(raws, n) + {raws[n]}
  {
  }

  /** The crowd with its call `from` in the transaction of the next token. */
  function Crowding(raws: seq<Bytes>, n: nat, from: nat, to: nat): State
    requires n < |raws| && from < to
  {
    var s := Crowd(raws, n, from, to);
    s.(calls := s.calls[from := Reissuing(0, 0, raws[n], 0, 0)], drawn := Firsts(raws, n + 1))
  }

  lemma Drawing(raws: seq<Bytes>, n: nat, from: nat, to: nat)
    requires Draws(raws) && n < |raws| && from < to
    ensures Enabled(Crowd(raws, n, from, to), Reissue(from, raws[n], 0))
    ensures Next(Crowd(raws, n, from, to), Reissue(from, raws[n], 0)) == Crowding(raws, n, from, to)
  {
    DrawsGrow(raws, n);
  }

  lemma Inserting(raws: seq<Bytes>, n: nat, from: nat, to: nat)
    requires n < |raws| && from < to
    ensures Enabled(Crowding(raws, n, from, to), Commit(from))
    ensures Next(Crowding(raws, n, from, to), Commit(from)) == Crowd(raws, n + 1, from + 1, to)
  {
    var s, t := Next(Crowding(raws, n, from, to), Commit(from)), Crowd(raws, n + 1, from + 1, to);
    assert s.tokens == t.tokens && s.outbox == t.outbox;
    assert s.calls == t.calls;
  }

  /** Call `from`, once past the count, draws a token and commits it. */
  lemma OneMore(raws: seq<Bytes>, n: nat, from: nat, to: nat, rest: seq<Action>, t: State, k: nat)
    returns (run: seq<Action>)
    requires Draws(raws) && n < |raws| && from < to <= k && Reaches(Crowd(raws, n + 1, from + 1, to), rest, t, k)
    ensures Reaches(Crowd(raws, n, from, to), run, t, k)
  {
    var s := Crowd(raws, n, from, to);
    Drawing(raws, n, from, to);
    Inserting(raws, n, from, to);
    FewPending(s, k);
    FewPending(Crowding(raws, n, from, to), k);
    run := Prepend(s, Reissue(from, raws[n], 0), Commit(from), rest, t, k);
  }

  lemma {:induction false} IssueAll(raws: seq<Bytes>, n: nat, from: nat, k: nat, t: State) returns (run: seq<Action>)
    requires Draws(raws) && from <= k && |raws| == n + (k - from) && t == Crowd(raws, |raws|, k, k)
    ensures Reaches(Crowd(raws, n, from, k), run, t, k)
    decreases k - from
  {
    if from == k {
      run := [];
      FewPending(t, k);
    } else {
      run := IssueAll(raws, n + 1, from + 1, k, t);
      run := OneMore(raws, n, from, k, run, t, k);
    }
  }

  /** Call `to` passes the count, while the user has one or two tokens. */
  lemma OneCounts(raws: seq<Bytes>, n: nat, to: nat, rest: seq<Action>, t: State, k: nat) returns (run: seq<Action>)
    requires n <= 2 && n <= |raws| && to < k && Reaches(Crowd(raws, n, 0, to + 1), rest, t, k)
    ensures Reaches(Crowd(raws, n, 0, to), run, t, k)
  {
    var s := Crowd(raws, n, 0, to);
    AllRecent(s.tokens);
    var s1 := Next(s, LookUpPending(to, 0));
    assert Next(s1, Count(to)).calls == Waiting(0, to + 1);
    FewPending(s, k);
    FewPending(s1, k);
    run := Prepend(s, LookUpPending(to, 0), Count(to), rest, t, k);
  }

  lemma {:induction false} CountAll(raws: seq<Bytes>, to: nat, k: nat, t: State) returns (run: seq<Action>)
    requires Draws(raws) && to <= k && |raws| == 2 + k && t == Crowd(raws, |raws|, k, k)
    ensures Reaches(Crowd(raws, 2, 0, to), run, t, k)
    decreases k - to
  {
    if to == k {
      run := IssueAll(raws, 2, 0, k, t);
    } else {
      run := CountAll(raws, to + 1, k, t);
      run := OneCounts(raws, 2, to, run, t, k);
    }
  }

  /** A sign-up makes a crowd of one. */
  lemma FirstCrowd(raws: seq<Bytes>)
    requires Draws(raws) && |raws| > 0
    ensures var sign := SignUp(0, NewAccount("a", "a@b", ""), raws[0], 0);
            && Enabled(Init(), sign) && Enabled(Next(Init(), sign), Commit(0))
            && Next(Next(Init(), sign), Commit(0)) == Crowd(raws, 1, 0, 0)
  {
    var s, u := Next(Next(Init(), SignUp(0, NewAccount("a", "a@b", ""), raws[0], 0)), Commit(0)), Crowd(raws, 1, 0, 0);
    assert s.users == u.users && s.tokens == u.tokens && s.outbox == u.outbox && s.calls == u.calls;
    assert s.drawn == u.drawn;
  }

  lemma SignedUp(raws: seq<Bytes>, rest: seq<Action>, t: State, k: nat) returns (run: seq<Action>)
    requires Draws(raws) && |raws| > 0 && k > 0 && Reaches(Crowd(raws, 1, 0, 0), rest, t, k)
    ensures Reaches(Init(), run, t, k)
  {
    var sign := SignUp(0, NewAccount("a", "a@b", ""), raws[0], 0);
    FirstCrowd(raws);
    FewPending(Next(Init(), sign), k);
    FewPending(Init(), k);
    run := Prepend(Init(), sign, Commit(0), rest, t, k);
  }

  /**
   The bound is attained for every `k` from one on, as far as there are different
   random tokens: a run with at most `k` requests between count and commit puts
   `2 + k` tokens in one window.
   */
  lemma RateLimitIsTight(raws: seq<Bytes>, k: nat) returns (run: seq<Action>)
    requires Draws(raws) && |raws| == 2 + k && k > 0
    ensures Runs(Init(), run) && AtMost(Init(), run, 0, k) && InWindow(After(Init(), run).tokens, 0, 0) == 2 + k
  {
    var t := Crowd(raws, |raws|, k, k);
    run := CountAll(raws, 0, k, t);
    assert Waiting(1, 1) == Waiting(0, 0);
    run := OneMore(raws, 1, 0, 1, run, t, k);
    run := OneCounts(raws, 1, 0, run, t, k);
    run := SignedUp(raws, run, t, k);
    AllRecent(t.tokens);
  }
}
