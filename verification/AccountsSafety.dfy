/** What holds in every state that concurrent account requests can reach. */
module AccountsSafety {
  import opened Basics
  import opened Base64Url
  import opened Libraries
  import opened Accounts

  // ----- the invariant -----

  function RawOf(call: Call): Option<Bytes> {
    if call.SigningUp? || call.Reissuing? then Some(call.raw) else None
  }

  ghost predicate CallOk(s: State, call: Call) {
    match call
    case SigningUp(account, raw, drawnAt, startedAt) =>
      account == NewAccount(account.username, account.email, account.passwordHash) && raw in s.drawn &&
        drawnAt <= startedAt <= s.now
    case Resending(user) => user < |s.users|
    case Counted(user, countedAt) => user < |s.users| && countedAt <= s.now
    case Reissuing(user, countedAt, raw, drawnAt, startedAt) =>
      user < |s.users| && raw in s.drawn && countedAt <= drawnAt <= startedAt <= s.now
    case Looked(token) => token < |s.tokens|
    case Timely(token) => token < |s.tokens|
    case Consumed(token) => token < |s.tokens| && !s.tokens[token].consumed
    case Marked(token) =>
      && token < |s.tokens| && !s.tokens[token].consumed
      && s.tokens[token].user < |s.users| && !s.users[s.tokens[token].user].deleted
    case ChangingPassword(user) => user < |s.users|
  }

  ghost predicate TokenOk(s: State, token: Token) {
    && token.user < |s.users| && token.createdAt <= s.now && token.hash.preimage in s.drawn
    && token.expiresAt <= token.createdAt + 3_600_000_000
  }

  ghost predicate RowsOk(s: State) {
    && (forall t | 0 <= t < |s.tokens| :: TokenOk(s, s.tokens[t]))
    && (forall c | c in s.calls :: CallOk(s, s.calls[c]))
  }

  /** No two calls hold the lock of one token row, or of one user row. */
  ghost predicate LocksOk(s: State) {
    && (forall c, d, t | c in s.calls && d in s.calls && HoldsToken(s.calls[c], t) && HoldsToken(s.calls[d], t) ::
          c == d)
    && (forall c, d, u | c in s.calls && d in s.calls && HoldsUser(s, s.calls[c], u) && HoldsUser(s, s.calls[d], u) ::
          c == d)
  }

  /** All random bytes drawn for a token are different. */
  ghost predicate RawsDiffer(s: State) {
    && (forall i, j | 0 <= i < j < |s.tokens| :: s.tokens[i].hash != s.tokens[j].hash)
    && (forall c, i | c in s.calls && 0 <= i < |s.tokens| :: RawOf(s.calls[c]) != Some(s.tokens[i].hash.preimage))
    && (forall c, d | c in s.calls && d in s.calls && c != d && RawOf(s.calls[c]).Some? ::
          RawOf(s.calls[c]) != RawOf(s.calls[d]))
  }

  ghost predicate HasConsumed(tokens: seq<Token>, user: UserId) {
    exists t | 0 <= t < |tokens| :: tokens[t].user == user && tokens[t].consumed
  }

  ghost predicate StatusOk(s: State, user: UserId)
    requires user < |s.users|
  {
    var u := s.users[user];
    && (u.status == Active || u.status == PendingVerification)
    && (u.emailVerified <==> u.status == Active)
    && (u.status == Active <==> HasConsumed(s.tokens, user))
  }

  ghost predicate StatusesOk(s: State) {
    forall user | 0 <= user < |s.users| :: StatusOk(s, user)
  }

  /** The users and codes of the verification events, in order. */
  function Codes(outbox: seq<Event>): seq<(UserId, string)> {
    if outbox == [] then []
    else
      var last := outbox[|outbox| - 1];
      Codes(outbox[..|outbox| - 1]) + if last.payload.VerificationMail? then [(last.user, last.payload.code)] else []
  }

  /** The users of the password events, in order. */
  function Notices(outbox: seq<Event>): seq<UserId> {
    if outbox == [] then []
    else
      var last := outbox[|outbox| - 1];
      Notices(outbox[..|outbox| - 1]) + if last.payload.VerificationMail? then [] else [last.user]
  }

  /** The users of the committed password changes, in order. */
  function Changes(history: seq<Fact>): seq<UserId> {
    if history == [] then []
    else
      var last := history[|history| - 1];
      Changes(history[..|history| - 1]) + if last.PasswordChanged? then [last.user] else []
  }

  /** The users of the tokens, with the code whose hash the row holds. */
  function Issued(tokens: seq<Token>): seq<(UserId, string)> {
    seq(|tokens|, i requires 0 <= i < |tokens| => (tokens[i].user, Encode(tokens[i].hash.preimage)))
  }

  ghost predicate OutboxOk(s: State) {
    Codes(s.outbox) == Issued(s.tokens) && Notices(s.outbox) == Changes(s.history)
  }

  predicate VerifiedAt(history: seq<Fact>, i: nat, token: TokenId) {
    i < |history| && history[i].Verified? && history[i].token == token
  }

  predicate VerifiedBefore(history: seq<Fact>, i: nat, user: UserId) {
    exists j | 0 <= j < |history| && j < i :: history[j].Verified? && history[j].user == user
  }

  ghost predicate HistoryOk(s: State) {
    && (forall i | 0 <= i < |s.history| && s.history[i].Verified? ::
          && s.history[i].token < |s.tokens| && s.tokens[s.history[i].token].user == s.history[i].user
          && s.tokens[s.history[i].token].consumed)
    && (forall t | 0 <= t < |s.tokens| && s.tokens[t].consumed :: exists i :: VerifiedAt(s.history, i, t))
    && (forall i, j, t | VerifiedAt(s.history, i, t) && VerifiedAt(s.history, j, t) :: i == j)
    && (forall i | 0 <= i < |s.history| && s.history[i].LoggedIn? :: VerifiedBefore(s.history, i, s.history[i].user))
  }

  ghost predicate NamesOk(users: seq<User>) {
    forall i, j | 0 <= i < j < |users| && !users[i].deleted && !users[j].deleted ::
      Lower(users[i].username) != Lower(users[j].username) && Lower(users[i].email) != Lower(users[j].email)
  }

  /** A capital letter of ASCII and the small one, 32 places behind it. */
  predicate CaseOf(capital: char, small: char) {
    'A' <= capital <= 'Z' && small as int == capital as int + 32
  }

  predicate SameLetter(a: char, b: char) {
    a == b || CaseOf(a, b) || CaseOf(b, a)
  }

  lemma SameLetterExactly(a: char, b: char)
    ensures SameLetter(a, b) <==> LowerChar(a) == LowerChar(b)
  {
  }

  /** The texts differ in the case of letters at most. */
  predicate SameName(a: string, b: string) {
    |a| == |b| && forall i | 0 <= i < |a| :: SameLetter(a[i], b[i])
  }

  /** Two texts are one to the unique indexes exactly if they differ in the case of letters at most. */
  lemma SameNameExactly(a: string, b: string)
    ensures Lower(a) == Lower(b) <==> SameName(a, b)
  {
    forall i | 0 <= i < |a| && i < |b| ensures Lower(a)[i] == Lower(b)[i] <==> SameLetter(a[i], b[i]) {
      SameLetterExactly(a[i], b[i]);
    }
    if Lower(a) == Lower(b) {
      assert |Lower(a)| == |a| && |Lower(b)| == |b|;
    }
  }

  /** An account that is not deleted has the name, or the address. */
  predicate NameTaken(users: seq<User>, username: string) {
    exists i | 0 <= i < |users| :: !users[i].deleted && SameName(users[i].username, username)
  }

  predicate AddressTaken(users: seq<User>, email: string) {
    exists i | 0 <= i < |users| :: !users[i].deleted && SameName(users[i].email, email)
  }

  lemma TakenExactly(users: seq<User>, username: string, email: string)
    ensures UsernameInUse(users, username) <==> NameTaken(users, username)
    ensures EmailInUse(users, email) <==> AddressTaken(users, email)
  {
    forall i | 0 <= i < |users|
      ensures Lower(users[i].username) == Lower(username) <==> SameName(users[i].username, username)
      ensures Lower(users[i].email) == Lower(email) <==> SameName(users[i].email, email)
    {
      SameNameExactly(users[i].username, username);
      SameNameExactly(users[i].email, email);
    }
  }

  /** Every event is for an account, and goes to the address of that account. */
  ghost predicate AddressesOk(s: State) {
    forall e | 0 <= e < |s.outbox| ::
      s.outbox[e].user < |s.users| && s.outbox[e].recipient == s.users[s.outbox[e].user].email
  }

  ghost predicate Inv(s: State) {
    && RowsOk(s) && LocksOk(s) && RawsDiffer(s) && StatusesOk(s) && OutboxOk(s) && HistoryOk(s)
    && NamesOk(s.users) && AddressesOk(s)
  }

  // ----- every action keeps it -----

  lemma CallsAtDelete(s: State, user: UserId)
    requires RowsOk(s) && Enabled(s, Delete(user))
    ensures forall c | c in s.calls :: CallOk(Next(s, Delete(user)), s.calls[c])
  {
    forall c | c in s.calls ensures CallOk(Next(s, Delete(user)), s.calls[c]) {
      assert CallOk(s, s.calls[c]) && !HoldsUser(s, s.calls[c], user);
    }
  }

  /** A call stays sound while accounts and tokens only grow and time passes. */
  lemma CallStays(s: State, t: State, call: Call)
    requires CallOk(s, call) && s.now <= t.now && s.drawn <= t.drawn
    requires |s.users| <= |t.users| && |s.tokens| <= |t.tokens|
    requires forall u | 0 <= u < |s.users| :: t.users[u].deleted == s.users[u].deleted
    requires forall i | 0 <= i < |s.tokens| ::
               t.tokens[i].user == s.tokens[i].user
               && (HoldsToken(call, i) ==> t.tokens[i].consumed == s.tokens[i].consumed)
    ensures CallOk(t, call)
  {
  }

  /** Only the call that holds a token consumes it. */
  lemma CallsAtCommit(s: State, c: CallId)
    requires RowsOk(s) && LocksOk(s) && Enabled(s, Commit(c))
    ensures forall d | d in s.calls && d != c :: CallOk(Next(s, Commit(c)), s.calls[d])
  {
    var t := Next(s, Commit(c));
    forall d | d in s.calls && d != c ensures CallOk(t, s.calls[d]) {
      assert CallOk(s, s.calls[c]) && CallOk(s, s.calls[d]);
      if s.calls[c].Marked? {
        assert HoldsToken(s.calls[c], s.calls[c].token);
      }
      CallStays(s, t, s.calls[d]);
    }
  }

  lemma CallsKept(s: State, a: Action)
    requires RowsOk(s) && LocksOk(s) && Enabled(s, a)
    ensures forall c | c in Next(s, a).calls :: CallOk(Next(s, a), Next(s, a).calls[c])
  {
    if a.Delete? {
      CallsAtDelete(s, a.user);
    } else if a.Commit? {
      CallsAtCommit(s, a.c);
    } else {
      var t := Next(s, a);
      forall c | c in t.calls ensures CallOk(t, t.calls[c]) {
        assert c in s.calls ==> CallOk(s, s.calls[c]);
      }
    }
  }

  lemma RowsKept(s: State, a: Action)
    requires RowsOk(s) && LocksOk(s) && Enabled(s, a)
    ensures RowsOk(Next(s, a))
  {
    var t := Next(s, a);
    CallsKept(s, a);
    forall i | 0 <= i < |t.tokens| ensures TokenOk(t, t.tokens[i]) {
      assert i < |s.tokens| ==> TokenOk(s, s.tokens[i]);
      assert a.Commit? ==> CallOk(s, s.calls[a.c]);
    }
  }

  lemma LocksKept(s: State, a: Action)
    requires RowsOk(s) && LocksOk(s) && Enabled(s, a)
    ensures LocksOk(Next(s, a))
  {
    var n := Next(s, a);
    if a.Consume? {
      assert forall e | e in s.calls :: !HoldsToken(s.calls[e], s.calls[a.c].token);
    }
    forall c, d, t | c in n.calls && d in n.calls && HoldsToken(n.calls[c], t) && HoldsToken(n.calls[d], t)
      ensures c == d
    {
      if a.MarkVerified? {
        assert HoldsToken(s.calls[a.c], s.calls[a.c].token);
        assert HoldsToken(s.calls[c], t) && HoldsToken(s.calls[d], t);
      }
    }
    UserLocksKept(s, a);
  }

  /** What a call holds after a step it held before, unless it has just taken it. */
  lemma UserHeldBefore(s: State, a: Action, c: CallId, u: UserId)
    requires RowsOk(s) && Enabled(s, a) && c in Next(s, a).calls && HoldsUser(Next(s, a), Next(s, a).calls[c], u)
    ensures c in s.calls
    ensures HoldsUser(s, s.calls[c], u) || (a == MarkVerified(c) && !UserLocked(s, u))
  {
    assert c in s.calls ==> CallOk(s, s.calls[c]);
  }

  lemma UserLocksKept(s: State, a: Action)
    requires RowsOk(s) && LocksOk(s) && Enabled(s, a)
    ensures forall c, d, u | c in Next(s, a).calls && d in Next(s, a).calls
                             && HoldsUser(Next(s, a), Next(s, a).calls[c], u)
                             && HoldsUser(Next(s, a), Next(s, a).calls[d], u) :: c == d
  {
    var n := Next(s, a);
    forall c, d, u | c in n.calls && d in n.calls && HoldsUser(n, n.calls[c], u) && HoldsUser(n, n.calls[d], u)
      ensures c == d
    {
      UserHeldBefore(s, a, c, u);
      UserHeldBefore(s, a, d, u);
    }
  }

  lemma RawsStay(s: State, t: State)
    requires RawsDiffer(s) && s.tokens == t.tokens && t.calls.Keys <= s.calls.Keys
    requires forall c | c in t.calls :: RawOf(t.calls[c]) == RawOf(s.calls[c])
    ensures RawsDiffer(t)
  {
  }

  lemma RawDrawn(s: State, t: State, c: CallId, raw: Bytes)
    requires RowsOk(s) && RawsDiffer(s) && raw !in s.drawn && s.tokens == t.tokens
    requires c in t.calls && RawOf(t.calls[c]) == Some(raw)
    requires forall d | d in t.calls && d != c :: d in s.calls && t.calls[d] == s.calls[d]
    ensures RawsDiffer(t)
  {
    forall d | d in t.calls && d != c ensures RawOf(t.calls[d]) != Some(raw) {
      assert CallOk(s, s.calls[d]);
    }
    forall i | 0 <= i < |t.tokens| ensures t.tokens[i].hash.preimage != raw {
      assert TokenOk(s, s.tokens[i]);
    }
  }

  lemma RawIssued(s: State, t: State, c: CallId, token: Token)
    requires RawsDiffer(s) && c in s.calls && RawOf(s.calls[c]) == Some(token.hash.preimage)
    requires t.tokens == s.tokens + [token] && t.calls == s.calls - {c}
    ensures RawsDiffer(t)
  {
    forall i, j | 0 <= i < j < |t.tokens| ensures t.tokens[i].hash != t.tokens[j].hash {
      if j == |s.tokens| {
        assert RawOf(s.calls[c]) != Some(s.tokens[i].hash.preimage);
      }
    }
  }

  lemma RawsKept(s: State, a: Action)
    requires RowsOk(s) && RawsDiffer(s) && Enabled(s, a)
    ensures RawsDiffer(Next(s, a))
  {
    var t := Next(s, a);
    if a.SignUp? || a.Reissue? {
      RawDrawn(s, t, a.c, a.raw);
    } else if a.Commit? && !s.calls[a.c].Marked? {
      RawIssued(s, t, a.c, t.tokens[|s.tokens|]);
    } else if a.Commit? {
      RawsConsumed(s, t);
    } else if a.LookUpPending? || a.LookUpToken? || a.LookUpForPassword? {
      RawsOfNewcomer(s, t, a.c);
    } else {
      RawsStay(s, t);
    }
  }

  lemma RawsConsumed(s: State, t: State)
    requires RawsDiffer(s) && |s.tokens| == |t.tokens| && t.calls.Keys <= s.calls.Keys
    requires forall i | 0 <= i < |s.tokens| :: s.tokens[i].hash == t.tokens[i].hash
    requires forall c | c in t.calls :: t.calls[c] == s.calls[c]
    ensures RawsDiffer(t)
  {
  }

  lemma RawsOfNewcomer(s: State, t: State, c: CallId)
    requires RawsDiffer(s) && s.tokens == t.tokens && c in t.calls && RawOf(t.calls[c]) == None
    requires forall d | d in t.calls && d != c :: d in s.calls && t.calls[d] == s.calls[d]
    ensures RawsDiffer(t)
  {
  }

  lemma StatusStays(s: State, t: State, user: UserId)
    requires user < |s.users| && StatusOk(s, user) && user < |t.users|
    requires t.users[user].status == s.users[user].status && t.users[user].emailVerified == s.users[user].emailVerified
    requires |s.tokens| <= |t.tokens|
    requires forall i | 0 <= i < |s.tokens| ::
               t.tokens[i] == s.tokens[i] || t.tokens[i].user == s.tokens[i].user != user
    requires forall i | |s.tokens| <= i < |t.tokens| :: !t.tokens[i].consumed
    ensures StatusOk(t, user)
  {
    if HasConsumed(s.tokens, user) {
      var i :| 0 <= i < |s.tokens| && s.tokens[i].user == user && s.tokens[i].consumed;
      assert t.tokens[i].user == user && t.tokens[i].consumed;
    }
  }

  lemma StatusesKept(s: State, a: Action)
    requires RowsOk(s) && StatusesOk(s) && Enabled(s, a)
    ensures StatusesOk(Next(s, a))
  {
    var t := Next(s, a);
    forall user | 0 <= user < |t.users| ensures StatusOk(t, user) {
      if a.Commit? && s.calls[a.c].Marked? && user == s.tokens[s.calls[a.c].token].user {
        assert t.tokens[s.calls[a.c].token].consumed;
      } else if user < |s.users| {
        StatusStays(s, t, user);
      } else {
        assert CallOk(s, s.calls[a.c]);
        forall i | 0 <= i < |t.tokens| && t.tokens[i].user == user ensures !t.tokens[i].consumed {
          assert i < |s.tokens| ==> TokenOk(s, s.tokens[i]);
        }
      }
    }
  }

  lemma EventAdded(outbox: seq<Event>, e: Event)
    ensures (Codes(outbox + [e])
         == Codes(outbox) + if e.payload.VerificationMail? then [(e.user, e.payload.code)] else [])
    ensures Notices(outbox + [e]) == Notices(outbox) + if e.payload.VerificationMail? then [] else [e.user]
  {
    assert (outbox + [e])[..|outbox|] == outbox;
  }

  lemma FactAdded(history: seq<Fact>, fact: Fact)
    ensures Changes(history + [fact]) == Changes(history) + if fact.PasswordChanged? then [fact.user] else []
  {
    assert (history + [fact])[..|history|] == history;
  }

  lemma TokenAdded(tokens: seq<Token>, token: Token)
    ensures Issued(tokens + [token]) == Issued(tokens) + [(token.user, Encode(token.hash.preimage))]
  {
  }

  /** A token row and the event with its code go in together. */
  lemma IssueAdds(s: State, t: State, token: Token, email: string)
    requires OutboxOk(s) && t.history == s.history && t.tokens == s.tokens + [token]
    requires t.outbox == s.outbox + [Event(token.user, email, VerificationMail(Encode(token.hash.preimage)))]
    ensures OutboxOk(t)
  {
    EventAdded(s.outbox, Event(token.user, email, VerificationMail(Encode(token.hash.preimage))));
    TokenAdded(s.tokens, token);
  }

  lemma VerificationAdds(s: State, t: State, fact: Fact)
    requires OutboxOk(s) && t.outbox == s.outbox && t.history == s.history + [fact] && !fact.PasswordChanged?
    requires |t.tokens| == |s.tokens|
    requires forall i | 0 <= i < |s.tokens| ::
               t.tokens[i].user == s.tokens[i].user && t.tokens[i].hash == s.tokens[i].hash
    ensures OutboxOk(t)
  {
    FactAdded(s.history, fact);
    assert Issued(t.tokens) == Issued(s.tokens);
  }

  lemma PasswordAdds(s: State, t: State, user: UserId, email: string)
    requires OutboxOk(s) && t.tokens == s.tokens && t.history == s.history + [PasswordChanged(user)]
    requires t.outbox == s.outbox + [Event(user, email, PasswordChangedMail)]
    ensures OutboxOk(t)
  {
    EventAdded(s.outbox, Event(user, email, PasswordChangedMail));
    FactAdded(s.history, PasswordChanged(user));
  }

  lemma CommitAdds(s: State, c: CallId)
    requires OutboxOk(s) && Enabled(s, Commit(c))
    ensures OutboxOk(Next(s, Commit(c)))
  {
    var t := Next(s, Commit(c));
    match s.calls[c]
    case SigningUp(account, raw, drawnAt, startedAt) =>
      IssueAdds(s, t, Token(|s.users|, Sha256(raw), drawnAt + HOUR, false, startedAt), account.email);
    case Reissuing(user, _, raw, drawnAt, startedAt) =>
      IssueAdds(s, t, Token(user, Sha256(raw), drawnAt + HOUR, false, startedAt), s.users[user].email);
    case Marked(token) => VerificationAdds(s, t, Verified(c, token, s.tokens[token].user));
  }

  lemma OutboxKept(s: State, a: Action)
    requires OutboxOk(s) && Enabled(s, a)
    ensures OutboxOk(Next(s, a))
  {
    if a.Commit? {
      CommitAdds(s, a.c);
    } else if a.CommitPassword? {
      var user := s.calls[a.c].user;
      PasswordAdds(s, Next(s, a), user, s.users[user].email);
    } else if a.LogIn? {
      FactAdded(s.history, LoggedIn(a.user));
    }
  }

  lemma NoFactNoChange(s: State, t: State)
    requires HistoryOk(s) && t.history == s.history && |s.tokens| <= |t.tokens|
    requires forall i | 0 <= i < |s.tokens| :: t.tokens[i] == s.tokens[i]
    requires forall i | |s.tokens| <= i < |t.tokens| :: !t.tokens[i].consumed
    ensures HistoryOk(t)
  {
  }

  /** A fact of another kind than a verification is added. */
  lemma OtherFact(s: State, t: State, fact: Fact)
    requires HistoryOk(s) && t.tokens == s.tokens && t.history == s.history + [fact] && !fact.Verified?
    requires fact.LoggedIn? ==> VerifiedBefore(s.history, |s.history|, fact.user)
    ensures HistoryOk(t)
  {
    forall i | 0 <= i < |t.tokens| && t.tokens[i].consumed ensures exists j :: VerifiedAt(t.history, j, i) {
      var j :| VerifiedAt(s.history, j, i);
      assert VerifiedAt(t.history, j, i);
    }
    forall i: nat, j: nat, k: TokenId | VerifiedAt(t.history, i, k) && VerifiedAt(t.history, j, k) ensures i == j {
      assert VerifiedAt(s.history, i, k) && VerifiedAt(s.history, j, k);
    }
    LoginsStay(s, t);
  }

  lemma LoginsStay(s: State, t: State)
    requires HistoryOk(s) && |t.history| == |s.history| + 1 && t.history[..|s.history|] == s.history
    requires var fact := t.history[|s.history|]; fact.LoggedIn? ==> VerifiedBefore(s.history, |s.history|, fact.user)
    ensures forall i | 0 <= i < |t.history| && t.history[i].LoggedIn? :: VerifiedBefore(t.history, i, t.history[i].user)
  {
    forall i | 0 <= i < |t.history| && t.history[i].LoggedIn? ensures VerifiedBefore(t.history, i, t.history[i].user) {
      var user := t.history[i].user;
      assert i < |s.history| ==> t.history[i] == s.history[i];
      var j :| 0 <= j < |s.history| && j < i && s.history[j].Verified? && s.history[j].user == user;
      assert t.history[j] == s.history[j];
    }
  }

  lemma VerificationFact(s: State, t: State, fact: Fact)
    requires HistoryOk(s) && fact.Verified? && fact.token < |s.tokens|
    requires !s.tokens[fact.token].consumed && s.tokens[fact.token].user == fact.user
    requires t.tokens == s.tokens[fact.token := s.tokens[fact.token].(consumed := true)]
    requires t.history == s.history + [fact]
    ensures HistoryOk(t)
  {
    assert VerifiedAt(t.history, |s.history|, fact.token);
    forall i | 0 <= i < |t.tokens| && t.tokens[i].consumed ensures exists j :: VerifiedAt(t.history, j, i) {
      if i != fact.token {
        var j :| VerifiedAt(s.history, j, i);
        assert VerifiedAt(t.history, j, i);
      }
    }
    forall i: nat, j: nat, k: TokenId | VerifiedAt(t.history, i, k) && VerifiedAt(t.history, j, k) ensures i == j {
      if i < |s.history| && j < |s.history| {
        assert VerifiedAt(s.history, i, k) && VerifiedAt(s.history, j, k);
      }
    }
    LoginsStay(s, t);
  }

  /** An active account has a committed verification. */
  lemma ActiveWasVerified(s: State, user: UserId)
    requires HistoryOk(s) && StatusesOk(s) && user < |s.users| && s.users[user].status == Active
    ensures VerifiedBefore(s.history, |s.history|, user)
  {
    assert StatusOk(s, user);
    var t :| 0 <= t < |s.tokens| && s.tokens[t].user == user && s.tokens[t].consumed;
    var i :| VerifiedAt(s.history, i, t);
  }

  lemma HistoryKept(s: State, a: Action)
    requires RowsOk(s) && StatusesOk(s) && HistoryOk(s) && Enabled(s, a)
    ensures HistoryOk(Next(s, a))
  {
    var t := Next(s, a);
    if a.Commit? && s.calls[a.c].Marked? {
      assert CallOk(s, s.calls[a.c]);
      VerificationFact(s, t, t.history[|s.history|]);
    } else if a.LogIn? {
      ActiveWasVerified(s, a.user);
      OtherFact(s, t, LoggedIn(a.user));
    } else if a.CommitPassword? {
      OtherFact(s, t, PasswordChanged(s.calls[a.c].user));
    } else {
      NoFactNoChange(s, t);
    }
  }

  lemma NamesKept(s: State, a: Action)
    requires NamesOk(s.users) && Enabled(s, a)
    ensures NamesOk(Next(s, a).users)
  {
    var t := Next(s, a);
    if a.Rename? {
      assert forall i | 0 <= i < |s.users| && i != a.user :: t.users[i] == s.users[i];
    } else if |t.users| == |s.users| {
      assert forall i | 0 <= i < |s.users| ::
          t.users[i].username == s.users[i].username && t.users[i].email == s.users[i].email
          && (s.users[i].deleted ==> t.users[i].deleted);
    } else {
      assert t.users == s.users + [s.calls[a.c].account];
    }
  }

  lemma AddressesKept(s: State, a: Action)
    requires AddressesOk(s) && Enabled(s, a)
    ensures AddressesOk(Next(s, a))
  {
    var t := Next(s, a);
    assert |s.users| <= |t.users| && forall u | 0 <= u < |s.users| :: t.users[u].email == s.users[u].email;
    forall e | 0 <= e < |t.outbox|
      ensures t.outbox[e].user < |t.users| && t.outbox[e].recipient == t.users[t.outbox[e].user].email
    {
      if e < |s.outbox| {
        assert t.outbox[e] == s.outbox[e];
      }
    }
  }

  lemma InvKept(s: State, a: Action)
    requires Inv(s) && Enabled(s, a)
    ensures Inv(Next(s, a))
  {
    RowsKept(s, a);
    LocksKept(s, a);
    RawsKept(s, a);
    StatusesKept(s, a);
    OutboxKept(s, a);
    HistoryKept(s, a);
    NamesKept(s, a);
    AddressesKept(s, a);
  }

  lemma {:induction false} InvHolds(s: State, actions: seq<Action>)
    requires Inv(s) && Runs(s, actions)
    ensures Inv(After(s, actions))
    decreases |actions|
  {
    if actions == [] {
    } else {
      InvKept(s, actions[0]);
      InvHolds(Next(s, actions[0]), actions[1..]);
    }
  }

  lemma InitInv()
    ensures Inv(Init())
  {
  }

  // ----- how long a token lives -----

  /** The action draws these bytes for a token, at the moment `drawnAt`. */
  predicate DrawsRaw(a: Action, raw: Bytes) {
    (a.SignUp? || a.Reissue?) && a.raw == raw
  }

  /** When the bytes of each token were drawn. */
  function Recorded(draws: map<Bytes, Time>, a: Action): map<Bytes, Time> {
    if a.SignUp? || a.Reissue? then draws[a.raw := a.drawnAt] else draws
  }

  function AllDraws(draws: map<Bytes, Time>, actions: seq<Action>): map<Bytes, Time>
    decreases |actions|
  {
    if actions == [] then draws else AllDraws(Recorded(draws, actions[0]), actions[1..])
  }

  /** A token expires an hour after its bytes were drawn; a call under way knows when it drew its own. */
  ghost predicate DrawsOk(s: State, draws: map<Bytes, Time>) {
    && draws.Keys == s.drawn && (forall raw | raw in draws :: |raw| == 32)
    && (forall t | 0 <= t < |s.tokens| ::
          s.tokens[t].hash.preimage in draws
          && s.tokens[t].expiresAt == draws[s.tokens[t].hash.preimage] + 3_600_000_000)
    && (forall c | c in s.calls && RawOf(s.calls[c]).Some? ::
          s.calls[c].raw in draws && s.calls[c].drawnAt == draws[s.calls[c].raw])
  }

  lemma DrawsKept(s: State, a: Action, draws: map<Bytes, Time>)
    requires DrawsOk(s, draws) && Enabled(s, a)
    ensures DrawsOk(Next(s, a), Recorded(draws, a))
  {
    if a.Commit? {
      DrawsAtCommit(s, a.c, draws);
    }
  }

  lemma DrawsAtCommit(s: State, c: CallId, draws: map<Bytes, Time>)
    requires DrawsOk(s, draws) && Enabled(s, Commit(c))
    ensures DrawsOk(Next(s, Commit(c)), draws)
  {
    var t := Next(s, Commit(c));
    assert RawOf(s.calls[c]).Some? ==> s.calls[c].raw in draws && s.calls[c].drawnAt == draws[s.calls[c].raw];
    forall i | 0 <= i < |t.tokens|
      ensures t.tokens[i].hash.preimage in draws
              && t.tokens[i].expiresAt == draws[t.tokens[i].hash.preimage] + 3_600_000_000
    {
      if i < |s.tokens| {
        assert t.tokens[i].hash == s.tokens[i].hash && t.tokens[i].expiresAt == s.tokens[i].expiresAt;
      }
    }
  }

  lemma {:induction false} DrawsHold(s: State, actions: seq<Action>, draws: map<Bytes, Time>)
    requires DrawsOk(s, draws) && Runs(s, actions)
    ensures DrawsOk(After(s, actions), AllDraws(draws, actions))
    decreases |actions|
  {
    if actions == [] {
    } else {
      DrawsKept(s, actions[0], draws);
      DrawsHold(Next(s, actions[0]), actions[1..], Recorded(draws, actions[0]));
    }
  }

  /** Bytes that were drawn are never drawn again. */
  lemma {:induction false} DrawnOnce(s: State, actions: seq<Action>, draws: map<Bytes, Time>, raw: Bytes)
    requires Runs(s, actions) && draws.Keys == s.drawn && raw in draws
    ensures raw in AllDraws(draws, actions) && AllDraws(draws, actions)[raw] == draws[raw]
    ensures forall i | 0 <= i < |actions| :: !DrawsRaw(actions[i], raw)
    decreases |actions|
  {
    if actions == [] {
    } else {
      DrawnOnce(Next(s, actions[0]), actions[1..], Recorded(draws, actions[0]), raw);
      forall i | 0 <= i < |actions| ensures !DrawsRaw(actions[i], raw) {
        assert i > 0 ==> actions[i] == actions[1..][i - 1];
      }
    }
  }

  /** Recorded bytes were drawn by exactly one action of the run. */
  lemma {:induction false} DrawOf(s: State, actions: seq<Action>, draws: map<Bytes, Time>, raw: Bytes) returns (i: nat)
    requires Runs(s, actions) && draws.Keys == s.drawn && raw !in draws && raw in AllDraws(draws, actions)
    ensures i < |actions| && DrawsRaw(actions[i], raw) && actions[i].drawnAt == AllDraws(draws, actions)[raw]
    ensures forall j | 0 <= j < |actions| && DrawsRaw(actions[j], raw) :: j == i
    decreases |actions|
  {
    if actions == [] {
      assert false;
    } else {
      var next, more := Next(s, actions[0]), Recorded(draws, actions[0]);
      if DrawsRaw(actions[0], raw) {
        DrawnOnce(next, actions[1..], more, raw);
        i := 0;
      } else {
        i := DrawOf(next, actions[1..], more, raw);
        i := i + 1;
      }
      forall j | 0 <= j < |actions| && DrawsRaw(actions[j], raw) ensures j == i {
        assert j > 0 ==> actions[j] == actions[1..][j - 1];
      }
    }
  }

  /**
   Over every run: a token's 32 bytes were drawn by exactly one action, not after its
   row was created, and the token expires exactly 3600 seconds after that draw.
   */
  lemma TokenLivesAnHour(actions: seq<Action>, t: TokenId) returns (i: nat)
    requires Runs(Init(), actions) && t < |After(Init(), actions).tokens|
    ensures var token := After(Init(), actions).tokens[t];
            && i < |actions| && DrawsRaw(actions[i], token.hash.preimage)
            && (forall j | 0 <= j < |actions| && DrawsRaw(actions[j], token.hash.preimage) :: j == i)
            && |token.hash.preimage| == 32 && actions[i].drawnAt <= token.createdAt
            && token.expiresAt == actions[i].drawnAt + 3_600_000_000
  {
    InitInv();
    InvHolds(Init(), actions);
    assert TokenOk(After(Init(), actions), After(Init(), actions).tokens[t]);
    DrawsHold(Init(), actions, map[]);
    i := DrawOf(Init(), actions, map[], After(Init(), actions).tokens[t].hash.preimage);
  }

  /** The token whose expiry test the action passes, while it is alive. */
  function TestedBy(s: State, a: Action): set<TokenId> {
    if a.CheckExpiry? && a.c in s.calls && s.calls[a.c].Looked? && s.calls[a.c].token < |s.tokens|
       && s.now <= s.tokens[s.calls[a.c].token].expiresAt
    then {s.calls[a.c].token} else {}
  }

  ghost function Tested(s: State, actions: seq<Action>): set<TokenId>
    requires Runs(s, actions)
    decreases |actions|
  {
    if actions == [] then {} else TestedBy(s, actions[0]) + Tested(Next(s, actions[0]), actions[1..])
  }

  /** A token that a call goes on with, or that is consumed, has passed its test. */
  ghost predicate OnlyTested(s: State, tested: set<TokenId>) {
    && (forall c | c in s.calls && (s.calls[c].Timely? || s.calls[c].Consumed? || s.calls[c].Marked?) ::
          s.calls[c].token in tested)
    && (forall t | 0 <= t < |s.tokens| && s.tokens[t].consumed :: t in tested)
  }

  lemma OnlyTestedKept(s: State, a: Action, tested: set<TokenId>)
    requires OnlyTested(s, tested) && Enabled(s, a)
    ensures OnlyTested(Next(s, a), tested + TestedBy(s, a))
  {
  }

  lemma {:induction false} OnlyTestedHolds(s: State, actions: seq<Action>, tested: set<TokenId>)
    requires OnlyTested(s, tested) && Runs(s, actions)
    ensures OnlyTested(After(s, actions), tested + Tested(s, actions))
    decreases |actions|
  {
    if actions == [] {
      assert tested + {} == tested;
    } else {
      OnlyTestedKept(s, actions[0], tested);
      var more := tested + TestedBy(s, actions[0]);
      OnlyTestedHolds(Next(s, actions[0]), actions[1..], more);
      assert more + Tested(Next(s, actions[0]), actions[1..]) == tested + Tested(s, actions);
    }
  }

  /** The moment of a test: the actions before it, and the call that made it. */
  lemma {:induction false} TestOf(s: State, actions: seq<Action>, t: TokenId) returns (early: seq<Action>, c: CallId)
    requires Runs(s, actions) && t in Tested(s, actions)
    ensures |early| < |actions| && early == actions[..|early|] && actions[|early|] == CheckExpiry(c) && Runs(s, early)
    ensures var u := After(s, early);
            c in u.calls && u.calls[c] == Looked(t) && t < |u.tokens| && u.now <= u.tokens[t].expiresAt
    decreases |actions|
  {
    if actions == [] {
      assert false;
    } else if t in TestedBy(s, actions[0]) {
      early, c := [], actions[0].c;
    } else {
      early, c := TestOf(Next(s, actions[0]), actions[1..], t);
      assert ([actions[0]] + early)[1..] == early;
      early := [actions[0]] + early;
    }
  }

  /**
   Over every run: a token that was consumed was looked up and found alive by an
   expiry test, at a moment when it had not expired.
   */
  lemma ConsumedInTime(actions: seq<Action>, t: TokenId) returns (early: seq<Action>, c: CallId)
    requires Runs(Init(), actions) && t < |After(Init(), actions).tokens| && After(Init(), actions).tokens[t].consumed
    ensures |early| < |actions| && early == actions[..|early|] && actions[|early|] == CheckExpiry(c)
    ensures Runs(Init(), early)
    ensures var u := After(Init(), early);
            c in u.calls && u.calls[c] == Looked(t) && t < |u.tokens| && u.now <= u.tokens[t].expiresAt
  {
    OnlyTestedHolds(Init(), actions, {});
    early, c := TestOf(Init(), actions, t);
  }

  // ----- row locks -----

  lemma UserStays(s: State, a: Action, d: CallId)
    requires Inv(s) && Enabled(s, a) && d in s.calls && s.calls[d].Marked?
    requires a != Commit(d)
    ensures var u := s.tokens[s.calls[d].token].user;
            u < |s.users| && u < |Next(s, a).users| && Next(s, a).users[u] == s.users[u]
  {
    var t := s.calls[d].token;
    assert CallOk(s, s.calls[d]);
    assert HoldsUser(s, s.calls[d], s.tokens[t].user);
    if a.Commit? && s.calls[a.c].Marked? {
      assert CallOk(s, s.calls[a.c]);
      assert HoldsUser(s, s.calls[a.c], s.tokens[s.calls[a.c].token].user);
    }
  }

  /**
   What PostgreSQL's row locks are for: while a call holds a token's row, and once it
   has marked it the row of the user as well, nobody else changes either.
   */
  lemma LockedRowsStay(s: State, a: Action, d: CallId)
    requires Inv(s) && Enabled(s, a) && d in s.calls && (s.calls[d].Consumed? || s.calls[d].Marked?) && a != Commit(d)
    ensures var t := s.calls[d].token;
            && t < |s.tokens| && t < |Next(s, a).tokens| && Next(s, a).tokens[t] == s.tokens[t]
            && (s.calls[d].Marked? ==>
                  var u := s.tokens[t].user;
                  u < |s.users| && u < |Next(s, a).users| && Next(s, a).users[u] == s.users[u])
  {
    var t := s.calls[d].token;
    assert CallOk(s, s.calls[d]) && HoldsToken(s.calls[d], t);
    if a.Commit? && s.calls[a.c].Marked? {
      assert CallOk(s, s.calls[a.c]) && HoldsToken(s.calls[a.c], s.calls[a.c].token);
    }
    if s.calls[d].Marked? {
      UserStays(s, a, d);
    }
  }

  // ----- verification -----

  /**
   Over every run: a user's email is verified exactly when the account is active,
   and exactly when one of the user's tokens is consumed; a token is consumed by
   exactly one committed call; and every login comes after a committed
   verification of the same user.
   */
  lemma VerificationMachine(actions: seq<Action>)
    requires Runs(Init(), actions)
    ensures var s := After(Init(), actions);
            && (forall user | 0 <= user < |s.users| ::
                  && (s.users[user].emailVerified <==> s.users[user].status == Active)
                  && (s.users[user].status == Active <==> HasConsumed(s.tokens, user)))
            && (forall t | 0 <= t < |s.tokens| :: s.tokens[t].consumed <==> exists i :: VerifiedAt(s.history, i, t))
            && (forall i, j, t | VerifiedAt(s.history, i, t) && VerifiedAt(s.history, j, t) :: i == j)
            && (forall i | 0 <= i < |s.history| && s.history[i].LoggedIn? ::
                  VerifiedBefore(s.history, i, s.history[i].user))
  {
    InitInv();
    InvHolds(Init(), actions);
    var s := After(Init(), actions);
    forall user | 0 <= user < |s.users|
      ensures && (s.users[user].emailVerified <==> s.users[user].status == Active)
              && (s.users[user].status == Active <==> HasConsumed(s.tokens, user))
    {
      assert StatusOk(s, user);
    }
    forall t | 0 <= t < |s.tokens| ensures s.tokens[t].consumed <==> exists i :: VerifiedAt(s.history, i, t) {
      if i: nat :| VerifiedAt(s.history, i, t) {
        assert s.history[i].Verified?;
      }
    }
  }

  // ----- events -----

  predicate MailFor(event: Event, token: Token) {
    event.user == token.user && event.payload == VerificationMail(Encode(token.hash.preimage))
  }

  lemma {:induction false} EventsCounted(outbox: seq<Event>)
    ensures |outbox| == |Codes(outbox)| + |Notices(outbox)|
  {
    if outbox == [] {
    } else {
      EventsCounted(outbox[..|outbox| - 1]);
    }
  }

  /**
   The `t`-th verification event stands at some place of the outbox, and a
   verification event at place `e` is some `t`-th.
   */
  lemma {:induction false} EventOfCode(outbox: seq<Event>, t: nat) returns (e: nat)
    requires t < |Codes(outbox)|
    ensures e < |outbox| && outbox[e].payload.VerificationMail? &&
            Codes(outbox)[t] == (outbox[e].user, outbox[e].payload.code)
  {
    var front := outbox[..|outbox| - 1];
    if t < |Codes(front)| {
      e := EventOfCode(front, t);
    } else {
      e := |outbox| - 1;
    }
  }

  lemma {:induction false} CodeOfEvent(outbox: seq<Event>, e: nat) returns (t: nat)
    requires e < |outbox| && outbox[e].payload.VerificationMail?
    ensures t < |Codes(outbox)| && Codes(outbox)[t] == (outbox[e].user, outbox[e].payload.code)
    ensures t == |Codes(outbox[..e])|
  {
    var front := outbox[..|outbox| - 1];
    if e < |front| {
      t := CodeOfEvent(front, e);
      assert front[..e] == outbox[..e];
    } else {
      t := |Codes(front)|;
    }
  }

  lemma {:induction false} CodesGrow(outbox: seq<Event>, d: nat, e: nat)
    requires d < e <= |outbox| && outbox[d].payload.VerificationMail?
    ensures |Codes(outbox[..d])| < |Codes(outbox[..e])|
  {
    var front := outbox[..e];
    assert front[..e - 1] == outbox[..e - 1];
    if d == e - 1 {
    } else {
      CodesGrow(outbox, d, e - 1);
    }
  }

  /**
   Conservation over every run: the events are as many as the tokens and the
   committed password changes together; every token has exactly one event, for
   the same user and with the code its row holds the hash of; every verification
   event has a token; and the password events are the password changes, in order.
   */
  lemma EventConservation(actions: seq<Action>)
    requires Runs(Init(), actions)
    ensures var s := After(Init(), actions);
            && |s.outbox| == |s.tokens| + |Changes(s.history)|
            && Notices(s.outbox) == Changes(s.history)
            && (forall t | 0 <= t < |s.tokens| :: exists e | 0 <= e < |s.outbox| :: MailFor(s.outbox[e], s.tokens[t]))
            && (forall t, d, e | 0 <= t < |s.tokens| && 0 <= d < e < |s.outbox| ::
                  !(MailFor(s.outbox[d], s.tokens[t]) && MailFor(s.outbox[e], s.tokens[t])))
            && (forall e | 0 <= e < |s.outbox| && s.outbox[e].payload.VerificationMail? ::
                  exists t | 0 <= t < |s.tokens| :: MailFor(s.outbox[e], s.tokens[t]))
  {
    InitInv();
    InvHolds(Init(), actions);
    var s := After(Init(), actions);
    EventsCounted(s.outbox);
    forall t | 0 <= t < |s.tokens| ensures exists e | 0 <= e < |s.outbox| :: MailFor(s.outbox[e], s.tokens[t]) {
      var e := EventOfCode(s.outbox, t);
      assert MailFor(s.outbox[e], s.tokens[t]);
    }
    forall t, d, e | 0 <= t < |s.tokens| && 0 <= d < e < |s.outbox|
      ensures !(MailFor(s.outbox[d], s.tokens[t]) && MailFor(s.outbox[e], s.tokens[t]))
    {
      if MailFor(s.outbox[d], s.tokens[t]) && MailFor(s.outbox[e], s.tokens[t]) {
        TokenOfEvent(s, t, d);
        TokenOfEvent(s, t, e);
        CodesGrow(s.outbox, d, e);
      }
    }
    forall e | 0 <= e < |s.outbox| && s.outbox[e].payload.VerificationMail?
      ensures exists t | 0 <= t < |s.tokens| :: MailFor(s.outbox[e], s.tokens[t])
    {
      var t := CodeOfEvent(s.outbox, e);
      assert MailFor(s.outbox[e], s.tokens[t]);
    }
  }

  /** A token's event is the one at the token's place among the verification events. */
  lemma TokenOfEvent(s: State, t: TokenId, e: nat)
    requires RawsDiffer(s) && OutboxOk(s) && t < |s.tokens| && e < |s.outbox| && MailFor(s.outbox[e], s.tokens[t])
    ensures t == |Codes(s.outbox[..e])|
  {
    var u := CodeOfEvent(s.outbox, e);
    DecodeEncode(s.tokens[t].hash.preimage);
    DecodeEncode(s.tokens[u].hash.preimage);
    assert s.tokens[t].hash == s.tokens[u].hash;
  }

  // ----- usable codes -----

  /** `get_token_by_hash`: an unconsumed row with the hash. */
  function FindToken(tokens: seq<Token>, hash: Digest): (found: Option<TokenId>)
    ensures found.Some? ==> found.value < |tokens| && tokens[found.value].hash == hash && !tokens[found.value].consumed
    ensures found.None? ==> forall i | 0 <= i < |tokens| :: tokens[i].hash == hash ==> tokens[i].consumed
  {
    if tokens == [] then None
    else
      var last := |tokens| - 1;
      if tokens[last].hash == hash && !tokens[last].consumed then Some(last) else FindToken(tokens[..last], hash)
  }

  /** The row the decoded code leads to. */
  function FindByCode(s: State, code: string): (found: Option<TokenId>)
    ensures found.Some? ==> found.value < |s.tokens| && !s.tokens[found.value].consumed
  {
    var raw := Decode(code);
    if raw.None? then None else FindToken(s.tokens, Sha256(raw.value))
  }

  /** A row that `verify_email` could redeem at this moment: the code leads to it, and it is not expired. */
  function RedeemableToken(s: State, code: string): (found: Option<TokenId>)
    ensures found.Some? ==>
              && found.value < |s.tokens| && !s.tokens[found.value].consumed
              && s.now <= s.tokens[found.value].expiresAt
  {
    var found := FindByCode(s, code);
    if found.None? || s.tokens[found.value].expiresAt < s.now then None else found
  }

  /** All steps of `verify_email` that end in its commit. */
  function Redeem(c: CallId, token: TokenId): seq<Action> {
    [LookUpToken(c, token), CheckExpiry(c), Consume(c), MarkVerified(c), Commit(c)]
  }

  ghost predicate NoLocks(s: State) {
    forall c, t | c in s.calls :: !HoldsToken(s.calls[c], t)
  }

  /** The state with the token consumed by call `c` and its user verified. */
  function Redeemed(s: State, c: CallId, token: TokenId): State
    requires token < |s.tokens| && s.tokens[token].user < |s.users|
  {
    var user := s.tokens[token].user;
    s.(tokens := s.tokens[token := s.tokens[token].(consumed := true)],
       users := s.users[user := s.users[user].(emailVerified := true, status := Active)],
       history := s.history + [Verified(c, token, user)])
  }

  lemma RunsTwo(s: State, a: Action, b: Action, rest: seq<Action>)
    requires Enabled(s, a) && Enabled(Next(s, a), b)
    ensures Runs(s, [a] + ([b] + rest)) <==> Runs(Next(Next(s, a), b), rest)
    ensures Runs(s, [a] + ([b] + rest)) ==> After(s, [a] + ([b] + rest)) == After(Next(Next(s, a), b), rest)
  {
    assert ([a] + ([b] + rest))[1..] == [b] + rest && ([b] + rest)[1..] == rest;
  }

  lemma RunsOne(s: State, a: Action, rest: seq<Action>)
    requires Enabled(s, a)
    ensures Runs(s, [a] + rest) <==> Runs(Next(s, a), rest)
    ensures Runs(s, [a] + rest) ==> After(s, [a] + rest) == After(Next(s, a), rest)
  {
    assert ([a] + rest)[1..] == rest;
  }

  lemma FinishRedeeming(s: State, c: CallId, token: TokenId)
    requires NoLocks(s) && c !in s.calls && token < |s.tokens| && s.tokens[token].user < |s.users|
    requires !s.users[s.tokens[token].user].deleted
    ensures var t := Goto(s, c, Consumed(token));
            Enabled(t, MarkVerified(c)) && Enabled(Next(t, MarkVerified(c)), Commit(c))
            && Next(Next(t, MarkVerified(c)), Commit(c)) == Redeemed(s, c, token)
  {
    var t := Goto(s, c, Consumed(token));
    forall d | d in t.calls ensures !HoldsUser(t, t.calls[d], s.tokens[token].user) {
      assert d != c ==> !HoldsToken(s.calls[d], if s.calls[d].Marked? then s.calls[d].token else 0);
    }
    var u := Goto(s, c, Marked(token));
    assert Next(t, MarkVerified(c)).calls == u.calls;
    assert u.calls - {c} == s.calls;
  }

  /** The first half: up to the consumed token. */
  lemma StartRedeeming(s: State, c: CallId, token: TokenId, rest: seq<Action>)
    requires NoLocks(s) && c !in s.calls && token < |s.tokens|
    requires !s.tokens[token].consumed && s.now <= s.tokens[token].expiresAt
    ensures var run := [LookUpToken(c, token)] + ([CheckExpiry(c)] + ([Consume(c)] + rest));
            && (Runs(s, run) <==> Runs(Goto(s, c, Consumed(token)), rest))
            && (Runs(s, run) ==> After(s, run) == After(Goto(s, c, Consumed(token)), rest))
  {
    var s2 := Goto(s, c, Timely(token));
    assert Next(Next(s, LookUpToken(c, token)), CheckExpiry(c)).calls == s2.calls;
    forall d | d in s2.calls ensures !HoldsToken(s2.calls[d], token) {
      assert d != c ==> !HoldsToken(s.calls[d], token);
    }
    assert Next(s2, Consume(c)).calls == Goto(s, c, Consumed(token)).calls;
    RunsOne(s2, Consume(c), rest);
    RunsTwo(s, LookUpToken(c, token), CheckExpiry(c), [Consume(c)] + rest);
  }

  lemma RedeemRuns(s: State, c: CallId, token: TokenId)
    requires NoLocks(s) && c !in s.calls && token < |s.tokens| && s.tokens[token].user < |s.users|
    requires !s.tokens[token].consumed && s.now <= s.tokens[token].expiresAt
    ensures Runs(s, Redeem(c, token)) <==> !s.users[s.tokens[token].user].deleted
    ensures Runs(s, Redeem(c, token)) ==> After(s, Redeem(c, token)) == Redeemed(s, c, token)
  {
    var rest, t := [MarkVerified(c), Commit(c)], Goto(s, c, Consumed(token));
    StartRedeeming(s, c, token, rest);
    assert Redeem(c, token) == [LookUpToken(c, token)] + ([CheckExpiry(c)] + ([Consume(c)] + rest));
    if !s.users[s.tokens[token].user].deleted {
      FinishRedeeming(s, c, token);
      RunsTwo(t, MarkVerified(c), Commit(c), []);
      assert rest == [MarkVerified(c)] + ([Commit(c)] + []);
    }
  }

  /** The code of a verification event leads to its own token, exactly while that can be redeemed. */
  lemma CodeFinds(s: State, e: nat) returns (t: TokenId)
    requires Inv(s) && e < |s.outbox| && s.outbox[e].payload.VerificationMail?
    ensures t < |s.tokens| && MailFor(s.outbox[e], s.tokens[t]) && s.tokens[t].user < |s.users|
    ensures (RedeemableToken(s, s.outbox[e].payload.code)
         == if !s.tokens[t].consumed && s.now <= s.tokens[t].expiresAt then Some(t) else None)
  {
    t := CodeOfEvent(s.outbox, e);
    DecodeEncode(s.tokens[t].hash.preimage);
    assert TokenOk(s, s.tokens[t]);
  }

  /**
   The code in an event finds its own token and no other: it is redeemable exactly
   while that token is not consumed, up to 3600 seconds after action `i` drew its
   bytes. When no other call holds a lock, redeeming it succeeds, and verifies the
   event's user, exactly if that user is not deleted.
   */
  lemma CodeUsable(actions: seq<Action>, e: nat, c: CallId) returns (t: TokenId, i: nat)
    requires Runs(Init(), actions)
    requires var s := After(Init(), actions);
             e < |s.outbox| && s.outbox[e].payload.VerificationMail? && c !in s.calls
    ensures var s := After(Init(), actions);
            var code := s.outbox[e].payload.code;
            && t < |s.tokens| && s.tokens[t].user == s.outbox[e].user < |s.users|
            && code == Encode(s.tokens[t].hash.preimage)
            && i < |actions| && DrawsRaw(actions[i], s.tokens[t].hash.preimage)
            && (RedeemableToken(s, code)
                == if !s.tokens[t].consumed && s.now <= actions[i].drawnAt + 3_600_000_000 then Some(t) else None)
            && (NoLocks(s) && RedeemableToken(s, code) == Some(t) ==>
                  (Runs(s, Redeem(c, t)) <==> !s.users[s.tokens[t].user].deleted)
                  && (Runs(s, Redeem(c, t)) ==> After(s, Redeem(c, t)) == Redeemed(s, c, t)))
  {
    InitInv();
    InvHolds(Init(), actions);
    var s := After(Init(), actions);
    t := CodeFinds(s, e);
    i := TokenLivesAnHour(actions, t);
    if NoLocks(s) && RedeemableToken(s, s.outbox[e].payload.code) == Some(t) {
      RedeemRuns(s, c, t);
    }
  }

  // ----- password changes -----

  /**
   A password event goes out with every commit of `update_password`, but the new
   hash is stored exactly if the account is not deleted by then (or held it already).
   */
  lemma PasswordStoredExactlyWhen(s: State, c: CallId, hash: string)
    requires Enabled(s, CommitPassword(c, hash))
    ensures var t, u := Next(s, CommitPassword(c, hash)), s.calls[c].user;
            && |Notices(t.outbox)| == |Notices(s.outbox)| + 1
            && (t.users[u].passwordHash == hash <==> !s.users[u].deleted || s.users[u].passwordHash == hash)
  {
    var t := Next(s, CommitPassword(c, hash));
    EventAdded(s.outbox, t.outbox[|s.outbox|]);
  }

  /** From any state an account deleted in between shows it: the event goes out, the password stays. */
  lemma MailWithoutChange(s: State, c: CallId, user: UserId, hash: string)
    requires c !in s.calls && user < |s.users| && !s.users[user].deleted && !UserLocked(s, user)
    ensures var run := [LookUpForPassword(c, user), Delete(user), CommitPassword(c, hash)];
            && Runs(s, run) && user < |After(s, run).users|
            && After(s, run).users[user].passwordHash == s.users[user].passwordHash
            && After(s, run).outbox == s.outbox + [Event(user, s.users[user].email, PasswordChangedMail)]
  {
    var s1 := Next(s, LookUpForPassword(c, user));
    assert !UserLocked(s1, user);
    var s2 := Next(s1, Delete(user));
    forall d | d in s2.calls ensures !HoldsUser(s2, s2.calls[d], user) {
      assert d != c ==> !HoldsUser(s, s.calls[d], user);
    }
    var run := [LookUpForPassword(c, user), Delete(user), CommitPassword(c, hash)];
    RunsTwo(s, run[0], run[1], [run[2]]);
    assert run == [run[0]] + ([run[1]] + [run[2]]) && [run[2]][1..] == [];
    assert After(s2, [run[2]]) == Next(s2, run[2]);
  }
}
