/**
 The account handlers as imperative code (services/identity/src/services/sign_up.rs,
 resend_verification.rs, verify_email.rs, update_password.rs, login.rs), executed
 while other requests interfere between their statements. Each statement that
 reads or writes the database is one action of the step system, so whatever the
 handlers do is a run of it.
 */
module AccountsCode {
  import opened Basics
  import opened Base64Url
  import opened Libraries
  import opened Accounts
  import opened AccountsSafety

  // ----- what only ever grows -----

  /**
   Rows stay; of an account the user name, the password, the status and the deletion
   may change, of a token its consumption.
   */
  ghost predicate Grows(s: State, t: State) {
    && s.now <= t.now && s.outbox <= t.outbox && s.history <= t.history
    && |s.users| <= |t.users| && |s.tokens| <= |t.tokens| && s.drawn <= t.drawn
    && (forall u | 0 <= u < |s.users| ::
          && t.users[u].email == s.users[u].email
          && (s.users[u].deleted ==> t.users[u].deleted)
          && (s.users[u].status == Active ==> t.users[u].status == Active))
    && (forall i | 0 <= i < |s.tokens| :: t.tokens[i] == s.tokens[i] || t.tokens[i] == s.tokens[i].(consumed := true))
  }

  lemma StepGrows(s: State, a: Action)
    requires Enabled(s, a)
    ensures Grows(s, Next(s, a))
  {
  }

  lemma GrowsOn(s: State, t: State, u: State)
    requires Grows(s, t) && Grows(t, u)
    ensures Grows(s, u)
  {
  }

  lemma {:induction false} RunGrows(s: State, actions: seq<Action>)
    requires Runs(s, actions)
    ensures Grows(s, After(s, actions))
    decreases |actions|
  {
    if actions == [] {
    } else {
      StepGrows(s, actions[0]);
      RunGrows(Next(s, actions[0]), actions[1..]);
      GrowsOn(s, Next(s, actions[0]), After(s, actions));
    }
  }

  lemma {:induction false} RunSplits(s: State, before: seq<Action>, actions: seq<Action>)
    requires before <= actions && Runs(s, actions)
    ensures Runs(s, before) && Runs(After(s, before), actions[|before|..])
    ensures After(s, actions) == After(After(s, before), actions[|before|..])
    decreases |before|
  {
    if before == [] {
      assert actions[0..] == actions;
    } else {
      RunSplits(Next(s, actions[0]), before[1..], actions[1..]);
      assert actions[1..][|before| - 1..] == actions[|before|..];
    }
  }

  // ----- the moves of one call -----

  predicate By(a: Action, me: CallId) {
    !a.Tick? && !a.Rename? && !a.Delete? && a.c == me
  }

  /** The call's own moves in a run. */
  function Own(trace: seq<Action>, me: CallId): seq<Action> {
    if trace == [] then []
    else
      var last := trace[|trace| - 1];
      Own(trace[..|trace| - 1], me) + if By(last, me) then [last] else []
  }

  /** Between two moments of a run the call made exactly these moves. */
  ghost predicate Moved(before: seq<Action>, after: seq<Action>, me: CallId, moves: seq<Action>) {
    before <= after && Own(after, me) == Own(before, me) + moves
  }

  lemma MovedThen(first: seq<Action>, second: seq<Action>, third: seq<Action>, me: CallId,
                  x: Action, later: seq<Action>)
    requires Moved(first, second, me, [x]) && Moved(second, third, me, later)
    ensures Moved(first, third, me, [x] + later)
  {
  }

  // ----- input checks -----

  /** The length of a Rust string: its bytes in UTF-8. */
  function ByteLength(s: string): nat {
    if s == "" then 0
    else
      var c := s[0] as int;
      (if c < 0x80 then 1 else if c < 0x800 then 2 else if c < 0x1_0000 then 3 else 4) + ByteLength(s[1..])
  }

  predicate ValidUsername(username: string) {
    && 1 <= ByteLength(username) <= 64
    && forall c | c in username :: 'a' <= c <= 'z' || 'A' <= c <= 'Z' || '0' <= c <= '9' || c == '_' || c == '-'
  }

  predicate ValidEmail(email: string) {
    3 <= ByteLength(email) <= 254 && '@' in email
  }

  predicate ValidPassword(password: string) {
    8 <= ByteLength(password) <= 128
  }

  /** The bytes of a character in UTF-8 (section 3 of RFC 3629). */
  function Utf8Of(c: char): seq<int> {
    var n := c as int;
    if n <= 0x7F then [n]
    else if n <= 0x7FF then [0xC0 + n / 64, 0x80 + n % 64]
    else if n <= 0xFFFF then [0xE0 + n / 4096, 0x80 + n / 64 % 64, 0x80 + n % 64]
    else [0xF0 + n / 0x4_0000, 0x80 + n / 4096 % 64, 0x80 + n / 64 % 64, 0x80 + n % 64]
  }

  function Utf8(s: string): seq<int> {
    if s == "" then [] else Utf8Of(s[0]) + Utf8(s[1..])
  }

  lemma {:induction false} ByteLengthExactly(s: string)
    ensures ByteLength(s) == |Utf8(s)|
  {
    if s == "" {
    } else {
      ByteLengthExactly(s[1..]);
    }
  }

  lemma {:induction false} AsciiLength(s: string)
    requires forall c | c in s :: c as int < 128
    ensures ByteLength(s) == |s|
  {
    if s == "" {
    } else {
      assert s[0] in s && forall c | c in s[1..] :: c in s;
      AsciiLength(s[1..]);
    }
  }

  /** One to 64 of these characters. */
  predicate ProperName(username: string) {
    && 1 <= |username| <= 64
    && forall c | c in username :: c in UPPER || c in LOWER || c in "0123456789_-"
  }

  lemma NameCharExactly(c: char)
    ensures 'a' <= c <= 'z' || 'A' <= c <= 'Z' || '0' <= c <= '9' || c == '_' || c == '-'
            <==> c in UPPER || c in LOWER || c in "0123456789_-"
  {
    UpperExactly(c);
    LowerExactly(c);
    NumeralExactly(c);
  }

  lemma NumeralExactly(c: char)
    ensures '0' <= c <= '9' || c == '_' || c == '-' <==> c in "0123456789_-"
  {
    assert '0' <= c <= '9' ==> "0123456789_-"[(c - '0') as int] == c;
  }

  lemma ValidUsernameExactly(username: string)
    ensures ValidUsername(username) <==> ProperName(username)
  {
    forall c | c in username
      ensures 'a' <= c <= 'z' || 'A' <= c <= 'Z' || '0' <= c <= '9' || c == '_' || c == '-'
              <==> c in UPPER || c in LOWER || c in "0123456789_-"
    {
      NameCharExactly(c);
    }
    if ProperName(username) || ValidUsername(username) {
      AsciiLength(username);
    }
  }

  /** What is wrong with the input of `sign_up`: the first complaint there is. */
  function Complaint(username: string, email: string, password: Option<string>): Option<SignUpError> {
    if !ProperName(username) then Some(InvalidUsername)
    else if |Utf8(email)| < 3 || |Utf8(email)| > 254 || '@' !in email then Some(InvalidEmail)
    else if password.None? then Some(PasswordRequired)
    else if |Utf8(password.value)| < 8 then Some(PasswordTooShort)
    else if |Utf8(password.value)| > 128 then Some(PasswordTooLong)
    else None
  }

  /** `get_user_by_email`: the account of the address, deleted ones left out. */
  function FindByEmail(users: seq<User>, email: string): (found: Option<UserId>)
    ensures found.Some? ==>
              && found.value < |users| && !users[found.value].deleted
              && Lower(users[found.value].email) == Lower(email)
    ensures found.None? <==> !EmailInUse(users, email)
  {
    if users == [] then None
    else
      var last := |users| - 1;
      if !users[last].deleted && Lower(users[last].email) == Lower(email) then Some(last)
      else FindByEmail(users[..last], email)
  }

  /** The address leads to no other account, so the query never meets two rows. */
  lemma EmailIsUnique(users: seq<User>, email: string, u: UserId)
    requires NamesOk(users) && u < |users| && !users[u].deleted && Lower(users[u].email) == Lower(email)
    ensures FindByEmail(users, email) == Some(u)
  {
    var found := FindByEmail(users, email).value;
    assert !users[found].deleted && Lower(users[found].email) == Lower(users[u].email);
  }

  // ----- handlers -----

  /** `Failed` stands for every pool, database, hashing and random generator error. */
  datatype SignUpError =
    | InvalidUsername | InvalidEmail | PasswordRequired | PasswordTooShort | PasswordTooLong
    | UsernameTaken | EmailTaken | Failed

  datatype ResendError = RateLimited | Failed

  datatype VerifyEmailError = InvalidToken | AlreadyConsumed | UserNotFound | Failed

  datatype UpdatePasswordError = InvalidNewPassword | NotFound | InvalidCurrentPassword | Failed

  datatype LoginError = InvalidCredentials | AccountNotActive | NoSigningKey | Failed

  /**
   The newest token is the user's, was drawn at or after `since` and lives 3600 seconds
   from its draw, and the newest event carries its code to the user's address.
   */
  ghost predicate NewestFor(s: State, user: UserId, since: Time) {
    && user < |s.users| && s.tokens != [] && s.outbox != []
    && var token := s.tokens[|s.tokens| - 1];
    && token.user == user && !token.consumed
    && since + 3_600_000_000 <= token.expiresAt <= token.createdAt + 3_600_000_000 && token.createdAt <= s.now
    && s.outbox[|s.outbox| - 1] == Event(user, s.users[user].email, VerificationMail(Encode(token.hash.preimage)))
  }

  /** The newest account is this one, with its token and event. */
  ghost predicate Registered(s: State, account: User, since: Time) {
    s.users != [] && s.users[|s.users| - 1] == account && NewestFor(s, |s.users| - 1, since)
  }

  /** The call has just consumed the token, and the token's user is active. */
  ghost predicate JustVerified(s: State, t: TokenId, me: CallId) {
    && t < |s.tokens| && s.tokens[t].consumed && s.tokens[t].user < |s.users|
    && (var u := s.users[s.tokens[t].user]; u.emailVerified && u.status == Active && !u.deleted)
    && s.history != [] && s.history[|s.history| - 1] == Verified(me, t, s.tokens[t].user)
  }

  /** A call has consumed the token and not ended yet. */
  ghost predicate TokenHeld(s: State, t: TokenId) {
    exists c | c in s.calls :: s.calls[c] == Consumed(t) || s.calls[c] == Marked(t)
  }

  /** A call has marked the user and not ended yet. */
  ghost predicate UserHeld(s: State, user: UserId) {
    exists c | c in s.calls ::
      s.calls[c].Marked? && s.calls[c].token < |s.tokens| && s.tokens[s.calls[c].token].user == user
  }

  /** Another call holds the token's row, or that of its user. */
  ghost predicate RowLocked(s: State, t: TokenId) {
    TokenHeld(s, t) || (t < |s.tokens| && UserHeld(s, s.tokens[t].user))
  }

  /** A row that a call waits for is held by another call, and still is when it gives up. */
  lemma LocksOfOthers(s: State, me: CallId, t: TokenId, user: UserId)
    requires me in s.calls && !HoldsUser(s, s.calls[me], user)
    ensures TokenLocked(s, t) && !HoldsToken(s.calls[me], t) ==> TokenHeld(Next(s, Abandon(me)), t)
    ensures UserLocked(s, user) ==> UserHeld(Next(s, Abandon(me)), user)
  {
    var n := Next(s, Abandon(me));
    if d :| d in s.calls && HoldsToken(s.calls[d], t) {
      assert s.calls[d] == Consumed(t) || s.calls[d] == Marked(t);
      assert d != me ==> d in n.calls && n.calls[d] == s.calls[d];
    }
    if d :| d in s.calls && HoldsUser(s, s.calls[d], user) {
      assert d in n.calls && n.calls[d] == s.calls[d];
    }
  }

  /** Why a code is refused: it led to no row at `s`, or its row has expired at `t`. */
  ghost predicate Refusable(s: State, t: State, code: string) {
    var found := FindByCode(s, code);
    found.Some? ==> found.value < |t.tokens| && t.tokens[found.value].expiresAt < t.now
  }

  /** A token consumed later but not yet at `s` owes it to a later verification. */
  lemma NewlyVerified(s: State, u: State, t: TokenId)
    requires HistoryOk(s) && HistoryOk(u) && s.history <= u.history
    requires t < |s.tokens| && !s.tokens[t].consumed && t < |u.tokens| && u.tokens[t].consumed
    ensures exists i | |s.history| <= i :: VerifiedAt(u.history, i, t)
  {
    forall i: nat | VerifiedAt(u.history, i, t) ensures i < |s.history| ==> VerifiedAt(s.history, i, t) {
    }
  }

  /** The call has verified nothing since `h`. */
  ghost predicate NoneBy(me: CallId, h: seq<Fact>, h': seq<Fact>) {
    h <= h' && forall i | |h| <= i < |h'| && h'[i].Verified? :: h'[i].call != me
  }

  /**
   `st` is the database, with the places of all requests under way. `calm` says that
   nothing around the handlers fails: no pool, query, hash, generator or reply.
   */
  class Database {
    const calm: bool
    var st: State
    ghost var trace: seq<Action>

    ghost predicate Valid()
      reads this
    {
      Runs(Init(), trace) && After(Init(), trace) == st
    }

    constructor (calm: bool)
      ensures Valid() && st == Init() && this.calm == calm
    {
      this.calm := calm;
      st := Init();
      trace := [];
    }

    lemma Safe()
      requires Valid()
      ensures Inv(st)
    {
      InitInv();
      InvHolds(Init(), trace);
    }

    /** What has happened since an earlier moment only adds to the tables. */
    lemma Since(before: seq<Action>, s: State)
      requires Valid() && before <= trace && Runs(Init(), before) && After(Init(), before) == s
      ensures Grows(s, st)
    {
      RunSplits(Init(), before, trace);
      RunGrows(s, trace[|before|..]);
    }

    /** Time has passed, and the token is still there with its expiry. */
    lemma TokenSince(before: seq<Action>, s: State, t: TokenId)
      requires Valid() && before <= trace && Runs(Init(), before) && After(Init(), before) == s && t < |s.tokens|
      ensures s.now <= st.now && t < |st.tokens| && st.tokens[t].expiresAt == s.tokens[t].expiresAt
    {
      Since(before, s);
    }

    lemma CallFits(me: CallId)
      requires Valid() && me in st.calls
      ensures CallOk(st, st.calls[me])
    {
      Safe();
    }

    lemma HeldTokenFits(me: CallId)
      requires Valid() && me in st.calls && st.calls[me].Consumed?
      ensures var t := st.calls[me].token;
              t < |st.tokens| && st.tokens[t].user < |st.users| && !st.tokens[t].consumed
    {
      Safe();
      assert CallOk(st, st.calls[me]) && TokenOk(st, st.tokens[st.calls[me].token]);
    }

    lemma HistoryFits()
      requires Valid()
      ensures HistoryOk(st)
    {
      Safe();
    }

    method Do(a: Action)
      requires Valid() && Enabled(st, a)
      modifies this
      ensures Valid() && st == Next(old(st), a) && trace == old(trace) + [a]
      ensures forall c :: Own(trace, c) == Own(old(trace), c) + if By(a, c) then [a] else []
    {
      RunsAppend(Init(), trace, a);
      st := Next(st, a);
      trace := trace + [a];
      assert trace[..|trace| - 1] == old(trace);
    }

    /**
     Any number of actions of other requests, of the clock and of whoever deletes
     accounts. The body stands for the one interleaving in which nobody moves;
     callers know only the contract.
     */
    method Others(me: CallId)
      requires Valid()
      modifies this
      ensures Valid() && Moved(old(trace), trace, me, [])
      ensures me in old(st).calls <==> me in st.calls
      ensures me in st.calls ==> st.calls[me] == old(st).calls[me]
      ensures NoneBy(me, old(st).history, st.history)
    {
    }

    /** `generate_verification_token`: random bytes, their text and their hash. */
    method GenerateVerificationToken(random: Bytes) returns (r: Option<(string, Digest)>)
      requires |random| == 32
      ensures r.Some? ==> r.value.1 == Sha256(random) && Decode(r.value.0) == Some(random) && random !in st.drawn
      ensures r.None? ==> !calm || random in st.drawn
    {
      var fails: bool := *;
      if (fails && !calm) || random in st.drawn {
        return None;
      }
      var raw := new Byte[TOKEN_LEN];
      forall i | 0 <= i < TOKEN_LEN {
        raw[i] := random[i];
      }
      assert raw[..] == random;
      DecodeEncode(raw[..]);
      return Some((Encode(raw[..]), Sha256(raw[..])));
    }

    /** A database error or a crash ends the call at any of its statements, and rolls it back. */
    method MayFail(me: CallId) returns (failed: bool)
      requires Valid() && me in st.calls
      modifies this
      ensures Valid() && Moved(old(trace), trace, me, if failed then [Abandon(me)] else [])
      ensures (failed <==> me !in st.calls) && (failed ==> !calm)
      ensures st.history == old(st).history
      ensures !failed ==> st == old(st) && trace == old(trace)
    {
      failed := *;
      failed := failed && !calm;
      if failed {
        Do(Abandon(me));
      }
    }

    // ----- sign_up -----

    method OpenSignUp(me: CallId, account: User, random: Bytes) returns (ok: bool)
      requires Valid() && me !in st.calls && |random| == 32 &&
               account == NewAccount(account.username, account.email, account.passwordHash)
      modifies this
      ensures Valid() && old(trace) <= trace && (ok <==> me in st.calls)
      ensures ok ==> st.calls[me].SigningUp? && st.calls[me].account == account
                     && st.calls[me].raw == random
                     && old(st).now == st.calls[me].drawnAt <= st.calls[me].startedAt == st.now
      ensures ok ==> var move := Action.SignUp(me, account, st.calls[me].raw, st.calls[me].drawnAt);
                     Moved(old(trace), trace, me, [move])
      ensures !ok ==> Moved(old(trace), trace, me, []) && (!calm || random in st.drawn)
    {
      var drawnAt := st.now;
      ghost var before := trace;
      Others(me);
      Since(before, old(st));
      var token := GenerateVerificationToken(random);
      if token.None? {
        return false;
      }
      Do(Action.SignUp(me, account, token.value.1.preimage, drawnAt));
      return true;
    }

    /** The inserts and the commit: the unique indexes decide. */
    method InsertAccount(me: CallId) returns (r: Result<(), SignUpError>, ghost move: Action)
      requires Valid() && me in st.calls && st.calls[me].SigningUp? && st.calls[me].drawnAt <= st.calls[me].startedAt
      modifies this
      ensures Valid() && Moved(old(trace), trace, me, [move]) && me !in st.calls
      ensures r.Ok? ==> move == Commit(me)
      ensures r.Err? ==> move == Abandon(me) || (move == Commit(me) && r.error == SignUpError.Failed)
      ensures var account := old(st).calls[me].account;
              && (r == Err(UsernameTaken) ==> NameTaken(st.users, account.username))
              && (r == Err(EmailTaken) ==>
                !NameTaken(st.users, account.username) && AddressTaken(st.users, account.email))
              && (r.Ok? ==> Registered(st, account, old(st).calls[me].drawnAt))
      ensures r.Ok? || r.error in {UsernameTaken, EmailTaken, SignUpError.Failed}
      ensures r == Err(SignUpError.Failed) ==> !calm
    {
      Others(me);
      var failed := MayFail(me);
      if failed {
        return Err(SignUpError.Failed), Abandon(me);
      }
      var account := st.calls[me].account;
      TakenExactly(st.users, account.username, account.email);
      if UsernameInUse(st.users, account.username) || EmailInUse(st.users, account.email) {
        r := Err(if UsernameInUse(st.users, account.username) then UsernameTaken else EmailTaken);
        Do(Abandon(me));
        return r, Abandon(me);
      }
      CallFits(me);
      Do(Commit(me));
      var lost: bool := *;
      return if lost && !calm then Err(SignUpError.Failed) else Ok(()), Commit(me);
    }

    /** The checks at the start of `sign_up`. */
    method CheckInput(username: string, email: string, password: Option<string>) returns (r: Option<SignUpError>)
      ensures r == Complaint(username, email, password)
    {
      ValidUsernameExactly(username);
      if !ValidUsername(username) {
        return Some(InvalidUsername);
      }
      ByteLengthExactly(email);
      if !ValidEmail(email) {
        return Some(InvalidEmail);
      }
      if password.None? {
        return Some(PasswordRequired);
      }
      ByteLengthExactly(password.value);
      if ByteLength(password.value) < 8 {
        return Some(PasswordTooShort);
      }
      if ByteLength(password.value) > 128 {
        return Some(PasswordTooLong);
      }
      return None;
    }

    /**
     `sign_up`. With valid input the account, its token and its event are all
     committed, or a name was taken, or something failed; with invalid input
     nothing changes. A reply that reports a failure does not exclude the commit.
     */
    method SignUp(me: CallId, username: string, email: string, password: Option<string>, hashed: string, random: Bytes)
      returns (r: Result<(), SignUpError>, ghost moves: seq<Action>)
      requires Valid() && me !in st.calls && |random| == 32
      modifies this
      ensures Valid() && me !in st.calls && Moved(old(trace), trace, me, moves)
      ensures moves == [] || (|moves| == 2 && moves[0].SignUp? && moves[1] in {Commit(me), Abandon(me)})
      ensures r.Ok? ==> moves != [] && moves[1] == Commit(me)
      ensures r == Err(UsernameTaken) || r == Err(EmailTaken) ==> moves != [] && moves[1] == Abandon(me)
      ensures var e := Complaint(username, email, password);
              if e.Some? then r == Err(e.value) && st == old(st)
              else r.Ok? || r.error in {UsernameTaken, EmailTaken, SignUpError.Failed}
      ensures r == Err(SignUpError.Failed) ==> !calm || random in st.drawn
      ensures r == Err(UsernameTaken) ==> NameTaken(st.users, username)
      ensures r == Err(EmailTaken) ==> !NameTaken(st.users, username) && AddressTaken(st.users, email)
      ensures r.Ok? ==>
                && Registered(st, NewAccount(username, email, hashed), old(st).now)
                && FindByEmail(st.users, email) == Some(|st.users| - 1)
    {
      var complaint := CheckInput(username, email, password);
      if complaint.Some? {
        return Err(complaint.value), [];
      }
      ghost var before := trace;
      var begun := OpenSignUp(me, NewAccount(username, email, hashed), random);
      if !begun {
        return Err(SignUpError.Failed), [];
      }
      Since(before, old(st));
      ghost var last;
      ghost var first := Action.SignUp(me, NewAccount(username, email, hashed), st.calls[me].raw, st.calls[me].drawnAt);
      r, last := InsertAccount(me);
      moves := [first, last];
    }

    // ----- resend_verification -----

    /** `count_recent_tokens` and the decision on it, at the moment `at`; `None` stands for a failing query. */
    method CountRecentTokens(me: CallId) returns (allowed: Option<bool>, ghost at: State, ghost counting: seq<Action>)
      requires Valid() && me in st.calls && st.calls[me].Resending?
      modifies this
      ensures Valid() && old(trace) <= counting <= trace
      ensures Moved(old(trace), trace, me, [if allowed == Some(true) then Count(me) else Abandon(me)])
      ensures Runs(Init(), counting) && After(Init(), counting) == at
      ensures var user := old(st).calls[me].user;
              && (allowed.Some? ==> (allowed.value <==> RecentTokens(at.tokens, user, at.now) < MAX_TOKENS_PER_HOUR))
              && (allowed == Some(true) <==> me in st.calls)
              && (allowed == Some(true) ==> st.calls[me] == Counted(user, at.now) && st.now == at.now)
      ensures allowed.None? ==> !calm
    {
      Others(me);
      at, counting := st, trace;
      var fails: bool := *;
      if fails && !calm {
        Do(Abandon(me));
        return None, at, counting;
      }
      allowed := Some(RecentTokens(st.tokens, st.calls[me].user, st.now) < MAX_TOKENS_PER_HOUR);
      if allowed.value {
        Do(Count(me));
      } else {
        Do(Abandon(me));
      }
    }

    method OpenReissue(me: CallId, random: Bytes) returns (ok: bool, ghost move: Action)
      requires Valid() && |random| == 32
      requires me in st.calls && st.calls[me].Counted? && st.calls[me].countedAt <= st.now
      modifies this
      ensures Valid() && Moved(old(trace), trace, me, [move]) && (ok <==> me in st.calls)
      ensures if ok then move.Reissue? else move == Abandon(me)
      ensures ok ==> st.calls[me].Reissuing? && st.calls[me].user == old(st).calls[me].user
                     && old(st).now <= st.calls[me].drawnAt <= st.calls[me].startedAt
      ensures !ok ==> !calm || random in st.drawn
    {
      ghost var before := trace;
      var drawnAt := st.now;
      Others(me);
      Since(before, old(st));
      var failed := MayFail(me);
      if failed {
        return false, Abandon(me);
      }
      var token := GenerateVerificationToken(random);
      if token.None? {
        Do(Abandon(me));
        return false, Abandon(me);
      }
      Do(Reissue(me, token.value.1.preimage, drawnAt));
      return true, Reissue(me, token.value.1.preimage, drawnAt);
    }

    /** The inserts and the commit. */
    method InsertToken(me: CallId) returns (committed: bool)
      requires Valid() && me in st.calls && st.calls[me].Reissuing? && st.calls[me].drawnAt <= st.calls[me].startedAt
      modifies this
      ensures Valid() && Moved(old(trace), trace, me, [if committed then Commit(me) else Abandon(me)]) &&
              me !in st.calls
      ensures committed ==> NewestFor(st, old(st).calls[me].user, old(st).calls[me].drawnAt)
      ensures !committed ==> !calm
    {
      Others(me);
      var failed := MayFail(me);
      if failed {
        return false;
      }
      CallFits(me);
      Do(Commit(me));
      return true;
    }

    /** The token, the inserts and the commit of a call that passed the count. */
    method ReissueToken(me: CallId, random: Bytes) returns (committed: bool, ghost moves: seq<Action>)
      requires Valid() && |random| == 32
      requires me in st.calls && st.calls[me].Counted? && st.calls[me].countedAt <= st.now
      modifies this
      ensures Valid() && me !in st.calls && Moved(old(trace), trace, me, moves)
      ensures if committed then |moves| == 2 && moves[0].Reissue? && moves[1] == Commit(me) else Commit(me) !in moves
      ensures committed ==> NewestFor(st, old(st).calls[me].user, old(st).now)
      ensures !committed ==> !calm || random in st.drawn
    {
      ghost var move;
      var begun;
      begun, move := OpenReissue(me, random);
      if !begun {
        return false, [move];
      }
      committed := InsertToken(me);
      return committed, [move, if committed then Commit(me) else Abandon(me)];
    }

    /** The part of `resend_verification` after the lookup; `counting` is the run up to the count. */
    method CountAndReissue(me: CallId, random: Bytes)
      returns (r: Result<(), ResendError>, ghost issued: bool, ghost counting: seq<Action>, ghost moves: seq<Action>)
      requires Valid() && |random| == 32 && me in st.calls && st.calls[me].Resending?
      modifies this
      ensures Valid() && me !in st.calls && old(trace) <= counting <= trace && Runs(Init(), counting)
      ensures Moved(old(trace), trace, me, moves)
      ensures var at, user := After(Init(), counting), old(st).calls[me].user;
              && (r == Err(RateLimited) ==> RecentTokens(at.tokens, user, at.now) >= MAX_TOKENS_PER_HOUR)
              && (issued ==> RecentTokens(at.tokens, user, at.now) < MAX_TOKENS_PER_HOUR && NewestFor(st, user, at.now))
      ensures r == Err(RateLimited) ==> moves == [Abandon(me)]
      ensures if issued then |moves| == 3 && moves[0] == Count(me) && moves[1].Reissue? && moves[2] == Commit(me)
              else Commit(me) !in moves
      ensures r.Ok? ==> issued
      ensures r == Err(ResendError.Failed) ==> !calm || random in st.drawn
    {
      issued := false;
      ghost var at;
      var allowed;
      allowed, at, counting := CountRecentTokens(me);
      moves := [if allowed == Some(true) then Count(me) else Abandon(me)];
      if allowed != Some(true) {
        return Err(if allowed.None? then ResendError.Failed else RateLimited), issued, counting, moves;
      }
      ghost var later;
      var committed;
      committed, later := ReissueToken(me, random);
      issued := committed;
      moves := moves + later;
      var lost: bool := *;
      return if (lost && !calm) || !committed then Err(ResendError.Failed) else Ok(()), issued, counting, moves;
    }

    /**
     `resend_verification`. An address that is unknown or not pending changes
     nothing and is answered like a success; otherwise exactly one token and its
     event are committed together, unless three or more tokens were younger than
     an hour at the count.
     */
    method ResendVerification(me: CallId, email: string, random: Bytes)
      returns (r: Result<(), ResendError>, ghost issued: bool, ghost counting: seq<Action>, ghost moves: seq<Action>)
      requires Valid() && me !in st.calls && |random| == 32
      modifies this
      ensures Valid() && me !in st.calls && old(trace) <= counting <= trace && Runs(Init(), counting)
      ensures Moved(old(trace), trace, me, moves) && (issued <==> Commit(me) in moves)
      ensures var u := FindByEmail(old(st).users, email);
              u.None? || old(st).users[u.value].status != PendingVerification ==>
                !issued && r != Err(RateLimited) && st == old(st)
      ensures r.Ok? && !issued ==> st == old(st)
      ensures calm && r.Ok? && !issued ==>
                var u := FindByEmail(old(st).users, email);
                u.None? || old(st).users[u.value].status != PendingVerification
      ensures r == Err(ResendError.Failed) ==> !calm || random in st.drawn
      ensures r == Err(RateLimited) ==>
                var at := After(Init(), counting);
                var user := FindByEmail(old(st).users, email).value;
                !issued && RecentTokens(at.tokens, user, at.now) >= MAX_TOKENS_PER_HOUR
      ensures issued ==>
                var at, u := After(Init(), counting), FindByEmail(old(st).users, email).value;
                && RecentTokens(at.tokens, u, at.now) < MAX_TOKENS_PER_HOUR && NewestFor(st, u, at.now)
                && |moves| == 4 && moves[0] == LookUpPending(me, u) && moves[1] == Count(me)
                && moves[2].Reissue? && moves[3] == Commit(me)
    {
      issued, counting, moves := false, trace, [];
      var noPool, lookupFails: bool := *, *;
      if noPool && !calm {
        return Err(ResendError.Failed), issued, counting, moves;
      }
      var user := FindByEmail(st.users, email);
      if (lookupFails && !calm) || user.None? || st.users[user.value].status != PendingVerification {
        return Ok(()), issued, counting, moves;
      }
      Do(LookUpPending(me, user.value));
      ghost var later;
      ghost var looked := trace;
      r, issued, counting, later := CountAndReissue(me, random);
      moves := [LookUpPending(me, user.value)] + later;
      MovedThen(old(trace), looked, trace, me, LookUpPending(me, user.value), later);
    }

    // ----- verify_email -----

    /** `consume_token`: the update waits for whoever holds the row; `None` stands for giving up. */
    method ConsumeToken(me: CallId) returns (consumed: Option<bool>)
      requires Valid() && me in st.calls && st.calls[me].Timely?
      modifies this
      ensures Valid() && NoneBy(me, old(st).history, st.history)
      ensures Moved(old(trace), trace, me, [if consumed == Some(true) then Consume(me) else Abandon(me)])
      ensures var t := old(st).calls[me].token;
              && t < |st.tokens| && (consumed == Some(true) <==> me in st.calls)
              && (consumed == Some(true) ==> st.calls[me] == Consumed(t))
              && (consumed == Some(false) ==> st.tokens[t].consumed)
              && (consumed.None? ==> TokenHeld(st, t))
    {
      Others(me);
      CallFits(me);
      var t := st.calls[me].token;
      if TokenLocked(st, t) {
        LocksOfOthers(st, me, t, 0);
        Do(Abandon(me));
        return None;
      } else if st.tokens[t].consumed {
        Do(Abandon(me));
        return Some(false);
      }
      Do(Consume(me));
      return Some(true);
    }

    /** `mark_email_verified`. */
    method MarkEmailVerified(me: CallId) returns (marked: Option<bool>)
      requires Valid() && me in st.calls && st.calls[me].Consumed?
      modifies this
      ensures Valid() && NoneBy(me, old(st).history, st.history)
      ensures Moved(old(trace), trace, me, [if marked == Some(true) then Action.MarkVerified(me) else Abandon(me)])
      ensures var t := old(st).calls[me].token;
              && t < |st.tokens| && (marked == Some(true) <==> me in st.calls)
              && (marked == Some(true) ==> st.calls[me] == Marked(t))
              && (marked == Some(false) ==>
                    !st.tokens[t].consumed && st.tokens[t].user < |st.users| && st.users[st.tokens[t].user].deleted)
              && (marked.None? ==> UserHeld(st, st.tokens[t].user))
    {
      Others(me);
      HeldTokenFits(me);
      var t := st.calls[me].token;
      if UserLocked(st, st.tokens[t].user) {
        LocksOfOthers(st, me, t, st.tokens[t].user);
        Do(Abandon(me));
        return None;
      } else if st.users[st.tokens[t].user].deleted {
        Do(Abandon(me));
        return Some(false);
      }
      Do(Action.MarkVerified(me));
      return Some(true);
    }

    method CommitVerification(me: CallId) returns (committed: bool)
      requires Valid() && me in st.calls && st.calls[me].Marked?
      modifies this
      ensures Valid() && me !in st.calls &&
              Moved(old(trace), trace, me, [if committed then Commit(me) else Abandon(me)])
      ensures committed ==> JustVerified(st, old(st).calls[me].token, me)
      ensures !committed ==> !calm
    {
      Others(me);
      CallFits(me);
      var failed := MayFail(me);
      if !failed {
        Do(Commit(me));
      }
      committed := !failed;
    }

    /** A token that was not consumed before and is now has been redeemed in between. */
    lemma ConsumedSince(t: TokenId, before: seq<Action>, s: State)
      requires Valid() && before <= trace && Runs(Init(), before) && After(Init(), before) == s
      requires t < |s.tokens| && !s.tokens[t].consumed && t < |st.tokens| && st.tokens[t].consumed
      ensures exists i | |s.history| <= i :: VerifiedAt(st.history, i, t)
    {
      InitInv();
      InvHolds(Init(), before);
      HistoryFits();
      Since(before, s);
      NewlyVerified(s, st, t);
    }

    lemma OnlyVerifiedOnce(t: TokenId)
      requires Valid() && st.history != [] && VerifiedAt(st.history, |st.history| - 1, t)
      ensures forall i: nat | VerifiedAt(st.history, i, t) :: i == |st.history| - 1
    {
      HistoryFits();
    }

    /** The expiry test of a token that was looked up, at a later moment. */
    method TestExpiry(me: CallId) returns (timely: bool)
      requires Valid() && me in st.calls && st.calls[me].Looked? && st.calls[me].token < |st.tokens|
      modifies this
      ensures Valid() && Moved(old(trace), trace, me, [if timely then CheckExpiry(me) else Abandon(me)])
      ensures NoneBy(me, old(st).history, st.history) && (timely <==> me in st.calls)
      ensures var t := old(st).calls[me].token;
              && t < |st.tokens| && st.tokens[t].expiresAt == old(st).tokens[t].expiresAt && old(st).now <= st.now
              && (timely <==> st.now <= st.tokens[t].expiresAt)
              && (timely ==> st.calls[me] == Timely(t))
    {
      ghost var before := trace;
      Others(me);
      TokenSince(before, old(st), st.calls[me].token);
      timely := st.now <= st.tokens[st.calls[me].token].expiresAt;
      if timely {
        Do(CheckExpiry(me));
      } else {
        Do(Abandon(me));
      }
    }

    /**
     The lookup and the expiry test of `verify_email`. The clock is read after the
     query, so that others may act, and time pass, between the two.
     */
    method LookUpUnexpired(me: CallId, code: string)
      returns (r: Result<TokenId, VerifyEmailError>, ghost moves: seq<Action>)
      requires Valid() && me !in st.calls
      modifies this
      ensures Valid() && Moved(old(trace), trace, me, moves) && NoneBy(me, old(st).history, st.history)
      ensures r.Ok? ==>
                && RedeemableToken(old(st), code) == Some(r.value) && me in st.calls && st.calls[me] == Timely(r.value)
                && moves == [LookUpToken(me, r.value), CheckExpiry(me)]
      ensures r.Err? ==> me !in st.calls && Commit(me) !in moves && r.error in {InvalidToken, VerifyEmailError.Failed}
      ensures r == Err(InvalidToken) ==> Refusable(old(st), st, code)
      ensures r == Err(InvalidToken) && FindByCode(old(st), code).None? ==> st == old(st)
      ensures r == Err(VerifyEmailError.Failed) ==> !calm
    {
      moves := [];
      var unavailable: bool := *;
      if unavailable && !calm && Decode(code).Some? {
        return Err(VerifyEmailError.Failed), moves;
      }
      var found := FindByCode(st, code);
      if found.None? {
        return Err(InvalidToken), moves;
      }
      Do(LookUpToken(me, found.value));
      var timely := TestExpiry(me);
      moves := [LookUpToken(me, found.value), if timely then CheckExpiry(me) else Abandon(me)];
      return if timely then Ok(found.value) else Err(InvalidToken), moves;
    }

    /** The transaction of `verify_email` after the expiry test of token `t`. */
    method RedeemToken(me: CallId, ghost t: TokenId) returns (r: Result<(), VerifyEmailError>, ghost moves: seq<Action>)
      requires Valid() && me in st.calls && st.calls[me] == Timely(t)
      modifies this
      ensures Valid() && me !in st.calls && Moved(old(trace), trace, me, moves) && r != Err(InvalidToken)
      ensures r.Ok? ==> moves == [Consume(me), Action.MarkVerified(me), Commit(me)] && JustVerified(st, t, me)
      ensures r.Err? && r.error != VerifyEmailError.Failed ==>
                Commit(me) !in moves && NoneBy(me, old(st).history, st.history)
      ensures r == Err(AlreadyConsumed) ==> t < |st.tokens| && st.tokens[t].consumed
      ensures r == Err(UserNotFound) ==>
                && t < |st.tokens| && !st.tokens[t].consumed
                && st.tokens[t].user < |st.users| && st.users[st.tokens[t].user].deleted
      ensures r == Err(VerifyEmailError.Failed) ==> !calm || RowLocked(st, t)
    {
      var consumed := ConsumeToken(me);
      if consumed != Some(true) {
        assert consumed.None? || !consumed.value;
        moves := [Abandon(me)];
        return Err(if consumed == Some(false) then AlreadyConsumed else VerifyEmailError.Failed), moves;
      }
      var marked := MarkEmailVerified(me);
      if marked != Some(true) {
        assert marked.None? || !marked.value;
        moves := [Consume(me), Abandon(me)];
        return Err(if marked == Some(false) then UserNotFound else VerifyEmailError.Failed), moves;
      }
      var committed := CommitVerification(me);
      moves := [Consume(me), Action.MarkVerified(me), if committed then Commit(me) else Abandon(me)];
      var lost: bool := *;
      return if (lost && !calm) || !committed then Err(VerifyEmailError.Failed) else Ok(()), moves;
    }

    /**
     `verify_email`. Whatever other requests do in the meantime, success means that
     this call, and no other, consumed the token the code leads to, and that its
     user is now active; every other answer that is not a failure means that this
     call verified nothing, and says why.
     */
    method VerifyEmail(me: CallId, code: string) returns (r: Result<(), VerifyEmailError>, ghost moves: seq<Action>)
      requires Valid() && me !in st.calls
      modifies this
      ensures Valid() && me !in st.calls && Moved(old(trace), trace, me, moves)
      ensures r.Err? && r.error != VerifyEmailError.Failed ==>
                Commit(me) !in moves && NoneBy(me, old(st).history, st.history)
      ensures r == Err(InvalidToken) ==> Refusable(old(st), st, code)
      ensures r == Err(InvalidToken) && FindByCode(old(st), code).None? ==> st == old(st)
      ensures RedeemableToken(old(st), code).None? ==> r == Err(InvalidToken) || r == Err(VerifyEmailError.Failed)
      ensures r.Ok? ==>
                var t := RedeemableToken(old(st), code).value;
                && moves == Redeem(me, t) && JustVerified(st, t, me) && |st.history| > |old(st).history|
                && forall i: nat | VerifiedAt(st.history, i, t) :: i == |st.history| - 1
      ensures r == Err(AlreadyConsumed) ==>
                exists i: nat | |old(st).history| <= i ::
                  VerifiedAt(st.history, i, RedeemableToken(old(st), code).value)
      ensures r == Err(UserNotFound) ==>
                var t := RedeemableToken(old(st), code).value;
                && t < |st.tokens| && !st.tokens[t].consumed
                && st.tokens[t].user < |st.users| && st.users[st.tokens[t].user].deleted
      ensures calm && r == Err(VerifyEmailError.Failed) ==>
                var t := RedeemableToken(old(st), code); t.Some? && RowLocked(st, t.value)
    {
      ghost var before := trace;
      var found;
      found, moves := LookUpUnexpired(me, code);
      if found.Err? {
        return Err(found.error), moves;
      }
      ghost var later;
      r, later := RedeemToken(me, found.value);
      moves := moves + later;
      if r.Ok? || r == Err(AlreadyConsumed) {
        ConsumedSince(found.value, before, old(st));
      }
      if r.Ok? {
        OnlyVerifiedOnce(found.value);
      }
    }

    // ----- update_password -----

    /** The update, which waits for whoever holds the row, the event and the commit. */
    method StorePassword(me: CallId, hashed: string) returns (committed: bool)
      requires Valid() && me in st.calls && st.calls[me].ChangingPassword?
      modifies this
      ensures Valid() && me !in st.calls
      ensures Moved(old(trace), trace, me, [if committed then CommitPassword(me, hashed) else Abandon(me)])
      ensures committed ==>
                var user := old(st).calls[me].user;
                && user < |st.users| && st.outbox != []
                && st.outbox[|st.outbox| - 1] == Event(user, st.users[user].email, PasswordChangedMail)
                && st.history != [] && st.history[|st.history| - 1] == PasswordChanged(user)
                && (!st.users[user].deleted ==> st.users[user].passwordHash == hashed)
      ensures !committed ==> !calm || UserHeld(st, old(st).calls[me].user)
    {
      Others(me);
      CallFits(me);
      var user := st.calls[me].user;
      var failed := MayFail(me);
      if failed {
        return false;
      } else if UserLocked(st, user) {
        LocksOfOthers(st, me, 0, user);
        Do(Abandon(me));
        return false;
      }
      Do(CommitPassword(me, hashed));
      return true;
    }

    /**
     `update_password`. Success means that the event is committed; the password is
     changed with it unless the account was deleted after it was read, because the
     number of rows the update reached is not looked at.
     */
    method UpdatePassword(me: CallId, user: UserId, currentPassword: string, newPassword: string, hashed: string,
                          matches: (string, string) -> bool)
      returns (r: Result<(), UpdatePasswordError>, ghost moves: seq<Action>)
      requires Valid() && me !in st.calls
      modifies this
      ensures Valid() && me !in st.calls && Moved(old(trace), trace, me, moves)
      ensures r.Ok? ==> moves == [LookUpForPassword(me, user), CommitPassword(me, hashed)]
      ensures r == Err(InvalidNewPassword) <==> |Utf8(newPassword)| < 8 || |Utf8(newPassword)| > 128
      ensures r == Err(NotFound) ==> user >= |old(st).users| || old(st).users[user].deleted
      ensures r == Err(InvalidCurrentPassword) ==>
                user < |old(st).users| && !old(st).users[user].deleted &&
                  !matches(currentPassword, old(st).users[user].passwordHash)
      ensures r.Err? && r.error != UpdatePasswordError.Failed ==> st == old(st)
      ensures r.Ok? ==>
                && user < |old(st).users| && !old(st).users[user].deleted &&
                  matches(currentPassword, old(st).users[user].passwordHash)
                && user < |st.users| && st.outbox != [] &&
                  st.outbox[|st.outbox| - 1] == Event(user, st.users[user].email, PasswordChangedMail)
                && st.history != [] && st.history[|st.history| - 1] == PasswordChanged(user)
                && (!st.users[user].deleted ==> st.users[user].passwordHash == hashed)
      ensures r == Err(UpdatePasswordError.Failed) ==> !calm || UserHeld(st, user)
    {
      ByteLengthExactly(newPassword);
      if !ValidPassword(newPassword) {
        return Err(InvalidNewPassword), [];
      }
      var unavailable: bool := *;
      if unavailable && !calm {
        return Err(UpdatePasswordError.Failed), [];
      }
      if user >= |st.users| || st.users[user].deleted {
        return Err(NotFound), [];
      }
      if !matches(currentPassword, st.users[user].passwordHash) {
        return Err(InvalidCurrentPassword), [];
      }
      Do(LookUpForPassword(me, user));
      var committed := StorePassword(me, hashed);
      moves := [LookUpForPassword(me, user), if committed then CommitPassword(me, hashed) else Abandon(me)];
      var lost: bool := *;
      return if (lost && !calm) || !committed then Err(UpdatePasswordError.Failed) else Ok(()), moves;
    }

    lemma EarlierVerified(user: UserId)
      requires Valid() && user < |st.users| && st.users[user].status == Active
      ensures VerifiedBefore(st.history, |st.history|, user)
    {
      Safe();
      ActiveWasVerified(st, user);
    }

    /** `login` up to the tokens: only a verified account gets past it. */
    method Login(me: CallId, email: string, password: string, matches: (string, string) -> bool, hasKey: bool)
      returns (r: Result<UserId, LoginError>, ghost moves: seq<Action>)
      requires Valid() && me !in st.calls
      modifies this
      ensures Valid() && me !in st.calls && Moved(old(trace), trace, me, moves) && (moves == [] ==> st == old(st))
      ensures var u := FindByEmail(old(st).users, email);
              var known := u.Some? && matches(password, old(st).users[u.value].passwordHash);
              && (r == Err(InvalidCredentials) ==> !known)
              && (r == Err(AccountNotActive) ==> known && old(st).users[u.value].status != Active)
              && (r.Ok? || r == Err(NoSigningKey) ==> known && old(st).users[u.value].status == Active)
              && (moves == [] || (known && moves == [LogIn(me, u.value)]))
              && (r.Ok? ==>
                    && r.value == u.value && moves != [] && |st.history| > |old(st).history|
                    && st.history[|old(st).history|] == LoggedIn(u.value)
                    && VerifiedBefore(old(st).history, |old(st).history|, u.value))
      ensures r == Err(NoSigningKey) ==> !calm || !hasKey
      ensures r.Ok? ==> hasKey
      ensures r == Err(LoginError.Failed) ==> !calm
    {
      var unavailable: bool := *;
      if unavailable && !calm {
        return Err(LoginError.Failed), [];
      }
      var user := FindByEmail(st.users, email);
      if user.None? || !matches(password, st.users[user.value].passwordHash) {
        return Err(InvalidCredentials), [];
      }
      if st.users[user.value].status != Active {
        return Err(AccountNotActive), [];
      }
      EarlierVerified(user.value);
      Do(LogIn(me, user.value));
      Others(me);
      var keyFails: bool, lost: bool := *, *;
      if !hasKey || (keyFails && !calm) {
        return Err(NoSigningKey), [LogIn(me, user.value)];
      }
      return if lost && !calm then Err(LoginError.Failed) else Ok(user.value), [LogIn(me, user.value)];
    }
  }
}
