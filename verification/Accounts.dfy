/**
 Accounts of the identity service as a step system: the tables for users,
 verification tokens and outbox events, and any number of concurrent requests
 (services/identity/src/services/sign_up.rs, resend_verification.rs,
 verify_email.rs, update_password.rs, login.rs, mod.rs; of update_profile.rs the
 user name), each broken up at the
 points where another request can come in between.

 A table lists its rows in the order in which they were committed, and a row's
 place stands for its id. PostgreSQL's row locks are the `Consumed` and `Marked`
 places: between such a place and the commit no other request writes the row.
 */
module Accounts {
  import opened Base64Url
  import opened Libraries

  /** Microseconds. */
  type Time = nat
  type UserId = nat
  type TokenId = nat
  type CallId = nat

  const HOUR: Time := 3_600_000_000
  const MAX_TOKENS_PER_HOUR := 3
  const TOKEN_LEN := 32

  datatype UserStatus = PendingVerification | Active | Suspended | Locked | Deleted

  /** `deleted` says that `deleted_at` is set; no handler sets it. */
  datatype User = User(
    username: string, email: string, passwordHash: string, emailVerified: bool, status: UserStatus, deleted: bool)

  /** `consumed` says that `consumed_at` is set. */
  datatype Token = Token(user: UserId, hash: Digest, expiresAt: Time, consumed: bool, createdAt: Time)

  datatype Payload = VerificationMail(code: string) | PasswordChangedMail

  datatype Event = Event(user: UserId, recipient: string, payload: Payload)

  /** Where a request is. `raw` are the random bytes of its new token, drawn at `drawnAt`. */
  datatype Call =
    | SigningUp(account: User, raw: Bytes, drawnAt: Time, startedAt: Time)
    | Resending(user: UserId)
    | Counted(user: UserId, countedAt: Time)
    | Reissuing(user: UserId, countedAt: Time, raw: Bytes, drawnAt: Time, startedAt: Time)
    | Looked(token: TokenId)
    | Timely(token: TokenId)
    | Consumed(token: TokenId)
    | Marked(token: TokenId)
    | ChangingPassword(user: UserId)

  /** What committed, or logged in, in this order. */
  datatype Fact =
    | Verified(call: CallId, token: TokenId, user: UserId)
    | PasswordChanged(user: UserId)
    | LoggedIn(user: UserId)

  datatype State = State(
    now: Time,
    users: seq<User>,
    tokens: seq<Token>,
    outbox: seq<Event>,
    calls: map<CallId, Call>,
    drawn: set<Bytes>,
    history: seq<Fact>)

  datatype Action =
    | Tick(d: nat)
    | SignUp(c: CallId, account: User, raw: Bytes, drawnAt: Time)
    | LookUpPending(c: CallId, user: UserId)
    | Count(c: CallId)
    | Reissue(c: CallId, raw: Bytes, drawnAt: Time)
    | LookUpToken(c: CallId, token: TokenId)
    | CheckExpiry(c: CallId)
    | Consume(c: CallId)
    | MarkVerified(c: CallId)
    | Commit(c: CallId)
    | LookUpForPassword(c: CallId, user: UserId)
    | CommitPassword(c: CallId, hash: string)
    | LogIn(c: CallId, user: UserId)
    | Rename(user: UserId, username: string)
    | Delete(user: UserId)
    | Abandon(c: CallId)

  function Init(): State {
    State(0, [], [], [], map[], {}, [])
  }

  // ----- queries -----

  /** `LOWER` on ASCII letters. */
  function Lower(s: string): string {
    seq(|s|, i requires 0 <= i < |s| => LowerChar(s[i]))
  }

  function LowerChar(c: char): char {
    if 'A' <= c <= 'Z' then c - 'A' + 'a' else c
  }

  /** The unique indexes on names and addresses leave deleted rows out. */
  predicate UsernameInUse(users: seq<User>, username: string) {
    exists i | 0 <= i < |users| :: !users[i].deleted && Lower(users[i].username) == Lower(username)
  }

  predicate EmailInUse(users: seq<User>, email: string) {
    exists i | 0 <= i < |users| :: !users[i].deleted && Lower(users[i].email) == Lower(email)
  }

  /** `count_recent_tokens`: the user's tokens among the first `n` with `created_at > now - 1 hour`. */
  function RecentTokens(tokens: seq<Token>, user: UserId, now: Time): nat {
    if tokens == [] then 0
    else
      var last := tokens[|tokens| - 1];
      RecentTokens(tokens[..|tokens| - 1], user, now)
      + if last.user == user && last.createdAt + HOUR > now then 1 else 0
  }

  function NewAccount(username: string, email: string, passwordHash: string): User {
    User(username, email, passwordHash, false, PendingVerification, false)
  }

  // ----- steps -----

  predicate HoldsToken(call: Call, token: TokenId) {
    (call.Consumed? || call.Marked?) && call.token == token
  }

  predicate TokenLocked(s: State, token: TokenId) {
    exists d | d in s.calls :: HoldsToken(s.calls[d], token)
  }

  predicate UserLocked(s: State, user: UserId) {
    exists d | d in s.calls :: HoldsUser(s, s.calls[d], user)
  }

  predicate HoldsUser(s: State, call: Call, user: UserId) {
    call.Marked? && call.token < |s.tokens| && s.tokens[call.token].user == user
  }

  predicate Fresh(s: State, raw: Bytes) {
    raw !in s.drawn && |raw| == TOKEN_LEN
  }

  predicate Enabled(s: State, a: Action) {
    match a
    case Tick(d) => true
    case SignUp(c, account, raw, drawnAt) =>
      && c !in s.calls && Fresh(s, raw) && drawnAt <= s.now
      && account == NewAccount(account.username, account.email, account.passwordHash)
    case LookUpPending(c, user) =>
      c !in s.calls && user < |s.users| && !s.users[user].deleted && s.users[user].status == PendingVerification
    case Count(c) =>
      && c in s.calls && s.calls[c].Resending?
      && RecentTokens(s.tokens, s.calls[c].user, s.now) < MAX_TOKENS_PER_HOUR
    case Reissue(c, raw, drawnAt) =>
      && c in s.calls && s.calls[c].Counted? && Fresh(s, raw) && s.calls[c].countedAt <= drawnAt <= s.now
    case LookUpToken(c, token) =>
      c !in s.calls && token < |s.tokens| && !s.tokens[token].consumed
    case CheckExpiry(c) =>
      && c in s.calls && s.calls[c].Looked? && s.calls[c].token < |s.tokens|
      && s.now <= s.tokens[s.calls[c].token].expiresAt
    case Consume(c) =>
      && c in s.calls && s.calls[c].Timely? && s.calls[c].token < |s.tokens|
      && !TokenLocked(s, s.calls[c].token) && !s.tokens[s.calls[c].token].consumed
    case MarkVerified(c) =>
      && c in s.calls && s.calls[c].Consumed? && s.calls[c].token < |s.tokens|
      && var user := s.tokens[s.calls[c].token].user;
         user < |s.users| && !UserLocked(s, user) && !s.users[user].deleted
    case Commit(c) =>
      && c in s.calls
      && match s.calls[c] {
           case SigningUp(account, _, _, _) =>
             !UsernameInUse(s.users, account.username) && !EmailInUse(s.users, account.email)
           case Reissuing(user, _, _, _, _) => user < |s.users|
           case Marked(token) => token < |s.tokens| && s.tokens[token].user < |s.users|
           case _ => false
         }
    case LookUpForPassword(c, user) => c !in s.calls && user < |s.users| && !s.users[user].deleted
    case CommitPassword(c, hash) =>
      && c in s.calls && s.calls[c].ChangingPassword? && s.calls[c].user < |s.users|
      && !UserLocked(s, s.calls[c].user)
    case LogIn(c, user) => user < |s.users| && !s.users[user].deleted && s.users[user].status == Active
    case Rename(user, username) =>
      && user < |s.users| && !s.users[user].deleted && !UserLocked(s, user)
      && forall i | 0 <= i < |s.users| && i != user && !s.users[i].deleted ::
           Lower(s.users[i].username) != Lower(username)
    case Delete(user) => user < |s.users| && !UserLocked(s, user)
    case Abandon(c) => c in s.calls
  }

  function Goto(s: State, c: CallId, call: Call): State {
    s.(calls := s.calls[c := call])
  }

  /** A token row and the event that carries its code, in one transaction. */
  function Issue(s: State, user: UserId, email: string, raw: Bytes, drawnAt: Time, startedAt: Time): State {
    s.(tokens := s.tokens + [Token(user, Sha256(raw), drawnAt + HOUR, false, startedAt)],
       outbox := s.outbox + [Event(user, email, VerificationMail(Encode(raw)))])
  }

  function CommitCall(s: State, c: CallId): State
    requires Enabled(s, Commit(c))
  {
    match s.calls[c]
    case SigningUp(account, raw, drawnAt, startedAt) =>
      Issue(s.(users := s.users + [account]), |s.users|, account.email, raw, drawnAt, startedAt)
    case Reissuing(user, _, raw, drawnAt, startedAt) => Issue(s, user, s.users[user].email, raw, drawnAt, startedAt)
    case Marked(token) =>
      var user := s.tokens[token].user;
      s.(tokens := s.tokens[token := s.tokens[token].(consumed := true)],
         users := s.users[user := s.users[user].(emailVerified := true, status := Active)],
         history := s.history + [Verified(c, token, user)])
  }

  function Next(s: State, a: Action): State
    requires Enabled(s, a)
  {
    match a
    case Tick(d) => s.(now := s.now + d)
    case SignUp(c, account, raw, drawnAt) =>
      Goto(s, c, SigningUp(account, raw, drawnAt, s.now)).(drawn := s.drawn + {raw})
    case LookUpPending(c, user) => Goto(s, c, Resending(user))
    case Count(c) => Goto(s, c, Counted(s.calls[c].user, s.now))
    case Reissue(c, raw, drawnAt) =>
      Goto(s, c, Reissuing(s.calls[c].user, s.calls[c].countedAt, raw, drawnAt, s.now)).(drawn := s.drawn + {raw})
    case LookUpToken(c, token) => Goto(s, c, Looked(token))
    case CheckExpiry(c) => Goto(s, c, Timely(s.calls[c].token))
    case Consume(c) => Goto(s, c, Consumed(s.calls[c].token))
    case MarkVerified(c) => Goto(s, c, Marked(s.calls[c].token))
    case Commit(c) => CommitCall(s, c).(calls := s.calls - {c})
    case LookUpForPassword(c, user) => Goto(s, c, ChangingPassword(user))
    case CommitPassword(c, hash) =>
      // The update skips a deleted row; the event is inserted all the same.
      var user := s.calls[c].user;
      s.(users := if s.users[user].deleted then s.users else s.users[user := s.users[user].(passwordHash := hash)],
         outbox := s.outbox + [Event(user, s.users[user].email, PasswordChangedMail)],
         history := s.history + [PasswordChanged(user)],
         calls := s.calls - {c})
    case LogIn(c, user) => s.(history := s.history + [LoggedIn(user)])
    case Rename(user, username) => s.(users := s.users[user := s.users[user].(username := username)])
    case Delete(user) => s.(users := s.users[user := s.users[user].(deleted := true)])
    case Abandon(c) => s.(calls := s.calls - {c})
  }

  ghost predicate Runs(s: State, actions: seq<Action>)
    decreases |actions|
  {
    actions == [] || (Enabled(s, actions[0]) && Runs(Next(s, actions[0]), actions[1..]))
  }

  ghost function After(s: State, actions: seq<Action>): State
    requires Runs(s, actions)
    decreases |actions|
  {
    if actions == [] then s else After(Next(s, actions[0]), actions[1..])
  }

  lemma {:induction false} RunsAppend(s: State, actions: seq<Action>, a: Action)
    requires Runs(s, actions) && Enabled(After(s, actions), a)
    ensures Runs(s, actions + [a]) && After(s, actions + [a]) == Next(After(s, actions), a)
    decreases |actions|
  {
    if actions == [] {
      assert [a][1..] == [];
    } else {
      RunsAppend(Next(s, actions[0]), actions[1..], a);
      assert (actions + [a])[1..] == actions[1..] + [a];
    }
  }
}
