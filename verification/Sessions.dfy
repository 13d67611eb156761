/**
 The session store of the gateway (services/gateway/src/session.rs) as its routes
 use it (services/gateway/src/routes/session.rs, routes/auth.rs): the table is
 keyed by the hash of the token, the client holds the token in a cookie.
 */
module Sessions {
  import opened Basics
  import opened Base64Url
  import opened Libraries
  import opened Cookies

  /** Seconds. */
  type Time = nat

  const TTL: Time := 604800
  const TOKEN_LEN := 32

  datatype Session = Session(
    tokenHash: Digest, user: Uuid, accessToken: string, idToken: string, refreshToken: string, createdAt: Time)

  type Rows = map<Digest, Session>

  /** The row's time to live, set by the table, has not run out. */
  predicate Live(session: Session, now: Time) {
    now < session.createdAt + TTL
  }

  /** `hash_session_token`. */
  function HashSessionToken(token: string): Result<Digest, AppError> {
    var raw := Decode(token);
    if raw.None? then Err(Unauthorized) else Ok(Sha256(raw.value))
  }

  function Select(rows: Rows, now: Time, hash: Digest): Option<Session> {
    if hash in rows && Live(rows[hash], now) then Some(rows[hash]) else None
  }

  /** Each row holds its own key. */
  predicate Keyed(rows: Rows) {
    forall hash | hash in rows :: rows[hash].tokenHash == hash
  }

  /** The session a token leads to: by the hash of the bytes it encodes. */
  function At(rows: Rows, now: Time, token: string): Option<Session> {
    var hash := HashSessionToken(token);
    if hash.Ok? then Select(rows, now, hash.value) else None
  }

  /** What the table means: the sessions alive, by the token their client holds. */
  ghost function ByToken(rows: Rows, now: Time): (sessions: map<string, Session>)
    ensures forall token: string :: token in sessions <==> At(rows, now, token).Some?
    ensures forall token | token in sessions :: At(rows, now, token) == Some(sessions[token])
  {
    DecodesAll();
    map hash | hash in rows && Live(rows[hash], now) :: Encode(hash.preimage) := rows[hash]
  }

  lemma DecodesAll()
    ensures forall raw: Bytes :: Decode(Encode(raw)) == Some(raw)
    ensures forall token | Decode(token).Some? :: Encode(Decode(token).value) == token
  {
    forall raw: Bytes ensures Decode(Encode(raw)) == Some(raw) {
      DecodeEncode(raw);
    }
    forall token | Decode(token).Some? ensures Encode(Decode(token).value) == token {
      EncodeDecode(token);
    }
  }

  // ----- the specification -----

  /** Tokens and the sessions they stand for. */
  datatype Spec = Spec(now: Time, sessions: map<string, Session>)

  /** A request: the header is the Cookie header it came with. */
  datatype Request =
    | Create(raw: Bytes, user: Uuid, accessToken: string, idToken: string, refreshToken: string)
    | Lookup(header: Option<string>)
    | Logout(header: Option<string>)
    | Wait(d: nat)

  datatype Reply = Created(setCookie: string) | Found(session: Session) | LoggedOut | Refused | Silent

  function NewSession(r: Request, now: Time): Session
    requires r.Create?
  {
    Session(Sha256(r.raw), r.user, r.accessToken, r.idToken, r.refreshToken, now)
  }

  /** The session of a header, in a plain map from tokens to sessions. */
  function Named(s: Spec, header: Option<string>): Option<string> {
    var token := SessionToken(header);
    if token.Ok? && token.value in s.sessions then Some(token.value) else None
  }

  function SpecReply(s: Spec, r: Request): Reply {
    match r
    case Create(raw, _, _, _, _) => Created(SetSessionCookie(Encode(raw)))
    case Lookup(header) => if Named(s, header).Some? then Found(s.sessions[Named(s, header).value]) else Refused
    case Logout(header) => if Named(s, header).Some? then LoggedOut else Refused
    case Wait(d) => Silent
  }

  /** Time takes the sessions away whose life is over. */
  function SpecNext(s: Spec, r: Request): Spec {
    match r
    case Create(raw, _, _, _, _) => s.(sessions := s.sessions[Encode(raw) := NewSession(r, s.now)])
    case Lookup(header) => s
    case Logout(header) => if Named(s, header).Some? then s.(sessions := s.sessions - {Named(s, header).value}) else s
    case Wait(d) =>
      Spec(s.now + d, map token | token in s.sessions && Live(s.sessions[token], s.now + d) :: s.sessions[token])
  }

  // ----- the code's answers -----

  /** The `AuthSession` extractor: cookie, hash, lookup. */
  function Authorized(rows: Rows, now: Time, header: Option<string>): Result<Session, AppError> {
    var token := SessionToken(header);
    if token.Err? then Err(token.error)
    else
      var hash := HashSessionToken(token.value);
      if hash.Err? then Err(hash.error)
      else
        var session := Select(rows, now, hash.value);
        if session.None? then Err(Unauthorized) else Ok(session.value)
  }

  lemma AuthorizedByToken(rows: Rows, now: Time, header: Option<string>)
    ensures (Authorized(rows, now, header)
         == match Named(Spec(now, ByToken(rows, now)), header)
            case Some(token) => Ok(ByToken(rows, now)[token])
            case None => Err(Unauthorized))
  {
    var token := SessionToken(header);
    if token.Ok? {
      assert token.value in ByToken(rows, now) <==> At(rows, now, token.value).Some?;
    }
    assert Authorized(rows, now, header).Err? ==> Authorized(rows, now, header).error == Unauthorized;
  }

  /** Only the one text that encodes a row's random bytes reaches the row. */
  lemma AtOthers(rows: Rows, rows': Rows, now: Time, hash: Digest, token: string)
    requires forall h | h != hash :: Select(rows, now, h) == Select(rows', now, h)
    requires token != Encode(hash.preimage)
    ensures token in ByToken(rows, now) <==> token in ByToken(rows', now)
    ensures token in ByToken(rows, now) ==> ByToken(rows, now)[token] == ByToken(rows', now)[token]
  {
    DecodesExactly(token, hash.preimage);
    assert At(rows, now, token) == At(rows', now, token);
  }

  /** The token of a row itself leads to it. */
  lemma AtItself(rows: Rows, now: Time, hash: Digest)
    ensures var token := Encode(hash.preimage);
            && (token in ByToken(rows, now) <==> Select(rows, now, hash).Some?)
            && (token in ByToken(rows, now) ==> ByToken(rows, now)[token] == rows[hash])
  {
    DecodeEncode(hash.preimage);
    assert At(rows, now, Encode(hash.preimage)) == Select(rows, now, hash);
  }

  lemma SamePut(m: map<string, Session>, m': map<string, Session>, key: string, session: Session)
    requires key in m' && m'[key] == session
    requires forall token: string | token != key :: token in m <==> token in m'
    requires forall token | token in m && token != key :: m[token] == m'[token]
    ensures m' == m[key := session]
  {
  }

  lemma SameTaken(m: map<string, Session>, m': map<string, Session>, key: string)
    requires key !in m'
    requires forall token: string | token != key :: token in m <==> token in m'
    requires forall token | token in m && token != key :: m[token] == m'[token]
    ensures m' == m - {key}
  {
  }

  /** Tables that agree except at `hash` mean maps that agree except at its token. */
  lemma SameElsewhere(rows: Rows, rows': Rows, now: Time, hash: Digest)
    requires forall h | h != hash :: Select(rows, now, h) == Select(rows', now, h)
    ensures forall token: string | token != Encode(hash.preimage) ::
              token in ByToken(rows, now) <==> token in ByToken(rows', now)
    ensures forall token | token in ByToken(rows, now) && token != Encode(hash.preimage) ::
              ByToken(rows, now)[token] == ByToken(rows', now)[token]
  {
    var key, m, m' := Encode(hash.preimage), ByToken(rows, now), ByToken(rows', now);
    forall token: string | token != key
      ensures (token in m <==> token in m') && (token in m ==> m[token] == m'[token])
    {
      AtOthers(rows, rows', now, hash, token);
    }
  }

  lemma CreateByToken(rows: Rows, now: Time, hash: Digest, session: Session)
    requires session.createdAt == now
    ensures ByToken(rows[hash := session], now) == ByToken(rows, now)[Encode(hash.preimage) := session]
  {
    var rows' := rows[hash := session];
    SameElsewhere(rows, rows', now, hash);
    AtItself(rows', now, hash);
    SamePut(ByToken(rows, now), ByToken(rows', now), Encode(hash.preimage), session);
  }

  lemma DeleteByToken(rows: Rows, now: Time, hash: Digest)
    ensures ByToken(rows - {hash}, now) == ByToken(rows, now) - {Encode(hash.preimage)}
  {
    var rows' := rows - {hash};
    SameElsewhere(rows, rows', now, hash);
    AtItself(rows', now, hash);
    SameTaken(ByToken(rows, now), ByToken(rows', now), Encode(hash.preimage));
  }

  lemma WaitByToken(rows: Rows, now: Time, d: nat)
    ensures ByToken(rows, now + d) == SpecNext(Spec(now, ByToken(rows, now)), Wait(d)).sessions
  {
    var before, after := ByToken(rows, now), ByToken(rows, now + d);
    forall token: string ensures token in after <==> token in before && Live(before[token], now + d) {
      assert token in before ==> At(rows, now, token) == Some(before[token]);
    }
  }

  // ----- runs -----

  /** The table and the clock it reads. */
  datatype Store = Store(now: Time, rows: Rows)

  ghost function Meaning(s: Store): Spec {
    Spec(s.now, ByToken(s.rows, s.now))
  }

  function ReplyTo(s: Store, r: Request): Reply {
    match r
    case Create(raw, _, _, _, _) => Created(SetSessionCookie(Encode(raw)))
    case Lookup(header) =>
      var session := Authorized(s.rows, s.now, header);
      if session.Ok? then Found(session.value) else Refused
    case Logout(header) => if Authorized(s.rows, s.now, header).Ok? then LoggedOut else Refused
    case Wait(d) => Silent
  }

  function Next(s: Store, r: Request): Store {
    match r
    case Create(raw, _, _, _, _) => s.(rows := s.rows[Sha256(raw) := NewSession(r, s.now)])
    case Lookup(header) => s
    case Logout(header) =>
      var session := Authorized(s.rows, s.now, header);
      if session.Ok? then s.(rows := s.rows - {session.value.tokenHash}) else s
    case Wait(d) => s.(now := s.now + d)
  }

  /** The row a header leads to is keyed by the hash of the token in it. */
  lemma AuthorizedKey(rows: Rows, now: Time, header: Option<string>)
    requires Keyed(rows) && Authorized(rows, now, header).Ok?
    ensures SessionToken(header).Ok? &&
            Encode(Authorized(rows, now, header).value.tokenHash.preimage) == SessionToken(header).value
  {
    EncodeDecode(SessionToken(header).value);
  }

  lemma StepRefines(s: Store, r: Request)
    requires Keyed(s.rows)
    ensures Keyed(Next(s, r).rows)
    ensures Meaning(Next(s, r)) == SpecNext(Meaning(s), r)
    ensures ReplyTo(s, r) == SpecReply(Meaning(s), r)
  {
    match r
    case Create(raw, _, _, _, _) => CreateByToken(s.rows, s.now, Sha256(raw), NewSession(r, s.now));
    case Lookup(header) => AuthorizedByToken(s.rows, s.now, header);
    case Logout(header) =>
      AuthorizedByToken(s.rows, s.now, header);
      if Authorized(s.rows, s.now, header).Ok? {
        AuthorizedKey(s.rows, s.now, header);
        DeleteByToken(s.rows, s.now, Authorized(s.rows, s.now, header).value.tokenHash);
      }
    case Wait(d) => WaitByToken(s.rows, s.now, d);
  }

  function Replies(s: Store, requests: seq<Request>): seq<Reply>
    decreases |requests|
  {
    if requests == [] then [] else [ReplyTo(s, requests[0])] + Replies(Next(s, requests[0]), requests[1..])
  }

  function SpecReplies(s: Spec, requests: seq<Request>): seq<Reply>
    decreases |requests|
  {
    if requests == [] then [] else [SpecReply(s, requests[0])] + SpecReplies(SpecNext(s, requests[0]), requests[1..])
  }

  /**
   Over every run of logins, lookups, logouts and passing time, and whatever Cookie
   headers come, the store keyed by hashes answers as a plain map from tokens to
   sessions does.
   */
  lemma {:induction false} SessionsRefine(s: Store, requests: seq<Request>)
    requires Keyed(s.rows)
    ensures Replies(s, requests) == SpecReplies(Meaning(s), requests)
    decreases |requests|
  {
    if requests == [] {
    } else {
      StepRefines(s, requests[0]);
      SessionsRefine(Next(s, requests[0]), requests[1..]);
    }
  }

  function After(s: Store, requests: seq<Request>): Store
    decreases |requests|
  {
    if requests == [] then s else After(Next(s, requests[0]), requests[1..])
  }

  /** The request is no logout with the token of these random bytes, and draws other bytes. */
  predicate Spares(r: Request, raw: Bytes) {
    match r
    case Create(other, _, _, _, _) => other != raw
    case Logout(header) => SessionToken(header) != Ok(Encode(raw))
    case _ => true
  }

  lemma RowStays(s: Store, raw: Bytes, r: Request)
    requires Keyed(s.rows) && Sha256(raw) in s.rows && Spares(r, raw)
    ensures Keyed(Next(s, r).rows) && s.now <= Next(s, r).now
    ensures Sha256(raw) in Next(s, r).rows && Next(s, r).rows[Sha256(raw)] == s.rows[Sha256(raw)]
  {
    if r.Logout? && Authorized(s.rows, s.now, r.header).Ok? {
      AuthorizedKey(s.rows, s.now, r.header);
    }
  }

  lemma {:induction false} RowStaysOn(s: Store, raw: Bytes, others: seq<Request>)
    requires Keyed(s.rows) && Sha256(raw) in s.rows
    requires forall i | 0 <= i < |others| :: Spares(others[i], raw)
    ensures var t := After(s, others); Sha256(raw) in t.rows && t.rows[Sha256(raw)] == s.rows[Sha256(raw)]
    ensures s.now <= After(s, others).now
    decreases |others|
  {
    if others == [] {
    } else {
      RowStays(s, raw, others[0]);
      RowStaysOn(Next(s, others[0]), raw, others[1..]);
    }
  }

  /**
   From login to any later request: the cookie that was set, sent back among other
   cookies of which none before it starts with `__Host-sid`, gives the session
   until its time is over, and nothing after that, whatever the others do in
   between: they log in, look up, log out and wait, but do not log out with this token.
   */
  lemma CookieReachesSession(s: Store, login: Request, others: seq<Request>, before: seq<string>, after: seq<string>)
    requires Keyed(s.rows) && login.Create?
    requires forall i | 0 <= i < |others| :: Spares(others[i], login.raw)
    requires forall i | 0 <= i < |before| :: Proper(before[i]) && !StartsLikeOurs(before[i])
    requires forall i | 0 <= i < |after| :: Proper(after[i])
    ensures var cookie := CookiePair(ReplyTo(s, login).setCookie);
            var t := After(Next(s, login), others);
            ReplyTo(t, Lookup(Some(Join(before + [cookie] + after))))
            == if t.now < s.now + 604_800 then Found(NewSession(login, s.now)) else Refused
  {
    var cookie := CookiePair(ReplyTo(s, login).setCookie);
    CookieOfToken(login.raw);
    CookieAmongOthers(before, cookie, after, Encode(login.raw));
    RowStaysOn(Next(s, login), login.raw, others);
    TokenReachesSession(After(Next(s, login), others), login.raw, Some(Join(before + [cookie] + after)));
  }

  lemma TokenReachesSession(s: Store, raw: Bytes, header: Option<string>)
    requires Sha256(raw) in s.rows && SessionToken(header) == Ok(Encode(raw))
    ensures (ReplyTo(s, Lookup(header))
         == if Live(s.rows[Sha256(raw)], s.now) then Found(s.rows[Sha256(raw)]) else Refused)
  {
    DecodeEncode(raw);
  }

  // ----- the store as the code has it -----

  class SessionStore {
    var now: Time
    var rows: Rows

    ghost predicate Valid()
      reads this
    {
      Keyed(rows)
    }

    /** The sessions alive, by token. */
    ghost function Contents(): Spec
      reads this
    {
      Meaning(Store(now, rows))
    }

    constructor (startedAt: Time)
      ensures Valid() && Contents() == Spec(startedAt, map[])
    {
      now, rows := startedAt, map[];
    }

    /** The time to live takes rows away without anyone calling. */
    method Pass(d: nat)
      requires Valid()
      modifies this`now
      ensures Valid() && Contents() == SpecNext(old(Contents()), Wait(d))
    {
      WaitByToken(rows, now, d);
      now := now + d;
    }

    /** `generate_session_token`: the random bytes as text and hashed. */
    method GenerateSessionToken(random: Bytes) returns (cleartext: string, hash: Digest)
      requires |random| == 32
      ensures cleartext == Encode(random) && HashSessionToken(cleartext) == Ok(hash) && hash == Sha256(random)
    {
      var raw := new Byte[TOKEN_LEN];
      forall i | 0 <= i < TOKEN_LEN {
        raw[i] := random[i];
      }
      assert raw[..] == random;
      DecodeEncode(random);
      return Encode(raw[..]), Sha256(raw[..]);
    }

    method CreateSession(random: Bytes, user: Uuid, accessToken: string, idToken: string, refreshToken: string)
      returns (cleartext: string)
      requires Valid() && |random| == 32
      modifies this`rows
      ensures var r := Create(random, user, accessToken, idToken, refreshToken);
              && Valid() && Contents() == SpecNext(old(Contents()), r)
              && Created(SetSessionCookie(cleartext)) == SpecReply(old(Contents()), r)
              && cleartext in Contents().sessions && Contents().sessions[cleartext] == NewSession(r, now)
    {
      StepRefines(Store(now, rows), Create(random, user, accessToken, idToken, refreshToken));
      var hash;
      cleartext, hash := GenerateSessionToken(random);
      rows := rows[hash := Session(hash, user, accessToken, idToken, refreshToken, now)];
    }

    method GetSession(hash: Digest) returns (session: Option<Session>)
      ensures session == Select(rows, now, hash)
    {
      if hash in rows && now < rows[hash].createdAt + TTL {
        return Some(rows[hash]);
      }
      return None;
    }

    method DeleteSession(hash: Digest)
      requires Valid()
      modifies this`rows
      ensures Valid() && rows == old(rows) - {hash}
      ensures Contents().sessions == old(Contents().sessions) - {Encode(hash.preimage)}
    {
      DeleteByToken(rows, now, hash);
      rows := rows - {hash};
    }

    /** The extractor in front of every authenticated route. */
    method AuthSession(header: Option<string>) returns (r: Result<Session, AppError>)
      requires Valid()
      ensures (if r.Ok? then Found(r.value) else Refused) == SpecReply(Contents(), Lookup(header))
      ensures r.Ok? ==> SessionToken(header) == Ok(Encode(r.value.tokenHash.preimage))
    {
      AuthorizedByToken(rows, now, header);
      var token := ExtractSessionCookie(header);
      if token.Err? {
        return Err(Unauthorized);
      }
      var hash := HashSessionToken(token.value);
      if hash.Err? {
        return Err(Unauthorized);
      }
      var session := GetSession(hash.value);
      if session.None? {
        return Err(Unauthorized);
      }
      AuthorizedKey(rows, now, header);
      return Ok(session.value);
    }

    method LogOut(header: Option<string>) returns (r: Result<(), AppError>)
      requires Valid()
      modifies this`rows
      ensures Valid() && Contents() == SpecNext(old(Contents()), Logout(header))
      ensures (if r.Ok? then LoggedOut else Refused) == SpecReply(old(Contents()), Logout(header))
      ensures r.Ok? ==> SessionToken(header).Ok? && SessionToken(header).value !in Contents().sessions
    {
      var session := AuthSession(header);
      if session.Err? {
        return Err(Unauthorized);
      }
      DeleteSession(session.value.tokenHash);
      return Ok(());
    }
  }
}
