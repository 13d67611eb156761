/**
 A login through the gateway (`login` in services/gateway/src/routes/auth.rs) and
 what its session is good for: the identity service makes the access token, the
 gateway reads the user from it, keeps it in the session, and sends it along with
 the later requests (`with_auth` in services/gateway/src/routes/session.rs), where
 the identity service checks it.
 */
module GatewayLogin {
  import opened Basics
  import opened Base64Url
  import opened Libraries
  import opened Jwt
  import opened Auth
  import Text
  import Keys
  import Cookies
  import Sessions

  datatype LoginError = NoUser(error: SubError) | NoExpiry

  /** The session a login's answer asks for; `dated` says that its expiry time is there and in range. */
  function SessionFor(lib: Libraries, raw: Bytes, accessToken: string, idToken: string, refreshToken: string,
                      dated: bool): Result<Sessions.Request, LoginError>
  {
    var user := DecodeSub(lib, accessToken);
    if user.Err? then Err(NoUser(user.error))
    else if !dated then Err(NoExpiry)
    else Ok(Sessions.Create(raw, user.value, accessToken, idToken, refreshToken))
  }

  /** `login`: the answer of the identity service becomes a session and its cookie, or an error and nothing else. */
  method LogIn(lib: Libraries, store: Sessions.SessionStore, random: Bytes, accessToken: string, idToken: string,
               refreshToken: string, dated: bool)
    returns (r: Result<string, LoginError>)
    requires store.Valid() && |random| == 32
    modifies store`rows
    ensures store.Valid()
    ensures match SessionFor(lib, random, accessToken, idToken, refreshToken, dated)
            case Err(error) => r == Err(error) && store.rows == old(store.rows)
            case Ok(login) =>
              && r.Ok? && Sessions.Created(r.value) == Sessions.SpecReply(old(store.Contents()), login)
              && store.Contents() == Sessions.SpecNext(old(store.Contents()), login)
  {
    var user := DecodeSub(lib, accessToken);
    if user.Err? {
      return Err(NoUser(user.error));
    }
    if !dated {
      return Err(NoExpiry);
    }
    var cleartext := store.CreateSession(random, user.value, accessToken, idToken, refreshToken);
    return Ok(Cookies.SetSessionCookie(cleartext));
  }

  /** `with_auth`. */
  function WithAuth(session: Sessions.Session): string {
    BEARER + session.accessToken
  }

  datatype Answer = NoSession | NotAccepted(error: AuthError) | For(user: Uuid)

  /** A request with this Cookie header: the gateway finds the session, the identity service checks its token. */
  function Ask(lib: Libraries, s: Sessions.Store, header: Option<string>, jwks: seq<Jwk>, now: U64): Answer {
    var session := Sessions.Authorized(s.rows, s.now, header);
    if session.Err? then NoSession
    else
      match Authenticate(lib, Some(WithAuth(session.value)), jwks, now)
      case Ok(user) => For(user)
      case Err(error) => NotAccepted(error)
  }

  /** A token the gateway stores was signed by the identity service for claims of this user. */
  ghost predicate Issued(lib: Libraries, kek: Bytes, keys: Keys.Table, kid: string, claims: Claims, random: Bytes,
                         token: string, user: Uuid, t: U64)
    requires t + Keys.ACCESS_TOKEN_LIFETIME_SECS < TWO_TO_THE_64
  {
    && Keys.TableOk(lib, kek, keys) && Keys.NewestActive(keys, kid)
    && Keys.ForLogin(lib, claims, user, t)
    && Keys.IssueToken(lib, kek, keys, kid, claims, random) == Ok(token)
  }

  lemma GenuineSub(lib: Libraries, token: string, segment: string, claims: Claims, user: Uuid)
    requires lib.TextLaws() && |Text.Split(token, '.')| == 3 && Text.Split(token, '.')[1] == segment
    requires DecodeClaims(lib, segment) == Some(claims) && claims.Text("sub") == Some(lib.printUuid(user))
    ensures DecodeSub(lib, token) == Ok(user)
  {
    SubIsLast(lib, segment);
  }

  /** The gateway reads the user out of an issued token, at any time: it looks at no clock and no key. */
  lemma IssuedNamesUser(lib: Libraries, kek: Bytes, keys: Keys.Table, kid: string, claims: Claims, random: Bytes,
                        token: string, user: Uuid, t: U64)
    requires lib.Lawful() && t + Keys.ACCESS_TOKEN_LIFETIME_SECS < TWO_TO_THE_64
    requires Issued(lib, kek, keys, kid, claims, random, token, user, t)
    ensures DecodeSub(lib, token) == Ok(user)
  {
    var a, der := Keys.IssuedIsSigned(lib, kek, keys, kid, claims, random, token);
    var parts, header, point, signature := Keys.SignedReads(lib, a, der, claims, random, keys[kid].jwk, token);
    GenuineSub(lib, token, parts[1], claims, user);
  }

  /** An issued token makes a proper header, so the `expect` of `with_auth` never fires. */
  lemma HeaderIsVisible(lib: Libraries, kek: Bytes, keys: Keys.Table, kid: string, claims: Claims, random: Bytes,
                        token: string)
    requires kid in keys && Keys.IssueToken(lib, kek, keys, kid, claims, random) == Ok(token)
    ensures forall c | c in BEARER + token :: Cookies.Visible(c)
  {
    var row := keys[kid];
    var a := ParseAlgorithm(row.algorithm).value;
    var key := lib.fromPkcs8(a, Keys.LoadPrivateKey(lib, kek, row.encrypted, kid).value).value;
    SignedIsVisible(lib, a, kid, claims, key, random, token);
  }

  lemma SignedIsVisible(lib: Libraries, a: Algorithm, kid: string, claims: Claims, key: KeyPair, random: Bytes,
                        token: string)
    requires SignJwt(lib, a, kid, claims, [], key, random) == Ok(token)
    ensures forall c | c in token :: Cookies.Visible(c)
  {
    var header := JwtHeader(AlgorithmName(a), "JWT", kid);
    var input := SigningInput(lib, header, claims, []);
    Cookies.EncodedIsClean(lib.printJson(HeaderJson(header)));
    Cookies.EncodedIsClean(lib.printJson(Obj(Members(claims, []))));
    Cookies.EncodedIsClean(lib.sign(key, input, random).value);
  }

  /** The row that signed is kept and not revoked, and the keys are the ones listed. */
  ghost predicate StillListed(lib: Libraries, kek: Bytes, keys: Keys.Table, later: Keys.Table, kid: string,
                              jwks: seq<Jwk>)
    requires kid in keys
  {
    && Keys.TableOk(lib, kek, later) && Keys.Keeps(keys, later)
    && later[kid].status != Keys.Revoked && Keys.Lists(later, jwks)
  }

  lemma TokenAccepted(lib: Libraries, kek: Bytes, keys: Keys.Table, later: Keys.Table, kid: string, jwks: seq<Jwk>,
                      user: Uuid, t: U64, claims: Claims, random: Bytes, token: string, now: U64)
    requires lib.Lawful() && t + 960 < TWO_TO_THE_64
    requires Issued(lib, kek, keys, kid, claims, random, token, user, t)
    requires StillListed(lib, kek, keys, later, kid, jwks)
    ensures (Authenticate(lib, Some(BEARER + token), jwks, now)
         == if t - 30 <= now <= t + 930 then Ok(user) else Err(BadToken))
  {
    Keys.LoginAccepted(lib, kek, keys, later, kid, jwks, user, t, claims, random, token, now);
  }

  /** What a lookup finds decides the answer, together with what the identity service says to its token. */
  lemma AskedAfter(lib: Libraries, s: Sessions.Store, header: Option<string>, jwks: seq<Jwk>, now: U64,
                   login: Sessions.Request, createdAt: nat, alive: bool, passes: bool)
    requires login.Create?
    requires (Sessions.ReplyTo(s, Sessions.Lookup(header))
              == if alive then Sessions.Found(Sessions.NewSession(login, createdAt)) else Sessions.Refused)
    requires (Authenticate(lib, Some(BEARER + login.accessToken), jwks, now)
              == if passes then Ok(login.user) else Err(BadToken))
    ensures (Ask(lib, s, header, jwks, now)
         == if !alive then NoSession else if passes then For(login.user) else NotAccepted(BadToken))
  {
  }

  /**
   From login to a later request, over both services. A login of `user` in second
   `t` makes a session of that user. Its cookie, sent back among others, and with
   anything but a logout by it in between, gets the request accepted for `user`
   exactly while the session's seven days last and the identity service's clock
   stands in the token's window. After the window the session is still found, but
   its token is refused; after the seven days there is none. `later` is the key
   table by then.
   */
  lemma LoginServes(lib: Libraries, kek: Bytes, keys: Keys.Table, later: Keys.Table, kid: string, jwks: seq<Jwk>,
                    user: Uuid, t: U64, claims: Claims, random: Bytes, token: string,
                    s: Sessions.Store, raw: Bytes, idToken: string, refreshToken: string,
                    others: seq<Sessions.Request>, before: seq<string>, after: seq<string>, now: U64)
    requires lib.Lawful() && t + 960 < TWO_TO_THE_64
    requires Issued(lib, kek, keys, kid, claims, random, token, user, t)
    requires StillListed(lib, kek, keys, later, kid, jwks)
    requires Sessions.Keyed(s.rows) && forall i | 0 <= i < |others| :: Sessions.Spares(others[i], raw)
    requires forall i | 0 <= i < |before| :: Cookies.Proper(before[i]) && !Cookies.StartsLikeOurs(before[i])
    requires forall i | 0 <= i < |after| :: Cookies.Proper(after[i])
    ensures var login := Sessions.Create(raw, user, token, idToken, refreshToken);
            var cookie := Cookies.CookiePair(Sessions.ReplyTo(s, login).setCookie);
            var s' := Sessions.After(Sessions.Next(s, login), others);
            && SessionFor(lib, raw, token, idToken, refreshToken, true) == Ok(login)
            && (Ask(lib, s', Some(Cookies.Join(before + [cookie] + after)), jwks, now)
                == if s'.now >= s.now + 604_800 then NoSession
                   else if t - 30 <= now <= t + 930 then For(user) else NotAccepted(BadToken))
  {
    IssuedNamesUser(lib, kek, keys, kid, claims, random, token, user, t);
    TokenAccepted(lib, kek, keys, later, kid, jwks, user, t, claims, random, token, now);
    var login := Sessions.Create(raw, user, token, idToken, refreshToken);
    Sessions.CookieReachesSession(s, login, others, before, after);
    var cookie := Cookies.CookiePair(Sessions.ReplyTo(s, login).setCookie);
    var s' := Sessions.After(Sessions.Next(s, login), others);
    AskedAfter(lib, s', Some(Cookies.Join(before + [cookie] + after)), jwks, now, login, s.now,
               s'.now < s.now + Sessions.TTL, t - 30 <= now <= t + 930);
  }
}
