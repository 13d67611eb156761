/**
 The path of a signing key: created and stored encrypted
 (`ensure_signing_key` in services/identity/src/services/mod.rs and
 services/identity/src/crypto/encryption.rs), loaded by a login
 (services/identity/src/services/login.rs), and published for checking
 (services/identity/src/services/get_jwks.rs).
 */
module Keys {
  import opened Basics
  import opened Base64Url
  import opened Libraries
  import opened Jwt
  import opened Auth
  import Kek

  const NONCE_LEN := 12
  const TAG_LEN := 16

  // ----- the envelope -----

  function EncryptPrivateKey(lib: Libraries, kek: Bytes, nonce: Bytes, plain: Bytes,
                             aad: string): Result<Bytes, CryptoError> {
    if |kek| != Kek.KEK_LEN then Err(InvalidKek) else Ok(nonce + lib.seal(kek, nonce, aad, plain))
  }

  /** `EncryptedKey::from_bytes`: a nonce, at least one byte of ciphertext, and a tag. */
  function FromBytes(data: Bytes): Result<Bytes, CryptoError> {
    if |data| < NONCE_LEN + 1 + TAG_LEN then Err(InvalidKeyMaterial) else Ok(data)
  }

  function DecryptPrivateKey(lib: Libraries, kek: Bytes, data: Bytes, aad: string): Result<Bytes, CryptoError>
    requires |data| >= NONCE_LEN
  {
    if |kek| != Kek.KEK_LEN then Err(InvalidKek)
    else
      var plain := lib.open(kek, data[..NONCE_LEN], aad, data[NONCE_LEN..]);
      if plain.None? then Err(Decryption) else Ok(plain.value)
  }

  function LoadPrivateKey(lib: Libraries, kek: Bytes, data: Bytes, aad: string): Result<Bytes, CryptoError> {
    var encrypted := FromBytes(data);
    if encrypted.Err? then Err(encrypted.error) else DecryptPrivateKey(lib, kek, encrypted.value, aad)
  }

  /** What was stored loads again exactly when it was not empty: the length test refuses an empty plaintext. */
  lemma StoredKeyLoads(lib: Libraries, kek: Bytes, nonce: Bytes, plain: Bytes, aad: string, data: Bytes)
    requires lib.SealLaw() && |nonce| == NONCE_LEN
    requires EncryptPrivateKey(lib, kek, nonce, plain, aad) == Ok(data)
    ensures LoadPrivateKey(lib, kek, data, aad) == Ok(plain) <==> plain != []
  {
    var sealed := lib.seal(kek, nonce, aad, plain);
    assert data[..NONCE_LEN] == nonce && data[NONCE_LEN..] == sealed;
  }

  /**
   Loading, for all data: it gives a private key exactly if the data is a nonce of 12
   bytes and that key, not empty, sealed behind it under this KEK and for this key id.
   */
  lemma LoadsExactly(lib: Libraries, kek: Bytes, data: Bytes, aad: string, plain: Bytes)
    requires lib.SealLaw() && lib.SealBinds()
    ensures LoadPrivateKey(lib, kek, data, aad) == Ok(plain)
            <==> |kek| == 32 && plain != []
                 && exists nonce :: |nonce| == 12 && data == nonce + lib.seal(kek, nonce, aad, plain)
  {
    if LoadPrivateKey(lib, kek, data, aad) == Ok(plain) {
      var nonce := data[..NONCE_LEN];
      assert data == nonce + data[NONCE_LEN..];
      assert data[NONCE_LEN..] == lib.seal(kek, nonce, aad, plain);
    }
    if nonce :| |kek| == 32 && plain != [] && |nonce| == 12 && data == nonce + lib.seal(kek, nonce, aad, plain) {
      assert data[..NONCE_LEN] == nonce && data[NONCE_LEN..] == lib.seal(kek, nonce, aad, plain);
    }
  }

  /** A sealed key is bound: under another KEK, or for another key id, it does not load. */
  lemma SealedIsBound(lib: Libraries, kek: Bytes, nonce: Bytes, plain: Bytes, aad: string, data: Bytes,
                      kek': Bytes, aad': string)
    requires lib.SealLaw() && lib.SealBinds() && |nonce| == NONCE_LEN
    requires EncryptPrivateKey(lib, kek, nonce, plain, aad) == Ok(data) && (kek' != kek || aad' != aad)
    ensures LoadPrivateKey(lib, kek', data, aad').Err?
  {
    var loaded := LoadPrivateKey(lib, kek', data, aad');
    if loaded.Ok? {
      LoadsExactly(lib, kek', data, aad', loaded.value);
      var nonce' :| |nonce'| == 12 && data == nonce' + lib.seal(kek', nonce', aad', loaded.value);
      SameNonce(nonce, lib.seal(kek, nonce, aad, plain), nonce', lib.seal(kek', nonce', aad', loaded.value));
    }
  }

  lemma SameNonce(nonce: Bytes, sealed: Bytes, nonce': Bytes, sealed': Bytes)
    requires |nonce| == |nonce'| && nonce + sealed == nonce' + sealed'
    ensures nonce == nonce' && sealed == sealed'
  {
    assert nonce == (nonce + sealed)[..|nonce|] && sealed == (nonce + sealed)[|nonce|..];
    assert nonce' == (nonce' + sealed')[..|nonce|] && sealed' == (nonce' + sealed')[|nonce|..];
  }

  // ----- the table -----

  datatype KeyStatus = Active | Retired | Revoked

  datatype KeyRow = KeyRow(algorithm: string, encrypted: Bytes, jwk: Jwk, status: KeyStatus, createdAt: int)

  type Table = map<string, KeyRow>

  /** The row holds one key: its sealed private part and the JWK of the same pair, under its own id. */
  ghost predicate Holds(lib: Libraries, kek: Bytes, kid: string, row: KeyRow, a: Algorithm, der: Bytes) {
    && row.algorithm == AlgorithmName(a)
    && PublicJwk(lib, kid, a, der) == Ok(row.jwk)
    && LoadPrivateKey(lib, kek, row.encrypted, kid) == Ok(der)
  }

  ghost predicate RowOk(lib: Libraries, kek: Bytes, kid: string, row: KeyRow) {
    exists a, der :: Holds(lib, kek, kid, row, a, der)
  }

  ghost predicate TableOk(lib: Libraries, kek: Bytes, keys: Table) {
    forall kid | kid in keys :: RowOk(lib, kek, kid, keys[kid])
  }

  predicate HasActive(keys: Table) {
    exists kid | kid in keys :: keys[kid].status == Active
  }

  // ----- concurrent start-up -----

  /** Services starting at once: `checked` saw no active key, `done` have returned. */
  datatype State = State(keys: Table, checked: set<nat>, done: set<nat>)

  /** `Insert` carries what key generation drew: the id, the private key and the nonce. */
  datatype Action =
    | Check(t: nat)
    | Insert(t: nat, kid: string, der: Bytes, nonce: Bytes, createdAt: int)
    | Fail(t: nat)
    | Revoke(kid: string)

  ghost predicate Enabled(lib: Libraries, kek: Bytes, s: State, a: Action) {
    match a
    case Check(t) => t !in s.checked && t !in s.done
    case Insert(t, kid, der, nonce, _) =>
      && t in s.checked && kid !in s.keys
      && PublicJwk(lib, kid, ES256, der).Ok?
      && |nonce| == NONCE_LEN && EncryptPrivateKey(lib, kek, nonce, der, kid).Ok?
    case Fail(t) => t in s.checked
    case Revoke(kid) => kid in s.keys
  }

  ghost function Next(lib: Libraries, kek: Bytes, s: State, a: Action): State
    requires Enabled(lib, kek, s, a)
  {
    match a
    case Check(t) => if HasActive(s.keys) then s.(done := s.done + {t}) else s.(checked := s.checked + {t})
    case Insert(t, kid, der, nonce, createdAt) =>
      var encrypted, jwk := EncryptPrivateKey(lib, kek, nonce, der, kid).value, PublicJwk(lib, kid, ES256, der).value;
      var row := KeyRow("ES256", encrypted, jwk, Active, createdAt);
      State(s.keys[kid := row], s.checked - {t}, s.done + {t})
    case Fail(t) => s.(checked := s.checked - {t})
    case Revoke(kid) => s.(keys := s.keys[kid := s.keys[kid].(status := Revoked)])
  }

  ghost predicate Runs(lib: Libraries, kek: Bytes, s: State, actions: seq<Action>)
    decreases |actions|
  {
    actions == [] || (Enabled(lib, kek, s, actions[0]) && Runs(lib, kek, Next(lib, kek, s, actions[0]), actions[1..]))
  }

  ghost function After(lib: Libraries, kek: Bytes, s: State, actions: seq<Action>): State
    requires Runs(lib, kek, s, actions)
    decreases |actions|
  {
    if actions == [] then s else After(lib, kek, Next(lib, kek, s, actions[0]), actions[1..])
  }

  predicate NoneRevoked(actions: seq<Action>) {
    forall i | 0 <= i < |actions| :: !actions[i].Revoke?
  }

  predicate KeysGenerated(actions: seq<Action>) {
    forall i | 0 <= i < |actions| && actions[i].Insert? :: actions[i].der != []
  }

  /** Rows stay where they are and keep their key; only a status changes. */
  ghost predicate Keeps(before: Table, after: Table) {
    forall kid | kid in before :: kid in after && after[kid].(status := before[kid].status) == before[kid]
  }

  lemma TableKept(lib: Libraries, kek: Bytes, s: State, a: Action)
    requires lib.Lawful() && TableOk(lib, kek, s.keys) && Enabled(lib, kek, s, a)
    requires a.Insert? ==> a.der != []
    ensures TableOk(lib, kek, Next(lib, kek, s, a).keys) && Keeps(s.keys, Next(lib, kek, s, a).keys)
  {
    var t := Next(lib, kek, s, a);
    forall kid | kid in t.keys ensures RowOk(lib, kek, kid, t.keys[kid]) {
      if a.Insert? && kid == a.kid {
        StoredKeyLoads(lib, kek, a.nonce, a.der, kid, t.keys[kid].encrypted);
        assert Holds(lib, kek, kid, t.keys[kid], ES256, a.der);
      } else {
        var x, der :| Holds(lib, kek, kid, s.keys[kid], x, der);
        assert Holds(lib, kek, kid, t.keys[kid], x, der);
      }
    }
  }

  lemma {:induction false} TableOverRun(lib: Libraries, kek: Bytes, s: State, actions: seq<Action>)
    requires lib.Lawful() && TableOk(lib, kek, s.keys) && Runs(lib, kek, s, actions) && KeysGenerated(actions)
    ensures TableOk(lib, kek, After(lib, kek, s, actions).keys) && Keeps(s.keys, After(lib, kek, s, actions).keys)
    decreases |actions|
  {
    if actions == [] {
    } else {
      assert actions[0].Insert? ==> actions[0].der != [];
      TableKept(lib, kek, s, actions[0]);
      TableOverRun(lib, kek, Next(lib, kek, s, actions[0]), actions[1..]);
    }
  }

  lemma {:induction false} ActiveOverRun(lib: Libraries, kek: Bytes, s: State, actions: seq<Action>)
    requires Runs(lib, kek, s, actions) && NoneRevoked(actions) && (s.done != {} ==> HasActive(s.keys))
    ensures var t := After(lib, kek, s, actions); t.done != {} ==> HasActive(t.keys)
    decreases |actions|
  {
    if actions == [] {
    } else {
      assert !actions[0].Revoke?;
      StillActive(lib, kek, s, actions[0]);
      ActiveOverRun(lib, kek, Next(lib, kek, s, actions[0]), actions[1..]);
    }
  }

  /**
   Start-up in any interleaving: once one call has returned, an active key exists
   (unless keys are revoked), every row holds a key that loads under its own id,
   and no row loses its key.
   */
  lemma StartUp(lib: Libraries, kek: Bytes, s: State, actions: seq<Action>)
    requires lib.Lawful() && TableOk(lib, kek, s.keys) && Runs(lib, kek, s, actions) && KeysGenerated(actions)
    ensures var t := After(lib, kek, s, actions);
            && TableOk(lib, kek, t.keys)
            && Keeps(s.keys, t.keys)
            && ((s.done != {} ==> HasActive(s.keys)) && NoneRevoked(actions) ==> (t.done != {} ==> HasActive(t.keys)))
  {
    TableOverRun(lib, kek, s, actions);
    if (s.done != {} ==> HasActive(s.keys)) && NoneRevoked(actions) {
      ActiveOverRun(lib, kek, s, actions);
    }
  }

  lemma StillActive(lib: Libraries, kek: Bytes, s: State, a: Action)
    requires Enabled(lib, kek, s, a) && !a.Revoke?
    requires s.done != {} ==> HasActive(s.keys)
    ensures Next(lib, kek, s, a).done != {} ==> HasActive(Next(lib, kek, s, a).keys)
  {
    var t := Next(lib, kek, s, a);
    if a.Insert? {
      assert a.kid in t.keys && t.keys[a.kid].status == Active;
    }
  }

  // ----- login and authentication -----

  const ACCESS_TOKEN_LIFETIME_SECS: nat := 900

  /** `get_active_signing_key` picks an active row with the greatest creation time. */
  ghost predicate NewestActive(keys: Table, kid: string) {
    kid in keys && keys[kid].status == Active &&
    forall k | k in keys && keys[k].status == Active :: keys[k].createdAt <= keys[kid].createdAt
  }

  /** The access token's claims for a login in second `t`. */
  function AccessClaims(lib: Libraries, user: Uuid, t: U64, jti: string): Claims
    requires t + ACCESS_TOKEN_LIFETIME_SECS < TWO_TO_THE_64
  {
    Claims(map["iss" := Str(ISSUER), "sub" := Str(lib.printUuid(user)), "aud" := Str(AUDIENCE),
               "exp" := Uint(t + ACCESS_TOKEN_LIFETIME_SECS), "nbf" := Uint(t), "iat" := Uint(t), "jti" := Str(jti)],
           map[])
  }

  /** A login's token for these claims: the chosen row is decrypted and its key signs. */
  function IssueToken(lib: Libraries, kek: Bytes, keys: Table, kid: string, claims: Claims,
                      random: Bytes): Result<string, CryptoError>
    requires kid in keys
  {
    var row := keys[kid];
    var a := ParseAlgorithm(row.algorithm);
    if a.Err? then Err(a.error)
    else
      var der := LoadPrivateKey(lib, kek, row.encrypted, kid);
      if der.Err? then Err(der.error)
      else
        var key := lib.fromPkcs8(a.value, der.value);
        if key.None? then Err(InvalidKeyMaterial)
        else SignJwt(lib, a.value, kid, claims, [], key.value, random)
  }

  /** What `list_public_jwks` may return: the keys not revoked, in any order. */
  ghost predicate Lists(keys: Table, jwks: seq<Jwk>) {
    && (forall k | k in jwks :: exists kid | kid in keys :: keys[kid].status != Revoked && keys[kid].jwk == k)
    && (forall kid | kid in keys && keys[kid].status != Revoked :: keys[kid].jwk in jwks)
  }

  /** Whether the token of second `t` passes the claim tests at clock `now`. */
  predicate InTime(t: U64, now: U64)
    requires t + ACCESS_TOKEN_LIFETIME_SECS < TWO_TO_THE_64
  {
    now <= AddU64(t + ACCESS_TOKEN_LIFETIME_SECS, LEEWAY) && AddU64(now, LEEWAY) >= t
  }

  /** The registered claims that the tests of `authenticate` look at. */
  predicate Dated(claims: Claims, t: U64, exp: U64) {
    && claims.WellTyped()
    && claims.Time("exp") == Some(exp) && claims.Time("nbf") == Some(t)
    && claims.Text("iss") == Some(ISSUER) && claims.HasAudience(AUDIENCE)
  }

  /** What a login in second `t` puts into the access token of `user`, as far as the checks see it. */
  predicate ForLogin(lib: Libraries, claims: Claims, user: Uuid, t: U64)
    requires t + ACCESS_TOKEN_LIFETIME_SECS < TWO_TO_THE_64
  {
    && Dated(claims, t, t + ACCESS_TOKEN_LIFETIME_SECS)
    && claims.custom == map[] && claims.Text("sub") == Some(lib.printUuid(user))
  }

  lemma AccessClaimsTyped(lib: Libraries, user: Uuid, t: U64, jti: string)
    requires t + ACCESS_TOKEN_LIFETIME_SECS < TWO_TO_THE_64
    ensures AccessClaims(lib, user, t, jti).WellTyped()
  {
    assert REGISTERED[0] == "iss" && REGISTERED[1] == "sub" && REGISTERED[2] == "aud" && REGISTERED[3] == "exp";
    assert REGISTERED[4] == "nbf" && REGISTERED[5] == "iat" && REGISTERED[6] == "jti";
  }

  lemma AccessClaimsTimes(lib: Libraries, user: Uuid, t: U64, jti: string)
    requires t + ACCESS_TOKEN_LIFETIME_SECS < TWO_TO_THE_64
    ensures var r := AccessClaims(lib, user, t, jti).registered;
            "exp" in r && r["exp"] == Uint(t + ACCESS_TOKEN_LIFETIME_SECS) && "nbf" in r && r["nbf"] == Uint(t)
            && "iat" in r && r["iat"] == Uint(t)
  {
  }

  lemma AccessClaimsTexts(lib: Libraries, user: Uuid, t: U64, jti: string)
    requires t + ACCESS_TOKEN_LIFETIME_SECS < TWO_TO_THE_64
    ensures var r := AccessClaims(lib, user, t, jti).registered;
            "iss" in r && r["iss"] == Str(ISSUER) && "aud" in r && r["aud"] == Str(AUDIENCE)
            && "sub" in r && r["sub"] == Str(lib.printUuid(user)) && "jti" in r && r["jti"] == Str(jti)
  {
  }

  lemma FitsLogin(lib: Libraries, claims: Claims, user: Uuid, t: U64)
    requires t + ACCESS_TOKEN_LIFETIME_SECS < TWO_TO_THE_64 && claims.WellTyped() && claims.custom == map[]
    requires var r := claims.registered;
             && "exp" in r && r["exp"] == Uint(t + ACCESS_TOKEN_LIFETIME_SECS) && "nbf" in r && r["nbf"] == Uint(t)
             && "iss" in r && r["iss"] == Str(ISSUER) && "aud" in r && r["aud"] == Str(AUDIENCE)
             && "sub" in r && r["sub"] == Str(lib.printUuid(user))
    ensures ForLogin(lib, claims, user, t)
  {
  }

  lemma AccessClaimsFit(lib: Libraries, user: Uuid, t: U64, jti: string)
    requires t + ACCESS_TOKEN_LIFETIME_SECS < TWO_TO_THE_64
    ensures ForLogin(lib, AccessClaims(lib, user, t, jti), user, t)
    ensures var r := AccessClaims(lib, user, t, jti).registered;
            && "iat" in r && r["iat"] == Uint(t) && "exp" in r && r["exp"] == Uint(t + 900)
            && "jti" in r && r["jti"] == Str(jti)
  {
    AccessClaimsTyped(lib, user, t, jti);
    AccessClaimsTimes(lib, user, t, jti);
    AccessClaimsTexts(lib, user, t, jti);
    FitsLogin(lib, AccessClaims(lib, user, t, jti), user, t);
  }

  lemma DatedChecked(claims: Claims, t: U64, exp: U64, now: U64)
    requires Dated(claims, t, exp)
    ensures CheckClaims(claims, AuthOptions(now)).Ok? <==> now <= AddU64(exp, LEEWAY) && AddU64(now, LEEWAY) >= t
  {
  }

  /**
   The clocks at which a token of second `t` is accepted are exactly those from 30
   seconds before to 930 seconds after, precisely when `t + 960` does not exceed
   the greatest u64: beyond that one of the two additions wraps around.
   */
  lemma WindowExactlyWhen(t: U64)
    requires t + ACCESS_TOKEN_LIFETIME_SECS < TWO_TO_THE_64
    ensures (forall now: U64 :: InTime(t, now) <==> t - 30 <= now <= t + 930) <==> t + 960 < TWO_TO_THE_64
  {
    if t + 960 >= TWO_TO_THE_64 {
      var now: U64 := if t + 930 < TWO_TO_THE_64 then t + 930 else t;
      assert t - 30 <= now <= t + 930 && !InTime(t, now);
    }
  }

  lemma WindowAt(t: U64, now: U64)
    requires t + 960 < TWO_TO_THE_64
    ensures InTime(t, now) <==> t - 30 <= now <= t + 930
  {
  }

  lemma {:induction false} FindListed(keys: Table, jwks: seq<Jwk>, kid: string)
    requires kid in keys && keys[kid].status != Revoked && Lists(keys, jwks)
    requires forall k | k in keys :: keys[k].jwk.kid == k
    ensures FindKey(jwks, kid) == Some(keys[kid].jwk)
  {
    FoundKey(jwks, kid);
  }

  lemma RowsNamed(lib: Libraries, kek: Bytes, keys: Table)
    requires TableOk(lib, kek, keys)
    ensures forall kid | kid in keys :: keys[kid].jwk.kid == kid
  {
    forall kid | kid in keys ensures keys[kid].jwk.kid == kid {
      var a, der :| Holds(lib, kek, kid, keys[kid], a, der);
    }
  }

  /** The token is one that the pair of `jwk` signed for these claims. */
  ghost predicate Signed(lib: Libraries, a: Algorithm, der: Bytes, claims: Claims, random: Bytes, jwk: Jwk,
                         token: string) {
    && PublicJwk(lib, jwk.kid, a, der) == Ok(jwk)
    && SignJwt(lib, a, jwk.kid, claims, [], lib.fromPkcs8(a, der).value, random) == Ok(token)
  }

  /** A signed token is genuine, and its claims are read back. */
  lemma SignedReads(lib: Libraries, a: Algorithm, der: Bytes, claims: Claims, random: Bytes, jwk: Jwk, token: string)
    returns (parts: seq<string>, header: JwtHeader, point: Bytes, signature: Bytes)
    requires lib.Lawful() && claims.WellTyped() && claims.custom == map[]
    requires Signed(lib, a, der, claims, random, jwk, token)
    ensures Genuine(lib, token, jwk, a, parts, header, point, signature)
    ensures header.kid == jwk.kid && DecodeClaims(lib, parts[1]) == Some(claims)
  {
    NoCustom(lib, claims);
    parts, header, point, signature := SignedIsGenuine(lib, a, jwk.kid, der, claims, [], random, jwk, token);
  }

  /** With a signed token, verification gives its own claims, or an error when a test fails. */
  lemma SignedVerdict(lib: Libraries, a: Algorithm, der: Bytes, claims: Claims, random: Bytes, jwk: Jwk,
                      token: string, o: Options, passes: bool)
    requires lib.Lawful() && claims.WellTyped() && claims.custom == map[] && a in o.allowed
    requires Signed(lib, a, der, claims, random, jwk, token)
    requires CheckClaims(claims, o).Ok? <==> passes
    ensures if passes then VerifyJwt(lib, token, jwk, o) == Ok(claims) else VerifyJwt(lib, token, jwk, o).Err?
  {
    var parts, header, point, signature := SignedReads(lib, a, der, claims, random, jwk, token);
    VerifyGenuine(lib, token, jwk, o, a, parts, header, point, signature, Some(claims));
  }

  /** The token's header leads to the first listed key with the signer's id. */
  lemma SignedSelects(lib: Libraries, a: Algorithm, der: Bytes, claims: Claims, random: Bytes, jwk: Jwk,
                      token: string, jwks: seq<Jwk>)
    requires lib.Lawful() && claims.WellTyped() && claims.custom == map[] &&
             Signed(lib, a, der, claims, random, jwk, token)
    ensures (SelectKey(lib, token, jwks)
         == match FindKey(jwks, jwk.kid)
            case None => Err(UnknownKey)
            case Some(k) => Ok(k))
  {
    var parts, header, point, signature := SignedReads(lib, a, der, claims, random, jwk, token);
  }

  /** With the right key picked, the user comes out exactly when verification succeeds. */
  lemma AuthenticateVerified(lib: Libraries, token: string, jwks: seq<Jwk>, now: U64, jwk: Jwk, claims: Claims,
                             user: Uuid, passes: bool)
    requires lib.TextLaws() && SelectKey(lib, token, jwks) == Ok(jwk)
    requires (if passes then VerifyJwt(lib, token, jwk, AuthOptions(now)) == Ok(claims)
              else VerifyJwt(lib, token, jwk, AuthOptions(now)).Err?)
    requires claims.Text("sub") == Some(lib.printUuid(user))
    ensures Authenticate(lib, Some(BEARER + token), jwks, now) == if passes then Ok(user) else Err(BadToken)
  {
    assert (BEARER + token)[|BEARER|..] == token;
  }

  lemma SignedAuthenticates(lib: Libraries, a: Algorithm, der: Bytes, claims: Claims, random: Bytes, jwk: Jwk,
                            token: string,
                            jwks: seq<Jwk>, user: Uuid, now: U64, passes: bool)
    requires lib.Lawful() && claims.WellTyped() && claims.custom == map[] &&
             claims.Text("sub") == Some(lib.printUuid(user))
    requires Signed(lib, a, der, claims, random, jwk, token) && FindKey(jwks, jwk.kid) == Some(jwk)
    requires CheckClaims(claims, AuthOptions(now)).Ok? <==> passes
    ensures Authenticate(lib, Some(BEARER + token), jwks, now) == if passes then Ok(user) else Err(BadToken)
  {
    SignedSelects(lib, a, der, claims, random, jwk, token, jwks);
    SignedVerdict(lib, a, der, claims, random, jwk, token, AuthOptions(now), passes);
    AuthenticateVerified(lib, token, jwks, now, jwk, claims, user, passes);
  }

  /** An issued token is signed with the key of the row. */
  lemma IssuedIsSigned(lib: Libraries, kek: Bytes, keys: Table, kid: string, claims: Claims, random: Bytes,
                       token: string)
    returns (a: Algorithm, der: Bytes)
    requires kid in keys && RowOk(lib, kek, kid, keys[kid]) &&
             IssueToken(lib, kek, keys, kid, claims, random) == Ok(token)
    ensures Signed(lib, a, der, claims, random, keys[kid].jwk, token) && keys[kid].jwk.kid == kid
  {
    a, der :| Holds(lib, kek, kid, keys[kid], a, der);
  }

  lemma LoginAuthenticates(lib: Libraries, a: Algorithm, der: Bytes, claims: Claims, random: Bytes, jwk: Jwk,
                           token: string,
                           jwks: seq<Jwk>, user: Uuid, t: U64, now: U64)
    requires lib.Lawful() && t + 960 < TWO_TO_THE_64 && ForLogin(lib, claims, user, t)
    requires Signed(lib, a, der, claims, random, jwk, token) && FindKey(jwks, jwk.kid) == Some(jwk)
    ensures (Authenticate(lib, Some(BEARER + token), jwks, now)
         == if t - 30 <= now <= t + 930 then Ok(user) else Err(BadToken))
  {
    DatedChecked(claims, t, t + ACCESS_TOKEN_LIFETIME_SECS, now);
    WindowAt(t, now);
    SignedAuthenticates(lib, a, der, claims, random, jwk, token, jwks, user, now, t - 30 <= now <= t + 930);
  }

  /**
   Login to authentication: a token issued for a login in second `t` under an
   active row, and presented later under any table in which that row is kept and
   not revoked, is accepted for the same user exactly at the clocks from `t - 30`
   to `t + 930`. The claims are any that a login makes (`AccessClaimsFit`).
   */
  lemma LoginAccepted(lib: Libraries, kek: Bytes, keys: Table, later: Table, kid: string, jwks: seq<Jwk>,
                      user: Uuid, t: U64, claims: Claims, random: Bytes, token: string, now: U64)
    requires lib.Lawful() && TableOk(lib, kek, keys) && TableOk(lib, kek, later) && Keeps(keys, later)
    requires NewestActive(keys, kid) && later[kid].status != Revoked && Lists(later, jwks)
    requires t + 960 < TWO_TO_THE_64 && ForLogin(lib, claims, user, t)
    requires IssueToken(lib, kek, keys, kid, claims, random) == Ok(token)
    ensures (Authenticate(lib, Some(BEARER + token), jwks, now)
         == if t - 30 <= now <= t + 930 then Ok(user) else Err(BadToken))
  {
    var a, der := IssuedIsSigned(lib, kek, keys, kid, claims, random, token);
    RowsNamed(lib, kek, later);
    FindListed(later, jwks, kid);
    LoginAuthenticates(lib, a, der, claims, random, keys[kid].jwk, token, jwks, user, t, now);
  }

  lemma RevokedNotListed(keys: Table, jwks: seq<Jwk>, kid: string)
    requires kid in keys && keys[kid].status == Revoked && Lists(keys, jwks)
    requires forall k | k in keys :: keys[k].jwk.kid == k
    ensures FindKey(jwks, kid) == None
  {
    FoundKey(jwks, kid);
  }

  lemma UnselectedRejected(lib: Libraries, token: string, jwks: seq<Jwk>, now: U64)
    requires SelectKey(lib, token, jwks) == Err(UnknownKey)
    ensures Authenticate(lib, Some(BEARER + token), jwks, now) == Err(UnknownKey)
  {
    assert (BEARER + token)[|BEARER|..] == token;
  }

  /** Once the row is revoked, no clock makes a token issued under it acceptable. */
  lemma RevokedRejected(lib: Libraries, kek: Bytes, keys: Table, later: Table, kid: string, jwks: seq<Jwk>,
                        claims: Claims, random: Bytes, token: string, now: U64)
    requires lib.Lawful() && TableOk(lib, kek, keys) && TableOk(lib, kek, later) && Keeps(keys, later)
    requires NewestActive(keys, kid) && later[kid].status == Revoked && Lists(later, jwks)
    requires claims.WellTyped() && claims.custom == map[]
    requires IssueToken(lib, kek, keys, kid, claims, random) == Ok(token)
    ensures Authenticate(lib, Some(BEARER + token), jwks, now) == Err(UnknownKey)
  {
    var a, der := IssuedIsSigned(lib, kek, keys, kid, claims, random, token);
    RowsNamed(lib, kek, later);
    RevokedNotListed(later, jwks, kid);
    SignedSelects(lib, a, der, claims, random, keys[kid].jwk, token, jwks);
    UnselectedRejected(lib, token, jwks, now);
  }

  // ----- ensure_signing_key -----

  lemma {:induction false} RunsAppend(lib: Libraries, kek: Bytes, s: State, actions: seq<Action>, a: Action)
    requires Runs(lib, kek, s, actions) && Enabled(lib, kek, After(lib, kek, s, actions), a)
    ensures Runs(lib, kek, s, actions + [a])
    ensures After(lib, kek, s, actions + [a]) == Next(lib, kek, After(lib, kek, s, actions), a)
    decreases |actions|
  {
    if actions == [] {
      assert [a][1..] == [];
    } else {
      RunsAppend(lib, kek, Next(lib, kek, s, actions[0]), actions[1..], a);
      assert (actions + [a])[1..] == actions[1..] + [a];
    }
  }

  /** The key table, shared by all services that start up. `calm` says that no query fails. */
  class KeyService {
    const lib: Libraries
    const kek: Bytes
    const calm: bool
    var st: State
    ghost var trace: seq<Action>

    ghost predicate Valid()
      reads this
    {
      && KeysGenerated(trace)
      && Runs(lib, kek, State(map[], {}, {}), trace) && After(lib, kek, State(map[], {}, {}), trace) == st
    }

    constructor (lib: Libraries, kek: Bytes, calm: bool)
      ensures Valid() && trace == [] && this.lib == lib && this.kek == kek && this.calm == calm
    {
      this.lib, this.kek, this.calm := lib, kek, calm;
      st := State(map[], {}, {});
      trace := [];
    }

    lemma Safe()
      requires Valid() && lib.Lawful()
      ensures TableOk(lib, kek, st.keys) && (NoneRevoked(trace) && st.done != {} ==> HasActive(st.keys))
    {
      StartUp(lib, kek, State(map[], {}, {}), trace);
    }

    ghost method Do(a: Action)
      requires Valid() && Enabled(lib, kek, st, a) && (a.Insert? ==> a.der != [])
      modifies this`trace
      ensures Runs(lib, kek, State(map[], {}, {}), trace)
      ensures After(lib, kek, State(map[], {}, {}), trace) == Next(lib, kek, st, a)
      ensures trace == old(trace) + [a] && KeysGenerated(trace)
    {
      RunsAppend(lib, kek, State(map[], {}, {}), trace, a);
      trace := trace + [a];
    }

    /** Any number of actions of other services; the body stands for none. */
    method Others(me: nat)
      requires Valid()
      modifies this
      ensures Valid() && old(trace) <= trace
      ensures me in st.checked <==> me in old(st).checked
      ensures me in st.done <==> me in old(st).done
    {
    }

    /** The count of active keys. */
    method CheckActive(me: nat) returns (active: bool)
      requires Valid() && me !in st.checked && me !in st.done
      modifies this
      ensures Valid() && old(trace) <= trace && active == HasActive(st.keys)
      ensures if active then me in st.done else me in st.checked
    {
      Others(me);
      active := exists kid | kid in st.keys :: st.keys[kid].status == Active;
      Do(Check(me));
      st := if active then st.(done := st.done + {me}) else st.(checked := st.checked + {me});
    }

    /** The insert of a generated key pair: its id, its private key, and the nonce it is sealed with. */
    method InsertKey(me: nat, kid: string, der: Bytes, nonce: Bytes, createdAt: int) returns (ok: bool)
      requires Valid() && me in st.checked
      modifies this
      ensures Valid() && old(trace) <= trace && (ok ==> me in st.done)
      ensures var fits := der != [] && |nonce| == 12 && |kek| == 32 && kid !in old(st).keys
                          && PublicJwk(lib, kid, ES256, der).Ok?;
              (ok ==> fits && kid in st.keys && st.keys[kid].status == Active) && (fits && calm ==> ok)
      ensures !ok ==> st.keys == old(st).keys
    {
      var jwk, encrypted := PublicJwk(lib, kid, ES256, der), EncryptPrivateKey(lib, kek, nonce, der, kid);
      var fails: bool := *;
      if der == [] || |nonce| != NONCE_LEN || kid in st.keys || jwk.Err? || encrypted.Err? || (fails && !calm) {
        Do(Fail(me));
        st := st.(checked := st.checked - {me});
        return false;
      }
      Do(Insert(me, kid, der, nonce, createdAt));
      var row := KeyRow("ES256", encrypted.value, jwk.value, Active, createdAt);
      st := State(st.keys[kid := row], st.checked - {me}, st.done + {me});
      return true;
    }

    /**
     `ensure_signing_key`. When it returns without error an active key exists,
     however many services start at once, unless somebody revoked keys; and every
     row, this one included, loads.
     */
    method EnsureSigningKey(me: nat, kid: string, der: Bytes, nonce: Bytes, createdAt: int) returns (ok: bool)
      requires Valid() && lib.Lawful() && me !in st.checked && me !in st.done
      modifies this
      ensures Valid() && old(trace) <= trace && TableOk(lib, kek, st.keys)
      ensures ok ==> me in st.done && (NoneRevoked(trace) ==> HasActive(st.keys))
      ensures !ok && calm ==>
                der == [] || |nonce| != 12 || |kek| != 32 || kid in st.keys || PublicJwk(lib, kid, ES256, der).Err?
    {
      var active := CheckActive(me);
      ok := true;
      if !active {
        Others(me);
        ok := InsertKey(me, kid, der, nonce, createdAt);
      }
      Safe();
    }
  }
}
