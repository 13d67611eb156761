/**
 Reading an access token on both sides: the identity service checks it
 (services/identity/src/services/auth.rs), the gateway only takes the user from it
 (`decode_sub_from_jwt` in services/gateway/src/session.rs).
 */
module Auth {
  import opened Basics
  import opened Base64Url
  import opened Libraries
  import opened Text
  import opened Jwt

  const ISSUER := "https://home.ryanseipp.com"
  const AUDIENCE := "https://api.home.ryanseipp.com"
  const BEARER := "Bearer "
  const LEEWAY: U64 := 30

  datatype AuthError = MissingHeader | BadScheme | Malformed | UnknownKey | BadToken | MissingSub | InvalidSub

  function FindKey(jwks: seq<Jwk>, kid: string): Option<Jwk> {
    if jwks == [] then None else if jwks[0].kid == kid then Some(jwks[0]) else FindKey(jwks[1..], kid)
  }

  function AuthOptions(now: U64): Options {
    Options({ES256, ES384}, Some(ISSUER), Some(AUDIENCE), now, LEEWAY)
  }

  function BearerToken(authorization: Option<string>): Result<string, AuthError> {
    if authorization.None? then Err(MissingHeader)
    else if BEARER <= authorization.value then Ok(authorization.value[|BEARER|..])
    else Err(BadScheme)
  }

  /** The stored key the header of the token names. */
  function SelectKey(lib: Libraries, token: string, jwks: seq<Jwk>): Result<Jwk, AuthError> {
    var header := DecodeHeader(lib, Split(token, '.')[0]);
    if header.None? then Err(Malformed)
    else
      var jwk := FindKey(jwks, header.value.kid);
      if jwk.None? then Err(UnknownKey) else Ok(jwk.value)
  }

  function Authenticate(lib: Libraries, authorization: Option<string>, jwks: seq<Jwk>,
                        now: U64): Result<Uuid, AuthError> {
    var token := BearerToken(authorization);
    if token.Err? then Err(token.error)
    else
      var jwk := SelectKey(lib, token.value, jwks);
      if jwk.Err? then Err(jwk.error)
      else
        var claims := VerifyJwt(lib, token.value, jwk.value, AuthOptions(now));
        if claims.Err? then Err(BadToken)
        else
          var sub := claims.value.Text("sub");
          if sub.None? then Err(MissingSub)
          else
            var user := lib.parseUuid(sub.value);
            if user.None? then Err(InvalidSub) else Ok(user.value)
  }

  datatype SubError = MissingPayload | BadBase64 | BadJson | NoSub | NotUuid

  /** The gateway reads the payload as any JSON value and indexes it; a repeated name counts by its last value. */
  function DecodeSub(lib: Libraries, token: string): Result<Uuid, SubError> {
    var parts := Split(token, '.');
    if |parts| < 2 then Err(MissingPayload)
    else
      var bytes := Decode(parts[1]);
      if bytes.None? then Err(BadBase64)
      else
        var j := lib.parseJson(bytes.value);
        if j.None? then Err(BadJson)
        else
          var sub := if j.value.Obj? then Last(j.value.members, "sub") else None;
          if sub.None? || !sub.value.Str? then Err(NoSub)
          else
            var user := lib.parseUuid(sub.value.s);
            if user.None? then Err(NotUuid) else Ok(user.value)
  }

  /** A field that was read stands in the object, and its last value there is the one read. */
  lemma {:induction false} ReadIsLast(fields: seq<string>, acc: Claims, seen: set<string>,
                                      members: seq<(string, Json)>, name: string)
    requires name in fields && Read(fields, acc, seen, members).Some?
    ensures var r := Read(fields, acc, seen, members).value;
            if name in seen then
              Last(members, name) == None
              && (name in r.registered <==> name in acc.registered)
              && (name in acc.registered ==> r.registered[name] == acc.registered[name])
            else if name in r.registered && name !in acc.registered then Last(members, name) == Some(r.registered[name])
            else true
    decreases |members|
  {
    if members == [] {
    } else {
      var (n, value) := members[0];
      if n !in fields {
        ReadIsLast(fields, acc.(custom := acc.custom[n := value]), seen, members[1..], name);
      } else if value == Null {
        ReadIsLast(fields, acc, seen + {n}, members[1..], name);
      } else {
        ReadIsLast(fields, acc.(registered := acc.registered[n := value]), seen + {n}, members[1..], name);
      }
    }
  }

  lemma VerifiedPayload(lib: Libraries, token: string, jwk: Jwk, o: Options)
    requires VerifyJwt(lib, token, jwk, o).Ok?
    ensures var parts := Split(token, '.');
            && |parts| == 3
            && DecodeClaims(lib, parts[1]) == Some(VerifyJwt(lib, token, jwk, o).value)
  {
  }

  /** The user named by claims that were read is the last `sub` of their object. */
  lemma SubIsLast(lib: Libraries, segment: string)
    requires DecodeClaims(lib, segment).Some? && DecodeClaims(lib, segment).value.Text("sub").Some?
    ensures var j := lib.parseJson(Decode(segment).value).value;
            j.Obj? && Last(j.members, "sub") == Some(Str(DecodeClaims(lib, segment).value.Text("sub").value))
  {
    var members := lib.parseJson(Decode(segment).value).value.members;
    assert "sub" in REGISTERED by {
      assert REGISTERED[1] == "sub";
    }
    ReadIsLast(REGISTERED, NO_CLAIMS, {}, members, "sub");
  }

  /**
   The two parsers agree: whenever the identity service accepts a token, the
   gateway's unchecked reading of it gives the same user.
   */
  lemma TwoParsersAgree(lib: Libraries, authorization: Option<string>, jwks: seq<Jwk>, now: U64)
    requires Authenticate(lib, authorization, jwks, now).Ok?
    ensures DecodeSub(lib, BearerToken(authorization).value) == Ok(Authenticate(lib, authorization, jwks, now).value)
  {
    var token := BearerToken(authorization).value;
    var jwk := SelectKey(lib, token, jwks).value;
    VerifiedPayload(lib, token, jwk, AuthOptions(now));
    SubIsLast(lib, Split(token, '.')[1]);
  }

  lemma {:induction false} FoundKey(jwks: seq<Jwk>, kid: string)
    ensures var r := FindKey(jwks, kid);
            if r.Some? then r.value in jwks && r.value.kid == kid else forall k | k in jwks :: k.kid != kid
  {
    if jwks == [] {
    } else {
      FoundKey(jwks[1..], kid);
    }
  }

  /**
   The header that picked the key is the one `verify_jwt` reads again, so with the
   picked key its test on the key id cannot fail.
   */
  lemma PickedKeyMatches(lib: Libraries, token: string, jwks: seq<Jwk>)
    requires SelectKey(lib, token, jwks).Ok?
    ensures var header := DecodeHeader(lib, Split(token, '.')[0]);
            var jwk := SelectKey(lib, token, jwks).value;
            header.Some? && header.value.kid == jwk.kid && jwk in jwks
  {
    FoundKey(jwks, DecodeHeader(lib, Split(token, '.')[0]).value.kid);
  }
}
