/**
 JWTs of the identity service (services/identity/src/crypto/jwt.rs, jwk.rs): the
 claims as a JSON object, compact serialization (section 7.1 of RFC 7515), and the
 key as a JWK with separate coordinates (section 6.2.1 of RFC 7518).
 */
module Jwt {
  import opened Basics
  import opened Base64Url
  import opened Libraries
  import opened Text

  datatype CryptoError =
    | InvalidToken | AlgorithmMismatch | Verification | InvalidKeyMaterial | TokenExpired
    | Signing | Decryption | InvalidKek | KeyNotFound

  function AlgorithmName(a: Algorithm): string {
    match a
    case ES256 => "ES256"
    case ES384 => "ES384"
  }

  function ParseAlgorithm(s: string): Result<Algorithm, CryptoError> {
    if s == "ES256" then Ok(ES256) else if s == "ES384" then Ok(ES384) else Err(AlgorithmMismatch)
  }

  function CurveName(a: Algorithm): string {
    match a
    case ES256 => "P-256"
    case ES384 => "P-384"
  }

  function CoordinateSize(a: Algorithm): nat {
    match a
    case ES256 => 32
    case ES384 => 48
  }

  // ----- claims -----

  /** The registered claims, in the order in which they are written. */
  const REGISTERED: seq<string> :=
    ["iss", "sub", "aud", "exp", "nbf", "iat", "jti",
     "name", "given_name", "family_name", "email", "email_verified", "preferred_username"]

  predicate IsTime(name: string) {
    name == "exp" || name == "nbf" || name == "iat"
  }

  /** The claim's field accepts the value: text, a u64, a flag, or one or several audiences. */
  predicate Typed(name: string, value: Json) {
    if name == "aud" then value.Str? || (value.Arr? && forall i | 0 <= i < |value.items| :: value.items[i].Str?)
    else if IsTime(name) then value.Uint? && value.n < TWO_TO_THE_64
    else if name == "email_verified" then value.Bool?
    else value.Str?
  }

  /** The fields and the values they take (section 4.1 of RFC 7519, section 5.1 of OpenID Connect Core). */
  lemma FieldTypes(name: string, value: Json)
    ensures name in REGISTERED
            <==> name in ["iss", "sub", "aud", "exp", "nbf", "iat", "jti"]
                 || name in ["name", "given_name", "family_name"]
                 || name in ["email", "email_verified", "preferred_username"]
    ensures Typed("aud", value)
            <==> value.Str? || (value.Arr? && forall j | j in value.items :: j.Str?)
    ensures Typed("exp", value) && Typed("nbf", value) && Typed("iat", value)
            <==> value.Uint? && value.n < 0x1_0000_0000_0000_0000
    ensures Typed("email_verified", value) <==> value.Bool?
    ensures name in REGISTERED && name !in ["aud", "exp", "nbf", "iat", "email_verified"] ==>
              (Typed(name, value) <==> value.Str?)
  {
  }

  /** Claims: the registered ones that are present, and the custom ones. */
  datatype Claims = Claims(registered: map<string, Json>, custom: map<string, Json>) {
    /** The registered part has only names of `fields`, each with its type. */
    predicate Fits(fields: seq<string>) {
      forall name | name in registered :: name in fields && Typed(name, registered[name])
    }

    predicate WellTyped() {
      Fits(REGISTERED)
    }

    function Text(name: string): Option<string> {
      if name in registered && registered[name].Str? then Some(registered[name].s) else None
    }

    function Time(name: string): (t: Option<U64>)
      requires WellTyped() && IsTime(name)
    {
      if name in registered then Some(registered[name].n) else None
    }

    predicate HasAudience(value: string) {
      "aud" in registered &&
      (registered["aud"] == Str(value) || (registered["aud"].Arr? && Str(value) in registered["aud"].items))
    }

    predicate CustomAvoids(fields: seq<string>) {
      forall name | name in custom :: name !in fields
    }

    /** No custom claim takes a registered name. */
    predicate CustomAvoidsRegistered() {
      CustomAvoids(REGISTERED)
    }
  }

  /** A list of claim names, all different. */
  predicate Distinct(names: seq<string>) {
    forall i, j | 0 <= i < j < |names| :: names[i] != names[j]
  }

  /** The order a hash map happens to list its keys in. */
  ghost predicate Enumerates(order: seq<string>, m: map<string, Json>) {
    Distinct(order) && forall name :: name in order <==> name in m
  }

  /** The members of `m` in the order of `names`, in front of `rest`. */
  function Pick(m: map<string, Json>, names: seq<string>, rest: seq<(string, Json)>): seq<(string, Json)> {
    if names == [] then rest
    else if names[0] in m then [(names[0], m[names[0]])] + Pick(m, names[1..], rest)
    else Pick(m, names[1..], rest)
  }

  function Members(claims: Claims, order: seq<string>): seq<(string, Json)> {
    Pick(claims.registered, REGISTERED, Pick(claims.custom, order, []))
  }

  /**
   Reading an object member by member into a structure with the given fields: a
   field's name must come once and its value have the field's type, `null` stands
   for absent, and every other name is a custom claim.
   */
  function Read(fields: seq<string>, acc: Claims, seen: set<string>, members: seq<(string, Json)>): Option<Claims>
    decreases |members|
  {
    if members == [] then Some(acc)
    else
      var (name, value) := members[0];
      if name !in fields then Read(fields, acc.(custom := acc.custom[name := value]), seen, members[1..])
      else if name in seen then None
      else if value == Null then Read(fields, acc, seen + {name}, members[1..])
      else if !Typed(name, value) then None
      else Read(fields, acc.(registered := acc.registered[name := value]), seen + {name}, members[1..])
  }

  const NO_CLAIMS: Claims := Claims(map[], map[])

  function ParseClaims(j: Json): Option<Claims> {
    if j.Obj? then Read(REGISTERED, NO_CLAIMS, {}, j.members) else None
  }

  /** The members named `names` of `m`, as a map. */
  function Only(m: map<string, Json>, names: seq<string>): map<string, Json> {
    map name | name in m && name in names :: m[name]
  }

  lemma OnlyCons(base: map<string, Json>, m: map<string, Json>, names: seq<string>)
    requires names != []
    ensures base + Only(m, names)
         == (if names[0] in m then base[names[0] := m[names[0]]] else base) + Only(m, names[1..])
  {
    assert forall name :: name in names <==> name == names[0] || name in names[1..];
  }

  lemma {:induction false} ReadFields(fields: seq<string>, acc: Claims, seen: set<string>, m: map<string, Json>,
                                      names: seq<string>, rest: seq<(string, Json)>)
    returns (seen': set<string>)
    requires Distinct(names) && forall i | 0 <= i < |names| :: names[i] in fields && names[i] !in seen
    requires forall name | name in m :: Typed(name, m[name]) && m[name] != Null
    ensures Read(fields, acc, seen, Pick(m, names, rest))
         == Read(fields, acc.(registered := acc.registered + Only(m, names)), seen', rest)
    decreases |names|
  {
    if names == [] {
      seen' := seen;
      assert acc.registered + Only(m, names) == acc.registered;
    } else {
      var name := names[0];
      OnlyCons(acc.registered, m, names);
      if name in m {
        var acc' := acc.(registered := acc.registered[name := m[name]]);
        seen' := ReadFields(fields, acc', seen + {name}, m, names[1..], rest);
      } else {
        seen' := ReadFields(fields, acc, seen, m, names[1..], rest);
      }
    }
  }

  lemma {:induction false} ReadCustom(fields: seq<string>, acc: Claims, seen: set<string>, m: map<string, Json>,
                                      names: seq<string>)
    requires forall i | 0 <= i < |names| :: names[i] !in fields
    ensures Read(fields, acc, seen, Pick(m, names, [])) == Some(acc.(custom := acc.custom + Only(m, names)))
    decreases |names|
  {
    if names == [] {
      assert acc.custom + Only(m, names) == acc.custom;
    } else {
      var name := names[0];
      OnlyCons(acc.custom, m, names);
      if name in m {
        ReadCustom(fields, acc.(custom := acc.custom[name := m[name]]), seen, m, names[1..]);
      } else {
        ReadCustom(fields, acc, seen, m, names[1..]);
      }
    }
  }

  /** What reading always gives: well-typed claims whose custom names are not field names. */
  lemma {:induction false} ReadIsProper(fields: seq<string>, acc: Claims, seen: set<string>,
                                        members: seq<(string, Json)>)
    requires acc.Fits(fields) && acc.CustomAvoids(fields)
    ensures var r := Read(fields, acc, seen, members);
            r.Some? ==> r.value.Fits(fields) && r.value.CustomAvoids(fields)
    decreases |members|
  {
    if members == [] {
    } else {
      var (name, value) := members[0];
      if name !in fields {
        ReadIsProper(fields, acc.(custom := acc.custom[name := value]), seen, members[1..]);
      } else if name !in seen && value == Null {
        ReadIsProper(fields, acc, seen + {name}, members[1..]);
      } else if name !in seen && Typed(name, value) {
        ReadIsProper(fields, acc.(registered := acc.registered[name := value]), seen + {name}, members[1..]);
      }
    }
  }

  lemma TypedNotNull(name: string, value: Json)
    requires Typed(name, value)
    ensures value != Null
  {
  }

  lemma OnlyAll(m: map<string, Json>, names: seq<string>)
    requires forall name | name in m :: name in names
    ensures map[] + Only(m, names) == m
  {
  }

  /** For any list of distinct fields, writing and reading is the identity when the custom names avoid it. */
  lemma FieldsRoundTrip(fields: seq<string>, claims: Claims, order: seq<string>)
    requires Distinct(fields) && claims.Fits(fields) && Enumerates(order, claims.custom) && claims.CustomAvoids(fields)
    ensures Read(fields, NO_CLAIMS, {}, Pick(claims.registered, fields, Pick(claims.custom, order, []))) == Some(claims)
  {
    forall name | name in claims.registered ensures claims.registered[name] != Null {
      TypedNotNull(name, claims.registered[name]);
    }
    var seen := ReadFields(fields, NO_CLAIMS, {}, claims.registered, fields, Pick(claims.custom, order, []));
    OnlyAll(claims.registered, fields);
    forall i | 0 <= i < |order| ensures order[i] !in fields {
      assert order[i] in order;
    }
    ReadCustom(fields, Claims(claims.registered, map[]), seen, claims.custom, order);
    OnlyAll(claims.custom, order);
  }

  lemma RegisteredDistinct()
    ensures Distinct(REGISTERED)
  {
  }

  /** Claims survive being written and read exactly when no custom claim takes a registered name. */
  lemma ClaimsRoundTrip(claims: Claims, order: seq<string>)
    requires claims.WellTyped() && Enumerates(order, claims.custom)
    ensures ParseClaims(Obj(Members(claims, order))) == Some(claims) <==> claims.CustomAvoidsRegistered()
  {
    ReadIsProper(REGISTERED, NO_CLAIMS, {}, Members(claims, order));
    if claims.CustomAvoidsRegistered() {
      RegisteredDistinct();
      FieldsRoundTrip(REGISTERED, claims, order);
    }
  }

  // ----- header and key -----

  datatype JwtHeader = JwtHeader(alg: string, typ: string, kid: string)

  function HeaderJson(h: JwtHeader): Json {
    Obj([("alg", Str(h.alg)), ("typ", Str(h.typ)), ("kid", Str(h.kid))])
  }

  function Count(members: seq<(string, Json)>, name: string): nat {
    if members == [] then 0 else (if members[0].0 == name then 1 else 0) + Count(members[1..], name)
  }

  /** The value of the last member with the name. */
  function Last(members: seq<(string, Json)>, name: string): Option<Json> {
    if members == [] then None
    else
      var later := Last(members[1..], name);
      if later.Some? then later else if members[0].0 == name then Some(members[0].1) else None
  }

  /** The text of the only member with the name. */
  function OnlyText(members: seq<(string, Json)>, name: string): Option<string> {
    if Count(members, name) == 1 && Last(members, name).Some? && Last(members, name).value.Str?
    then Some(Last(members, name).value.s) else None
  }

  /** All three fields are required, once each and as text; a three-item array will do as well. */
  function ParseHeader(j: Json): Option<JwtHeader> {
    match j
    case Obj(members) =>
      var alg, typ, kid := OnlyText(members, "alg"), OnlyText(members, "typ"), OnlyText(members, "kid");
      if alg.Some? && typ.Some? && kid.Some? then Some(JwtHeader(alg.value, typ.value, kid.value)) else None
    case Arr(items) =>
      if |items| == 3 && items[0].Str? && items[1].Str? && items[2].Str?
      then Some(JwtHeader(items[0].s, items[1].s, items[2].s)) else None
    case _ => None
  }

  lemma HeaderRoundTrip(h: JwtHeader)
    ensures ParseHeader(HeaderJson(h)) == Some(h)
  {
    var a, t, k := ("alg", Str(h.alg)), ("typ", Str(h.typ)), ("kid", Str(h.kid));
    assert HeaderJson(h).members == [a, t, k];
    assert [a, t, k][1..] == [t, k] && [t, k][1..] == [k];
    assert Count([k], "kid") == 1 && Count([k], "alg") == 0 && Count([k], "typ") == 0;
    assert Count([t, k], "kid") == 1 && Count([t, k], "alg") == 0 && Count([t, k], "typ") == 1;
    assert Last([k], "kid") == Some(k.1) && Last([k], "typ") == None && Last([k], "alg") == None;
    assert Last([t, k], "kid") == Some(k.1) && Last([t, k], "typ") == Some(t.1) && Last([t, k], "alg") == None;
  }

  datatype Jwk = Jwk(kty: string, keyUse: string, kid: string, alg: string, crv: string, x: string, y: string)

  /** `public_jwk_from_pkcs8`: the uncompressed point 0x04 || x || y, split in two. */
  function PublicJwk(lib: Libraries, kid: string, a: Algorithm, der: Bytes): Result<Jwk, CryptoError> {
    var key := lib.fromPkcs8(a, der);
    if key.None? then Err(InvalidKeyMaterial)
    else
      var point := lib.publicKey(key.value);
      var size := CoordinateSize(a);
      if |point| != 1 + 2 * size || point[0] != 0x04 then Err(InvalidKeyMaterial)
      else
        Ok(Jwk("EC", "sig", kid, AlgorithmName(a), CurveName(a), Encode(point[1..1 + size]), Encode(point[1 + size..])))
  }

  /** What a JWK says of its key (sections 6.2.1 of RFC 7518 and 4 of RFC 7517). */
  lemma JwkDescribes(lib: Libraries, kid: string, a: Algorithm, der: Bytes)
    requires PublicJwk(lib, kid, a, der).Ok?
    ensures var jwk := PublicJwk(lib, kid, a, der).value;
            && jwk.kid == kid && jwk.kty == "EC" && jwk.keyUse == "sig"
            && (a == ES256 ==> jwk.alg == "ES256" && jwk.crv == "P-256")
            && (a == ES384 ==> jwk.alg == "ES384" && jwk.crv == "P-384")
            && Decode(jwk.x).Some? && |Decode(jwk.x).value| == (if a == ES256 then 32 else 48)
            && Decode(jwk.y).Some? && |Decode(jwk.y).value| == (if a == ES256 then 32 else 48)
  {
    var point, size := lib.publicKey(lib.fromPkcs8(a, der).value), CoordinateSize(a);
    DecodeEncode(point[1..1 + size]);
    DecodeEncode(point[1 + size..]);
  }

  /** The point a verifier puts together from a JWK. */
  function JoinedPoint(jwk: Jwk): Result<Bytes, CryptoError> {
    var x, y := Decode(jwk.x), Decode(jwk.y);
    if x.None? || y.None? then Err(InvalidKeyMaterial) else Ok([0x04] + x.value + y.value)
  }

  lemma JoinsParts(jwk: Jwk, x: Bytes, y: Bytes)
    requires Decode(jwk.x) == Some(x) && Decode(jwk.y) == Some(y)
    ensures JoinedPoint(jwk) == Ok([0x04] + x + y)
  {
  }

  lemma PointParts(point: Bytes, size: nat)
    requires |point| == 1 + 2 * size && point[0] == 0x04
    ensures [0x04] + point[1..1 + size] + point[1 + size..] == point
  {
  }

  /** Splitting a public point for the JWK and joining it again gives the same point. */
  lemma PointRejoins(lib: Libraries, kid: string, a: Algorithm, der: Bytes)
    requires PublicJwk(lib, kid, a, der).Ok?
    ensures JoinedPoint(PublicJwk(lib, kid, a, der).value) == Ok(lib.publicKey(lib.fromPkcs8(a, der).value))
  {
    var point := lib.publicKey(lib.fromPkcs8(a, der).value);
    var size := CoordinateSize(a);
    var x, y := point[1..1 + size], point[1 + size..];
    PointParts(point, size);
    DecodeEncode(x);
    DecodeEncode(y);
    JoinsParts(PublicJwk(lib, kid, a, der).value, x, y);
  }

  // ----- signing and verifying -----

  datatype Options = Options(
    allowed: set<Algorithm>, issuer: Option<string>, audience: Option<string>, currentTime: U64, leeway: U64)

  function SigningInput(lib: Libraries, header: JwtHeader, claims: Claims, order: seq<string>): string {
    Encode(lib.printJson(HeaderJson(header))) + "." + Encode(lib.printJson(Obj(Members(claims, order))))
  }

  function SignJwt(lib: Libraries, a: Algorithm, kid: string, claims: Claims, order: seq<string>, key: KeyPair,
                   random: Bytes):
    Result<string, CryptoError>
  {
    var input := SigningInput(lib, JwtHeader(AlgorithmName(a), "JWT", kid), claims, order);
    var signature := lib.sign(key, input, random);
    if signature.None? then Err(Signing) else Ok(input + "." + Encode(signature.value))
  }

  /** The header in the first segment of a token; `decode_jwt_header` and `verify_jwt` read it alike. */
  function DecodeHeader(lib: Libraries, segment: string): Option<JwtHeader> {
    var bytes := Decode(segment);
    if bytes.None? then None
    else
      var j := lib.parseJson(bytes.value);
      if j.None? then None else ParseHeader(j.value)
  }

  function DecodeClaims(lib: Libraries, segment: string): Option<Claims> {
    var bytes := Decode(segment);
    if bytes.None? then None
    else
      var j := lib.parseJson(bytes.value);
      if j.None? then None else ParseClaims(j.value)
  }

  /** The tests on exp, nbf, iss and aud, in this order. */
  function CheckClaims(claims: Claims, o: Options): Result<Claims, CryptoError>
    requires claims.WellTyped()
  {
    var exp, nbf := claims.Time("exp"), claims.Time("nbf");
    if exp.Some? && o.currentTime > AddU64(exp.value, o.leeway) then Err(TokenExpired)
    else if nbf.Some? && AddU64(o.currentTime, o.leeway) < nbf.value then Err(InvalidToken)
    else if o.issuer.Some? && claims.Text("iss") != o.issuer then Err(InvalidToken)
    else if o.audience.Some? && !claims.HasAudience(o.audience.value) then Err(InvalidToken)
    else Ok(claims)
  }

  /** Not expired, and not used too early, each with the leeway; a sum of u64 numbers wraps around. */
  predicate InTimes(c: Claims, now: U64, leeway: U64)
    requires c.WellTyped()
  {
    && ("exp" in c.registered ==> now <= (c.registered["exp"].n + leeway) % 0x1_0000_0000_0000_0000)
    && ("nbf" in c.registered ==> c.registered["nbf"].n <= (now + leeway) % 0x1_0000_0000_0000_0000)
  }

  predicate IssuedBy(c: Claims, issuer: string) {
    "iss" in c.registered && c.registered["iss"] == Str(issuer)
  }

  predicate IssuedFor(c: Claims, audience: string) {
    && "aud" in c.registered
    && var aud := c.registered["aud"];
    aud == Str(audience) || (aud.Arr? && Str(audience) in aud.items)
  }

  /** The conditions on the claims themselves; issuer and audience only where they are asked for. */
  predicate InForce(c: Claims, o: Options)
    requires c.WellTyped()
  {
    && InTimes(c, o.currentTime, o.leeway)
    && (o.issuer.Some? ==> IssuedBy(c, o.issuer.value))
    && (o.audience.Some? ==> IssuedFor(c, o.audience.value))
  }

  lemma TimesExactly(c: Claims, now: U64, leeway: U64)
    requires c.WellTyped()
    ensures var exp, nbf := c.Time("exp"), c.Time("nbf");
            InTimes(c, now, leeway)
            <==> (exp.Some? ==> now <= AddU64(exp.value, leeway)) && (nbf.Some? ==> AddU64(now, leeway) >= nbf.value)
  {
  }

  lemma IssuerExactly(c: Claims, issuer: string)
    ensures IssuedBy(c, issuer) <==> c.Text("iss") == Some(issuer)
  {
  }

  lemma ChecksExactly(c: Claims, o: Options)
    requires c.WellTyped()
    ensures CheckClaims(c, o) == Ok(c) <==> InForce(c, o)
    ensures CheckClaims(c, o).Ok? ==> CheckClaims(c, o) == Ok(c)
  {
    TimesExactly(c, o.currentTime, o.leeway);
    if o.issuer.Some? {
      IssuerExactly(c, o.issuer.value);
    }
  }

  lemma DecodedClaimsProper(lib: Libraries, segment: string)
    ensures DecodeClaims(lib, segment).Some? ==>
              DecodeClaims(lib, segment).value.WellTyped() && DecodeClaims(lib, segment).value.CustomAvoidsRegistered()
  {
    var bytes := Decode(segment);
    if bytes.Some? && lib.parseJson(bytes.value).Some? && lib.parseJson(bytes.value).value.Obj? {
      ReadIsProper(REGISTERED, NO_CLAIMS, {}, lib.parseJson(bytes.value).value.members);
    }
  }

  function VerifyJwt(lib: Libraries, token: string, jwk: Jwk, o: Options): Result<Claims, CryptoError> {
    var parts := Split(token, '.');
    if |parts| != 3 then Err(InvalidToken)
    else
      var header := DecodeHeader(lib, parts[0]);
      if header.None? then Err(InvalidToken)
      else
        var algorithm := ParseAlgorithm(header.value.alg);
        if algorithm.Err? || algorithm.value !in o.allowed then Err(AlgorithmMismatch)
        else if header.value.kid != jwk.kid then Err(Verification)
        else
          var point := JoinedPoint(jwk);
          if point.Err? then Err(point.error)
          else
            var signature := Decode(parts[2]);
            if signature.None? then Err(InvalidToken)
            else if !lib.verify(algorithm.value, point.value, parts[0] + "." + parts[1], signature.value) then
              Err(Verification)
            else
              var claims := DecodeClaims(lib, parts[1]);
              if claims.None? then Err(InvalidToken)
              else
                DecodedClaimsProper(lib, parts[1]);
                CheckClaims(claims.value, o)
  }

  lemma NoDot(b: Bytes)
    ensures '.' !in Encode(b)
  {
    EncodedInAlphabet(b);
    assert !InAlphabet('.');
  }

  lemma TokenSplits(h: Bytes, c: Bytes, s: Bytes)
    ensures Split(Encode(h) + "." + Encode(c) + "." + Encode(s), '.') == [Encode(h), Encode(c), Encode(s)]
  {
    NoDot(h);
    NoDot(c);
    NoDot(s);
    var x, y, z := Encode(h), Encode(c), Encode(s);
    assert x + "." + y + "." + z == x + ['.'] + (y + ['.'] + z);
    SplitFirst(x, y + ['.'] + z, '.');
    SplitFirst(y, z, '.');
    SplitNone(z, '.');
  }

  /** A token whose segments, key point and signature are all in order, so that only its claims decide. */
  ghost predicate Genuine(lib: Libraries, token: string, jwk: Jwk, a: Algorithm, parts: seq<string>,
                          header: JwtHeader, point: Bytes, signature: Bytes)
  {
    && |parts| == 3 && Split(token, '.') == parts
    && DecodeHeader(lib, parts[0]) == Some(header) && ParseAlgorithm(header.alg) == Ok(a) && header.kid == jwk.kid
    && JoinedPoint(jwk) == Ok(point) && Decode(parts[2]) == Some(signature)
    && lib.verify(a, point, parts[0] + "." + parts[1], signature)
  }

  lemma VerifyGenuine(lib: Libraries, token: string, jwk: Jwk, o: Options, a: Algorithm,
                      parts: seq<string>, header: JwtHeader, point: Bytes, signature: Bytes, claims: Option<Claims>)
    requires Genuine(lib, token, jwk, a, parts, header, point, signature)
    requires DecodeClaims(lib, parts[1]) == claims
    ensures claims.Some? ==> claims.value.WellTyped()
    ensures (VerifyJwt(lib, token, jwk, o)
         == if a !in o.allowed then Err(AlgorithmMismatch)
            else if claims.None? then Err(InvalidToken)
            else CheckClaims(claims.value, o))
  {
    DecodedClaimsProper(lib, parts[1]);
  }

  /** The claims are well typed, and their custom values are values of the JSON library. */
  predicate Carried(lib: Libraries, claims: Claims) {
    claims.WellTyped() && forall name | name in claims.custom :: lib.Valid(claims.custom[name])
  }

  /** No custom value is nested too deeply to be read inside the claims object. */
  predicate Shallow(lib: Libraries, claims: Claims) {
    lib.maxDepth > 0 && forall name | name in claims.custom :: lib.Within(claims.custom[name], lib.maxDepth - 1)
  }

  predicate AllValid(lib: Libraries, members: seq<(string, Json)>) {
    forall i | 0 <= i < |members| :: lib.Valid(members[i].1)
  }

  predicate AllWithin(lib: Libraries, members: seq<(string, Json)>, depth: nat) {
    forall i | 0 <= i < |members| :: lib.Within(members[i].1, depth)
  }

  lemma AllCons(lib: Libraries, first: (string, Json), tail: seq<(string, Json)>, depth: nat)
    ensures AllValid(lib, [first] + tail) <==> lib.Valid(first.1) && AllValid(lib, tail)
    ensures AllWithin(lib, [first] + tail, depth) <==> lib.Within(first.1, depth) && AllWithin(lib, tail, depth)
  {
    var all := [first] + tail;
    assert all[0] == first && forall i | 0 <= i < |tail| :: tail[i] == all[i + 1];
  }

  predicate NamedWithin(lib: Libraries, m: map<string, Json>, names: seq<string>, depth: nat) {
    forall name | name in m && name in names :: lib.Within(m[name], depth)
  }

  lemma NamedCons(lib: Libraries, m: map<string, Json>, names: seq<string>, depth: nat)
    requires names != []
    ensures NamedWithin(lib, m, names, depth)
            <==> (names[0] in m ==> lib.Within(m[names[0]], depth)) && NamedWithin(lib, m, names[1..], depth)
  {
    assert forall name :: name in names <==> name == names[0] || name in names[1..];
  }

  /** What the JSON library makes of the members picked from a map is decided by its values. */
  lemma {:induction false} PickCarried(lib: Libraries, m: map<string, Json>, names: seq<string>,
                                       rest: seq<(string, Json)>, depth: nat)
    requires forall name | name in m :: lib.Valid(m[name])
    requires AllValid(lib, rest)
    ensures AllValid(lib, Pick(m, names, rest))
    ensures AllWithin(lib, Pick(m, names, rest), depth) <==>
            AllWithin(lib, rest, depth) && NamedWithin(lib, m, names, depth)
    decreases |names|
  {
    if names == [] {
    } else {
      PickCarried(lib, m, names[1..], rest, depth);
      NamedCons(lib, m, names, depth);
      if names[0] in m {
        AllCons(lib, (names[0], m[names[0]]), Pick(m, names[1..], rest), depth);
      }
    }
  }

  lemma TypedCarried(lib: Libraries, name: string, value: Json, depth: nat)
    requires Typed(name, value) && depth > 0
    ensures lib.Valid(value) && lib.Within(value, depth)
  {
  }

  /** The claims object is a value of the library, and readable exactly if the custom values are shallow. */
  lemma MembersCarried(lib: Libraries, claims: Claims, order: seq<string>)
    requires lib.maxDepth >= 2 && Carried(lib, claims) && Enumerates(order, claims.custom)
    ensures lib.Valid(Obj(Members(claims, order)))
    ensures lib.Within(Obj(Members(claims, order)), lib.maxDepth) <==> Shallow(lib, claims)
  {
    var depth := lib.maxDepth - 1;
    forall name | name in claims.registered
      ensures lib.Valid(claims.registered[name]) && lib.Within(claims.registered[name], depth)
    {
      TypedCarried(lib, name, claims.registered[name], depth);
    }
    PickCarried(lib, claims.custom, order, [], depth);
    PickCarried(lib, claims.registered, REGISTERED, Pick(claims.custom, order, []), depth);
    assert NamedWithin(lib, claims.custom, order, depth) <==> Shallow(lib, claims);
  }

  lemma HeaderCarried(lib: Libraries, header: JwtHeader)
    requires lib.maxDepth >= 2
    ensures lib.Valid(HeaderJson(header)) && lib.Within(HeaderJson(header), lib.maxDepth)
  {
  }

  lemma SegmentsRead(lib: Libraries, header: JwtHeader, claims: Claims, order: seq<string>)
    requires lib.TextLaws() && Carried(lib, claims) && Enumerates(order, claims.custom)
    ensures DecodeHeader(lib, Encode(lib.printJson(HeaderJson(header)))) == Some(header)
    ensures DecodeClaims(lib, Encode(lib.printJson(Obj(Members(claims, order))))) == Some(claims)
            <==> Shallow(lib, claims) && claims.CustomAvoidsRegistered()
  {
    DecodeEncode(lib.printJson(HeaderJson(header)));
    DecodeEncode(lib.printJson(Obj(Members(claims, order))));
    HeaderRoundTrip(header);
    HeaderCarried(lib, header);
    MembersCarried(lib, claims, order);
    ClaimsRoundTrip(claims, order);
  }

  lemma SignatureVerifies(lib: Libraries, a: Algorithm, der: Bytes, msg: string, random: Bytes)
    requires lib.SignLaw() && lib.fromPkcs8(a, der).Some? && lib.sign(lib.fromPkcs8(a, der).value, msg, random).Some?
    ensures var key := lib.fromPkcs8(a, der).value;
            lib.verify(a, lib.publicKey(key), msg, lib.sign(key, msg, random).value)
  {
  }

  /** The three segments of a signed token. */
  lemma SignedSplits(lib: Libraries, header: JwtHeader, claims: Claims, order: seq<string>, signature: Bytes)
    ensures var h, c := Encode(lib.printJson(HeaderJson(header))), Encode(lib.printJson(Obj(Members(claims, order))));
            && SigningInput(lib, header, claims, order) == h + "." + c
            && Split(SigningInput(lib, header, claims, order) + "." + Encode(signature), '.')
               == [h, c, Encode(signature)]
            && Decode(Encode(signature)) == Some(signature)
  {
    TokenSplits(lib.printJson(HeaderJson(header)), lib.printJson(Obj(Members(claims, order))), signature);
    DecodeEncode(signature);
  }

  lemma NameParses(a: Algorithm)
    ensures ParseAlgorithm(AlgorithmName(a)) == Ok(a)
  {
  }

  lemma SignedWith(lib: Libraries, a: Algorithm, kid: string, claims: Claims, order: seq<string>, key: KeyPair,
                   random: Bytes, token: string, header: JwtHeader)
    requires SignJwt(lib, a, kid, claims, order, key, random) == Ok(token)
    requires header == JwtHeader(AlgorithmName(a), "JWT", kid)
    ensures var signed := lib.sign(key, SigningInput(lib, header, claims, order), random);
            signed.Some? && token == SigningInput(lib, header, claims, order) + "." + Encode(signed.value)
  {
  }

  /** What a signing with a header makes is genuine under the JWK of the same key. */
  lemma SignedWithHeader(lib: Libraries, a: Algorithm, der: Bytes, header: JwtHeader, claims: Claims,
                         order: seq<string>, random: Bytes, jwk: Jwk, token: string)
    returns (parts: seq<string>, point: Bytes, signature: Bytes)
    requires lib.Lawful() && PublicJwk(lib, header.kid, a, der) == Ok(jwk) && ParseAlgorithm(header.alg) == Ok(a)
    requires Carried(lib, claims) && Enumerates(order, claims.custom)
    requires var signed := lib.sign(lib.fromPkcs8(a, der).value, SigningInput(lib, header, claims, order), random);
             signed.Some? && token == SigningInput(lib, header, claims, order) + "." + Encode(signed.value)
    ensures Genuine(lib, token, jwk, a, parts, header, point, signature)
    ensures DecodeClaims(lib, parts[1]) == Some(claims) <==> Shallow(lib, claims) && claims.CustomAvoidsRegistered()
  {
    var key, input := lib.fromPkcs8(a, der).value, SigningInput(lib, header, claims, order);
    signature := lib.sign(key, input, random).value;
    point := lib.publicKey(key);
    parts := Split(token, '.');
    SignedSplits(lib, header, claims, order, signature);
    SignatureVerifies(lib, a, der, input, random);
    SegmentsRead(lib, header, claims, order);
    PointRejoins(lib, header.kid, a, der);
  }

  /** A freshly signed token is genuine under the JWK of the same key. */
  lemma SignedIsGenuine(lib: Libraries, a: Algorithm, kid: string, der: Bytes, claims: Claims, order: seq<string>,
                        random: Bytes, jwk: Jwk, token: string)
    returns (parts: seq<string>, header: JwtHeader, point: Bytes, signature: Bytes)
    requires lib.Lawful() && PublicJwk(lib, kid, a, der) == Ok(jwk)
    requires Carried(lib, claims) && Enumerates(order, claims.custom)
    requires SignJwt(lib, a, kid, claims, order, lib.fromPkcs8(a, der).value, random) == Ok(token)
    ensures Genuine(lib, token, jwk, a, parts, header, point, signature)
    ensures header.kid == kid
    ensures DecodeClaims(lib, parts[1]) == Some(claims) <==> Shallow(lib, claims) && claims.CustomAvoidsRegistered()
  {
    header := JwtHeader(AlgorithmName(a), "JWT", kid);
    NameParses(a);
    SignedWith(lib, a, kid, claims, order, lib.fromPkcs8(a, der).value, random, token, header);
    parts, point, signature := SignedWithHeader(lib, a, der, header, claims, order, random, jwk, token);
  }

  /** A genuine token gives certain claims back exactly if they are the ones read and they pass. */
  lemma GivesBack(lib: Libraries, token: string, jwk: Jwk, o: Options, a: Algorithm,
                  parts: seq<string>, header: JwtHeader, point: Bytes, signature: Bytes,
                  read: Option<Claims>, claims: Claims)
    requires claims.WellTyped() && Genuine(lib, token, jwk, a, parts, header, point, signature)
    requires DecodeClaims(lib, parts[1]) == read
    ensures VerifyJwt(lib, token, jwk, o) == Ok(claims) <==>
            a in o.allowed && read == Some(claims) && CheckClaims(claims, o).Ok?
  {
    VerifyGenuine(lib, token, jwk, o, a, parts, header, point, signature, read);
    if read.Some? {
      OkIsSame(read.value, o);
    }
    OkIsSame(claims, o);
  }

  lemma OkIsSame(claims: Claims, o: Options)
    requires claims.WellTyped()
    ensures CheckClaims(claims, o).Ok? ==> CheckClaims(claims, o) == Ok(claims)
  {
  }

  /** Claims without custom ones are always carried. */
  lemma NoCustom(lib: Libraries, claims: Claims)
    requires claims.WellTyped() && claims.custom == map[] && lib.maxDepth > 0
    ensures Carried(lib, claims) && Shallow(lib, claims) && claims.CustomAvoidsRegistered() &&
            Enumerates([], claims.custom)
  {
  }

  /**
   Issue to verify: for all claims, a token signed with a key pair and verified
   with the JWK of the same key gives the claims back exactly when the algorithm
   is allowed, no custom claim takes a registered name or is nested too deeply to
   be read, and the tests on time, issuer and audience pass.
   */
  lemma IssueToVerify(lib: Libraries, a: Algorithm, kid: string, der: Bytes, claims: Claims, order: seq<string>,
                      random: Bytes, jwk: Jwk, token: string, o: Options)
    requires lib.Lawful() && Carried(lib, claims) && Enumerates(order, claims.custom)
    requires PublicJwk(lib, kid, a, der) == Ok(jwk)
    requires SignJwt(lib, a, kid, claims, order, lib.fromPkcs8(a, der).value, random) == Ok(token)
    ensures VerifyJwt(lib, token, jwk, o) == Ok(claims)
            <==> a in o.allowed && claims.CustomAvoidsRegistered() && Shallow(lib, claims) && InForce(claims, o)
  {
    var parts, header, point, signature := SignedIsGenuine(lib, a, kid, der, claims, order, random, jwk, token);
    GivesBack(lib, token, jwk, o, a, parts, header, point, signature, DecodeClaims(lib, parts[1]), claims);
    ChecksExactly(claims, o);
  }
}
