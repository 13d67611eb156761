/**
 What an accepted token is. For every text whatsoever, `verify_jwt`
 (services/identity/src/crypto/jwt.rs) and `authenticate`
 (services/identity/src/services/auth.rs) accept it exactly if it has a form that is
 stated here without either: three segments, a header that names the key and its
 algorithm, claims that are in force, and a signature over both that the key verifies.
 */
module Acceptance {
  import opened Basics
  import opened Base64Url
  import opened Libraries
  import opened Text
  import opened Jwt
  import opened Auth

  // ----- claims and header, read from JSON -----

  /** Every field's name stands at most once, not at all if in `seen`, with null or a value of the field's type. */
  predicate Clear(fields: seq<string>, seen: set<string>, members: seq<(string, Json)>) {
    forall i | 0 <= i < |members| && members[i].0 in fields ::
      && members[i].0 !in seen
      && (members[i].1 == Null || Typed(members[i].0, members[i].1))
      && forall j | i < j < |members| :: members[j].0 != members[i].0
  }

  function At(m: map<string, Json>, name: string): Option<Json> {
    if name in m then Some(m[name]) else None
  }

  /** A field has its last value, unless that is null, and else what it had before; so has any other name. */
  ghost predicate Extends(fields: seq<string>, acc: Claims, members: seq<(string, Json)>, c: Claims) {
    forall name: string ::
      && (At(c.registered, name)
          == if name in fields && Last(members, name).Some? && Last(members, name) != Some(Null)
             then Last(members, name) else At(acc.registered, name))
      && (At(c.custom, name)
          == if name !in fields && Last(members, name).Some? then Last(members, name) else At(acc.custom, name))
  }

  lemma ClearStep(fields: seq<string>, seen: set<string>, members: seq<(string, Json)>)
    requires members != []
    ensures var (name, value) := members[0];
            Clear(fields, seen, members)
            <==> if name in fields
                 then
                   && name !in seen && (value == Null || Typed(name, value))
                   && Clear(fields, seen + {name}, members[1..])
                 else Clear(fields, seen, members[1..])
  {
    var tail := members[1..];
    forall i | 0 <= i < |tail| ensures tail[i] == members[i + 1] {
    }
    if Clear(fields, seen, members) {
      forall i | 0 <= i < |tail| && tail[i].0 in fields
        ensures tail[i].0 !in seen && (members[0].0 in fields ==> tail[i].0 != members[0].0)
        ensures tail[i].1 == Null || Typed(tail[i].0, tail[i].1)
        ensures forall j | i < j < |tail| :: tail[j].0 != tail[i].0
      {
        assert members[i + 1].0 in fields;
      }
    } else {
      var i :| 0 <= i < |members| && members[i].0 in fields &&
        !(members[i].0 !in seen && (members[i].1 == Null || Typed(members[i].0, members[i].1))
          && forall j | i < j < |members| :: members[j].0 != members[i].0);
      if i > 0 {
        assert tail[i - 1] == members[i];
      }
    }
  }

  lemma ExtendsStep(fields: seq<string>, acc: Claims, acc': Claims, members: seq<(string, Json)>, c: Claims)
    requires members != []
    requires var (name, value) := members[0];
             acc' == if name !in fields then acc.(custom := acc.custom[name := value])
                     else if value == Null then acc
                     else acc.(registered := acc.registered[name := value])
    requires members[0].0 in fields ==> Last(members[1..], members[0].0) == None
    ensures Extends(fields, acc, members, c) <==> Extends(fields, acc', members[1..], c)
  {
  }

  lemma {:induction false} NotLast(members: seq<(string, Json)>, name: string)
    ensures Last(members, name) == None <==> forall i | 0 <= i < |members| :: members[i].0 != name
  {
    if members == [] {
    } else {
      NotLast(members[1..], name);
      forall i | 0 < i < |members| ensures members[i] == members[1..][i - 1] {
      }
    }
  }

  lemma {:induction false} ReadExactly(fields: seq<string>, acc: Claims, seen: set<string>,
                                       members: seq<(string, Json)>, c: Claims)
    ensures Read(fields, acc, seen, members) == Some(c)
            <==> Clear(fields, seen, members) && Extends(fields, acc, members, c)
    decreases |members|
  {
    if members == [] {
      if Extends(fields, acc, members, c) {
        SameClaims(acc, c);
      }
    } else {
      var (name, value) := members[0];
      ClearStep(fields, seen, members);
      NotLast(members[1..], name);
      if name !in fields {
        ReadExactly(fields, acc.(custom := acc.custom[name := value]), seen, members[1..], c);
        ExtendsStep(fields, acc, acc.(custom := acc.custom[name := value]), members, c);
      } else if name !in seen && (value == Null || Typed(name, value)) {
        var acc' := if value == Null then acc else acc.(registered := acc.registered[name := value]);
        ReadExactly(fields, acc', seen + {name}, members[1..], c);
        if Clear(fields, seen + {name}, members[1..]) {
          ExtendsStep(fields, acc, acc', members, c);
        }
      }
    }
  }

  lemma SameClaims(acc: Claims, c: Claims)
    requires forall name: string ::
               At(c.registered, name) == At(acc.registered, name) && At(c.custom, name) == At(acc.custom, name)
    ensures c == acc
  {
    forall name: string
      ensures (name in c.registered <==> name in acc.registered) && (name in c.custom <==> name in acc.custom)
      ensures name in acc.registered ==> c.registered[name] == acc.registered[name]
      ensures name in acc.custom ==> c.custom[name] == acc.custom[name]
    {
      assert At(c.registered, name) == At(acc.registered, name) && At(c.custom, name) == At(acc.custom, name);
    }
    assert c.registered == acc.registered && c.custom == acc.custom;
  }

  /** The object's claims: the last value of every name, except that a null stands for no claim. */
  ghost predicate ClaimsAre(lib: Libraries, segment: string, c: Claims) {
    && Decode(segment).Some?
    && match lib.parseJson(Decode(segment).value)
       case Some(Obj(members)) => Clear(REGISTERED, {}, members) && Extends(REGISTERED, NO_CLAIMS, members, c)
       case _ => false
  }

  lemma ClaimsExactly(lib: Libraries, segment: string, c: Claims)
    ensures DecodeClaims(lib, segment) == Some(c) <==> ClaimsAre(lib, segment, c)
  {
    if Decode(segment).Some? {
      var j := lib.parseJson(Decode(segment).value);
      if j.Some? && j.value.Obj? {
        ReadExactly(REGISTERED, NO_CLAIMS, {}, j.value.members, c);
      }
    }
  }

  /** The object has one member of the name, with this value. */
  predicate OnlyMember(members: seq<(string, Json)>, name: string, value: Json) {
    exists i | 0 <= i < |members| ::
      members[i] == (name, value) && forall j | 0 <= j < |members| && j != i :: members[j].0 != name
  }

  lemma OnlyMemberStep(members: seq<(string, Json)>, name: string, value: Json)
    requires members != []
    ensures OnlyMember(members, name, value)
            <==> if members[0].0 == name then members[0].1 == value && Last(members[1..], name) == None
                 else OnlyMember(members[1..], name, value)
  {
    var tail := members[1..];
    NotLast(tail, name);
    forall i | 0 <= i < |tail| ensures tail[i] == members[i + 1] {
    }
    if OnlyMember(members, name, value) {
      var i :| 0 <= i < |members| && members[i] == (name, value)
        && forall j | 0 <= j < |members| && j != i :: members[j].0 != name;
      if i > 0 {
        assert tail[i - 1] == (name, value);
      }
    }
  }

  lemma {:induction false} CountedOnce(members: seq<(string, Json)>, name: string, value: Json)
    ensures Count(members, name) == 0 <==> Last(members, name) == None
    ensures OnlyMember(members, name, value) <==> Count(members, name) == 1 && Last(members, name) == Some(value)
    decreases |members|
  {
    if members == [] {
    } else {
      OnlyMemberStep(members, name, value);
      CountedOnce(members[1..], name, value);
    }
  }

  lemma OnlyTextExactly(members: seq<(string, Json)>, name: string, text: string)
    ensures OnlyText(members, name) == Some(text) <==> OnlyMember(members, name, Str(text))
  {
    CountedOnce(members, name, Str(text));
  }

  /** The segment is an object with each of the three fields once, or an array of the three, as text. */
  predicate HeaderIs(lib: Libraries, segment: string, h: JwtHeader) {
    && Decode(segment).Some?
    && match lib.parseJson(Decode(segment).value)
       case Some(Obj(members)) =>
         && OnlyMember(members, "alg", Str(h.alg))
         && OnlyMember(members, "typ", Str(h.typ))
         && OnlyMember(members, "kid", Str(h.kid))
       case Some(Arr(items)) => items == [Str(h.alg), Str(h.typ), Str(h.kid)]
       case _ => false
  }

  lemma HeaderExactly(lib: Libraries, segment: string, h: JwtHeader)
    ensures DecodeHeader(lib, segment) == Some(h) <==> HeaderIs(lib, segment, h)
  {
    if Decode(segment).Some? {
      var j := lib.parseJson(Decode(segment).value);
      if j.Some? && j.value.Obj? {
        OnlyTextExactly(j.value.members, "alg", h.alg);
        OnlyTextExactly(j.value.members, "typ", h.typ);
        OnlyTextExactly(j.value.members, "kid", h.kid);
      }
    }
  }

  // ----- verify_jwt -----

  /** The header names the algorithm and the key. */
  predicate Names(h: JwtHeader, a: Algorithm, jwk: Jwk) {
    h.kid == jwk.kid && h.alg == if a == ES256 then "ES256" else "ES384"
  }

  /** The third segment is a signature over the other two that verifies under the point of the key. */
  predicate SignatureHolds(lib: Libraries, h: string, c: string, s: string, a: Algorithm, jwk: Jwk) {
    && Decode(s).Some? && Decode(jwk.x).Some? && Decode(jwk.y).Some?
    && lib.verify(a, [0x04] + Decode(jwk.x).value + Decode(jwk.y).value, h + "." + c, Decode(s).value)
  }

  /** The segments make a token that this key signed for these claims, which are in force. */
  ghost predicate SignedFor(lib: Libraries, h: string, c: string, s: string, header: JwtHeader, a: Algorithm,
                            jwk: Jwk, claims: Claims, o: Options)
  {
    && '.' !in h && '.' !in c && '.' !in s
    && HeaderIs(lib, h, header) && Names(header, a, jwk) && a in o.allowed
    && SignatureHolds(lib, h, c, s, a, jwk)
    && ClaimsAre(lib, c, claims) && claims.WellTyped() && InForce(claims, o)
  }

  lemma ThreeSegments(h: string, c: string, s: string)
    requires '.' !in h && '.' !in c && '.' !in s
    ensures Split(h + "." + c + "." + s, '.') == [h, c, s]
  {
    assert h + "." + c + "." + s == h + ['.'] + (c + ['.'] + s);
    SplitFirst(h, c + ['.'] + s, '.');
    SplitFirst(c, s, '.');
    SplitNone(s, '.');
  }

  lemma SplitInThree(token: string)
    requires |Split(token, '.')| == 3
    ensures var parts := Split(token, '.'); token == parts[0] + "." + parts[1] + "." + parts[2]
  {
    var parts := Split(token, '.');
    SplitJoins(token, '.');
    assert parts[1..][1..] == [parts[2]];
    assert Joined(parts[1..], '.') == parts[1] + ['.'] + parts[2];
  }

  lemma NameExactly(alg: string, a: Algorithm)
    ensures ParseAlgorithm(alg) == Ok(a) <==> alg == if a == ES256 then "ES256" else "ES384"
  {
  }

  /** On a token of three segments, every test of `verify_jwt` is one of the conditions. */
  lemma VerifyParts(lib: Libraries, token: string, h: string, c: string, s: string, header: JwtHeader, a: Algorithm,
                    jwk: Jwk, claims: Claims, o: Options)
    requires Split(token, '.') == [h, c, s]
    requires DecodeHeader(lib, h) == Some(header) && ParseAlgorithm(header.alg) == Ok(a)
    ensures '.' !in h && '.' !in c && '.' !in s
    ensures VerifyJwt(lib, token, jwk, o) == Ok(claims)
            <==> a in o.allowed && header.kid == jwk.kid && SignatureHolds(lib, h, c, s, a, jwk)
                 && DecodeClaims(lib, c) == Some(claims) && claims.WellTyped() && InForce(claims, o)
  {
    var parts := Split(token, '.');
    assert '.' !in parts[0] && '.' !in parts[1] && '.' !in parts[2];
    DecodedClaimsProper(lib, c);
    if DecodeClaims(lib, c).Some? {
      ChecksExactly(DecodeClaims(lib, c).value, o);
    }
  }

  /**
   Verification, for every text: it gives these claims exactly if the text is three
   segments of which the first names the key and an allowed algorithm, the second
   holds the claims, which are in force, and the third is a signature of both that
   verifies under the point of the key. So nothing unsigned is ever accepted.
   */
  lemma VerifyExactly(lib: Libraries, token: string, jwk: Jwk, o: Options, claims: Claims)
    ensures VerifyJwt(lib, token, jwk, o) == Ok(claims)
            <==> exists h, c, s, header, a ::
                   SignedFor(lib, h, c, s, header, a, jwk, claims, o) && token == h + "." + c + "." + s
  {
    if VerifyJwt(lib, token, jwk, o) == Ok(claims) {
      var parts := Split(token, '.');
      var header := DecodeHeader(lib, parts[0]).value;
      var a := ParseAlgorithm(header.alg).value;
      SplitInThree(token);
      assert parts == [parts[0], parts[1], parts[2]];
      VerifyParts(lib, token, parts[0], parts[1], parts[2], header, a, jwk, claims, o);
      HeaderExactly(lib, parts[0], header);
      ClaimsExactly(lib, parts[1], claims);
      NameExactly(header.alg, a);
      assert SignedFor(lib, parts[0], parts[1], parts[2], header, a, jwk, claims, o);
    }
    if h, c, s, header, a :| SignedFor(lib, h, c, s, header, a, jwk, claims, o) && token == h + "." + c + "." + s {
      ThreeSegments(h, c, s);
      HeaderExactly(lib, h, header);
      ClaimsExactly(lib, c, claims);
      NameExactly(header.alg, a);
      VerifyParts(lib, token, h, c, s, header, a, jwk, claims, o);
    }
  }

  // ----- authenticate -----

  function Rules(now: U64): Options {
    Options({ES256, ES384}, Some("https://home.ryanseipp.com"), Some("https://api.home.ryanseipp.com"), now, 30)
  }

  /** The header carries a token, signed with the first listed key of its key id, for claims of the user in force. */
  ghost predicate Proven(lib: Libraries, authorization: Option<string>, jwks: seq<Jwk>, now: U64, user: Uuid,
                         token: string, i: nat, claims: Claims)
  {
    && authorization == Some("Bearer " + token)
    && i < |jwks| && (forall j | 0 <= j < i :: jwks[j].kid != jwks[i].kid)
    && (exists h, c, s, header, a ::
          SignedFor(lib, h, c, s, header, a, jwks[i], claims, Rules(now)) && token == h + "." + c + "." + s)
    && "sub" in claims.registered && claims.registered["sub"].Str?
    && lib.parseUuid(claims.registered["sub"].s) == Some(user)
  }

  lemma {:induction false} FindKeyExactly(jwks: seq<Jwk>, kid: string, i: nat)
    requires i < |jwks| && jwks[i].kid == kid && forall j | 0 <= j < i :: jwks[j].kid != kid
    ensures FindKey(jwks, kid) == Some(jwks[i])
  {
    if i == 0 {
    } else {
      FindKeyExactly(jwks[1..], kid, i - 1);
    }
  }

  lemma {:induction false} FoundFirst(jwks: seq<Jwk>, kid: string) returns (i: nat)
    requires FindKey(jwks, kid).Some?
    ensures i < |jwks| && jwks[i] == FindKey(jwks, kid).value && jwks[i].kid == kid
    ensures forall j | 0 <= j < i :: jwks[j].kid != kid
  {
    if jwks[0].kid == kid {
      i := 0;
    } else {
      i := FoundFirst(jwks[1..], kid);
      i := i + 1;
    }
  }

  lemma RulesAre(now: U64)
    ensures AuthOptions(now) == Rules(now)
  {
  }

  lemma BearerExactly(authorization: Option<string>, token: string)
    ensures BearerToken(authorization) == Ok(token) <==> authorization == Some("Bearer " + token)
  {
    if authorization == Some("Bearer " + token) {
      assert ("Bearer " + token)[|BEARER|..] == token;
    }
    if BearerToken(authorization) == Ok(token) {
      assert authorization.value == BEARER + authorization.value[|BEARER|..];
    }
  }

  lemma SubExactly(lib: Libraries, claims: Claims, user: Uuid)
    ensures "sub" in claims.registered && claims.registered["sub"].Str?
            && lib.parseUuid(claims.registered["sub"].s) == Some(user)
            <==> claims.Text("sub").Some? && lib.parseUuid(claims.Text("sub").value) == Some(user)
  {
  }

  /** A verified token's first segment names the key that verified it. */
  lemma VerifiedNames(lib: Libraries, token: string, jwk: Jwk, o: Options)
    requires VerifyJwt(lib, token, jwk, o).Ok?
    ensures var header := DecodeHeader(lib, Split(token, '.')[0]); header.Some? && header.value.kid == jwk.kid
  {
  }

  lemma AuthenticateParts(lib: Libraries, authorization: Option<string>, jwks: seq<Jwk>, now: U64, user: Uuid)
    ensures Authenticate(lib, authorization, jwks, now) == Ok(user)
            <==> BearerToken(authorization).Ok?
                 && var token := BearerToken(authorization).value;
                    && SelectKey(lib, token, jwks).Ok?
                    && var claims := VerifyJwt(lib, token, SelectKey(lib, token, jwks).value, AuthOptions(now));
                       && claims.Ok? && claims.value.Text("sub").Some?
                       && lib.parseUuid(claims.value.Text("sub").value) == Some(user)
  {
  }

  lemma PassedIsProven(lib: Libraries, authorization: Option<string>, jwks: seq<Jwk>, now: U64, user: Uuid)
    returns (token: string, i: nat, claims: Claims)
    requires Authenticate(lib, authorization, jwks, now) == Ok(user)
    ensures Proven(lib, authorization, jwks, now, user, token, i, claims)
  {
    AuthenticateParts(lib, authorization, jwks, now, user);
    RulesAre(now);
    token := BearerToken(authorization).value;
    BearerExactly(authorization, token);
    i := FoundFirst(jwks, DecodeHeader(lib, Split(token, '.')[0]).value.kid);
    claims := VerifyJwt(lib, token, jwks[i], Rules(now)).value;
    VerifyExactly(lib, token, jwks[i], Rules(now), claims);
    SubExactly(lib, claims, user);
  }

  lemma ProvenPasses(lib: Libraries, authorization: Option<string>, jwks: seq<Jwk>, now: U64, user: Uuid,
                     token: string, i: nat, claims: Claims)
    requires Proven(lib, authorization, jwks, now, user, token, i, claims)
    ensures Authenticate(lib, authorization, jwks, now) == Ok(user)
  {
    AuthenticateParts(lib, authorization, jwks, now, user);
    RulesAre(now);
    BearerExactly(authorization, token);
    VerifyExactly(lib, token, jwks[i], Rules(now), claims);
    VerifiedNames(lib, token, jwks[i], Rules(now));
    FindKeyExactly(jwks, jwks[i].kid, i);
    SubExactly(lib, claims, user);
  }

  /**
   Authentication, for every header and every list of keys: a user comes out exactly
   if the header carries a token signed with the first listed key of the token's key
   id, by the issuer and for the audience, within its times up to 30 seconds, and
   whose subject is that user.
   */
  lemma AuthenticateExactly(lib: Libraries, authorization: Option<string>, jwks: seq<Jwk>, now: U64, user: Uuid)
    ensures Authenticate(lib, authorization, jwks, now) == Ok(user)
            <==> exists token, i, claims :: Proven(lib, authorization, jwks, now, user, token, i, claims)
  {
    if Authenticate(lib, authorization, jwks, now) == Ok(user) {
      var token, i, claims := PassedIsProven(lib, authorization, jwks, now, user);
    }
    if token, i: nat, claims :| Proven(lib, authorization, jwks, now, user, token, i, claims) {
      ProvenPasses(lib, authorization, jwks, now, user, token, i, claims);
    }
  }

  // ----- the gateway's reading -----

  /** The object's last member of the name has this value. */
  predicate LastMember(members: seq<(string, Json)>, name: string, value: Json) {
    exists i | 0 <= i < |members| ::
      members[i] == (name, value) && forall j | i < j < |members| :: members[j].0 != name
  }

  lemma {:induction false} LastExactly(members: seq<(string, Json)>, name: string, value: Json)
    ensures Last(members, name) == Some(value) <==> LastMember(members, name, value)
    decreases |members|
  {
    if members == [] {
    } else {
      var tail := members[1..];
      LastExactly(tail, name, value);
      NotLast(tail, name);
      forall i | 0 <= i < |tail| ensures tail[i] == members[i + 1] {
      }
      if LastMember(tail, name, value) {
        var i :| 0 <= i < |tail| && tail[i] == (name, value) && forall j | i < j < |tail| :: tail[j].0 != name;
        assert members[i + 1] == (name, value);
      }
      if LastMember(members, name, value) {
        var i :| 0 <= i < |members| && members[i] == (name, value)
          && forall j | i < j < |members| :: members[j].0 != name;
        assert i > 0 ==> tail[i - 1] == (name, value);
      } else if Last(tail, name) == None && members[0].0 == name {
        assert members[0] != (name, value);
      }
    }
  }

  /** The segment is an object whose last `sub` is the user's id as text. */
  predicate NamesUser(lib: Libraries, segment: string, user: Uuid, text: string) {
    && Decode(segment).Some? && lib.parseUuid(text) == Some(user)
    && match lib.parseJson(Decode(segment).value)
       case Some(Obj(members)) => LastMember(members, "sub", Str(text))
       case _ => false
  }

  /** The gateway takes the user from the second of at least two segments, and asks for nothing else. */
  lemma DecodeSubExactly(lib: Libraries, token: string, user: Uuid)
    ensures DecodeSub(lib, token) == Ok(user)
            <==> |Split(token, '.')| >= 2 && exists text :: NamesUser(lib, Split(token, '.')[1], user, text)
  {
    var parts := Split(token, '.');
    if |parts| >= 2 && Decode(parts[1]).Some? {
      var j := lib.parseJson(Decode(parts[1]).value);
      if j.Some? && j.value.Obj? {
        SubMember(lib, parts[1], j.value.members, user);
      }
    }
  }

  lemma SubMember(lib: Libraries, segment: string, members: seq<(string, Json)>, user: Uuid)
    requires Decode(segment).Some? && lib.parseJson(Decode(segment).value) == Some(Obj(members))
    ensures (exists text :: NamesUser(lib, segment, user, text))
            <==> var sub := Last(members, "sub");
                 sub.Some? && sub.value.Str? && lib.parseUuid(sub.value.s) == Some(user)
  {
    var sub := Last(members, "sub");
    if sub.Some? {
      LastExactly(members, "sub", sub.value);
      if sub.value.Str? && lib.parseUuid(sub.value.s) == Some(user) {
        assert NamesUser(lib, segment, user, sub.value.s);
      }
    }
    if text :| NamesUser(lib, segment, user, text) {
      LastExactly(members, "sub", Str(text));
    }
  }
}
