/**
 The libraries the identity service and the gateway rely on, as functions with
 the laws the code needs: ECDSA, AES-256-GCM, JSON text and UUID text. SHA-256 is
 a constructor, so that distinct inputs have distinct digests.
 */
module Libraries {
  import opened Basics
  import opened Base64Url

  datatype Algorithm = ES256 | ES384

  datatype KeyPair = KeyPair(secret: Bytes)

  datatype Digest = Sha256(preimage: Bytes)

  type Uuid = nat

  type U64 = n: nat | n < TWO_TO_THE_64 witness 0

  const TWO_TO_THE_64: nat := 0x1_0000_0000_0000_0000

  /** `+` on u64 in a release build, which wraps around. */
  function AddU64(a: U64, b: U64): U64 {
    (a + b) % TWO_TO_THE_64
  }

  /** A JSON value; an object keeps its members in text order, duplicates included. */
  datatype Json =
    | Null
    | Bool(b: bool)
    | Uint(n: nat)
    | OtherNumber(text: string)
    | Str(s: string)
    | Arr(items: seq<Json>)
    | Obj(members: seq<(string, Json)>)

  /**
   `numeral` says which texts the library writes for numbers that are no u64, and
   `maxDepth` how many arrays and objects it reads inside each other.
   */
  datatype Libraries = Libraries(
    printJson: Json -> Bytes,
    parseJson: Bytes -> Option<Json>,
    numeral: string -> bool,
    maxDepth: nat,
    fromPkcs8: (Algorithm, Bytes) -> Option<KeyPair>,
    publicKey: KeyPair -> Bytes,
    sign: (KeyPair, string, Bytes) -> Option<Bytes>,
    verify: (Algorithm, Bytes, string, Bytes) -> bool,
    seal: (Bytes, Bytes, string, Bytes) -> Bytes,
    open: (Bytes, Bytes, string, Bytes) -> Option<Bytes>,
    printUuid: Uuid -> string,
    parseUuid: string -> Option<Uuid>)
  {
    /** A value of the library: u64 numbers as such, all others as it writes them. */
    predicate Valid(j: Json)
      decreases j
    {
      match j
      case Uint(n) => n < TWO_TO_THE_64
      case OtherNumber(text) => numeral(text)
      case Arr(items) => forall i | 0 <= i < |items| :: Valid(items[i])
      case Obj(members) => forall i | 0 <= i < |members| :: Valid(members[i].1)
      case _ => true
    }

    /** At most `depth` arrays and objects stand inside each other. */
    predicate Within(j: Json, depth: nat)
      decreases j
    {
      match j
      case Arr(items) => depth > 0 && forall i | 0 <= i < |items| :: Within(items[i], depth - 1)
      case Obj(members) => depth > 0 && forall i | 0 <= i < |members| :: Within(members[i].1, depth - 1)
      case _ => true
    }

    /** Reading what was written gives back the value, or nothing when it is nested too deeply. */
    ghost predicate TextLaws() {
      && maxDepth >= 2
      && (forall j | Valid(j) :: parseJson(printJson(j)) == if Within(j, maxDepth) then Some(j) else None)
      && (forall u: Uuid :: parseUuid(printUuid(u)) == Some(u))
    }

    /** A signature verifies under the public key of the pair that made it. */
    ghost predicate SignLaw() {
      forall a, der, msg, random ::
        fromPkcs8(a, der).Some? && sign(fromPkcs8(a, der).value, msg, random).Some? ==>
          verify(a, publicKey(fromPkcs8(a, der).value), msg, sign(fromPkcs8(a, der).value, msg, random).value)
    }

    /** Opening undoes sealing under the same 32-byte key, 12-byte nonce and additional data; the tag adds 16 bytes. */
    ghost predicate SealLaw() {
      forall key, nonce, aad, plain {:trigger seal(key, nonce, aad, plain)} | |key| == 32 && |nonce| == 12 ::
        && open(key, nonce, aad, seal(key, nonce, aad, plain)) == Some(plain)
        && |seal(key, nonce, aad, plain)| == |plain| + 16
    }

    /**
     What opens is what was sealed under the same key, nonce and additional data; and
     nothing is sealed alike under others (no collisions, as with SHA-256).
     */
    ghost predicate SealBinds() {
      && (forall key, nonce, aad, data {:trigger open(key, nonce, aad, data)} | |key| == 32 && |nonce| == 12 ::
            open(key, nonce, aad, data).Some? ==> data == seal(key, nonce, aad, open(key, nonce, aad, data).value))
      && (forall key, key', nonce, aad, aad', plain, plain'
            {:trigger seal(key, nonce, aad, plain), seal(key', nonce, aad', plain')}
            | |key| == 32 && |key'| == 32 && |nonce| == 12 ::
            seal(key, nonce, aad, plain) == seal(key', nonce, aad', plain') ==>
              key == key' && aad == aad' && plain == plain')
    }

    ghost predicate Lawful() {
      TextLaws() && SignLaw() && SealLaw()
    }
  }
}
