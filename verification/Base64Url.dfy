/**
 base64url without padding (section 5 of RFC 4648, padding left out as section
 3.2 allows), as `Base64UrlUnpadded` of the base64ct library does it: decoding is
 strict about trailing bits, so every text has at most one meaning and every
 meaning one text.
 */
module Base64Url {
  import opened Basics

  type Byte = b: int | 0 <= b < 256 witness 0
  type Bytes = seq<Byte>
  type Digit = d: int | 0 <= d < 64 witness 0

  function CharOf(d: Digit): char {
    if d < 26 then 'A' + d as char
    else if d < 52 then 'a' + (d - 26) as char
    else if d < 62 then '0' + (d - 52) as char
    else if d == 62 then '-' else '_'
  }

  function DigitOf(c: char): Option<Digit> {
    if 'A' <= c <= 'Z' then Some(c as int - 'A' as int)
    else if 'a' <= c <= 'z' then Some(c as int - 'a' as int + 26)
    else if '0' <= c <= '9' then Some(c as int - '0' as int + 52)
    else if c == '-' then Some(62) else if c == '_' then Some(63) else None
  }

  predicate InAlphabet(c: char) {
    DigitOf(c).Some?
  }

  /** The digits of a last group of one byte, of two bytes, and of a full group of three. */
  function Digits1(b0: Byte): seq<Digit> {
    [b0 / 4, b0 % 4 * 16]
  }

  function Digits2(b0: Byte, b1: Byte): seq<Digit> {
    [b0 / 4, b0 % 4 * 16 + b1 / 16, b1 % 16 * 4]
  }

  function Digits3(b0: Byte, b1: Byte, b2: Byte): seq<Digit> {
    [b0 / 4, b0 % 4 * 16 + b1 / 16, b1 % 16 * 4 + b2 / 64, b2 % 64]
  }

  /** The bytes of a group of two, three or four digits; the bits left over must be zero. */
  function Bytes1(d: seq<Digit>): Option<Bytes>
    requires |d| == 2
  {
    var x: int, y: int := d[0], d[1];
    var b0: Byte := x * 4 + y / 16;
    if d[1] % 16 == 0 then Some([b0]) else None
  }

  function Bytes2(d: seq<Digit>): Option<Bytes>
    requires |d| == 3
  {
    var x: int, y: int, z: int := d[0], d[1], d[2];
    var b0: Byte, b1: Byte := x * 4 + y / 16, y % 16 * 16 + z / 4;
    if d[2] % 4 == 0 then Some([b0, b1]) else None
  }

  function Bytes3(d: seq<Digit>): Bytes
    requires |d| == 4
  {
    var x: int, y: int, z: int, w: int := d[0], d[1], d[2], d[3];
    var b0: Byte, b1: Byte, b2: Byte := x * 4 + y / 16, y % 16 * 16 + z / 4, z % 4 * 64 + w;
    [b0, b1, b2]
  }

  function ToDigits(b: Bytes): seq<Digit> {
    if |b| == 0 then []
    else if |b| == 1 then Digits1(b[0])
    else if |b| == 2 then Digits2(b[0], b[1])
    else Digits3(b[0], b[1], b[2]) + ToDigits(b[3..])
  }

  function FromDigits(d: seq<Digit>): Option<Bytes> {
    if |d| == 0 then Some([])
    else if |d| == 1 then None
    else if |d| == 2 then Bytes1(d)
    else if |d| == 3 then Bytes2(d)
    else
      var tail := FromDigits(d[4..]);
      if tail.Some? then Some(Bytes3(d[..4]) + tail.value) else None
  }

  function Encode(b: Bytes): string {
    var d := ToDigits(b);
    seq(|d|, i requires 0 <= i < |d| => CharOf(d[i]))
  }

  function DigitsOf(s: string): (d: seq<Digit>)
    requires forall c | c in s :: InAlphabet(c)
    ensures |d| == |s| && forall i | 0 <= i < |s| :: DigitOf(s[i]) == Some(d[i])
  {
    if s == "" then []
    else
      assert InAlphabet(s[0]);
      var first: Digit := DigitOf(s[0]).value;
      [first] + DigitsOf(s[1..])
  }

  function Decode(s: string): Option<Bytes> {
    if forall c | c in s :: InAlphabet(c) then FromDigits(DigitsOf(s)) else None
  }

  lemma CharDigit(d: Digit)
    ensures DigitOf(CharOf(d)) == Some(d)
  {
  }

  lemma DigitChar(c: char)
    requires InAlphabet(c)
    ensures CharOf(DigitOf(c).value) == c
  {
  }

  /** A number of two parts falls apart into them. */
  lemma Parts(high: int, low: int)
    ensures 0 <= low < 4 ==> (high * 4 + low) / 4 == high && (high * 4 + low) % 4 == low
    ensures 0 <= low < 16 ==> (high * 16 + low) / 16 == high && (high * 16 + low) % 16 == low
    ensures 0 <= low < 64 ==> (high * 64 + low) / 64 == high && (high * 64 + low) % 64 == low
  {
  }

  lemma Group1(b0: Byte, d: seq<Digit>)
    requires |d| == 2
    ensures Bytes1(Digits1(b0)) == Some([b0])
    ensures Bytes1(d).Some? ==> Digits1(Bytes1(d).value[0]) == d
  {
  }

  lemma Group2(b0: Byte, b1: Byte, d: seq<Digit>)
    requires |d| == 3
    ensures Bytes2(Digits2(b0, b1)) == Some([b0, b1])
    ensures Bytes2(d).Some? ==> Digits2(Bytes2(d).value[0], Bytes2(d).value[1]) == d
  {
    Parts(b0 % 4, b1 / 16);
    Parts(d[0], d[1] / 16);
    Parts(d[1] % 16, d[2] / 4);
  }

  lemma Group3Bytes(b0: Byte, b1: Byte, b2: Byte)
    ensures Bytes3(Digits3(b0, b1, b2)) == [b0, b1, b2]
  {
    Parts(b0 % 4, b1 / 16);
    Parts(b1 % 16, b2 / 64);
  }

  lemma Group3Digits(d: seq<Digit>)
    requires |d| == 4
    ensures Digits3(Bytes3(d)[0], Bytes3(d)[1], Bytes3(d)[2]) == d
  {
    Parts(d[0], d[1] / 16);
    Parts(d[1] % 16, d[2] / 4);
    Parts(d[2] % 4, d[3]);
  }

  /** A full group in front is decoded by itself. */
  lemma FullGroup(group: seq<Digit>, rest: seq<Digit>)
    requires |group| == 4 && FromDigits(rest).Some?
    ensures FromDigits(group + rest) == Some(Bytes3(group) + FromDigits(rest).value)
  {
    assert (group + rest)[..4] == group && (group + rest)[4..] == rest;
  }

  lemma {:induction false} DigitsBack(b: Bytes)
    ensures FromDigits(ToDigits(b)) == Some(b)
  {
    if |b| == 0 {
    } else if |b| == 1 {
      Group1(b[0], Digits1(b[0]));
      assert b == [b[0]];
    } else if |b| == 2 {
      Group2(b[0], b[1], Digits2(b[0], b[1]));
      assert b == [b[0], b[1]];
    } else {
      Group3Bytes(b[0], b[1], b[2]);
      DigitsBack(b[3..]);
      FullGroup(Digits3(b[0], b[1], b[2]), ToDigits(b[3..]));
      assert [b[0], b[1], b[2]] + b[3..] == b;
    }
  }

  lemma {:induction false} BytesBack(d: seq<Digit>)
    requires FromDigits(d).Some?
    ensures ToDigits(FromDigits(d).value) == d
  {
    if |d| == 0 {
    } else if |d| == 2 {
      Group1(0, d);
    } else if |d| == 3 {
      Group2(0, 0, d);
    } else {
      var tail := FromDigits(d[4..]).value;
      Group3Digits(d[..4]);
      BytesBack(d[4..]);
      var b := Bytes3(d[..4]) + tail;
      assert b[3..] == tail;
      assert d[..4] + d[4..] == d;
    }
  }

  lemma EncodedInAlphabet(b: Bytes)
    ensures forall c | c in Encode(b) :: InAlphabet(c)
  {
    forall i | 0 <= i < |Encode(b)| ensures InAlphabet(Encode(b)[i]) {
      CharDigit(ToDigits(b)[i]);
    }
  }

  lemma DecodeEncode(b: Bytes)
    ensures Decode(Encode(b)) == Some(b)
  {
    var s, d := Encode(b), ToDigits(b);
    EncodedInAlphabet(b);
    forall i | 0 <= i < |s| ensures DigitOf(s[i]) == Some(d[i]) {
      CharDigit(d[i]);
    }
    assert DigitsOf(s) == d;
    DigitsBack(b);
  }

  lemma EncodeDecode(s: string)
    requires Decode(s).Some?
    ensures Encode(Decode(s).value) == s
  {
    var d := DigitsOf(s);
    BytesBack(d);
    forall i | 0 <= i < |s| ensures CharOf(d[i]) == s[i] {
      DigitChar(s[i]);
    }
  }

  /** A text decodes to some bytes exactly when it is their encoding. */
  lemma DecodesExactly(s: string, b: Bytes)
    ensures Decode(s) == Some(b) <==> s == Encode(b)
  {
    DecodeEncode(b);
    if Decode(s) == Some(b) {
      EncodeDecode(s);
    }
  }

  // ----- what the text means -----

  const UPPER := "ABCDEFGHIJKLMNOPQRSTUVWXYZ"
  const LOWER := "abcdefghijklmnopqrstuvwxyz"

  /** Table 2 of RFC 4648. */
  const ALPHABET := UPPER + LOWER + "0123456789-_"

  lemma NthUpper(d: nat)
    requires d < 26
    ensures |UPPER| == 26 && UPPER[d] == 'A' + d as char
  {
  }

  lemma NthLower(d: nat)
    requires d < 26
    ensures |LOWER| == 26 && LOWER[d] == 'a' + d as char
  {
  }

  lemma UpperExactly(c: char)
    ensures c in UPPER <==> 'A' <= c <= 'Z'
  {
    forall k: nat | k < 26 ensures UPPER[k] == 'A' + k as char {
      NthUpper(k);
    }
    assert 'A' <= c <= 'Z' ==> UPPER[(c - 'A') as int] == c;
  }

  lemma LowerExactly(c: char)
    ensures c in LOWER <==> 'a' <= c <= 'z'
  {
    forall k: nat | k < 26 ensures LOWER[k] == 'a' + k as char {
      NthLower(k);
    }
    assert 'a' <= c <= 'z' ==> LOWER[(c - 'a') as int] == c;
  }

  lemma CharIsNth(d: Digit)
    ensures |ALPHABET| == 64 && CharOf(d) == ALPHABET[d]
  {
    NthUpper(if d < 26 then d else 0);
    NthLower(if 26 <= d < 52 then d - 26 else 0);
  }

  /** Bytes and digits read as one number, the highest first, behind those read already. */
  function ByteValue(above: nat, b: Bytes): nat
    decreases |b|
  {
    if b == [] then above else ByteValue(above * 256 + b[0], b[1..])
  }

  function DigitValue(above: nat, d: seq<Digit>): nat
    decreases |d|
  {
    if d == [] then above else DigitValue(above * 64 + d[0], d[1..])
  }

  /** The zero bits behind the last of so many bytes, as a factor. */
  function Padding(length: nat): nat {
    if length == 0 then 1 else if length == 1 then 16 else if length == 2 then 4 else Padding(length - 3)
  }

  /** The digits are the number the bytes are, with the padding. */
  ghost predicate SameNumber(above: nat, d: seq<Digit>, b: Bytes) {
    DigitValue(above, d) == ByteValue(above, b) * Padding(|b|)
  }

  lemma TwoDigits(above: nat, d: seq<Digit>)
    requires |d| >= 2
    ensures DigitValue(above, d) == DigitValue((above * 64 + d[0]) * 64 + d[1], d[2..])
  {
    var next: nat := above * 64 + d[0];
    assert DigitValue(above, d) == DigitValue(next, d[1..]) && d[1..][1..] == d[2..];
  }

  function FourMore(above: nat, d: seq<Digit>): nat
    requires |d| == 4
  {
    (((above * 64 + d[0]) * 64 + d[1]) * 64 + d[2]) * 64 + d[3]
  }

  function ThreeMore(above: nat, b0: Byte, b1: Byte, b2: Byte): nat {
    ((above * 256 + b0) * 256 + b1) * 256 + b2
  }

  /** A group of three bytes and its four digits are the same number. */
  lemma GroupValue(above: nat, b0: Byte, b1: Byte, b2: Byte)
    ensures FourMore(above, Digits3(b0, b1, b2)) == ThreeMore(above, b0, b1, b2)
  {
  }

  lemma ThreeBytes(above: nat, b: Bytes)
    requires |b| >= 3
    ensures ByteValue(above, b) == ByteValue(ThreeMore(above, b[0], b[1], b[2]), b[3..])
  {
    var first: nat := above * 256 + b[0];
    var second: nat := first * 256 + b[1];
    assert b[1..][1..] == b[2..] && b[2..][1..] == b[3..];
    assert ByteValue(above, b) == ByteValue(first, b[1..]) == ByteValue(second, b[2..]);
  }

  lemma FourDigits(above: nat, d: seq<Digit>, rest: seq<Digit>)
    requires |d| == 4
    ensures DigitValue(above, d + rest) == DigitValue(FourMore(above, d), rest)
  {
    TwoDigits(above, d + rest);
    TwoDigits((above * 64 + d[0]) * 64 + d[1], (d + rest)[2..]);
    assert (d + rest)[2..][2..] == rest;
  }

  lemma GroupKeeps(above: nat, d: seq<Digit>, rest: seq<Digit>, b: Bytes)
    requires |d| == 4 && |b| >= 3 && FourMore(above, d) == ThreeMore(above, b[0], b[1], b[2])
    requires SameNumber(FourMore(above, d), rest, b[3..])
    ensures SameNumber(above, d + rest, b)
  {
    FourDigits(above, d, rest);
    ThreeBytes(above, b);
  }

  lemma LastValues(above: nat, b0: Byte, b1: Byte)
    ensures var d := Digits1(b0); (above * 64 + d[0]) * 64 + d[1] == (above * 256 + b0) * 16
    ensures var d := Digits2(b0, b1);
            ((above * 64 + d[0]) * 64 + d[1]) * 64 + d[2] == ((above * 256 + b0) * 256 + b1) * 4
  {
  }

  lemma OneByte(above: nat, d: seq<Digit>, b: Bytes)
    requires |d| == 2 && |b| == 1 && (above * 64 + d[0]) * 64 + d[1] == (above * 256 + b[0]) * 16
    ensures SameNumber(above, d, b)
  {
    TwoDigits(above, d);
    assert ByteValue(above, b) == ByteValue(above * 256 + b[0], b[1..]);
  }

  lemma TwoBytes(above: nat, d: seq<Digit>, b: Bytes)
    requires |d| == 3 && |b| == 2
    requires ((above * 64 + d[0]) * 64 + d[1]) * 64 + d[2] == ((above * 256 + b[0]) * 256 + b[1]) * 4
    ensures SameNumber(above, d, b)
  {
    TwoDigits(above, d);
    var digits: nat, bytes: nat := (above * 64 + d[0]) * 64 + d[1], above * 256 + b[0];
    assert DigitValue(digits, d[2..]) == DigitValue(digits * 64 + d[2], d[2..][1..]) == digits * 64 + d[2];
    assert ByteValue(above, b) == ByteValue(bytes, b[1..]) == ByteValue(bytes * 256 + b[1], b[1..][1..]);
  }

  lemma {:induction false} DigitsKeepValue(above: nat, b: Bytes)
    ensures SameNumber(above, ToDigits(b), b)
    decreases |b|
  {
    if |b| == 0 {
    } else if |b| == 1 {
      LastValues(above, b[0], 0);
      OneByte(above, Digits1(b[0]), b);
    } else if |b| == 2 {
      LastValues(above, b[0], b[1]);
      TwoBytes(above, Digits2(b[0], b[1]), b);
    } else {
      var d, rest := Digits3(b[0], b[1], b[2]), ToDigits(b[3..]);
      GroupValue(above, b[0], b[1], b[2]);
      DigitsKeepValue(FourMore(above, d), b[3..]);
      GroupKeeps(above, d, rest, b);
    }
  }

  /**
   What an encoding says (section 4 of RFC 4648): its characters are the digits, in
   the order of the alphabet, of the number that the bytes are in base 256, with
   zero bits behind it up to a whole digit.
   */
  lemma EncodesValue(b: Bytes) returns (d: seq<Digit>)
    ensures |d| == |Encode(b)| && (forall i | 0 <= i < |d| :: Encode(b)[i] == ALPHABET[d[i]])
    ensures SameNumber(0, d, b)
  {
    d := ToDigits(b);
    DigitsKeepValue(0, b);
    CharIsNth(0);
    forall i | 0 <= i < |d| ensures Encode(b)[i] == ALPHABET[d[i]] {
      CharIsNth(d[i]);
    }
  }
}
