/** The key encryption key from hex text (services/identity/src/crypto/kek.rs). */
module Kek {
  import opened Basics
  import opened Base64Url
  import opened Text
  import opened Jwt

  const KEK_LEN := 32

  function HexDigit(c: char): (d: Option<int>)
    ensures d.Some? ==> 0 <= d.value < 16
  {
    if '0' <= c <= '9' then Some(c as int - '0' as int)
    else if 'a' <= c <= 'f' then Some(c as int - 'a' as int + 10)
    else if 'A' <= c <= 'F' then Some(c as int - 'A' as int + 10)
    else None
  }

  predicate IsHex(s: string) {
    forall c | c in s :: HexDigit(c).Some?
  }

  function PairByte(hi: int, lo: int): Byte
    requires 0 <= hi < 16 && 0 <= lo < 16
  {
    hi * 16 + lo
  }

  /** The chunks of two digits, in order; the first bad one decides. */
  function Chunks(s: string): Result<Bytes, CryptoError>
    requires |s| % 2 == 0
  {
    if s == "" then Ok([])
    else
      var hi, lo := HexDigit(s[0]), HexDigit(s[1]);
      if hi.None? || lo.None? then Err(InvalidKek)
      else
        var tail := Chunks(s[2..]);
        if tail.Err? then Err(tail.error) else Ok([PairByte(hi.value, lo.value)] + tail.value)
  }

  /**
   `decode_hex`. A character outside ASCII takes several bytes, but it is no digit
   either, so counting characters gives the same answers.
   */
  function DecodeHex(text: string): Result<Bytes, CryptoError> {
    var hex := Trim(text);
    if |hex| % 2 != 0 then Err(InvalidKek) else Chunks(hex)
  }

  /** `Kek::from_bytes`. */
  function FromBytes(bytes: Bytes): Result<Bytes, CryptoError> {
    if |bytes| != KEK_LEN then Err(InvalidKek) else Ok(bytes)
  }

  /** `load_kek` with the hex variable set. */
  function FromHex(text: string): Result<Bytes, CryptoError> {
    var bytes := DecodeHex(text);
    if bytes.Err? then Err(bytes.error) else FromBytes(bytes.value)
  }

  /** Two encoders of bytes as hex text. */
  function HexChar(d: int, upper: bool): char
    requires 0 <= d < 16
  {
    if d < 10 then '0' + d as char else (if upper then 'A' else 'a') + (d - 10) as char
  }

  function EncodeHex(bytes: Bytes, upper: bool): string {
    if bytes == [] then ""
    else [HexChar(bytes[0] / 16, upper), HexChar(bytes[0] % 16, upper)] + EncodeHex(bytes[1..], upper)
  }

  function LowerHex(s: string): string {
    seq(|s|, i requires 0 <= i < |s| => if 'A' <= s[i] <= 'F' then s[i] - 'A' + 'a' else s[i])
  }

  lemma LowerPair(s: string)
    requires |s| >= 2
    ensures LowerHex(s) == [LowerHex(s)[0], LowerHex(s)[1]] + LowerHex(s[2..])
  {
  }

  lemma PairBack(c: char, d: char)
    requires HexDigit(c).Some? && HexDigit(d).Some?
    ensures var b := PairByte(HexDigit(c).value, HexDigit(d).value);
            LowerHex([c, d]) == [HexChar(b / 16, false), HexChar(b % 16, false)]
  {
  }

  lemma PairIsHex(c: char, d: char, rest: string)
    ensures IsHex([c, d] + rest) <==> HexDigit(c).Some? && HexDigit(d).Some? && IsHex(rest)
  {
    var s := [c, d] + rest;
    assert s[0] == c && s[1] == d && s[2..] == rest;
    assert forall x | x in s :: x == c || x == d || x in rest;
  }

  lemma ChunksOfPair(c: char, d: char, rest: string)
    requires |rest| % 2 == 0
    ensures (Chunks([c, d] + rest)
         == if HexDigit(c).None? || HexDigit(d).None? then Err(InvalidKek)
            else match Chunks(rest)
                 case Err(error) => Err(error)
                 case Ok(bytes) => Ok([PairByte(HexDigit(c).value, HexDigit(d).value)] + bytes))
  {
    var s := [c, d] + rest;
    assert s[0] == c && s[1] == d && s[2..] == rest;
  }

  /** A decoded pair in front of decoded digits is written back as it was, letter case aside. */
  lemma PairWritten(c: char, d: char, rest: string, bytes: Bytes)
    requires HexDigit(c).Some? && HexDigit(d).Some? && EncodeHex(bytes, false) == LowerHex(rest)
    ensures var b := PairByte(HexDigit(c).value, HexDigit(d).value);
            EncodeHex([b] + bytes, false) == LowerHex([c, d] + rest)
  {
    PairBack(c, d);
    var s := [c, d] + rest;
    LowerPair(s);
    assert s[2..] == rest && LowerHex([c, d]) == [LowerHex(s)[0], LowerHex(s)[1]];
    var b := PairByte(HexDigit(c).value, HexDigit(d).value);
    assert ([b] + bytes)[1..] == bytes;
  }

  lemma {:induction false} ChunksExactly(s: string)
    requires |s| % 2 == 0
    ensures Chunks(s).Ok? <==> IsHex(s)
    ensures Chunks(s).Ok? ==> |Chunks(s).value| * 2 == |s| && EncodeHex(Chunks(s).value, false) == LowerHex(s)
    ensures Chunks(s).Err? ==> Chunks(s) == Err(InvalidKek)
  {
    if s == "" {
    } else {
      var c, d, rest := s[0], s[1], s[2..];
      assert s == [c, d] + rest;
      PairIsHex(c, d, rest);
      ChunksOfPair(c, d, rest);
      ChunksExactly(rest);
      if Chunks(s).Ok? {
        PairWritten(c, d, rest, Chunks(rest).value);
      }
    }
  }

  /**
   Decoding succeeds exactly on an even number of hex digits, white space around
   them aside; the bytes are then the only ones with that hex text, letter case aside.
   */
  lemma DecodesExactlyWhen(text: string)
    ensures var hex := Trim(text);
            && (DecodeHex(text).Ok? <==> |hex| % 2 == 0 && IsHex(hex))
            && (DecodeHex(text).Ok? ==> EncodeHex(DecodeHex(text).value, false) == LowerHex(hex))
            && (DecodeHex(text).Err? ==> DecodeHex(text) == Err(InvalidKek))
  {
    var hex := Trim(text);
    if |hex| % 2 == 0 {
      ChunksExactly(hex);
    }
  }

  /** A digit's value is its place among the digits. */
  lemma HexDigitExactly(c: char, d: nat)
    requires d < 16
    ensures HexDigit(c) == Some(d) <==> c == "0123456789abcdef"[d] || c == "0123456789ABCDEF"[d]
  {
  }

  lemma HexCharBack(d: int, upper: bool)
    requires 0 <= d < 16
    ensures HexDigit(HexChar(d, upper)) == Some(d)
  {
  }

  lemma PairDecoded(b: Byte, upper: bool, rest: string, bytes: Bytes)
    requires |rest| % 2 == 0 && Chunks(rest) == Ok(bytes)
    ensures Chunks([HexChar(b / 16, upper), HexChar(b % 16, upper)] + rest) == Ok([b] + bytes)
  {
    HexCharBack(b / 16, upper);
    HexCharBack(b % 16, upper);
    ChunksOfPair(HexChar(b / 16, upper), HexChar(b % 16, upper), rest);
  }

  lemma {:induction false} Encoded(bytes: Bytes, upper: bool)
    ensures |EncodeHex(bytes, upper)| == 2 * |bytes| && IsHex(EncodeHex(bytes, upper))
    ensures Chunks(EncodeHex(bytes, upper)) == Ok(bytes)
  {
    if bytes == [] {
    } else {
      var b, tail := bytes[0], EncodeHex(bytes[1..], upper);
      Encoded(bytes[1..], upper);
      HexCharBack(b / 16, upper);
      HexCharBack(b % 16, upper);
      PairIsHex(HexChar(b / 16, upper), HexChar(b % 16, upper), tail);
      PairDecoded(b, upper, tail, bytes[1..]);
      assert [b] + bytes[1..] == bytes;
    }
  }

  lemma HexIsTrimmed(s: string)
    requires IsHex(s)
    ensures Trim(s) == s
  {
    if s != "" {
      assert HexDigit(s[0]).Some? && HexDigit(s[|s| - 1]).Some?;
    }
  }

  lemma DecodesHex(s: string, bytes: Bytes)
    requires IsHex(s) && |s| == 2 * |bytes| && Chunks(s) == Ok(bytes)
    ensures DecodeHex(s) == Ok(bytes)
  {
    HexIsTrimmed(s);
  }

  /** Decoding inverts both encoders on all bytes. */
  lemma DecodeInverts(bytes: Bytes, upper: bool)
    ensures DecodeHex(EncodeHex(bytes, upper)) == Ok(bytes)
  {
    Encoded(bytes, upper);
    DecodesHex(EncodeHex(bytes, upper), bytes);
  }

  /** Hex text gives a key exactly when it has 64 digits. */
  lemma KekExactlyWhen(text: string)
    ensures var hex := Trim(text);
            && (FromHex(text).Ok? <==> |hex| == 64 && IsHex(hex))
            && (FromHex(text).Ok? ==> EncodeHex(FromHex(text).value, false) == LowerHex(hex))
  {
    var hex := Trim(text);
    if |hex| % 2 == 0 {
      ChunksExactly(hex);
    }
  }
}
