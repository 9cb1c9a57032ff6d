/** UTF-8 as the URL Standard uses it to turn query text into bytes and back. */
module Utf8 {
  import opened Wrappers

  type Byte = b: int | 0 <= b < 256

  predicate IsContinuation(b: Byte) { 0x80 <= b < 0xC0 }

  /** The bytes of one code point, shortest form. */
  function EncodeChar(c: char): (r: seq<Byte>)
    ensures 1 <= |r| <= 4
    ensures (|r| == 1) == (c as int < 0x80)
    ensures forall i :: 1 <= i < |r| ==> IsContinuation(r[i])
  {
    var cp := c as int;
    if cp < 0x80 then [cp]
    else if cp < 0x800 then [0xC0 + cp / 64, 0x80 + cp % 64]
    else if cp < 0x10000 then [0xE0 + cp / 4096, 0x80 + (cp / 64) % 64, 0x80 + cp % 64]
    else [0xF0 + cp / 262144, 0x80 + (cp / 4096) % 64, 0x80 + (cp / 64) % 64, 0x80 + cp % 64]
  }

  function Encode(s: string): (r: seq<Byte>)
    ensures |r| >= |s|
  {
    if s == [] then [] else EncodeChar(s[0]) + Encode(s[1..])
  }

  predicate IsScalar(cp: int) { 0 <= cp < 0xD800 || 0xE000 <= cp < 0x110000 }

  /**
   * Reads one code point from the front of `bs`: its character and how many
   * bytes it took. Overlong forms, surrogates, values beyond U+10FFFF and
   * truncated or malformed sequences give None.
   */
  function DecodeOne(bs: seq<Byte>): (r: Option<(char, nat)>)
    requires bs != []
    ensures r.Some? ==> 1 <= r.value.1 <= |bs|
  {
    var b0: int := bs[0];
    if b0 < 0x80 then Some((b0 as char, 1))
    else if 0xC2 <= b0 < 0xE0 then
      if |bs| < 2 || !IsContinuation(bs[1]) then None
      else Some((((b0 - 0xC0) * 64 + Payload(bs[1])) as char, 2))
    else if 0xE0 <= b0 < 0xF0 then
      if |bs| < 3 || !IsContinuation(bs[1]) || !IsContinuation(bs[2]) then None
      else
        var cp := (b0 - 0xE0) * 4096 + Payload(bs[1]) * 64 + Payload(bs[2]);
        if cp < 0x800 || !IsScalar(cp) then None else Some((cp as char, 3))
    else if 0xF0 <= b0 < 0xF5 then
      if |bs| < 4 || !IsContinuation(bs[1]) || !IsContinuation(bs[2]) || !IsContinuation(bs[3]) then None
      else
        var cp := (b0 - 0xF0) * 262144 + Payload(bs[1]) * 4096 + Payload(bs[2]) * 64 + Payload(bs[3]);
        if cp < 0x10000 || !IsScalar(cp) then None else Some((cp as char, 4))
    else None
  }

  /** The six value bits of a continuation byte. */
  function Payload(b: Byte): int
  {
    b as int - 0x80
  }

  function Decode(bs: seq<Byte>): Option<string>
    decreases |bs|
  {
    if bs == [] then Some([])
    else match DecodeOne(bs)
      case None => None
      case Some((c, n)) =>
        match Decode(bs[n..])
        case None => None
        case Some(rest) => Some([c] + rest)
  }

  lemma DecodeOneEncodeChar(c: char, rest: seq<Byte>)
    ensures DecodeOne(EncodeChar(c) + rest) == Some((c, |EncodeChar(c)|))
  {
    var cp := c as int;
    if cp < 0x80 {
    } else if cp < 0x800 {
      DecodeTwo(cp, rest);
    } else if cp < 0x10000 {
      DecodeThree(cp, rest);
    } else {
      DecodeFour(cp, rest);
    }
  }

  lemma DecodeTwo(cp: int, rest: seq<Byte>)
    requires 0x80 <= cp < 0x800
    ensures DecodeOne([0xC0 + cp / 64, 0x80 + cp % 64] + rest) == Some((cp as char, 2))
  {
    var bs: seq<Byte> := [0xC0 + cp / 64, 0x80 + cp % 64] + rest;
    assert Payload(bs[1]) == cp % 64;
  }

  lemma DecodeThree(cp: int, rest: seq<Byte>)
    requires 0x800 <= cp < 0x10000 && IsScalar(cp)
    ensures DecodeOne([0xE0 + cp / 4096, 0x80 + (cp / 64) % 64, 0x80 + cp % 64] + rest) == Some((cp as char, 3))
  {
    var bs: seq<Byte> := [0xE0 + cp / 4096, 0x80 + (cp / 64) % 64, 0x80 + cp % 64] + rest;
    assert Payload(bs[1]) == (cp / 64) % 64 && Payload(bs[2]) == cp % 64;
    assert (cp / 4096) * 4096 + ((cp / 64) % 64) * 64 + cp % 64 == cp;
  }

  lemma DecodeFour(cp: int, rest: seq<Byte>)
    requires 0x10000 <= cp < 0x110000
    ensures DecodeOne([0xF0 + cp / 262144, 0x80 + (cp / 4096) % 64, 0x80 + (cp / 64) % 64, 0x80 + cp % 64] + rest)
      == Some((cp as char, 4))
  {
    var t1, t2, t3 := cp / 64, cp / 4096, cp / 262144;
    assert t2 == t1 / 64 && t3 == t2 / 64;
    assert cp == t1 * 64 + cp % 64 && t1 == t2 * 64 + t1 % 64 && t2 == t3 * 64 + t2 % 64;
    var bs: seq<Byte> := [0xF0 + t3, 0x80 + t2 % 64, 0x80 + t1 % 64, 0x80 + cp % 64] + rest;
    assert Payload(bs[1]) == t2 % 64 && Payload(bs[2]) == t1 % 64 && Payload(bs[3]) == cp % 64;
  }

  /** Decoding undoes encoding, for every string. */
  lemma {:induction false} DecodeEncode(s: string)
    ensures Decode(Encode(s)) == Some(s)
  {
    if s != [] {
      var e := EncodeChar(s[0]);
      DecodeOneEncodeChar(s[0], Encode(s[1..]));
      assert (e + Encode(s[1..]))[|e|..] == Encode(s[1..]);
      DecodeEncode(s[1..]);
      assert [s[0]] + s[1..] == s;
    }
  }

  /** ASCII text encodes byte for byte. */
  lemma {:induction false} EncodeAscii(s: string)
    requires forall i :: 0 <= i < |s| ==> s[i] as int < 0x80
    ensures |Encode(s)| == |s|
    ensures forall i :: 0 <= i < |s| ==> Encode(s)[i] == s[i] as int
  {
    if s != [] {
      EncodeAscii(s[1..]);
    }
  }

  lemma {:induction false} EncodeAppend(a: string, b: string)
    ensures Encode(a + b) == Encode(a) + Encode(b)
  {
    if a != [] {
      assert (a + b)[1..] == a[1..] + b;
      EncodeAppend(a[1..], b);
    } else {
      assert a + b == b;
    }
  }
}
