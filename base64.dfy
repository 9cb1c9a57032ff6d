/**
 * The base64 encoding of section 4 of RFC 4648, and the `btoa`/`atob` pair
 * that applies it to strings whose characters are all Latin-1 (one byte each).
 */
module Base64 {
  import opened Wrappers
  import Utf8

  type Byte = Utf8.Byte

  /** A 6-bit group: the index of one alphabet character. */
  type Sextet = d: int | 0 <= d < 64

  predicate InAlphabet(c: char)
  {
    ('A' <= c <= 'Z') || ('a' <= c <= 'z') || ('0' <= c <= '9') || c == '+' || c == '/'
  }

  /** The character of the alphabet with index `d` (Table 1 of RFC 4648). */
  function Char(d: Sextet): (c: char)
    ensures InAlphabet(c)
  {
    if d < 26 then ('A' as int + d) as char
    else if d < 52 then ('a' as int + d - 26) as char
    else if d < 62 then ('0' as int + d - 52) as char
    else if d == 62 then '+'
    else '/'
  }

  /** The index of an alphabet character. */
  function Index(c: char): (d: Sextet)
    requires InAlphabet(c)
    ensures Char(d) == c
  {
    if 'A' <= c <= 'Z' then c as int - 'A' as int
    else if 'a' <= c <= 'z' then c as int - 'a' as int + 26
    else if '0' <= c <= '9' then c as int - '0' as int + 52
    else if c == '+' then 62
    else 63
  }

  lemma IndexOfChar(d: Sextet)
    ensures Index(Char(d)) == d
  {
  }

  /** Three bytes as four characters. */
  function Group(b0: Byte, b1: Byte, b2: Byte): string
  {
    [Char(b0 / 4), Char((b0 % 4) * 16 + b1 / 16), Char((b1 % 16) * 4 + b2 / 64), Char(b2 % 64)]
  }

  /**
   * The encoder: whole 3-byte groups, then a final group of one or two
   * bytes padded with `=` to four characters.
   */
  function Encode(bs: seq<Byte>): (r: string)
    ensures |r| == 4 * ((|bs| + 2) / 3)
    ensures forall i :: 0 <= i < |r| ==> InAlphabet(r[i]) || r[i] == '='
    decreases |bs|
  {
    if |bs| == 0 then []
    else if |bs| == 1 then [Char(bs[0] / 4), Char((bs[0] % 4) * 16), '=', '=']
    else if |bs| == 2 then [Char(bs[0] / 4), Char((bs[0] % 4) * 16 + bs[1] / 16), Char((bs[1] % 16) * 4), '=']
    else Group(bs[0], bs[1], bs[2]) + Encode(bs[3..])
  }

  /** Four alphabet characters as three bytes. */
  function DecodeFull(a: char, b: char, c: char, d: char): Option<seq<Byte>>
  {
    if InAlphabet(a) && InAlphabet(b) && InAlphabet(c) && InAlphabet(d) then
      Some([Index(a) * 4 + Index(b) / 16, (Index(b) % 16) * 16 + Index(c) / 4, (Index(c) % 4) * 64 + Index(d)])
    else None
  }

  /** The last four characters: a whole group, or one with one or two `=` of padding. */
  function DecodeFinal(a: char, b: char, c: char, d: char): Option<seq<Byte>>
  {
    if d != '=' then DecodeFull(a, b, c, d)
    else if c == '=' then
      if InAlphabet(a) && InAlphabet(b) then Some([Index(a) * 4 + Index(b) / 16]) else None
    else if InAlphabet(a) && InAlphabet(b) && InAlphabet(c) then
      Some([Index(a) * 4 + Index(b) / 16, (Index(b) % 16) * 16 + Index(c) / 4])
    else None
  }

  /** The decoder: groups of four characters, padding only in the last group. */
  function Decode(s: string): Option<seq<Byte>>
    decreases |s|
  {
    if s == [] then Some([])
    else if |s| < 4 then None
    else if |s| == 4 then DecodeFinal(s[0], s[1], s[2], s[3])
    else match (DecodeFull(s[0], s[1], s[2], s[3]), Decode(s[4..]))
      case (Some(g), Some(rest)) => Some(g + rest)
      case _ => None
  }

  // ---- btoa and atob ----

  /** Every character fits in one byte. */
  predicate Latin1(s: string)
  {
    forall i :: 0 <= i < |s| ==> s[i] as int < 256
  }

  function Bytes(s: string): (r: seq<Byte>)
    requires Latin1(s)
    ensures |r| == |s|
    ensures forall i :: 0 <= i < |s| ==> r[i] == s[i] as int
  {
    if s == [] then [] else [s[0] as int] + Bytes(s[1..])
  }

  function Chars(bs: seq<Byte>): (r: string)
    ensures |r| == |bs|
    ensures forall i :: 0 <= i < |bs| ==> r[i] as int == bs[i]
  {
    if bs == [] then [] else [bs[0] as char] + Chars(bs[1..])
  }

  /** `btoa`: throws (here `None`) on a character above U+00FF. */
  function Btoa(s: string): (r: Option<string>)
    ensures r.Some? <==> Latin1(s)
  {
    if Latin1(s) then Some(Encode(Bytes(s))) else None
  }

  /** `atob`: throws (here `None`) on text that is not base64. */
  function Atob(t: string): (r: Option<string>)
    ensures r.Some? ==> Latin1(r.value)
  {
    match Decode(t)
    case Some(bs) => Some(Chars(bs))
    case None => None
  }
}
