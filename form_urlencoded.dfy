/**
 * The application/x-www-form-urlencoded format of the WHATWG URL Standard:
 * the serializer of its section 5.2 (what `URLSearchParams.toString` writes)
 * and the parser of its section 5.1 (how a request's search parameters are
 * read back).
 */
module FormUrlencoded {
  import opened Wrappers
  import opened Utf8

  type Pair = (string, string)

  /** Bytes written as themselves: alphanumerics and `*-._`. */
  predicate IsSafe(b: Byte)
  {
    b == 0x2A || b == 0x2D || b == 0x2E || b == 0x5F
    || (0x30 <= b <= 0x39) || (0x41 <= b <= 0x5A) || (0x61 <= b <= 0x7A)
  }

  function HexDigit(d: int): (c: char)
    requires 0 <= d < 16
  {
    if d < 10 then ('0' as int + d) as char else ('A' as int + d - 10) as char
  }

  predicate IsHexByte(b: Byte)
  {
    (0x30 <= b <= 0x39) || (0x41 <= b <= 0x46) || (0x61 <= b <= 0x66)
  }

  function HexValue(b: Byte): (d: int)
    requires IsHexByte(b)
    ensures 0 <= d < 16
  {
    if b <= 0x39 then b - 0x30 else if b <= 0x46 then b - 0x41 + 10 else b - 0x61 + 10
  }

  /** One byte of a name or value, as the serializer writes it. */
  function SerializeByte(b: Byte): string
  {
    if b == 0x20 then "+"
    else if IsSafe(b) then [b as char]
    else ['%', HexDigit(b / 16), HexDigit(b % 16)]
  }

  function SerializeBytes(bs: seq<Byte>): string
  {
    if bs == [] then [] else SerializeByte(bs[0]) + SerializeBytes(bs[1..])
  }

  /** A name or value: its UTF-8 bytes, each serialized. */
  function SerializeComponent(s: string): string
  {
    SerializeBytes(Encode(s))
  }

  function SerializePair(p: Pair): string
  {
    SerializeComponent(p.0) + "=" + SerializeComponent(p.1)
  }

  /** The serializer: the pairs in order, joined by `&`. */
  function Serialize(pairs: seq<Pair>): string
  {
    if pairs == [] then []
    else if |pairs| == 1 then SerializePair(pairs[0])
    else SerializePair(pairs[0]) + "&" + Serialize(pairs[1..])
  }

  /** The pieces of `s` between occurrences of `sep`. */
  function Split(s: string, sep: char): (r: seq<string>)
    ensures |r| >= 1
  {
    if s == [] then [[]]
    else if s[0] == sep then [[]] + Split(s[1..], sep)
    else var rest := Split(s[1..], sep); [[s[0]] + rest[0]] + rest[1..]
  }

  /** The part of `s` before its first `=`, or all of it. */
  function BeforeEquals(s: string): (r: string)
    ensures |r| <= |s|
  {
    if s == [] || s[0] == '=' then [] else [s[0]] + BeforeEquals(s[1..])
  }

  /** The part of `s` after its first `=`, or nothing. */
  function AfterEquals(s: string): (r: string)
    ensures |r| <= |s|
  {
    if s == [] then [] else if s[0] == '=' then s[1..] else AfterEquals(s[1..])
  }

  function PlusToSpace(s: string): (r: string)
    ensures |r| == |s|
  {
    if s == [] then [] else [if s[0] == '+' then ' ' else s[0]] + PlusToSpace(s[1..])
  }

  /** Percent-decoding: `%` and two hex digits give one byte; any other `%` stays. */
  function PercentDecode(bs: seq<Byte>): seq<Byte>
  {
    if bs == [] then []
    else if bs[0] == 0x25 && |bs| >= 3 && IsHexByte(bs[1]) && IsHexByte(bs[2]) then
      [HexValue(bs[1]) * 16 + HexValue(bs[2])] + PercentDecode(bs[3..])
    else [bs[0]] + PercentDecode(bs[1..])
  }

  /** A name or value read back: `+` as space, percent-decoded, then UTF-8 decoded. */
  function ParseComponent(s: string): Option<string>
  {
    Decode(PercentDecode(Encode(PlusToSpace(s))))
  }

  function ParsePiece(piece: string): Option<Pair>
  {
    match (ParseComponent(BeforeEquals(piece)), ParseComponent(AfterEquals(piece)))
    case (Some(name), Some(value)) => Some((name, value))
    case _ => None
  }

  function ParsePieces(pieces: seq<string>): Option<seq<Pair>>
  {
    if pieces == [] then Some([])
    else if pieces[0] == [] then ParsePieces(pieces[1..])
    else match (ParsePiece(pieces[0]), ParsePieces(pieces[1..]))
      case (Some(p), Some(ps)) => Some([p] + ps)
      case _ => None
  }

  /**
   * The parser: split on `&`, skip empty pieces, split each piece at its first
   * `=`. The characters `&`, `=`, `+` and `%` are ASCII, so splitting the text
   * is the same as splitting its UTF-8 bytes.
   */
  function Parse(input: string): Option<seq<Pair>>
  {
    ParsePieces(Split(input, '&'))
  }

  // ---- The serializer writes only characters the parser treats as data ----

  predicate Plain(s: string)
  {
    forall i :: 0 <= i < |s| ==> s[i] != '&' && s[i] != '=' && s[i] as int < 0x80
  }

  lemma {:induction false} SerializeBytesPlain(bs: seq<Byte>)
    ensures Plain(SerializeBytes(bs))
  {
    if bs != [] {
      SerializeBytesPlain(bs[1..]);
    }
  }

  /** The bytes one serialized byte turns into once `+` becomes a space. */
  function UnitBytes(b: Byte): seq<Byte>
  {
    if b == 0x20 || IsSafe(b) then [b] else [0x25, HexDigit(b / 16) as int, HexDigit(b % 16) as int]
  }

  lemma UnitBytesOfSerializeByte(b: Byte)
    ensures Encode(PlusToSpace(SerializeByte(b))) == UnitBytes(b)
  {
    var t := SerializeByte(b);
    if b == 0x20 {
      assert PlusToSpace(t) == " ";
    } else {
      PlusToSpaceWithoutPlus(t);
      EncodeAscii(t);
    }
  }

  lemma {:induction false} PlusToSpaceWithoutPlus(s: string)
    requires forall i :: 0 <= i < |s| ==> s[i] != '+'
    ensures PlusToSpace(s) == s
  {
    if s != [] {
      PlusToSpaceWithoutPlus(s[1..]);
      assert [s[0]] + s[1..] == s;
    }
  }

  lemma PercentDecodeUnit(b: Byte, rest: seq<Byte>)
    ensures PercentDecode(UnitBytes(b) + rest) == [b] + PercentDecode(rest)
  {
    var u := UnitBytes(b);
    if b == 0x20 || IsSafe(b) {
      assert (u + rest)[1..] == rest;
    } else {
      assert HexValue(HexDigit(b / 16) as int) == b / 16;
      assert HexValue(HexDigit(b % 16) as int) == b % 16;
      assert (u + rest)[3..] == rest;
    }
  }

  lemma {:induction false} PlusToSpaceAppend(a: string, b: string)
    ensures PlusToSpace(a + b) == PlusToSpace(a) + PlusToSpace(b)
  {
    if a == [] {
      assert a + b == b;
    } else {
      assert (a + b)[1..] == a[1..] + b;
      PlusToSpaceAppend(a[1..], b);
    }
  }

  /** Percent-decoding undoes byte serialization. */
  lemma {:induction false} PercentDecodeSerializeBytes(bs: seq<Byte>)
    ensures PercentDecode(Encode(PlusToSpace(SerializeBytes(bs)))) == bs
  {
    if bs != [] {
      var t, rest := SerializeByte(bs[0]), SerializeBytes(bs[1..]);
      PlusToSpaceAppend(t, rest);
      EncodeAppend(PlusToSpace(t), PlusToSpace(rest));
      UnitBytesOfSerializeByte(bs[0]);
      PercentDecodeUnit(bs[0], Encode(PlusToSpace(rest)));
      PercentDecodeSerializeBytes(bs[1..]);
    }
  }

  /** Every name and value reads back as written. */
  lemma ParseSerializeComponent(s: string)
    ensures ParseComponent(SerializeComponent(s)) == Some(s)
  {
    PercentDecodeSerializeBytes(Encode(s));
    DecodeEncode(s);
  }

  lemma {:induction false} SplitPlain(a: string, sep: char)
    requires forall i :: 0 <= i < |a| ==> a[i] != sep
    ensures Split(a, sep) == [a]
  {
    if a != [] {
      SplitPlain(a[1..], sep);
      assert [a[0]] + a[1..] == a;
    }
  }

  lemma {:induction false} SplitAt(a: string, sep: char, b: string)
    requires forall i :: 0 <= i < |a| ==> a[i] != sep
    ensures Split(a + [sep] + b, sep) == [a] + Split(b, sep)
  {
    if a == [] {
      assert a + [sep] + b == [sep] + b;
      assert ([sep] + b)[1..] == b;
    } else {
      assert (a + [sep] + b)[1..] == a[1..] + [sep] + b;
      SplitAt(a[1..], sep, b);
      assert [a[0]] + a[1..] == a;
    }
  }

  lemma {:induction false} EqualsSplit(a: string, b: string)
    requires forall i :: 0 <= i < |a| ==> a[i] != '='
    ensures BeforeEquals(a + "=" + b) == a
    ensures AfterEquals(a + "=" + b) == b
  {
    if a == [] {
      assert a + "=" + b == "=" + b;
      assert ("=" + b)[1..] == b;
    } else {
      assert (a + "=" + b)[1..] == a[1..] + "=" + b;
      EqualsSplit(a[1..], b);
      assert [a[0]] + a[1..] == a;
    }
  }

  lemma ParseSerializePair(p: Pair)
    ensures SerializePair(p) != []
    ensures ParsePiece(SerializePair(p)) == Some(p)
  {
    var n, v := SerializeComponent(p.0), SerializeComponent(p.1);
    SerializeBytesPlain(Encode(p.0));
    EqualsSplit(n, v);
    ParseSerializeComponent(p.0);
    ParseSerializeComponent(p.1);
  }

  lemma SerializePairWithoutAmpersand(p: Pair)
    ensures forall i :: 0 <= i < |SerializePair(p)| ==> SerializePair(p)[i] != '&'
  {
    SerializeBytesPlain(Encode(p.0));
    SerializeBytesPlain(Encode(p.1));
  }

  /** The round trip: the parser reads back exactly the pairs the serializer wrote, in order. */
  lemma {:induction false} ParseSerialize(pairs: seq<Pair>)
    ensures Parse(Serialize(pairs)) == Some(pairs)
  {
    if |pairs| == 1 {
      ParseOnePair(pairs[0]);
      assert [pairs[0]] == pairs;
    } else if |pairs| > 1 {
      ParseSerialize(pairs[1..]);
      ParseFirstPair(pairs[0], Serialize(pairs[1..]), pairs[1..]);
      assert [pairs[0]] + pairs[1..] == pairs;
    }
  }

  lemma ParseOnePair(p: Pair)
    ensures Parse(SerializePair(p)) == Some([p])
  {
    var first := SerializePair(p);
    SerializePairWithoutAmpersand(p);
    ParseSerializePair(p);
    SplitPlain(first, '&');
    assert [first][0] == first && [first][1..] == [];
    assert ParsePieces([]) == Some([]);
    assert ParsePieces([first]) == Some([p] + []);
    assert [p] + [] == [p];
  }

  lemma ParseFirstPair(p: Pair, more: string, ps: seq<Pair>)
    requires Parse(more) == Some(ps)
    ensures Parse(SerializePair(p) + "&" + more) == Some([p] + ps)
  {
    var first := SerializePair(p);
    var tail := Split(more, '&');
    SerializePairWithoutAmpersand(p);
    ParseSerializePair(p);
    SplitAt(first, '&', more);
    assert ([first] + tail)[1..] == tail;
  }
}
