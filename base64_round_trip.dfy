/**
 * Base64 round trips: decoding undoes encoding for every byte string, and
 * `atob` undoes `btoa` for every Latin-1 string.
 */
module Base64RoundTrip {
  import opened Wrappers
  import opened Base64

  lemma GroupBits(b0: Byte, b1: Byte, b2: Byte)
    ensures DecodeFull(Char(b0 / 4), Char((b0 % 4) * 16 + b1 / 16), Char((b1 % 16) * 4 + b2 / 64), Char(b2 % 64))
            == Some([b0, b1, b2])
  {
    var x, y, z, w := b0 / 4, (b0 % 4) * 16 + b1 / 16, (b1 % 16) * 4 + b2 / 64, b2 % 64;
    IndexOfChar(x);
    IndexOfChar(y);
    IndexOfChar(z);
    IndexOfChar(w);
    assert y / 16 == b0 % 4 && y % 16 == b1 / 16;
    assert z / 4 == b1 % 16 && z % 4 == b2 / 64;
  }

  lemma OneByteBits(b0: Byte)
    ensures DecodeFinal(Char(b0 / 4), Char((b0 % 4) * 16), '=', '=') == Some([b0])
  {
    IndexOfChar(b0 / 4);
    IndexOfChar((b0 % 4) * 16);
  }

  lemma TwoByteBits(b0: Byte, b1: Byte)
    ensures DecodeFinal(Char(b0 / 4), Char((b0 % 4) * 16 + b1 / 16), Char((b1 % 16) * 4), '=') == Some([b0, b1])
  {
    var x, y, z := b0 / 4, (b0 % 4) * 16 + b1 / 16, (b1 % 16) * 4;
    IndexOfChar(x);
    IndexOfChar(y);
    IndexOfChar(z);
    assert y / 16 == b0 % 4 && y % 16 == b1 / 16;
    assert z / 4 == b1 % 16;
  }

  /** A whole group in front of decodable text decodes to its bytes in front. */
  lemma DecodeGroupThen(g: string, rest: string, x: seq<Byte>, y: seq<Byte>)
    requires |g| == 4 && g[3] != '='
    requires DecodeFull(g[0], g[1], g[2], g[3]) == Some(x)
    requires Decode(rest) == Some(y)
    ensures Decode(g + rest) == Some(x + y)
  {
    var s := g + rest;
    assert s[0] == g[0] && s[1] == g[1] && s[2] == g[2] && s[3] == g[3];
    if rest == [] {
      assert s == g;
      assert x + y == x;
    } else {
      assert s[4..] == rest;
    }
  }

  /** Four characters are decoded as the final group. */
  lemma DecodeQuad(a: char, b: char, c: char, d: char)
    ensures Decode([a, b, c, d]) == DecodeFinal(a, b, c, d)
  {
  }

  lemma DecodeEncodeOne(bs: seq<Byte>)
    requires |bs| == 1
    ensures Decode(Encode(bs)) == Some(bs)
  {
    var b0 := bs[0];
    OneByteBits(b0);
    DecodeQuad(Char(b0 / 4), Char((b0 % 4) * 16), '=', '=');
    assert Encode(bs) == [Char(b0 / 4), Char((b0 % 4) * 16), '=', '='];
    assert bs == [b0];
  }

  lemma DecodeEncodeTwo(bs: seq<Byte>)
    requires |bs| == 2
    ensures Decode(Encode(bs)) == Some(bs)
  {
    var b0, b1 := bs[0], bs[1];
    var x, y, z := Char(b0 / 4), Char((b0 % 4) * 16 + b1 / 16), Char((b1 % 16) * 4);
    TwoByteBits(b0, b1);
    DecodeQuad(x, y, z, '=');
    EncodeTwo(bs);
  }

  lemma EncodeTwo(bs: seq<Byte>)
    requires |bs| == 2
    ensures Encode(bs) == [Char(bs[0] / 4), Char((bs[0] % 4) * 16 + bs[1] / 16), Char((bs[1] % 16) * 4), '=']
    ensures bs == [bs[0], bs[1]]
  {
  }

  /** Every byte string survives encoding and decoding. */
  lemma {:induction false} DecodeEncode(bs: seq<Byte>)
    ensures Decode(Encode(bs)) == Some(bs)
    decreases |bs|
  {
    if |bs| >= 3 {
      DecodeEncode(bs[3..]);
      DecodeEncodeGroup(bs);
    } else if |bs| == 2 {
      DecodeEncodeTwo(bs);
    } else if |bs| == 1 {
      DecodeEncodeOne(bs);
    } else {
      assert Encode(bs) == [];
    }
  }

  lemma DecodeEncodeGroup(bs: seq<Byte>)
    requires |bs| >= 3
    requires Decode(Encode(bs[3..])) == Some(bs[3..])
    ensures Decode(Encode(bs)) == Some(bs)
  {
    EncodedGroupDecodes(bs);
    SplitGroup(bs);
  }

  lemma SplitGroup(bs: seq<Byte>)
    requires |bs| >= 3
    ensures [bs[0], bs[1], bs[2]] + bs[3..] == bs
  {
  }

  lemma EncodedGroupDecodes(bs: seq<Byte>)
    requires |bs| >= 3
    requires Decode(Encode(bs[3..])) == Some(bs[3..])
    ensures Decode(Encode(bs)) == Some([bs[0], bs[1], bs[2]] + bs[3..])
  {
    DecodeGroupEncoded(bs[0], bs[1], bs[2], bs[3..]);
    EncodeStep(bs);
  }

  lemma DecodeGroupEncoded(b0: Byte, b1: Byte, b2: Byte, tail: seq<Byte>)
    requires Decode(Encode(tail)) == Some(tail)
    ensures Decode(Group(b0, b1, b2) + Encode(tail)) == Some([b0, b1, b2] + tail)
  {
    GroupDecodes(b0, b1, b2);
    DecodeGroupThen(Group(b0, b1, b2), Encode(tail), [b0, b1, b2], tail);
  }

  lemma EncodeStep(bs: seq<Byte>)
    requires |bs| >= 3
    ensures Encode(bs) == Group(bs[0], bs[1], bs[2]) + Encode(bs[3..])
  {
  }

  lemma GroupDecodes(b0: Byte, b1: Byte, b2: Byte)
    ensures |Group(b0, b1, b2)| == 4 && Group(b0, b1, b2)[3] != '='
    ensures DecodeFull(Group(b0, b1, b2)[0], Group(b0, b1, b2)[1], Group(b0, b1, b2)[2], Group(b0, b1, b2)[3])
            == Some([b0, b1, b2])
  {
    GroupBits(b0, b1, b2);
  }

  /** Distinct byte strings have distinct encodings. */
  lemma EncodeInjective(a: seq<Byte>, b: seq<Byte>)
    requires Encode(a) == Encode(b)
    ensures a == b
  {
    DecodeEncode(a);
    DecodeEncode(b);
  }

  /** `atob` undoes `btoa`, and `btoa` writes only the alphabet and `=`. */
  lemma AtobBtoa(s: string)
    requires Latin1(s)
    ensures Btoa(s).Some?
    ensures Atob(Btoa(s).value) == Some(s)
    ensures forall i :: 0 <= i < |Btoa(s).value| ==> InAlphabet(Btoa(s).value[i]) || Btoa(s).value[i] == '='
  {
    DecodeEncode(Bytes(s));
    assert Chars(Bytes(s)) == s;
  }
}
