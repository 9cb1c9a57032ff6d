/**
 * What reading back the helpers' JSON text gives: the value with undefined
 * object members dropped and undefined array elements turned into null,
 * provided no string in it is the NaN sentinel.
 */
module JsonRoundTrip {
  import opened Wrappers
  import opened JsValues
  import opened JsonText

  /** The value JSON can carry: undefined members dropped, undefined elements as null. */
  function Normalize(v: JsValue): JsValue
    decreases v, 1
  {
    match v
    case Undefined => Null
    case Arr(es) => Arr(NormalizeElems(es))
    case Obj(ms) => Obj(NormalizeMembers(ms))
    case _ => v
  }

  function NormalizeElems(es: seq<JsValue>): (r: seq<JsValue>)
    ensures |r| == |es|
    decreases es, 0
  {
    if es == [] then [] else [Normalize(es[0])] + NormalizeElems(es[1..])
  }

  function NormalizeMembers(ms: seq<Member>): seq<Member>
    decreases ms, 0
  {
    if ms == [] then []
    else if ms[0].value.Undefined? then NormalizeMembers(ms[1..])
    else [Member(ms[0].key, Normalize(ms[0].value))] + NormalizeMembers(ms[1..])
  }

  /** No string anywhere in the value (object keys aside) is the NaN sentinel. */
  predicate NoSentinel(v: JsValue)
    decreases v, 1
  {
    match v
    case Str(s) => s != NanSentinel
    case Arr(es) => NoSentinelElems(es)
    case Obj(ms) => NoSentinelMembers(ms)
    case _ => true
  }

  predicate NoSentinelElems(es: seq<JsValue>)
    decreases es, 0
  {
    es == [] || (NoSentinel(es[0]) && NoSentinelElems(es[1..]))
  }

  predicate NoSentinelMembers(ms: seq<Member>)
    decreases ms, 0
  {
    ms == [] || (NoSentinel(ms[0].value) && NoSentinelMembers(ms[1..]))
  }

  /** No undefined anywhere in the value. */
  predicate Defined(v: JsValue)
    decreases v, 1
  {
    match v
    case Undefined => false
    case Arr(es) => DefinedElems(es)
    case Obj(ms) => DefinedMembers(ms)
    case _ => true
  }

  predicate DefinedElems(es: seq<JsValue>)
    decreases es, 0
  {
    es == [] || (Defined(es[0]) && DefinedElems(es[1..]))
  }

  predicate DefinedMembers(ms: seq<Member>)
    decreases ms, 0
  {
    ms == [] || (Defined(ms[0].value) && DefinedMembers(ms[1..]))
  }

  /** What may follow a value inside JSON text. */
  predicate Delimits(rest: string)
  {
    rest == [] || rest[0] == ',' || rest[0] == ']' || rest[0] == '}'
  }

  // ---- strings ----

  lemma HexLowerValue(d: int)
    requires 0 <= d < 16
    ensures IsHexChar(HexLower(d)) && HexCharValue(HexLower(d)) == d
  {}

  lemma ParseEscapeChar(c: char, tail: string)
    ensures ParseStringBody(EscapeChar(c) + tail) ==
      match ParseStringBody(tail)
      case Some((t, r)) => Some(([c] + t, r))
      case None => None
  {
    var cp := c as int;
    if c == '"' || c == '\\' || cp == 8 || c == '\t' || c == '\n' || cp == 12 || c == '\r' {
      ParseShortEscape(c, tail);
    } else if cp < 0x20 {
      ParseUnicodeEscape(c, tail);
    } else {
      var s := EscapeChar(c) + tail;
      assert s[1..] == tail;
    }
  }

  /** A character written as a backslash and one letter. */
  lemma ParseShortEscape(c: char, tail: string)
    requires c == '"' || c == '\\' || c as int == 8 || c == '\t' || c == '\n' || c as int == 12 || c == '\r'
    ensures ParseStringBody(EscapeChar(c) + tail) ==
      match ParseStringBody(tail)
      case Some((t, r)) => Some(([c] + t, r))
      case None => None
  {
    var e := EscapeChar(c);
    assert |e| == 2 && e[0] == '\\' && SimpleEscape(e[1]) == Some(c);
    var s := e + tail;
    assert s[0] == '\\' && s[1] == e[1];
    assert s[2..] == tail;
  }

  /** A control character written as `\u00` and two hex digits. */
  lemma ParseUnicodeEscape(c: char, tail: string)
    requires c as int < 0x20
    requires c as int != 8 && c != '\t' && c != '\n' && c as int != 12 && c != '\r'
    ensures ParseStringBody(EscapeChar(c) + tail) ==
      match ParseStringBody(tail)
      case Some((t, r)) => Some(([c] + t, r))
      case None => None
  {
    var cp := c as int;
    var hi, lo := HexLower(cp / 16), HexLower(cp % 16);
    HexLowerValue(cp / 16);
    HexLowerValue(cp % 16);
    var e := EscapeChar(c);
    assert e == ['\\', 'u', '0', '0', hi, lo];
    var s := e + tail;
    assert s[0] == '\\' && s[1] == 'u' && s[2] == '0' && s[3] == '0' && s[4] == hi && s[5] == lo;
    assert HexCharValue('0') * 4096 + HexCharValue('0') * 256 + HexCharValue(hi) * 16 + HexCharValue(lo) == cp;
    assert s[6..] == tail;
  }

  /** A string literal reads back as the string it was written from. */
  lemma {:induction false} ParseQuoted(s: string, rest: string)
    ensures ParseStringBody(Escape(s) + "\"" + rest) == Some((s, rest))
  {
    if s == [] {
      assert Escape(s) + "\"" + rest == "\"" + rest;
      assert ("\"" + rest)[1..] == rest;
    } else {
      var tail := Escape(s[1..]) + "\"" + rest;
      assert Escape(s) + "\"" + rest == EscapeChar(s[0]) + tail;
      ParseQuoted(s[1..], rest);
      ParseEscapeChar(s[0], tail);
      assert [s[0]] + s[1..] == s;
    }
  }

  lemma ParseQuoteValue(s: string, rest: string)
    ensures ParseValue(Quote(s) + rest) == Some((Revive(s), rest))
  {
    var t := Quote(s) + rest;
    ParseQuoted(s, rest);
    assert t[1..] == Escape(s) + "\"" + rest;
  }

  // ---- numbers ----

  lemma {:induction false} DigitRunOfDigits(d: string, rest: string)
    requires forall i :: 0 <= i < |d| ==> IsDigit(d[i])
    requires rest == [] || !IsDigit(rest[0])
    ensures DigitRun(d + rest) == d
  {
    if d == [] {
      assert d + rest == rest;
    } else {
      assert (d + rest)[1..] == d[1..] + rest;
      DigitRunOfDigits(d[1..], rest);
      assert [d[0]] + d[1..] == d;
    }
  }

  lemma ParseDigits(m: nat, rest: string)
    requires rest == [] || !IsDigit(rest[0])
    ensures DigitRun(Digits(m) + rest) == Digits(m)
    ensures (Digits(m) + rest)[|Digits(m)|..] == rest
    ensures Digits(m)[0] == '0' ==> |Digits(m)| == 1
    ensures DigitsValue(Digits(m)) == m
  {
    DigitRunOfDigits(Digits(m), rest);
    DigitsValueOfDigits(m);
  }

  lemma DispatchNumber(s: string)
    requires s != [] && (s[0] == '-' || IsDigit(s[0]))
    ensures ParseValue(s) == ParseNumber(s)
  {}

  /** How `ParseNumber` reads an optional sign and a run of digits without a leading zero. */
  lemma ReadSignedRun(neg: bool, d: string, rest: string)
    requires d != [] && (forall i :: 0 <= i < |d| ==> IsDigit(d[i])) && (d[0] == '0' ==> |d| == 1)
    requires DigitRun(d + rest) == d
    ensures var n: int := DigitsValue(d);
      ParseNumber((if neg then "-" else "") + (d + rest)) == Some((Num(if neg then -n else n), rest))
  {
    var body := d + rest;
    var s := (if neg then "-" else "") + body;
    if neg {
      assert s[0] == '-' && s[1..] == body;
    } else {
      assert s == body;
      assert s[0] != '-' by {
        assert s[0] == d[0];
      }
    }
    assert body[|d|..] == rest;
  }

  lemma ParseNatural(m: nat, rest: string)
    requires Delimits(rest)
    ensures ParseNumber(Digits(m) + rest) == Some((Num(m), rest))
  {
    ParseDigits(m, rest);
    ReadSignedRun(false, Digits(m), rest);
    assert "" + (Digits(m) + rest) == Digits(m) + rest;
  }

  lemma ParseNegative(m: nat, rest: string)
    requires m > 0
    requires Delimits(rest)
    ensures ParseNumber("-" + (Digits(m) + rest)) == Some((Num(-(m as int)), rest))
  {
    ParseDigits(m, rest);
    ReadSignedRun(true, Digits(m), rest);
  }

  lemma ParseInteger(n: int, rest: string)
    requires Delimits(rest)
    ensures ParseValue(IntText(n) + rest) == Some((Num(n), rest))
  {
    if n < 0 {
      NegativeText(n, rest);
    } else {
      var m: nat := n;
      assert IntText(n) + rest == Digits(m) + rest;
      ParseNatural(m, rest);
      DispatchNumber(Digits(m) + rest);
    }
  }

  lemma NegativeText(n: int, rest: string)
    requires n < 0
    requires Delimits(rest)
    ensures ParseValue(IntText(n) + rest) == Some((Num(n), rest))
  {
    var m: nat := -n;
    var d := Digits(m);
    assert IntText(n) == "-" + d;
    SignLayout(d, rest);
    ParseNegative(m, rest);
    DispatchNumber("-" + (d + rest));
  }

  lemma SignLayout(d: string, rest: string)
    ensures ("-" + d) + rest == "-" + (d + rest)
  {
  }

  // ---- values ----

  /** Every text starts with a character that opens a value, never a closing bracket. */
  lemma TextStart(v: JsValue)
    ensures Text(v) != []
    ensures Text(v)[0] != ']' && Text(v)[0] != '}'
  {
    match v
    case Num(n) => assert Text(v)[0] == '-' || IsDigit(Text(v)[0]);
    case _ =>
  }

  lemma {:induction false} PartsMatchMembers(ms: seq<Member>)
    ensures |MemberParts(ms)| == |NormalizeMembers(ms)|
  {
    if ms != [] {
      PartsMatchMembers(ms[1..]);
    }
  }

  lemma ParseKeyword(word: string, v: JsValue, rest: string)
    requires word == "null" || word == "true" || word == "false"
    requires v == (if word == "null" then Null else Bool(word == "true"))
    ensures ParseValue(word + rest) == Some((v, rest))
  {
    var s := word + rest;
    assert s[..|word|] == word;
    assert s[|word|..] == rest;
  }

  /** The central round trip: a value's text, followed by a delimiter, reads back as the normalized value. */
  lemma {:induction false} ParseText(v: JsValue, rest: string)
    requires NoSentinel(v)
    requires Delimits(rest)
    ensures ParseValue(Text(v) + rest) == Some((Normalize(v), rest))
    decreases v, 2
  {
    match v
    case Undefined => ParseKeyword("null", Null, rest);
    case Null => ParseKeyword("null", Null, rest);
    case Bool(b) => ParseKeyword(if b then "true" else "false", v, rest);
    case Num(n) => ParseInteger(n, rest);
    case NaN => ParseQuoteValue(NanSentinel, rest);
    case Str(s) => ParseQuoteValue(s, rest);
    case Arr(es) => ParseArrayText(es, rest);
    case Obj(ms) => ParseObjectText(ms, rest);
  }

  lemma DispatchArray(s: string)
    requires |s| >= 2 && s[0] == '[' && s[1] != ']'
    ensures ParseValue(s) == match ParseElements(s[1..]) case Some((es, r)) => Some((Arr(es), r)) case None => None
  {}

  lemma DispatchObject(s: string)
    requires |s| >= 2 && s[0] == '{' && s[1] != '}'
    ensures ParseValue(s) == match ParseMembers(s[1..]) case Some((ms, r)) => Some((Obj(ms), r)) case None => None
  {}

  lemma {:induction false} ParseArrayText(es: seq<JsValue>, rest: string)
    requires NoSentinelElems(es)
    requires Delimits(rest)
    ensures ParseValue(Text(Arr(es)) + rest) == Some((Arr(NormalizeElems(es)), rest))
    decreases es, 1
  {
    if es == [] {
      var s := "[]" + rest;
      assert s[2..] == rest;
    } else {
      var inner := ElementsText(es) + "]" + rest;
      var s := "[" + inner;
      assert Text(Arr(es)) + rest == s;
      assert s[1..] == inner;
      ElementsTextStart(es);
      DispatchArray(s);
      ParseElementsText(es, rest);
    }
  }

  lemma {:induction false} ParseObjectText(ms: seq<Member>, rest: string)
    requires NoSentinelMembers(ms)
    requires Delimits(rest)
    ensures ParseValue(Text(Obj(ms)) + rest) == Some((Obj(NormalizeMembers(ms)), rest))
    decreases ms, 2
  {
    PartsMatchMembers(ms);
    if MemberParts(ms) == [] {
      var s := "{}" + rest;
      assert s[2..] == rest;
    } else {
      var j := JoinComma(MemberParts(ms));
      JoinCommaStart(ms);
      ParseMemberParts(ms, rest);
      OpenObject(j, rest);
    }
  }

  /** An object's text reads as its members once the opening brace is passed. */
  lemma OpenObject(j: string, rest: string)
    requires j != [] && j[0] == '"'
    ensures ParseValue("{" + j + "}" + rest) ==
      match ParseMembers(j + "}" + rest) case Some((ms, r)) => Some((Obj(ms), r)) case None => None
  {
    var s := "{" + j + "}" + rest;
    assert s[1] == j[0];
    assert s[1..] == j + "}" + rest;
    DispatchObject(s);
  }

  lemma ElementsTextStart(es: seq<JsValue>)
    requires es != []
    ensures ElementsText(es) != [] && ElementsText(es)[0] != ']'
  {
    TextStart(es[0]);
  }

  lemma {:induction false} JoinCommaStart(ms: seq<Member>)
    requires MemberParts(ms) != []
    ensures JoinComma(MemberParts(ms)) != [] && JoinComma(MemberParts(ms))[0] == '"'
  {
    if ms[0].value.Undefined? {
      JoinCommaStart(ms[1..]);
    } else {
      var parts := MemberParts(ms);
      assert parts[0][0] == '"';
      assert JoinComma(parts)[0] == parts[0][0];
    }
  }

  lemma ParseElement(s: string, v: JsValue, rest: string)
    requires ParseValue(s) == Some((v, rest))
    ensures rest != [] && rest[0] == ']' ==> ParseElements(s) == Some(([v], rest[1..]))
    ensures rest != [] && rest[0] == ',' ==>
      (ParseElements(s) == match ParseElements(rest[1..]) case Some((vs, r)) => Some(([v] + vs, r)) case None => None)
  {}

  lemma {:induction false} ParseElementsText(es: seq<JsValue>, rest: string)
    requires es != []
    requires NoSentinelElems(es)
    requires Delimits(rest)
    ensures ParseElements(ElementsText(es) + "]" + rest) == Some((NormalizeElems(es), rest))
    decreases es, 0
  {
    if |es| == 1 {
      var after := "]" + rest;
      assert ElementsText(es) + "]" + rest == Text(es[0]) + after;
      ParseText(es[0], after);
      ParseElement(Text(es[0]) + after, Normalize(es[0]), after);
      assert after[1..] == rest;
      assert es[1..] == [];
      assert NormalizeElems(es) == [Normalize(es[0])];
    } else {
      var more := ElementsText(es[1..]) + "]" + rest;
      var after := "," + more;
      assert ElementsText(es) + "]" + rest == Text(es[0]) + after;
      ParseText(es[0], after);
      ParseElement(Text(es[0]) + after, Normalize(es[0]), after);
      assert after[1..] == more;
      ParseElementsText(es[1..], rest);
    }
  }

  /** One member read by `ParseMembers`, given how its key and value read. */
  lemma ParseMember(s: string, key: string, r1: string, v: JsValue, rest: string)
    requires s != [] && s[0] == '"'
    requires ParseStringBody(s[1..]) == Some((key, r1))
    requires r1 != [] && r1[0] == ':'
    requires ParseValue(r1[1..]) == Some((v, rest))
    ensures rest != [] && rest[0] == '}' ==> ParseMembers(s) == Some(([Member(key, v)], rest[1..]))
    ensures rest != [] && rest[0] == ',' ==>
      (ParseMembers(s) == match ParseMembers(rest[1..]) case Some((ms, r)) => Some(([Member(key, v)] + ms, r)) case None => None)
  {}

  /** Where the parts of one member's text sit. */
  lemma MemberLayout(key: string, t: string, after: string)
    ensures Quote(key) + ":" + t + after == "\"" + (Escape(key) + "\"" + (":" + t + after))
    ensures (":" + t + after)[1..] == t + after
  {
  }

  /** A defined member's text reads back as its key and normalized value, then goes on after it. */
  lemma {:induction false} ParseMemberText(key: string, v: JsValue, after: string)
    requires NoSentinel(v)
    requires after != [] && (after[0] == '}' || after[0] == ',')
    ensures after[0] == '}' ==> ParseMembers(Quote(key) + ":" + Text(v) + after) == Some(([Member(key, Normalize(v))], after[1..]))
    ensures after[0] == ',' ==>
      (ParseMembers(Quote(key) + ":" + Text(v) + after) ==
        match ParseMembers(after[1..]) case Some((ms, r)) => Some(([Member(key, Normalize(v))] + ms, r)) case None => None)
    decreases v, 3
  {
    var t := Text(v);
    var r1 := ":" + t + after;
    MemberLayout(key, t, after);
    ParseQuoted(key, r1);
    ParseText(v, after);
    ParseMember("\"" + (Escape(key) + "\"" + r1), key, r1, Normalize(v), after);
  }

  lemma {:induction false} ParseMemberParts(ms: seq<Member>, rest: string)
    requires MemberParts(ms) != []
    requires NoSentinelMembers(ms)
    requires Delimits(rest)
    ensures ParseMembers(JoinComma(MemberParts(ms)) + "}" + rest) == Some((NormalizeMembers(ms), rest))
    decreases ms, 1
  {
    if ms[0].value.Undefined? {
      ParseMemberParts(ms[1..], rest);
    } else if MemberParts(ms[1..]) == [] {
      ParseOnlyMember(ms, rest);
    } else {
      ParseMemberParts(ms[1..], rest);
      ParseFirstMember(ms, rest);
    }
  }

  /** The last defined member, closing the object. */
  lemma ParseOnlyMember(ms: seq<Member>, rest: string)
    requires ms != [] && !ms[0].value.Undefined? && MemberParts(ms[1..]) == []
    requires NoSentinelMembers(ms)
    ensures MemberParts(ms) != []
    ensures ParseMembers(JoinComma(MemberParts(ms)) + "}" + rest) == Some((NormalizeMembers(ms), rest))
    decreases ms, 0
  {
    var m := ms[0];
    var after := "}" + rest;
    PartsMatchMembers(ms[1..]);
    OnlyPart(ms);
    var j := JoinComma(MemberParts(ms));
    assert j + "}" + rest == j + after;
    ParseMemberText(m.key, m.value, after);
    assert after[1..] == rest;
  }

  lemma OnlyPart(ms: seq<Member>)
    requires ms != [] && !ms[0].value.Undefined? && MemberParts(ms[1..]) == []
    requires NormalizeMembers(ms[1..]) == []
    ensures MemberParts(ms) == [Quote(ms[0].key) + ":" + Text(ms[0].value)]
    ensures JoinComma(MemberParts(ms)) == Quote(ms[0].key) + ":" + Text(ms[0].value)
    ensures NormalizeMembers(ms) == [Member(ms[0].key, Normalize(ms[0].value))]
  {
  }

  /** A defined member followed by further defined members. */
  lemma ParseFirstMember(ms: seq<Member>, rest: string)
    requires ms != [] && !ms[0].value.Undefined? && MemberParts(ms[1..]) != []
    requires NoSentinelMembers(ms)
    requires ParseMembers(JoinComma(MemberParts(ms[1..])) + "}" + rest) == Some((NormalizeMembers(ms[1..]), rest))
    ensures MemberParts(ms) != []
    ensures ParseMembers(JoinComma(MemberParts(ms)) + "}" + rest) == Some((NormalizeMembers(ms), rest))
    decreases ms, 0
  {
    var m := ms[0];
    var more := JoinComma(MemberParts(ms[1..])) + "}" + rest;
    var after := "," + more;
    FirstPart(ms);
    CommaLayout(Quote(m.key) + ":" + Text(m.value), JoinComma(MemberParts(ms[1..])), rest);
    ParseMemberText(m.key, m.value, after);
  }

  lemma CommaLayout(head: string, more: string, rest: string)
    ensures head + "," + more + "}" + rest == head + ("," + (more + "}" + rest))
    ensures ("," + (more + "}" + rest))[1..] == more + "}" + rest
  {
  }

  lemma FirstPart(ms: seq<Member>)
    requires ms != [] && !ms[0].value.Undefined? && MemberParts(ms[1..]) != []
    ensures JoinComma(MemberParts(ms)) == Quote(ms[0].key) + ":" + Text(ms[0].value) + "," + JoinComma(MemberParts(ms[1..]))
    ensures NormalizeMembers(ms) == [Member(ms[0].key, Normalize(ms[0].value))] + NormalizeMembers(ms[1..])
  {
    var parts := MemberParts(ms);
    assert parts[1..] == MemberParts(ms[1..]);
  }

  // ---- consequences ----

  /** Reading the text of any value without the sentinel gives the value with undefined dropped or nulled. */
  lemma ParseStringify(v: JsValue)
    requires !v.Undefined?
    requires NoSentinel(v)
    ensures Stringify(v).Some?
    ensures Parse(Stringify(v).value) == Some(Normalize(v))
  {
    ParseText(v, []);
    assert Text(v) + [] == Text(v);
  }

  /** A value without undefined anywhere comes back deep-equal. */
  lemma {:induction false} NormalizeDefined(v: JsValue)
    requires Defined(v)
    ensures Normalize(v) == v
    decreases v, 1
  {
    match v
    case Arr(es) => NormalizeDefinedElems(es);
    case Obj(ms) => NormalizeDefinedMembers(ms);
    case _ =>
  }

  lemma {:induction false} NormalizeDefinedElems(es: seq<JsValue>)
    requires DefinedElems(es)
    ensures NormalizeElems(es) == es
    decreases es, 0
  {
    if es != [] {
      NormalizeDefined(es[0]);
      NormalizeDefinedElems(es[1..]);
      assert [es[0]] + es[1..] == es;
    }
  }

  lemma {:induction false} NormalizeDefinedMembers(ms: seq<Member>)
    requires DefinedMembers(ms)
    ensures NormalizeMembers(ms) == ms
    decreases ms, 0
  {
    if ms != [] {
      NormalizeDefined(ms[0].value);
      NormalizeDefinedMembers(ms[1..]);
      assert [ms[0]] + ms[1..] == ms;
    }
  }

  /** The names of a member list. */
  function Names(ms: seq<Member>): set<string>
  {
    if ms == [] then {} else {ms[0].key} + Names(ms[1..])
  }

  /** The names of the members whose value is not undefined. */
  function DefinedNames(ms: seq<Member>): set<string>
  {
    if ms == [] then {} else (if ms[0].value.Undefined? then {} else {ms[0].key}) + DefinedNames(ms[1..])
  }

  /** After the round trip an object has exactly the members whose value was defined. */
  lemma {:induction false} NormalizeMembersNames(ms: seq<Member>)
    ensures Names(NormalizeMembers(ms)) == DefinedNames(ms)
  {
    if ms != [] {
      NormalizeMembersNames(ms[1..]);
      if !ms[0].value.Undefined? {
        assert ([Member(ms[0].key, Normalize(ms[0].value))] + NormalizeMembers(ms[1..]))[1..] == NormalizeMembers(ms[1..]);
      }
    }
  }

  /**
   * What JSON text cannot tell apart: a value and its normal form have the
   * same text, so undefined members leave no trace in it.
   */
  lemma {:induction false} TextNormalize(v: JsValue)
    ensures Text(Normalize(v)) == Text(v)
    decreases v, 1
  {
    match v
    case Arr(es) =>
      if es != [] {
        ElementsTextNormalize(es);
      }
    case Obj(ms) => MemberPartsNormalize(ms);
    case _ =>
  }

  lemma {:induction false} ElementsTextNormalize(es: seq<JsValue>)
    requires es != []
    ensures ElementsText(NormalizeElems(es)) == ElementsText(es)
    decreases es, 0
  {
    var ns := NormalizeElems(es);
    assert ns[0] == Normalize(es[0]);
    TextNormalize(es[0]);
    if |es| > 1 {
      assert ns[1..] == NormalizeElems(es[1..]);
      ElementsTextNormalize(es[1..]);
    }
  }

  lemma {:induction false} MemberPartsNormalize(ms: seq<Member>)
    ensures MemberParts(NormalizeMembers(ms)) == MemberParts(ms)
    decreases ms, 0
  {
    if ms != [] {
      MemberPartsNormalize(ms[1..]);
      if !ms[0].value.Undefined? {
        var m := Member(ms[0].key, Normalize(ms[0].value));
        var ns := [m] + NormalizeMembers(ms[1..]);
        assert ns[0] == m && ns[1..] == NormalizeMembers(ms[1..]);
        assert !m.value.Undefined?;
        TextNormalize(ms[0].value);
      }
    }
  }

  /** A string and a number with the same digits stay apart: their texts differ. */
  lemma TextKeepsStringsApart(n: int)
    ensures Text(Str(IntText(n))) != Text(Num(n))
  {
    assert Text(Str(IntText(n)))[0] == '"';
    assert Text(Num(n))[0] == '-' || IsDigit(Text(Num(n))[0]);
  }

  /** Why the sentinel must not occur: a genuine "__NAN__" string comes back as NaN. */
  lemma SentinelStringBecomesNaN()
    ensures Parse(Text(Str(NanSentinel))) == Some(NaN)
    ensures Text(Str(NanSentinel)) == Text(NaN)
  {
    ParseQuoteValue(NanSentinel, []);
    assert Quote(NanSentinel) + [] == Quote(NanSentinel);
  }
}
