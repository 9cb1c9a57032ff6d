/**
 * JSON text (RFC 8259) as the input-token helpers write and read it: the
 * compact form `JSON.stringify` produces with a replacer that writes NaN as
 * the string "__NAN__", and `JSON.parse` with a reviver that turns that string
 * back into NaN. Numbers are integers.
 */
module JsonText {
  import opened Wrappers
  import opened JsValues
  import Utf8

  const NanSentinel: string := "__NAN__"

  // ---- writing ----

  function HexLower(d: int): char
    requires 0 <= d < 16
  {
    if d < 10 then ('0' as int + d) as char else ('a' as int + d - 10) as char
  }

  /** How `JSON.stringify` writes one character inside a string literal. */
  function EscapeChar(c: char): string
  {
    if c == '"' then "\\\""
    else if c == '\\' then "\\\\"
    else if c as int == 8 then "\\b"
    else if c == '\t' then "\\t"
    else if c == '\n' then "\\n"
    else if c as int == 12 then "\\f"
    else if c == '\r' then "\\r"
    else if c as int < 0x20 then "\\u00" + [HexLower(c as int / 16), HexLower(c as int % 16)]
    else [c]
  }

  function Escape(s: string): string
  {
    if s == [] then [] else EscapeChar(s[0]) + Escape(s[1..])
  }

  function Quote(s: string): string
  {
    "\"" + Escape(s) + "\""
  }

  /**
   * The text of a value after the replacer has seen it. An undefined value
   * here is an array element, which is written as null; undefined object
   * members are skipped by `MemberParts`.
   */
  function Text(v: JsValue): string
    decreases v, 1
  {
    match v
    case Undefined => "null"
    case Null => "null"
    case Bool(b) => if b then "true" else "false"
    case Num(n) => IntText(n)
    case NaN => Quote(NanSentinel)
    case Str(s) => Quote(s)
    case Arr(es) => if es == [] then "[]" else "[" + ElementsText(es) + "]"
    case Obj(ms) => var parts := MemberParts(ms); if parts == [] then "{}" else "{" + JoinComma(parts) + "}"
  }

  function ElementsText(es: seq<JsValue>): string
    requires es != []
    decreases es, 0
  {
    if |es| == 1 then Text(es[0]) else Text(es[0]) + "," + ElementsText(es[1..])
  }

  /** `"key":value` for each member whose value is not undefined, in order. */
  function MemberParts(ms: seq<Member>): seq<string>
    decreases ms, 0
  {
    if ms == [] then []
    else if ms[0].value.Undefined? then MemberParts(ms[1..])
    else [Quote(ms[0].key) + ":" + Text(ms[0].value)] + MemberParts(ms[1..])
  }

  function JoinComma(parts: seq<string>): string
    requires parts != []
  {
    if |parts| == 1 then parts[0] else parts[0] + "," + JoinComma(parts[1..])
  }

  /** `JSON.stringify(v, replacer)`: no text at all for a bare undefined. */
  function Stringify(v: JsValue): (r: Option<string>)
    ensures r.None? <==> v.Undefined?
  {
    if v.Undefined? then None else Some(Text(v))
  }

  // ---- reading ----

  predicate IsDigit(c: char) { '0' <= c <= '9' }

  function DigitRun(s: string): (r: string)
    ensures |r| <= |s| && r == s[..|r|]
    ensures forall i :: 0 <= i < |r| ==> IsDigit(r[i])
  {
    if s != [] && IsDigit(s[0]) then [s[0]] + DigitRun(s[1..]) else []
  }

  /** An integer: an optional `-` and digits without a leading zero. */
  function ParseNumber(s: string): (r: Option<(JsValue, string)>)
    ensures r.Some? ==> |r.value.1| < |s|
  {
    var neg := s != [] && s[0] == '-';
    var body := if neg then s[1..] else s;
    var run := DigitRun(body);
    if run == [] || (run[0] == '0' && |run| > 1) then None
    else var n: int := DigitsValue(run); Some((Num(if neg then -n else n), body[|run|..]))
  }

  predicate IsHexChar(c: char) { IsDigit(c) || 'a' <= c <= 'f' || 'A' <= c <= 'F' }

  function HexCharValue(c: char): (d: int)
    requires IsHexChar(c)
    ensures 0 <= d < 16
  {
    if IsDigit(c) then c as int - '0' as int else if 'a' <= c <= 'f' then c as int - 'a' as int + 10 else c as int - 'A' as int + 10
  }

  /** The character a one-letter escape stands for. */
  function SimpleEscape(e: char): Option<char>
  {
    if e == '"' || e == '\\' || e == '/' then Some(e)
    else if e == 'b' then Some(8 as char)
    else if e == 'f' then Some(12 as char)
    else if e == 'n' then Some('\n')
    else if e == 'r' then Some('\r')
    else if e == 't' then Some('\t')
    else None
  }

  /** The rest of a string literal after its opening quote: its characters and the text after the closing quote. */
  function ParseStringBody(s: string): (r: Option<(string, string)>)
    ensures r.Some? ==> |r.value.1| < |s|
  {
    if s == [] then None
    else if s[0] == '"' then Some(([], s[1..]))
    else if s[0] == '\\' then
      if |s| < 2 then None
      else if SimpleEscape(s[1]).Some? then
        match ParseStringBody(s[2..])
        case Some((t, rest)) => Some(([SimpleEscape(s[1]).value] + t, rest))
        case None => None
      else if s[1] == 'u' && |s| >= 6 && IsHexChar(s[2]) && IsHexChar(s[3]) && IsHexChar(s[4]) && IsHexChar(s[5]) then
        var cp := HexCharValue(s[2]) * 4096 + HexCharValue(s[3]) * 256 + HexCharValue(s[4]) * 16 + HexCharValue(s[5]);
        if !Utf8.IsScalar(cp) then None
        else match ParseStringBody(s[6..])
          case Some((t, rest)) => Some(([cp as char] + t, rest))
          case None => None
      else None
    else if s[0] as int < 0x20 then None
    else match ParseStringBody(s[1..])
      case Some((t, rest)) => Some(([s[0]] + t, rest))
      case None => None
  }

  /** The reviver: a string equal to the sentinel becomes NaN. */
  function Revive(s: string): JsValue
  {
    if s == NanSentinel then NaN else Str(s)
  }

  function ParseValue(s: string): (r: Option<(JsValue, string)>)
    ensures r.Some? ==> |r.value.1| < |s|
    decreases |s|, 0
  {
    if s == [] then None
    else if s[0] == 'n' then if |s| >= 4 && s[..4] == "null" then Some((Null, s[4..])) else None
    else if s[0] == 't' then if |s| >= 4 && s[..4] == "true" then Some((Bool(true), s[4..])) else None
    else if s[0] == 'f' then if |s| >= 5 && s[..5] == "false" then Some((Bool(false), s[5..])) else None
    else if s[0] == '"' then
      match ParseStringBody(s[1..])
      case Some((t, rest)) => Some((Revive(t), rest))
      case None => None
    else if s[0] == '-' || IsDigit(s[0]) then ParseNumber(s)
    else if s[0] == '[' then
      if |s| >= 2 && s[1] == ']' then Some((Arr([]), s[2..]))
      else match ParseElements(s[1..])
        case Some((es, rest)) => Some((Arr(es), rest))
        case None => None
    else if s[0] == '{' then
      if |s| >= 2 && s[1] == '}' then Some((Obj([]), s[2..]))
      else match ParseMembers(s[1..])
        case Some((ms, rest)) => Some((Obj(ms), rest))
        case None => None
    else None
  }

  /** Elements up to and including the closing `]`. */
  function ParseElements(s: string): (r: Option<(seq<JsValue>, string)>)
    ensures r.Some? ==> |r.value.1| < |s|
    decreases |s|, 1
  {
    match ParseValue(s)
    case None => None
    case Some((v, rest)) =>
      if rest == [] then None
      else if rest[0] == ']' then Some(([v], rest[1..]))
      else if rest[0] == ',' then
        match ParseElements(rest[1..])
        case Some((vs, r)) => Some(([v] + vs, r))
        case None => None
      else None
  }

  /** Members up to and including the closing `}`. */
  function ParseMembers(s: string): (r: Option<(seq<Member>, string)>)
    ensures r.Some? ==> |r.value.1| < |s|
    decreases |s|, 1
  {
    if s == [] || s[0] != '"' then None
    else match ParseStringBody(s[1..])
      case None => None
      case Some((key, r1)) =>
        if r1 == [] || r1[0] != ':' then None
        else match ParseValue(r1[1..])
          case None => None
          case Some((v, rest)) =>
            if rest == [] then None
            else if rest[0] == '}' then Some(([Member(key, v)], rest[1..]))
            else if rest[0] == ',' then
              match ParseMembers(rest[1..])
              case Some((ms, r)) => Some(([Member(key, v)] + ms, r))
              case None => None
            else None
  }

  /** `JSON.parse(text, reviver)`: the whole text must be one value. */
  function Parse(text: string): Option<JsValue>
  {
    match ParseValue(text)
    case Some((v, rest)) => if rest == [] then Some(v) else None
    case None => None
  }
}
