/**
 * The slice of JavaScript values the library handles: the inputs handed to a
 * fetch function, the bodies of responses and the data returned by actions.
 * Numbers are integers plus a distinct NaN; objects keep their own enumerable
 * properties as an ordered member list.
 */
module JsValues {
  import opened Wrappers

  datatype JsValue =
    | Undefined
    | Null
    | Bool(b: bool)
    | Num(n: int)
    | NaN
    | Str(s: string)
    | Arr(elems: seq<JsValue>)
    | Obj(members: seq<Member>)

  datatype Member = Member(key: string, value: JsValue)

  /** JavaScript truthiness: undefined, null, false, 0, NaN and "" are falsy. */
  predicate Truthy(v: JsValue)
  {
    match v
    case Undefined => false
    case Null => false
    case Bool(b) => b
    case Num(n) => n != 0
    case NaN => false
    case Str(s) => s != []
    case Arr(_) => true
    case Obj(_) => true
  }

  function DigitChar(d: nat): (c: char)
    requires d < 10
    ensures '0' <= c <= '9'
  {
    ('0' as int + d) as char
  }

  /** Decimal digits of a natural number, most significant first, without leading zeros. */
  function Digits(n: nat): (r: string)
    ensures |r| >= 1
    ensures forall i :: 0 <= i < |r| ==> '0' <= r[i] <= '9'
    ensures r[0] == '0' ==> n == 0
  {
    if n < 10 then [DigitChar(n)] else Digits(n / 10) + [DigitChar(n % 10)]
  }

  /** Text of an integer as `String(n)` writes it. */
  function IntText(i: int): string
  {
    if i < 0 then "-" + Digits(-i) else Digits(i)
  }

  /** The value of a run of decimal digits (an independent reading of `Digits`). */
  function DigitsValue(s: string): nat
    requires forall i :: 0 <= i < |s| ==> '0' <= s[i] <= '9'
  {
    if s == [] then 0 else DigitsValue(s[..|s| - 1]) * 10 + (s[|s| - 1] as int - '0' as int)
  }

  lemma {:induction false} DigitsValueOfDigits(n: nat)
    ensures DigitsValue(Digits(n)) == n
  {
    if n >= 10 {
      var d := Digits(n);
      DigitsValueOfDigits(n / 10);
      assert d[..|d| - 1] == Digits(n / 10);
    }
  }

  /** Distinct naturals have distinct digit strings. */
  lemma DigitsInjective(m: nat, n: nat)
    requires Digits(m) == Digits(n)
    ensures m == n
  {
    DigitsValueOfDigits(m);
    DigitsValueOfDigits(n);
  }

  function Join(parts: seq<string>, sep: string): string
  {
    if parts == [] then [] else if |parts| == 1 then parts[0] else parts[0] + sep + Join(parts[1..], sep)
  }

  /**
   * `String(v)`: the text a value converts to. An array joins its elements with
   * commas, writing null and undefined elements as empty text; every plain
   * object converts to "[object Object]".
   */
  function ToJsString(v: JsValue): string
  {
    match v
    case Undefined => "undefined"
    case Null => "null"
    case Bool(b) => if b then "true" else "false"
    case Num(n) => IntText(n)
    case NaN => "NaN"
    case Str(s) => s
    case Arr(elems) => Join(ElementTexts(elems), ",")
    case Obj(_) => "[object Object]"
  }

  function ElementTexts(elems: seq<JsValue>): (r: seq<string>)
    ensures |r| == |elems|
  {
    if elems == [] then []
    else [if elems[0].Undefined? || elems[0].Null? then "" else ToJsString(elems[0])] + ElementTexts(elems[1..])
  }

  /**
   * `Object.entries(v)` for the values that reach it: the members of an object
   * in property order, the indexed elements of an array or string, and nothing
   * for the other primitives.
   */
  function Entries(v: JsValue): (r: seq<Member>)
    ensures v.Obj? ==> r == v.members
    ensures v.Arr? ==> |r| == |v.elems| && forall i :: 0 <= i < |r| ==> r[i] == Member(IntText(i), v.elems[i])
    ensures v.Str? ==> |r| == |v.s| && forall i :: 0 <= i < |r| ==> r[i] == Member(IntText(i), Str([v.s[i]]))
    ensures !v.Obj? && !v.Arr? && !v.Str? ==> r == []
  {
    match v
    case Obj(ms) => ms
    case Arr(es) => seq(|es|, i requires 0 <= i < |es| => Member(IntText(i), es[i]))
    case Str(s) => seq(|s|, i requires 0 <= i < |s| => Member(IntText(i), Str([s[i]])))
    case _ => []
  }

  /** Property read `v[key]` on an object; later members shadow earlier ones. */
  function Get(v: JsValue, key: string): (r: JsValue)
    ensures !v.Obj? ==> r == Undefined
  {
    if v.Obj? then Lookup(v.members, key) else Undefined
  }

  function Lookup(ms: seq<Member>, key: string): (r: JsValue)
    ensures (forall i :: 0 <= i < |ms| ==> ms[i].key != key) ==> r == Undefined
    ensures |ms| > 0 && ms[|ms| - 1].key == key ==> r == ms[|ms| - 1].value
  {
    if ms == [] then Undefined
    else if ms[|ms| - 1].key == key then ms[|ms| - 1].value
    else Lookup(ms[..|ms| - 1], key)
  }

  /** `String(n)` and `String("<n>")` coincide, so a number and its text are indistinguishable once converted. */
  lemma NumberAndItsTextConvertAlike(n: int)
    ensures ToJsString(Num(n)) == ToJsString(Str(IntText(n)))
    ensures Num(n) != Str(IntText(n))
  {}

  /** `String` is injective on numbers. */
  lemma {:induction false} NumberTextInjective(m: int, n: int)
    requires ToJsString(Num(m)) == ToJsString(Num(n))
    ensures m == n
  {
    var a, b := IntText(m), IntText(n);
    if m < 0 && n < 0 {
      assert Digits(-m) == a[1..] == b[1..] == Digits(-n);
      DigitsInjective(-m, -n);
    } else if m >= 0 && n >= 0 {
      DigitsInjective(m, n);
    }
  }
}
