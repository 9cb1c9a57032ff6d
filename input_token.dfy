/**
 * The single-token input codec of the serialization helpers: the whole input
 * as JSON text (NaN written as the sentinel string), that text in base64 by
 * `btoa`, and the base64 escaped by `encodeURIComponent` into the one query
 * parameter `input`. The server side reads that parameter back, applies
 * `atob`, and parses the JSON with the reviver that restores NaN.
 */
module InputToken {
  import opened Wrappers
  import opened JsValues
  import Utf8
  import FormUrlencoded
  import Base64
  import Base64RoundTrip
  import opened JsonText
  import opened JsonRoundTrip

  const InputName: string := "input"

  // ---- encodeURIComponent ----

  /** The bytes `encodeURIComponent` leaves alone: alphanumerics and `-_.!~*'()`. */
  predicate IsUnreserved(b: Utf8.Byte)
  {
    (0x30 <= b <= 0x39) || (0x41 <= b <= 0x5A) || (0x61 <= b <= 0x7A)
    || b == 0x2D || b == 0x5F || b == 0x2E || b == 0x21 || b == 0x7E
    || b == 0x2A || b == 0x27 || b == 0x28 || b == 0x29
  }

  function EscapeByte(b: Utf8.Byte): string
  {
    if IsUnreserved(b) then [b as char]
    else ['%', FormUrlencoded.HexDigit(b / 16), FormUrlencoded.HexDigit(b % 16)]
  }

  function EscapeBytes(bs: seq<Utf8.Byte>): string
  {
    if bs == [] then [] else EscapeByte(bs[0]) + EscapeBytes(bs[1..])
  }

  /** `encodeURIComponent`: each UTF-8 byte of the text, escaped unless unreserved. */
  function EncodeUriComponent(s: string): string
  {
    EscapeBytes(Utf8.Encode(s))
  }

  // ---- The client side: createExpectedUrl ----

  /** The text `btoa` receives: `JSON.stringify` of `undefined` is `undefined`, which `btoa` reads as "undefined". */
  function Serialized(input: JsValue): (r: string)
    ensures input.Undefined? || Stringify(input) == Some(r)
  {
    if input.Undefined? then "undefined" else Text(input)
  }

  /** The base64 token, or `None` where `btoa` throws. */
  function Token(input: JsValue): (r: Option<string>)
    ensures r.Some? <==> Base64.Latin1(Serialized(input))
  {
    Base64.Btoa(Serialized(input))
  }

  /** The query string the client writes: `input=` and the escaped token. */
  function TokenQuery(input: JsValue): Option<string>
  {
    match Token(input)
    case Some(t) => Some(InputName + "=" + EncodeUriComponent(t))
    case None => None
  }

  /** The whole URL: the endpoint's URL, `?`, and the query. */
  function ExpectedUrl(baseUrl: string, input: JsValue): Option<string>
  {
    match TokenQuery(input)
    case Some(q) => Some(baseUrl + "?" + q)
    case None => None
  }

  // ---- The server side: createMockRequest and the reading of its token ----

  /** The search parameters of the request the server tests build: only `input`. */
  function MockParams(input: JsValue): Option<seq<FormUrlencoded.Pair>>
  {
    match Token(input)
    case Some(t) => Some([(InputName, t)])
    case None => None
  }

  /** `URLSearchParams.get`: the value of the first pair with that name. */
  function First(pairs: seq<FormUrlencoded.Pair>, name: string): (r: Option<string>)
    ensures r.Some? <==> exists i :: 0 <= i < |pairs| && pairs[i].0 == name
    ensures r.Some? ==> exists i :: 0 <= i < |pairs| && pairs[i] == (name, r.value) && forall j :: 0 <= j < i ==> pairs[j].0 != name
  {
    if pairs == [] then None
    else if pairs[0].0 == name then Some(pairs[0].1)
    else
      var r := First(pairs[1..], name);
      assert forall i :: 0 < i < |pairs| ==> pairs[i] == pairs[1..][i - 1];
      r
  }

  /** `atob`, then `JSON.parse` with the reviver. */
  function DecodeToken(token: string): Option<JsValue>
  {
    match Base64.Atob(token)
    case Some(text) => Parse(text)
    case None => None
  }

  /** The input the server reads from its search parameters. */
  function ReadInput(params: seq<FormUrlencoded.Pair>): Option<JsValue>
  {
    match First(params, InputName)
    case Some(t) => DecodeToken(t)
    case None => None
  }

  /** The input the server reads from a query string. */
  function ReadQuery(query: string): Option<JsValue>
  {
    match FormUrlencoded.Parse(query)
    case Some(params) => ReadInput(params)
    case None => None
  }

  // ---- Properties ----

  predicate IsBase64Char(c: char)
  {
    Base64.InAlphabet(c) || c == '='
  }

  predicate IsBase64Byte(b: Utf8.Byte)
  {
    IsBase64Char(b as char)
  }

  /** On base64 bytes, `encodeURIComponent` and the form serializer escape alike. */
  lemma {:induction false} EscapeBytesOfBase64(bs: seq<Utf8.Byte>)
    requires forall i :: 0 <= i < |bs| ==> IsBase64Byte(bs[i])
    ensures EscapeBytes(bs) == FormUrlencoded.SerializeBytes(bs)
  {
    if bs != [] {
      EscapeBytesOfBase64(bs[1..]);
    }
  }

  /** A base64 token escapes the same way as a form value. */
  lemma EscapeTokenLikeForm(t: string)
    requires forall i :: 0 <= i < |t| ==> IsBase64Char(t[i])
    ensures EncodeUriComponent(t) == FormUrlencoded.SerializeComponent(t)
  {
    Utf8.EncodeAscii(t);
    EscapeBytesOfBase64(Utf8.Encode(t));
  }

  /**
   * The escaped token holds only alphanumerics and `%` escapes: the `+`, `/`
   * and `=` of base64 would otherwise be read as a space, a path separator
   * and a name/value separator.
   */
  lemma {:induction false} EscapedBase64Chars(bs: seq<Utf8.Byte>)
    requires forall i :: 0 <= i < |bs| ==> IsBase64Byte(bs[i])
    ensures forall i :: 0 <= i < |EscapeBytes(bs)| ==>
              var c := EscapeBytes(bs)[i];
              ('0' <= c <= '9') || ('A' <= c <= 'Z') || ('a' <= c <= 'z') || c == '%'
  {
    if bs != [] {
      EscapedBase64Chars(bs[1..]);
    }
  }

  /** The query the client writes parses into exactly the parameters the server tests build. */
  lemma QueryCarriesMockParams(input: JsValue)
    requires Token(input).Some?
    ensures TokenQuery(input).Some?
    ensures FormUrlencoded.Parse(TokenQuery(input).value) == MockParams(input)
  {
    var t := Token(input).value;
    TokenIsBase64(input);
    EscapeTokenLikeForm(t);
    SerializeInputPair(t);
    FormUrlencoded.ParseSerialize([(InputName, t)]);
  }

  lemma TokenIsBase64(input: JsValue)
    requires Token(input).Some?
    ensures forall i :: 0 <= i < |Token(input).value| ==> IsBase64Char(Token(input).value[i])
  {
    Base64RoundTrip.AtobBtoa(Serialized(input));
  }

  lemma SerializeInputPair(t: string)
    ensures FormUrlencoded.Serialize([(InputName, t)]) == InputName + "=" + FormUrlencoded.SerializeComponent(t)
  {
    SerializeAlphanumeric(InputName);
    assert FormUrlencoded.Serialize([(InputName, t)]) == FormUrlencoded.SerializePair((InputName, t));
  }

  /**
   * The token round trip: with no string equal to the sentinel and text
   * `btoa` accepts, the server reads back the input as JSON carries it.
   */
  lemma DecodeTokenOfToken(input: JsValue)
    requires !input.Undefined?
    requires NoSentinel(input)
    requires Base64.Latin1(Text(input))
    ensures Token(input).Some?
    ensures DecodeToken(Token(input).value) == Some(Normalize(input))
  {
    Base64RoundTrip.AtobBtoa(Text(input));
    ParseStringify(input);
  }

  /** End to end: the server reads from the client's query what JSON carries of the input. */
  lemma ServerReadsClientToken(input: JsValue)
    requires !input.Undefined?
    requires NoSentinel(input)
    requires Base64.Latin1(Text(input))
    ensures TokenQuery(input).Some?
    ensures ReadQuery(TokenQuery(input).value) == Some(Normalize(input))
  {
    DecodeTokenOfToken(input);
    QueryCarriesMockParams(input);
  }

  /** An input with no undefined anywhere, NaN included, arrives deep-equal. */
  lemma DefinedInputArrivesUnchanged(input: JsValue)
    requires Defined(input)
    requires NoSentinel(input)
    requires Base64.Latin1(Text(input))
    ensures TokenQuery(input).Some?
    ensures ReadQuery(TokenQuery(input).value) == Some(input)
  {
    ServerReadsClientToken(input);
    NormalizeDefined(input);
  }

  /** Members whose value is undefined are absent: the token is that of the normal form. */
  lemma UndefinedMembersLeaveNoTrace(input: JsValue)
    requires !input.Undefined?
    ensures Token(input) == Token(Normalize(input))
  {
    TextNormalize(input);
  }

  /** An undefined input still yields a token, but one the server cannot parse. */
  lemma UndefinedInputToken()
    ensures Token(Undefined).Some?
    ensures DecodeToken(Token(Undefined).value) == None
  {
    UndefinedText();
    Base64RoundTrip.AtobBtoa(Serialized(Undefined));
  }

  lemma UndefinedText()
    ensures Base64.Latin1(Serialized(Undefined))
    ensures Parse(Serialized(Undefined)) == None
  {
    var text := Serialized(Undefined);
    assert forall i :: 0 <= i < |text| ==> text[i] as int < 0x80;
    assert text[0] == 'u';
    assert ParseValue(text) == None;
  }

  /** A name of letters and digits serializes as itself. */
  lemma {:induction false} SerializeAlphanumeric(s: string)
    requires forall i :: 0 <= i < |s| ==> ('0' <= s[i] <= '9') || ('A' <= s[i] <= 'Z') || ('a' <= s[i] <= 'z')
    ensures FormUrlencoded.SerializeComponent(s) == s
  {
    if s != [] {
      var b := Utf8.EncodeChar(s[0]);
      assert Utf8.Encode(s) == b + Utf8.Encode(s[1..]);
      assert b == [s[0] as int];
      SerializeAlphanumeric(s[1..]);
      assert FormUrlencoded.SerializeBytes([s[0] as int] + Utf8.Encode(s[1..]))
          == [s[0]] + FormUrlencoded.SerializeBytes(Utf8.Encode(s[1..]));
      assert [s[0]] + s[1..] == s;
    }
  }
}
