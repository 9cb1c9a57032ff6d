/**
 * The worked examples of the naming rules: every input and expected output
 * of the utilities' tests, plus the query keys and routing names the client
 * tests use. Each string is written as the concatenation of its words, so
 * that `"camel" + "Case"` is the string `camelCase`. The proofs split a word
 * into its first character and the rest (`"Case" == ['C'] + "ase"`) and walk
 * the name with the left-to-right reading of the rules.
 */
module NamingVectors {
  import opened Wrappers
  import opened Naming

  lemma Assoc<T>(a: seq<T>, b: seq<T>, c: seq<T>)
    ensures a + b + c == a + (b + c)
  {
  }

  /** A lower-case word, a capital, and another lower-case word: a hyphen opens the second word. */
  lemma KebabTwoWords(a: string, c: char, w: string)
    requires a != [] && NoUpper(a) && NoUpper(w) && IsUpper(c)
    ensures Kebabize(a + ([c] + w)) == a + (['-', Lower(c)] + w)
  {
    KebabizeLeftToRight(a + ([c] + w));
    KebabAfterRun(None, a, [c] + w);
    KebabAfterChar(Some(a[|a| - 1]), c, w);
    KebabAfterTail(Some(c), w);
  }

  /** A run without capitals at the end of the name is copied. */
  lemma KebabAfterTail(before: Option<char>, w: string)
    requires NoUpper(w)
    ensures KebabAfter(before, w) == w
  {
    if w != [] {
      KebabAfterRun(before, w, []);
      assert w + [] == w;
    }
  }

  // ---- kebabize ----

  lemma KebabizeCamelCase()
    ensures Kebabize("camel" + "Case") == "camel" + "-case"
  {
    assert "Case" == ['C'] + "ase" && "-case" == ['-', 'c'] + "ase";
    KebabTwoWords("camel", 'C', "ase");
  }

  /** A leading capital is lower-cased without a hyphen. */
  lemma KebabizePascalCase()
    ensures Kebabize("Pascal" + "Case") == "pascal" + "-case"
  {
    assert "Pascal" == ['P'] + "ascal" && "pascal" == ['p'] + "ascal";
    assert "Case" == ['C'] + "ase" && "-case" == ['-', 'c'] + "ase";
    Assoc(['P'], "ascal", "Case");
    Assoc(['p'], "ascal", "-case");
    KebabizeLeftToRight("Pascal" + "Case");
    KebabAfterChar(None, 'P', "ascal" + "Case");
    KebabAfterRun(Some('P'), "ascal", "Case");
    KebabAfterChar(Some('l'), 'C', "ase");
    KebabAfterTail(Some('C'), "ase");
  }

  /** Two capitalised words after a character: each capital opens a segment before its lower-case letter. */
  lemma KebabTwoCapitalWords(b: char, c: char, w: string, d: char, x: string)
    requires IsUpper(c) && IsUpper(d) && w != [] && IsLower(w[0]) && NoUpper(w) && x != [] && IsLower(x[0]) && NoUpper(x)
    ensures KebabAfter(Some(b), ([c] + w) + ([d] + x)) == (['-', Lower(c)] + w) + (['-', Lower(d)] + x)
  {
    Assoc([c], w, [d] + x);
    KebabAfterChar(Some(b), c, w + ([d] + x));
    KebabAfterRun(Some(c), w, [d] + x);
    KebabAfterChar(Some(w[|w| - 1]), d, x);
    KebabAfterTail(Some(d), x);
    Assoc(['-', Lower(c)], w, ['-', Lower(d)] + x);
  }

  /** A run of capitals stays one segment; its last capital opens the next one before a lower-case letter. */
  lemma KebabizeXmlHttpRequest()
    ensures Kebabize("XML" + "Http" + "Request") == "xml" + "-http" + "-request"
  {
    assert "Http" == ['H'] + "ttp" && "-http" == ['-', 'h'] + "ttp";
    assert "Request" == ['R'] + "equest" && "-request" == ['-', 'r'] + "equest";
    assert LowerAll("XML") == "xml";
    Assoc("XML", "Http", "Request");
    Assoc("xml", "-http", "-request");
    KebabizeLeftToRight("XML" + ("Http" + "Request"));
    KebabAfterCapitals(None, "XML", "Http" + "Request");
    KebabTwoCapitalWords('L', 'H', "ttp", 'R', "equest");
  }

  lemma KebabizeTest()
    ensures Kebabize("T" + "est") == "t" + "est"
  {
    KebabizeLeftToRight("T" + "est");
    KebabAfterChar(None, 'T', "est");
    KebabAfterTail(Some('T'), "est");
  }

  lemma KebabizeLowercase()
    ensures Kebabize("lower" + "case") == "lower" + "case"
  {
    KebabizeWithoutCapitals("lower" + "case");
  }

  lemma KebabizeEmptyString()
    ensures Kebabize("") == ""
  {
    KebabizeEmpty("");
  }

  /** Digits are not lower case: the capital after them still opens a segment, and they open none. */
  lemma KebabizeWithNumbers()
    ensures Kebabize("test123" + "Case") == "test123" + "-case"
  {
    assert "Case" == ['C'] + "ase" && "-case" == ['-', 'c'] + "ase";
    KebabTwoWords("test123", 'C', "ase");
  }

  /** `HTML` before `P`: no capital of the run opens a segment, and `P` opens one before `a`. */
  lemma KebabizeHtmlParser()
    ensures Kebabize("HTML" + "Parser") == "html" + "-parser"
  {
    assert LowerAll("HTML") == "html";
    assert "Parser" == ['P'] + "arser" && "-parser" == ['-', 'p'] + "arser";
    KebabizeLeftToRight("HTML" + "Parser");
    KebabAfterCapitals(None, "HTML", "Parser");
    KebabAfterChar(Some('L'), 'P', "arser");
    KebabAfterTail(Some('P'), "arser");
  }

  // ---- camelize ----

  /** Two hyphen-free words joined by a hyphen and a character. */
  lemma CamelizeTwoWords(a: string, c: char, b: string)
    requires NoHyphen(a) && NoHyphen(b)
    ensures Camelize(a + (['-', c] + b)) == a + ([Upper(c)] + b)
  {
    CamelizeWithoutHyphens(b);
    CamelizeHyphen(c, b);
    CamelizeCopiesRun(a, ['-', c] + b);
  }

  /** Three hyphen-free words joined by a hyphen and a character each. */
  lemma CamelizeThreeWords(a: string, c: char, b: string, e: char, d: string)
    requires NoHyphen(a) && NoHyphen(b) && NoHyphen(d)
    ensures Camelize(a + (['-', c] + b) + (['-', e] + d)) == a + ([Upper(c)] + b) + ([Upper(e)] + d)
  {
    CamelizeTwoWords(b, e, d);
    CamelizeHyphen(c, b + (['-', e] + d));
    CamelizeCopiesRun(a, ['-', c] + (b + (['-', e] + d)));
    Assoc(a, ['-', c] + b, ['-', e] + d);
    Assoc(['-', c], b, ['-', e] + d);
    Assoc(a, [Upper(c)] + b, [Upper(e)] + d);
    Assoc([Upper(c)], b, [Upper(e)] + d);
  }

  lemma CamelizeKebabCase()
    ensures Camelize("kebab" + "-case") == "kebab" + "Case"
  {
    assert "-case" == ['-', 'c'] + "ase" && "Case" == [Upper('c')] + "ase";
    CamelizeTwoWords("kebab", 'c', "ase");
  }

  lemma CamelizeMultiWord()
    ensures Camelize("multi" + "-word" + "-string") == "multi" + "Word" + "String"
  {
    assert "-word" == ['-', 'w'] + "ord" && "Word" == [Upper('w')] + "ord";
    assert "-string" == ['-', 's'] + "tring" && "String" == [Upper('s')] + "tring";
    CamelizeThreeWords("multi", 'w', "ord", 's', "tring");
  }

  lemma CamelizeSingleWord()
    ensures Camelize("single" + "-word") == "single" + "Word"
  {
    assert "-word" == ['-', 'w'] + "ord" && "Word" == [Upper('w')] + "ord";
    CamelizeTwoWords("single", 'w', "ord");
  }

  lemma CamelizeNoHyphens()
    ensures Camelize("no" + "Hyphens") == "no" + "Hyphens"
  {
    CamelizeWithoutHyphens("no" + "Hyphens");
  }

  lemma CamelizeEmptyString()
    ensures Camelize("") == ""
  {
  }

  /** A leading hyphen upper-cases the first letter. */
  lemma CamelizeLeadingHyphen()
    ensures Camelize("-t" + "est") == "T" + "est"
  {
    CamelizeWithoutHyphens("est");
    CamelizeHyphen('t', "est");
    assert "-t" == ['-', 't'] && "T" == [Upper('t')];
  }

  /** Of two hyphens, the first takes the second as its character: one hyphen is left. */
  lemma CamelizeConsecutiveHyphens()
    ensures Camelize("test" + "--" + "case") == "test" + "-" + "case"
  {
    assert "--" == ['-', '-'] && "-" == [Upper('-')];
    Assoc("test", "--", "case");
    Assoc("test", "-", "case");
    CamelizeTwoWords("test", '-', "case");
  }

  // ---- query keys and routing ----

  /** The query key of a capital and a lower-case word: a hyphen, then the word in lower case. */
  lemma DashedWord(c: char, w: string)
    requires IsUpper(c) && NoUpper(w)
    ensures DashedKey([c] + w) == ['-', Lower(c)] + w
  {
    DashedKeyCons(c, w);
    DashedKeyWithoutCapitals(w);
  }

  /** The query key of a camel-case name. */
  lemma QueryKeyUserProfile()
    ensures DashedKey("get" + "User" + "Profile") == "get" + "-user" + "-profile"
  {
    assert "User" == ['U'] + "ser" && "-user" == ['-', 'u'] + "ser";
    assert "Profile" == ['P'] + "rofile" && "-profile" == ['-', 'p'] + "rofile";
    DashedKeyAppend("get" + "User", "Profile");
    DashedKeyAppend("get", "User");
    DashedKeyWithoutCapitals("get");
    DashedWord('U', "ser");
    DashedWord('P', "rofile");
  }

  /** The URL segment of the same name: the two rules coincide here. */
  lemma SegmentUserProfile()
    ensures Kebabize("get" + "User" + "Profile") == "get" + "-user" + "-profile"
  {
    assert "User" == ['U'] + "ser" && "-user" == ['-', 'u'] + "ser";
    assert "Profile" == ['P'] + "rofile" && "-profile" == ['-', 'p'] + "rofile";
    Assoc("get", "User", "Profile");
    Assoc("get", "-user", "-profile");
    KebabizeLeftToRight("get" + ("User" + "Profile"));
    KebabAfterRun(None, "get", "User" + "Profile");
    KebabTwoCapitalWords('t', 'U', "ser", 'P', "rofile");
  }

  /** A capital run: the query key splits it letter by letter. */
  lemma QueryKeyXmlData()
    ensures DashedKey("get" + "XML" + "Data") == "get" + "-x-m-l" + "-data"
  {
    assert "XML" == ['X'] + (['M'] + ['L']) && "-x-m-l" == ['-', 'x'] + (['-', 'm'] + ['-', 'l']);
    assert "Data" == ['D'] + "ata" && "-data" == ['-', 'd'] + "ata";
    DashedKeyAppend("get" + "XML", "Data");
    DashedKeyAppend("get", "XML");
    DashedKeyWithoutCapitals("get");
    DashedKeyCons('X', ['M'] + ['L']);
    DashedKeyCons('M', ['L']);
    DashedWord('L', []);
    assert ['-', 'l'] + [] == ['-', 'l'];
    DashedWord('D', "ata");
  }

  /** `XMLData` after a lower-case letter: `X` opens a segment for the run, `D` ends the run and opens the next. */
  lemma XmlDataAfterLower()
    ensures KebabAfter(Some('t'), "XML" + "Data") == "-xml" + "-data"
  {
    assert "XML" == ['X'] + "ML" && LowerAll("ML") == "ml" && "-xml" == ['-', 'x'] + "ml";
    assert "Data" == ['D'] + "ata" && "-data" == ['-', 'd'] + "ata";
    Assoc(['X'], "ML", "Data");
    Assoc(['-', 'x'], "ml", "-data");
    KebabAfterChar(Some('t'), 'X', "ML" + "Data");
    KebabAfterCapitals(Some('X'), "ML", "Data");
    KebabAfterChar(Some('L'), 'D', "ata");
    KebabAfterTail(Some('D'), "ata");
  }

  /** The URL segment of the same name keeps the capital run together. */
  lemma SegmentXmlData()
    ensures Kebabize("get" + "XML" + "Data") == "get" + "-xml" + "-data"
  {
    Assoc("get", "XML", "Data");
    Assoc("get", "-xml", "-data");
    KebabizeLeftToRight("get" + ("XML" + "Data"));
    KebabAfterRun(None, "get", "XML" + "Data");
    XmlDataAfterLower();
  }

  /** The server reads the segment `get-user-profile` back as the name it came from. */
  lemma RoutingUserProfile()
    ensures Camelize("get" + "-user" + "-profile") == "get" + "User" + "Profile"
  {
    assert "-user" == ['-', 'u'] + "ser" && "User" == [Upper('u')] + "ser";
    assert "-profile" == ['-', 'p'] + "rofile" && "Profile" == [Upper('p')] + "rofile";
    CamelizeThreeWords("get", 'u', "ser", 'p', "rofile");
  }

  /** ... but reads `xml-http-request` as `xmlHttpRequest`, not the `XMLHttpRequest` it came from. */
  lemma RoutingXmlHttpRequest()
    ensures Camelize("xml" + "-http" + "-request") == "xml" + "Http" + "Request"
    ensures "xml" + "Http" + "Request" != "XML" + "Http" + "Request"
  {
    assert "-http" == ['-', 'h'] + "ttp" && "Http" == [Upper('h')] + "ttp";
    assert "-request" == ['-', 'r'] + "equest" && "Request" == [Upper('r')] + "equest";
    CamelizeThreeWords("xml", 'h', "ttp", 'r', "equest");
    assert ("xml" + "Http" + "Request")[0] != ("XML" + "Http" + "Request")[0];
  }
}
