/**
 * The naming codec of the library.
 *
 * A procedure is declared under a camel-case identifier (`getUserProfile`);
 * the client puts it in the URL path in kebab form (`get-user-profile`) and
 * the server turns the path segment back into a router key. Two separate
 * rules produce kebab forms: `kebabize`, used for the URL, and the inline
 * "hyphen before every capital, then lower-case" rule the query clients use
 * for their cache key. Both are modelled here, with where they agree.
 *
 * Case mapping is ASCII only: `A`..`Z` and `a`..`z` are the letters whose
 * case changes; every other character is left as it is.
 */
module Naming {
  import opened Wrappers

  predicate IsUpper(c: char) { 'A' <= c <= 'Z' }

  predicate IsLower(c: char) { 'a' <= c <= 'z' }

  /** `toLowerCase` on one ASCII character; other characters are left as they are. */
  function Lower(c: char): (l: char)
    ensures !IsUpper(l)
    ensures IsUpper(c) ==> IsLower(l)
    ensures !IsUpper(c) ==> l == c
  {
    if IsUpper(c) then (c as int + 32) as char else c
  }

  /** `toUpperCase` on one ASCII character; other characters are left as they are. */
  function Upper(c: char): (u: char)
    ensures !IsLower(u)
    ensures IsLower(c) ==> IsUpper(u)
    ensures !IsLower(c) ==> u == c
  {
    if IsLower(c) then (c as int - 32) as char else c
  }

  lemma UpperOfLower(c: char)
    requires IsUpper(c)
    ensures Upper(Lower(c)) == c
  {
  }

  predicate NoUpper(s: string) { forall k :: 0 <= k < |s| ==> !IsUpper(s[k]) }

  predicate NoHyphen(s: string) { forall k :: 0 <= k < |s| ==> s[k] != '-' }

  // ---------------------------------------------------------------------
  // kebabize: procedure name -> URL path segment
  // ---------------------------------------------------------------------

  /** An upper-case letter opens a new kebab segment when it is not the first
      character and either follows a character that is not upper case
      (`camelCase`, `test123Case`) or ends a run of capitals right before a
      lower-case letter (the `H` of `XMLHttp`). */
  predicate StartsSegment(s: string, i: nat)
    requires i < |s|
  {
    && IsUpper(s[i])
    && 0 < i
    && (!IsUpper(s[i - 1]) || (i + 1 < |s| && IsLower(s[i + 1])))
  }

  function KebabPiece(s: string, i: nat): string
    requires i < |s|
  {
    if StartsSegment(s, i) then ['-', Lower(s[i])] else [Lower(s[i])]
  }

  /** The kebab form of the suffix `s[i..]`, read in the context of all of `s`. */
  function KebabFrom(s: string, i: nat): string
    requires i <= |s|
    decreases |s| - i
  {
    if i == |s| then [] else KebabPiece(s, i) + KebabFrom(s, i + 1)
  }

  /** `kebabize`: a hyphen before every segment start, then lower case. */
  function Kebabize(s: string): string
  {
    KebabFrom(s, 0)
  }

  // ---------------------------------------------------------------------
  // camelize: URL path segment -> router key
  // ---------------------------------------------------------------------

  /** `camelize`: every hyphen together with the character after it becomes
      that character in upper case; a hyphen at the very end stays. */
  function Camelize(s: string): string
  {
    if |s| >= 2 && s[0] == '-' then [Upper(s[1])] + Camelize(s[2..])
    else if s == [] then []
    else [s[0]] + Camelize(s[1..])
  }

  // ---------------------------------------------------------------------
  // The query clients' key rule: a hyphen before EVERY capital, then lower
  // ---------------------------------------------------------------------

  function DashPiece(s: string, i: nat): string
    requires i < |s|
  {
    if IsUpper(s[i]) then ['-', Lower(s[i])] else [Lower(s[i])]
  }

  function DashedFrom(s: string, i: nat): string
    requires i <= |s|
    decreases |s| - i
  {
    if i == |s| then [] else DashPiece(s, i) + DashedFrom(s, i + 1)
  }

  /** `name.replace(/([A-Z])/g, "-$1").toLowerCase()`. */
  function DashedKey(s: string): string
  {
    DashedFrom(s, 0)
  }

  // ---------------------------------------------------------------------
  // Properties of kebabize
  // ---------------------------------------------------------------------

  lemma {:induction false} KebabFromNoUpper(s: string, i: nat)
    requires i <= |s|
    ensures NoUpper(KebabFrom(s, i))
    decreases |s| - i
  {
    if i < |s| {
      KebabFromNoUpper(s, i + 1);
    }
  }

  /** A stretch without capitals is copied unchanged into the kebab form. */
  lemma {:induction false} KebabCopiesRun(s: string, i: nat, j: nat)
    requires i <= j <= |s|
    requires NoUpper(s[i..j])
    ensures KebabFrom(s, i) == s[i..j] + KebabFrom(s, j)
    decreases j - i
  {
    if i < j {
      var run, tail := s[i + 1..j], KebabFrom(s, j);
      assert s[i..j][0] == s[i] && s[i..j][1..] == run;
      assert KebabPiece(s, i) == [s[i]];
      KebabCopiesRun(s, i + 1, j);
      assert s[i..j] == [s[i]] + run;
      assert [s[i]] + (run + tail) == ([s[i]] + run) + tail;
    }
  }

  /** The kebab form never holds an upper-case letter. */
  lemma KebabizeNoUpper(s: string)
    ensures NoUpper(Kebabize(s))
  {
    KebabFromNoUpper(s, 0);
  }

  lemma {:induction false} KebabFromWithoutCapitals(s: string, i: nat)
    requires i <= |s|
    requires NoUpper(s)
    ensures KebabFrom(s, i) == s[i..]
    decreases |s| - i
  {
    if i < |s| {
      KebabFromWithoutCapitals(s, i + 1);
    }
  }

  /** A name without capitals (lower case, digits, the empty name) is its own
      kebab form. */
  lemma KebabizeWithoutCapitals(s: string)
    requires NoUpper(s)
    ensures Kebabize(s) == s
  {
    KebabFromWithoutCapitals(s, 0);
  }

  /** A hyphen is inserted only in front of a capital: where the kebab form of
      `s[i..]` starts with a hyphen that `s[i]` is not, `s[i]` is a capital
      that opens a segment, so digits and lower-case letters never do. */
  lemma KebabHyphenOnlyBeforeCapital(s: string, i: nat)
    requires i < |s|
    requires s[i] != '-'
    ensures KebabFrom(s, i)[0] == '-' <==> StartsSegment(s, i)
  {
  }

  // ---------------------------------------------------------------------
  // Properties of camelize
  // ---------------------------------------------------------------------

  /** A string without hyphens is its own camel form. */
  lemma {:induction false} CamelizeWithoutHyphens(s: string)
    requires NoHyphen(s)
    ensures Camelize(s) == s
  {
    if s != [] {
      CamelizeWithoutHyphens(s[1..]);
    }
  }

  /** A stretch without hyphens is copied unchanged into the camel form. */
  lemma {:induction false} CamelizeCopiesRun(a: string, b: string)
    requires NoHyphen(a)
    ensures Camelize(a + b) == a + Camelize(b)
  {
    if a == [] {
      assert a + b == b;
    } else {
      assert (a + b)[1..] == a[1..] + b;
      CamelizeCopiesRun(a[1..], b);
      assert [a[0]] + (a[1..] + Camelize(b)) == a + Camelize(b);
    }
  }

  /** A hyphen and the character after it become that character upper-cased. */
  lemma CamelizeHyphen(c: char, b: string)
    ensures Camelize(['-', c] + b) == [Upper(c)] + Camelize(b)
  {
    assert (['-', c] + b)[2..] == b;
  }

  /** Camelize works word by word: a hyphen-free word, then a hyphen and the character it upper-cases. */
  lemma CamelizeWord(a: string, c: char, b: string)
    requires NoHyphen(a)
    ensures Camelize(a + ['-', c] + b) == a + [Upper(c)] + Camelize(b)
  {
    CamelizeHyphen(c, b);
    CamelizeCopiesRun(a, ['-', c] + b);
    assert a + ['-', c] + b == a + (['-', c] + b);
  }

  /** Kebab forms only grow: each character gives one or two. */
  lemma {:induction false} KebabFromLength(s: string, i: nat)
    requires i <= |s|
    ensures |KebabFrom(s, i)| >= |s| - i
    decreases |s| - i
  {
    if i < |s| {
      KebabFromLength(s, i + 1);
    }
  }

  /** Only the empty name has an empty path segment. */
  lemma KebabizeEmpty(s: string)
    ensures Kebabize(s) == [] <==> s == []
  {
    KebabFromLength(s, 0);
  }

  /** Routing round trip: the server's `camelize` recovers the name from the
      client's `kebabize` when the name does not start with a capital, has no
      two capitals in a row and no hyphen. */
  lemma CamelizeKebabize(n: string)
    requires n == [] || !IsUpper(n[0])
    requires forall i :: 0 < i < |n| && IsUpper(n[i]) ==> !IsUpper(n[i - 1])
    requires NoHyphen(n)
    ensures Camelize(Kebabize(n)) == n
  {
    CamelizeKebabFrom(n, 0);
  }

  lemma {:induction false} CamelizeKebabFrom(n: string, i: nat)
    requires i <= |n|
    requires n == [] || !IsUpper(n[0])
    requires forall i :: 0 < i < |n| && IsUpper(n[i]) ==> !IsUpper(n[i - 1])
    requires NoHyphen(n)
    ensures Camelize(KebabFrom(n, i)) == n[i..]
    decreases |n| - i
  {
    if i < |n| {
      CamelizeKebabFrom(n, i + 1);
      var rest := KebabFrom(n, i + 1);
      if IsUpper(n[i]) {
        assert StartsSegment(n, i);
        var t := ['-', Lower(n[i])] + rest;
        assert t[2..] == rest;
        UpperOfLower(n[i]);
      } else {
        var t := [n[i]] + rest;
        assert t[1..] == rest;
      }
    }
  }

  // ---------------------------------------------------------------------
  // Where the query-key rule agrees with kebabize
  // ---------------------------------------------------------------------

  lemma {:induction false} DashedFromNoUpper(s: string, i: nat)
    requires i <= |s|
    ensures NoUpper(DashedFrom(s, i))
    decreases |s| - i
  {
    if i < |s| {
      DashedFromNoUpper(s, i + 1);
    }
  }

  /** A stretch without capitals is copied unchanged into the query key. */
  lemma {:induction false} DashedCopiesRun(s: string, i: nat, j: nat)
    requires i <= j <= |s|
    requires NoUpper(s[i..j])
    ensures DashedFrom(s, i) == s[i..j] + DashedFrom(s, j)
    decreases j - i
  {
    if i < j {
      var run, tail := s[i + 1..j], DashedFrom(s, j);
      assert s[i..j][0] == s[i] && s[i..j][1..] == run;
      assert DashPiece(s, i) == [s[i]];
      DashedCopiesRun(s, i + 1, j);
      assert s[i..j] == [s[i]] + run;
      assert [s[i]] + (run + tail) == ([s[i]] + run) + tail;
    }
  }

  /** The query key never holds an upper-case letter either. */
  lemma DashedKeyNoUpper(s: string)
    ensures NoUpper(DashedKey(s))
  {
    DashedFromNoUpper(s, 0);
  }

  /** Every capital of `s` opens a kebab segment. */
  predicate CapitalsOpenSegments(s: string, from: nat)
  {
    forall j :: from <= j < |s| && IsUpper(s[j]) ==> StartsSegment(s, j)
  }

  lemma {:induction false} DashedFromAgreement(s: string, i: nat)
    requires i <= |s|
    ensures DashedFrom(s, i) == KebabFrom(s, i) <==> CapitalsOpenSegments(s, i)
    decreases |s| - i
  {
    if i < |s| {
      DashedFromAgreement(s, i + 1);
      var d, k := DashedFrom(s, i + 1), KebabFrom(s, i + 1);
      if IsUpper(s[i]) && !StartsSegment(s, i) {
        assert DashedFrom(s, i)[0] == '-' != KebabFrom(s, i)[0];
      } else {
        assert DashPiece(s, i) == KebabPiece(s, i);
        if d != k {
          var dp := DashPiece(s, i);
          assert (dp + d)[|dp|..] == d && (dp + k)[|dp|..] == k;
        }
      }
    }
  }

  /** The two rules give the same string exactly when every capital of the
      name opens a kebab segment: no leading capital and no capital that
      continues a capital run. */
  lemma DashedKeyAgreesWithKebabize(s: string)
    ensures DashedKey(s) == Kebabize(s) <==> CapitalsOpenSegments(s, 0)
  {
    DashedFromAgreement(s, 0);
  }

  // ---------------------------------------------------------------------
  // kebabize read left to right
  // ---------------------------------------------------------------------

  /** Whether the capital `c` opens a segment, knowing only the character
      before it (none at the start of the name) and the text after it. */
  predicate OpensSegment(before: Option<char>, c: char, after: string)
  {
    IsUpper(c) && before.Some? && (!IsUpper(before.value) || (after != [] && IsLower(after[0])))
  }

  /** The kebab form of `s` read left to right, carrying the previous character. */
  function KebabAfter(before: Option<char>, s: string): string
    decreases |s|
  {
    if s == [] then []
    else
      var piece := if OpensSegment(before, s[0], s[1..]) then ['-', Lower(s[0])] else [Lower(s[0])];
      piece + KebabAfter(Some(s[0]), s[1..])
  }

  lemma {:induction false} KebabFromAfter(s: string, i: nat)
    requires i <= |s|
    ensures KebabFrom(s, i) == KebabAfter(if i == 0 then None else Some(s[i - 1]), s[i..])
    decreases |s| - i
  {
    if i < |s| {
      KebabFromAfter(s, i + 1);
      assert s[i..][1..] == s[i + 1..];
      assert StartsSegment(s, i) == OpensSegment(if i == 0 then None else Some(s[i - 1]), s[i], s[i + 1..]);
    }
  }

  /** Whether a character opens a segment depends only on its two neighbours:
      kebabize agrees with the left-to-right reading. */
  lemma KebabizeLeftToRight(s: string)
    ensures Kebabize(s) == KebabAfter(None, s)
  {
    KebabFromAfter(s, 0);
    assert s[0..] == s;
  }

  /** A non-empty run without capitals is copied, and becomes the previous character. */
  lemma {:induction false} KebabAfterRun(before: Option<char>, w: string, t: string)
    requires w != [] && NoUpper(w)
    ensures KebabAfter(before, w + t) == w + KebabAfter(Some(w[|w| - 1]), t)
    decreases |w|
  {
    assert (w + t)[1..] == w[1..] + t;
    if |w| == 1 {
      assert w[1..] + t == t;
      assert w == [w[0]];
    } else {
      KebabAfterRun(Some(w[0]), w[1..], t);
      assert [w[0]] + w[1..] == w;
    }
  }

  /** One character: a hyphen and its lower case when it opens a segment, its lower case otherwise. */
  lemma KebabAfterChar(before: Option<char>, c: char, t: string)
    ensures KebabAfter(before, [c] + t)
         == (if OpensSegment(before, c, t) then ['-', Lower(c)] else [Lower(c)]) + KebabAfter(Some(c), t)
  {
    assert ([c] + t)[1..] == t;
  }

  /** `toLowerCase` on a whole string. */
  function LowerAll(s: string): (r: string)
    ensures |r| == |s|
  {
    if s == [] then [] else [Lower(s[0])] + LowerAll(s[1..])
  }

  /** Every character is a capital. */
  predicate AllUpper(s: string)
  {
    s == [] || (IsUpper(s[0]) && AllUpper(s[1..]))
  }

  lemma SplitFirst<T>(r: seq<T>, t: seq<T>)
    requires r != []
    ensures r + t == [r[0]] + (r[1..] + t)
    ensures (r[1..] + t) == [] || (r[1..] + t)[0] == (if |r| > 1 then r[1] else t[0])
  {
  }

  lemma Regroup<T>(a: seq<T>, b: seq<T>, c: seq<T>)
    ensures a + (b + c) == a + b + c
  {
  }

  /** A run of capitals at the start of the name or after a capital, not
      followed by a lower-case letter, stays in one segment, lower-cased. */
  lemma {:induction false} KebabAfterCapitals(before: Option<char>, r: string, t: string)
    requires r != [] && AllUpper(r)
    requires before.None? || IsUpper(before.value)
    requires t == [] || !IsLower(t[0])
    ensures KebabAfter(before, r + t) == LowerAll(r) + KebabAfter(Some(r[|r| - 1]), t)
    decreases |r|
  {
    var rest := r[1..] + t;
    SplitFirst(r, t);
    KebabAfterChar(before, r[0], rest);
    if |r| == 1 {
      assert r[1..] == [];
      assert rest == t;
    } else {
      KebabAfterCapitals(Some(r[0]), r[1..], t);
      Regroup([Lower(r[0])], LowerAll(r[1..]), KebabAfter(Some(r[|r| - 1]), t));
    }
  }

  // ---------------------------------------------------------------------
  // The query-key rule works character by character
  // ---------------------------------------------------------------------

  lemma {:induction false} DashedFromSuffix(s: string, i: nat)
    requires i <= |s|
    ensures DashedFrom(s, i) == DashedKey(s[i..])
    decreases |s| - i
  {
    if i < |s| {
      DashedFromSuffix(s, i + 1);
      DashedFromSuffix(s[i..], 1);
      assert s[i..][1..] == s[i + 1..];
    }
  }

  lemma DashedKeyCons(c: char, t: string)
    ensures DashedKey([c] + t) == (if IsUpper(c) then ['-', Lower(c)] else [Lower(c)]) + DashedKey(t)
  {
    DashedFromSuffix([c] + t, 1);
    assert ([c] + t)[1..] == t;
  }

  /** The key of a concatenation is the concatenation of the keys: the rule
      rewrites each character on its own. */
  lemma {:induction false} DashedKeyAppend(a: string, b: string)
    ensures DashedKey(a + b) == DashedKey(a) + DashedKey(b)
    decreases |a|
  {
    if a == [] {
      assert a + b == b;
    } else {
      DashedKeyCons(a[0], a[1..] + b);
      DashedKeyCons(a[0], a[1..]);
      DashedKeyAppend(a[1..], b);
      assert [a[0]] + (a[1..] + b) == a + b;
      assert [a[0]] + a[1..] == a;
    }
  }

  /** A name without capitals is its own query key. */
  lemma DashedKeyWithoutCapitals(s: string)
    requires NoUpper(s)
    ensures DashedKey(s) == s
  {
    DashedCopiesRun(s, 0, |s|);
    assert s[0..|s|] == s;
  }
}
