/** The wildcard matcher of doctest: an iterative search that remembers only the last star. */
module Wildcards {

  /** The characters of a C string, without the terminating zero. */
  type cstring = s: string | forall k :: 0 <= k < |s| ==> s[k] != '\0'

  /** `tolower` of the C locale. */
  function Lower(c: char): char {
    if 'A' <= c <= 'Z' then c + ' ' else c
  }

  predicate Same(caseSensitive: bool, a: char, b: char) {
    if caseSensitive then a == b else Lower(a) == Lower(b)
  }

  const UPPER := "ABCDEFGHIJKLMNOPQRSTUVWXYZ"
  const LOWER := "abcdefghijklmnopqrstuvwxyz"

  /** The two forms of one letter. */
  predicate Forms(a: char, b: char) {
    exists k :: 0 <= k < 26 && a == UPPER[k] && b == LOWER[k]
  }

  lemma LetterAt(k: nat)
    requires k < 26
    ensures UPPER[k] as int == 'A' as int + k && LOWER[k] as int == 'a' as int + k
  {
  }

  lemma FormsExactly(a: char, b: char)
    ensures Forms(a, b) <==> 'A' <= a <= 'Z' && b as int == a as int + ('a' as int - 'A' as int)
  {
    if Forms(a, b) {
      var k :| 0 <= k < 26 && a == UPPER[k] && b == LOWER[k];
      LetterAt(k);
    }
    if 'A' <= a <= 'Z' && b as int == a as int + ('a' as int - 'A' as int) {
      var k := a as int - 'A' as int;
      LetterAt(k);
      assert a == UPPER[k] && b == LOWER[k];
    }
  }

  /** Characters are the same exactly if they are equal or, where case is ignored, the two forms of one letter. */
  lemma SameExactly(caseSensitive: bool, a: char, b: char)
    ensures Same(caseSensitive, a, b) <==> a == b || (!caseSensitive && (Forms(a, b) || Forms(b, a)))
  {
    FormsExactly(a, b);
    FormsExactly(b, a);
  }

  /** A pattern character other than a star against a text character. */
  predicate One(caseSensitive: bool, p: char, c: char) {
    p == '?' || Same(caseSensitive, p, c)
  }

  /** What a pattern means: a star stands for any run of characters, a question mark for one. */
  ghost predicate Matches(cs: bool, text: string, pat: string)
    decreases |pat|
  {
    if pat == "" then text == ""
    else if pat[0] == '*' then exists k :: 0 <= k <= |text| && Matches(cs, text[k..], pat[1..])
    else text != "" && One(cs, pat[0], text[0]) && Matches(cs, text[1..], pat[1..])
  }

  /** Texts that differ only in the case of letters. */
  predicate Alike(a: string, b: string) {
    |a| == |b| && forall k :: 0 <= k < |a| ==> Same(false, a[k], b[k])
  }

  lemma {:induction false} AlikeMatches(text: string, text1: string, pat: string, pat1: string)
    requires Alike(text, text1) && Alike(pat, pat1) && Matches(false, text, pat)
    ensures Matches(false, text1, pat1)
    decreases |pat|
  {
    if pat != "" {
      SameExactly(false, pat[0], pat1[0]);
      FormsExactly(pat[0], pat1[0]);
      FormsExactly(pat1[0], pat[0]);
      if pat[0] == '*' {
        var k :| 0 <= k <= |text| && Matches(false, text[k..], pat[1..]);
        AlikeMatches(text[k..], text1[k..], pat[1..], pat1[1..]);
      } else {
        AlikeMatches(text[1..], text1[1..], pat[1..], pat1[1..]);
      }
    }
  }

  /** Where case is ignored, texts and patterns that differ only in it match alike. */
  lemma CaseIgnored(text: string, text1: string, pat: string, pat1: string)
    requires Alike(text, text1) && Alike(pat, pat1)
    ensures Matches(false, text, pat) <==> Matches(false, text1, pat1)
  {
    if Matches(false, text, pat) {
      AlikeMatches(text, text1, pat, pat1);
    }
    if Matches(false, text1, pat1) {
      AlikeMatches(text1, text, pat1, pat);
    }
  }

  /** The pattern from `m` on matches the text from some position at or after `c`. */
  ghost predicate Somewhere(cs: bool, text: string, c: nat, pat: string, m: nat)
    requires m <= |pat|
  {
    exists k :: c <= k <= |text| && Matches(cs, text[k..], pat[m..])
  }

  /** The star-free pattern segment `m..w` matches the text at `k`. */
  predicate Segment(cs: bool, text: string, k: nat, pat: string, m: nat, w: nat)
    requires m <= w <= |pat|
  {
    && k + (w - m) <= |text|
    && forall j :: m <= j < w ==> pat[j] != '*' && One(cs, pat[j], text[k + (j - m)])
  }

  predicate StarFree(pat: string, m: nat, w: nat)
    requires m <= w <= |pat|
  {
    forall j :: m <= j < w ==> pat[j] != '*'
  }

  /** Matching from a star-free segment on. */
  lemma {:induction false} MatchSegment(cs: bool, text: string, k: nat, pat: string, m: nat, w: nat)
    requires k <= |text| && m <= w <= |pat| && StarFree(pat, m, w)
    ensures Matches(cs, text[k..], pat[m..]) <==>
      Segment(cs, text, k, pat, m, w) && Matches(cs, text[k + (w - m)..], pat[w..])
    decreases w - m
  {
    if m < w {
      assert pat[m..][0] == pat[m] && pat[m..][1..] == pat[m + 1..];
      if k < |text| {
        assert text[k..][0] == text[k] && text[k..][1..] == text[k + 1..];
        MatchSegment(cs, text, k + 1, pat, m + 1, w);
        if Segment(cs, text, k, pat, m, w) {
          forall j | m + 1 <= j < w
            ensures One(cs, pat[j], text[k + 1 + (j - (m + 1))])
          {
            assert One(cs, pat[j], text[k + (j - m)]);
          }
        }
        if Segment(cs, text, k + 1, pat, m + 1, w) && One(cs, pat[m], text[k]) {
          forall j | m <= j < w
            ensures One(cs, pat[j], text[k + (j - m)])
          {
            if j > m { assert One(cs, pat[j], text[k + 1 + (j - (m + 1))]); }
          }
        }
      }
    }
  }

  predicate AllStars(pat: string, w: nat)
    requires w <= |pat|
  {
    forall j :: w <= j < |pat| ==> pat[j] == '*'
  }

  /** Only stars match the empty text. */
  lemma {:induction false} MatchEmpty(cs: bool, pat: string, w: nat)
    requires w <= |pat|
    ensures Matches(cs, "", pat[w..]) <==> AllStars(pat, w)
    decreases |pat| - w
  {
    if w < |pat| {
      assert pat[w..][0] == pat[w] && pat[w..][1..] == pat[w + 1..];
      MatchEmpty(cs, pat, w + 1);
      if pat[w] == '*' {
        assert ""[0..] == "";
        if Matches(cs, "", pat[w..]) {
          var k :| 0 <= k <= 0 && Matches(cs, ""[k..], pat[w + 1..]);
        }
      }
    }
  }

  lemma StarForward(cs: bool, text: string, c: nat, pat: string, m: nat, w: nat, k: nat)
    requires m <= w < |pat| && pat[w] == '*' && StarFree(pat, m, w)
    requires c <= k <= |text| && Matches(cs, text[k..], pat[m..])
    ensures Somewhere(cs, text, c + (w - m), pat, w + 1)
  {
    MatchSegment(cs, text, k, pat, m, w);
    var t := text[k + (w - m)..];
    assert pat[w..][0] == '*' && pat[w..][1..] == pat[w + 1..];
    var i :| 0 <= i <= |t| && Matches(cs, t[i..], pat[w + 1..]);
    assert t[i..] == text[k + (w - m) + i..];
  }

  lemma StarBackward(cs: bool, text: string, c: nat, pat: string, m: nat, w: nat, k: nat)
    requires m <= w < |pat| && pat[w] == '*' && Segment(cs, text, c, pat, m, w)
    requires c + (w - m) <= k <= |text| && Matches(cs, text[k..], pat[w + 1..])
    ensures Matches(cs, text[c..], pat[m..])
  {
    var t := text[c + (w - m)..];
    assert t[k - (c + (w - m))..] == text[k..];
    assert pat[w..][0] == '*' && pat[w..][1..] == pat[w + 1..];
    assert Matches(cs, t, pat[w..]);
    MatchSegment(cs, text, c, pat, m, w);
  }

  /** After a segment that matches at the earliest possible place, a star makes earlier choices irrelevant. */
  lemma NextStar(cs: bool, text: string, c: nat, pat: string, m: nat, w: nat)
    requires m <= w < |pat| && pat[w] == '*' && Segment(cs, text, c, pat, m, w)
    ensures Somewhere(cs, text, c, pat, m) <==> Somewhere(cs, text, c + (w - m), pat, w + 1)
  {
    if Somewhere(cs, text, c, pat, m) {
      var k :| c <= k <= |text| && Matches(cs, text[k..], pat[m..]);
      StarForward(cs, text, c, pat, m, w, k);
    }
    if Somewhere(cs, text, c + (w - m), pat, w + 1) {
      var k :| c + (w - m) <= k <= |text| && Matches(cs, text[k..], pat[w + 1..]);
      StarBackward(cs, text, c, pat, m, w, k);
    }
  }

  /** A segment that fails at its next character, or at the end of the pattern, fails at this place. */
  lemma Fails(cs: bool, text: string, c: nat, pat: string, m: nat, w: nat)
    requires m <= w <= |pat| && Segment(cs, text, c, pat, m, w) && c + (w - m) < |text|
    requires w < |pat| ==> pat[w] != '*' && !One(cs, pat[w], text[c + (w - m)])
    ensures Somewhere(cs, text, c, pat, m) <==> Somewhere(cs, text, c + 1, pat, m)
  {
    var i := c + (w - m);
    MatchSegment(cs, text, c, pat, m, w);
    assert text[i..][0] == text[i];
    if w < |pat| { assert pat[w..][0] == pat[w]; }
    assert !Matches(cs, text[c..], pat[m..]);
    if Somewhere(cs, text, c, pat, m) {
      var k :| c <= k <= |text| && Matches(cs, text[k..], pat[m..]);
      assert k != c;
    }
  }

  /** At the end of the text only stars may be left of the pattern. */
  lemma AtEnd(cs: bool, text: string, c: nat, pat: string, m: nat, w: nat)
    requires m <= w <= |pat| && Segment(cs, text, c, pat, m, w) && c + (w - m) == |text|
    ensures Somewhere(cs, text, c, pat, m) <==> AllStars(pat, w)
  {
    MatchEmpty(cs, pat, w);
    MatchSegment(cs, text, c, pat, m, w);
    assert text[c + (w - m)..] == "";
    if Somewhere(cs, text, c, pat, m) {
      var k :| c <= k <= |text| && Matches(cs, text[k..], pat[m..]);
      MatchSegment(cs, text, k, pat, m, w);
      assert k == c;
    }
  }

  function At(s: string, i: nat): char {
    if i < |s| then s[i] else '\0'
  }

  /** No star has been met: the pattern so far matched character by character, and a star is next. */
  ghost predicate Before(cs: bool, text: cstring, pat: cstring, str: nat, wild: nat, cp: nat, mp: nat, answer: bool) {
    && cp == mp == 0 && str <= |text| && wild <= |pat|
    && (str < |text| ==> At(pat, wild) == '*')
    && (answer <==> Matches(cs, text[str..], pat[wild..]))
  }

  /** The segment behind the last star is being tried at `cp - 1`. */
  ghost predicate Searching(cs: bool, text: cstring, pat: cstring, str: nat, wild: nat, cp: nat, mp: nat,
                            answer: bool) {
    && mp <= wild <= |pat| && 1 <= cp && str == cp - 1 + (wild - mp) && str <= |text|
    && Segment(cs, text, cp - 1, pat, mp, wild)
    && (answer <==> Somewhere(cs, text, cp - 1, pat, mp))
  }

  ghost predicate Running(cs: bool, text: cstring, pat: cstring, str: nat, wild: nat, cp: nat, mp: nat, answer: bool) {
    Before(cs, text, pat, str, wild, cp, mp, answer) || Searching(cs, text, pat, str, wild, cp, mp, answer)
  }

  lemma NextStep(cs: bool, text: cstring, pat: cstring, str: nat, wild: nat, cp: nat, mp: nat, answer: bool)
    requires str < |text| && At(pat, wild) != '*' && One(cs, At(pat, wild), text[str])
    requires Running(cs, text, pat, str, wild, cp, mp, answer)
    ensures wild < |pat| && Running(cs, text, pat, str + 1, wild + 1, cp, mp, answer)
  {
  }

  lemma RetryStep(cs: bool, text: cstring, pat: cstring, str: nat, wild: nat, cp: nat, mp: nat, answer: bool)
    requires str < |text| && At(pat, wild) != '*' && !One(cs, At(pat, wild), text[str])
    requires Running(cs, text, pat, str, wild, cp, mp, answer)
    ensures cp <= |text| && mp <= |pat| && Running(cs, text, pat, cp, mp, cp + 1, mp, answer)
  {
    Fails(cs, text, cp - 1, pat, mp, wild);
  }

  lemma StarStep(cs: bool, text: cstring, pat: cstring, str: nat, wild: nat, cp: nat, mp: nat, answer: bool)
    requires str < |text| && At(pat, wild) == '*'
    requires Running(cs, text, pat, str, wild, cp, mp, answer)
    ensures wild < |pat| && (answer <==> Somewhere(cs, text, str, pat, wild + 1))
    ensures cp <= str + 1 && (cp == str + 1 ==> mp <= wild)
    ensures Running(cs, text, pat, str, wild + 1, str + 1, wild + 1, answer)
  {
    if Searching(cs, text, pat, str, wild, cp, mp, answer) {
      NextStar(cs, text, cp - 1, pat, mp, wild);
    } else {
      FirstStar(cs, text, str, pat, wild);
    }
  }

  lemma StarAtEnd(cs: bool, text: string, pat: string, str: nat)
    requires str <= |text|
    ensures Somewhere(cs, text, str, pat, |pat|)
  {
    assert text[|text|..] == "" && pat[|pat|..] == "";
  }

  lemma EndOfText(cs: bool, text: cstring, pat: cstring, str: nat, wild: nat, cp: nat, mp: nat, answer: bool)
    requires str == |text|
    requires Running(cs, text, pat, str, wild, cp, mp, answer)
    ensures wild <= |pat| && (answer <==> AllStars(pat, wild))
  {
    if Searching(cs, text, pat, str, wild, cp, mp, answer) {
      AtEnd(cs, text, cp - 1, pat, mp, wild);
    } else {
      assert text[str..] == "";
      MatchEmpty(cs, pat, wild);
    }
  }

  /** The first loop of `wildcmp`, up to the first star; negative if it ends with a mismatch. */
  method MatchHead(text: cstring, pat: cstring, caseSensitive: bool) returns (wild: int)
    ensures wild < 0 ==> !Matches(caseSensitive, text, pat)
    ensures wild >= 0 ==> Running(caseSensitive, text, pat, wild, wild, 0, 0, Matches(caseSensitive, text, pat))
  {
    wild := 0;
    while wild < |text| && At(pat, wild) != '*'
      invariant 0 <= wild <= |text| && wild <= |pat|
      invariant Segment(caseSensitive, text, 0, pat, 0, wild)
    {
      if !Same(caseSensitive, At(pat, wild), text[wild]) && At(pat, wild) != '?' {
        Mismatch(caseSensitive, text, pat, wild);
        return -1;
      }
      wild := wild + 1;
    }
    MatchSegment(caseSensitive, text, 0, pat, 0, wild);
    assert text[0..] == text && pat[0..] == pat;
  }

  /** `wildcmp`: `cp` is one past the place where the segment behind the last star was tried. */
  method WildCmp(text: cstring, pat: cstring, caseSensitive: bool) returns (r: int)
    ensures r != 0 <==> Matches(caseSensitive, text, pat)
  {
    var wild := MatchHead(text, pat, caseSensitive);
    if wild < 0 {
      return 0;
    }
    var str := wild;
    var cp, mp := 0, 0;
    ghost var answer := Matches(caseSensitive, text, pat);
    while str < |text|
      invariant Running(caseSensitive, text, pat, str, wild, cp, mp, answer)
      decreases |text| + 1 - cp, |pat| - mp, |text| - str
    {
      if At(pat, wild) == '*' {
        StarStep(caseSensitive, text, pat, str, wild, cp, mp, answer);
        wild := wild + 1;
        if At(pat, wild) == '\0' {
          StarAtEnd(caseSensitive, text, pat, str);
          return 1;
        }
        mp, cp := wild, str + 1;
      } else if Same(caseSensitive, At(pat, wild), text[str]) || At(pat, wild) == '?' {
        NextStep(caseSensitive, text, pat, str, wild, cp, mp, answer);
        wild, str := wild + 1, str + 1;
      } else {
        RetryStep(caseSensitive, text, pat, str, wild, cp, mp, answer);
        wild, str, cp := mp, cp, cp + 1;
      }
    }
    EndOfText(caseSensitive, text, pat, str, wild, cp, mp, answer);
    wild := SkipStars(pat, wild);
    return if At(pat, wild) == '\0' then 1 else 0;
  }

  /** The last loop of `wildcmp`. */
  method SkipStars(pat: cstring, from: nat) returns (wild: nat)
    requires from <= |pat|
    ensures from <= wild <= |pat| && At(pat, wild) != '*' && forall j :: from <= j < wild ==> pat[j] == '*'
  {
    wild := from;
    while At(pat, wild) == '*'
      invariant from <= wild <= |pat| && forall j :: from <= j < wild ==> pat[j] == '*'
      decreases |pat| - wild
    {
      wild := wild + 1;
    }
  }

  lemma Mismatch(cs: bool, text: string, pat: string, w: nat)
    requires w < |text| && w <= |pat| && Segment(cs, text, 0, pat, 0, w)
    requires w < |pat| ==> pat[w] != '*' && !One(cs, pat[w], text[w])
    ensures !Matches(cs, text, pat)
  {
    MatchSegment(cs, text, 0, pat, 0, w);
    assert text[0..] == text && pat[0..] == pat;
    assert text[w..][0] == text[w];
    if w < |pat| { assert pat[w..][0] == pat[w]; }
  }

  lemma FirstStar(cs: bool, text: string, i: nat, pat: string, w: nat)
    requires i <= |text| && w < |pat| && pat[w] == '*'
    ensures Matches(cs, text[i..], pat[w..]) <==> Somewhere(cs, text, i, pat, w + 1)
  {
    assert Segment(cs, text, i, pat, w, w);
    var t := text[i..];
    assert pat[w..][0] == '*' && pat[w..][1..] == pat[w + 1..];
    if Matches(cs, t, pat[w..]) {
      var k :| 0 <= k <= |t| && Matches(cs, t[k..], pat[w + 1..]);
      assert t[k..] == text[i + k..];
    }
    if Somewhere(cs, text, i, pat, w + 1) {
      var k :| i <= k <= |text| && Matches(cs, text[k..], pat[w + 1..]);
      assert t[k - i..] == text[k..];
    }
  }

  /** `matchesAny`. */
  method MatchesAny(name: cstring, filters: seq<cstring>, matchEmpty: bool, caseSensitive: bool) returns (r: bool)
    ensures r <==> (filters == [] && matchEmpty)
                   || exists k :: 0 <= k < |filters| && Matches(caseSensitive, name, filters[k])
  {
    if filters == [] && matchEmpty {
      return true;
    }
    var i := 0;
    while i < |filters|
      invariant i <= |filters| && forall k :: 0 <= k < i ==> !Matches(caseSensitive, name, filters[k])
    {
      var m := WildCmp(name, filters[i], caseSensitive);
      if m != 0 {
        return true;
      }
      i := i + 1;
    }
    return false;
  }
}
