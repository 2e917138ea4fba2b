/**
 * `calculateSimilarity` (content.js) and the score bands of the
 * pronunciation feedback: the spoken transcript is compared with the
 * recognised text by word overlap.  A score is kept as the exact fraction
 * `num / den` of naturals instead of a floating-point number.
 */
module Similarity {
  import opened Wrappers
  import opened Text
  import opened Numbers

  /** `\w` of a JavaScript regular expression without the `u` flag: ASCII
      only, so an accented or non-Latin letter is not a word character. */
  predicate IsWordChar(c: char): (r: bool)
    ensures r ==> c as int < 128
  {
    'a' <= c <= 'z' || 'A' <= c <= 'Z' || '0' <= c <= '9' || c == '_'
  }

  /** `\s` of a JavaScript regular expression: white space and line
      terminators, none of which is a word character. */
  predicate IsSpace(c: char): (r: bool)
    ensures r ==> !IsWordChar(c)
  {
    c == ' ' || c == '\t' || c == '\n' || c == '\r' || c == '\U{B}' || c == '\U{C}' ||
    c == '\U{A0}' || c == '\U{1680}' || '\U{2000}' <= c <= '\U{200A}' ||
    c == '\U{2028}' || c == '\U{2029}' || c == '\U{202F}' || c == '\U{205F}' ||
    c == '\U{3000}' || c == '\U{FEFF}'
  }

  /** `.replace(/[^\w\s]/gi, '')`: drop every character that is neither. */
  function StripPunctuation(s: string): (r: string)
    ensures |r| <= |s|
    ensures forall i :: 0 <= i < |r| ==> IsWordChar(r[i]) || IsSpace(r[i])
    ensures (forall i :: 0 <= i < |s| ==> IsWordChar(s[i]) || IsSpace(s[i])) ==> r == s
    ensures forall i :: 0 <= i < |r| ==> r[i] in s
  {
    if s == [] then []
    else (if IsWordChar(s[0]) || IsSpace(s[0]) then [s[0]] else []) + StripPunctuation(s[1..])
  }

  /** A token: non-empty and free of white space. */
  predicate IsWord(w: string) {
    w != [] && forall j :: 0 <= j < |w| ==> !IsSpace(w[j])
  }

  /** The characters of `s` that are not white space, in order. */
  function NonSpace(s: string): string {
    if s == [] then [] else (if IsSpace(s[0]) then [] else [s[0]]) + NonSpace(s[1..])
  }

  function Flatten(ws: seq<string>): string {
    if ws == [] then [] else ws[0] + Flatten(ws[1..])
  }

  /** `.split(/\s+/).filter(x => x)`, with `cur` the word read so far. */
  function SplitWords(s: string, cur: string): (r: seq<string>)
    requires forall j :: 0 <= j < |cur| ==> !IsSpace(cur[j])
    ensures forall i :: 0 <= i < |r| ==> IsWord(r[i])
    ensures forall i, j :: 0 <= i < |r| && 0 <= j < |r[i]| ==> r[i][j] in cur || r[i][j] in s
    decreases |s|
  {
    if s == [] then (if cur == [] then [] else [cur])
    else if IsSpace(s[0]) then (if cur == [] then [] else [cur]) + SplitWords(s[1..], [])
    else SplitWords(s[1..], cur + [s[0]])
  }

  /** The word list `calculateSimilarity` builds from one of its inputs:
      every token is a non-empty run of lower-case ASCII letters, digits and
      underscores. */
  function Tokens(s: string): (r: seq<string>)
    ensures forall i :: 0 <= i < |r| ==> r[i] != []
    ensures forall i, j :: 0 <= i < |r| && 0 <= j < |r[i]| ==>
      IsWordChar(r[i][j]) && !('A' <= r[i][j] <= 'Z')
  {
    SplitWords(StripPunctuation(ToLower(s)), [])
  }

  /** Stripping works character by character: it commutes with `+`. */
  lemma {:induction false} StripPunctuationAppend(a: string, b: string)
    ensures StripPunctuation(a + b) == StripPunctuation(a) + StripPunctuation(b)
  {
    if a == [] {
      assert a + b == b;
    } else {
      assert (a + b)[1..] == a[1..] + b;
      StripPunctuationAppend(a[1..], b);
    }
  }

  /** Reading characters that are not white space only extends the word. */
  lemma {:induction false} SplitWordsReadsWord(w: string, rest: string, cur: string)
    requires forall j :: 0 <= j < |cur| ==> !IsSpace(cur[j])
    requires forall j :: 0 <= j < |w| ==> !IsSpace(w[j])
    ensures SplitWords(w + rest, cur) == SplitWords(rest, cur + w)
    decreases |w|
  {
    if w == [] {
      assert w + rest == rest && cur + w == cur;
    } else {
      assert (w + rest)[0] == w[0] && (w + rest)[1..] == w[1..] + rest;
      SplitWordsReadsWord(w[1..], rest, cur + [w[0]]);
      assert cur + [w[0]] + w[1..] == cur + w;
    }
  }

  /** A single word is a single token. */
  lemma SplitWordsOfWord(w: string)
    requires IsWord(w)
    ensures SplitWords(w, []) == [w]
  {
    SplitWordsReadsWord(w, [], []);
    assert w + [] == w && [] + w == w;
  }

  /** A white-space character separates: what lies on either side of it is
      split on its own, so a run of white space never makes an empty token. */
  lemma {:induction false} SplitWordsAtSpace(a: string, c: char, b: string, cur: string)
    requires forall j :: 0 <= j < |cur| ==> !IsSpace(cur[j])
    requires IsSpace(c)
    ensures SplitWords(a + [c] + b, cur) == SplitWords(a, cur) + SplitWords(b, [])
    decreases |a|
  {
    if a == [] {
      assert a + [c] + b == [c] + b;
      assert ([c] + b)[1..] == b;
    } else {
      assert (a + [c] + b)[0] == a[0] && (a + [c] + b)[1..] == a[1..] + [c] + b;
      if IsSpace(a[0]) {
        SplitWordsAtSpace(a[1..], c, b, []);
      } else {
        SplitWordsAtSpace(a[1..], c, b, cur + [a[0]]);
      }
    }
  }

  lemma {:induction false} FlattenAppend(a: seq<string>, b: seq<string>)
    ensures Flatten(a + b) == Flatten(a) + Flatten(b)
  {
    if a == [] {
      assert a + b == b;
    } else {
      assert (a + b)[1..] == a[1..] + b;
      FlattenAppend(a[1..], b);
    }
  }

  /** Splitting loses no character but white space and adds none. */
  lemma {:induction false} SplitWordsKeepsText(s: string, cur: string)
    requires forall j :: 0 <= j < |cur| ==> !IsSpace(cur[j])
    ensures Flatten(SplitWords(s, cur)) == cur + NonSpace(s)
    decreases |s|
  {
    if s == [] {
      if cur != [] { assert Flatten([cur]) == cur + Flatten([]); }
    } else if IsSpace(s[0]) {
      var pre: seq<string> := if cur == [] then [] else [cur];
      FlattenAppend(pre, SplitWords(s[1..], []));
      SplitWordsKeepsText(s[1..], []);
      if cur != [] { assert Flatten([cur]) == cur + Flatten([]); }
    } else {
      SplitWordsKeepsText(s[1..], cur + [s[0]]);
    }
  }

  /** The tokens are non-empty, contain no white space, and spell out the
      lower-cased, punctuation-free text with its white space removed. */
  lemma TokensSpellText(s: string)
    ensures forall i :: 0 <= i < |Tokens(s)| ==> IsWord(Tokens(s)[i])
    ensures Flatten(Tokens(s)) == NonSpace(StripPunctuation(ToLower(s)))
  {
    SplitWordsKeepsText(StripPunctuation(ToLower(s)), []);
  }

  /** The exact fraction `num / den`. */
  datatype Score = Score(num: nat, den: nat)

  ghost function Value(s: Score): real
    requires s.den > 0
  {
    s.num as real / s.den as real
  }

  /** How many words of `ws` are in `dict` (the `forEach` over the transcript). */
  function Count(ws: seq<string>, dict: set<string>): (r: nat)
    ensures r <= |ws|
  {
    if ws == [] then 0
    else Count(ws[..|ws| - 1], dict) + (if ws[|ws| - 1] in dict then 1 else 0)
  }

  /** What `calculateSimilarity(s1, s2)` returns, cap at 1 included: a
      fraction with a positive denominator, never above 1. */
  function SimilarityOf(s1: Option<string>, s2: Option<string>): (r: Score)
    ensures r.den > 0 && r.num <= r.den
  {
    if Falsy(s1) || Falsy(s2) then Score(0, 1)
    else
      var t1, t2 := Tokens(s1.value), Tokens(s2.value);
      if |t1| == 0 then Score(0, 1)
      else
        var matches := Count(t2, set w | w in t1);
        var den := Max(|t1|, |t2|);
        if matches > den then Score(1, 1) else Score(matches, den)
  }

  /** `calculateSimilarity(s1, s2)`: count the transcript's words that occur
      in the original, then divide by the larger word count. */
  method CalculateSimilarity(s1: Option<string>, s2: Option<string>) returns (score: Score)
    ensures score == SimilarityOf(s1, s2)
    ensures score.den > 0 && score.num <= score.den
  {
    if Falsy(s1) || Falsy(s2) {
      return Score(0, 1);
    }
    var cleanS1 := Tokens(s1.value);
    var cleanS2 := Tokens(s2.value);
    if |cleanS1| == 0 {
      return Score(0, 1);
    }
    var matches := 0;
    var set1 := set w | w in cleanS1;
    var i := 0;
    while i < |cleanS2|
      invariant 0 <= i <= |cleanS2|
      invariant matches == Count(cleanS2[..i], set1)
    {
      assert cleanS2[..i + 1][..i] == cleanS2[..i];
      if cleanS2[i] in set1 {
        matches := matches + 1;
      }
      i := i + 1;
    }
    assert cleanS2[..i] == cleanS2;
    score := Score(matches, Max(|cleanS1|, |cleanS2|));
    if score.num > score.den {
      score := Score(1, 1);
    }
  }

  /** The score is a fraction in [0, 1], and the cap `if (score > 1)` never
      changes it: every match is a word of the transcript. */
  lemma SimilarityInUnitInterval(s1: Option<string>, s2: Option<string>)
    ensures SimilarityOf(s1, s2).den > 0
    ensures 0.0 <= Value(SimilarityOf(s1, s2)) <= 1.0
    ensures !Falsy(s1) && !Falsy(s2) && |Tokens(s1.value)| > 0 ==>
      var t1, t2 := Tokens(s1.value), Tokens(s2.value);
      SimilarityOf(s1, s2) == Score(Count(t2, set w | w in t1), Max(|t1|, |t2|))
  {
    var r := SimilarityOf(s1, s2);
    assert r.num <= r.den;
    UnitFraction(r.num, r.den);
  }

  lemma UnitFraction(n: nat, d: nat)
    requires 0 < d && n <= d
    ensures 0.0 <= n as real / d as real <= 1.0
  {
    assert n as real <= d as real;
    assert n as real / d as real <= d as real / d as real;
  }

  lemma SelfQuotient(n: nat)
    requires n > 0
    ensures n as real / n as real == 1.0
  {
  }

  /** A missing or empty input, or an original text without words, scores 0. */
  lemma DegenerateScoresZero(s1: Option<string>, s2: Option<string>)
    requires Falsy(s1) || Falsy(s2) || Tokens(s1.value) == []
    ensures SimilarityOf(s1, s2).num == 0
  {
  }

  /** Every word of a list whose words all lie in `dict` is a match. */
  lemma {:induction false} CountAllIn(ws: seq<string>, dict: set<string>)
    requires forall i :: 0 <= i < |ws| ==> ws[i] in dict
    ensures Count(ws, dict) == |ws|
  {
    if ws != [] {
      CountAllIn(ws[..|ws| - 1], dict);
    }
  }

  /** A transcript with the same words as the original scores 1, whatever
      their case, punctuation and spacing. */
  lemma IdenticalScoresOne(s1: string, s2: string)
    requires s1 != "" && s2 != "" && Tokens(s1) == Tokens(s2) != []
    ensures SimilarityOf(Some(s1), Some(s2)) == Score(|Tokens(s1)|, |Tokens(s1)|)
    ensures Value(SimilarityOf(Some(s1), Some(s2))) == 1.0
  {
    var t := Tokens(s1);
    CountAllIn(t, set w | w in t);
    assert SimilarityOf(Some(s1), Some(s2)) == Score(|t|, |t|);
    SelfQuotient(|t|);
  }

  /** The three feedback classes of the score (content.js line 493). */
  datatype Band = High | Mid | Low

  /** `score > 0.8` for the high band and `score > 0.5` for the middle one,
      decided on the exact value of the score by comparing across. */
  function BandOf(s: Score): (r: Band)
    ensures s.den > 0 ==> (r == High <==> Value(s) > 0.8)
    ensures s.den > 0 ==> (r == Mid <==> 0.5 < Value(s) <= 0.8)
    ensures s.den > 0 ==> (r == Low <==> Value(s) <= 0.5)
  {
    ThresholdsExact(s);
    if 5 * s.num > 4 * s.den then High
    else if 2 * s.num > s.den then Mid
    else Low
  }

  /** Comparing a quotient with a threshold is comparing across. */
  lemma QuotientAbove(n: real, d: real, q: real)
    requires d > 0.0
    ensures n / d > q <==> n > q * d
  {
    var v := n / d;
    assert v * d == n;
    if v > q {
      assert (v - q) * d > 0.0;
    } else {
      assert (q - v) * d >= 0.0;
    }
  }

  /** The integer tests agree with `score > 0.8` and `score > 0.5` on the
      exact value of the score. */
  lemma ThresholdsExact(s: Score)
    ensures s.den > 0 ==> (5 * s.num > 4 * s.den <==> Value(s) > 0.8)
    ensures s.den > 0 ==> (2 * s.num > s.den <==> Value(s) > 0.5)
  {
    if s.den > 0 {
      var n, d := s.num as real, s.den as real;
      QuotientAbove(n, d, 0.8);
      QuotientAbove(n, d, 0.5);
      assert (5 * s.num) as real == 5.0 * n && (4 * s.den) as real == 4.0 * d;
      assert (2 * s.num) as real == 2.0 * n;
    }
  }
}
