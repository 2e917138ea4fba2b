/**
 * `escapeHtml` (content.js): the text that the result card and the error
 * toast splice into `innerHTML` templates goes through a chain of five
 * global replaces, `&` first.
 */
module HtmlEscape {
  import opened Wrappers

  /** The five characters the escaper rewrites. */
  predicate IsSpecial(c: char) {
    c == '&' || c == '<' || c == '>' || c == '"' || c == '\''
  }

  /** The characters that may not appear raw in escaped output. */
  predicate IsMarkup(c: char) {
    c == '<' || c == '>' || c == '"' || c == '\''
  }

  /** `s.replace(/c/g, rep)` for a one-character pattern `c`. */
  function ReplaceAll(s: string, c: char, rep: string): (r: string)
    ensures c !in rep ==> c !in r
    ensures forall d :: d != c && d !in rep ==> (d in r <==> d in s)
  {
    if s == [] then []
    else (if s[0] == c then rep else [s[0]]) + ReplaceAll(s[1..], c, rep)
  }

  /** The replace chain exactly as written, in its order.  Each replace
      removes its own character and brings in none of the later ones, so no
      raw markup character is left. */
  function Chain(s: string): (r: string)
    ensures forall i :: 0 <= i < |r| ==> !IsMarkup(r[i])
  {
    var amp := ReplaceAll(s, '&', "&amp;");
    var lt := ReplaceAll(amp, '<', "&lt;");
    var gt := ReplaceAll(lt, '>', "&gt;");
    var quot := ReplaceAll(gt, '"', "&quot;");
    ReplaceAll(quot, '\'', "&#039;")
  }

  /** `escapeHtml(text)`: a missing or empty text gives the empty string;
      no raw `<`, `>`, `"` or `'` survives. */
  function EscapeHtml(text: Option<string>): (r: string)
    ensures Falsy(text) ==> r == ""
    ensures forall i :: 0 <= i < |r| ==> !IsMarkup(r[i])
  {
    match text
    case None => ""
    case Some(s) => if s == "" then "" else Chain(s)
  }

  /** The entity each character stands for, or the character itself. */
  function EscapeChar(c: char): (r: string)
    ensures |r| >= 1
    ensures forall d :: d in r ==> !IsMarkup(d)
    ensures !IsSpecial(c) ==> r == [c]
  {
    if c == '&' then "&amp;"
    else if c == '<' then "&lt;"
    else if c == '>' then "&gt;"
    else if c == '"' then "&quot;"
    else if c == '\'' then "&#039;"
    else [c]
  }

  /** The single per-character map the chain is meant to compute. */
  function EscapeEach(s: string): (r: string)
    ensures |r| >= |s|
    ensures forall i :: 0 <= i < |r| ==> !IsMarkup(r[i])
    ensures (forall i :: 0 <= i < |s| ==> !IsSpecial(s[i])) ==> r == s
  {
    if s == [] then [] else EscapeChar(s[0]) + EscapeEach(s[1..])
  }

  /** What an HTML parser does with the escaped text: decode the five entities. */
  function Unescape(s: string): string
  {
    if s == [] then []
    else if "&amp;" <= s then ['&'] + Unescape(s[5..])
    else if "&lt;" <= s then ['<'] + Unescape(s[4..])
    else if "&gt;" <= s then ['>'] + Unescape(s[4..])
    else if "&quot;" <= s then ['"'] + Unescape(s[6..])
    else if "&#039;" <= s then ['\''] + Unescape(s[6..])
    else [s[0]] + Unescape(s[1..])
  }

  lemma {:induction false} ReplaceAllAppend(a: string, b: string, c: char, rep: string)
    ensures ReplaceAll(a + b, c, rep) == ReplaceAll(a, c, rep) + ReplaceAll(b, c, rep)
  {
    if a != [] {
      assert (a + b)[0] == a[0];
      assert (a + b)[1..] == a[1..] + b;
      ReplaceAllAppend(a[1..], b, c, rep);
    } else {
      assert a + b == b;
    }
  }

  lemma {:induction false} ReplaceAllAbsent(s: string, c: char, rep: string)
    requires c !in s
    ensures ReplaceAll(s, c, rep) == s
  {
    if s != [] {
      assert s == [s[0]] + s[1..];
      ReplaceAllAbsent(s[1..], c, rep);
    }
  }

  lemma ChainAppend(a: string, b: string)
    ensures Chain(a + b) == Chain(a) + Chain(b)
  {
    var a1, b1 := ReplaceAll(a, '&', "&amp;"), ReplaceAll(b, '&', "&amp;");
    ReplaceAllAppend(a, b, '&', "&amp;");
    var a2, b2 := ReplaceAll(a1, '<', "&lt;"), ReplaceAll(b1, '<', "&lt;");
    ReplaceAllAppend(a1, b1, '<', "&lt;");
    var a3, b3 := ReplaceAll(a2, '>', "&gt;"), ReplaceAll(b2, '>', "&gt;");
    ReplaceAllAppend(a2, b2, '>', "&gt;");
    var a4, b4 := ReplaceAll(a3, '"', "&quot;"), ReplaceAll(b3, '"', "&quot;");
    ReplaceAllAppend(a3, b3, '"', "&quot;");
    ReplaceAllAppend(a4, b4, '\'', "&#039;");
  }

  /** On one character, the chain produces that character's entity: no later
      pattern occurs inside an entity produced by an earlier replace. */
  lemma ChainOne(c: char)
    ensures Chain([c]) == EscapeChar(c)
  {
    var e := EscapeChar(c);
    assert ReplaceAll([c], '&', "&amp;") == if c == '&' then "&amp;" else [c];
    var s1 := ReplaceAll([c], '&', "&amp;");
    assert ReplaceAll([c], '<', "&lt;") == if c == '<' then "&lt;" else [c];
    assert ReplaceAll([c], '>', "&gt;") == if c == '>' then "&gt;" else [c];
    assert ReplaceAll([c], '"', "&quot;") == if c == '"' then "&quot;" else [c];
    assert ReplaceAll([c], '\'', "&#039;") == if c == '\'' then "&#039;" else [c];
    if c == '&' {
      ReplaceAllAbsent("&amp;", '<', "&lt;");
      ReplaceAllAbsent("&amp;", '>', "&gt;");
      ReplaceAllAbsent("&amp;", '"', "&quot;");
      ReplaceAllAbsent("&amp;", '\'', "&#039;");
    } else if c == '<' {
      ReplaceAllAbsent("&lt;", '>', "&gt;");
      ReplaceAllAbsent("&lt;", '"', "&quot;");
      ReplaceAllAbsent("&lt;", '\'', "&#039;");
    } else if c == '>' {
      ReplaceAllAbsent("&gt;", '"', "&quot;");
      ReplaceAllAbsent("&gt;", '\'', "&#039;");
    } else if c == '"' {
      ReplaceAllAbsent("&quot;", '\'', "&#039;");
    }
  }

  /** The five-replace chain equals the single per-character map. */
  lemma {:induction false} ChainIsEscapeEach(s: string)
    ensures Chain(s) == EscapeEach(s)
  {
    if s == [] {
      assert Chain(s) == [];
    } else {
      assert s == [s[0]] + s[1..];
      ChainAppend([s[0]], s[1..]);
      ChainOne(s[0]);
      ChainIsEscapeEach(s[1..]);
    }
  }

  /** Each of the five characters becomes its entity and every other
      character is copied: the escaped text is the per-character map. */
  lemma EscapeHtmlIsPerCharacter(text: Option<string>)
    ensures EscapeHtml(text) == if text.None? then "" else EscapeEach(text.value)
  {
    if text.Some? && text.value != "" {
      ChainIsEscapeEach(text.value);
    }
  }

  /** Text with none of the five characters comes back unchanged. */
  lemma EscapeHtmlPlainText(s: string)
    requires forall i :: 0 <= i < |s| ==> !IsSpecial(s[i])
    ensures EscapeHtml(Some(s)) == s
  {
    EscapeHtmlIsPerCharacter(Some(s));
  }

  /** Decoding consumes exactly one escaped character at the front. */
  lemma UnescapeEscapeChar(c: char, rest: string)
    ensures Unescape(EscapeChar(c) + rest) == [c] + Unescape(rest)
  {
    var t := EscapeChar(c) + rest;
    if c == '&' {
      assert "&amp;" <= t && t[5..] == rest;
    } else if c == '<' {
      assert t[1] == 'l' && "&lt;" <= t && t[4..] == rest;
    } else if c == '>' {
      assert t[1] == 'g' && "&gt;" <= t && t[4..] == rest;
    } else if c == '"' {
      assert t[1] == 'q' && "&quot;" <= t && t[6..] == rest;
    } else if c == '\'' {
      assert t[1] == '#' && "&#039;" <= t && t[6..] == rest;
    } else {
      assert t[0] == c && t[1..] == rest;
    }
  }

  /** Decoding the entities gives the original text back: the entity
      decoding recovers the text. */
  lemma {:induction false} UnescapeEscapeEach(s: string)
    ensures Unescape(EscapeEach(s)) == s
  {
    if s != [] {
      UnescapeEscapeChar(s[0], EscapeEach(s[1..]));
      UnescapeEscapeEach(s[1..]);
      assert s == [s[0]] + s[1..];
    }
  }

  /** Escaping loses nothing: decoding `escapeHtml(s)` recovers `s`. */
  lemma EscapeHtmlRoundTrip(s: string)
    ensures Unescape(EscapeHtml(Some(s))) == s
  {
    EscapeHtmlIsPerCharacter(Some(s));
    UnescapeEscapeEach(s);
  }
}
