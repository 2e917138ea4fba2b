/**
 * `mapLanguageToCode` (content.js): turns the language name the recognition
 * service reports into a speech code, by testing the lower-cased name for
 * seven keywords in a fixed order and falling back to English.
 */
module LanguageCode {
  import opened Wrappers
  import opened Text

  /** `s.includes(sub)`, tested position by position: a keyword is never
      found in a shorter name. */
  predicate Contains(s: string, sub: string): (r: bool)
    ensures r ==> |sub| <= |s|
  {
    sub <= s || (s != [] && Contains(s[1..], sub))
  }

  /** One row of the keyword table: keyword, short code, full locale. */
  datatype Entry = Entry(keyword: string, short: string, locale: string)

  /** The keywords in the order the source tests them. */
  const Table: seq<Entry> := [
    Entry("vietnam", "vi", "vi-VN"),
    Entry("japan", "ja", "ja-JP"),
    Entry("korea", "ko", "ko-KR"),
    Entry("china", "zh-CN", "zh-CN"),
    Entry("french", "fr", "fr-FR"),
    Entry("german", "de", "de-DE"),
    Entry("russia", "ru", "ru-RU")
  ]

  function Code(e: Entry, fullLocale: bool): string {
    if fullLocale then e.locale else e.short
  }

  function DefaultCode(fullLocale: bool): string {
    if fullLocale then "en-US" else "en"
  }

  /** `(langName || '').toLowerCase()`: as long as the name, with no ASCII
      capital left; a missing name is the empty string. */
  function Normalised(langName: Option<string>): (r: string)
    ensures langName.None? ==> r == ""
    ensures langName.Some? ==> |r| == |langName.value|
    ensures forall i :: 0 <= i < |r| ==> !('A' <= r[i] <= 'Z')
  {
    match langName
    case None => ""
    case Some(s) => ToLower(s)
  }

  /** `mapLanguageToCode(langName, fullLocale)` as the source writes it: an
      if-chain, first hit wins.  It agrees with the lookup that walks the
      keyword table. */
  function MapLanguageToCode(langName: Option<string>, fullLocale: bool): (r: string)
    ensures r == Lookup(Normalised(langName), fullLocale, 0)
  {
    var l := Normalised(langName);
    if Contains(l, "vietnam") then (if fullLocale then "vi-VN" else "vi")
    else if Contains(l, "japan") then (if fullLocale then "ja-JP" else "ja")
    else if Contains(l, "korea") then (if fullLocale then "ko-KR" else "ko")
    else if Contains(l, "china") then (if fullLocale then "zh-CN" else "zh-CN")
    else if Contains(l, "french") then (if fullLocale then "fr-FR" else "fr")
    else if Contains(l, "german") then (if fullLocale then "de-DE" else "de")
    else if Contains(l, "russia") then (if fullLocale then "ru-RU" else "ru")
    else if fullLocale then "en-US" else "en"
  }

  /** The table-driven reading of the keyword test: the code of the first
      row from `k` on whose keyword the name contains, else English. */
  function Lookup(l: string, fullLocale: bool, k: nat): string
    requires k <= |Table|
    decreases |Table| - k
  {
    if k == |Table| then DefaultCode(fullLocale)
    else if Contains(l, Table[k].keyword) then Code(Table[k], fullLocale)
    else Lookup(l, fullLocale, k + 1)
  }

  /** `sub` is the slice of `s` that starts at position `i`. */
  predicate OccursAt(s: string, sub: string, i: int) {
    0 <= i <= |s| - |sub| && s[i..i + |sub|] == sub
  }

  /** `includes` against the independent definition: `sub` occurs in `s` at
      some position. */
  lemma {:induction false} ContainsOccurs(s: string, sub: string)
    ensures Contains(s, sub) <==> exists i :: OccursAt(s, sub, i)
    decreases |s|
  {
    if sub <= s {
      assert OccursAt(s, sub, 0);
    } else if s == [] {
    } else {
      ContainsOccurs(s[1..], sub);
      if i :| OccursAt(s[1..], sub, i) {
        assert s[1..][i..i + |sub|] == s[i + 1..i + 1 + |sub|];
        assert OccursAt(s, sub, i + 1);
      }
      if i :| OccursAt(s, sub, i) {
        if i == 0 {
          assert false;
        } else {
          assert s[1..][i - 1..i - 1 + |sub|] == s[i..i + |sub|];
          assert OccursAt(s[1..], sub, i - 1);
        }
      }
    }
  }

  /** The name hits the keyword of row `k` and of no earlier row. */
  predicate FirstHit(l: string, k: int)
  {
    0 <= k < |Table| && Contains(l, Table[k].keyword) &&
    forall j :: 0 <= j < k ==> !Contains(l, Table[j].keyword)
  }

  /** The earliest table row whose keyword the name contains wins. */
  lemma FirstHitWins(langName: Option<string>, fullLocale: bool, k: int)
    requires FirstHit(Normalised(langName), k)
    ensures MapLanguageToCode(langName, fullLocale) == Code(Table[k], fullLocale)
  {
    var l := Normalised(langName);
    assert forall j :: 0 <= j < k ==> !Contains(l, Table[j].keyword);
    if k >= 1 { assert !Contains(l, Table[0].keyword); }
    if k >= 2 { assert !Contains(l, Table[1].keyword); }
    if k >= 3 { assert !Contains(l, Table[2].keyword); }
    if k >= 4 { assert !Contains(l, Table[3].keyword); }
    if k >= 5 { assert !Contains(l, Table[4].keyword); }
    if k >= 6 { assert !Contains(l, Table[5].keyword); }
  }

  /** With no keyword in the name, the result is English. */
  lemma NoHitIsEnglish(langName: Option<string>, fullLocale: bool)
    requires forall j :: 0 <= j < |Table| ==> !Contains(Normalised(langName), Table[j].keyword)
    ensures MapLanguageToCode(langName, fullLocale) == DefaultCode(fullLocale)
  {
    var l := Normalised(langName);
    assert !Contains(l, Table[0].keyword) && !Contains(l, Table[1].keyword);
    assert !Contains(l, Table[2].keyword) && !Contains(l, Table[3].keyword);
    assert !Contains(l, Table[4].keyword) && !Contains(l, Table[5].keyword);
    assert !Contains(l, Table[6].keyword);
  }

  /** Every name maps to a table code or to English. */
  lemma ResultIsKnownCode(langName: Option<string>, fullLocale: bool)
    ensures MapLanguageToCode(langName, fullLocale) == DefaultCode(fullLocale) ||
            exists k :: FirstHit(Normalised(langName), k) &&
                        MapLanguageToCode(langName, fullLocale) == Code(Table[k], fullLocale)
  {
    var l := Normalised(langName);
    if k :| FirstHit(l, k) {
      FirstHitWins(langName, fullLocale, k);
    } else {
      forall j | 0 <= j < |Table| ensures !Contains(l, Table[j].keyword) {
        if Contains(l, Table[j].keyword) {
          var m := LeastHit(l, j);
          assert false;
        }
      }
      NoHitIsEnglish(langName, fullLocale);
    }
  }

  /** Some row at or before `j` is the first hit when row `j` hits. */
  lemma {:induction false} LeastHit(l: string, j: int) returns (m: int)
    requires 0 <= j < |Table| && Contains(l, Table[j].keyword)
    ensures FirstHit(l, m) && m <= j
  {
    if exists i :: 0 <= i < j && Contains(l, Table[i].keyword) {
      var i :| 0 <= i < j && Contains(l, Table[i].keyword);
      m := LeastHit(l, i);
    } else {
      m := j;
    }
  }

  /** The `china` row yields `zh-CN` in both modes. */
  lemma ChinaIgnoresMode(langName: Option<string>)
    requires FirstHit(Normalised(langName), 3)
    ensures MapLanguageToCode(langName, false) == "zh-CN"
    ensures MapLanguageToCode(langName, true) == "zh-CN"
  {
    FirstHitWins(langName, false, 3);
    FirstHitWins(langName, true, 3);
  }

  /** A keyword whose first letter does not occur in the name is not in it. */
  lemma {:induction false} MissingFirstLetter(s: string, sub: string)
    requires sub != [] && sub[0] !in s
    ensures !Contains(s, sub)
  {
    if s != [] {
      assert s[0] != sub[0];
      assert s[1..] <= s[1..] && forall c :: c in s[1..] ==> c in s;
      MissingFirstLetter(s[1..], sub);
    }
  }

  /** "Japanese" hits `japan` and nothing before it. */
  lemma JapaneseIsJapanese(fullLocale: bool)
    ensures MapLanguageToCode(Some("Japanese"), fullLocale) == Code(Table[1], fullLocale)
  {
    var l := Normalised(Some("Japanese"));
    assert |l| == 8 && l[0] == 'j' && l[1] == 'a' && l[2] == 'p' && l[3] == 'a' && l[4] == 'n';
    assert 'v' !in l by { assert l[5] == 'e' && l[6] == 's' && l[7] == 'e'; }
    MissingFirstLetter(l, "vietnam");
    assert "japan" <= l;
  }

  lemma LowerChinese()
    ensures Normalised(Some("Chinese")) == "chinese"
  {
    var l := Normalised(Some("Chinese"));
    assert |l| == 7 && l[0] == 'c' && l[1] == 'h' && l[2] == 'i' && l[3] == 'n';
    assert l[4] == 'e' && l[5] == 's' && l[6] == 'e';
  }

  /** `chinese` contains none of the keywords.  The name is a parameter
      fixed by the precondition rather than a literal in the body, so that
      the solver does not unfold `Contains` on the literal text. */
  lemma ChineseHitsNoKeyword(l: string)
    requires l == "chinese"
    ensures forall j :: 0 <= j < |Table| ==> !Contains(l, Table[j].keyword)
  {
    assert 'v' !in l && 'j' !in l && 'k' !in l && 'f' !in l && 'g' !in l && 'r' !in l;
    MissingFirstLetter(l, "vietnam");
    MissingFirstLetter(l, "japan");
    MissingFirstLetter(l, "korea");
    MissingFirstLetter(l, "french");
    MissingFirstLetter(l, "german");
    MissingFirstLetter(l, "russia");
    assert !("china" <= l) by { assert l[4] != 'a'; }
    assert 'c' !in l[1..];
    MissingFirstLetter(l[1..], "china");
  }

  /** The service reports names such as "Chinese": it contains none of the
      keywords (it is spelled `chine`, not `china`), so it is read out and
      listened for as English. */
  lemma ChineseIsEnglish(fullLocale: bool)
    ensures MapLanguageToCode(Some("Chinese"), fullLocale) == DefaultCode(fullLocale)
  {
    LowerChinese();
    ChineseHitsNoKeyword(Normalised(Some("Chinese")));
    NoHitIsEnglish(Some("Chinese"), fullLocale);
  }

  /** A missing name is English. */
  lemma MissingNameIsEnglish(fullLocale: bool)
    ensures MapLanguageToCode(None, fullLocale) == DefaultCode(fullLocale)
  {
  }
}
