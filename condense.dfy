/**
 * The condenser and the re-classifier: a document's text is cut at blank lines into pages, junk
 * pages are dropped, boilerplate is deleted from the rest, and the condensed text is scored again.
 */
module Condenser {
  import opened Text
  import opened Wrappers
  import opened Seqs
  import opened JunkPatterns
  import opened Classifier

  /** Python's `sum(1 for c in s if c.isdigit())`, over ASCII digits. */
  function CountDigits(s: String): (n: nat)
    ensures n <= |s|
  {
    Count(|s|, (k: nat) => k < |s| && IsDigit(s[k]))
  }

  /**
   * `is_junk_page`: after stripping, under 15 characters, under a quarter letters, or (over 50
   * characters) over 40% digits. The ratios are compared by cross-multiplication.
   */
  predicate IsJunkPage(text: String) {
    var s := Strip(text);
    || |s| < 15
    || CountLetters(s) * 4 < |s|
    || (|s| > 50 && CountDigits(s) * 10 > 4 * |s|)
  }

  /**
   * A page survives the junk test only if it has at least 15 characters, at least a quarter of them
   * letters (so at least 4), and, above 50 characters, at most 40% digits.
   */
  lemma KeptPageIsLiterate(text: String)
    requires !IsJunkPage(text)
    ensures var s := Strip(text);
      && |s| >= 15
      && CountLetters(s) * 4 >= |s|
      && CountLetters(s) >= 4
      && (|s| > 50 ==> CountDigits(s) * 10 <= 4 * |s|)
  {
  }

  /**
   * One page through the deletion patterns, the `\n{3,}` collapse and the strip. The result is
   * no longer than the page, has no whitespace at either end and no three newlines in a row.
   */
  function CleanPage(page: String): (r: String)
    ensures |r| <= |page|
    ensures r == [] || (!IsSpace(r[0]) && !IsSpace(r[|r| - 1]))
    ensures NoTripleNewline(r)
  {
    var collapsed := CollapseNewlines(ApplyAll(page, JunkPatternList));
    CollapseNoTriple(ApplyAll(page, JunkPatternList));
    StripNoTriple(collapsed);
    Strip(collapsed)
  }

  /** A cleaned page is kept only when it is longer than 15 characters. */
  predicate LongEnough(piece: String) {
    |piece| > 15
  }

  /** The cleaned forms of the non-junk pages, in page order, that stay longer than 15 characters. */
  function Kept(pages: seq<String>): (r: seq<String>)
    ensures |r| <= |pages|
  {
    Filter(Map(Filter(pages, p => !IsJunkPage(p)), CleanPage), LongEnough)
  }

  /** The condensed text: `None` and `""` give `""`; otherwise the kept pieces joined by a blank line. */
  function Condensed(fullText: Option<String>): String {
    if fullText.None? || fullText.value == [] then ""
    else Join(Kept(Split(fullText.value, "\n\n")), "\n\n")
  }

  /** What one page contributes: its cleaned form, if it is not junk and that form is long enough. */
  function Piece(page: String): (r: seq<String>)
    ensures |r| <= 1
    ensures r != [] ==> |r[0]| <= |page|
  {
    if !IsJunkPage(page) && LongEnough(CleanPage(page)) then [CleanPage(page)] else []
  }

  /** What one page adds to the kept pieces. */
  lemma KeptStep(pages: seq<String>, k: nat)
    requires k < |pages|
    ensures Kept(pages[..k + 1]) == Kept(pages[..k]) + Piece(pages[k])
  {
    var notJunk := p => !IsJunkPage(p);
    assert pages[..k + 1] == pages[..k] + [pages[k]];
    FilterConcat(pages[..k], [pages[k]], notJunk);
    var head := Filter(pages[..k], notJunk);
    var last := Filter([pages[k]], notJunk);
    assert Filter([pages[k]][1..], notJunk) == [];
    MapConcat(head, last, CleanPage);
    FilterConcat(Map(head, CleanPage), Map(last, CleanPage), LongEnough);
    if !IsJunkPage(pages[k]) {
      assert last == [pages[k]];
      assert Filter(Map(last, CleanPage)[1..], LongEnough) == [];
    } else {
      assert last == [];
    }
  }

  /** The inner loop of `condense_text`: each pattern's matches are deleted, in the listed order. */
  method StripBoilerplate(page: String) returns (cleaned: String)
    ensures cleaned == ApplyAll(page, JunkPatternList)
  {
    cleaned := page;
    for j := 0 to |JunkPatternList|
      invariant cleaned == ApplyAll(page, JunkPatternList[..j])
    {
      assert JunkPatternList[..j + 1][..j] == JunkPatternList[..j];
      cleaned := Sub(JunkPatternList[j], cleaned);
    }
    assert JunkPatternList[..|JunkPatternList|] == JunkPatternList;
  }

  /** `condense_text(full_text)`: the page loop appends each surviving page's cleaned form. */
  method CondenseText(fullText: Option<String>) returns (r: String)
    ensures r == Condensed(fullText)
  {
    if fullText.None? || fullText.value == [] {
      return "";
    }
    var pages := Split(fullText.value, "\n\n");
    var kept: seq<String> := [];
    for k := 0 to |pages|
      invariant kept == Kept(pages[..k])
    {
      var page := pages[k];
      if !IsJunkPage(page) {
        var cleaned := StripBoilerplate(page);
        cleaned := Strip(CollapseNewlines(cleaned));
        if |cleaned| > 15 {
          kept := kept + [cleaned];
        }
      }
      KeptStep(pages, k);
    }
    assert pages[..|pages|] == pages;
    r := Join(kept, "\n\n");
  }

  /** Every kept piece is the cleaned form of a non-junk page. */
  lemma KeptFromPages(pages: seq<String>, c: String)
    requires c in Kept(pages)
    ensures exists p :: p in pages && !IsJunkPage(p) && c == CleanPage(p)
  {
    var notJunk := p => !IsJunkPage(p);
    var survivors := Filter(pages, notJunk);
    FilterMembers(Map(survivors, CleanPage), LongEnough);
    MapMembers(survivors, CleanPage, c);
    FilterMembers(pages, notJunk);
  }

  /** Every kept piece is longer than 15 characters, has no whitespace at either end and no three newlines in a row. */
  lemma KeptPiecesTidy(pages: seq<String>)
    ensures forall c :: c in Kept(pages) ==>
      |c| > 15 && !IsSpace(c[0]) && !IsSpace(c[|c| - 1]) && NoTripleNewline(c)
  {
    var survivors := Filter(pages, p => !IsJunkPage(p));
    FilterMembers(Map(survivors, CleanPage), LongEnough);
    forall c | c in Kept(pages)
      ensures |c| > 15 && !IsSpace(c[0]) && !IsSpace(c[|c| - 1]) && NoTripleNewline(c)
    {
      MapMembers(survivors, CleanPage, c);
    }
  }

  /** Joining tidy, non-empty pieces with a blank line gives a tidy text. */
  lemma {:induction false} JoinTidy(parts: seq<String>)
    requires forall c :: c in parts ==> c != [] && !IsSpace(c[0]) && !IsSpace(c[|c| - 1]) && NoTripleNewline(c)
    ensures var r := Join(parts, "\n\n");
      NoTripleNewline(r) && (r == [] || (!IsSpace(r[0]) && !IsSpace(r[|r| - 1])))
    decreases |parts|
  {
    if |parts| > 1 {
      var head := parts[0];
      assert head in parts;
      JoinTidy(parts[1..]);
      var tail := Join(parts[1..], "\n\n");
      assert parts[1] in parts;
      assert tail != [] by {
        assert |parts[1..]| >= 1;
        if |parts[1..]| == 1 {
          assert tail == parts[1];
        } else {
          assert tail == parts[1] + "\n\n" + Join(parts[2..], "\n\n");
          assert parts[1..][1..] == parts[2..];
        }
      }
      NoTripleNewlineAppend(head, "\n\n");
      NoTripleNewlineAppend(head + "\n\n", tail);
      assert Join(parts, "\n\n") == head + "\n\n" + tail;
    } else if |parts| == 1 {
      assert parts[0] in parts;
    }
  }

  /** The condensed text has no three newlines in a row and no whitespace at either end. */
  lemma CondensedTidy(fullText: Option<String>)
    ensures var r := Condensed(fullText);
      NoTripleNewline(r) && !Contains(r, "\n\n\n") && (r == [] || (!IsSpace(r[0]) && !IsSpace(r[|r| - 1])))
  {
    var r := Condensed(fullText);
    if fullText.Some? && fullText.value != [] {
      var kept := Kept(Split(fullText.value, "\n\n"));
      KeptPiecesTidy(Split(fullText.value, "\n\n"));
      JoinTidy(kept);
    }
    NoTripleNewlineIff(r);
  }

  /** Condensing drops and shortens pages, so the result is never longer than the text. */
  lemma {:induction false} KeptJoinShrinks(pages: seq<String>)
    ensures |Join(Kept(pages), "\n\n")| <= |Join(pages, "\n\n")|
    decreases |pages|
  {
    if pages != [] {
      var k := |pages| - 1;
      var init := pages[..k];
      assert init + [pages[k]] == pages;
      JoinSnoc(init, pages[k], "\n\n");
      KeptJoinShrinks(init);
      KeptStep(pages, k);
      assert pages[..k + 1] == pages;
      var piece := Piece(pages[k]);
      if piece != [] {
        assert piece == [piece[0]];
        JoinSnoc(Kept(init), piece[0], "\n\n");
      } else {
        assert Kept(init) + piece == Kept(init);
      }
    }
  }

  lemma CondensedShrinks(fullText: Option<String>)
    ensures fullText.Some? ==> |Condensed(fullText)| <= |fullText.value|
    ensures fullText.None? ==> Condensed(fullText) == []
  {
    if fullText.Some? && fullText.value != [] {
      var pages := Split(fullText.value, "\n\n");
      KeptJoinShrinks(pages);
      JoinSplit(fullText.value, "\n\n");
    }
  }

  /** A text made only of junk pages condenses to nothing. */
  lemma AllJunkCondensesToEmpty(text: String)
    requires forall p :: p in Split(text, "\n\n") ==> IsJunkPage(p)
    ensures Condensed(Some(text)) == []
  {
    var pages := Split(text, "\n\n");
    if text != [] {
      var notJunk := p => !IsJunkPage(p);
      assert forall i :: 0 <= i < |pages| ==> !notJunk(pages[i]) by {
        forall i | 0 <= i < |pages| ensures !notJunk(pages[i]) {
          assert pages[i] in pages;
        }
      }
      FilterNone(pages, notJunk);
      assert Map(Filter(pages, notJunk), CleanPage) == [];
      assert Kept(pages) == [];
    }
  }

  // ---------------------------------------------------------------------------------------------
  // Re-classification

  /** The 18 watch terms of the re-classifier (the classifier's 13 names and five abuse terms). */
  const WatchTerms: seq<String> := [
    "epstein", "maxwell", "ghislaine", "prince andrew", "giuffre", "roberts",
    "dershowitz", "clinton", "trump", "black", "wexner", "brunel", "dubin",
    "victim", "minor", "underage", "abuse", "trafficking"
  ]
  const InvestigativeWords: seq<String> :=
    ["investigation", "arrest", "surveillance", "interview", "witness", "statement", "allegation"]
  const LegalSubstance: seq<String> :=
    ["plea agreement", "indictment", "non-prosecution", "immunity", "cooperat", "sentenc"]

  /** `[.!?]\s+[A-Z]` at `i`: a shorter `\s+` cannot be followed by a capital, so only the longest run is tried. */
  predicate SentenceAt(s: String, i: nat)
    requires i < |s|
  {
    (s[i] == '.' || s[i] == '!' || s[i] == '?')
    && var w := RunOf(s, i + 1, IsSpace);
    w > 0 && i + 1 + w < |s| && IsUpper(s[i + 1 + w])
  }

  /**
   * `len(re.findall(r'\b[QA]\.\s', s))`. A match is `Q. ` or `A. ` and the next one cannot start
   * on its dot or its space, so the matches are the positions where the pattern holds.
   */
  function DialogueCount(s: String): (n: nat)
    ensures n <= |s|
    ensures n == 0 <==> forall i :: 0 <= i < |s| ==> !(WordStart(s, i) && (DialogueAt(s, i, 'Q') || DialogueAt(s, i, 'A')))
  {
    var at := (i: nat) => i < |s| && WordStart(s, i) && (DialogueAt(s, i, 'Q') || DialogueAt(s, i, 'A'));
    assert forall i :: 0 <= i < |s| ==> (at(i) <==> WordStart(s, i) && (DialogueAt(s, i, 'Q') || DialogueAt(s, i, 'A')));
    Count(|s|, at)
  }

  /**
   * `len(re.findall(r'[.!?]\s+[A-Z]', s))`. A match holds no `.`, `!` or `?` after its first
   * character, so matches never overlap and are counted by position.
   */
  function SentenceCount(s: String): (n: nat)
    ensures n <= |s|
    ensures n == 0 <==> forall i :: 0 <= i < |s| ==> !SentenceAt(s, i)
  {
    var at := (i: nat) => i < |s| && SentenceAt(s, i);
    assert forall i :: 0 <= i < |s| ==> (at(i) <==> SentenceAt(s, i));
    Count(|s|, at)
  }

  /** `sum(1 for l in lines if len(l.strip()) < 20)` */
  function ShortLines(lines: seq<String>): (n: nat)
    ensures n <= |lines|
  {
    Count(|lines|, (k: nat) => k < |lines| && |Strip(lines[k])| < 20)
  }

  /** More than ten lines, over 70% of them short. */
  predicate Tabular(s: String) {
    var lines := Split(s, "\n");
    |lines| > 10 && ShortLines(lines) * 10 > 7 * |lines|
  }

  /** What the re-classifier's rules read from the condensed text. */
  datatype Markers = Markers(
    nameHits: nat, dialogue: nat, sentences: nat, investigative: bool, legal: bool,
    emailHeader: bool, tabular: bool, length: nat)

  function ReadMarkers(condensed: String): Markers {
    var lower := Lower(condensed);
    Markers(
      NameHits(lower, WatchTerms), DialogueCount(condensed), SentenceCount(condensed),
      SearchAny(lower, InvestigativeWords), SearchAny(lower, LegalSubstance),
      SearchLineStart(condensed, ["From:", "Subject:"]), Tabular(condensed), |condensed|)
  }

  /** The e-mail rule: a header line and either some prose or some length. */
  predicate EmailRule(m: Markers) {
    m.emailHeader && (m.sentences > 2 || m.length > 300)
  }

  /**
   * The rules of `reclassify` in the source's order, rebinding the type and the score. The type is
   * decided by priority: e-mail, then deposition, then law enforcement over any prior type other
   * than deposition and e-mail, then the prior type.
   */
  function Rescore(m: Markers, prior: String): (r: Classification)
    ensures 0 <= r.score <= 100
    ensures r.docType ==
      if EmailRule(m) then "email"
      else if m.dialogue > 5 then "deposition"
      else if m.investigative && prior != "deposition" && prior != "email" then "law_enforcement"
      else prior
    ensures var base := 8 * m.nameHits + (if m.dialogue > 5 then 30 else 0)
        + (if m.sentences > 5 then 20 else if m.sentences > 2 then 10 else 0)
        + (if m.investigative then 20 else 0) + (if m.legal then 25 else 0)
        + (if EmailRule(m) then 15 else 0);
      var bonus := (if m.length > 2000 then 10 else 0) + (if m.length > 5000 then 10 else 0);
      r.score == Min((if m.tabular then Max(base - 20, 0) else base) + bonus, 100)
  {
    var score1 := m.nameHits * 8;
    var type2 := if m.dialogue > 5 then "deposition" else prior;
    var score2 := if m.dialogue > 5 then score1 + 30 else score1;
    var score3 := score2 + (if m.sentences > 5 then 20 else if m.sentences > 2 then 10 else 0);
    var type4 := if m.investigative && type2 != "deposition" && type2 != "email" then "law_enforcement" else type2;
    var score4 := if m.investigative then score3 + 20 else score3;
    var score5 := if m.legal then score4 + 25 else score4;
    var type6 := if m.emailHeader && (m.sentences > 2 || m.length > 300) then "email" else type4;
    var score6 := if m.emailHeader && (m.sentences > 2 || m.length > 300) then score5 + 15 else score5;
    var score7 := if m.tabular then Max(score6 - 20, 0) else score6;
    var score8 := score7 + (if m.length > 2000 then 10 else 0);
    var score9 := score8 + (if m.length > 5000 then 10 else 0);
    Classification(type6, Min(score9, 100))
  }

  /**
   * `reclassify(text, condensed, doc_type, page_count)`. `text` and `page_count` are unused. A
   * condensed text under 30 characters after stripping (the empty one included) is
   * ("empty", 0); any other is re-scored from its markers.
   */
  function Reclassify(text: String, condensed: String, docType: String, pageCount: int): (r: Classification)
    ensures 0 <= r.score <= 100
    ensures |Strip(condensed)| < 30 ==> r == Classification("empty", 0)
    ensures |Strip(condensed)| >= 30 ==> r == Rescore(ReadMarkers(condensed), docType)
  {
    if condensed == [] || |Strip(condensed)| < 30 then Classification("empty", 0)
    else Rescore(ReadMarkers(condensed), docType)
  }

  /** Re-classification keeps a document's type among the classifier's types. */
  lemma ReclassifyKeepsVocabulary(text: String, condensed: String, docType: String, pageCount: int)
    requires docType in DocTypes
    ensures Reclassify(text, condensed, docType, pageCount).docType in DocTypes
  {
  }

  /** The demotion of tabular text never takes more than 20 points, and never goes below zero. */
  lemma TabularDemotionBounded(m: Markers, prior: String)
    requires m.tabular
    ensures var plain := Rescore(m.(tabular := false), prior).score;
      var demoted := Rescore(m, prior).score;
      demoted <= plain && plain - 20 <= demoted
  {
  }

  /** An investigative marker never lowers the score. */
  lemma InvestigativeRaisesScore(m: Markers, prior: String)
    ensures Rescore(m, prior).score <= Rescore(m.(investigative := true), prior).score
  {
  }

  /** A further watch term never lowers the score. */
  lemma WatchTermRaisesScore(m: Markers, prior: String)
    ensures Rescore(m, prior).score <= Rescore(m.(nameHits := m.nameHits + 1), prior).score
  {
  }
}
