/**
 * The page cleaner: drops blank lines, line numbers, Bates stamps, page headers and scan
 * artifacts, rejoins lines broken mid-sentence, then rebuilds each document's full text from its
 * cleaned pages.
 */
module Cleaner {
  import opened Text
  import opened Seqs
  import opened Store

  predicate AllDigits(s: String) {
    forall k :: 0 <= k < |s| ==> IsDigit(s[k])
  }

  /** `^\d{1,3}$`: a standalone line number. */
  predicate LineNumber(s: String) {
    1 <= |s| <= 3 && AllDigits(s)
  }

  /** `^EFTA\d+$`: a Bates stamp. */
  predicate BatesStamp(s: String) {
    |s| > 4 && s[..4] == "EFTA" && AllDigits(s[4..])
  }

  /** `^Page \d+ of \d+`: a page header (anything may follow). */
  predicate PageHeader(s: String) {
    IsAt(s, 0, "Page ")
    && var a := RunOf(s, 5, IsDigit);
    a > 0 && IsAt(s, 5 + a, " of ") && RunOf(s, 9 + a, IsDigit) > 0
  }

  /** `'WAS NOT SCANNED' in s.upper()` */
  predicate ScanArtifact(s: String) {
    Contains(Upper(s), "WAS NOT SCANNED")
  }

  /** A stripped line survives when it is not empty and none of the drop rules matches it. */
  predicate KeepLine(s: String) {
    s != [] && !LineNumber(s) && !BatesStamp(s) && !PageHeader(s) && !ScanArtifact(s)
  }

  /** The stripped lines that survive, in their original order. */
  function KeptLines(lines: seq<String>): (r: seq<String>)
    ensures |r| <= |lines|
  {
    Filter(Map(lines, Strip), KeepLine)
  }

  /** `(?<=[a-z,])\n(?=[a-z])` matches at `i` (both look-arounds see the text before any replacement). */
  predicate Joinable(s: String, i: int) {
    0 < i < |s| - 1 && s[i] == '\n' && (IsLower(s[i - 1]) || s[i - 1] == ',') && IsLower(s[i + 1])
  }

  /** `re.sub(r'(?<=[a-z,])\n(?=[a-z])', ' ', s)`: a match is one character, replaced by one. */
  function Rejoin(s: String): (r: String)
    ensures |r| == |s|
  {
    seq(|s|, i requires 0 <= i < |s| => if Joinable(s, i) then ' ' else s[i])
  }

  /**
   * Rejoining turns exactly the joinable newlines into spaces: every other newline remains and
   * no other character changes.
   */
  lemma RejoinChanges(s: String)
    ensures forall i :: 0 <= i < |s| && s[i] != '\n' ==> Rejoin(s)[i] == s[i]
    ensures forall i :: 0 <= i < |s| ==> (Rejoin(s)[i] == '\n' <==> s[i] == '\n' && !Joinable(s, i))
    ensures forall i :: 0 <= i < |s| && Rejoin(s)[i] != s[i] ==> s[i] == '\n' && Rejoin(s)[i] == ' '
  {
  }

  /**
   * `clean_text(text)`: a text under 10 characters after stripping (the empty one included) is
   * returned as it is; otherwise the kept lines are joined by newlines, runs of three or more
   * newlines are collapsed, broken lines are rejoined and the result is stripped.
   */
  function Cleaned(text: String): String {
    if |Strip(text)| < 10 then text
    else Tidied(Join(KeptLines(Split(text, "\n")), "\n"))
  }

  /** The last steps of `clean_text` on the joined lines: collapse, rejoin, strip. */
  function Tidied(joined: String): String {
    Strip(Rejoin(CollapseNewlines(joined)))
  }

  lemma KeptLinesStep(lines: seq<String>, k: nat)
    requires k < |lines|
    ensures KeptLines(lines[..k + 1]) ==
      KeptLines(lines[..k]) + (if KeepLine(Strip(lines[k])) then [Strip(lines[k])] else [])
  {
    assert lines[..k + 1] == lines[..k] + [lines[k]];
    var init := Map(lines[..k], Strip);
    var last := Map([lines[k]], Strip);
    MapConcat(lines[..k], [lines[k]], Strip);
    assert Map(lines[..k + 1], Strip) == init + last;
    assert last == [Strip(lines[k])];
    FilterConcat(init, last, KeepLine);
    assert Filter(last, KeepLine) == if KeepLine(Strip(lines[k])) then [Strip(lines[k])] else [] by {
      assert last[1..] == [];
    }
  }

  /** `clean_text(text)`, with its line loop. */
  method CleanText(text: String) returns (r: String)
    ensures r == Cleaned(text)
  {
    if text == [] || |Strip(text)| < 10 {
      return text;
    }
    var lines := Split(text, "\n");
    var cleaned: seq<String> := [];
    for k := 0 to |lines|
      invariant cleaned == KeptLines(lines[..k])
    {
      var s := Strip(lines[k]);
      if KeepLine(s) {
        cleaned := cleaned + [s];
      }
      KeptLinesStep(lines, k);
    }
    assert lines[..|lines|] == lines;
    var joined := Join(cleaned, "\n");
    joined := CollapseNewlines(joined);
    joined := Rejoin(joined);
    r := Strip(joined);
  }

  /** A line is kept exactly when it is the stripped form of an input line that no rule drops. */
  lemma KeptLinesMembers(lines: seq<String>, s: String)
    ensures s in KeptLines(lines) <==> KeepLine(s) && exists line :: line in lines && s == Strip(line)
  {
    FilterMembers(Map(lines, Strip), KeepLine);
    if s in Map(lines, Strip) {
      MapMembers(lines, Strip, s);
    }
    if exists line :: line in lines && s == Strip(line) {
      var line :| line in lines && s == Strip(line);
      MapContains(lines, Strip, line);
    }
  }

  /** No blank line: no two newlines in a row. */
  predicate NoBlankLine(s: String) {
    forall i :: 0 <= i < |s| - 1 ==> !(s[i] == '\n' && s[i + 1] == '\n')
  }

  lemma NoBlankLineIff(s: String)
    ensures NoBlankLine(s) <==> !Contains(s, "\n\n")
  {
    if !NoBlankLine(s) {
      var i :| 0 <= i < |s| - 1 && s[i] == '\n' && s[i + 1] == '\n';
      assert s[i..i + 2] == "\n\n";
      assert IsAt(s, i, "\n\n");
    }
    if Contains(s, "\n\n") {
      var i :| 0 <= i <= |s| && IsAt(s, i, "\n\n");
      assert s[i..i + 2][0] == s[i] && s[i..i + 2][1] == s[i + 1];
    }
  }

  /** Lines without whitespace at their ends, joined by newlines, leave no blank line. */
  lemma {:induction false} JoinLinesNoBlank(lines: seq<String>)
    requires forall s :: s in lines ==> s != [] && !IsSpace(s[0]) && !IsSpace(s[|s| - 1]) && '\n' !in s
    ensures var r := Join(lines, "\n");
      NoBlankLine(r) && (r == [] || (!IsSpace(r[0]) && !IsSpace(r[|r| - 1])))
    decreases |lines|
  {
    if |lines| == 1 {
      assert lines[0] in lines;
      assert Join(lines, "\n") == lines[0];
    } else if |lines| > 1 {
      var head := lines[0];
      assert head in lines;
      var tail := Join(lines[1..], "\n");
      JoinLinesNoBlank(lines[1..]);
      assert lines[1] in lines;
      assert tail != [] && tail[0] == lines[1][0] by {
        if |lines[1..]| == 1 {
          assert tail == lines[1];
        } else {
          assert tail == lines[1..][0] + "\n" + Join(lines[1..][1..], "\n");
        }
      }
      var r := head + "\n" + tail;
      assert Join(lines, "\n") == r;
      forall i | 0 <= i < |r| - 1 ensures !(r[i] == '\n' && r[i + 1] == '\n') {
        if i < |head| - 1 {
          assert r[i] == head[i];
          assert head[i] in head;
        } else if i == |head| - 1 {
          assert r[i] == head[|head| - 1];
        } else if i == |head| {
          assert r[i + 1] == tail[0];
        } else {
          assert r[i] == tail[i - |head| - 1] && r[i + 1] == tail[i - |head|];
        }
      }
    }
  }

  /** Without a blank line there is no run of three newlines to collapse. */
  lemma {:induction false} CollapseNoBlankLine(s: String)
    requires NoBlankLine(s)
    ensures CollapseNewlines(s) == s
    decreases |s|
  {
    if s != [] {
      assert NoBlankLine(s[1..]) by {
        forall i | 0 <= i < |s[1..]| - 1 ensures !(s[1..][i] == '\n' && s[1..][i + 1] == '\n') {
          assert s[1..][i] == s[i + 1] && s[1..][i + 1] == s[i + 2];
        }
      }
      CollapseNoBlankLine(s[1..]);
      if s[0] == '\n' {
        assert NewlineRun(s) == 1 by {
          if |s| > 1 {
            assert s[1] != '\n';
          }
        }
        assert s[..1] == [s[0]];
      }
      assert s == [s[0]] + s[1..];
    }
  }

  /** Stripping a text without a blank line leaves none. */
  lemma StripNoBlankLine(s: String)
    requires NoBlankLine(s)
    ensures NoBlankLine(Strip(s))
  {
    var a := StripSlice(s);
    var r := Strip(s);
    forall i | 0 <= i < |r| - 1 ensures !(r[i] == '\n' && r[i + 1] == '\n') {
      assert r[i] == s[a + i] && r[i + 1] == s[a + i + 1];
    }
  }

  /** Every kept line is non-empty, has no whitespace at either end and no newline. */
  lemma KeptLinesShape(text: String)
    ensures forall s :: s in KeptLines(Split(text, "\n")) ==>
      s != [] && !IsSpace(s[0]) && !IsSpace(s[|s| - 1]) && '\n' !in s
  {
    var lines := Split(text, "\n");
    SplitPiecesFree(text, "\n");
    forall s | s in KeptLines(lines) ensures s != [] && !IsSpace(s[0]) && !IsSpace(s[|s| - 1]) && '\n' !in s {
      KeptLinesMembers(lines, s);
      var line :| line in lines && s == Strip(line);
      if '\n' in s {
        StripChars(line);
        ContainsChar(line, '\n');
      }
    }
  }

  /** Collapsing, rejoining and stripping text without a blank line leaves none. */
  lemma TidiedNoBlankLine(joined: String)
    requires NoBlankLine(joined)
    ensures CollapseNewlines(joined) == joined
    ensures NoBlankLine(Tidied(joined))
  {
    CollapseNoBlankLine(joined);
    var rejoined := Rejoin(joined);
    RejoinChanges(joined);
    assert NoBlankLine(rejoined) by {
      forall i | 0 <= i < |rejoined| - 1 ensures !(rejoined[i] == '\n' && rejoined[i + 1] == '\n') {
        if rejoined[i] == '\n' {
          assert joined[i] == '\n';
        }
      }
    }
    StripNoBlankLine(rejoined);
  }

  /** The kept lines of a text, joined by newlines, have no blank line. */
  lemma JoinedKeptNoBlankLine(text: String)
    ensures NoBlankLine(Join(KeptLines(Split(text, "\n")), "\n"))
  {
    KeptLinesShape(text);
    JoinLinesNoBlank(KeptLines(Split(text, "\n")));
  }

  /**
   * The cleaned text of a page that is not returned as it was has no blank line and no
   * whitespace at either end, so the `\n{3,}` collapse never changes anything.
   */
  lemma CleanedTidy(text: String)
    requires |Strip(text)| >= 10
    ensures var r := Cleaned(text);
      NoBlankLine(r) && !Contains(r, "\n\n") && (r == [] || (!IsSpace(r[0]) && !IsSpace(r[|r| - 1])))
    ensures var joined := Join(KeptLines(Split(text, "\n")), "\n");
      CollapseNewlines(joined) == joined
  {
    var joined := Join(KeptLines(Split(text, "\n")), "\n");
    JoinedKeptNoBlankLine(text);
    TidiedNoBlankLine(joined);
    assert Cleaned(text) == Tidied(joined);
    NoBlankLineIff(Tidied(joined));
  }

  /** A single line is kept, stripped, exactly when no rule drops it. */
  lemma KeptLinesSingle(a: String)
    ensures KeptLines([a]) == if KeepLine(Strip(a)) then [Strip(a)] else []
  {
    var lines := [a];
    KeptLinesStep(lines, 0);
    assert lines[..0] == [] && lines[..1] == lines;
  }

  /** The lines kept from two lines are those kept from each. */
  lemma KeptLinesPair(a: String, b: String)
    ensures KeptLines([a, b]) == KeptLines([a]) + KeptLines([b])
  {
    MapConcat([a], [b], Strip);
    assert [a] + [b] == [a, b];
    FilterConcat(Map([a], Strip), Map([b], Strip), KeepLine);
  }

  /** Two stripped lines that no rule drops are both kept. */
  lemma KeptLinesBoth(a: String, b: String)
    requires Strip(a) == a && Strip(b) == b && KeepLine(a) && KeepLine(b)
    ensures KeptLines([a, b]) == [a, b]
  {
    KeptLinesPair(a, b);
    KeptLinesSingle(a);
    KeptLinesSingle(b);
  }

  /**
   * A line of four or more characters that starts with neither `P` nor `E` and does not contain the
   * scan-artifact phrase is kept; under 15 characters the phrase cannot occur.
   */
  lemma ShortLineKept(s: String)
    requires 3 < |s| && s[0] != 'P' && s[0] != 'E' && (|s| < 15 || !ScanArtifact(s))
    ensures KeepLine(s)
  {
    assert s[..4][0] == s[0];
  }

  /**
   * Two stripped single lines that no rule drops, the first ending in a lower-case letter or a
   * comma and the second starting with a lower-case letter.
   */
  predicate BrokenSentence(a: String, b: String) {
    && '\n' !in a && '\n' !in b && Strip(a) == a && Strip(b) == b && KeepLine(a) && KeepLine(b)
    && (IsLower(a[|a| - 1]) || a[|a| - 1] == ',') && IsLower(b[0])
  }

  /**
   * A sentence broken across two lines after a lower-case letter or a comma, where neither line
   * is dropped, comes back as one line with a space in place of the break.
   */
  lemma CleanedRejoinsLines(a: String, b: String)
    requires BrokenSentence(a, b) && |a| + |b| >= 9
    ensures Cleaned(a + "\n" + b) == a + " " + b
  {
    BrokenLinesKept(a, b);
    TidiedBroken(a, b);
    BrokenTrimmed(a, b);
  }

  lemma BrokenTrimmed(a: String, b: String)
    requires BrokenSentence(a, b)
    ensures Strip(a + "\n" + b) == a + "\n" + b
  {
    StripTrimmed(a + "\n" + b);
  }

  /** The two lines around a single break are split apart and both kept. */
  lemma BrokenLinesKept(a: String, b: String)
    requires BrokenSentence(a, b)
    ensures Join(KeptLines(Split(a + "\n" + b, "\n")), "\n") == a + "\n" + b
  {
    var text := a + "\n" + b;
    assert text[..|a|] == a && text[|a| + 1..] == b;
    SplitOnce(text, '\n', |a|);
    KeptLinesBoth(a, b);
    assert [a, b][1..] == [b];
  }

  /** Two non-empty lines joined by one newline have no blank line between them. */
  lemma BrokenNoBlankLine(a: String, b: String)
    requires '\n' !in a && '\n' !in b && a != [] && b != []
    ensures NoBlankLine(a + "\n" + b)
  {
    var text := a + "\n" + b;
    var n := |a|;
    forall i | 0 <= i < |text| - 1 ensures !(text[i] == '\n' && text[i + 1] == '\n') {
      if i < n {
        assert text[i] == a[i];
      } else if i > n {
        assert text[i] == b[i - n - 1];
      } else {
        assert text[i + 1] == b[0];
      }
    }
  }

  /** The break between a lower-case letter or comma and a lower-case letter becomes a space. */
  lemma RejoinBroken(a: String, b: String)
    requires '\n' !in a && '\n' !in b && a != [] && b != []
    requires IsLower(a[|a| - 1]) || a[|a| - 1] == ','
    requires IsLower(b[0])
    ensures Rejoin(a + "\n" + b) == a + " " + b
  {
    var text := a + "\n" + b;
    var once := a + " " + b;
    var n := |a|;
    assert Joinable(text, n);
    forall i | 0 <= i < |text| ensures Rejoin(text)[i] == once[i] {
      if i < n {
        assert text[i] == a[i];
      } else if i > n {
        assert text[i] == b[i - n - 1];
      }
    }
  }

  lemma TidiedBroken(a: String, b: String)
    requires BrokenSentence(a, b)
    ensures Tidied(a + "\n" + b) == a + " " + b
  {
    BrokenNoBlankLine(a, b);
    CollapseNoBlankLine(a + "\n" + b);
    RejoinBroken(a, b);
    StripTrimmed(a + " " + b);
  }

  /** A one-line text of ten or more characters that a rule drops cleans to nothing. */
  lemma CleanedSingleDropped(s: String)
    requires '\n' !in s && |Strip(s)| >= 10 && !KeepLine(Strip(s))
    ensures Cleaned(s) == ""
  {
    SplitAbsent(s, '\n');
    KeptLinesSingle(s);
    var empty: String := [];
    assert Join([], "\n") == empty;
    assert CollapseNewlines(empty) == empty;
    assert Rejoin(empty) == empty;
    assert Strip(empty) == empty;
  }

  /** The two halves of a notice that a scanner broke across lines. */
  const BrokenHead: String := "item was"
  const BrokenTail: String := "not scanned"

  lemma ExampleBroken()
    ensures BrokenSentence(BrokenHead, BrokenTail) && |BrokenHead| + |BrokenTail| >= 9
  {
    ShortLineKept(BrokenHead);
    ShortLineKept(BrokenTail);
    StripTrimmed(BrokenHead);
    StripTrimmed(BrokenTail);
  }

  lemma ExampleUpper()
    ensures Upper(BrokenHead + " " + BrokenTail) == "ITEM WAS NOT SCANNED"
  {
    assert BrokenHead + " " + BrokenTail == "item was not scanned";
  }

  /** Rejoined, the two halves read as a scan artifact. */
  lemma ExampleNotice()
    ensures !KeepLine(BrokenHead + " " + BrokenTail)
  {
    ExampleUpper();
    assert IsAt("ITEM WAS NOT SCANNED", 5, "WAS NOT SCANNED");
  }

  /**
   * A broken sentence whose rejoined line a rule drops is cleaned differently the second time:
   * the first pass rejoins it, the second removes it.
   */
  lemma CleanedTwiceDiffers(a: String, b: String)
    requires BrokenSentence(a, b) && |a| + |b| >= 9 && !KeepLine(a + " " + b)
    ensures Cleaned(a + "\n" + b) == a + " " + b
    ensures Cleaned(Cleaned(a + "\n" + b)) == ""
  {
    CleanedRejoinsLines(a, b);
    var once := a + " " + b;
    assert '\n' !in once;
    StripTrimmed(once);
    assert !KeepLine(Strip(once)) && |Strip(once)| >= 10;
    CleanedSingleDropped(once);
  }

  /**
   * Cleaning is not idempotent: the lines `item was` and `not scanned` each survive and are
   * rejoined into one line that a second pass drops as a scan artifact.
   */
  lemma CleanedNotIdempotent()
    ensures exists text :: Cleaned(Cleaned(text)) != Cleaned(text)
  {
    ExampleBroken();
    ExampleNotice();
    BrokenSentenceNotIdempotent(BrokenHead, BrokenTail);
  }

  /** Any broken sentence whose rejoined line a rule drops shows that cleaning is not idempotent. */
  lemma BrokenSentenceNotIdempotent(a: String, b: String)
    requires BrokenSentence(a, b) && |a| + |b| >= 9 && !KeepLine(a + " " + b)
    ensures exists text :: Cleaned(Cleaned(text)) != Cleaned(text)
  {
    CleanedTwiceDiffers(a, b);
    var text := a + "\n" + b;
    assert Cleaned(Cleaned(text)) != Cleaned(text);
  }

  // ---------------------------------------------------------------------------------------------
  // The cleaner's pass over the tables

  /** A page row with its text cleaned. */
  function CleanRow(p: Page): Page {
    p.(text := Cleaned(p.text))
  }

  /** Every page row with its text cleaned. */
  function CleanedPages(pages: seq<Page>): (r: seq<Page>)
    ensures |r| == |pages|
  {
    Map(pages, CleanRow)
  }

  /** Cleaning only rewrites texts: ids, owners and page numbers stay, row for row. */
  lemma CleanedPagesLayout(pages: seq<Page>)
    ensures SameLayout(pages, CleanedPages(pages))
    ensures forall k :: 0 <= k < |pages| ==> CleanedPages(pages)[k].text == Cleaned(pages[k].text)
  {
  }

  lemma CleanedPagesStep(pages: seq<Page>, k: nat)
    requires k < |pages|
    ensures CleanedPages(pages[..k + 1]) == CleanedPages(pages[..k]) + [CleanRow(pages[k])]
  {
    PrefixSnoc(pages, k);
    MapConcat(pages[..k], [pages[k]], CleanRow);
  }

  /** How many rows differ between two versions of the page table. */
  function Differing(before: seq<Page>, after: seq<Page>): (n: nat)
    requires |after| == |before|
    ensures n <= |before|
  {
    if before == [] then 0
    else
      var k := |before| - 1;
      Differing(before[..k], after[..k]) + (if after[k] != before[k] then 1 else 0)
  }

  /** No row is counted exactly when the two versions are the same. */
  lemma {:induction false} DifferingZero(before: seq<Page>, after: seq<Page>)
    requires |after| == |before|
    ensures Differing(before, after) == 0 <==> after == before
    decreases |before|
  {
    if before != [] {
      var k := |before| - 1;
      DifferingZero(before[..k], after[..k]);
      assert before == before[..k] + [before[k]];
      assert after == after[..k] + [after[k]];
    }
  }

  lemma DifferingSnoc(before: seq<Page>, after: seq<Page>, x: Page, y: Page)
    requires |after| == |before|
    ensures Differing(before + [x], after + [y]) == Differing(before, after) + (if y != x then 1 else 0)
  {
    assert (before + [x])[..|before|] == before;
    assert (after + [y])[..|after|] == after;
  }

  /** How many rows cleaning changes. */
  function ChangedCount(pages: seq<Page>): (n: nat)
    ensures n <= |pages|
  {
    Differing(pages, CleanedPages(pages))
  }

  lemma CleanedPagesConsistent(documents: seq<Document>, pages: seq<Page>)
    requires Consistent(documents, pages)
    ensures Consistent(documents, CleanedPages(pages))
  {
    CleanedPagesLayout(pages);
    SameLayoutConsistent(documents, pages, CleanedPages(pages));
  }

  /** One page row of the cleaner's loop: its text goes through `clean_text`. */
  method CleanPage(row: Page) returns (r: Page)
    ensures r == CleanRow(row)
  {
    var cleaned := CleanText(row.text);
    r := row.(text := cleaned);
  }

  /** One more row of the cleaner's loop: one more cleaned row, counted when it changed. */
  lemma CleanRowsStep(rows: seq<Page>, k: nat, result: seq<Page>)
    requires k < |rows| && result == CleanedPages(rows[..k])
    ensures CleanedPages(rows[..k + 1]) == result + [CleanRow(rows[k])]
    ensures Differing(rows[..k + 1], result + [CleanRow(rows[k])]) ==
      Differing(rows[..k], result) + (if CleanRow(rows[k]) != rows[k] then 1 else 0)
  {
    CleanedPagesStep(rows, k);
    DifferingSnoc(rows[..k], result, rows[k], CleanRow(rows[k]));
    PrefixSnoc(rows, k);
  }

  /**
   * The first loop of the cleaner's `main` over the page rows: each row's text is cleaned, and the
   * rows whose cleaned text differs from the stored one are counted.
   */
  method CleanRows(rows: seq<Page>) returns (result: seq<Page>, updated: nat)
    ensures result == CleanedPages(rows)
    ensures updated == ChangedCount(rows)
  {
    result := [];
    updated := 0;
    for k := 0 to |rows|
      invariant result == CleanedPages(rows[..k])
      invariant updated == Differing(rows[..k], result)
    {
      var newRow := CleanPage(rows[k]);
      CleanRowsStep(rows, k, result);
      if newRow != rows[k] {
        updated := updated + 1;
      }
      result := result + [newRow];
    }
    assert rows[..|rows|] == rows;
  }

  /**
   * The cleaner's page pass on the tables: each page whose cleaned text differs is rewritten and
   * the rewrites are counted. The documents are not touched and the tables stay consistent.
   */
  method CleanPages(db: Database) returns (updated: nat)
    requires db.Valid()
    modifies db
    ensures db.pages == CleanedPages(old(db.pages))
    ensures db.documents == old(db.documents)
    ensures updated == ChangedCount(old(db.pages))
    ensures db.Valid()
  {
    var rows := db.pages;
    var result;
    result, updated := CleanRows(rows);
    db.pages := result;
    CleanedPagesConsistent(db.documents, rows);
  }

  /** SQL `ORDER BY page_num`. */
  predicate ByPageNum(a: Page, b: Page) {
    a.pageNum <= b.pageNum
  }

  function Texts(ps: seq<Page>): (r: seq<String>)
    ensures |r| == |ps|
    ensures forall j :: 0 <= j < |ps| ==> r[j] == ps[j].text
  {
    Map(ps, (p: Page) => p.text)
  }

  /** `"\n\n".join(text for the document's pages ORDER BY page_num)` */
  function JoinedPages(pages: seq<Page>, docId: nat): String {
    Join(Texts(SortBy(PagesOf(pages, docId), ByPageNum)), "\n\n")
  }

  /**
   * In consistent tables a document's pages are already in page order, so its recomputed full
   * text is its page texts in table order, page 1 first, joined by a blank line.
   */
  lemma JoinedPagesInOrder(documents: seq<Document>, pages: seq<Page>, i: nat)
    requires Consistent(documents, pages) && i < |documents|
    ensures JoinedPages(pages, i + 1) == Join(Texts(PagesOf(pages, i + 1)), "\n\n")
    ensures Numbered(PagesOf(pages, i + 1), documents[i].pageCount)
  {
    var ps := PagesOf(pages, i + 1);
    assert Numbered(ps, documents[i].pageCount);
    assert SortedBy(ps, ByPageNum);
    SortByIdentity(ps, ByPageNum);
  }

  /** Every document with its full text recomputed from its pages. */
  function RecomputedDocuments(documents: seq<Document>, pages: seq<Page>): (r: seq<Document>)
    ensures SameDocuments(documents, r)
    ensures forall i :: 0 <= i < |documents| ==> r[i].fullText == JoinedPages(pages, documents[i].id)
  {
    seq(|documents|, i requires 0 <= i < |documents| =>
      documents[i].(fullText := JoinedPages(pages, documents[i].id)))
  }

  /** The second loop of the cleaner's `main`: each document's full text is rebuilt from its pages. */
  method RecomputeFullText(db: Database)
    requires db.Valid()
    modifies db
    ensures db.documents == RecomputedDocuments(old(db.documents), old(db.pages))
    ensures db.pages == old(db.pages)
    ensures db.Valid()
  {
    ghost var docs0 := db.documents;
    for i := 0 to |db.documents|
      invariant |db.documents| == |docs0| && db.pages == old(db.pages)
      invariant forall j :: 0 <= j < i ==> db.documents[j] == RecomputedDocuments(docs0, db.pages)[j]
      invariant forall j :: i <= j < |docs0| ==> db.documents[j] == docs0[j]
    {
      var doc := db.documents[i];
      var full := JoinedPages(db.pages, doc.id);
      db.documents := db.documents[i := doc.(fullText := full)];
    }
    assert db.documents == RecomputedDocuments(docs0, db.pages);
    SameDocumentsConsistent(docs0, db.documents, db.pages);
  }

  /** A row of the rebuilt search index: page id, filename, page number, text. */
  datatype IndexRow = IndexRow(rowid: nat, filename: String, pageNum: nat, text: String)

  /** The index rebuild: one row per page that joins to its document. */
  function IndexRows(documents: seq<Document>, pages: seq<Page>): (r: seq<IndexRow>)
    ensures |r| <= |pages|
  {
    Map(Filter(pages, (p: Page) => 1 <= p.docId <= |documents|),
      (p: Page) => IndexRow(p.id, FilenameOf(documents, p.docId), p.pageNum, p.text))
  }

  /** In consistent tables every page joins to its document: the index has one row per page, in page-table order. */
  lemma IndexOneRowPerPage(documents: seq<Document>, pages: seq<Page>)
    requires Consistent(documents, pages)
    ensures |IndexRows(documents, pages)| == |pages|
    ensures forall k :: 0 <= k < |pages| ==>
      IndexRows(documents, pages)[k] ==
        IndexRow(pages[k].id, documents[pages[k].docId - 1].filename, pages[k].pageNum, pages[k].text)
  {
    FilterAll(pages, (p: Page) => 1 <= p.docId <= |documents|);
  }
}
