/**
 * The web application's read side over the two tables: the filtered document listing, the
 * two-tier page search (the full-text index first, a `LIKE` scan as the fallback) and the lookup
 * in the list of Dataset 9 file ids.
 */
module Search {
  import opened Text
  import opened Seqs
  import opened Store

  // ---------------------------------------------------------------------------------------------
  // The full-text query

  /** A query term: one or more word characters followed by the prefix marker `*`. */
  predicate IsTerm(s: String) {
    |s| >= 2 && s[|s| - 1] == '*' && forall j | 0 <= j < |s| - 1 :: IsWordChar(s[j])
  }

  lemma FilterWordChars(t: String)
    ensures var r := Filter(t, IsWordChar);
      (r == [] <==> !HasWordChar(t)) && forall j | 0 <= j < |r| :: IsWordChar(r[j])
  {
    FilterMembers(t, IsWordChar);
    var r := Filter(t, IsWordChar);
    assert forall j | 0 <= j < |r| :: r[j] in r;
    if HasWordChar(t) {
      var k :| 0 <= k < |t| && IsWordChar(t[k]);
      assert t[k] in r;
    }
  }

  /** `re.sub(r'[^\w]', '', t)`: the word characters of `t`, in order. */
  function WordCharsOf(t: String): String {
    Filter(t, IsWordChar)
  }

  /** What one token contributes to the query: its word characters and `*`, or nothing. */
  function TermOf(t: String): seq<String> {
    var clean := WordCharsOf(t);
    if clean == [] then [] else [clean + "*"]
  }

  /** The terms built from the tokens in order, as the loop appends them. */
  function FtsParts(tokens: seq<String>): seq<String> {
    if tokens == [] then [] else FtsParts(tokens[..|tokens| - 1]) + TermOf(tokens[|tokens| - 1])
  }

  /** A token yields a term exactly when it has a word character, and that term is well formed. */
  lemma TermOfShape(t: String)
    ensures TermOf(t) == [] <==> !HasWordChar(t)
    ensures forall i | 0 <= i < |TermOf(t)| :: IsTerm(TermOf(t)[i])
  {
    FilterWordChars(t);
  }

  /** Every part is a well-formed term. */
  lemma {:induction false} FtsPartsTerms(tokens: seq<String>)
    ensures forall i | 0 <= i < |FtsParts(tokens)| :: IsTerm(FtsParts(tokens)[i])
    decreases |tokens|
  {
    if tokens != [] {
      var init := tokens[..|tokens| - 1];
      var last := tokens[|tokens| - 1];
      FtsPartsTerms(init);
      TermOfShape(last);
      var a := FtsParts(init);
      var b := TermOf(last);
      assert FtsParts(tokens) == a + b;
      forall i | 0 <= i < |a + b| ensures IsTerm((a + b)[i]) {
        if i < |a| {
          assert (a + b)[i] == a[i];
        } else {
          assert (a + b)[i] == b[i - |a|];
        }
      }
    }
  }

  /** The parts of one more token: those of the tokens before it and its own term. */
  lemma FtsPartsStep(tokens: seq<String>, k: nat)
    requires k < |tokens|
    ensures FtsParts(tokens[..k + 1]) == FtsParts(tokens[..k]) + TermOf(tokens[k])
  {
    assert tokens[..k + 1][..k] == tokens[..k];
  }

  /** No term is built exactly when no token has a word character. */
  lemma {:induction false} FtsPartsEmpty(tokens: seq<String>)
    ensures FtsParts(tokens) == [] <==> !SomeWordChar(tokens)
    decreases |tokens|
  {
    if tokens != [] {
      var k := |tokens| - 1;
      FtsPartsStep(tokens, k);
      assert tokens[..k + 1] == tokens;
      FtsPartsEmpty(tokens[..k]);
      TermOfShape(tokens[k]);
      assert tokens == tokens[..k] + [tokens[k]];
      SomeWordCharSnoc(tokens[..k], tokens[k]);
    }
  }

  /** The full-text query for `q`: its tokens' terms joined with ` AND `. */
  function FtsQuery(q: String): String {
    Join(FtsParts(Words(q)), " AND ")
  }

  /** `_build_fts_query`: one pass over the tokens, appending a term for each one with word characters. */
  method BuildFtsQuery(q: String) returns (r: String)
    ensures r == FtsQuery(q)
  {
    var tokens := Words(q);
    var parts: seq<String> := [];
    for k := 0 to |tokens|
      invariant parts == FtsParts(tokens[..k])
    {
      FtsPartsStep(tokens, k);
      var clean := WordCharsOf(tokens[k]);
      if clean != [] {
        parts := parts + [clean + "*"];
      }
    }
    assert tokens[..|tokens|] == tokens;
    r := Join(parts, " AND ");
  }

  /** A token's term, as a comprehension would write it. */
  function Starred(t: String): String {
    WordCharsOf(t) + "*"
  }

  /** The terms are the starred word characters of exactly the tokens that have any, in order. */
  lemma {:induction false} FtsPartsComprehension(tokens: seq<String>)
    ensures FtsParts(tokens) == Map(Filter(tokens, HasWordChar), Starred)
    decreases |tokens|
  {
    if tokens != [] {
      var init := tokens[..|tokens| - 1];
      var last := tokens[|tokens| - 1];
      FtsPartsComprehension(init);
      assert tokens == init + [last];
      FilterConcat(init, [last], HasWordChar);
      MapConcat(Filter(init, HasWordChar), Filter([last], HasWordChar), Starred);
      assert Filter([last], HasWordChar) == if HasWordChar(last) then [last] else [];
      TermOfShape(last);
      assert Map(Filter([last], HasWordChar), Starred) == TermOf(last);
    }
  }

  /** The query is empty exactly when `q` has no word character, so no token survives the cleaning. */
  lemma FtsQueryEmptyIff(q: String)
    ensures FtsQuery(q) == [] <==> !HasWordChar(q)
  {
    var parts := FtsParts(Words(q));
    WordsWordChar(q);
    FtsPartsEmpty(Words(q));
    FtsPartsTerms(Words(q));
    if parts != [] {
      JoinFirst(parts, " AND ");
    }
  }

  lemma TermChars(s: String, c: char)
    requires IsTerm(s) && c in s
    ensures IsWordChar(c) || c == '*'
  {
    var j :| 0 <= j < |s| && s[j] == c;
  }

  /** The query holds only word characters, spaces and `*`: no quote, parenthesis, colon or other FTS5 operator character gets through. */
  lemma FtsQueryChars(q: String)
    ensures forall c | c in FtsQuery(q) :: IsWordChar(c) || c == '*' || c == ' '
  {
    var parts := FtsParts(Words(q));
    FtsPartsTerms(Words(q));
    forall c | c in FtsQuery(q) ensures IsWordChar(c) || c == '*' || c == ' ' {
      JoinChars(parts, " AND ", c);
      if c !in " AND " {
        var i :| 0 <= i < |parts| && c in parts[i];
        TermChars(parts[i], c);
      }
    }
  }

  // ---------------------------------------------------------------------------------------------
  // SQLite `LIKE`

  /** `t LIKE p` without an ESCAPE clause: `%` matches any run of characters, `_` any one character. */
  predicate Like(t: String, p: String)
    decreases |t| + |p|
  {
    if p == [] then t == []
    else if p[0] == '%' then Like(t, p[1..]) || (t != [] && Like(t[1..], p))
    else t != [] && (p[0] == '_' || p[0] == t[0]) && Like(t[1..], p[1..])
  }

  /** A lone `%` matches every text. */
  lemma {:induction false} LikeAnything(t: String)
    ensures Like(t, "%")
    decreases |t|
  {
    if t != [] {
      LikeAnything(t[1..]);
    }
  }

  /** A leading `%` lets the rest of the pattern match any suffix. */
  lemma {:induction false} LikePercent(t: String, rest: String)
    ensures Like(t, ['%'] + rest) <==> exists i | 0 <= i <= |t| :: Like(t[i..], rest)
    decreases |t|
  {
    var p := ['%'] + rest;
    assert p[1..] == rest;
    assert t[0..] == t;
    if t != [] {
      LikePercent(t[1..], rest);
      if Like(t[1..], p) {
        var i :| 0 <= i <= |t| - 1 && Like(t[1..][i..], rest);
        assert t[1..][i..] == t[i + 1..];
      }
      if exists i | 0 <= i <= |t| :: Like(t[i..], rest) {
        var i :| 0 <= i <= |t| && Like(t[i..], rest);
        if i > 0 {
          assert t[1..][i - 1..] == t[i..];
        }
      }
    }
  }

  /** Text with no `LIKE` wildcard in it. */
  predicate Literal(w: String) {
    forall k | 0 <= k < |w| :: w[k] != '%' && w[k] != '_'
  }

  /** A wildcard-free prefix of the pattern matches only itself. */
  lemma {:induction false} LikeLiteral(t: String, w: String, rest: String)
    requires Literal(w)
    ensures Like(t, w + rest) <==> IsAt(t, 0, w) && Like(t[|w|..], rest)
    decreases |w|
  {
    if w == [] {
      assert w + rest == rest;
      assert t[0..] == t;
    } else {
      var p := w + rest;
      assert p[0] == w[0] && p[1..] == w[1..] + rest;
      if t != [] {
        LikeLiteral(t[1..], w[1..], rest);
        if |w| <= |t| {
          assert t[1..][|w| - 1..] == t[|w|..];
          assert t[..|w|] == [t[0]] + t[1..][..|w| - 1];
        }
      }
    }
  }

  /** The tokens occur in `t` one after another, without overlapping. */
  predicate InOrder(t: String, tokens: seq<String>)
    decreases |tokens|
  {
    tokens == [] ||
    exists i | 0 <= i <= |t| :: IsAt(t, i, tokens[0]) && InOrder(t[i + |tokens[0]|..], tokens[1..])
  }

  /** `"%" + "%".join(tokens) + "%"` */
  function LikePattern(tokens: seq<String>): String {
    "%" + Join(tokens, "%") + "%"
  }

  /** What follows the first token in the pattern: the rest of the pattern, or the closing `%`. */
  function PatternTail(rest: seq<String>): String {
    if rest == [] then "%" else LikePattern(rest)
  }

  lemma PatternShape(tokens: seq<String>)
    requires tokens != []
    ensures LikePattern(tokens) == ['%'] + (tokens[0] + PatternTail(tokens[1..]))
  {
  }

  /** The pattern that follows a token matches exactly the texts holding the remaining tokens in order. */
  lemma TailInOrder(u: String, rest: seq<String>)
    requires forall i | 0 <= i < |rest| :: Literal(rest[i])
    ensures Like(u, PatternTail(rest)) <==> InOrder(u, rest)
    decreases |rest|, 1
  {
    if rest == [] {
      LikeAnything(u);
    } else {
      LikeInOrder(u, rest);
    }
  }

  /** Matching at `i`: the token there and the tail pattern after it. */
  lemma LikeAt(t: String, i: nat, w: String, tail: String)
    requires i <= |t| && Literal(w)
    ensures Like(t[i..], w + tail) <==> IsAt(t, i, w) && Like(t[i + |w|..], tail)
  {
    LikeLiteral(t[i..], w, tail);
    if i + |w| <= |t| {
      assert t[i..][|w|..] == t[i + |w|..];
      assert t[i..][..|w|] == t[i..i + |w|];
    }
  }

  /** `%`, a wildcard-free text and a tail pattern: the text occurs somewhere and the tail matches what follows it. */
  lemma LikeFind(t: String, w: String, tail: String)
    requires Literal(w)
    ensures Like(t, ['%'] + (w + tail)) <==>
      exists i | 0 <= i <= |t| :: IsAt(t, i, w) && Like(t[i + |w|..], tail)
  {
    LikePercent(t, w + tail);
    if Like(t, ['%'] + (w + tail)) {
      var i :| 0 <= i <= |t| && Like(t[i..], w + tail);
      LikeAt(t, i, w, tail);
    }
    if exists i | 0 <= i <= |t| :: IsAt(t, i, w) && Like(t[i + |w|..], tail) {
      var i :| 0 <= i <= |t| && IsAt(t, i, w) && Like(t[i + |w|..], tail);
      LikeAt(t, i, w, tail);
    }
  }

  /** Without tokens the pattern is `%%`, which matches every text. */
  lemma LikeNoTokens(t: String)
    ensures Like(t, LikePattern([]))
  {
    assert LikePattern([]) == ['%'] + "%";
    LikePercent(t, "%");
    LikeAnything(t);
    assert t[0..] == t;
  }

  /** With wildcard-free tokens, the fallback pattern matches exactly the texts holding the tokens in order. */
  lemma {:induction false} LikeInOrder(t: String, tokens: seq<String>)
    requires forall i | 0 <= i < |tokens| :: Literal(tokens[i])
    ensures Like(t, LikePattern(tokens)) <==> InOrder(t, tokens)
    decreases |tokens|, 0
  {
    if tokens == [] {
      LikeNoTokens(t);
    } else {
      var w := tokens[0];
      var rest := tokens[1..];
      var tail := PatternTail(rest);
      PatternShape(tokens);
      LikeFind(t, w, tail);
      if Like(t, LikePattern(tokens)) {
        var i :| 0 <= i <= |t| && IsAt(t, i, w) && Like(t[i + |w|..], tail);
        TailInOrder(t[i + |w|..], rest);
      }
      if InOrder(t, tokens) {
        var i :| 0 <= i <= |t| && IsAt(t, i, w) && InOrder(t[i + |w|..], rest);
        TailInOrder(t[i + |w|..], rest);
      }
    }
  }

  lemma {:induction false} LowerJoin(parts: seq<String>, sep: String)
    ensures Lower(Join(parts, sep)) == Join(Map(parts, Lower), Lower(sep))
    decreases |parts|
  {
    if |parts| > 1 {
      LowerJoin(parts[1..], sep);
      LowerConcat(parts[0] + sep, Join(parts[1..], sep));
      LowerConcat(parts[0], sep);
      assert Map(parts, Lower)[1..] == Map(parts[1..], Lower);
    }
  }

  /** `lower(p.text) LIKE lower(pattern)` for the pattern built from the tokens. */
  predicate PageMatches(text: String, tokens: seq<String>) {
    Like(Lower(text), Lower(LikePattern(tokens)))
  }

  /** A page matches exactly when the lower-cased tokens occur in order in its lower-cased text. */
  lemma PageMatchesInOrder(text: String, tokens: seq<String>)
    requires forall i | 0 <= i < |tokens| :: Literal(tokens[i])
    ensures PageMatches(text, tokens) <==> InOrder(Lower(text), Map(tokens, Lower))
  {
    LowerConcat("%" + Join(tokens, "%"), "%");
    LowerConcat("%", Join(tokens, "%"));
    LowerJoin(tokens, "%");
    assert Lower("%") == "%";
    assert Lower(LikePattern(tokens)) == LikePattern(Map(tokens, Lower));
    LikeInOrder(Lower(text), Map(tokens, Lower));
  }

  // ---------------------------------------------------------------------------------------------
  // The fallback tier

  /** A search result row: document id, filename, page number, snippet. */
  datatype Hit = Hit(docId: nat, filename: String, pageNum: nat, snippet: String)

  /** How many characters of context the snippet keeps before the match, and its length. */
  const SnippetLead: nat := 80
  const SnippetLength: nat := 200

  /**
   * Where the snippet starts, counted from 0: `SnippetLead` characters before the first
   * case-insensitive occurrence of `first`, but not before the start; the start when it is absent.
   */
  function SnippetStart(text: String, first: String): (n: nat)
    ensures n <= |text|
    ensures n == 0 || IsAt(Lower(text), n + SnippetLead, Lower(first))
    ensures n > 0 ==> forall k | 0 <= k < n + SnippetLead :: !IsAt(Lower(text), k, Lower(first))
    ensures n == 0 ==>
      !Contains(Lower(text), Lower(first)) || exists k | 0 <= k <= SnippetLead :: IsAt(Lower(text), k, Lower(first))
  {
    var at := IndexOf(Lower(text), Lower(first));
    if at <= SnippetLead then 0 else at - SnippetLead
  }

  /** `substr(p.text, max(1, instr(lower(p.text), lower(first)) - 80), 200)` */
  function Snippet(text: String, first: String): (r: String)
    ensures |r| <= SnippetLength
    ensures |r| == SnippetLength || SnippetStart(text, first) + |r| == |text|
    ensures SnippetStart(text, first) + |r| <= |text|
    ensures r == text[SnippetStart(text, first)..SnippetStart(text, first) + |r|]
  {
    var s := SnippetStart(text, first);
    text[s..if s + SnippetLength <= |text| then s + SnippetLength else |text|]
  }

  /** A first token of at most 120 characters is shown in full, at most 80 characters into the snippet. */
  lemma SnippetShowsMatch(text: String, first: String)
    requires Contains(Lower(text), Lower(first))
    requires |first| <= SnippetLength - SnippetLead
    ensures var at := IndexOf(Lower(text), Lower(first));
      SnippetStart(text, first) <= at <= SnippetStart(text, first) + SnippetLead &&
      IsAt(Lower(Snippet(text, first)), at - SnippetStart(text, first), Lower(first))
  {
    var at := IndexOf(Lower(text), Lower(first));
    var s := SnippetStart(text, first);
    var r := Snippet(text, first);
    assert at + |first| <= s + |r|;
    LowerSliceAt(text, s, s + |r|, at, Lower(first));
  }

  /** An occurrence in the lower-cased text is an occurrence in the lower-cased slice around it. */
  lemma LowerSliceAt(text: String, a: nat, b: nat, at: nat, pat: String)
    requires a <= at && at + |pat| <= b <= |text|
    requires IsAt(Lower(text), at, pat)
    ensures IsAt(Lower(text[a..b]), at - a, pat)
  {
    var low := Lower(text[a..b]);
    forall k | 0 <= k < |pat| ensures low[at - a + k] == pat[k] {
      assert Lower(text)[at..at + |pat|][k] == pat[k];
    }
    assert low[at - a..at - a + |pat|] == pat;
  }

  /** Without a match the snippet is the first 200 characters. */
  lemma SnippetWithoutMatch(text: String, first: String)
    requires !Contains(Lower(text), Lower(first))
    ensures Snippet(text, first) == text[..|Snippet(text, first)|]
  {
  }

  /** The pages the fallback query selects: those that join to a document and match the pattern. */
  function Matching(documents: seq<Document>, pages: seq<Page>, tokens: seq<String>): (r: seq<Page>)
    ensures forall p :: p in r <==> p in pages && 1 <= p.docId <= |documents| && PageMatches(p.text, tokens)
  {
    var keep := (p: Page) => 1 <= p.docId <= |documents| && PageMatches(p.text, tokens);
    FilterMembers(pages, keep);
    Filter(pages, keep)
  }

  /** `ORDER BY p.doc_id, p.page_num` */
  predicate PageBefore(a: Page, b: Page) {
    a.docId < b.docId || (a.docId == b.docId && a.pageNum <= b.pageNum)
  }

  lemma PageBeforeTotal()
    ensures TotalPreorder(PageBefore)
  {
  }

  /** The same order on result rows. */
  predicate HitBefore(a: Hit, b: Hit) {
    a.docId < b.docId || (a.docId == b.docId && a.pageNum <= b.pageNum)
  }

  function ToHit(documents: seq<Document>, p: Page, first: String): Hit {
    Hit(p.docId, FilenameOf(documents, p.docId), p.pageNum, Snippet(p.text, first))
  }

  function Hits(documents: seq<Document>, ordered: seq<Page>, first: String): (r: seq<Hit>)
    ensures |r| == |ordered|
    ensures forall i | 0 <= i < |ordered| :: r[i] == ToHit(documents, ordered[i], first)
  {
    seq(|ordered|, i requires 0 <= i < |ordered| => ToHit(documents, ordered[i], first))
  }

  /** `q.split()[0]`; the search only reaches the fallback with a non-blank query, which has a token. */
  function First(tokens: seq<String>): String {
    if tokens == [] then [] else tokens[0]
  }

  /** The result cap of both tiers. */
  const Limit: nat := 100

  /** The selected pages as result rows: in (document, page) order, at most 100. */
  function Ranked(documents: seq<Document>, m: seq<Page>, first: String): (r: seq<Hit>)
    ensures |r| == if |m| <= Limit then |m| else Limit
  {
    Take(Hits(documents, SortBy(m, PageBefore), first), Limit)
  }

  /**
   * The fallback tier. Its rows are rows of matching pages, each at most as often as it matches, in
   * (document, page) order: all of them when no more than 100 pages match, otherwise 100 rows, and
   * every matching row left out comes after every row returned, so those are the first 100.
   */
  function Fallback(documents: seq<Document>, pages: seq<Page>, q: String): (r: seq<Hit>)
    ensures |r| <= Limit
    ensures var all := Hits(documents, Matching(documents, pages, Words(q)), First(Words(q)));
      && (forall h | h in r :: h in all)
      && (|all| <= Limit ==> forall h | h in all :: h in r)
      && |r| == (if |all| <= Limit then |all| else Limit)
      && multiset(r) <= multiset(all)
      && (forall h | h in multiset(all) - multiset(r) :: forall g | g in r :: HitBefore(g, h))
    ensures forall i, j | 0 <= i < j < |r| :: HitBefore(r[i], r[j])
  {
    var tokens := Words(q);
    var m := Matching(documents, pages, tokens);
    RankedFromSelected(documents, m, First(tokens));
    RankedCoversSelected(documents, m, First(tokens));
    RankedOrdered(documents, m, First(tokens));
    RankedFirst(documents, m, First(tokens));
    Ranked(documents, m, First(tokens))
  }

  /** Every row is the row of a selected page, and no selected page gives more than its one row. */
  lemma RankedFromSelected(documents: seq<Document>, m: seq<Page>, first: String)
    ensures forall h | h in Ranked(documents, m, first) :: h in Hits(documents, m, first)
    ensures multiset(Ranked(documents, m, first)) <= multiset(Hits(documents, m, first))
  {
    var ordered := SortBy(m, PageBefore);
    var hs := Hits(documents, ordered, first);
    var r := Ranked(documents, m, first);
    var all := Hits(documents, m, first);
    HitsReordered(documents, m, ordered, first);
    PrefixMultiset(hs, |r|);
    forall h | h in r ensures h in all {
      assert h in multiset(r);
    }
  }

  /** With no more than 100 selected pages, the row of every one of them is there. */
  lemma RankedCoversSelected(documents: seq<Document>, m: seq<Page>, first: String)
    ensures |m| <= Limit ==> forall h | h in Hits(documents, m, first) :: h in Ranked(documents, m, first)
  {
    var ordered := SortBy(m, PageBefore);
    var r := Ranked(documents, m, first);
    var all := Hits(documents, m, first);
    if |m| <= Limit {
      assert r == Hits(documents, ordered, first);
      forall h | h in all ensures h in r {
        var k :| 0 <= k < |m| && all[k] == h;
        assert m[k] in multiset(ordered);
        var i :| 0 <= i < |ordered| && ordered[i] == m[k];
        assert r[i] == h;
      }
    }
  }

  /** The rows of any reordering of the pages are a reordering of their rows. */
  lemma HitsReordered(documents: seq<Document>, m: seq<Page>, ordered: seq<Page>, first: String)
    requires multiset(ordered) == multiset(m)
    ensures multiset(Hits(documents, ordered, first)) == multiset(Hits(documents, m, first))
  {
    var f := (p: Page) => ToHit(documents, p, first);
    assert Hits(documents, m, first) == Map(m, f);
    assert Hits(documents, ordered, first) == Map(ordered, f);
    MapPermutation(ordered, m, f);
  }

  /** The rows of pages in (document, page) order are in that order too. */
  lemma HitsSorted(documents: seq<Document>, ordered: seq<Page>, first: String)
    requires SortedBy(ordered, PageBefore)
    ensures SortedBy(Hits(documents, ordered, first), HitBefore)
  {
    var hs := Hits(documents, ordered, first);
    forall i, j | 0 <= i < j < |hs| ensures HitBefore(hs[i], hs[j]) {
      assert PageBefore(ordered[i], ordered[j]);
    }
  }

  /** The rows left out, when more than 100 pages are selected, all sort after every row returned. */
  lemma RankedFirst(documents: seq<Document>, m: seq<Page>, first: String)
    ensures var r := Ranked(documents, m, first);
      forall h | h in multiset(Hits(documents, m, first)) - multiset(r) :: forall g | g in r :: HitBefore(g, h)
  {
    var ordered := SortBy(m, PageBefore);
    var hs := Hits(documents, ordered, first);
    var r := Ranked(documents, m, first);
    PageBeforeTotal();
    SortBySorted(m, PageBefore);
    HitsSorted(documents, ordered, first);
    HitsReordered(documents, m, ordered, first);
    PrefixMultiset(hs, |r|);
    SortedSplit(hs, |r|, HitBefore);
  }

  /** The rows are in (document, page) order. */
  lemma RankedOrdered(documents: seq<Document>, m: seq<Page>, first: String)
    ensures var r := Ranked(documents, m, first);
      forall i, j | 0 <= i < j < |r| :: HitBefore(r[i], r[j])
  {
    var ordered := SortBy(m, PageBefore);
    var r := Ranked(documents, m, first);
    PageBeforeTotal();
    SortBySorted(m, PageBefore);
    forall i, j | 0 <= i < j < |r| ensures HitBefore(r[i], r[j]) {
      assert PageBefore(ordered[i], ordered[j]);
    }
  }

  // ---------------------------------------------------------------------------------------------
  // The search endpoint

  /** What the full-text query returns: its rows (ranked, at most 100), or an error such as an FTS5 syntax error. */
  datatype FtsOutcome = FtsRows(rows: seq<Hit>) | FtsError

  /** The first tier: no rows when the query is empty or the full-text search fails. */
  function FtsTier(q: String, fts: String -> FtsOutcome): seq<Hit> {
    var ftsQ := FtsQuery(q);
    if ftsQ == [] then []
    else match fts(ftsQ)
      case FtsRows(rows) => rows
      case FtsError => []
  }

  /**
   * `/api/search?q=raw`: nothing for a blank query; otherwise the full-text rows, or the fallback
   * scan when the first tier has none. `fts` stands for the full-text index query.
   */
  function SearchPages(documents: seq<Document>, pages: seq<Page>, raw: String, fts: String -> FtsOutcome): seq<Hit> {
    var q := Strip(raw);
    if q == [] then []
    else
      var rows := FtsTier(q, fts);
      if rows != [] then rows else Fallback(documents, pages, q)
  }

  /** A blank query returns nothing, whatever the tables and the index hold. */
  lemma SearchBlank(documents: seq<Document>, pages: seq<Page>, raw: String, fts: String -> FtsOutcome)
    requires forall k :: 0 <= k < |raw| ==> IsSpace(raw[k])
    ensures SearchPages(documents, pages, raw, fts) == []
  {
    StripEmpty(raw);
  }

  /** Full-text rows, when there are any, are the answer. */
  lemma SearchUsesFts(documents: seq<Document>, pages: seq<Page>, raw: String, fts: String -> FtsOutcome)
    requires FtsQuery(Strip(raw)) != []
    requires fts(FtsQuery(Strip(raw))).FtsRows? && fts(FtsQuery(Strip(raw))).rows != []
    ensures SearchPages(documents, pages, raw, fts) == fts(FtsQuery(Strip(raw))).rows
  {
    assert Strip(raw) != [];
  }

  /** A non-blank query falls back to the scan when the index returns no rows or fails. */
  lemma SearchFallsBack(documents: seq<Document>, pages: seq<Page>, raw: String, fts: String -> FtsOutcome)
    requires Strip(raw) != []
    requires FtsQuery(Strip(raw)) == [] || fts(FtsQuery(Strip(raw))) in {FtsRows([]), FtsError}
    ensures SearchPages(documents, pages, raw, fts) == Fallback(documents, pages, Strip(raw))
  {
  }

  /** A non-blank query without a word character never reaches the index and always gets the scan. */
  lemma SearchPunctuationOnly(documents: seq<Document>, pages: seq<Page>, raw: String, fts: String -> FtsOutcome)
    requires Strip(raw) != []
    requires !HasWordChar(raw)
    ensures SearchPages(documents, pages, raw, fts) == Fallback(documents, pages, Strip(raw))
  {
    StripChars(raw);
    var q := Strip(raw);
    assert !HasWordChar(q) by {
      forall k | 0 <= k < |q| ensures !IsWordChar(q[k]) {
        assert q[k] in raw;
      }
    }
    FtsQueryEmptyIff(q);
  }

  /** A non-blank query has a first token, so the snippet is anchored on it. */
  lemma StrippedHasToken(raw: String)
    requires Strip(raw) != []
    ensures Words(Strip(raw)) != [] && First(Words(Strip(raw))) == Words(Strip(raw))[0]
  {
    var q := Strip(raw);
    StripTrimmed(q);
    assert LeadingSpace(q) == 0;
    assert TrimStart(q) == q;
  }

  // ---------------------------------------------------------------------------------------------
  // The document listing

  /** SQLite's `BINARY` collation: character by character, a prefix first. */
  predicate LexLeq(a: String, b: String)
    decreases |a|
  {
    a == [] || (b != [] && (a[0] < b[0] || (a[0] == b[0] && LexLeq(a[1..], b[1..]))))
  }

  lemma {:induction false} LexTotal(a: String, b: String)
    ensures LexLeq(a, b) || LexLeq(b, a)
    decreases |a|
  {
    if a != [] && b != [] && a[0] == b[0] {
      LexTotal(a[1..], b[1..]);
    }
  }

  lemma {:induction false} LexTrans(a: String, b: String, c: String)
    requires LexLeq(a, b) && LexLeq(b, c)
    ensures LexLeq(a, c)
    decreases |a|
  {
    if a != [] && a[0] == b[0] && b[0] == c[0] {
      LexTrans(a[1..], b[1..], c[1..]);
    }
  }

  /** `WHERE interest_score >= min_score [AND doc_type = type]`; an empty type selects every type. */
  predicate Listed(d: Document, docType: String, minScore: int) {
    d.interestScore >= minScore && (docType == [] || d.docType == docType)
  }

  /** `ORDER BY interest_score DESC, filename` */
  predicate ListingBefore(a: Document, b: Document) {
    a.interestScore > b.interestScore || (a.interestScore == b.interestScore && LexLeq(a.filename, b.filename))
  }

  lemma ListingBeforeTotal()
    ensures TotalPreorder(ListingBefore)
  {
    forall a: Document, b: Document ensures ListingBefore(a, b) || ListingBefore(b, a) {
      LexTotal(a.filename, b.filename);
    }
    forall a: Document, b: Document, c: Document | ListingBefore(a, b) && ListingBefore(b, c)
      ensures ListingBefore(a, c)
    {
      if a.interestScore == b.interestScore == c.interestScore {
        LexTrans(a.filename, b.filename, c.filename);
      }
    }
  }

  function Selected(documents: seq<Document>, docType: String, minScore: int): (r: seq<Document>)
    ensures forall d :: d in r <==> d in documents && Listed(d, docType, minScore)
  {
    var keep := (d: Document) => Listed(d, docType, minScore);
    FilterMembers(documents, keep);
    Filter(documents, keep)
  }

  /** `/api/documents?type=docType&min_score=minScore` */
  function Listing(documents: seq<Document>, docType: String, minScore: int): seq<Document> {
    SortBy(Selected(documents, docType, minScore), ListingBefore)
  }

  /** The listing holds every selected document once and orders them by score, highest first, then by filename. */
  lemma ListingSpec(documents: seq<Document>, docType: String, minScore: int)
    ensures var r := Listing(documents, docType, minScore);
      && multiset(r) == multiset(Selected(documents, docType, minScore))
      && (forall d :: d in r <==> d in documents && Listed(d, docType, minScore))
      && (forall i, j | 0 <= i < j < |r| ::
            r[i].interestScore > r[j].interestScore ||
            (r[i].interestScore == r[j].interestScore && LexLeq(r[i].filename, r[j].filename)))
  {
    var s := Selected(documents, docType, minScore);
    var r := Listing(documents, docType, minScore);
    ListingBeforeTotal();
    SortBySorted(s, ListingBefore);
    forall d ensures d in r <==> d in s {
      assert d in r <==> d in multiset(r);
      assert d in s <==> d in multiset(s);
    }
    forall i, j | 0 <= i < j < |r|
      ensures r[i].interestScore > r[j].interestScore ||
        (r[i].interestScore == r[j].interestScore && LexLeq(r[i].filename, r[j].filename))
    {
      assert ListingBefore(r[i], r[j]);
    }
  }

  // ---------------------------------------------------------------------------------------------
  // Dataset 9 ids

  predicate HasText(line: String) {
    Strip(line) != []
  }

  /** The id list as loaded at start-up: each line stripped, blank lines skipped, file order kept. */
  function Ds9Ids(lines: seq<String>): seq<String> {
    Map(Filter(lines, HasText), Strip)
  }

  /** The ids are exactly the stripped non-blank lines, and none has surrounding whitespace. */
  lemma Ds9IdsMembers(lines: seq<String>)
    ensures forall id :: id in Ds9Ids(lines) <==> id != [] && exists line :: line in lines && Strip(line) == id
    ensures forall id | id in Ds9Ids(lines) :: !IsSpace(id[0]) && !IsSpace(id[|id| - 1])
  {
    var kept := Filter(lines, HasText);
    FilterMembers(lines, HasText);
    forall id ensures id in Ds9Ids(lines) <==> id != [] && exists line :: line in lines && Strip(line) == id {
      if id in Ds9Ids(lines) {
        MapMembers(kept, Strip, id);
      }
      if id != [] && exists line :: line in lines && Strip(line) == id {
        var line :| line in lines && Strip(line) == id;
        MapContains(kept, Strip, line);
      }
    }
  }

  /** The ids that contain `q`, in list order. */
  function Ds9Matches(ids: seq<String>, q: String): (r: seq<String>)
    ensures forall fid :: fid in r <==> fid in ids && Contains(fid, q)
  {
    var keep := (fid: String) => Contains(fid, q);
    FilterMembers(ids, keep);
    Filter(ids, keep)
  }

  /** `/api/ds9/search?q=raw`: the first 100 ids containing the stripped, upper-cased query. */
  function Ds9Search(ids: seq<String>, raw: String): seq<String> {
    var q := Upper(Strip(raw));
    if q == [] then [] else Take(Ds9Matches(ids, q), Limit)
  }

  /**
   * A blank query finds nothing; otherwise the result is the first min(matches, 100) matches in list
   * order, each an id containing the upper-cased query, and all of them when there are no more than 100.
   */
  lemma Ds9SearchSpec(ids: seq<String>, raw: String)
    ensures var r := Ds9Search(ids, raw);
      var q := Upper(Strip(raw));
      && (Strip(raw) == [] ==> r == [])
      && |r| <= Limit
      && (Strip(raw) != [] ==> r == Ds9Matches(ids, q)[..|r|])
      && (Strip(raw) != [] ==>
            |r| == if |Ds9Matches(ids, q)| <= Limit then |Ds9Matches(ids, q)| else Limit)
      && (forall fid | fid in r :: fid in ids && Contains(fid, q))
      && (Strip(raw) != [] && |Ds9Matches(ids, q)| <= Limit ==>
            forall fid | fid in ids && Contains(fid, q) :: fid in r)
  {
    var q := Upper(Strip(raw));
    var r := Ds9Search(ids, raw);
    if q != [] {
      forall fid | fid in r ensures fid in ids && Contains(fid, q) {
        var i :| 0 <= i < |r| && r[i] == fid;
        assert Ds9Matches(ids, q)[i] == fid;
      }
    }
  }
}
