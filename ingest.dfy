/**
 * The ingestor's bookkeeping: reading the Bates manifests (`.DAT` files) into a map from first to
 * last Bates number, deriving each document's Bates range from its filename, and adding a PDF's
 * document row and numbered page rows unless its filename is already indexed. Opening and reading
 * files is done by the caller: a manifest arrives as its lines (or `None` when it does not exist)
 * and a PDF as its page texts (or `None` when it cannot be opened).
 */
module Ingestor {
  import opened Text
  import opened Seqs
  import opened Store
  import opened Wrappers

  type BatesMap = map<String, String>

  /** The manifest field separator, `þ`. */
  const Thorn: char := 'þ'

  // ---------------------------------------------------------------------------------------------
  // Maps updated one after another

  /** `d = {}; for m in ms: d.update(m)`: later maps win. */
  function UpdateAll<K, V>(ms: seq<map<K, V>>): (r: map<K, V>)
    decreases |ms|
  {
    if ms == [] then map[] else UpdateAll(ms[..|ms| - 1]) + ms[|ms| - 1]
  }

  /** A key is in the union exactly when one of the maps has it. */
  lemma {:induction false} UpdateAllKeys<K, V>(ms: seq<map<K, V>>, k: K)
    ensures k in UpdateAll(ms) <==> exists i :: 0 <= i < |ms| && k in ms[i]
    decreases |ms|
  {
    if ms != [] {
      var init := ms[..|ms| - 1];
      UpdateAllKeys(init, k);
      if exists i :: 0 <= i < |init| && k in init[i] {
        var i :| 0 <= i < |init| && k in init[i];
        assert ms[i] == init[i];
      }
      if exists i :: 0 <= i < |ms| && k in ms[i] {
        var i :| 0 <= i < |ms| && k in ms[i];
        if i < |init| {
          assert init[i] == ms[i];
        }
      }
    }
  }

  /** The value of a key is the one from the last map that has it. */
  lemma {:induction false} UpdateAllLastWins<K, V>(ms: seq<map<K, V>>, i: nat, k: K)
    requires i < |ms| && k in ms[i]
    requires forall j :: i < j < |ms| ==> k !in ms[j]
    ensures k in UpdateAll(ms) && UpdateAll(ms)[k] == ms[i][k]
    decreases |ms|
  {
    var init := ms[..|ms| - 1];
    if i < |init| {
      assert init[i] == ms[i];
      UpdateAllLastWins(init, i, k);
    }
  }

  /** Updating with one more map is the union so far followed by that map. */
  lemma UpdateAllStep<K, V, T>(items: seq<T>, f: T -> map<K, V>, k: nat)
    requires k < |items|
    ensures UpdateAll(Map(items[..k + 1], f)) == UpdateAll(Map(items[..k], f)) + f(items[k])
  {
    PrefixSnoc(items, k);
    MapConcat(items[..k], [items[k]], f);
    var ms := Map(items[..k + 1], f);
    assert ms[..|ms| - 1] == Map(items[..k], f);
  }

  /** `UpdateAllKeys` for the maps made from a sequence by `f`. */
  lemma UpdateAllMapKeys<T, K, V>(items: seq<T>, f: T -> map<K, V>, k: K)
    ensures k in UpdateAll(Map(items, f)) <==> exists i :: 0 <= i < |items| && k in f(items[i])
  {
    UpdateAllKeys(Map(items, f), k);
  }

  /** `UpdateAllLastWins` for the maps made from a sequence by `f`. */
  lemma UpdateAllMapLastWins<T, K, V>(items: seq<T>, f: T -> map<K, V>, i: nat, k: K)
    requires i < |items| && k in f(items[i])
    requires forall j :: i < j < |items| ==> k !in f(items[j])
    ensures k in UpdateAll(Map(items, f)) && UpdateAll(Map(items, f))[k] == f(items[i])[k]
  {
    UpdateAllLastWins(Map(items, f), i, k);
  }

  // ---------------------------------------------------------------------------------------------
  // parse_dat

  predicate NonEmpty(p: String) {
    p != []
  }

  /** The non-empty `þ`-separated fields of a stripped manifest line. */
  function Fields(line: String): (r: seq<String>)
    ensures forall j :: 0 <= j < |r| ==> r[j] != []
  {
    var parts := Filter(Split(Strip(line), [Thorn]), NonEmpty);
    FilterMembers(Split(Strip(line), [Thorn]), NonEmpty);
    assert forall j :: 0 <= j < |parts| ==> parts[j] in parts;
    parts
  }

  /** The entry a manifest line contributes: its first field to its second, when it has two. */
  function LineMap(line: String): BatesMap {
    var parts := Fields(line);
    if |parts| >= 2 then map[parts[0] := parts[1]] else map[]
  }

  /** The entries of the manifest lines, in order. */
  function Entries(lines: seq<String>): (r: seq<BatesMap>)
    ensures |r| == |lines|
    ensures forall i :: 0 <= i < |lines| ==> r[i] == LineMap(lines[i])
    decreases |lines|
  {
    if lines == [] then [] else Entries(lines[..|lines| - 1]) + [LineMap(lines[|lines| - 1])]
  }

  /**
   * `parse_dat(path)`, given the file's lines (`None` when the file does not exist): the header
   * line is skipped and each later line adds its entry, a later line winning over an earlier one.
   */
  function ParsedDat(file: Option<seq<String>>): BatesMap {
    match file
    case None => map[]
    case Some(lines) => if lines == [] then map[] else UpdateAll(Entries(lines[1..]))
  }

  /** `parse_dat`, with its line loop. */
  method ParseDat(file: Option<seq<String>>) returns (bates: BatesMap)
    ensures bates == ParsedDat(file)
  {
    bates := map[];
    if file.None? || file.value == [] {
      return;
    }
    var body := file.value[1..];
    for k := 0 to |body|
      invariant bates == UpdateAll(Entries(body[..k]))
    {
      var parts := Fields(body[k]);
      PrefixSnoc(body, k);
      assert body[..k + 1][..k] == body[..k];
      AddLine(bates, body[k]);
      if |parts| >= 2 {
        bates := bates[parts[0] := parts[1]];
      }
    }
    assert body[..|body|] == body;
  }

  /** Setting a line's first field to its second is the update with the line's entry. */
  lemma AddLine(bates: BatesMap, line: String)
    ensures var parts := Fields(line);
      (if |parts| >= 2 then bates[parts[0] := parts[1]] else bates) == bates + LineMap(line)
  {
  }

  /** Each entry maps a non-empty field without `þ` to another. */
  lemma LineMapShape(line: String)
    ensures |LineMap(line)| <= 1
    ensures forall k :: k in LineMap(line) ==>
      k != [] && LineMap(line)[k] != [] && Thorn !in k && Thorn !in LineMap(line)[k]
  {
    var pieces := Split(Strip(line), [Thorn]);
    var parts := Fields(line);
    SplitPiecesFree(Strip(line), [Thorn]);
    FilterMembers(pieces, NonEmpty);
    if |parts| >= 2 {
      assert parts[0] in pieces && parts[1] in pieces;
      var i0 :| 0 <= i0 < |pieces| && pieces[i0] == parts[0];
      var i1 :| 0 <= i1 < |pieces| && pieces[i1] == parts[1];
      if Thorn in parts[0] {
        ContainsChar(parts[0], Thorn);
      }
      if Thorn in parts[1] {
        ContainsChar(parts[1], Thorn);
      }
    }
  }

  /** A line `key þ value` (no space at its ends, no `þ` inside either field) yields `key -> value`. */
  lemma LineMapOfEntry(key: String, value: String)
    requires key != [] && value != [] && Thorn !in key && Thorn !in value
    requires !IsSpace(key[0]) && !IsSpace(value[|value| - 1])
    ensures LineMap(key + [Thorn] + value) == map[key := value]
  {
    var line := key + [Thorn] + value;
    assert line[0] == key[0] && line[|line| - 1] == value[|value| - 1];
    StripTrimmed(line);
    SplitPair(key, value, Thorn);
    FilterAll([key, value], NonEmpty);
    assert Fields(line) == [key, value];
  }

  /** The header line is never read: manifests that differ only there parse alike. */
  lemma ParsedDatIgnoresHeader(header: String, header2: String, rest: seq<String>)
    ensures ParsedDat(Some([header] + rest)) == ParsedDat(Some([header2] + rest))
  {
    assert ([header] + rest)[1..] == rest == ([header2] + rest)[1..];
  }

  /** A key is in the parsed map exactly when a line after the header has it as its first field. */
  lemma ParsedDatKeys(header: String, body: seq<String>, k: String)
    ensures k in ParsedDat(Some([header] + body)) <==> exists i :: 0 <= i < |body| && k in LineMap(body[i])
  {
    UpdateAllKeys(Entries(body), k);
    assert ([header] + body)[1..] == body;
  }

  /** The value of a key is the second field of the last line that has it as its first. */
  lemma ParsedDatLastWins(header: String, body: seq<String>, i: nat, k: String)
    requires i < |body| && k in LineMap(body[i])
    requires forall j :: i < j < |body| ==> k !in LineMap(body[j])
    ensures k in ParsedDat(Some([header] + body))
    ensures ParsedDat(Some([header] + body))[k] == LineMap(body[i])[k]
  {
    BodyLastWins(body, i, k);
    assert ([header] + body)[1..] == body;
  }

  lemma BodyLastWins(body: seq<String>, i: nat, k: String)
    requires i < |body| && k in LineMap(body[i])
    requires forall j :: i < j < |body| ==> k !in LineMap(body[j])
    ensures k in UpdateAll(Entries(body)) && UpdateAll(Entries(body))[k] == LineMap(body[i])[k]
  {
    UpdateAllLastWins(Entries(body), i, k);
  }

  /** `bates_map = {}; for dat in dats: bates_map.update(parse_dat(dat))` */
  method LoadBatesMap(dats: seq<Option<seq<String>>>) returns (bates: BatesMap)
    ensures bates == UpdateAll(Map(dats, ParsedDat))
  {
    bates := map[];
    for k := 0 to |dats|
      invariant bates == UpdateAll(Map(dats[..k], ParsedDat))
    {
      var parsed := ParseDat(dats[k]);
      UpdateAllStep(dats, ParsedDat, k);
      bates := bates + parsed;
    }
    assert dats[..|dats|] == dats;
  }

  /** Across manifests, a key's value comes from the last manifest that has it. */
  lemma BatesMapLastWins(dats: seq<Option<seq<String>>>, i: nat, k: String)
    requires i < |dats| && k in ParsedDat(dats[i])
    requires forall j :: i < j < |dats| ==> k !in ParsedDat(dats[j])
    ensures k in UpdateAll(Map(dats, ParsedDat))
    ensures UpdateAll(Map(dats, ParsedDat))[k] == ParsedDat(dats[i])[k]
  {
    UpdateAllMapLastWins(dats, ParsedDat, i, k);
  }

  // ---------------------------------------------------------------------------------------------
  // Bates range of a document

  const PdfSuffix: String := ".pdf"

  /** `filename.replace(".pdf", "")`: every occurrence is removed, not only a final one. */
  function BatesStart(filename: String): String {
    Replace(filename, PdfSuffix, "")
  }

  /** `bates_map.get(bates_start, "")` */
  function BatesEnd(bates: BatesMap, start: String): (r: String)
    ensures start in bates ==> r == bates[start]
    ensures start !in bates ==> r == ""
  {
    if start in bates then bates[start] else ""
  }

  /** A filename without `.pdf` is its own first Bates number. */
  lemma BatesStartPlain(filename: String)
    requires !Contains(filename, PdfSuffix)
    ensures BatesStart(filename) == filename
  {
  }

  /** `.pdf` cannot begin inside a stem and run on into the suffix: the suffix has no border. */
  lemma SuffixFirstAt(stem: String)
    requires !Contains(stem, PdfSuffix)
    ensures IndexOf(stem + PdfSuffix, PdfSuffix) == |stem|
  {
    var name := stem + PdfSuffix;
    assert IsAt(name, |stem|, PdfSuffix);
    forall j | 0 <= j < |stem| ensures !IsAt(name, j, PdfSuffix) {
      if j + 4 <= |stem| {
        assert name[j..j + 4] == stem[j..j + 4];
        assert !IsAt(stem, j, PdfSuffix);
      } else {
        assert name[|stem|] == '.';
        assert name[j..j + 4][|stem| - j] == name[|stem|];
        assert PdfSuffix[|stem| - j] != '.';
      }
    }
  }

  /** The stem of `stem.pdf` is its first Bates number, when the stem has no `.pdf` of its own. */
  lemma BatesStartOfPdf(stem: String)
    requires !Contains(stem, PdfSuffix)
    ensures BatesStart(stem + PdfSuffix) == stem
  {
    var name := stem + PdfSuffix;
    SuffixFirstAt(stem);
    var empty: String := [];
    assert !Contains(empty, PdfSuffix);
    assert Split(empty, PdfSuffix) == [empty];
    assert name[..|stem|] == stem && name[|stem| + 4..] == empty;
    assert Split(name, PdfSuffix) == [stem, empty];
    assert [stem, empty][1..] == [empty];
    assert Join([stem, empty], "") == stem + "" + empty;
  }

  // ---------------------------------------------------------------------------------------------
  // Adding one PDF

  /** The `documents` row for a new PDF; the later stages' columns start empty. */
  function NewDocument(id: nat, filename: String, filepath: String, texts: seq<String>, bates: BatesMap): (d: Document)
    ensures d.id == id && d.filename == filename && d.pageCount == |texts|
  {
    var start := BatesStart(filename);
    Document(id, filename, filepath, |texts|, Join(texts, "\n"), "", start, BatesEnd(bates, start), "", 0)
  }

  /** The page rows after `pages`, inserted one per extracted text. */
  method InsertPages(pages: seq<Page>, docId: nat, texts: seq<String>) returns (r: seq<Page>)
    ensures r == pages + NewPages(|pages|, docId, texts)
  {
    r := pages;
    for i := 0 to |texts|
      invariant r == pages + NewPages(|pages|, docId, texts[..i])
    {
      r := r + [Page(|pages| + i + 1, docId, i + 1, texts[i])];
    }
    assert texts[..|texts|] == texts;
  }

  /**
   * One iteration of `ingest`'s file loop: a filename already present, or a PDF that cannot be
   * opened (`extracted == None`), adds nothing; otherwise the document row and its pages, numbered
   * from 1 in extraction order, are appended.
   */
  method IngestFile(db: Database, filename: String, filepath: String, extracted: Option<seq<String>>, bates: BatesMap)
    returns (added: bool)
    requires db.Valid()
    modifies db
    ensures db.Valid()
    ensures added <==> !old(db.HasFilename(filename)) && extracted.Some?
    ensures !added ==> db.documents == old(db.documents) && db.pages == old(db.pages)
    ensures added ==>
      db.documents == old(db.documents) + [NewDocument(|old(db.documents)| + 1, filename, filepath, extracted.value, bates)]
    ensures added ==>
      db.pages == old(db.pages) + NewPages(|old(db.pages)|, |old(db.documents)| + 1, extracted.value)
  {
    if db.HasFilename(filename) || extracted.None? {
      return false;
    }
    var texts := extracted.value;
    var doc := NewDocument(|db.documents| + 1, filename, filepath, texts, bates);
    var rows := InsertPages(db.pages, doc.id, texts);
    AppendDocumentConsistent(db.documents, db.pages, doc, texts);
    db.documents := db.documents + [doc];
    db.pages := rows;
    added := true;
  }

  /** A PDF found on disk: its path, its base name and its page texts (`None` if it cannot be opened). */
  datatype PdfFile = PdfFile(path: String, filename: String, extracted: Option<seq<String>>)

  /** The two tables as values, to state what the file loop leaves behind. */
  datatype Tables = Tables(documents: seq<Document>, pages: seq<Page>)

  /** What one iteration of the file loop does to the tables: nothing, or one document and its pages. */
  function IngestStep(tb: Tables, f: PdfFile, bates: BatesMap): Tables {
    if Named(tb.documents, f.filename) || f.extracted.None? then tb
    else
      var id := |tb.documents| + 1;
      Tables(tb.documents + [NewDocument(id, f.filename, f.path, f.extracted.value, bates)],
             tb.pages + NewPages(|tb.pages|, id, f.extracted.value))
  }

  /** The tables after the file loop has gone through `files` in order. */
  function Ingested(tb: Tables, files: seq<PdfFile>, bates: BatesMap): Tables
    decreases |files|
  {
    if files == [] then tb
    else IngestStep(Ingested(tb, files[..|files| - 1], bates), files[|files| - 1], bates)
  }

  /**
   * `ingest`'s loop over the PDFs, in the order given (the caller sorts them by path): the tables become `Ingested` of the old
   * ones, so every PDF that opens ends up indexed, the rows present before are kept, and the
   * tables stay consistent.
   */
  method IngestAll(db: Database, files: seq<PdfFile>, bates: BatesMap)
    requires db.Valid()
    modifies db
    ensures db.Valid()
    ensures Tables(db.documents, db.pages) == Ingested(Tables(old(db.documents), old(db.pages)), files, bates)
    ensures |db.documents| >= |old(db.documents)| && db.documents[..|old(db.documents)|] == old(db.documents)
    ensures |db.pages| >= |old(db.pages)| && db.pages[..|old(db.pages)|] == old(db.pages)
    ensures forall f :: f in files && f.extracted.Some? ==> db.HasFilename(f.filename)
    ensures forall name :: old(db.HasFilename(name)) ==> db.HasFilename(name)
  {
    ghost var start := Tables(db.documents, db.pages);
    for k := 0 to |files|
      invariant db.Valid()
      invariant Tables(db.documents, db.pages) == Ingested(start, files[..k], bates)
    {
      assert files[..k + 1][..k] == files[..k];
      var f := files[k];
      ghost var before := Tables(db.documents, db.pages);
      var added := IngestFile(db, f.filename, f.path, f.extracted, bates);
      assert Tables(db.documents, db.pages) == IngestStep(before, f, bates);
    }
    assert files[..|files|] == files;
    IngestedKeepsRows(start, files, bates);
    IngestedIndexes(start, files, bates);
  }

  /** The loop only appends: the rows of both tables present before are kept, in place. */
  lemma {:induction false} IngestedKeepsRows(tb: Tables, files: seq<PdfFile>, bates: BatesMap)
    ensures var r := Ingested(tb, files, bates);
      && |r.documents| >= |tb.documents| && r.documents[..|tb.documents|] == tb.documents
      && |r.pages| >= |tb.pages| && r.pages[..|tb.pages|] == tb.pages
    decreases |files|
  {
    if files != [] {
      var mid := Ingested(tb, files[..|files| - 1], bates);
      IngestedKeepsRows(tb, files[..|files| - 1], bates);
      var r := IngestStep(mid, files[|files| - 1], bates);
      assert r.documents[..|mid.documents|] == mid.documents;
      assert r.pages[..|mid.pages|] == mid.pages;
      assert r.documents[..|tb.documents|] == mid.documents[..|tb.documents|];
      assert r.pages[..|tb.pages|] == mid.pages[..|tb.pages|];
    }
  }

  /** A filename is indexed afterwards exactly when it was before or one of the files with it opened. */
  lemma {:induction false} IngestedNames(tb: Tables, files: seq<PdfFile>, bates: BatesMap, name: String)
    ensures Named(Ingested(tb, files, bates).documents, name) <==>
      Named(tb.documents, name) || exists f | f in files :: f.extracted.Some? && f.filename == name
    decreases |files|
  {
    if files != [] {
      var init, last := files[..|files| - 1], files[|files| - 1];
      var mid := Ingested(tb, init, bates);
      IngestedNames(tb, init, bates, name);
      assert files == init + [last];
      var r := IngestStep(mid, last, bates);
      if !(Named(mid.documents, last.filename) || last.extracted.None?) {
        var d := NewDocument(|mid.documents| + 1, last.filename, last.path, last.extracted.value, bates);
        assert r.documents == mid.documents + [d];
        if Named(r.documents, name) && !Named(mid.documents, name) {
          var i :| 0 <= i < |r.documents| && r.documents[i].filename == name;
          assert i == |mid.documents|;
        }
        if Named(mid.documents, name) {
          var i :| 0 <= i < |mid.documents| && mid.documents[i].filename == name;
          assert r.documents[i].filename == name;
        }
        assert r.documents[|mid.documents|].filename == last.filename;
      }
    }
  }

  /** Every file that opened is indexed afterwards, and so is every filename that was indexed before. */
  lemma IngestedIndexes(tb: Tables, files: seq<PdfFile>, bates: BatesMap)
    ensures var r := Ingested(tb, files, bates);
      && (forall f | f in files && f.extracted.Some? :: Named(r.documents, f.filename))
      && (forall name | Named(tb.documents, name) :: Named(r.documents, name))
  {
    forall name ensures Named(tb.documents, name) || (exists f | f in files :: f.extracted.Some? && f.filename == name)
      ==> Named(Ingested(tb, files, bates).documents, name)
    {
      IngestedNames(tb, files, bates, name);
    }
  }

  /**
   * Every row the loop adds is the document row of one of the files that opened, with its path,
   * its page texts, the next id and the Bates range from the manifests.
   */
  lemma {:induction false} IngestedNewRows(tb: Tables, files: seq<PdfFile>, bates: BatesMap)
    ensures var r := Ingested(tb, files, bates);
      forall i | |tb.documents| <= i < |r.documents| ::
        exists f | f in files :: f.extracted.Some? && r.documents[i] == NewDocument(i + 1, f.filename, f.path, f.extracted.value, bates)
    decreases |files|
  {
    if files != [] {
      var init, last := files[..|files| - 1], files[|files| - 1];
      var mid := Ingested(tb, init, bates);
      IngestedNewRows(tb, init, bates);
      IngestedKeepsRows(tb, init, bates);
      assert files == init + [last];
      var r := IngestStep(mid, last, bates);
      forall i | |tb.documents| <= i < |r.documents|
        ensures exists f | f in files :: f.extracted.Some? && r.documents[i] == NewDocument(i + 1, f.filename, f.path, f.extracted.value, bates)
      {
        if i < |mid.documents| {
          assert r.documents[i] == mid.documents[i];
          var f :| f in init && f.extracted.Some? && mid.documents[i] == NewDocument(i + 1, f.filename, f.path, f.extracted.value, bates);
          assert f in files;
        } else {
          assert last in files;
        }
      }
    }
  }

  /** The loop keeps the tables consistent, whatever the files. */
  lemma {:induction false} IngestedConsistent(tb: Tables, files: seq<PdfFile>, bates: BatesMap)
    requires Consistent(tb.documents, tb.pages)
    ensures var r := Ingested(tb, files, bates); Consistent(r.documents, r.pages)
    decreases |files|
  {
    if files != [] {
      var init, last := files[..|files| - 1], files[|files| - 1];
      var mid := Ingested(tb, init, bates);
      IngestedConsistent(tb, init, bates);
      if !(Named(mid.documents, last.filename) || last.extracted.None?) {
        var id := |mid.documents| + 1;
        AppendDocumentConsistent(mid.documents, mid.pages, NewDocument(id, last.filename, last.path, last.extracted.value, bates), last.extracted.value);
      }
    }
  }
}
