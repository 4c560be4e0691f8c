/**
 * The pipeline's two tables, `documents` and `pages`, held in memory. Row ids are assigned as
 * SQLite assigns an `INTEGER PRIMARY KEY` to rows that are only ever appended: one more than the
 * number of rows.
 */
module Store {
  import opened Text
  import opened Seqs

  /**
   * A `documents` row. `condensed`, `docType` and `interestScore` are the columns the later stages
   * add with defaults `''`, `''` and `0`.
   */
  datatype Document = Document(
    id: nat, filename: String, filepath: String, pageCount: nat, fullText: String,
    condensed: String, batesStart: String, batesEnd: String, docType: String, interestScore: int)

  /** A `pages` row. */
  datatype Page = Page(id: nat, docId: nat, pageNum: nat, text: String)

  /** `SELECT * FROM pages WHERE doc_id = ?`, in table order. */
  function PagesOf(pages: seq<Page>, docId: nat): (r: seq<Page>)
    ensures |r| <= |pages|
  {
    Filter(pages, (p: Page) => p.docId == docId)
  }

  /** The pages are numbered 1, 2, ..., n in table order. */
  predicate Numbered(ps: seq<Page>, n: nat) {
    |ps| == n && forall j :: 0 <= j < |ps| ==> ps[j].pageNum == j + 1
  }

  /**
   * The tables as the ingestor leaves them: ids count up from 1, filenames are unique, every page
   * belongs to a document, and each document's pages are numbered 1 to its page count.
   */
  predicate Consistent(documents: seq<Document>, pages: seq<Page>) {
    && (forall i :: 0 <= i < |documents| ==> documents[i].id == i + 1)
    && (forall i, j :: 0 <= i < j < |documents| ==> documents[i].filename != documents[j].filename)
    && (forall k :: 0 <= k < |pages| ==> pages[k].id == k + 1 && 1 <= pages[k].docId <= |documents|)
    && (forall i :: 0 <= i < |documents| ==> Numbered(PagesOf(pages, i + 1), documents[i].pageCount))
  }

  /** The page rows the ingestor inserts for a new document, after `base` existing rows. */
  function NewPages(base: nat, docId: nat, texts: seq<String>): (r: seq<Page>)
    ensures |r| == |texts|
    ensures forall j :: 0 <= j < |texts| ==> r[j] == Page(base + j + 1, docId, j + 1, texts[j])
  {
    seq(|texts|, j requires 0 <= j < |texts| => Page(base + j + 1, docId, j + 1, texts[j]))
  }

  lemma PagesOfAppend(a: seq<Page>, b: seq<Page>, docId: nat)
    ensures PagesOf(a + b, docId) == PagesOf(a, docId) + PagesOf(b, docId)
  {
    FilterConcat(a, b, (p: Page) => p.docId == docId);
  }

  /** The pages of a document that owns none of `pages`. */
  lemma PagesOfNone(pages: seq<Page>, docId: nat)
    requires forall k :: 0 <= k < |pages| ==> pages[k].docId != docId
    ensures PagesOf(pages, docId) == []
  {
    FilterNone(pages, (p: Page) => p.docId == docId);
  }

  /** The pages of a document that owns all of `pages`. */
  lemma {:induction false} PagesOfAll(pages: seq<Page>, docId: nat)
    requires forall k :: 0 <= k < |pages| ==> pages[k].docId == docId
    ensures PagesOf(pages, docId) == pages
    decreases |pages|
  {
    if pages != [] {
      PagesOfAll(pages[1..], docId);
      assert pages == [pages[0]] + pages[1..];
    }
  }

  /** Appending a new document with a fresh filename and its pages keeps the tables consistent. */
  lemma AppendDocumentConsistent(documents: seq<Document>, pages: seq<Page>, doc: Document, texts: seq<String>)
    requires Consistent(documents, pages)
    requires doc.id == |documents| + 1 && doc.pageCount == |texts|
    requires forall i :: 0 <= i < |documents| ==> documents[i].filename != doc.filename
    ensures Consistent(documents + [doc], pages + NewPages(|pages|, doc.id, texts))
  {
    var docs' := documents + [doc];
    var added := NewPages(|pages|, doc.id, texts);
    var pages' := pages + added;
    forall i | 0 <= i < |docs'| ensures Numbered(PagesOf(pages', i + 1), docs'[i].pageCount) {
      PagesOfAppend(pages, added, i + 1);
      if i < |documents| {
        PagesOfNone(added, i + 1);
        assert PagesOf(pages', i + 1) == PagesOf(pages, i + 1);
      } else {
        PagesOfNone(pages, i + 1);
        PagesOfAll(added, i + 1);
        assert PagesOf(pages', i + 1) == added;
      }
    }
  }

  /** `pages2` is `pages` with only page texts changed. */
  predicate SameLayout(pages: seq<Page>, pages2: seq<Page>) {
    |pages2| == |pages| && forall k :: 0 <= k < |pages| ==> pages2[k] == pages[k].(text := pages2[k].text)
  }

  lemma {:induction false} PagesOfSameLayout(pages: seq<Page>, pages2: seq<Page>, docId: nat)
    requires SameLayout(pages, pages2)
    ensures SameLayout(PagesOf(pages, docId), PagesOf(pages2, docId))
    decreases |pages|
  {
    if pages != [] {
      PagesOfSameLayout(pages[1..], pages2[1..], docId);
      assert pages == [pages[0]] + pages[1..];
      assert pages2 == [pages2[0]] + pages2[1..];
      PagesOfAppend([pages[0]], pages[1..], docId);
      PagesOfAppend([pages2[0]], pages2[1..], docId);
      assert PagesOf([pages[0]][1..], docId) == [] && PagesOf([pages2[0]][1..], docId) == [];
    }
  }

  /** Rewriting page texts keeps the tables consistent. */
  lemma SameLayoutConsistent(documents: seq<Document>, pages: seq<Page>, pages2: seq<Page>)
    requires Consistent(documents, pages) && SameLayout(pages, pages2)
    ensures Consistent(documents, pages2)
  {
    forall i | 0 <= i < |documents| ensures Numbered(PagesOf(pages2, i + 1), documents[i].pageCount) {
      PagesOfSameLayout(pages, pages2, i + 1);
    }
  }

  /** `docs2` is `docs` with only the full texts changed. */
  predicate SameDocuments(docs: seq<Document>, docs2: seq<Document>) {
    |docs2| == |docs| && forall i :: 0 <= i < |docs| ==> docs2[i] == docs[i].(fullText := docs2[i].fullText)
  }

  /** Rewriting full texts keeps the tables consistent. */
  lemma SameDocumentsConsistent(documents: seq<Document>, docs2: seq<Document>, pages: seq<Page>)
    requires Consistent(documents, pages) && SameDocuments(documents, docs2)
    ensures Consistent(docs2, pages)
  {
    forall i, j | 0 <= i < j < |docs2| ensures docs2[i].filename != docs2[j].filename {
      assert docs2[i].filename == documents[i].filename && docs2[j].filename == documents[j].filename;
    }
  }

  /** The filename a page row joins to (`JOIN documents d ON d.id = p.doc_id`), with ids counted from 1. */
  function FilenameOf(documents: seq<Document>, docId: nat): String {
    if 1 <= docId <= |documents| then documents[docId - 1].filename else ""
  }

  /** A row of `documents` has this filename. */
  predicate Named(documents: seq<Document>, filename: String) {
    exists i :: 0 <= i < |documents| && documents[i].filename == filename
  }

  /** The two tables. */
  class Database {
    var documents: seq<Document>
    var pages: seq<Page>

    predicate Valid()
      reads this
    {
      Consistent(documents, pages)
    }

    /** A new, empty database. */
    constructor ()
      ensures documents == [] && pages == []
      ensures Valid()
    {
      documents := [];
      pages := [];
    }

    /** `SELECT id FROM documents WHERE filename = ?` found a row. */
    predicate HasFilename(filename: String)
      reads this
    {
      Named(documents, filename)
    }
  }
}
