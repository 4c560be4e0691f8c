/**
 * The first-pass classifier: an ordered cascade of marker checks that assigns a document type
 * and an interest score to a document's full text.
 */
module Classifier {
  import opened Text
  import opened Wrappers

  datatype Classification = Classification(docType: String, score: int)

  /** Every type the classifier can return. */
  const DocTypes: set<String> := {
    "empty", "scan_garbage", "email", "deposition", "law_enforcement", "legal",
    "phone_records", "file_listing", "evidence_list", "minimal", "document", "other"
  }

  /** The regular-expression anchor `\b` in front of a word character at `i`. */
  predicate WordStart(s: String, i: int) {
    0 <= i <= |s| && (i == 0 || !IsWordChar(s[i - 1]))
  }

  /** The anchor `^` under `re.MULTILINE`. */
  predicate LineStart(s: String, i: int) {
    0 <= i <= |s| && (i == 0 || s[i - 1] == '\n')
  }

  /** One of the literal alternatives `lits` occurs at `i`. */
  predicate AnyAt(s: String, i: int, lits: seq<String>) {
    exists k | 0 <= k < |lits| :: IsAt(s, i, lits[k])
  }

  /** `re.search(r'(l1|l2|...)', s)` for literal alternatives. */
  predicate SearchAny(s: String, lits: seq<String>) {
    exists k | 0 <= k < |lits| :: Contains(s, lits[k])
  }

  /** `re.search(r'\b(l1|l2|...)', s)` for literals that begin with a word character. */
  predicate SearchWordStart(s: String, lits: seq<String>) {
    exists i | 0 <= i <= |s| :: WordStart(s, i) && AnyAt(s, i, lits)
  }

  /** `re.search(r'^(l1|l2|...)', s, re.MULTILINE)` */
  predicate SearchLineStart(s: String, lits: seq<String>) {
    exists i | 0 <= i <= |s| :: LineStart(s, i) && AnyAt(s, i, lits)
  }

  /** `Q\.\s` (for `c == 'Q'`) or `A\.\s` at `i`. */
  predicate DialogueAt(s: String, i: int, c: char) {
    0 <= i && i + 3 <= |s| && s[i] == c && s[i + 1] == '.' && IsSpace(s[i + 2])
  }

  /** Python's `sum(1 for c in s if c.isalpha())`, over ASCII letters. */
  function CountLetters(s: String): (n: nat)
    ensures n <= |s|
  {
    if s == [] then 0 else (if IsLetter(s[0]) then 1 else 0) + CountLetters(s[1..])
  }

  /** How many of `names` occur in `s`. */
  function NameHits(s: String, names: seq<String>): (n: nat)
    ensures n <= |names|
  {
    if names == [] then 0 else (if Contains(s, names[0]) then 1 else 0) + NameHits(s, names[1..])
  }

  const EmailHeaders: seq<String> := ["from:", "sent:", "to:", "subject:", "date:"]
  const DepositionWords: seq<String> := ["deposition", "testimony", "grand jury", "WITNESS", "sworn"]
  const LawWords: seq<String> :=
    ["fbi", "case number", "case summary", "investigation", "indicted", "arrest", "convicted", "bureau"]
  const LegalWords: seq<String> :=
    ["court", "motion", "order", "plaintiff", "defendant", "docket", "filed", "judge", "verdict", "sentence"]
  const PhoneWords: seq<String> := ["fax activity", "call detail", "call log"]
  const EvidenceWords: seq<String> := ["evidence", "property", "contents", "item quantity"]
  const KeyNames: seq<String> := [
    "epstein", "maxwell", "ghislaine", "prince andrew", "giuffre", "roberts",
    "dershowitz", "clinton", "trump", "black", "wexner", "brunel", "dubin"
  ]

  /** The deposition rule's pattern, alternatives in the order the source lists them. */
  predicate DepositionMarker(lower: String) {
    || SearchWordStart(lower, DepositionWords)
    || exists i | 0 <= i <= |lower| :: WordStart(lower, i) && (DialogueAt(lower, i, 'Q') || DialogueAt(lower, i, 'A'))
  }

  /** No newline in `s[a..b]`: the span that `.*` can cover without `re.DOTALL`. */
  predicate NoNewline(s: String, a: int, b: int)
    requires 0 <= a <= b <= |s|
  {
    forall k | a <= k < b :: s[k] != '\n'
  }

  /** `phone.*record` starting at `i`. */
  predicate PhoneRecordAt(s: String, i: int) {
    IsAt(s, i, "phone")
    && exists j | i + 5 <= j <= |s| :: IsAt(s, j, "record") && NoNewline(s, i + 5, j)
  }

  predicate PhoneMarker(lower: String) {
    SearchAny(lower, PhoneWords) || exists i | 0 <= i <= |lower| :: PhoneRecordAt(lower, i)
  }

  predicate FileListing(lower: String) {
    CountOcc(lower, ".tif") > 3 || CountOcc(lower, ".jpg") > 3 || CountOcc(lower, ".pdf") > 5
  }

  /** What each rule of the cascade sees in a text that is long and literate enough to be scored. */
  datatype Signals = Signals(
    email: bool, deposition: bool, law: bool, legal: bool, phone: bool, files: bool,
    evidence: bool, nameHits: nat, length: nat)

  function ReadSignals(stripped: String): Signals {
    var lower := Lower(stripped);
    Signals(
      SearchLineStart(lower, EmailHeaders), DepositionMarker(lower), SearchWordStart(lower, LawWords),
      SearchWordStart(lower, LegalWords), PhoneMarker(lower), FileListing(lower),
      SearchAny(lower, EvidenceWords), NameHits(lower, KeyNames), |stripped|)
  }

  /** The score the marker rules leave: the forcing rules assign outright, the others raise by `max`. */
  function RuleScore(sig: Signals): int {
    if sig.evidence then 30
    else if sig.files then 10
    else if sig.phone then 20
    else if sig.law then 80
    else if sig.deposition then 70
    else if sig.email then 60
    else if sig.legal then 50
    else 0
  }

  /** The type the cascade settles on: the last forcing rule that fires wins. */
  function RuleType(sig: Signals, score: int): String {
    if sig.evidence then "evidence_list"
    else if sig.files then "file_listing"
    else if sig.phone then "phone_records"
    else if sig.law then "law_enforcement"
    else if sig.email then "email"
    else if sig.deposition then "deposition"
    else if sig.legal then "legal"
    else if score >= 20 then "other"
    else if sig.length < 100 then "minimal"
    else "document"
  }

  function Max(a: int, b: int): int { if a >= b then a else b }

  function Min(a: int, b: int): int { if a <= b then a else b }

  function TextOrEmpty(text: Option<String>): String {
    if text.Some? then text.value else ""
  }

  /** Long enough (20 characters after stripping) and at least 30% letters. */
  predicate Scorable(stripped: String) {
    |stripped| >= 20 && CountLetters(stripped) * 10 >= 3 * |stripped|
  }

  /**
   * The marker rules of `classify`, in the source's order, each rebinding the type and the score;
   * then the name boost, the length bonus, the cap at 100 and the minimal/document fallback.
   */
  function Cascade(sig: Signals): (r: Classification)
    ensures r.docType in DocTypes
    ensures 0 <= r.score <= 100
    ensures var bonus := (if sig.length > 1000 then 10 else 0) + (if sig.length > 5000 then 10 else 0);
      r.score == Min(RuleScore(sig) + 10 * sig.nameHits + bonus, 100)
    ensures r.docType == RuleType(sig, r.score)
  {
    var type1 := if sig.email then "email" else "other";
    var score1 := if sig.email then 60 else 0;
    var type2 := if sig.deposition && type1 == "other" then "deposition" else type1;
    var score2 := if sig.deposition then Max(score1, 70) else score1;
    var type3 := if sig.law then "law_enforcement" else type2;
    var score3 := if sig.law then Max(score2, 80) else score2;
    var type4 := if sig.legal && type3 == "other" then "legal" else type3;
    var score4 := if sig.legal then Max(score3, 50) else score3;
    var type5 := if sig.phone then "phone_records" else type4;
    var score5 := if sig.phone then 20 else score4;
    var type6 := if sig.files then "file_listing" else type5;
    var score6 := if sig.files then 10 else score5;
    var type7 := if sig.evidence then "evidence_list" else type6;
    var score7 := if sig.evidence then 30 else score6;
    var score8 := score7 + sig.nameHits * 10;
    var score9 := score8 + (if sig.length > 1000 then 10 else 0);
    var score10 := score9 + (if sig.length > 5000 then 10 else 0);
    var score := Min(score10, 100);
    if type7 == "other" && score < 20 then
      if sig.length < 100 then Classification("minimal", score) else Classification("document", score)
    else Classification(type7, score)
  }

  /**
   * `classify(text, page_count)`. `None` reads as the empty text; `page_count` is unused.
   * Short texts are "empty" and texts under 30% letters are "scan_garbage", both with score 0
   * and before any other rule; everything else goes through the cascade.
   */
  function Classify(text: Option<String>, pageCount: int): (r: Classification)
    ensures r.docType in DocTypes
    ensures 0 <= r.score <= 100
    ensures |Strip(TextOrEmpty(text))| < 20 ==> r == Classification("empty", 0)
    ensures var s := Strip(TextOrEmpty(text));
      |s| >= 20 && !Scorable(s) ==> r == Classification("scan_garbage", 0)
    ensures var s := Strip(TextOrEmpty(text));
      Scorable(s) ==> r == Cascade(ReadSignals(s))
  {
    var stripped := Strip(TextOrEmpty(text));
    var charCount := |stripped|;
    if charCount < 20 then Classification("empty", 0)
    else if CountLetters(stripped) * 10 < 3 * charCount then Classification("scan_garbage", 0)
    else Cascade(ReadSignals(stripped))
  }

  /**
   * The `Q\.\s`, `A\.\s` and `WITNESS` alternatives of the deposition rule are matched against
   * lower-cased text, so they never fire: the rule reduces to its four lower-case words.
   */
  lemma DepositionUpperCaseAlternativesDead(s: String)
    ensures DepositionMarker(Lower(s)) <==> SearchWordStart(Lower(s), ["deposition", "testimony", "grand jury", "sworn"])
  {
    var lower := Lower(s);
    assert forall i :: 0 <= i <= |lower| ==> !DialogueAt(lower, i, 'Q') && !DialogueAt(lower, i, 'A') && !IsAt(lower, i, "WITNESS");
    if DepositionMarker(lower) {
      var i :| 0 <= i <= |lower| && WordStart(lower, i) && AnyAt(lower, i, DepositionWords);
      var k :| 0 <= k < |DepositionWords| && IsAt(lower, i, DepositionWords[k]);
      assert k != 3;
      assert AnyAt(lower, i, ["deposition", "testimony", "grand jury", "sworn"]) by {
        var j := if k < 3 then k else 3;
        assert IsAt(lower, i, ["deposition", "testimony", "grand jury", "sworn"][j]);
      }
    }
    if SearchWordStart(lower, ["deposition", "testimony", "grand jury", "sworn"]) {
      var i :| 0 <= i <= |lower| && WordStart(lower, i) && AnyAt(lower, i, ["deposition", "testimony", "grand jury", "sworn"]);
      var k :| 0 <= k < 4 && IsAt(lower, i, ["deposition", "testimony", "grand jury", "sworn"][k]);
      var j := if k < 3 then k else 4;
      assert IsAt(lower, i, DepositionWords[j]);
      assert AnyAt(lower, i, DepositionWords);
    }
  }

  /**
   * A text with an e-mail header line and none of the later forcing markers is an e-mail
   * scored at least 60.
   */
  lemma EmailHeaderWins(text: String, pageCount: int)
    requires Scorable(Strip(text))
    requires var sig := ReadSignals(Strip(text));
      sig.email && !sig.law && !sig.phone && !sig.files && !sig.evidence
    ensures Classify(Some(text), pageCount).docType == "email"
    ensures Classify(Some(text), pageCount).score >= 60
  {
  }
}
