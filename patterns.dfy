/**
 * The condenser's ordered library of boilerplate patterns. Each pattern is a hand-written matcher
 * that returns where the match Python's regular-expression engine finds at a given index ends;
 * `Sub` is `re.sub(pattern, '', text, flags=re.MULTILINE | re.DOTALL)`.
 */
module JunkPatterns {
  import opened Text
  import opened Wrappers

  datatype Pattern =
    | ChainOfCustody      // (?i)chain of custody.*?(?=\n\n|\Z)
    | EvidenceEnvelope    // (?i)evidence envelope.*?(?=\n\n|\Z)
    | Enclosure           // (?i)enclosure:.*?(?=\n\n|\Z)
    | CopyMark            // (?i)(?:original|duplicate|enhanced original)\s*$
    | MediaList           // (?i)magnetic tape.*?computer disk.*?printed material
    | InterceptNotice     // (?i)court authorized intercept.*?(?=\n\n|\Z)
    | PrintNotice         // (?i)please consider the environment before printing.*
    | ConfidentialNotice  // (?i)this communication may contain confidential.*?(?=\n\n|\Z)
    | EmailNotice         // (?i)this e-?mail (?:and any|is|may).*?(?=\n\n|\Z)
    | RecipientNotice     // (?i)if you (?:are not|have received) the intended recipient.*?(?=\n\n|\Z)
    | Disclaimer          // (?i)disclaimer:.*?(?=\n\n|\Z)
    | PrivilegeNotice     // (?i)privileged.*?attorney.*?client.*?(?=\n\n|\Z)
    | NotScanned          // (?i)item\s+was\s+not\s+scanned\s+description
    | GrandJuryFooter     // (?i)grand jury material.*?criminal procedure
    | FbiNoConclusions    // (?i)this document contains neither recommendations nor conclusions of the fbi.*?(?=\n\n|\Z)
    | FbiProperty         // (?i)it is the property of the fbi.*?(?=\n\n|\Z)
    | ExhibitStamps       // (?:GM_[A-Z]+_\d+\s*)+
    | ImageListing        // (?:[A-Z]+\d+[._]\w+\s*){3,}

  /** The eighteen patterns in the order the condenser applies them. */
  const JunkPatternList: seq<Pattern> := [
    ChainOfCustody, EvidenceEnvelope, Enclosure, CopyMark, MediaList, InterceptNotice,
    PrintNotice, ConfidentialNotice, EmailNotice, RecipientNotice, Disclaimer, PrivilegeNotice,
    NotScanned, GrandJuryFooter, FbiNoConclusions, FbiProperty, ExhibitStamps, ImageListing
  ]

  /** A non-empty literal. */
  type Phrase = s: String | |s| > 0 witness "."

  const ChainLead: Phrase := "chain of custody"
  const EnvelopeLead: Phrase := "evidence envelope"
  const EnclosureLead: Phrase := "enclosure:"
  const MediaLead: Phrase := "magnetic tape"
  const InterceptLead: Phrase := "court authorized intercept"
  const PrintLead: Phrase := "please consider " + "the environment " + "before printing"
  const ConfidentialLead: Phrase := "this communication " + "may contain " + "confidential"
  const EmailLead: Phrase := "this e"
  const RecipientLead: Phrase := "if you "
  const DisclaimerLead: Phrase := "disclaimer:"
  const PrivilegeLead: Phrase := "privileged"
  const NotScannedLead: Phrase := "item"
  const GrandJuryLead: Phrase := "grand jury material"
  const FbiNoConclusionsLead: Phrase := "this document " + "contains neither " + "recommendations " + "nor conclusions " + "of the fbi"
  const FbiPropertyLead: Phrase := "it is the property of the fbi"

  /** The literal every match of a case-insensitive pattern begins with (on the lower-cased text). */
  function Lead(p: Pattern): (r: String)
    ensures |r| == 0 <==> p.CopyMark? || p.ExhibitStamps? || p.ImageListing?
  {
    match p
    case ChainOfCustody => ChainLead
    case EvidenceEnvelope => EnvelopeLead
    case Enclosure => EnclosureLead
    case CopyMark => ""
    case MediaList => MediaLead
    case InterceptNotice => InterceptLead
    case PrintNotice => PrintLead
    case ConfidentialNotice => ConfidentialLead
    case EmailNotice => EmailLead
    case RecipientNotice => RecipientLead
    case Disclaimer => DisclaimerLead
    case PrivilegeNotice => PrivilegeLead
    case NotScanned => NotScannedLead
    case GrandJuryFooter => GrandJuryLead
    case FbiNoConclusions => FbiNoConclusionsLead
    case FbiProperty => FbiPropertyLead
    case ExhibitStamps => ""
    case ImageListing => ""
  }

  /**
   * `.*?(?=\n\n|\Z)` under `re.DOTALL`, lazily: the first index at or after `j` where a blank
   * line starts or the text ends.
   */
  function ToBreak(s: String, j: nat): (q: nat)
    requires j <= |s|
    ensures j <= q <= |s|
    ensures q == |s| || IsAt(s, q, "\n\n")
    ensures forall k :: j <= k < q ==> !IsAt(s, k, "\n\n")
    decreases |s| - j
  {
    if j == |s| || IsAt(s, j, "\n\n") then j else ToBreak(s, j + 1)
  }

  /** `lit.*?(?=\n\n|\Z)` at `i` on the lower-cased text `low` of `s`. */
  function LeadToBreak(s: String, low: String, i: nat, lit: String): (r: Option<nat>)
    requires |low| == |s| && i <= |s| && lit != []
    ensures r.Some? ==> i < r.value <= |s| && IsAt(low, i, lit)
  {
    if IsAt(low, i, lit) then Some(ToBreak(s, i + |lit|)) else None
  }

  /**
   * `\s*$` under `re.MULTILINE` from `j`: the greedy `\s*` backs off to the last place in the
   * whitespace run where a line ends (before a newline, or at the end of the text).
   */
  function LineEndWithin(s: String, j: nat, q: nat): (r: Option<nat>)
    requires j <= q <= |s|
    ensures r.Some? ==> j <= r.value <= q && (r.value == |s| || s[r.value] == '\n')
    ensures r.Some? ==> forall k | r.value < k <= q :: k < |s| && s[k] != '\n'
    ensures r.None? ==> forall k | j <= k <= q :: k < |s| && s[k] != '\n'
    decreases q - j
  {
    if q == |s| || s[q] == '\n' then Some(q)
    else if q == j then None
    else LineEndWithin(s, j, q - 1)
  }

  /** `\s*$` from `j`: the match spans only whitespace, and fails when no line ends inside the run. */
  function SpacesToLineEnd(s: String, j: nat): (r: Option<nat>)
    requires j <= |s|
    ensures r.Some? ==> j <= r.value <= |s| && forall k | j <= k < r.value :: IsSpace(s[k])
    ensures r.Some? ==> r.value == |s| || s[r.value] == '\n'
    ensures r.None? ==> forall k | j <= k <= j + RunOf(s, j, IsSpace) :: k < |s| && s[k] != '\n'
  {
    LineEndWithin(s, j, j + RunOf(s, j, IsSpace))
  }

  /** `lit` at `i` on `low`, then `\s*$`. */
  function CopyMarkAlt(s: String, low: String, i: nat, lit: String): (r: Option<nat>)
    requires |low| == |s| && i <= |s| && lit != []
    ensures r.Some? ==> i < r.value <= |s|
  {
    if IsAt(low, i, lit) then SpacesToLineEnd(s, i + |lit|) else None
  }

  /** The first alternative that matches wins, as in a regular-expression alternation. */
  function OrElse(a: Option<nat>, b: Option<nat>): Option<nat> {
    if a.Some? then a else b
  }

  /** `w0\s+w1\s+...` at `i` on `low`. */
  function SpacedWords(low: String, i: nat, words: seq<String>): (r: Option<nat>)
    requires i <= |low|
    requires forall k :: 0 <= k < |words| ==> words[k] != []
    ensures r.Some? ==> i <= r.value <= |low|
    ensures r.Some? && words != [] ==> i < r.value
    decreases words
  {
    if words == [] then Some(i)
    else if !IsAt(low, i, words[0]) then None
    else if |words| == 1 then Some(i + |words[0]|)
    else
      var j := i + |words[0]|;
      var w := RunOf(low, j, IsSpace);
      if w == 0 then None else SpacedWords(low, j + w, words[1..])
  }

  /** One `GM_[A-Z]+_\d+\s*` at `j`. */
  function StampUnit(s: String, j: nat): (r: Option<nat>)
    requires j <= |s|
    ensures r.Some? ==> j < r.value <= |s|
  {
    if !IsAt(s, j, "GM_") then None
    else
      var u := RunOf(s, j + 3, IsUpper);
      if u == 0 || !IsAt(s, j + 3 + u, "_") then None
      else
        var d := RunOf(s, j + 4 + u, IsDigit);
        if d == 0 then None
        else Some(j + 4 + u + d + RunOf(s, j + 4 + u + d, IsSpace))
  }

  /** `(?:GM_[A-Z]+_\d+\s*)+` from `j`: greedy, as many units as follow one another. */
  function StampRun(s: String, j: nat): (e: nat)
    requires j <= |s|
    ensures j <= e <= |s|
    decreases |s| - j
  {
    match StampUnit(s, j)
    case Some(k) => StampRun(s, k)
    case None => j
  }

  /**
   * `(?:[A-Z]+\d+[._]\w+\s*){3,}` from `i`, having matched `count` units already. The engine
   * backtracks: `\w+` can swallow the letters and digits of the next unit, so each shorter `\w+`
   * is tried in turn until the rest matches. A shorter `\s*` never helps (the next unit cannot
   * start on whitespace), so only the longest is tried.
   */
  function ListingRep(s: String, i: nat, count: nat): (r: Option<nat>)
    requires i <= |s|
    ensures r.Some? ==> i <= r.value <= |s| && (count < 3 ==> i < r.value && IsUpper(s[i]))
    decreases |s| - i, 2, 0
  {
    var more := ListingUnit(s, i, count);
    if more.Some? then more
    else if count >= 3 then Some(i)
    else None
  }

  /** One unit `[A-Z]+\d+[._]\w+\s*` at `i`, followed by the rest of the repetition. */
  function ListingUnit(s: String, i: nat, count: nat): (r: Option<nat>)
    requires i <= |s|
    ensures r.Some? ==> i < r.value <= |s| && IsUpper(s[i])
    decreases |s| - i, 1, 0
  {
    var a := RunOf(s, i, IsUpper);
    if a == 0 then None
    else
      var d := RunOf(s, i + a, IsDigit);
      if d == 0 then None
      else
        var j := i + a + d;
        if j == |s| || (s[j] != '.' && s[j] != '_') then None
        else ListingWord(s, j + 1, RunOf(s, j + 1, IsWordChar), count)
  }

  /** `\w+` from `start` taking `k` characters, then `k - 1`, ..., until the rest of the pattern matches. */
  function ListingWord(s: String, start: nat, k: nat, count: nat): (r: Option<nat>)
    requires start + k <= |s|
    ensures r.Some? ==> start < r.value <= |s|
    decreases |s| - start, 0, k
  {
    if k == 0 then None
    else
      var e := start + k;
      var rest := ListingRep(s, e + RunOf(s, e, IsSpace), count + 1);
      if rest.Some? then rest else ListingWord(s, start, k - 1, count)
  }

  /** Whether the pattern is compiled with `(?i)`. */
  predicate IgnoresCase(p: Pattern) {
    !(p.ExhibitStamps? || p.ImageListing?)
  }

  /** `magnetic tape.*?computer disk.*?printed material` at `i` on `low`. */
  function MediaListAt(low: String, i: nat): (r: Option<nat>)
    requires i <= |low|
    ensures r.Some? ==> i < r.value <= |low| && IsAt(low, i, MediaLead)
  {
    if !IsAt(low, i, MediaLead) then None
    else
      var d := IndexFrom(low, "computer disk", i + 13);
      if d < 0 then None
      else
        var m := IndexFrom(low, "printed material", d + 13);
        if m < 0 then None else Some(m + 16)
  }

  /** `this e-?mail (?:and any|is|may).*?(?=\n\n|\Z)` at `i` on `low`. */
  function EmailNoticeAt(s: String, low: String, i: nat): (r: Option<nat>)
    requires |low| == |s| && i <= |s|
    ensures r.Some? ==> i < r.value <= |s| && IsAt(low, i, EmailLead)
  {
    if !IsAt(low, i, EmailLead) then None
    else
      var j := if IsAt(low, i + 6, "-") then i + 7 else i + 6;
      if !IsAt(low, j, "mail ") then None
      else
        var k := j + 5;
        if IsAt(low, k, "and any") then Some(ToBreak(s, k + 7))
        else if IsAt(low, k, "is") then Some(ToBreak(s, k + 2))
        else if IsAt(low, k, "may") then Some(ToBreak(s, k + 3))
        else None
  }

  /** `if you (?:are not|have received) the intended recipient.*?(?=\n\n|\Z)` at `i` on `low`. */
  function RecipientNoticeAt(s: String, low: String, i: nat): (r: Option<nat>)
    requires |low| == |s| && i <= |s|
    ensures r.Some? ==> i < r.value <= |s| && IsAt(low, i, RecipientLead)
  {
    if !IsAt(low, i, RecipientLead) then None
    else
      var j := if IsAt(low, i + 7, "are not") then i + 14
               else if IsAt(low, i + 7, "have received") then i + 20
               else i;
      if j == i || !IsAt(low, j, " the intended recipient") then None
      else Some(ToBreak(s, j + 23))
  }

  /** `privileged.*?attorney.*?client.*?(?=\n\n|\Z)` at `i` on `low`. */
  function PrivilegeNoticeAt(s: String, low: String, i: nat): (r: Option<nat>)
    requires |low| == |s| && i <= |s|
    ensures r.Some? ==> i < r.value <= |s| && IsAt(low, i, PrivilegeLead)
  {
    if !IsAt(low, i, PrivilegeLead) then None
    else
      var a := IndexFrom(low, "attorney", i + 10);
      if a < 0 then None
      else
        var c := IndexFrom(low, "client", a + 8);
        if c < 0 then None else Some(ToBreak(s, c + 6))
  }

  /** `grand jury material.*?criminal procedure` at `i` on `low`. */
  function GrandJuryFooterAt(low: String, i: nat): (r: Option<nat>)
    requires i <= |low|
    ensures r.Some? ==> i < r.value <= |low| && IsAt(low, i, GrandJuryLead)
  {
    if !IsAt(low, i, GrandJuryLead) then None
    else
      var c := IndexFrom(low, "criminal procedure", i + 19);
      if c < 0 then None else Some(c + 18)
  }

  /** `item\s+was\s+not\s+scanned\s+description` at `i` on `low`. */
  function NotScannedAt(low: String, i: nat): (r: Option<nat>)
    requires i <= |low|
    ensures r.Some? ==> i < r.value <= |low| && IsAt(low, i, NotScannedLead)
  {
    SpacedWords(low, i, [NotScannedLead, "was", "not", "scanned", "description"])
  }

  /** `(?:original|duplicate|enhanced original)\s*$` at `i` on `low`. */
  function CopyMarkAt(s: String, low: String, i: nat): (r: Option<nat>)
    requires |low| == |s| && i <= |s|
    ensures r.Some? ==> i < r.value <= |s|
  {
    OrElse(CopyMarkAlt(s, low, i, "original"),
      OrElse(CopyMarkAlt(s, low, i, "duplicate"), CopyMarkAlt(s, low, i, "enhanced original")))
  }

  /** `(?:GM_[A-Z]+_\d+\s*)+` at `i`. */
  function ExhibitStampsAt(s: String, i: nat): (r: Option<nat>)
    requires i <= |s|
    ensures r.Some? ==> i < r.value <= |s| && IsAt(s, i, "GM_")
  {
    match StampUnit(s, i)
    case Some(k) => Some(StampRun(s, k))
    case None => None
  }

  /**
   * The end of the match the engine finds when it tries pattern `p` at index `i` of `s`, if any.
   * A match is never empty.
   */
  function MatchAt(p: Pattern, s: String, i: nat): (r: Option<nat>)
    requires i <= |s|
    ensures r.Some? ==> i < r.value <= |s|
  {
    var low := Lower(s);
    if IsMark(p) then MarkAt(p, s, low, i)
    else if IsNotice(p) then NoticeAt(p, s, low, i)
    else BreakAt(p, s, low, i)
  }

  predicate IsBreak(p: Pattern) {
    !IsMark(p) && !IsNotice(p)
  }

  predicate IsMark(p: Pattern) {
    p.CopyMark? || p.MediaList? || p.ExhibitStamps? || p.ImageListing?
  }

  predicate IsNotice(p: Pattern) {
    p.PrintNotice? || p.EmailNotice? || p.RecipientNotice? || p.PrivilegeNotice? || p.NotScanned?
    || p.GrandJuryFooter?
  }

  /** `MatchAt` for the eight patterns that are their literal followed by `.*?(?=\n\n|\Z)`. */
  function BreakAt(p: Pattern, s: String, low: String, i: nat): (r: Option<nat>)
    requires low == Lower(s) && i <= |s| && IsBreak(p)
    ensures r.Some? ==> i < r.value <= |s| && IsAt(low, i, Lead(p))
  {
    LeadToBreak(s, low, i, Lead(p))
  }

  /** `MatchAt` for the four patterns that mark or list material. */
  function MarkAt(p: Pattern, s: String, low: String, i: nat): (r: Option<nat>)
    requires low == Lower(s) && i <= |s| && IsMark(p)
    ensures r.Some? ==> i < r.value <= |s|
  {
    match p
    case CopyMark => CopyMarkAt(s, low, i)
    case MediaList => MediaListAt(low, i)
    case ExhibitStamps => ExhibitStampsAt(s, i)
    case ImageListing => ListingRep(s, i, 0)
  }

  /** `MatchAt` for the six notice patterns that are more than a literal and a break. */
  function NoticeAt(p: Pattern, s: String, low: String, i: nat): (r: Option<nat>)
    requires low == Lower(s) && i <= |s| && IsNotice(p)
    ensures r.Some? ==> i < r.value <= |s|
  {
    match p
    case PrintNotice => if IsAt(low, i, Lead(p)) then Some(|s|) else None
    case EmailNotice => EmailNoticeAt(s, low, i)
    case RecipientNotice => RecipientNoticeAt(s, low, i)
    case PrivilegeNotice => PrivilegeNoticeAt(s, low, i)
    case NotScanned => NotScannedAt(low, i)
    case GrandJuryFooter => GrandJuryFooterAt(low, i)
  }

  /**
   * A match of a case-insensitive pattern starts where its leading literal stands in the
   * lower-cased text; the two case-sensitive patterns start on `GM_` and on a capital letter.
   */
  lemma MatchStartsWithLead(p: Pattern, s: String, i: nat)
    requires i <= |s| && MatchAt(p, s, i).Some?
    ensures IgnoresCase(p) ==> IsAt(Lower(s), i, Lead(p))
    ensures p.ExhibitStamps? ==> IsAt(s, i, "GM_")
    ensures p.ImageListing? ==> i < |s| && IsUpper(s[i])
  {
    var low := Lower(s);
    match p
    case CopyMark =>
    case MediaList => assert MediaListAt(low, i).Some?;
    case EmailNotice => assert EmailNoticeAt(s, low, i).Some?;
    case RecipientNotice => assert RecipientNoticeAt(s, low, i).Some?;
    case PrivilegeNotice => assert PrivilegeNoticeAt(s, low, i).Some?;
    case NotScanned => assert NotScannedAt(low, i).Some?;
    case GrandJuryFooter => assert GrandJuryFooterAt(low, i).Some?;
    case ExhibitStamps => assert ExhibitStampsAt(s, i).Some?;
    case ImageListing => assert ListingRep(s, i, 0).Some?;
    case _ =>
  }

  /** `re.sub(p, '', s)` from index `i` on: scan left to right, deleting each match and resuming after it. */
  function SubFrom(p: Pattern, s: String, i: nat): (r: String)
    requires i <= |s|
    ensures |r| <= |s| - i
    decreases |s| - i
  {
    if i == |s| then []
    else
      match MatchAt(p, s, i)
      case Some(e) => SubFrom(p, s, e)
      case None => [s[i]] + SubFrom(p, s, i + 1)
  }

  /** `re.sub(p, '', s, flags=re.MULTILINE | re.DOTALL)` */
  function Sub(p: Pattern, s: String): (r: String)
    ensures |r| <= |s|
  {
    SubFrom(p, s, 0)
  }

  /** Where a pattern finds no match, deleting its matches leaves the text as it was. */
  lemma {:induction false} SubFromNoMatch(p: Pattern, s: String, i: nat)
    requires i <= |s|
    requires forall j :: i <= j < |s| ==> MatchAt(p, s, j).None?
    ensures SubFrom(p, s, i) == s[i..]
    decreases |s| - i
  {
    if i < |s| {
      SubFromNoMatch(p, s, i + 1);
      assert s[i..] == [s[i]] + s[i + 1..];
    }
  }

  /** A case-insensitive pattern whose leading literal does not occur leaves the text unchanged. */
  lemma SubWithoutLead(p: Pattern, s: String)
    requires IgnoresCase(p) && !Contains(Lower(s), Lead(p))
    ensures Sub(p, s) == s
  {
    forall j | 0 <= j < |s| ensures MatchAt(p, s, j).None? {
      if MatchAt(p, s, j).Some? {
        MatchStartsWithLead(p, s, j);
      }
    }
    SubFromNoMatch(p, s, 0);
  }

  /** `for pat in pats: s = re.sub(pat, '', s, ...)`, in list order. */
  function ApplyAll(s: String, pats: seq<Pattern>): (r: String)
    ensures |r| <= |s|
    decreases |pats|
  {
    if pats == [] then s else Sub(pats[|pats| - 1], ApplyAll(s, pats[..|pats| - 1]))
  }
}
