/**
 * The Python `str` operations the pipeline relies on, over `seq<char>`.
 * Character classes follow Python for whitespace (the `str.isspace()` set, which is also what
 * `strip()`, `split()` and the regular-expression class `\s` use) and are restricted to ASCII
 * for letters, digits, word characters and case mapping.
 */
module Text {

  type String = seq<char>

  /** Python's `str.isspace()`. */
  predicate IsSpace(c: char) {
    var n := c as int;
    (9 <= n <= 13) || (28 <= n <= 32) || n == 0x85 || n == 0xA0 || n == 0x1680
    || (0x2000 <= n <= 0x200A) || n == 0x2028 || n == 0x2029 || n == 0x202F
    || n == 0x205F || n == 0x3000
  }

  predicate IsUpper(c: char) { 'A' <= c <= 'Z' }

  predicate IsLower(c: char) { 'a' <= c <= 'z' }

  predicate IsLetter(c: char) { IsUpper(c) || IsLower(c) }

  predicate IsDigit(c: char) { '0' <= c <= '9' }

  /** The regular-expression class `\w`. */
  predicate IsWordChar(c: char) { IsLetter(c) || IsDigit(c) || c == '_' }

  function LowerChar(c: char): char {
    if IsUpper(c) then (c as int + 32) as char else c
  }

  function UpperChar(c: char): char {
    if IsLower(c) then (c as int - 32) as char else c
  }

  /** `s.lower()` */
  function Lower(s: String): (r: String)
    ensures |r| == |s|
    ensures forall i :: 0 <= i < |s| ==> r[i] == LowerChar(s[i])
  {
    seq(|s|, i requires 0 <= i < |s| => LowerChar(s[i]))
  }

  /** `s.upper()` */
  function Upper(s: String): (r: String)
    ensures |r| == |s|
    ensures forall i :: 0 <= i < |s| ==> r[i] == UpperChar(s[i])
  {
    seq(|s|, i requires 0 <= i < |s| => UpperChar(s[i]))
  }

  lemma LowerConcat(a: String, b: String)
    ensures Lower(a + b) == Lower(a) + Lower(b)
  {
    assert forall i :: 0 <= i < |a| + |b| ==> Lower(a + b)[i] == (Lower(a) + Lower(b))[i];
  }

  /** The number of whitespace characters `s` starts with. */
  function LeadingSpace(s: String): (n: nat)
    ensures n <= |s|
    ensures forall k :: 0 <= k < n ==> IsSpace(s[k])
    ensures n < |s| ==> !IsSpace(s[n])
    decreases |s|
  {
    if s == [] || !IsSpace(s[0]) then 0
    else
      var n := LeadingSpace(s[1..]);
      assert forall k :: 1 <= k < n + 1 ==> s[k] == s[1..][k - 1];
      1 + n
  }

  /** The number of whitespace characters `s` ends with. */
  function TrailingSpace(s: String): (n: nat)
    ensures n <= |s|
    ensures forall k :: |s| - n <= k < |s| ==> IsSpace(s[k])
    ensures n < |s| ==> !IsSpace(s[|s| - n - 1])
    decreases |s|
  {
    if s == [] || !IsSpace(s[|s| - 1]) then 0
    else
      var n := TrailingSpace(s[..|s| - 1]);
      assert forall k :: |s| - n - 1 <= k < |s| - 1 ==> s[k] == s[..|s| - 1][k];
      1 + n
  }

  /** `s.lstrip()`: the suffix left after dropping leading whitespace. */
  function TrimStart(s: String): (r: String)
    ensures r == [] || !IsSpace(r[0])
  {
    s[LeadingSpace(s)..]
  }

  /** `s.rstrip()`: the prefix left after dropping trailing whitespace. */
  function TrimEnd(s: String): (r: String)
    ensures r == [] || !IsSpace(r[|r| - 1])
  {
    s[..|s| - TrailingSpace(s)]
  }

  /** `s.strip()` */
  function Strip(s: String): (r: String)
    ensures |r| <= |s|
    ensures r == [] || (!IsSpace(r[0]) && !IsSpace(r[|r| - 1]))
  {
    var t := TrimStart(s);
    var r := TrimEnd(t);
    assert r != [] ==> r[0] == t[0];
    r
  }

  /** A text strips to nothing exactly when it is all whitespace. */
  lemma StripEmpty(s: String)
    ensures Strip(s) == [] <==> forall k :: 0 <= k < |s| ==> IsSpace(s[k])
  {
    var a := LeadingSpace(s);
    var t := TrimStart(s);
    if a < |s| {
      assert t[0] == s[a];
      assert TrailingSpace(t) < |t|;
    }
  }

  /** A text that neither starts nor ends with whitespace is its own strip. */
  lemma StripTrimmed(s: String)
    requires s == [] || (!IsSpace(s[0]) && !IsSpace(s[|s| - 1]))
    ensures Strip(s) == s
  {
    assert LeadingSpace(s) == 0;
    assert s[0..] == s;
    assert TrailingSpace(s) == 0;
  }

  /** `Strip(s)` is a slice of `s`. */
  lemma StripSlice(s: String) returns (a: nat)
    ensures a + |Strip(s)| <= |s| && Strip(s) == s[a..a + |Strip(s)|]
  {
    a := LeadingSpace(s);
    var t := TrimStart(s);
    var r := Strip(s);
    assert r == t[..|r|];
    assert t[..|r|] == s[a..a + |r|];
  }

  /** Every character of `Strip(s)` is a character of `s`. */
  lemma StripChars(s: String)
    ensures forall c :: c in Strip(s) ==> c in s
  {
    var a := StripSlice(s);
    var r := Strip(s);
    forall c | c in r ensures c in s {
      var k :| 0 <= k < |r| && r[k] == c;
      assert s[a + k] == c;
    }
  }

  /** `pat` occurs in `s` at index `i`. */
  predicate IsAt(s: String, i: int, pat: String) {
    0 <= i && i + |pat| <= |s| && s[i..i + |pat|] == pat
  }

  /** Python's `pat in s`. */
  predicate Contains(s: String, pat: String) {
    exists i | 0 <= i <= |s| :: IsAt(s, i, pat)
  }

  /** A character of `s` occurs in it as a one-character text. */
  lemma ContainsChar(s: String, c: char)
    requires c in s
    ensures Contains(s, [c])
  {
    var i :| 0 <= i < |s| && s[i] == c;
    assert s[i..i + 1] == [c];
    assert IsAt(s, i, [c]);
  }

  /** A one-character text occurs in `s` only where that character does. */
  lemma ContainsCharIff(s: String, c: char)
    ensures Contains(s, [c]) <==> c in s
  {
    if c in s {
      ContainsChar(s, c);
    }
    if Contains(s, [c]) {
      var i :| 0 <= i <= |s| && IsAt(s, i, [c]);
      assert s[i..i + 1][0] == s[i];
    }
  }

  /** `s.find(pat, i)`, with -1 for "absent": the first occurrence at or after `i`. */
  function IndexFrom(s: String, pat: String, i: nat): (r: int)
    requires i <= |s|
    ensures r == -1 || (i <= r && IsAt(s, r, pat))
    ensures forall j :: i <= j && (r == -1 || j < r) ==> !IsAt(s, j, pat)
    decreases |s| - i
  {
    if i + |pat| > |s| then -1
    else if s[i..i + |pat|] == pat then i
    else IndexFrom(s, pat, i + 1)
  }

  /** `s.find(pat)` */
  function IndexOf(s: String, pat: String): (r: int)
    ensures r == -1 || IsAt(s, r, pat)
    ensures forall j :: 0 <= j && (r == -1 || j < r) ==> !IsAt(s, j, pat)
    ensures r == -1 <==> !Contains(s, pat)
  {
    IndexFrom(s, pat, 0)
  }

  /** `s.rfind(pat, 0, i + |pat| - 1)`, with -1 for "absent": the last occurrence starting before `i`. */
  function LastIndexBefore(s: String, pat: String, i: nat): (r: int)
    requires i <= |s|
    ensures r == -1 || (r < i && IsAt(s, r, pat))
    ensures forall j :: r < j < i ==> !IsAt(s, j, pat)
  {
    if i == 0 then -1
    else if IsAt(s, i - 1, pat) then i - 1
    else LastIndexBefore(s, pat, i - 1)
  }

  /** `s.rfind(pat)` for a non-empty `pat`: where `s.rsplit(pat, 1)` cuts. */
  function LastIndexOf(s: String, pat: String): (r: int)
    requires pat != []
    ensures r == -1 || IsAt(s, r, pat)
    ensures forall j :: r < j ==> !IsAt(s, j, pat)
  {
    LastIndexBefore(s, pat, |s|)
  }

  /** `sep.join(parts)` */
  function Join(parts: seq<String>, sep: String): String {
    if |parts| == 0 then []
    else if |parts| == 1 then parts[0]
    else parts[0] + sep + Join(parts[1..], sep)
  }

  /** Joining two non-empty lists is joining each and putting the separator between them. */
  lemma {:induction false} JoinAppend(a: seq<String>, b: seq<String>, sep: String)
    requires a != [] && b != []
    ensures Join(a + b, sep) == Join(a, sep) + sep + Join(b, sep)
    decreases |a|
  {
    if |a| == 1 {
      assert (a + b)[1..] == b;
    } else {
      JoinAppend(a[1..], b, sep);
      assert (a + b)[1..] == a[1..] + b;
    }
  }

  /** Appending one part adds the separator and the part, unless the list was empty. */
  lemma JoinSnoc(a: seq<String>, x: String, sep: String)
    ensures Join(a + [x], sep) == if a == [] then x else Join(a, sep) + sep + x
  {
    if a == [] {
      assert a + [x] == [x];
    } else {
      JoinAppend(a, [x], sep);
    }
  }

  /** Every character of a joined text comes from one of the parts or from the separator. */
  lemma {:induction false} JoinChars(parts: seq<String>, sep: String, c: char)
    requires c in Join(parts, sep)
    ensures c in sep || exists i :: 0 <= i < |parts| && c in parts[i]
    decreases |parts|
  {
    if |parts| == 1 {
      assert c in parts[0];
    } else if |parts| > 1 {
      var tail := Join(parts[1..], sep);
      if c in parts[0] {
      } else if c !in sep {
        assert c in tail;
        JoinChars(parts[1..], sep, c);
        var i :| 0 <= i < |parts[1..]| && c in parts[1..][i];
        assert c in parts[i + 1];
      }
    }
  }

  /** A joined text is at least as long as its first part. */
  lemma JoinFirst(parts: seq<String>, sep: String)
    requires parts != []
    ensures |Join(parts, sep)| >= |parts[0]|
  {
  }

  /** `s.split(sep)` for a non-empty separator: cut at each non-overlapping occurrence, left to right. */
  function Split(s: String, sep: String): (r: seq<String>)
    requires sep != []
    ensures |r| >= 1
    decreases |s|
  {
    var i := IndexOf(s, sep);
    if i < 0 then [s] else [s[..i]] + Split(s[i + |sep|..], sep)
  }

  /** A text without the separator character splits into itself alone. */
  lemma SplitAbsent(s: String, c: char)
    requires c !in s
    ensures Split(s, [c]) == [s]
  {
    ContainsCharIff(s, c);
  }

  /** The first occurrence of a character is the index of its first one-character match. */
  lemma IndexOfChar(s: String, c: char, i: nat)
    requires i < |s| && s[i] == c && c !in s[..i]
    ensures IndexOf(s, [c]) == i
  {
    assert s[i..i + 1] == [c];
    assert IsAt(s, i, [c]);
    forall j | 0 <= j < i ensures !IsAt(s, j, [c]) {
      assert s[j] == s[..i][j];
      assert s[j..j + 1][0] == s[j];
    }
    var r := IndexOf(s, [c]);
    assert r != -1 && !(r < i) && !(r > i);
  }

  /** A text with exactly one separator character splits into the parts around it. */
  lemma SplitOnce(s: String, c: char, i: nat)
    requires i < |s| && s[i] == c && c !in s[..i] && c !in s[i + 1..]
    ensures Split(s, [c]) == [s[..i], s[i + 1..]]
  {
    IndexOfChar(s, c, i);
    SplitAbsent(s[i + 1..], c);
  }

  /** Two texts joined by a character neither contains split back into the two. */
  lemma SplitPair(a: String, b: String, c: char)
    requires c !in a && c !in b
    ensures Split(a + [c] + b, [c]) == [a, b]
  {
    var s := a + [c] + b;
    assert s[..|a|] == a;
    assert s[|a| + 1..] == b;
    SplitOnce(s, c, |a|);
  }

  /** Joining the pieces of a split with the same separator gives back the text. */
  lemma {:induction false} JoinSplit(s: String, sep: String)
    requires sep != []
    ensures Join(Split(s, sep), sep) == s
    decreases |s|
  {
    var i := IndexOf(s, sep);
    if i >= 0 {
      var rest := s[i + |sep|..];
      var tail := Split(rest, sep);
      JoinSplit(rest, sep);
      var parts := [s[..i]] + tail;
      assert Split(s, sep) == parts;
      assert parts[1..] == tail;
      assert Join(parts, sep) == s[..i] + sep + Join(tail, sep);
      assert s == s[..i] + sep + rest;
    }
  }

  /** No piece of a split contains the separator. */
  lemma {:induction false} SplitPiecesFree(s: String, sep: String)
    requires sep != []
    ensures forall k :: 0 <= k < |Split(s, sep)| ==> !Contains(Split(s, sep)[k], sep)
    decreases |s|
  {
    var i := IndexOf(s, sep);
    if i >= 0 {
      var rest := s[i + |sep|..];
      SplitPiecesFree(rest, sep);
      var head := s[..i];
      forall j | 0 <= j <= |head| ensures !IsAt(head, j, sep) {
        if IsAt(head, j, sep) {
          assert head[j..j + |sep|] == s[j..j + |sep|];
          assert IsAt(s, j, sep);
        }
      }
    }
  }

  /** `s.replace(target, repl)` */
  function Replace(s: String, target: String, repl: String): String
    requires target != []
  {
    Join(Split(s, target), repl)
  }

  /** `s.count(pat)`: the number of non-overlapping occurrences, left to right. */
  function CountOcc(s: String, pat: String): (r: nat)
    requires pat != []
    ensures r == 0 <==> !Contains(s, pat)
    ensures r <= |s|
    decreases |s|
  {
    var i := IndexOf(s, pat);
    if i < 0 then 0 else 1 + CountOcc(s[i + |pat|..], pat)
  }

  /** Length of the longest prefix of `s` without whitespace. */
  function SpanNonSpace(s: String): (n: nat)
    ensures n <= |s|
    ensures forall k :: 0 <= k < n ==> !IsSpace(s[k])
    ensures n < |s| ==> IsSpace(s[n])
  {
    if s == [] || IsSpace(s[0]) then 0 else 1 + SpanNonSpace(s[1..])
  }

  /** `s.split()`: the maximal runs of non-whitespace characters, in order. */
  function Words(s: String): (r: seq<String>)
    ensures r == [] <==> TrimStart(s) == []
    decreases |s|
  {
    var t := TrimStart(s);
    if t == [] then []
    else
      var n := SpanNonSpace(t);
      [t[..n]] + Words(t[n..])
  }

  /** The text has a `\w` character. */
  predicate HasWordChar(s: String) {
    exists k | 0 <= k < |s| :: IsWordChar(s[k])
  }

  lemma HasWordCharConcat(a: String, b: String)
    ensures HasWordChar(a + b) <==> HasWordChar(a) || HasWordChar(b)
  {
    var ab := a + b;
    if HasWordChar(ab) {
      var k :| 0 <= k < |ab| && IsWordChar(ab[k]);
      if k < |a| {
        assert a[k] == ab[k];
      } else {
        assert b[k - |a|] == ab[k];
      }
    }
    if HasWordChar(a) {
      var k :| 0 <= k < |a| && IsWordChar(a[k]);
      assert ab[k] == a[k];
    }
    if HasWordChar(b) {
      var k :| 0 <= k < |b| && IsWordChar(b[k]);
      assert ab[|a| + k] == b[k];
    }
  }

  /** Leading whitespace holds no word character. */
  lemma TrimStartWordChar(s: String)
    ensures HasWordChar(TrimStart(s)) <==> HasWordChar(s)
  {
    var a := LeadingSpace(s);
    assert s == s[..a] + TrimStart(s);
    HasWordCharConcat(s[..a], TrimStart(s));
    assert !HasWordChar(s[..a]) by {
      forall k | 0 <= k < a ensures !IsWordChar(s[..a][k]) {
        assert IsSpace(s[k]);
      }
    }
  }

  /** Some text of `ws` has a word character. */
  predicate SomeWordChar(ws: seq<String>) {
    exists i | 0 <= i < |ws| :: HasWordChar(ws[i])
  }

  lemma SomeWordCharCons(w: String, ws: seq<String>)
    ensures SomeWordChar([w] + ws) <==> HasWordChar(w) || SomeWordChar(ws)
  {
    var all := [w] + ws;
    if SomeWordChar(all) {
      var i :| 0 <= i < |all| && HasWordChar(all[i]);
      if i > 0 {
        assert all[i] == ws[i - 1];
      }
    }
    if SomeWordChar(ws) {
      var i :| 0 <= i < |ws| && HasWordChar(ws[i]);
      assert all[i + 1] == ws[i];
    }
    if HasWordChar(w) {
      assert HasWordChar(all[0]);
    }
  }

  lemma SomeWordCharSnoc(ws: seq<String>, w: String)
    ensures SomeWordChar(ws + [w]) <==> SomeWordChar(ws) || HasWordChar(w)
  {
    var all := ws + [w];
    if SomeWordChar(all) {
      var i :| 0 <= i < |all| && HasWordChar(all[i]);
      if i < |ws| {
        assert all[i] == ws[i];
      }
    }
    if SomeWordChar(ws) {
      var i :| 0 <= i < |ws| && HasWordChar(ws[i]);
      assert all[i] == ws[i];
    }
    if HasWordChar(w) {
      assert HasWordChar(all[|ws|]);
    }
  }

  /** Whitespace is not a word character, so `split()` keeps every word character in some word. */
  lemma {:induction false} WordsWordChar(s: String)
    ensures SomeWordChar(Words(s)) <==> HasWordChar(s)
    decreases |s|
  {
    var t := TrimStart(s);
    TrimStartWordChar(s);
    if t != [] {
      var n := SpanNonSpace(t);
      var w := t[..n];
      var rest := t[n..];
      assert t == w + rest;
      HasWordCharConcat(w, rest);
      WordsWordChar(rest);
      SomeWordCharCons(w, Words(rest));
    }
  }

  /** Length of the run of characters of class `inClass` that starts at `j`. */
  function RunOf(s: String, j: nat, inClass: char -> bool): (n: nat)
    requires j <= |s|
    ensures j + n <= |s|
    ensures forall k :: j <= k < j + n ==> inClass(s[k])
    ensures j + n < |s| ==> !inClass(s[j + n])
    decreases |s| - j
  {
    if j == |s| || !inClass(s[j]) then 0 else 1 + RunOf(s, j + 1, inClass)
  }

  /** Length of the run of newlines that starts `s`. */
  function NewlineRun(s: String): (n: nat)
    ensures n <= |s|
    ensures forall k :: 0 <= k < n ==> s[k] == '\n'
    ensures n < |s| ==> s[n] != '\n'
  {
    if s == [] || s[0] != '\n' then 0 else 1 + NewlineRun(s[1..])
  }

  /** `re.sub(r'\n{3,}', '\n\n', s)`: every run of three or more newlines becomes exactly two. */
  function CollapseNewlines(s: String): (r: String)
    ensures |r| <= |s|
    ensures r != [] ==> s != [] && (r[0] == '\n' <==> s[0] == '\n')
    decreases |s|
  {
    if s == [] then []
    else if s[0] != '\n' then [s[0]] + CollapseNewlines(s[1..])
    else
      var n := NewlineRun(s);
      (if n >= 3 then "\n\n" else s[..n]) + CollapseNewlines(s[n..])
  }

  /** Three newlines in a row at `i`. */
  predicate TripleAt(s: String, i: int) {
    0 <= i && i + 2 < |s| && s[i] == '\n' && s[i + 1] == '\n' && s[i + 2] == '\n'
  }

  /** No three consecutive newlines anywhere. */
  predicate NoTripleNewline(s: String) {
    forall i | 0 <= i < |s| :: !TripleAt(s, i)
  }

  lemma NoTripleNewlineIff(s: String)
    ensures NoTripleNewline(s) <==> !Contains(s, "\n\n\n")
  {
    if !NoTripleNewline(s) {
      var i :| 0 <= i < |s| && TripleAt(s, i);
      assert s[i..i + 3] == "\n\n\n";
      assert IsAt(s, i, "\n\n\n");
    }
    if Contains(s, "\n\n\n") {
      var i :| 0 <= i <= |s| && IsAt(s, i, "\n\n\n");
      assert s[i..i + 3][0] == s[i] && s[i..i + 3][1] == s[i + 1] && s[i..i + 3][2] == s[i + 2];
      assert TripleAt(s, i);
    }
  }

  /** Joining two texts without three newlines creates none when the seam is not two newlines. */
  lemma NoTripleNewlineAppend(a: String, b: String)
    requires NoTripleNewline(a) && NoTripleNewline(b)
    requires a == [] || b == [] || a[|a| - 1] != '\n' || b[0] != '\n'
    ensures NoTripleNewline(a + b)
  {
    var ab := a + b;
    forall i | 0 <= i < |ab| ensures !TripleAt(ab, i) {
      if i + 2 < |a| {
        assert !TripleAt(a, i);
      } else if i >= |a| {
        assert !TripleAt(b, i - |a|);
      } else if |b| > 0 {
        assert ab[|a| - 1] == a[|a| - 1] && ab[|a|] == b[0];
      }
    }
  }

  /** A slice of a text without three newlines in a row has none either. */
  lemma NoTripleNewlineSlice(s: String, a: nat, b: nat)
    requires a <= b <= |s| && NoTripleNewline(s)
    ensures NoTripleNewline(s[a..b])
  {
    forall i | TripleAt(s[a..b], i) ensures TripleAt(s, a + i) {
    }
  }

  lemma StripNoTriple(s: String)
    requires NoTripleNewline(s)
    ensures NoTripleNewline(Strip(s))
  {
    var a := StripSlice(s);
    NoTripleNewlineSlice(s, a, a + |Strip(s)|);
  }

  /** After collapsing, no run of three newlines remains. */
  lemma {:induction false} CollapseNoTriple(s: String)
    ensures NoTripleNewline(CollapseNewlines(s))
    decreases |s|
  {
    if s == [] {
    } else if s[0] != '\n' {
      CollapseNoTriple(s[1..]);
      NoTripleNewlineAppend([s[0]], CollapseNewlines(s[1..]));
    } else {
      var n := NewlineRun(s);
      var head := if n >= 3 then "\n\n" else s[..n];
      CollapseNoTriple(s[n..]);
      var tail := CollapseNewlines(s[n..]);
      assert tail != [] ==> tail[0] != '\n';
      assert NoTripleNewline(head);
      NoTripleNewlineAppend(head, tail);
    }
  }

  function Take<T>(s: seq<T>, n: nat): (r: seq<T>)
    ensures |r| <= n && |r| <= |s| && r == s[..|r|]
    ensures |s| <= n ==> r == s
  {
    if |s| <= n then s else s[..n]
  }
}
