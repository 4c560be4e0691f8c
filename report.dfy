/**
 * The report stage's data handling: merging the people extracted batch by batch into one entry per
 * person, and the lenient reading of the model's JSON answers. The JSON parser itself is a
 * parameter: `parse(s)` is `Some(v)` when `json.loads(s)` succeeds with `v`.
 */
module Report {
  import opened Text
  import opened Seqs
  import opened Wrappers

  // ---------------------------------------------------------------------------------------------
  // Severities

  const Critical: String := "critical"
  const High: String := "high"
  const Medium: String := "medium"
  const Low: String := "low"

  /** `{"critical": 4, "high": 3, "medium": 2, "low": 1}.get(sev, 0)` */
  function Rank(sev: String): (r: nat)
    ensures r <= 4
    ensures r == 0 <==> sev !in {Critical, High, Medium, Low}
  {
    if sev == Critical then 4
    else if sev == High then 3
    else if sev == Medium then 2
    else if sev == Low then 1
    else 0
  }

  /** The sort key `{"critical": 0, "high": 1, "medium": 2, "low": 3}.get(sev, 4)`. */
  function Bucket(sev: String): (b: nat)
    ensures b <= 4
  {
    if sev == Critical then 0
    else if sev == High then 1
    else if sev == Medium then 2
    else if sev == Low then 3
    else 4
  }

  /** The sort key is the rank read backwards: a higher rank sorts earlier. */
  lemma BucketIsReversedRank(sev: String)
    ensures Bucket(sev) == 4 - Rank(sev)
  {
  }

  // ---------------------------------------------------------------------------------------------
  // Merging people

  /**
   * One extracted person as the model returned it; absent keys are `None`, absent lists empty.
   * Only JSON objects with string fields and string lists are represented: other values, on which
   * the merge raises `AttributeError` or `TypeError`, are outside the model.
   */
  datatype Person = Person(
    name: Option<String>, role: Option<String>, severity: Option<String>,
    allegations: seq<String>, sources: seq<String>)

  /**
   * A merged entry. The lists become sets once two entries are merged, in an order Python does
   * not fix, so they are kept as sets here.
   */
  datatype Entry = Entry(name: String, role: String, severity: String, allegations: set<String>, sources: set<String>)

  /** The `merged` dictionary: its keys in insertion order, and the entry of each key. */
  datatype State = State(keys: seq<String>, entries: map<String, Entry>)

  /** `p["severity"]` raised `KeyError` for the entry under `key`. */
  datatype MergeError = MissingSeverity(key: String)

  function SetOf(s: seq<String>): set<String> {
    set x | x in s
  }

  /** `p.get("name", "").strip()` */
  function NameOf(p: Person): String {
    Strip(if p.name.Some? then p.name.value else "")
  }

  /** The person is merged, not skipped: its stripped name has at least three characters. */
  predicate Counted(p: Person) {
    |NameOf(p)| >= 3
  }

  function KeyOf(p: Person): String {
    Lower(NameOf(p))
  }

  /** `p.get("severity", "low")` */
  function SeverityOf(p: Person): String {
    if p.severity.Some? then p.severity.value else Low
  }

  /** The dictionary's keys are distinct, are exactly its entries' keys, and each is its entry's lower-cased name. */
  predicate Valid(st: State) {
    && (forall i, j :: 0 <= i < j < |st.keys| ==> st.keys[i] != st.keys[j])
    && (forall k | k in st.entries :: k in st.keys)
    && (forall i | 0 <= i < |st.keys| :: st.keys[i] in st.entries)
    && (forall k | k in st.entries :: Lower(st.entries[k].name) == k)
  }

  /** The entry a person starts when its name is new. */
  function Fresh(p: Person): Entry {
    Entry(NameOf(p), if p.role.Some? then p.role.value else "", SeverityOf(p), SetOf(p.allegations), SetOf(p.sources))
  }

  /** Folding a person into an existing entry: the lists are united, and severity and role move up together. */
  function Absorb(e: Entry, p: Person, key: String): Result<Entry, MergeError> {
    var united := e.(allegations := e.allegations + SetOf(p.allegations), sources := e.sources + SetOf(p.sources));
    if Rank(SeverityOf(p)) > Rank(e.severity) then
      if p.severity.None? then Err(MissingSeverity(key))
      else Ok(united.(severity := p.severity.value, role := if p.role.Some? then p.role.value else e.role))
    else Ok(united)
  }

  /** One iteration of the loop in `merge_people`. */
  function Step(st: State, p: Person): Result<State, MergeError> {
    if !Counted(p) then Ok(st)
    else
      var key := KeyOf(p);
      if key in st.entries then
        match Absorb(st.entries[key], p, key)
        case Err(e) => Err(e)
        case Ok(e) => Ok(st.(entries := st.entries[key := e]))
      else Ok(State(st.keys + [key], st.entries[key := Fresh(p)]))
  }

  /** The dictionary after the first `|people|` iterations, or the error that stopped the loop. */
  function Merged(people: seq<Person>): (r: Result<State, MergeError>)
    ensures r.Ok? ==> Valid(r.value)
  {
    if people == [] then Ok(State([], map[]))
    else
      match Merged(people[..|people| - 1])
      case Err(e) => Err(e)
      case Ok(st) => StepValid(st, people[|people| - 1]); Step(st, people[|people| - 1])
  }

  lemma StepValid(st: State, p: Person)
    requires Valid(st)
    ensures Step(st, p).Ok? ==> Valid(Step(st, p).value)
  {
    if Counted(p) && KeyOf(p) !in st.entries {
      var st' := Step(st, p).value;
      assert st'.keys == st.keys + [KeyOf(p)];
      forall i, j | 0 <= i < j < |st'.keys| ensures st'.keys[i] != st'.keys[j] {
        if j == |st.keys| {
          assert st'.keys[i] == st.keys[i];
          assert st.keys[i] in st.entries;
        }
      }
    }
  }

  /** The entries in the dictionary's insertion order: `merged.values()`. */
  function Values(st: State): (r: seq<Entry>)
    requires Valid(st)
    ensures |r| == |st.keys|
    ensures forall i | 0 <= i < |st.keys| :: r[i] == st.entries[st.keys[i]]
  {
    seq(|st.keys|, i requires 0 <= i < |st.keys| => st.entries[st.keys[i]])
  }

  /** `key=lambda x: order.get(x["severity"], 4)` */
  predicate SeverityBefore(a: Entry, b: Entry) {
    Bucket(a.severity) <= Bucket(b.severity)
  }

  /** `merge_people(all_people)` */
  function MergedPeople(people: seq<Person>): Result<seq<Entry>, MergeError> {
    match Merged(people)
    case Err(e) => Err(e)
    case Ok(st) => Ok(SortBy(Values(st), SeverityBefore))
  }

  lemma MergedPrefix(people: seq<Person>, k: nat)
    requires k < |people|
    ensures Merged(people[..k + 1]) ==
      match Merged(people[..k])
      case Err(e) => Err(e)
      case Ok(st) => Step(st, people[k])
  {
    assert people[..k + 1][..k] == people[..k];
  }

  /** Once the loop has stopped with an error, the whole merge ends with that error. */
  lemma {:induction false} MergedErrSticks(people: seq<Person>, k: nat)
    requires k <= |people| && Merged(people[..k]).Err?
    ensures Merged(people) == Merged(people[..k])
    decreases |people| - k
  {
    if k == |people| {
      assert people[..k] == people;
    } else {
      MergedPrefix(people, k);
      MergedErrSticks(people, k + 1);
    }
  }

  /** `merge_people`, one person at a time, updating the dictionary in place. */
  method MergePeople(people: seq<Person>) returns (r: Result<seq<Entry>, MergeError>)
    ensures r == MergedPeople(people)
  {
    var keys: seq<String> := [];
    var merged: map<String, Entry> := map[];
    for k := 0 to |people|
      invariant Merged(people[..k]) == Ok(State(keys, merged))
    {
      MergedPrefix(people, k);
      var p := people[k];
      var name := NameOf(p);
      if |name| >= 3 {
        var key := Lower(name);
        if key in merged {
          var e := merged[key];
          e := e.(allegations := e.allegations + SetOf(p.allegations), sources := e.sources + SetOf(p.sources));
          if Rank(SeverityOf(p)) > Rank(e.severity) {
            if p.severity.None? {
              MergedErrSticks(people, k + 1);
              return Err(MissingSeverity(key));
            }
            e := e.(severity := p.severity.value, role := if p.role.Some? then p.role.value else e.role);
          }
          merged := merged[key := e];
        } else {
          merged := merged[key := Fresh(p)];
          keys := keys + [key];
        }
      }
    }
    assert people[..|people|] == people;
    r := Ok(SortBy(Values(State(keys, merged)), SeverityBefore));
  }

  // ---------------------------------------------------------------------------------------------
  // What the merge promises

  /** The people merged under `key`, in input order. */
  function Contributors(people: seq<Person>, key: String): (r: seq<Person>)
    ensures forall q | q in r :: Counted(q) && KeyOf(q) == key && q in people
  {
    if people == [] then []
    else
      var last := people[|people| - 1];
      Contributors(people[..|people| - 1], key) + (if Counted(last) && KeyOf(last) == key then [last] else [])
  }

  /** The union of the people's allegations. */
  function AllAllegations(ps: seq<Person>): set<String> {
    if ps == [] then {} else AllAllegations(ps[..|ps| - 1]) + SetOf(ps[|ps| - 1].allegations)
  }

  /** The union of the people's sources. */
  function AllSources(ps: seq<Person>): set<String> {
    if ps == [] then {} else AllSources(ps[..|ps| - 1]) + SetOf(ps[|ps| - 1].sources)
  }

  /** The highest rank among the people's severities. */
  function TopRank(ps: seq<Person>): nat {
    if ps == [] then 0
    else
      var r := Rank(SeverityOf(ps[|ps| - 1]));
      var top := TopRank(ps[..|ps| - 1]);
      if r > top then r else top
  }

  /** What one iteration does to the entry under `key`. */
  lemma StepEntry(st: State, p: Person, key: String)
    requires Step(st, p).Ok?
    ensures var after := Step(st, p).value.entries;
      var hit := Counted(p) && KeyOf(p) == key;
      && (key in after <==> key in st.entries || hit)
      && (!hit && key in st.entries ==> after[key] == st.entries[key])
      && (hit && key !in st.entries ==> after[key] == Fresh(p))
      && (hit && key in st.entries ==> Absorb(st.entries[key], p, key) == Ok(after[key]))
  {
  }

  /** The last step of the merge, spelled out for one key. */
  lemma MergedLast(people: seq<Person>, key: String)
    requires people != [] && Merged(people).Ok?
    ensures var init := people[..|people| - 1];
      var last := people[|people| - 1];
      && Merged(init).Ok?
      && Step(Merged(init).value, last) == Merged(people)
      && Contributors(people, key) ==
           Contributors(init, key) + (if Counted(last) && KeyOf(last) == key then [last] else [])
  {
  }

  /** There is an entry under `key` exactly when some counted person has that lower-cased name. */
  lemma {:induction false} MergedKeys(people: seq<Person>, key: String)
    requires Merged(people).Ok?
    ensures key in Merged(people).value.entries <==> Contributors(people, key) != []
    decreases |people|
  {
    if people != [] {
      var init := people[..|people| - 1];
      MergedLast(people, key);
      MergedKeys(init, key);
      StepEntry(Merged(init).value, people[|people| - 1], key);
    }
  }

  /** The person is merged under `key`. */
  predicate Under(p: Person, key: String) {
    Counted(p) && KeyOf(p) == key
  }

  /** Where the first person merged under `key` stands in the input, or `|people|` when there is none. */
  function FirstAt(people: seq<Person>, key: String): (n: nat)
    ensures n <= |people|
    ensures n < |people| ==> Under(people[n], key)
    ensures forall k | 0 <= k < n :: !Under(people[k], key)
  {
    FirstIn(people, (p: Person) => Under(p, key))
  }

  /** One more person leaves an earlier first occurrence in place, or becomes the first one. */
  lemma FirstAtSnoc(init: seq<Person>, last: Person, key: String)
    ensures FirstAt(init + [last], key) ==
      if FirstAt(init, key) < |init| then FirstAt(init, key)
      else if Under(last, key) then |init|
      else |init| + 1
  {
    var ps := init + [last];
    assert forall k | 0 <= k < |init| :: ps[k] == init[k];
    assert ps[|init|] == last;
  }

  /** One iteration appends the person's key to the key order exactly when the key is new. */
  lemma StepKeys(st: State, p: Person)
    requires Step(st, p).Ok?
    ensures Step(st, p).value.keys == if Counted(p) && KeyOf(p) !in st.entries then st.keys + [KeyOf(p)] else st.keys
  {
  }

  /** A key is in the dictionary exactly when someone counted has it. */
  lemma {:induction false} MergedKeyPresent(people: seq<Person>, key: String)
    requires Merged(people).Ok?
    ensures key in Merged(people).value.entries <==> FirstAt(people, key) < |people|
    decreases |people|
  {
    if people != [] {
      var init, last := people[..|people| - 1], people[|people| - 1];
      assert people == init + [last];
      MergedLast(people, key);
      MergedKeyPresent(init, key);
      StepEntry(Merged(init).value, last, key);
      FirstAtSnoc(init, last, key);
    }
  }

  /** One more person keeps the key order in first-appearance order, given that it was before. */
  lemma KeyOrderPair(init: seq<Person>, last: Person, i: nat, j: nat)
    requires Merged(init).Ok? && Step(Merged(init).value, last).Ok?
    requires var keys := Merged(init).value.keys;
      forall i', j' | 0 <= i' < j' < |keys| :: FirstAt(init, keys[i']) < FirstAt(init, keys[j'])
    requires i < j < |Step(Merged(init).value, last).value.keys|
    ensures var keys := Step(Merged(init).value, last).value.keys;
      FirstAt(init + [last], keys[i]) < FirstAt(init + [last], keys[j])
  {
    var st0 := Merged(init).value;
    var keys := Step(st0, last).value.keys;
    StepKeys(st0, last);
    var a, b := keys[i], keys[j];
    assert a == st0.keys[i] && a in st0.entries;
    MergedKeyPresent(init, a);
    FirstAtSnoc(init, last, a);
    FirstAtSnoc(init, last, b);
    MergedKeyPresent(init, b);
    if j < |st0.keys| {
      assert b == st0.keys[j];
    } else {
      assert Under(last, b) && b !in st0.entries;
    }
  }

  /** The dictionary's keys are in the order in which the first person with each key appears. */
  lemma {:induction false} MergedKeyOrder(people: seq<Person>)
    requires Merged(people).Ok?
    ensures var keys := Merged(people).value.keys;
      forall i, j | 0 <= i < j < |keys| :: FirstAt(people, keys[i]) < FirstAt(people, keys[j])
    decreases |people|
  {
    if people != [] {
      var init, last := people[..|people| - 1], people[|people| - 1];
      assert people == init + [last];
      MergedLast(people, "");
      MergedKeyOrder(init);
      var keys := Merged(people).value.keys;
      forall i, j | 0 <= i < j < |keys| ensures FirstAt(people, keys[i]) < FirstAt(people, keys[j]) {
        KeyOrderPair(init, last, i, j);
      }
    }
  }

  /** The entry keeps the first-seen spelling of the name. */
  lemma {:induction false} MergedName(people: seq<Person>, key: String)
    requires Merged(people).Ok? && key in Merged(people).value.entries
    ensures Contributors(people, key) != []
    ensures Merged(people).value.entries[key].name == NameOf(Contributors(people, key)[0])
    decreases |people|
  {
    MergedKeys(people, key);
    var init := people[..|people| - 1];
    var last := people[|people| - 1];
    MergedLast(people, key);
    StepEntry(Merged(init).value, last, key);
    MergedKeys(init, key);
    if key in Merged(init).value.entries {
      MergedName(init, key);
    }
  }

  /** Absorbing a person unites the lists and keeps the higher of the two ranks. */
  lemma AbsorbFacts(e: Entry, p: Person, key: String)
    requires Absorb(e, p, key).Ok?
    ensures Absorb(e, p, key).value.name == e.name
    ensures Absorb(e, p, key).value.allegations == e.allegations + SetOf(p.allegations)
    ensures Absorb(e, p, key).value.sources == e.sources + SetOf(p.sources)
    ensures var r := Rank(SeverityOf(p));
      Rank(Absorb(e, p, key).value.severity) == if r > Rank(e.severity) then r else Rank(e.severity)
  {
  }

  /** The unions and the top rank of a list grown by one person. */
  lemma UnionsSnoc(ps: seq<Person>, q: Person)
    ensures AllAllegations(ps + [q]) == AllAllegations(ps) + SetOf(q.allegations)
    ensures AllSources(ps + [q]) == AllSources(ps) + SetOf(q.sources)
    ensures var r := Rank(SeverityOf(q));
      TopRank(ps + [q]) == if r > TopRank(ps) then r else TopRank(ps)
  {
    assert (ps + [q])[..|ps|] == ps;
  }

  /** The entry's allegations, sources and severity rank, accumulated over everyone merged under its key. */
  lemma {:induction false} MergedAccumulates(people: seq<Person>, key: String)
    requires Merged(people).Ok? && key in Merged(people).value.entries
    ensures var e := Merged(people).value.entries[key];
      var cs := Contributors(people, key);
      && e.allegations == AllAllegations(cs)
      && e.sources == AllSources(cs)
      && Rank(e.severity) == TopRank(cs)
    decreases |people|
  {
    var init := people[..|people| - 1];
    var last := people[|people| - 1];
    MergedLast(people, key);
    var st := Merged(init).value;
    var e := Merged(people).value.entries[key];
    var before := Contributors(init, key);
    StepEntry(st, last, key);
    MergedKeys(init, key);
    if key in st.entries {
      MergedAccumulates(init, key);
    }
    if Counted(last) && KeyOf(last) == key {
      assert Contributors(people, key) == before + [last];
      UnionsSnoc(before, last);
      if key in st.entries {
        AbsorbFacts(st.entries[key], last, key);
      } else {
        assert before == [];
      }
    } else {
      assert Contributors(people, key) == before;
    }
  }

  /** A merged person's severity rank never falls, and the role only changes when the rank strictly rises. */
  lemma StepKeepsEntries(st: State, p: Person)
    requires Step(st, p).Ok?
    ensures forall k | k in st.entries ::
      var before := st.entries[k];
      var after := Step(st, p).value.entries[k];
      && after.name == before.name
      && Rank(after.severity) >= Rank(before.severity)
      && (after.role != before.role ==> Rank(after.severity) > Rank(before.severity))
      && before.allegations <= after.allegations
      && before.sources <= after.sources
  {
  }

  /** A known severity or none at all: what the extraction prompt asks the model for. */
  predicate KnownSeverity(p: Person) {
    p.severity.None? || Rank(p.severity.value) > 0
  }

  /**
   * When every severity is known or absent, no entry ever ranks below `low`, so the merge cannot
   * raise the `KeyError` of a severity-less person outranking its entry.
   */
  lemma {:induction false} MergedSucceeds(people: seq<Person>)
    requires forall i | 0 <= i < |people| :: KnownSeverity(people[i])
    ensures Merged(people).Ok?
    ensures forall k | k in Merged(people).value.entries :: Rank(Merged(people).value.entries[k].severity) >= 1
    decreases |people|
  {
    if people != [] {
      var init := people[..|people| - 1];
      assert forall i | 0 <= i < |init| :: init[i] == people[i];
      MergedSucceeds(init);
      StepKnown(Merged(init).value, people[|people| - 1]);
    }
  }

  lemma StepKnown(st: State, p: Person)
    requires KnownSeverity(p)
    requires forall k | k in st.entries :: Rank(st.entries[k].severity) >= 1
    ensures Step(st, p).Ok?
    ensures forall k | k in Step(st, p).value.entries :: Rank(Step(st, p).value.entries[k].severity) >= 1
  {
    if Counted(p) && KeyOf(p) in st.entries {
      var e := st.entries[KeyOf(p)];
      assert Rank(SeverityOf(p)) > Rank(e.severity) ==> p.severity.Some?;
    }
  }

  /** A person without a severity that outranks an entry with an unknown severity stops the merge with `KeyError`. */
  lemma MissingSeverityFails(name: String, unknown: String)
    requires |Strip(name)| >= 3 && Rank(unknown) == 0
    ensures Merged([Person(Some(name), None, Some(unknown), [], []), Person(Some(name), None, None, [], [])]).Err?
  {
    var first := Person(Some(name), None, Some(unknown), [], []);
    var second := Person(Some(name), None, None, [], []);
    var people := [first, second];
    assert people[..1] == [first];
    assert [first][..0] == [];
    assert Merged([first]) == Step(State([], map[]), first);
  }

  /** The bucket a severity sorts into. */
  function InBucket(b: nat): Entry -> bool {
    (e: Entry) => Bucket(e.severity) == b
  }

  /**
   * The output holds each dictionary entry once, ordered critical, high, medium, low, then anything
   * else; entries of one severity keep the order in which their names were first seen.
   */
  lemma MergedOrder(people: seq<Person>, b: nat)
    requires Merged(people).Ok?
    ensures var vals := Values(Merged(people).value);
      var out := MergedPeople(people).value;
      && multiset(out) == multiset(vals)
      && SortedBy(out, SeverityBefore)
      && Filter(out, InBucket(b)) == Filter(vals, InBucket(b))
  {
    var vals := Values(Merged(people).value);
    assert TotalPreorder(SeverityBefore);
    SortBySorted(vals, SeverityBefore);
    SortByStable(vals, SeverityBefore, InBucket(b));
  }

  // ---------------------------------------------------------------------------------------------
  // Reading the model's answers loosely

  /** What `parse_json_loose` returns: the value a parse produced, or the list of objects it salvaged. */
  datatype Loose<J> = Parsed(value: J) | Salvaged(objects: seq<J>)

  /** The `IndexError` of `text.split("\n", 1)[1]` on a fenced answer with no newline. */
  datatype LooseError = FenceWithoutNewline

  const Fence: String := "```"
  const Newline: String := "\n"

  /** The closing suffixes tried after the strict parse, in order. */
  const Fixes: seq<String> := ["]", "\"}]", "\"]}]", "\"]}}]"]

  /** The least number of brace-free characters between the braces of a salvaged object. */
  const MinObjectBody: nat := 20

  /**
   * Removing a Markdown fence: everything after the first line, up to the last fence; the text
   * itself when it does not start with a fence.
   */
  function Unfenced(t: String): Result<String, LooseError> {
    if !IsAt(t, 0, Fence) then Ok(t)
    else
      var nl := IndexOf(t, Newline);
      if nl == -1 then Err(FenceWithoutNewline)
      else
        var body := t[nl + 1..];
        var j := LastIndexOf(body, Fence);
        Ok(if j == -1 then body else body[..j])
  }

  /** The first of `fixes` whose suffix makes `t` parse, and its value. */
  function FirstFix<J>(t: String, fixes: seq<String>, parse: String -> Option<J>): Option<J> {
    if fixes == [] then None
    else if parse(t + fixes[0]).Some? then parse(t + fixes[0])
    else FirstFix(t, fixes[1..], parse)
  }

  predicate NotBrace(c: char) {
    c != '{' && c != '}'
  }

  /** Length of the match of `\{[^{}]{20,}\}` at `i`, or 0 when there is none. */
  function MatchAt(t: String, i: nat): (n: nat)
    requires i <= |t|
    ensures i + n <= |t|
  {
    if i < |t| && t[i] == '{' then
      var run := RunOf(t, i + 1, NotBrace);
      if run >= MinObjectBody && i + 1 + run < |t| && t[i + 1 + run] == '}' then run + 2 else 0
    else 0
  }

  /** The texts `re.finditer` matches from `i` on: leftmost first, the search resuming after each. */
  function Matches(t: String, i: nat): seq<String>
    requires i <= |t|
    decreases |t| - i
  {
    if i == |t| then []
    else
      var n := MatchAt(t, i);
      if n > 0 then [t[i..i + n]] + Matches(t, i + n) else Matches(t, i + 1)
  }

  /** The value of a matched text when it parses and has a `"name"` key. */
  function KeptOne<J>(m: String, parse: String -> Option<J>, hasName: J -> bool): seq<J> {
    if parse(m).Some? && hasName(parse(m).value) then [parse(m).value] else []
  }

  /** The matched texts' values that have a `"name"` key, in order. */
  function Kept<J>(ms: seq<String>, parse: String -> Option<J>, hasName: J -> bool): seq<J> {
    if ms == [] then []
    else Kept(ms[..|ms| - 1], parse, hasName) + KeptOne(ms[|ms| - 1], parse, hasName)
  }

  /** `parse_json_loose(text)`, with `None` standing for a missing answer. */
  function LooseParse<J>(text: Option<String>, parse: String -> Option<J>, hasName: J -> bool): Result<Loose<J>, LooseError> {
    if text.None? || text.value == [] then Ok(Salvaged([]))
    else
      match Unfenced(Strip(text.value))
      case Err(e) => Err(e)
      case Ok(t) =>
        if parse(t).Some? then Ok(Parsed(parse(t).value))
        else
          match FirstFix(t, Fixes, parse)
          case Some(v) => Ok(Parsed(v))
          case None => Ok(Salvaged(Kept(Matches(t, 0), parse, hasName)))
  }

  /** The `for fix in [...]` loop: the first suffix that makes `t` parse. */
  method TryFixes<J>(t: String, parse: String -> Option<J>) returns (r: Option<J>)
    ensures r == FirstFix(t, Fixes, parse)
  {
    for k := 0 to |Fixes|
      invariant FirstFix(t, Fixes[k..], parse) == FirstFix(t, Fixes, parse)
    {
      assert Fixes[k..][1..] == Fixes[k + 1..];
      var fixed := parse(t + Fixes[k]);
      if fixed.Some? {
        return fixed;
      }
    }
    return None;
  }

  /** The `for m in re.finditer(...)` loop, appending each match that parses and has a `"name"` key. */
  method Salvage<J>(t: String, parse: String -> Option<J>, hasName: J -> bool) returns (results: seq<J>)
    ensures results == Kept(Matches(t, 0), parse, hasName)
  {
    var ms := Matches(t, 0);
    results := [];
    for k := 0 to |ms|
      invariant results == Kept(ms[..k], parse, hasName)
    {
      assert ms[..k + 1][..k] == ms[..k];
      var obj := parse(ms[k]);
      if obj.Some? && hasName(obj.value) {
        results := results + [obj.value];
      }
    }
    assert ms[..|ms|] == ms;
  }

  /** `parse_json_loose`: the fence strip, the strict parse, the suffix loop, then the salvage scan. */
  method ParseJsonLoose<J>(text: Option<String>, parse: String -> Option<J>, hasName: J -> bool)
    returns (r: Result<Loose<J>, LooseError>)
    ensures r == LooseParse(text, parse, hasName)
  {
    if text.None? || text.value == [] {
      return Ok(Salvaged([]));
    }
    var u := Unfenced(Strip(text.value));
    if u.Err? {
      return Err(u.error);
    }
    var t := u.value;
    var whole := parse(t);
    if whole.Some? {
      return Ok(Parsed(whole.value));
    }
    var fixed := TryFixes(t, parse);
    if fixed.Some? {
      return Ok(Parsed(fixed.value));
    }
    var results := Salvage(t, parse, hasName);
    r := Ok(Salvaged(results));
  }

  // ---------------------------------------------------------------------------------------------
  // What the lenient reader promises

  /** A missing or empty answer reads as an empty list, whatever the parser. */
  lemma LooseEmpty<J>(text: Option<String>, parse: String -> Option<J>, hasName: J -> bool)
    requires text.None? || text.value == []
    ensures LooseParse(text, parse, hasName) == Ok(Salvaged([]))
  {
  }

  /** Text that does not start with a fence is kept whole; a fence fails exactly when no newline follows it. */
  lemma UnfencedCases(t: String)
    ensures !IsAt(t, 0, Fence) ==> Unfenced(t) == Ok(t)
    ensures Unfenced(t).Err? <==> IsAt(t, 0, Fence) && '\n' !in t
  {
    ContainsCharIff(t, '\n');
  }

  /** A fenced block with an info line on the first line reads back as exactly its body. */
  lemma {:induction false} UnfencedRoundTrip(info: String, body: String)
    requires '\n' !in info
    ensures Unfenced(Fence + info + Newline + body + Fence) == Ok(body)
  {
    var t := Fence + info + Newline + body + Fence;
    assert t[..3] == Fence;
    var nl := |Fence + info|;
    assert t[nl] == '\n';
    assert IsAt(t, nl, Newline) by { assert t[nl..nl + 1] == Newline; }
    forall j | 0 <= j < nl
      ensures !IsAt(t, j, Newline)
    {
      if j >= 3 {
        assert t[j] == info[j - 3];
      }
      assert t[j..j + 1][0] == t[j];
    }
    assert IndexOf(t, Newline) == nl;
    var rest := t[nl + 1..];
    assert rest == body + Fence;
    assert IsAt(rest, |body|, Fence);
    assert LastIndexOf(rest, Fence) == |body|;
    assert rest[..|body|] == body;
  }

  /** The first fix that parses wins: every fix before it fails, and all fail when none wins. */
  lemma {:induction false} FirstFixWins<J>(t: String, fixes: seq<String>, parse: String -> Option<J>)
    ensures FirstFix(t, fixes, parse).None? <==> forall k | 0 <= k < |fixes| :: parse(t + fixes[k]).None?
    ensures FirstFix(t, fixes, parse).Some? ==>
      exists k | 0 <= k < |fixes| ::
        && parse(t + fixes[k]) == FirstFix(t, fixes, parse)
        && forall j | 0 <= j < k :: parse(t + fixes[j]).None?
  {
    if fixes != [] {
      FirstFixWins(t, fixes[1..], parse);
      assert forall k | 1 <= k < |fixes| :: fixes[1..][k - 1] == fixes[k];
      if parse(t + fixes[0]).None? && FirstFix(t, fixes, parse).Some? {
        var k :| 0 <= k < |fixes[1..]| && parse(t + fixes[1..][k]) == FirstFix(t, fixes, parse)
          && forall j | 0 <= j < k :: parse(t + fixes[1..][j]).None?;
        assert fixes[1..][k] == fixes[k + 1];
        forall j | 0 <= j < k + 1
          ensures parse(t + fixes[j]).None?
        {
          if j > 0 {
            assert fixes[1..][j - 1] == fixes[j];
          }
        }
      }
    }
  }

  /** A salvaged text is one brace, at least twenty brace-free characters and a closing brace. */
  predicate ObjectText(m: String) {
    && |m| >= MinObjectBody + 2
    && m[0] == '{' && m[|m| - 1] == '}'
    && forall k | 0 < k < |m| - 1 :: NotBrace(m[k])
  }

  /** Every text the scan matches is an object text found in the answer. */
  lemma {:induction false} MatchesAreObjects(t: String, i: nat)
    requires i <= |t|
    ensures forall m | m in Matches(t, i) :: ObjectText(m) && Contains(t, m)
    decreases |t| - i
  {
    if i < |t| {
      var n := MatchAt(t, i);
      if n > 0 {
        MatchesAreObjects(t, i + n);
        var m := t[i..i + n];
        assert IsAt(t, i, m);
        forall k | 0 < k < |m| - 1
          ensures NotBrace(m[k])
        {
          assert m[k] == t[i + k];
        }
      } else {
        MatchesAreObjects(t, i + 1);
      }
    }
  }

  /** An object text in the answer is what `MatchAt` finds at its opening brace. */
  lemma ObjectMatchAt(t: String, i: nat, m: String)
    requires ObjectText(m) && IsAt(t, i, m)
    ensures MatchAt(t, i) == |m|
  {
    var run := RunOf(t, i + 1, NotBrace);
    forall k | 0 < k < |m| ensures t[i + k] == m[k] {
      assert t[i..i + |m|][k] == t[i + k];
    }
    assert forall k | i < k < i + |m| - 1 :: NotBrace(t[k]);
    assert !NotBrace(t[i + |m| - 1]);
    assert run == |m| - 2;
  }

  /** A match that starts before an opening brace ends at or before it: matches cannot straddle a `{`. */
  lemma MatchEndsBefore(t: String, p: nat, i: nat)
    requires p < i < |t| && t[i] == '{'
    ensures p + MatchAt(t, p) <= i
  {
  }

  /** One step of the scan: a match at `j` is taken and the scan resumes after it, else it moves on by one. */
  lemma MatchesStep(t: String, j: nat)
    requires j < |t|
    ensures var n := MatchAt(t, j);
      Matches(t, j) == if n > 0 then [t[j..j + n]] + Matches(t, j + n) else Matches(t, j + 1)
  {
  }

  /**
   * The scan misses nothing: every object text in the answer at or after `j` is among the matches
   * from `j`, since two object texts cannot overlap.
   */
  lemma {:induction false} MatchesComplete(t: String, j: nat, i: nat, m: String)
    requires j <= i && ObjectText(m) && IsAt(t, i, m)
    ensures m in Matches(t, j)
    decreases i - j
  {
    var n := MatchAt(t, j);
    MatchesStep(t, j);
    if j == i {
      ObjectMatchAt(t, i, m);
      assert t[j..j + n] == m;
    } else {
      assert t[i] == m[0] by { assert t[i..i + |m|][0] == t[i]; }
      MatchEndsBefore(t, j, i);
      if n > 0 {
        MatchesComplete(t, j + n, i, m);
      } else {
        MatchesComplete(t, j + 1, i, m);
      }
    }
  }

  /** An answer that is a single object text is matched whole. */
  lemma MatchesWhole(t: String)
    requires ObjectText(t)
    ensures Matches(t, 0) == [t]
  {
    var run := RunOf(t, 1, NotBrace);
    assert run == |t| - 2;
    assert MatchAt(t, 0) == |t|;
    assert t[0..|t|] == t;
  }

  /** The salvaged list holds exactly the matched texts' values that have a `"name"` key. */
  lemma {:induction false} KeptMembers<J>(ms: seq<String>, parse: String -> Option<J>, hasName: J -> bool, o: J)
    ensures o in Kept(ms, parse, hasName) <==> hasName(o) && exists m | m in ms :: parse(m) == Some(o)
    decreases |ms|
  {
    if ms != [] {
      var init, last := ms[..|ms| - 1], ms[|ms| - 1];
      KeptMembers(init, parse, hasName, o);
      assert forall m | m in init :: m in ms;
      assert forall m | m in ms :: m == last || m in init by {
        assert ms == init + [last];
      }
    }
  }

  /** Every object text in the answer that parses to a value with a `"name"` key is salvaged. */
  lemma SalvageComplete<J>(t: String, i: nat, m: String, parse: String -> Option<J>, hasName: J -> bool)
    requires ObjectText(m) && IsAt(t, i, m)
    requires parse(m).Some? && hasName(parse(m).value)
    ensures parse(m).value in Kept(Matches(t, 0), parse, hasName)
  {
    MatchesComplete(t, 0, i, m);
    KeptMembers(Matches(t, 0), parse, hasName, parse(m).value);
  }

  /**
   * The ladder in full: the strict parse wins when it succeeds, then the first fix that parses;
   * only when every one fails is the answer salvaged object by object.
   */
  lemma LooseLadder<J>(text: String, parse: String -> Option<J>, hasName: J -> bool)
    requires text != [] && Unfenced(Strip(text)).Ok?
    ensures var t := Unfenced(Strip(text)).value;
      var r := LooseParse(Some(text), parse, hasName);
      && (parse(t).Some? ==> r == Ok(Parsed(parse(t).value)))
      && (forall k | 0 <= k < |Fixes| ::
            parse(t).None? && parse(t + Fixes[k]).Some? && (forall j | 0 <= j < k :: parse(t + Fixes[j]).None?)
            ==> r == Ok(Parsed(parse(t + Fixes[k]).value)))
      && ((parse(t).None? && forall k | 0 <= k < |Fixes| :: parse(t + Fixes[k]).None?) ==>
            r == Ok(Salvaged(Kept(Matches(t, 0), parse, hasName))))
  {
    var t := Unfenced(Strip(text)).value;
    FirstFixWins(t, Fixes, parse);
  }
}
