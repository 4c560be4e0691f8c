/**
 * Sequence helpers shared by the pipeline: filtering (list comprehensions and SQL WHERE) and a
 * stable insertion sort (SQL ORDER BY on unique keys and Python's `sorted`).
 */
module Seqs {

  /** A prefix one element longer is the shorter prefix and that element. */
  lemma PrefixSnoc<T>(s: seq<T>, k: nat)
    requires k < |s|
    ensures s[..k + 1] == s[..k] + [s[k]]
  {
  }

  /** `[x for x in s if keep(x)]` */
  function Filter<T>(s: seq<T>, keep: T -> bool): (r: seq<T>)
    ensures |r| <= |s|
  {
    if s == [] then []
    else (if keep(s[0]) then [s[0]] else []) + Filter(s[1..], keep)
  }

  /** The filter keeps exactly the elements that pass the test. */
  lemma {:induction false} FilterMembers<T>(s: seq<T>, keep: T -> bool)
    ensures forall x :: x in Filter(s, keep) <==> x in s && keep(x)
    decreases |s|
  {
    if s != [] {
      FilterMembers(s[1..], keep);
      assert s == [s[0]] + s[1..];
    }
  }

  /** Nothing passes a test that no element passes. */
  lemma {:induction false} FilterNone<T>(s: seq<T>, keep: T -> bool)
    requires forall i :: 0 <= i < |s| ==> !keep(s[i])
    ensures Filter(s, keep) == []
    decreases |s|
  {
    if s != [] {
      FilterNone(s[1..], keep);
    }
  }

  /** Everything passes a test that every element passes. */
  lemma {:induction false} FilterAll<T>(s: seq<T>, keep: T -> bool)
    requires forall i :: 0 <= i < |s| ==> keep(s[i])
    ensures Filter(s, keep) == s
    decreases |s|
  {
    if s != [] {
      FilterAll(s[1..], keep);
      assert s == [s[0]] + s[1..];
    }
  }

  lemma {:induction false} FilterConcat<T>(a: seq<T>, b: seq<T>, keep: T -> bool)
    ensures Filter(a + b, keep) == Filter(a, keep) + Filter(b, keep)
    decreases |a|
  {
    if a == [] {
      assert a + b == b;
    } else {
      var ab := a + b;
      var head := if keep(a[0]) then [a[0]] else [];
      FilterConcat(a[1..], b, keep);
      assert ab[0] == a[0] && ab[1..] == a[1..] + b;
      calc {
        Filter(ab, keep);
        head + Filter(a[1..] + b, keep);
        head + (Filter(a[1..], keep) + Filter(b, keep));
        (head + Filter(a[1..], keep)) + Filter(b, keep);
        Filter(a, keep) + Filter(b, keep);
      }
    }
  }

  /** `[f(x) for x in s]` */
  function Map<T, U>(s: seq<T>, f: T -> U): (r: seq<U>)
    ensures |r| == |s|
    ensures forall i :: 0 <= i < |s| ==> r[i] == f(s[i])
  {
    seq(|s|, i requires 0 <= i < |s| => f(s[i]))
  }

  lemma MapConcat<T, U>(a: seq<T>, b: seq<T>, f: T -> U)
    ensures Map(a + b, f) == Map(a, f) + Map(b, f)
  {
    assert forall i :: 0 <= i < |a| + |b| ==> Map(a + b, f)[i] == (Map(a, f) + Map(b, f))[i];
  }

  /** Mapping a reordering gives a reordering of the map. */
  lemma {:induction false} MapPermutation<T, U>(a: seq<T>, b: seq<T>, f: T -> U)
    requires multiset(a) == multiset(b)
    ensures multiset(Map(a, f)) == multiset(Map(b, f))
    decreases |a|
  {
    if a == [] {
      assert |multiset(b)| == 0;
    } else {
      var x := a[0];
      assert x in multiset(b);
      var j :| 0 <= j < |b| && b[j] == x;
      var rest := b[..j] + b[j + 1..];
      assert b == b[..j] + [x] + b[j + 1..];
      assert a == [x] + a[1..];
      calc {
        multiset(a[1..]) + multiset{x};
        multiset(a);
        multiset(b);
        multiset(b[..j]) + multiset{x} + multiset(b[j + 1..]);
        multiset(rest) + multiset{x};
      }
      forall y ensures multiset(a[1..])[y] == multiset(rest)[y] {
        assert (multiset(a[1..]) + multiset{x})[y] == (multiset(rest) + multiset{x})[y];
      }
      assert multiset(a[1..]) == multiset(rest);
      MapPermutation(a[1..], rest, f);
      MapConcat([x], a[1..], f);
      MapConcat(b[..j] + [x], b[j + 1..], f);
      MapConcat(b[..j], [x], f);
      MapConcat(b[..j], b[j + 1..], f);
    }
  }

  /** A prefix takes each element at most as often as the whole, and leaves the rest to the suffix. */
  lemma PrefixMultiset<T>(s: seq<T>, k: nat)
    requires k <= |s|
    ensures multiset(s[..k]) <= multiset(s)
    ensures multiset(s) - multiset(s[..k]) == multiset(s[k..])
  {
    assert s == s[..k] + s[k..];
  }

  /** Every element of a map is the image of an element of its source. */
  lemma MapMembers<T, U>(s: seq<T>, f: T -> U, y: U)
    requires y in Map(s, f)
    ensures exists x :: x in s && y == f(x)
  {
    var i :| 0 <= i < |s| && Map(s, f)[i] == y;
    assert s[i] in s;
  }

  /** The image of every element of the source is in the map. */
  lemma MapContains<T, U>(s: seq<T>, f: T -> U, x: T)
    requires x in s
    ensures f(x) in Map(s, f)
  {
    var i :| 0 <= i < |s| && s[i] == x;
    assert Map(s, f)[i] == f(x);
  }

  /** `sum(1 for k in range(n) if at(k))` */
  function Count(n: nat, at: nat -> bool): (r: nat)
    ensures r <= n
    ensures r == 0 <==> forall k :: 0 <= k < n ==> !at(k)
  {
    if n == 0 then 0 else Count(n - 1, at) + (if at(n - 1) then 1 else 0)
  }

  /** The comparison is total and transitive, as an SQL ORDER BY key or a Python sort key is. */
  ghost predicate TotalPreorder<T(!new)>(leq: (T, T) -> bool) {
    && (forall a, b :: leq(a, b) || leq(b, a))
    && (forall a, b, c :: leq(a, b) && leq(b, c) ==> leq(a, c))
  }

  predicate SortedBy<T>(s: seq<T>, leq: (T, T) -> bool) {
    forall i, j :: 0 <= i < j < |s| ==> leq(s[i], s[j])
  }

  /** In a sorted sequence every element of a prefix comes before every element after it. */
  lemma SortedSplit<T>(s: seq<T>, k: nat, leq: (T, T) -> bool)
    requires SortedBy(s, leq) && k <= |s|
    ensures forall h, g | h in s[k..] && g in s[..k] :: leq(g, h)
  {
    forall h, g | h in s[k..] && g in s[..k] ensures leq(g, h) {
      var j :| 0 <= j < |s| - k && s[k..][j] == h;
      var i :| 0 <= i < k && s[..k][i] == g;
      assert s[i] == g && s[k + j] == h;
    }
  }

  /** Inserts `x` in front of the first element it does not come after. */
  function Insert<T>(x: T, s: seq<T>, leq: (T, T) -> bool): (r: seq<T>)
    ensures multiset(r) == multiset(s) + multiset{x}
    ensures |r| == |s| + 1
  {
    if s == [] then [x]
    else if leq(x, s[0]) then [x] + s
    else
      assert s == [s[0]] + s[1..];
      [s[0]] + Insert(x, s[1..], leq)
  }

  /** Insertion sort; an element is placed before the equal elements that followed it, so the sort is stable. */
  function SortBy<T>(s: seq<T>, leq: (T, T) -> bool): (r: seq<T>)
    ensures multiset(r) == multiset(s)
    ensures |r| == |s|
  {
    if s == [] then []
    else
      assert s == [s[0]] + s[1..];
      Insert(s[0], SortBy(s[1..], leq), leq)
  }

  /** An element that comes before every element of a sorted sequence can be put in front of it. */
  lemma SortedCons<T>(h: T, s: seq<T>, leq: (T, T) -> bool)
    requires SortedBy(s, leq)
    requires forall i | 0 <= i < |s| :: leq(h, s[i])
    ensures SortedBy([h] + s, leq)
  {
    var r := [h] + s;
    forall i, j | 0 <= i < j < |r| ensures leq(r[i], r[j]) {
      assert r[j] == s[j - 1];
      if i > 0 {
        assert r[i] == s[i - 1];
      }
    }
  }

  /** Inserting adds `x` and nothing else. */
  lemma InsertMembers<T>(x: T, s: seq<T>, leq: (T, T) -> bool)
    ensures forall y | y in Insert(x, s, leq) :: y == x || y in s
  {
    forall y | y in Insert(x, s, leq) ensures y == x || y in s {
      assert y in multiset(Insert(x, s, leq));
    }
  }

  lemma {:induction false} InsertSorted<T(!new)>(x: T, s: seq<T>, leq: (T, T) -> bool)
    requires TotalPreorder(leq)
    requires SortedBy(s, leq)
    ensures SortedBy(Insert(x, s, leq), leq)
    decreases |s|
  {
    if s != [] && !leq(x, s[0]) {
      var tail := s[1..];
      assert SortedBy(tail, leq);
      InsertSorted(x, tail, leq);
      var ins := Insert(x, tail, leq);
      assert leq(s[0], x);
      InsertMembers(x, tail, leq);
      forall i | 0 <= i < |ins| ensures leq(s[0], ins[i]) {
        var y := ins[i];
        assert y in ins;
        if y != x {
          var k :| 0 <= k < |tail| && tail[k] == y;
          assert s[k + 1] == y;
        }
      }
      SortedCons(s[0], ins, leq);
    } else if s != [] {
      forall i | 0 <= i < |s| ensures leq(x, s[i]) {
        if i > 0 {
          assert leq(s[0], s[i]);
        }
      }
      SortedCons(x, s, leq);
    }
  }

  /** The sort's result is ordered. */
  lemma {:induction false} SortBySorted<T(!new)>(s: seq<T>, leq: (T, T) -> bool)
    requires TotalPreorder(leq)
    ensures SortedBy(SortBy(s, leq), leq)
    decreases |s|
  {
    if s != [] {
      SortBySorted(s[1..], leq);
      InsertSorted(s[0], SortBy(s[1..], leq), leq);
    }
  }

  /** A sequence already in order is left as it is. */
  lemma {:induction false} SortByIdentity<T>(s: seq<T>, leq: (T, T) -> bool)
    requires SortedBy(s, leq)
    ensures SortBy(s, leq) == s
    decreases |s|
  {
    if s != [] {
      var tail := s[1..];
      assert SortedBy(tail, leq);
      SortByIdentity(tail, leq);
      if tail != [] {
        assert leq(s[0], tail[0]);
      }
      assert s == [s[0]] + tail;
    }
  }

  /**
   * Inserting `x` leaves the order within a class of elements unchanged, when the comparison puts
   * every pair of elements of that class in order: `x` is put before the class members already there.
   */
  lemma {:induction false} InsertKeepsClassOrder<T>(x: T, t: seq<T>, leq: (T, T) -> bool, inClass: T -> bool)
    requires forall y :: inClass(x) && inClass(y) ==> leq(x, y)
    ensures Filter(Insert(x, t, leq), inClass) == Filter([x] + t, inClass)
    decreases |t|
  {
    if t != [] && !leq(x, t[0]) {
      var ins := Insert(x, t[1..], leq);
      InsertKeepsClassOrder(x, t[1..], leq, inClass);
      FilterSwap(t[0], x, t[1..], ins, inClass);
      assert Insert(x, t, leq) == [t[0]] + ins;
      assert [t[0]] + t[1..] == t;
    }
  }

  /** Moving `x` in front of `h` leaves the filter unchanged when they are not both kept. */
  lemma FilterSwap<T>(h: T, x: T, rest: seq<T>, tail: seq<T>, inClass: T -> bool)
    requires !(inClass(x) && inClass(h))
    requires Filter(tail, inClass) == Filter([x] + rest, inClass)
    ensures Filter([h] + tail, inClass) == Filter([x] + ([h] + rest), inClass)
  {
    FilterConcat([h], tail, inClass);
    FilterConcat([x], rest, inClass);
    FilterConcat([h], rest, inClass);
    FilterConcat([x], [h] + rest, inClass);
    var fh, fx := Filter([h], inClass), Filter([x], inClass);
    assert fh == [] || fx == [] by {
      assert [h][1..] == [] && [x][1..] == [];
    }
    calc {
      Filter([h] + tail, inClass);
      fh + (fx + Filter(rest, inClass));
      { assert fh + fx == fx + fh; }
      fx + (fh + Filter(rest, inClass));
      Filter([x] + ([h] + rest), inClass);
    }
  }

  /** The sort is stable: within a class whose members the comparison ranks equal, the order is the input's. */
  lemma {:induction false} SortByStable<T>(s: seq<T>, leq: (T, T) -> bool, inClass: T -> bool)
    requires forall x, y :: inClass(x) && inClass(y) ==> leq(x, y)
    ensures Filter(SortBy(s, leq), inClass) == Filter(s, inClass)
    decreases |s|
  {
    if s != [] {
      SortByStable(s[1..], leq, inClass);
      InsertKeepsClassOrder(s[0], SortBy(s[1..], leq), leq, inClass);
      FilterConcat([s[0]], SortBy(s[1..], leq), inClass);
      FilterConcat([s[0]], s[1..], inClass);
      assert s == [s[0]] + s[1..];
    }
  }

  /** The position of the first element in class `inClass`, or `|s|` when there is none. */
  function FirstIn<T>(s: seq<T>, inClass: T -> bool): (n: nat)
    ensures n <= |s|
    ensures n < |s| ==> inClass(s[n])
    ensures forall k | 0 <= k < n :: !inClass(s[k])
  {
    if s == [] then 0
    else if inClass(s[0]) then 0
    else
      var n := 1 + FirstIn(s[1..], inClass);
      assert forall k | 1 <= k < |s| :: s[k] == s[1..][k - 1];
      n
  }
}
