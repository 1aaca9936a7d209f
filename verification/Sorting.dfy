/** Sorting on a key and checking that a sequence is already in order (canon.py,
    `check_strictly_ascending`). `less` compares the keys.
 */
module Sorting {

  ghost predicate StrictOrder<T(!new)>(less: (T, T) -> bool) {
    && (forall x, y :: less(x, y) ==> !less(y, x))
    && forall x, y, z :: less(x, y) && less(y, z) ==> less(x, z)
  }

  /** Every element before every later one. */
  ghost predicate Ascending<T>(less: (T, T) -> bool, s: seq<T>) {
    forall i, j :: 0 <= i < j < |s| ==> less(s[i], s[j])
  }

  /** No element after one it should come before. */
  ghost predicate NeverDown<T>(less: (T, T) -> bool, s: seq<T>) {
    forall i :: 1 <= i < |s| ==> !less(s[i], s[i - 1])
  }

  function Insert<T>(less: (T, T) -> bool, x: T, sorted: seq<T>): (r: seq<T>)
    ensures multiset(r) == multiset(sorted) + multiset{x}
  {
    if sorted == [] then [x]
    else if less(sorted[0], x) then
      assert sorted == [sorted[0]] + sorted[1..];
      [sorted[0]] + Insert(less, x, sorted[1..])
    else [x] + sorted
  }

  /** A stable sort. */
  function Sort<T>(less: (T, T) -> bool, s: seq<T>): (r: seq<T>)
    ensures multiset(r) == multiset(s)
  {
    if s == [] then []
    else
      assert s == [s[0]] + s[1..];
      Insert(less, s[0], Sort(less, s[1..]))
  }

  lemma {:induction false} InsertNeverDown<T(!new)>(less: (T, T) -> bool, x: T, sorted: seq<T>)
    requires StrictOrder(less) && NeverDown(less, sorted)
    ensures NeverDown(less, Insert(less, x, sorted))
    decreases |sorted|
  {
    if sorted != [] && less(sorted[0], x) {
      var rest := Insert(less, x, sorted[1..]);
      InsertNeverDown(less, x, sorted[1..]);
      assert rest[0] == x || (|sorted| > 1 && rest[0] == sorted[1]);
      NeverDownAfter(less, sorted[0], rest);
    }
  }

  lemma NeverDownAfter<T>(less: (T, T) -> bool, first: T, rest: seq<T>)
    requires NeverDown(less, rest) && (rest != [] ==> !less(rest[0], first))
    ensures NeverDown(less, [first] + rest)
  {
    var s := [first] + rest;
    forall i | 1 <= i < |s| ensures !less(s[i], s[i - 1]) {
      if i > 1 {
        assert !less(rest[i - 1], rest[i - 2]);
      }
    }
  }

  lemma {:induction false} SortNeverDown<T(!new)>(less: (T, T) -> bool, s: seq<T>)
    requires StrictOrder(less)
    ensures NeverDown(less, Sort(less, s))
    decreases |s|
  {
    if s != [] {
      SortNeverDown(less, s[1..]);
      InsertNeverDown(less, s[0], Sort(less, s[1..]));
    }
  }

  lemma {:induction false} SortLength<T>(less: (T, T) -> bool, s: seq<T>)
    ensures |Sort(less, s)| == |s|
    ensures forall x :: x in Sort(less, s) <==> x in s
  {
    assert |multiset(Sort(less, s))| == |Sort(less, s)| && |multiset(s)| == |s|;
    forall x ensures x in Sort(less, s) <==> x in s {
      assert x in multiset(Sort(less, s)) <==> x in multiset(s);
    }
  }

  /** Neighbours in order are enough. */
  lemma {:induction false} ChainAscends<T(!new)>(less: (T, T) -> bool, s: seq<T>)
    requires StrictOrder(less) && forall i :: 1 <= i < |s| ==> less(s[i - 1], s[i])
    ensures Ascending(less, s)
    decreases |s|
  {
    if |s| > 0 {
      var front, last := s[..|s| - 1], s[|s| - 1];
      ChainAscends(less, front);
      forall i | 0 <= i < |front| ensures less(s[i], last) {
        if i < |front| - 1 {
          assert less(front[i], front[|front| - 1]);
          assert less(s[|s| - 2], last);
        }
      }
      forall i, j | 0 <= i < j < |s| ensures less(s[i], s[j]) {
        if j < |front| {
          assert less(front[i], front[j]);
        }
      }
    }
  }

  /** `check_strictly_ascending`: the scan of neighbours. */
  method CheckStrictlyAscending<T(!new)>(less: (T, T) -> bool, s: seq<T>) returns (ok: bool)
    requires StrictOrder(less)
    ensures ok <==> Ascending(less, s)
  {
    var i := 1;
    while i < |s|
      invariant 1 <= i && forall k :: 1 <= k < |s| && k < i ==> less(s[k - 1], s[k])
    {
      if !less(s[i - 1], s[i]) {
        return false;
      }
      i := i + 1;
    }
    ChainAscends(less, s);
    return true;
  }

  /** Each element of an ascending sequence is there once. */
  lemma {:induction false} AscendingOnce<T(!new)>(less: (T, T) -> bool, s: seq<T>, x: T)
    requires StrictOrder(less) && Ascending(less, s) && x in s
    ensures multiset(s)[x] == 1
    decreases |s|
  {
    assert s == [s[0]] + s[1..];
    if x == s[0] {
      assert x !in s[1..];
      assert x !in multiset(s[1..]);
    } else {
      AscendingOnce(less, s[1..], x);
    }
  }

  lemma SameFirst<T(!new)>(less: (T, T) -> bool, a: seq<T>, b: seq<T>)
    requires StrictOrder(less) && Ascending(less, a) && Ascending(less, b)
    requires a != [] && b != [] && a[0] in b && b[0] in a
    ensures a[0] == b[0]
  {
    var i :| 0 <= i < |b| && b[i] == a[0];
    var j :| 0 <= j < |a| && a[j] == b[0];
    assert i > 0 ==> less(b[0], a[0]);
    assert j > 0 ==> less(a[0], b[0]);
  }

  lemma AscendingRest<T(!new)>(less: (T, T) -> bool, a: seq<T>, b: seq<T>)
    requires StrictOrder(less) && Ascending(less, a) && Ascending(less, b) && multiset(a) == multiset(b) && a != []
    ensures b != [] && a[0] == b[0] && Ascending(less, a[1..]) && Ascending(less, b[1..])
    ensures multiset(a[1..]) == multiset(b[1..])
  {
    assert a[0] in multiset(b);
    assert b != [] && b[0] in multiset(a);
    SameFirst(less, a, b);
    RestOf(a, a[0], a[1..]);
    RestOf(b, b[0], b[1..]);
  }

  /** An ascending sequence is fixed by its elements. */
  lemma {:induction false} AscendingIsUnique<T(!new)>(less: (T, T) -> bool, a: seq<T>, b: seq<T>)
    requires StrictOrder(less) && Ascending(less, a) && Ascending(less, b) && multiset(a) == multiset(b)
    ensures a == b
    decreases |a|
  {
    if a == [] {
      assert |multiset(b)| == |b|;
    } else {
      AscendingRest(less, a, b);
      AscendingIsUnique(less, a[1..], b[1..]);
      assert a == [a[0]] + a[1..];
      assert b == [b[0]] + b[1..];
    }
  }

  lemma RestOf<T>(s: seq<T>, first: T, rest: seq<T>)
    requires s != [] && first == s[0] && rest == s[1..]
    ensures s == [first] + rest && multiset(rest) == multiset(s) - multiset{first}
  {
    assert s == [first] + rest;
    assert multiset(s) == multiset{first} + multiset(rest);
  }

  /** Where no two different places tie, the sorted sequence ascends. */
  lemma {:induction false} SortAscends<T(!new)>(less: (T, T) -> bool, s: seq<T>)
    requires StrictOrder(less)
    requires forall x, y :: x in s && y in s && x != y ==> less(x, y) || less(y, x)
    requires forall x :: x in s ==> multiset(s)[x] == 1
    ensures Ascending(less, Sort(less, s))
  {
    var sorted := Sort(less, s);
    SortNeverDown(less, s);
    SortLength(less, s);
    forall i | 1 <= i < |sorted| ensures less(sorted[i - 1], sorted[i]) {
      if sorted[i - 1] == sorted[i] {
        TwinsCountTwice(sorted, i);
      }
    }
    ChainAscends(less, sorted);
  }

  lemma TwinsCountTwice<T>(s: seq<T>, i: nat)
    requires 1 <= i < |s| && s[i - 1] == s[i]
    ensures multiset(s)[s[i]] >= 2
  {
    assert s == s[..i - 1] + [s[i - 1]] + [s[i]] + s[i + 1..];
    assert multiset(s) == multiset(s[..i - 1]) + multiset{s[i - 1], s[i]} + multiset(s[i + 1..]);
  }
}
