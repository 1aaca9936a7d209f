/** Nested degradation of a raw stream (degrade.py, `Completeness`, `degrade`).

    Records are deleted source by source in the order of a key drawn from the seed and the
    record alone. The key is a digest: here any function that tells the sequence numbers of
    one source apart.
 */
module Degrade {
  import opened Arithmetic
  import opened Sorting

  datatype RawEvent = RawEvent(source: nat, seqNo: nat, time: int, kind: nat, attrs: nat)

  // ---------------------------------------------------------------------------
  // Completeness
  // ---------------------------------------------------------------------------

  datatype Completeness = Completeness(num: nat, den: nat)

  predicate Valid(c: Completeness) {
    0 < c.den && c.num <= c.den
  }

  /** How many of `population` records survive: the floor. */
  function Keep(c: Completeness, population: nat): (n: nat)
    requires Valid(c)
    ensures n <= population
  {
    KeepAtMost(c, population);
    population * c.num / c.den
  }

  lemma KeepAtMost(c: Completeness, population: nat)
    requires Valid(c)
    ensures 0 <= population * c.num / c.den <= population
  {
    assert population * c.num <= population * c.den;
    FloorAtMost(population * c.num, population, c.den);
  }

  lemma FloorAtMost(x: nat, n: nat, d: nat)
    requires d > 0 && x <= n * d
    ensures 0 <= x / d <= n
  {
    if x / d > n {
      TimesMonotone(n + 1, x / d, d);
    }
  }

  predicate Below(c: Completeness, d: Completeness) {
    c.num * d.den < d.num * c.den
  }

  /** A lower completeness keeps no more. */
  lemma KeepMonotone(c: Completeness, d: Completeness, population: nat)
    requires Valid(c) && Valid(d) && c.num * d.den <= d.num * c.den
    ensures Keep(c, population) <= Keep(d, population)
  {
    var k := Keep(c, population);
    FloorIsGreatest(population * c.num, c.den, k);
    CrossMultiply(k, population, c.num, c.den, d.num, d.den);
    FloorIsGreatest(population * d.num, d.den, k);
  }

  // ---------------------------------------------------------------------------
  // Orders and groups
  // ---------------------------------------------------------------------------

  /** The stream order: source, then sequence number. */
  predicate StreamLess(r: RawEvent, s: RawEvent) {
    r.source < s.source || (r.source == s.source && r.seqNo < s.seqNo)
  }

  type DeletionKey = (nat, RawEvent) -> nat

  /** The key ends in the sequence number. */
  ghost predicate TellsApart(key: DeletionKey, seed: nat) {
    forall r, s :: key(seed, r) == key(seed, s) ==> r.seqNo == s.seqNo
  }

  function ByDeletion(key: DeletionKey, seed: nat): (RawEvent, RawEvent) -> bool {
    (r, s) => key(seed, r) < key(seed, s)
  }

  lemma OrdersAreStrict(key: DeletionKey, seed: nat)
    ensures StrictOrder(StreamLess) && StrictOrder(ByDeletion(key, seed))
  {
  }

  /** The records of one source, in stream order of arrival. */
  function OfSource(raw: seq<RawEvent>, name: nat): (s: seq<RawEvent>)
    ensures forall r :: r in s <==> r in raw && r.source == name
  {
    if raw == [] then []
    else
      var front, last := raw[..|raw| - 1], raw[|raw| - 1];
      assert raw == front + [last];
      OfSource(front, name) + if last.source == name then [last] else []
  }

  lemma {:induction false} OfSourceConcat(a: seq<RawEvent>, b: seq<RawEvent>, name: nat)
    ensures OfSource(a + b, name) == OfSource(a, name) + OfSource(b, name)
    decreases |b|
  {
    if b == [] {
      assert a + b == a;
    } else {
      OfSourceConcat(a, b[..|b| - 1], name);
      assert (a + b)[..|a + b| - 1] == a + b[..|b| - 1];
    }
  }

  lemma {:induction false} OfOneSource(s: seq<RawEvent>, from: nat, name: nat)
    requires forall r :: r in s ==> r.source == from
    ensures OfSource(s, name) == if name == from then s else []
    decreases |s|
  {
    if s != [] {
      assert s == s[..|s| - 1] + [s[|s| - 1]];
      OfOneSource(s[..|s| - 1], from, name);
    }
  }

  lemma {:induction false} OfSourceCounts(s: seq<RawEvent>, name: nat, r: RawEvent)
    ensures multiset(OfSource(s, name))[r] == if r.source == name then multiset(s)[r] else 0
    decreases |s|
  {
    if s != [] {
      var front, last := s[..|s| - 1], s[|s| - 1];
      assert s == front + [last];
      OfSourceCounts(front, name, r);
    }
  }

  lemma {:induction false} OfSourceOfSame(a: seq<RawEvent>, b: seq<RawEvent>, name: nat)
    requires multiset(a) == multiset(b)
    ensures multiset(OfSource(a, name)) == multiset(OfSource(b, name)) && |OfSource(a, name)| == |OfSource(b, name)|
  {
    forall r ensures multiset(OfSource(a, name))[r] == multiset(OfSource(b, name))[r] {
      OfSourceCounts(a, name, r);
      OfSourceCounts(b, name, r);
    }
    assert multiset(OfSource(a, name)) == multiset(OfSource(b, name));
    assert |multiset(OfSource(a, name))| == |OfSource(a, name)| && |multiset(OfSource(b, name))| == |OfSource(b, name)|;
  }

  /** No source numbers two records alike: records of one source and one number are one
      record, listed once. */
  ghost predicate NumbersDistinct(raw: seq<RawEvent>) {
    && (forall r, s :: r in raw && s in raw && r.source == s.source && r.seqNo == s.seqNo ==> r == s)
    && forall r :: r in raw ==> multiset(raw)[r] == 1
  }

  lemma {:induction false} OfSourceDistinct(raw: seq<RawEvent>, name: nat)
    requires NumbersDistinct(raw)
    ensures NumbersDistinct(OfSource(raw, name))
  {
    forall r | r in OfSource(raw, name) ensures multiset(OfSource(raw, name))[r] == 1 {
      OfSourceCounts(raw, name, r);
    }
  }

  lemma {:induction false} AllSourcesDistinct(raw: seq<RawEvent>)
    requires forall r :: r in raw ==> NumbersDistinct(OfSource(raw, r.source))
    ensures NumbersDistinct(raw)
  {
    forall r | r in raw ensures multiset(raw)[r] == 1 {
      OfSourceCounts(raw, r.source, r);
      assert r in OfSource(raw, r.source);
    }
    forall r, s | r in raw && s in raw && r.source == s.source && r.seqNo == s.seqNo ensures r == s {
      assert r in OfSource(raw, r.source) && s in OfSource(raw, r.source);
    }
  }

  lemma AscendingNumbersDiffer(sorted: seq<RawEvent>)
    requires Ascending(StreamLess, sorted)
    ensures NumbersDistinct(sorted)
  {
    forall r | r in sorted ensures multiset(sorted)[r] == 1 {
      AscendingOnce(StreamLess, sorted, r);
    }
    forall i, j | 0 <= i < j < |sorted|
      ensures sorted[i].source != sorted[j].source || sorted[i].seqNo != sorted[j].seqNo
    {
      assert StreamLess(sorted[i], sorted[j]);
    }
  }

  /** The check the operator runs: sorted into stream order, the records ascend. */
  lemma {:induction false} AscendIffDistinct(raw: seq<RawEvent>)
    ensures Ascending(StreamLess, Sort(StreamLess, raw)) <==> NumbersDistinct(raw)
  {
    SortLength(StreamLess, raw);
    if NumbersDistinct(raw) {
      SortAscends(StreamLess, raw);
    }
    if Ascending(StreamLess, Sort(StreamLess, raw)) {
      AscendingNumbersDiffer(Sort(StreamLess, raw));
    }
  }

  // ---------------------------------------------------------------------------
  // What is deleted
  // ---------------------------------------------------------------------------

  /** One source's records in deletion order. */
  function DeletionOrder(raw: seq<RawEvent>, key: DeletionKey, seed: nat, name: nat): seq<RawEvent> {
    Sort(ByDeletion(key, seed), OfSource(raw, name))
  }

  function CutPoint(raw: seq<RawEvent>, c: Completeness, key: DeletionKey, seed: nat, name: nat): (n: nat)
    requires Valid(c)
    ensures n <= |DeletionOrder(raw, key, seed, name)| == |OfSource(raw, name)|
  {
    SortLength(ByDeletion(key, seed), OfSource(raw, name));
    |OfSource(raw, name)| - Keep(c, |OfSource(raw, name)|)
  }

  /** The records deleted from one source, and those kept. */
  function Deleted(raw: seq<RawEvent>, c: Completeness, key: DeletionKey, seed: nat, name: nat): (s: seq<RawEvent>)
    requires Valid(c)
    ensures forall r :: r in s ==> r in raw && r.source == name
  {
    var order := DeletionOrder(raw, key, seed, name);
    SortLength(ByDeletion(key, seed), OfSource(raw, name));
    assert forall k :: 0 <= k < |order| ==> order[k] in OfSource(raw, name);
    order[..CutPoint(raw, c, key, seed, name)]
  }

  function Kept(raw: seq<RawEvent>, c: Completeness, key: DeletionKey, seed: nat, name: nat): (s: seq<RawEvent>)
    requires Valid(c)
    ensures |s| == Keep(c, |OfSource(raw, name)|)
    ensures forall r :: r in s ==> r in raw && r.source == name
    ensures multiset(Deleted(raw, c, key, seed, name)) + multiset(s) == multiset(OfSource(raw, name))
  {
    var order, cut := DeletionOrder(raw, key, seed, name), CutPoint(raw, c, key, seed, name);
    SortLength(ByDeletion(key, seed), OfSource(raw, name));
    assert forall k :: 0 <= k < |order| ==> order[k] in OfSource(raw, name);
    assert order == order[..cut] + order[cut..];
    order[cut..]
  }

  /** Every record a higher completeness deletes, a lower one deletes too. */
  lemma DeletionsNest(raw: seq<RawEvent>, c: Completeness, d: Completeness, key: DeletionKey, seed: nat, name: nat)
    requires Valid(c) && Valid(d) && c.num * d.den <= d.num * c.den
    ensures Deleted(raw, d, key, seed, name) <= Deleted(raw, c, key, seed, name)
  {
    KeepMonotone(c, d, |OfSource(raw, name)|);
  }

  /** Deletion depends on which records there are, not on how they are listed. */
  lemma DeletionIgnoresOrder(raw: seq<RawEvent>, raw': seq<RawEvent>, key: DeletionKey, seed: nat, name: nat)
    requires TellsApart(key, seed) && NumbersDistinct(raw) && multiset(raw) == multiset(raw')
    ensures DeletionOrder(raw, key, seed, name) == DeletionOrder(raw', key, seed, name)
  {
    var records, records' := OfSource(raw, name), OfSource(raw', name);
    OfSourceOfSame(raw, raw', name);
    OfSourceDistinct(raw, name);
    OrdersAreStrict(key, seed);
    assert NumbersDistinct(records);
    forall r ensures r in records <==> r in records' {
      assert r in multiset(records) <==> r in multiset(records');
    }
    SortAscends(ByDeletion(key, seed), records);
    SortAscends(ByDeletion(key, seed), records');
    AscendingIsUnique(ByDeletion(key, seed), Sort(ByDeletion(key, seed), records),
                      Sort(ByDeletion(key, seed), records'));
  }

  /** What is deleted from a source comes before what is kept: every deleted record has a smaller key. */
  lemma {:induction false} DeletedComeFirst(raw: seq<RawEvent>, c: Completeness, key: DeletionKey, seed: nat,
                                            name: nat, x: RawEvent, y: RawEvent)
    requires Valid(c) && TellsApart(key, seed) && NumbersDistinct(raw)
    requires x in Deleted(raw, c, key, seed, name) && y in Kept(raw, c, key, seed, name)
    ensures key(seed, x) < key(seed, y)
  {
    var records := OfSource(raw, name);
    OfSourceDistinct(raw, name);
    OrdersAreStrict(key, seed);
    assert NumbersDistinct(records);
    SortAscends(ByDeletion(key, seed), records);
    var order, cut := DeletionOrder(raw, key, seed, name), CutPoint(raw, c, key, seed, name);
    var i :| 0 <= i < cut && order[i] == x;
    var j :| cut <= j < |order| && order[j] == y;
    assert ByDeletion(key, seed)(order[i], order[j]);
  }

  /** Of a source's records those with the smallest keys are deleted, and no other. */
  lemma {:induction false} DegradationDeletesSmallest(raw: seq<RawEvent>, c: Completeness, key: DeletionKey, seed: nat,
                                                      r: Degradation, x: RawEvent, y: RawEvent)
    requires DegradationOf(raw, c, key, seed, r) && TellsApart(key, seed) && NumbersDistinct(raw)
    requires x in r.removed && y in r.raw && x.source == y.source
    ensures key(seed, x) < key(seed, y)
  {
    OnItsSide(raw, c, key, seed, r, x);
    OnItsSide(raw, c, key, seed, r, y);
    DeletedComeFirst(raw, c, key, seed, x.source, x, y);
  }

  // ---------------------------------------------------------------------------
  // The operator
  // ---------------------------------------------------------------------------

  datatype Degradation = Degradation(raw: seq<RawEvent>, removed: seq<RawEvent>, completeness: Completeness, seed: nat)

  datatype Parent = NoParent | Parent(result: Degradation)

  datatype Outcome = Degraded(result: Degradation) | NumberReused | ParentNotHigher | SeedChanged | NestingViolated

  /** What `degrade` returns, whatever the parent: the two streams in order, and each record
      on the side its source's deletion order puts it. */
  ghost predicate DegradationOf(raw: seq<RawEvent>, c: Completeness, key: DeletionKey, seed: nat, r: Degradation) {
    && Valid(c) && r.completeness == c && r.seed == seed
    && Ascending(StreamLess, r.raw) && Ascending(StreamLess, r.removed)
    && multiset(r.raw) + multiset(r.removed) == multiset(raw)
    && forall name :: SplitAt(raw, c, key, seed, r, name)
  }

  ghost predicate SplitAt(raw: seq<RawEvent>, c: Completeness, key: DeletionKey, seed: nat, r: Degradation, name: nat)
    requires Valid(c)
  {
    && multiset(OfSource(r.removed, name)) == multiset(Deleted(raw, c, key, seed, name))
    && multiset(OfSource(r.raw, name)) == multiset(Kept(raw, c, key, seed, name))
  }

  lemma OnItsSide(raw: seq<RawEvent>, c: Completeness, key: DeletionKey, seed: nat, r: Degradation, x: RawEvent)
    requires DegradationOf(raw, c, key, seed, r)
    ensures x in r.removed <==> x in Deleted(raw, c, key, seed, x.source)
    ensures x in r.raw <==> x in Kept(raw, c, key, seed, x.source)
  {
    assert SplitAt(raw, c, key, seed, r, x.source);
    assert x in OfSource(r.removed, x.source) <==> x in multiset(OfSource(r.removed, x.source));
    assert x in OfSource(r.raw, x.source) <==> x in multiset(OfSource(r.raw, x.source));
    assert x in Deleted(raw, c, key, seed, x.source) <==> x in multiset(Deleted(raw, c, key, seed, x.source));
    assert x in Kept(raw, c, key, seed, x.source) <==> x in multiset(Kept(raw, c, key, seed, x.source));
  }

  /** Each source keeps exactly the floor of its share. */
  lemma {:induction false} KeepsTheFloor(raw: seq<RawEvent>, c: Completeness, key: DeletionKey, seed: nat,
                                         r: Degradation, name: nat)
    requires DegradationOf(raw, c, key, seed, r)
    ensures |OfSource(r.raw, name)| == |OfSource(raw, name)| * c.num / c.den
  {
    assert SplitAt(raw, c, key, seed, r, name);
    assert |multiset(OfSource(r.raw, name))| == |OfSource(r.raw, name)|;
    assert |multiset(Kept(raw, c, key, seed, name))| == |Kept(raw, c, key, seed, name)|;
  }

  function Address(r: RawEvent): (nat, nat) {
    (r.source, r.seqNo)
  }

  function RemovedKeys(removed: seq<RawEvent>): (s: set<(nat, nat)>)
    ensures forall r :: r in removed ==> Address(r) in s
    ensures forall a :: a in s ==> exists r :: r in removed && Address(r) == a
  {
    set r | r in removed :: Address(r)
  }

  /** For one stream and one seed, a lower completeness deletes a superset: the containment
      check cannot fail on a parent produced from the same stream. */
  lemma ParentIsContained(raw: seq<RawEvent>, c: Completeness, d: Completeness, key: DeletionKey, seed: nat,
                          lower: Degradation, higher: Degradation)
    requires DegradationOf(raw, c, key, seed, lower) && DegradationOf(raw, d, key, seed, higher)
    requires c.num * d.den <= d.num * c.den
    ensures forall r :: r in higher.removed ==> r in lower.removed
    ensures forall r :: r in lower.raw ==> r in higher.raw
    ensures RemovedKeys(higher.removed) <= RemovedKeys(lower.removed)
  {
    forall r | r in higher.removed ensures r in lower.removed {
      OnItsSide(raw, d, key, seed, higher, r);
      DeletionsNest(raw, c, d, key, seed, r.source);
      OnItsSide(raw, c, key, seed, lower, r);
    }
    forall r | r in lower.raw ensures r in higher.raw {
      OnItsSide(raw, c, key, seed, lower, r);
      KeptNest(raw, c, d, key, seed, r.source);
      OnItsSide(raw, d, key, seed, higher, r);
    }
  }

  lemma KeptNest(raw: seq<RawEvent>, c: Completeness, d: Completeness, key: DeletionKey, seed: nat, name: nat)
    requires Valid(c) && Valid(d) && c.num * d.den <= d.num * c.den
    ensures forall r :: r in Kept(raw, c, key, seed, name) ==> r in Kept(raw, d, key, seed, name)
  {
    KeepMonotone(c, d, |OfSource(raw, name)|);
    var order := DeletionOrder(raw, key, seed, name);
    var i, j := CutPoint(raw, c, key, seed, name), CutPoint(raw, d, key, seed, name);
    assert order[j..][i - j..] == order[i..];
  }

  /** Records by source, sources in the order they first appear. */
  method GroupBySource(raw: seq<RawEvent>) returns (names: seq<nat>, groups: map<nat, seq<RawEvent>>)
    ensures forall name :: name in names <==> name in groups
    ensures forall name :: name in groups ==> groups[name] == OfSource(raw, name)
    ensures forall r :: r in raw ==> r.source in groups
    ensures forall i, j :: 0 <= i < j < |names| ==> names[i] != names[j]
  {
    names, groups := [], map[];
    for i := 0 to |raw|
      invariant forall name :: name in names <==> name in groups
      invariant forall name :: name in groups ==> groups[name] == OfSource(raw[..i], name)
      invariant forall r :: r in raw[..i] ==> r.source in groups
      invariant forall a, b :: 0 <= a < b < |names| ==> names[a] != names[b]
    {
      var record := raw[i];
      OneMore(raw, i);
      if record.source !in groups {
        OfSourceAbsent(raw[..i], record.source);
        names := names + [record.source];
        groups := groups[record.source := []];
      }
      groups := groups[record.source := groups[record.source] + [record]];
    }
    assert raw[..|raw|] == raw;
  }

  lemma OneMore(raw: seq<RawEvent>, i: nat)
    requires i < |raw|
    ensures raw[..i + 1] == raw[..i] + [raw[i]]
    ensures forall name :: OfSource(raw[..i + 1], name)
                   == OfSource(raw[..i], name) + if raw[i].source == name then [raw[i]] else []
  {
    assert raw[..i + 1][..i] == raw[..i];
  }

  lemma {:induction false} OfSourceAbsent(s: seq<RawEvent>, name: nat)
    requires forall r :: r in s ==> r.source != name
    ensures OfSource(s, name) == []
    decreases |s|
  {
    if s != [] {
      assert s == s[..|s| - 1] + [s[|s| - 1]];
      OfSourceAbsent(s[..|s| - 1], name);
    }
  }

  /** Both streams so far hold what the named sources delete and keep, and nothing else. */
  ghost predicate SplitSoFar(raw: seq<RawEvent>, c: Completeness, key: DeletionKey, seed: nat, names: seq<nat>,
                             removed: seq<RawEvent>, survivors: seq<RawEvent>)
    requires Valid(c)
  {
    && (forall name :: name in names ==> OfSource(removed, name) == Deleted(raw, c, key, seed, name))
    && (forall name :: name in names ==> OfSource(survivors, name) == Kept(raw, c, key, seed, name))
    && (forall r :: r in removed ==> r.source in names)
    && forall r :: r in survivors ==> r.source in names
  }

  lemma SplitStep(raw: seq<RawEvent>, c: Completeness, key: DeletionKey, seed: nat, names: seq<nat>,
                  removed: seq<RawEvent>, survivors: seq<RawEvent>, name: nat)
    requires Valid(c) && SplitSoFar(raw, c, key, seed, names, removed, survivors) && name !in names
    ensures SplitSoFar(raw, c, key, seed, names + [name],
                       removed + Deleted(raw, c, key, seed, name), survivors + Kept(raw, c, key, seed, name))
  {
    var deleted, kept := Deleted(raw, c, key, seed, name), Kept(raw, c, key, seed, name);
    AppendSource(removed, deleted, name);
    AppendSource(survivors, kept, name);
    forall n | n in names + [name]
      ensures OfSource(removed + deleted, n) == Deleted(raw, c, key, seed, n)
      ensures OfSource(survivors + kept, n) == Kept(raw, c, key, seed, n)
    {
      if n != name {
        assert n in names;
      }
    }
  }

  /** Appending the records of a new source leaves the others' as they were. */
  lemma {:induction false} AppendSource(stream: seq<RawEvent>, part: seq<RawEvent>, name: nat)
    requires forall r :: r in stream ==> r.source != name
    requires forall r :: r in part ==> r.source == name
    ensures OfSource(stream + part, name) == part
    ensures forall n :: n != name ==> OfSource(stream + part, n) == OfSource(stream, n)
  {
    OfSourceAbsent(stream, name);
    OfSourceConcat(stream, part, name);
    OfOneSource(part, name, name);
    forall n | n != name ensures OfSource(stream + part, n) == OfSource(stream, n) {
      OfSourceConcat(stream, part, n);
      OfOneSource(part, name, n);
    }
  }

  /** One source: its numbers checked, its records cut in deletion order. */
  method SplitSource(raw: seq<RawEvent>, records: seq<RawEvent>, c: Completeness, key: DeletionKey, seed: nat,
                     name: nat)
    returns (ok: bool, deleted: seq<RawEvent>, kept: seq<RawEvent>)
    requires Valid(c) && records == OfSource(raw, name)
    ensures ok <==> NumbersDistinct(records)
    ensures ok ==> deleted == Deleted(raw, c, key, seed, name) && kept == Kept(raw, c, key, seed, name)
  {
    AscendIffDistinct(records);
    OrdersAreStrict(key, seed);
    ok := CheckStrictlyAscending(StreamLess, Sort(StreamLess, records));
    if !ok {
      return false, [], [];
    }
    var order := Sort(ByDeletion(key, seed), records);
    var cut := CutPoint(raw, c, key, seed, name);
    deleted, kept := order[..cut], order[cut..];
  }

  /** One more source in both streams. */
  method AddSource(raw: seq<RawEvent>, records: seq<RawEvent>, c: Completeness, key: DeletionKey, seed: nat,
                   name: nat, ghost before: seq<nat>, removed: seq<RawEvent>, survivors: seq<RawEvent>)
    returns (ok: bool, removed': seq<RawEvent>, survivors': seq<RawEvent>)
    requires Valid(c) && records == OfSource(raw, name) && name !in before
    requires SplitSoFar(raw, c, key, seed, before, removed, survivors)
    ensures ok <==> NumbersDistinct(records)
    ensures ok ==> SplitSoFar(raw, c, key, seed, before + [name], removed', survivors')
  {
    var deleted, kept;
    ok, deleted, kept := SplitSource(raw, records, c, key, seed, name);
    SplitStep(raw, c, key, seed, before, removed, survivors, name);
    removed', survivors' := removed + deleted, survivors + kept;
  }

  lemma PrefixStep(s: seq<nat>, i: nat)
    requires i < |s|
    ensures s[..i + 1] == s[..i] + [s[i]] && s[i] in s
  {
  }

  predicate NameLess(a: nat, b: nat) {
    a < b
  }

  /** The loop over sources, in name order. */
  method SplitSources(raw: seq<RawEvent>, c: Completeness, key: DeletionKey, seed: nat)
    returns (ok: bool, removed: seq<RawEvent>, survivors: seq<RawEvent>, ghost names: seq<nat>)
    requires Valid(c)
    ensures ok <==> NumbersDistinct(raw)
    ensures ok ==> SplitSoFar(raw, c, key, seed, names, removed, survivors)
    ensures ok ==> forall r :: r in raw ==> r.source in names
  {
    var found, groups := GroupBySource(raw);
    var order := Sort(NameLess, found);
    SortedNames(found, order);
    names := order;
    removed, survivors := [], [];
    for i := 0 to |order|
      invariant SplitSoFar(raw, c, key, seed, order[..i], removed, survivors)
      invariant forall k :: 0 <= k < i ==> NumbersDistinct(OfSource(raw, order[k]))
    {
      var name := order[i];
      PrefixStep(order, i);
      ok, removed, survivors := AddSource(raw, groups[name], c, key, seed, name, order[..i], removed, survivors);
      if !ok {
        SourceNotDistinct(raw, name);
        return false, [], [], [];
      }
    }
    assert order[..|order|] == order;
    AllSourcesDistinct(raw);
    ok := true;
  }

  lemma {:induction false} SourceNotDistinct(raw: seq<RawEvent>, name: nat)
    requires !NumbersDistinct(OfSource(raw, name))
    ensures !NumbersDistinct(raw)
  {
    if NumbersDistinct(raw) {
      OfSourceDistinct(raw, name);
    }
  }

  lemma {:induction false} SortedNames(found: seq<nat>, order: seq<nat>)
    requires order == Sort(NameLess, found)
    requires forall i, j :: 0 <= i < j < |found| ==> found[i] != found[j]
    ensures forall name: nat :: name in order <==> name in found
    ensures forall i, j :: 0 <= i < j < |order| ==> order[i] != order[j]
  {
    SortLength(NameLess, found);
    forall x | x in found ensures multiset(found)[x] == 1 {
      ListedOnce(found, x);
    }
    SortAscends(NameLess, found);
    forall i, j | 0 <= i < j < |order| ensures order[i] != order[j] {
      assert NameLess(order[i], order[j]);
    }
  }

  lemma ListedOnce(found: seq<nat>, x: nat)
    requires x in found && forall i, j :: 0 <= i < j < |found| ==> found[i] != found[j]
    ensures multiset(found)[x] == 1
  {
    var i :| 0 <= i < |found| && found[i] == x;
    assert found == found[..i] + [x] + found[i + 1..];
    assert multiset(found) == multiset(found[..i]) + multiset{x} + multiset(found[i + 1..]);
    assert x !in multiset(found[..i]) && x !in multiset(found[i + 1..]);
  }

  /** Putting both sides in stream order cannot fail: the parts of a stream whose numbers are
      distinct have distinct numbers. */
  lemma {:induction false} SplitIsDegradation(raw: seq<RawEvent>, c: Completeness, key: DeletionKey, seed: nat,
                                              names: seq<nat>, removed: seq<RawEvent>, survivors: seq<RawEvent>)
    requires Valid(c) && NumbersDistinct(raw) && SplitSoFar(raw, c, key, seed, names, removed, survivors)
    requires forall r :: r in raw ==> r.source in names
    ensures DegradationOf(raw, c, key, seed,
          Degradation(Sort(StreamLess, survivors), Sort(StreamLess, removed), c, seed))
  {
    var r := Degradation(Sort(StreamLess, survivors), Sort(StreamLess, removed), c, seed);
    forall name ensures SplitAt(raw, c, key, seed, r, name) {
      SplitOfSource(raw, c, key, seed, names, removed, survivors, name);
      OfSourceOfSame(r.removed, removed, name);
      OfSourceOfSame(r.raw, survivors, name);
    }
    forall x ensures (multiset(survivors) + multiset(removed))[x] == multiset(raw)[x] {
      SplitOfSource(raw, c, key, seed, names, removed, survivors, x.source);
      OfSourceCounts(survivors, x.source, x);
      OfSourceCounts(removed, x.source, x);
      OfSourceCounts(raw, x.source, x);
    }
    assert multiset(survivors) + multiset(removed) == multiset(raw);
    PartIsDistinct(raw, removed, survivors);
    PartIsDistinct(raw, survivors, removed);
    AscendIffDistinct(removed);
    AscendIffDistinct(survivors);
  }

  lemma {:induction false} SplitOfSource(raw: seq<RawEvent>, c: Completeness, key: DeletionKey, seed: nat,
                                         names: seq<nat>, removed: seq<RawEvent>, survivors: seq<RawEvent>, name: nat)
    requires Valid(c) && SplitSoFar(raw, c, key, seed, names, removed, survivors)
    requires forall r :: r in raw ==> r.source in names
    ensures OfSource(removed, name) == Deleted(raw, c, key, seed, name)
    ensures OfSource(survivors, name) == Kept(raw, c, key, seed, name)
    ensures multiset(OfSource(removed, name)) + multiset(OfSource(survivors, name)) == multiset(OfSource(raw, name))
  {
    if name !in names {
      OfSourceAbsent(removed, name);
      OfSourceAbsent(survivors, name);
      OfSourceAbsent(raw, name);
    }
  }

  lemma PartIsDistinct(raw: seq<RawEvent>, part: seq<RawEvent>, other: seq<RawEvent>)
    requires NumbersDistinct(raw) && multiset(part) + multiset(other) == multiset(raw)
    ensures NumbersDistinct(part)
  {
    forall r | r in part ensures r in raw && multiset(part)[r] == 1 {
      assert r in multiset(part);
      assert r in multiset(raw);
    }
  }

  /** The addresses a level deletes. */
  ghost function DeletedKeys(raw: seq<RawEvent>, c: Completeness, key: DeletionKey, seed: nat): set<(nat, nat)>
    requires Valid(c)
  {
    set r | r in raw && r in Deleted(raw, c, key, seed, r.source) :: Address(r)
  }

  lemma {:induction false} RemovedAreDeleted(raw: seq<RawEvent>, c: Completeness, key: DeletionKey, seed: nat,
                                             r: Degradation)
    requires DegradationOf(raw, c, key, seed, r)
    ensures RemovedKeys(r.removed) == DeletedKeys(raw, c, key, seed)
  {
    forall a ensures a in RemovedKeys(r.removed) <==> a in DeletedKeys(raw, c, key, seed) {
      if a in RemovedKeys(r.removed) {
        var x :| x in r.removed && Address(x) == a;
        OnItsSide(raw, c, key, seed, r, x);
      }
      if a in DeletedKeys(raw, c, key, seed) {
        var x :| x in raw && x in Deleted(raw, c, key, seed, x.source) && Address(x) == a;
        OnItsSide(raw, c, key, seed, r, x);
      }
    }
  }

  /** The parent is a level of the same stream. */
  ghost predicate GenuineParent(raw: seq<RawEvent>, key: DeletionKey, parent: Parent) {
    parent.Parent? && DegradationOf(raw, parent.result.completeness, key, parent.result.seed, parent.result)
  }

  /** The outcome for any parent, genuine or not: the first test that fails, in order. */
  ghost predicate Judged(raw: seq<RawEvent>, c: Completeness, key: DeletionKey, seed: nat, parent: Parent, r: Outcome)
    requires Valid(c)
  {
    if !NumbersDistinct(raw) then r.NumberReused?
    else if parent.NoParent? then r.Degraded?
    else if !Below(c, parent.result.completeness) then r.ParentNotHigher?
    else if parent.result.seed != seed then r.SeedChanged?
    else if RemovedKeys(parent.result.removed) <= DeletedKeys(raw, c, key, seed) then r.Degraded?
    else r.NestingViolated?
  }

  /** `degrade`: refused when a source numbers two records alike or the parent is no parent;
      never for a nesting violation when the parent came from the same stream. */
  method Degrade(raw: seq<RawEvent>, c: Completeness, key: DeletionKey, seed: nat, parent: Parent) returns (r: Outcome)
    requires Valid(c)
    ensures r.Degraded? ==> DegradationOf(raw, c, key, seed, r.result)
    ensures Judged(raw, c, key, seed, parent, r)
    ensures NumbersDistinct(raw) && GenuineParent(raw, key, parent) ==> !r.NestingViolated?
  {
    var ok, removed, survivors;
    ghost var names;
    ok, removed, survivors, names := SplitSources(raw, c, key, seed);
    if !ok {
      return NumberReused;
    }
    SplitIsDegradation(raw, c, key, seed, names, removed, survivors);
    OrdersAreStrict(key, seed);
    var result := Degradation(Sort(StreamLess, survivors), Sort(StreamLess, removed), c, seed);
    var removedOrdered := CheckStrictlyAscending(StreamLess, result.removed);
    var survivorsOrdered := CheckStrictlyAscending(StreamLess, result.raw);
    if !removedOrdered || !survivorsOrdered {
      return NumberReused;
    }
    RemovedAreDeleted(raw, c, key, seed, result);
    if parent.Parent? {
      if !Below(c, parent.result.completeness) {
        return ParentNotHigher;
      }
      if parent.result.seed != seed {
        return SeedChanged;
      }
      if DegradationOf(raw, parent.result.completeness, key, seed, parent.result) {
        ParentIsContained(raw, c, parent.result.completeness, key, seed, result, parent.result);
      }
      if !(RemovedKeys(parent.result.removed) <= RemovedKeys(result.removed)) {
        return NestingViolated;
      }
    }
    return Degraded(result);
  }
}
