/** The exhaustive minimality probe (cut.py, `_admissible_level_vectors`, `exhaustive_probe`). */
module Probe {
  import opened Arithmetic
  import opened Reachability
  import opened HittingSets
  import opened Selection
  import opened AtomTables
  import opened Corridors

  // ---------------------------------------------------------------------------
  // The admissible lattice, listed
  // ---------------------------------------------------------------------------

  function Extensions(v: Levels, top: nat): (vs: seq<Levels>)
    ensures |vs| == top + 1 && forall l :: 0 <= l <= top ==> vs[l] == v + [l]
  {
    seq(top + 1, l requires 0 <= l <= top => v + [l])
  }

  function ExtendAll(vs: seq<Levels>, top: nat): seq<Levels> {
    if vs == [] then [] else ExtendAll(vs[..|vs| - 1], top) + Extensions(vs[|vs| - 1], top)
  }

  ghost predicate Bounded(v: Levels, tops: seq<nat>) {
    |v| == |tops| && forall k :: 0 <= k < |v| ==> v[k] <= tops[k]
  }

  /** The vectors within `tops`, each once, in lexicographic order. */
  ghost predicate Lattice(vs: seq<Levels>, tops: seq<nat>) {
    && (forall v :: v in vs <==> Bounded(v, tops))
    && forall i, j :: 0 <= i < j < |vs| ==> LexLess(vs[i], vs[j])
  }

  lemma {:induction false} ExtendAllMembers(vs: seq<Levels>, top: nat, v: Levels)
    ensures v in ExtendAll(vs, top) <==> |v| > 0 && v[..|v| - 1] in vs && v[|v| - 1] <= top
    decreases |vs|
  {
    if vs != [] {
      var last := vs[|vs| - 1];
      ExtendAllMembers(vs[..|vs| - 1], top, v);
      assert vs == vs[..|vs| - 1] + [last];
      if v in Extensions(last, top) {
        var l :| 0 <= l <= top && Extensions(last, top)[l] == v;
        assert v[..|v| - 1] == last;
      }
      if |v| > 0 && v[..|v| - 1] == last && v[|v| - 1] <= top {
        assert Extensions(last, top)[v[|v| - 1]] == v;
      }
    }
  }

  lemma LexLessPrefixes(a: Levels, b: Levels)
    requires |a| == |b| > 0 && LexLess(a[..|a| - 1], b[..|b| - 1])
    ensures LexLess(a, b)
  {
    var a', b' := a[..|a| - 1], b[..|b| - 1];
    var j :| 0 <= j < |a'| && j < |b'| && a'[..j] == b'[..j] && a'[j] < b'[j];
    assert a[..j] == a'[..j] && b[..j] == b'[..j];
  }

  ghost predicate SortedLex(vs: seq<Levels>) {
    forall i, j :: 0 <= i < j < |vs| ==> LexLess(vs[i], vs[j])
  }

  lemma ExtensionsSorted(v: Levels, top: nat)
    ensures SortedLex(Extensions(v, top))
  {
    var vs := Extensions(v, top);
    forall i, j | 0 <= i < j < |vs| ensures LexLess(vs[i], vs[j]) {
      assert vs[i][..|v|] == v && vs[j][..|v|] == v;
    }
  }

  lemma SortedConcat(a: seq<Levels>, b: seq<Levels>)
    requires SortedLex(a) && SortedLex(b)
    requires forall x, y :: x in a && y in b ==> LexLess(x, y)
    ensures SortedLex(a + b)
  {
    forall i, j | 0 <= i < j < |a + b| ensures LexLess((a + b)[i], (a + b)[j]) {
      if i < |a| <= j {
        assert a[i] in a && b[j - |a|] in b;
      }
    }
  }

  lemma {:induction false} ExtendAllSorted(vs: seq<Levels>, top: nat, n: nat)
    requires SortedLex(vs) && forall v :: v in vs ==> |v| == n
    ensures SortedLex(ExtendAll(vs, top))
    decreases |vs|
  {
    if vs != [] {
      var front, last := vs[..|vs| - 1], vs[|vs| - 1];
      assert forall i :: 0 <= i < |front| ==> front[i] == vs[i];
      assert forall v :: v in front ==> v in vs;
      ExtendAllSorted(front, top, n);
      ExtensionsSorted(last, top);
      forall x, y | x in ExtendAll(front, top) && y in Extensions(last, top) ensures LexLess(x, y) {
        ExtendAllMembers(front, top, x);
        var i :| 0 <= i < |front| && front[i] == x[..|x| - 1];
        var l :| 0 <= l <= top && Extensions(last, top)[l] == y;
        assert y[..|y| - 1] == last && last in vs && front[i] in vs;
        LexLessPrefixes(x, y);
      }
      SortedConcat(ExtendAll(front, top), Extensions(last, top));
    }
  }

  lemma {:induction false} LatticeStep(vs: seq<Levels>, tops: seq<nat>, top: nat)
    requires Lattice(vs, tops)
    ensures Lattice(ExtendAll(vs, top), tops + [top])
  {
    var more := tops + [top];
    forall v ensures v in ExtendAll(vs, top) <==> Bounded(v, more) {
      ExtendAllMembers(vs, top, v);
      if |v| == |more| {
        assert v == v[..|v| - 1] + [v[|v| - 1]];
        assert forall k :: 0 <= k < |tops| ==> more[k] == tops[k] && v[..|v| - 1][k] == v[k];
      }
    }
    ExtendAllSorted(vs, top, |tops|);
  }

  function WithRaised(vs: seq<Levels>, k: nat): (r: seq<Levels>)
    ensures forall v :: v in r <==> v in vs && |Raised(v)| == k
  {
    if vs == [] then []
    else
      var last := vs[|vs| - 1];
      var front := WithRaised(vs[..|vs| - 1], k);
      assert vs == vs[..|vs| - 1] + [last];
      if |Raised(last)| == k then front + [last] else front
  }

  /** How many vectors within `tops` raise exactly `k` controls. */
  function VectorsRaising(tops: seq<nat>, k: nat): nat {
    if tops == [] then (if k == 0 then 1 else 0)
    else
      var front, top := tops[..|tops| - 1], tops[|tops| - 1];
      VectorsRaising(front, k) + if k == 0 then 0 else top * VectorsRaising(front, k - 1)
  }

  ghost predicate Tallied(vs: seq<Levels>, tops: seq<nat>) {
    forall k: nat :: |WithRaised(vs, k)| == VectorsRaising(tops, k)
  }

  lemma TallyOfEmpty()
    ensures Tallied([[]], [])
  {
    var none: seq<Levels> := [[]];
    assert none[..0] == [] && Raised(none[0]) == [];
    assert forall k: nat :: WithRaised(none[..0], k) == [];
  }

  lemma {:induction false} WithRaisedConcat(a: seq<Levels>, b: seq<Levels>, k: nat)
    ensures |WithRaised(a + b, k)| == |WithRaised(a, k)| + |WithRaised(b, k)|
    decreases |b|
  {
    if b == [] {
      assert a + b == a;
    } else {
      assert (a + b)[..|a + b| - 1] == a + b[..|b| - 1];
      WithRaisedConcat(a, b[..|b| - 1], k);
    }
  }

  lemma {:induction false} RaisedExtended(v: Levels, l: nat)
    ensures |Raised(v + [l])| == |Raised(v)| + if l >= 1 then 1 else 0
  {
    assert (v + [l])[..|v|] == v;
  }

  lemma {:induction false} WithRaisedLast(vs: seq<Levels>, front: seq<Levels>, last: Levels, k: nat)
    requires vs == front + [last]
    ensures |WithRaised(vs, k)| == |WithRaised(front, k)| + if |Raised(last)| == k then 1 else 0
  {
    assert vs[..|vs| - 1] == front;
  }

  lemma ExtensionsLast(v: Levels, top: nat)
    ensures top == 0 ==> Extensions(v, top) == [] + [v + [0]]
    ensures top > 0 ==> Extensions(v, top) == Extensions(v, top - 1) + [v + [top]]
  {
  }

  /** One control more: left alone, or raised to one of its levels. */
  lemma {:induction false} ExtensionsTally(v: Levels, top: nat, k: nat, n: nat, vs: seq<Levels>)
    requires n == |Raised(v)| && vs == Extensions(v, top)
    ensures |WithRaised(vs, k)| == (if n == k then 1 else 0) + if n + 1 == k then top else 0
    decreases top
  {
    RaisedExtended(v, top);
    ExtensionsLast(v, top);
    if top == 0 {
      var none: seq<Levels> := [];
      assert |WithRaised(none, k)| == 0;
      WithRaisedLast(vs, none, v + [0], k);
    } else {
      var front := Extensions(v, top - 1);
      ExtensionsTally(v, top - 1, k, n, front);
      WithRaisedLast(vs, front, v + [top], k);
    }
  }

  /** How many of the vectors raise `k` controls; none raises a negative number. */
  function Tally(vs: seq<Levels>, k: int): nat {
    if k < 0 then 0 else |WithRaised(vs, k)|
  }

  function One(b: bool): nat { if b then 1 else 0 }

  lemma OneMoreTimes(top: nat, n: nat, one: bool, sum: nat)
    requires sum == n + One(one)
    ensures top * sum == top * n + if one then top else 0
  {
  }

  lemma {:induction false} TallyLast(vs: seq<Levels>, k: int)
    requires vs != []
    ensures Tally(vs, k) == Tally(vs[..|vs| - 1], k) + One(|Raised(vs[|vs| - 1])| == k)
  {
    if k >= 0 {
      WithRaisedLast(vs, vs[..|vs| - 1], vs[|vs| - 1], k);
    }
  }

  lemma {:induction false} TallyExtended(vs: seq<Levels>, top: nat, k: nat)
    requires vs != []
    ensures var n := |Raised(vs[|vs| - 1])|;
            Tally(ExtendAll(vs, top), k) == Tally(ExtendAll(vs[..|vs| - 1], top), k)
                + One(n == k) + if n == k - 1 then top else 0
  {
    var last := vs[|vs| - 1];
    ExtensionsTally(last, top, k, |Raised(last)|, Extensions(last, top));
    WithRaisedConcat(ExtendAll(vs[..|vs| - 1], top), Extensions(last, top), k);
  }

  lemma {:induction false} ExtendAllTally(vs: seq<Levels>, top: nat, k: nat)
    ensures Tally(ExtendAll(vs, top), k) == Tally(vs, k) + top * Tally(vs, k - 1)
    decreases |vs|
  {
    if vs != [] {
      var front := vs[..|vs| - 1];
      ExtendAllTally(front, top, k);
      TallyExtended(vs, top, k);
      TallyLast(vs, k);
      TallyLast(vs, k - 1);
      OneMoreTimes(top, Tally(front, k - 1), |Raised(vs[|vs| - 1])| == k - 1, Tally(vs, k - 1));
    }
  }

  lemma {:induction false} TallyStep(vs: seq<Levels>, tops: seq<nat>, top: nat)
    requires Tallied(vs, tops)
    ensures Tallied(ExtendAll(vs, top), tops + [top])
  {
    assert (tops + [top])[..|tops|] == tops;
    forall k: nat ensures |WithRaised(ExtendAll(vs, top), k)| == VectorsRaising(tops + [top], k) {
      ExtendAllTally(vs, top, k);
    }
  }

  function Tops(t: Table): (tops: seq<nat>)
    ensures |tops| == |ControlsOf(t)| && forall k :: 0 <= k < |tops| ==> tops[k] == |LevelsOf(t, ControlsOf(t)[k])|
  {
    seq(|ControlsOf(t)|, k requires 0 <= k < |ControlsOf(t)| => |LevelsOf(t, ControlsOf(t)[k])|)
  }

  /** Every admissible assignment of one level per control: the whole lattice, once each. */
  method AdmissibleLevelVectors(t: Table) returns (vectors: seq<Levels>)
    ensures forall v :: v in vectors <==> Admissible(t, v)
    ensures forall i, j :: 0 <= i < j < |vectors| ==> LexLess(vectors[i], vectors[j])
    ensures Tallied(vectors, Tops(t))
  {
    var tops := Tops(t);
    vectors := [[]];
    TallyOfEmpty();
    for k := 0 to |tops|
      invariant Lattice(vectors, tops[..k]) && Tallied(vectors, tops[..k])
    {
      LatticeStep(vectors, tops[..k], tops[k]);
      TallyStep(vectors, tops[..k], tops[k]);
      assert tops[..k + 1] == tops[..k] + [tops[k]];
      vectors := ExtendAll(vectors, tops[k]);
    }
    assert tops[..|tops|] == tops;
    assert forall v :: Bounded(v, tops) <==> Admissible(t, v);
  }

  // ---------------------------------------------------------------------------
  // The probe
  // ---------------------------------------------------------------------------

  datatype ProbeResult = CardinalityZero | CombinationCap | Ran(tested: nat, smallerFound: bool)

  lemma UnraisedControl(w: Levels) returns (c: nat)
    requires |Raised(w)| < |w|
    ensures c < |w| && w[c] == 0
  {
    var raised := Elements(Raised(w));
    AscendingSize(Raised(w));
    if Range(|w|) <= raised {
      SubsetSize(Range(|w|), raised);
    }
    c :| c in Range(|w|) && c !in raised;
    assert c !in Raised(w);
  }

  lemma RaisedAfter(w: Levels, c: nat)
    requires c < |w| && w[c] == 0
    ensures |Raised(w[c := 1])| == |Raised(w)| + 1
  {
    var raised := Elements(Raised(w));
    RaisedControls(w, raised);
    RaisedControls(w[c := 1], raised + {c});
  }

  /** Some unraised control can be raised to its first level. */
  lemma RaiseOne(t: Table, w: Levels) returns (v: Levels)
    requires WellFormedTable(t) && Admissible(t, w) && |Raised(w)| < |w|
    ensures Admissible(t, v) && |Raised(v)| == |Raised(w)| + 1
    ensures CutMask(t, w) <= CutMask(t, v)
  {
    var c := UnraisedControl(w);
    ControlHasLevel(t, c);
    RaisedAfter(w, c);
    v := w[c := 1];
    CutMaskMonotone(t, w, v);
  }

  /** A severing vector can be padded to any larger number of controls the table has. */
  lemma {:induction false} PadSevering(p: Program, t: Table, w: Levels, k: nat) returns (v: Levels)
    requires WellFormedTable(t) && SeveringLevels(p, t, w) && |Raised(w)| <= k <= |w|
    ensures SeveringLevels(p, t, v) && |Raised(v)| == k
    decreases k - |Raised(w)|
  {
    if |Raised(w)| == k {
      v := w;
    } else {
      var up := RaiseOne(t, w);
      SeversUpward(p, CutMask(t, w), CutMask(t, up));
      v := PadSevering(p, t, up, k);
    }
  }

  lemma {:induction false} RaisedAtMost(w: Levels)
    ensures |Raised(w)| <= |w|
  {
    AscendingSize(Raised(w));
    assert Elements(Raised(w)) <= Range(|w|);
    SubsetSize(Elements(Raised(w)), Range(|w|));
  }

  /** Testing the vectors one control smaller decides every smaller size, exactly as long as
      the table has that many controls to raise. */
  lemma {:induction false} OneSmallerDecidesAll(p: Program, t: Table, k: nat)
    requires WellFormedTable(t) && k >= 1
    ensures (exists w :: SeveringLevels(p, t, w) && |Raised(w)| == k - 1)
       <==> k - 1 <= |ControlsOf(t)| && exists w :: SeveringLevels(p, t, w) && |Raised(w)| < k
  {
    if w :| SeveringLevels(p, t, w) && |Raised(w)| == k - 1 {
      RaisedAtMost(w);
    }
    if k - 1 <= |ControlsOf(t)| {
      if w :| SeveringLevels(p, t, w) && |Raised(w)| < k {
        var v := PadSevering(p, t, w, k - 1);
      }
    }
  }

  method TestVector(p: Program, t: Table, w: Levels) returns (severs: bool)
    requires WellFormed(p) && WellFormedTable(t) && Admissible(t, w)
    ensures severs <==> SeveringLevels(p, t, w)
  {
    var cut := CutOfLevels(t, w, Unverified);
    var reached := Reach(p, cut.mask);
    severs := !reached.derivable;
  }

  method TestCandidates(p: Program, t: Table, candidates: seq<Levels>) returns (smaller: bool)
    requires WellFormed(p) && WellFormedTable(t) && forall v :: v in candidates ==> Admissible(t, v)
    ensures smaller <==> exists j :: 0 <= j < |candidates| && SeveringLevels(p, t, candidates[j])
  {
    smaller := false;
    for i := 0 to |candidates|
      invariant smaller <==> exists j :: 0 <= j < i && SeveringLevels(p, t, candidates[j])
    {
      assert candidates[i] in candidates;
      var severs := TestVector(p, t, candidates[i]);
      smaller := smaller || severs;
    }
  }

  /** A fixpoint for every admissible cut one control smaller. When it ran, finding nothing
      rules out every smaller cut, provided the asked cardinality is at most one more than
      the number of controls; beyond that it tests nothing and finds nothing. */
  method ExhaustiveProbe(p: Program, t: Table, cardinality: int, cap: nat) returns (r: ProbeResult)
    requires WellFormed(p) && WellFormedTable(t)
    ensures r.CardinalityZero? <==> cardinality < 1
    ensures r.CombinationCap? <==> cardinality >= 1 && VectorsRaising(Tops(t), cardinality - 1) > cap
    ensures r.Ran? ==> r.tested == VectorsRaising(Tops(t), cardinality - 1)
    ensures r.Ran? ==>
              (r.smallerFound <==> cardinality - 1 <= |ControlsOf(t)|
                                   && exists w :: SeveringLevels(p, t, w) && |Raised(w)| < cardinality)
  {
    if cardinality < 1 {
      return CardinalityZero;
    }
    var vectors := AdmissibleLevelVectors(t);
    var candidates := WithRaised(vectors, cardinality - 1);
    if |candidates| > cap {
      return CombinationCap;
    }
    var smaller := TestCandidates(p, t, candidates);
    CandidatesDecide(p, t, candidates, cardinality);
    return Ran(|candidates|, smaller);
  }

  lemma {:induction false} CandidatesDecide(p: Program, t: Table, candidates: seq<Levels>, k: nat)
    requires WellFormedTable(t) && k >= 1
    requires forall v :: v in candidates <==> Admissible(t, v) && |Raised(v)| == k - 1
    ensures (exists j :: 0 <= j < |candidates| && SeveringLevels(p, t, candidates[j]))
       <==> k - 1 <= |ControlsOf(t)| && exists w :: SeveringLevels(p, t, w) && |Raised(w)| < k
  {
    OneSmallerDecidesAll(p, t, k);
    if j :| 0 <= j < |candidates| && SeveringLevels(p, t, candidates[j]) {
      assert candidates[j] in candidates;
    }
    if w :| SeveringLevels(p, t, w) && |Raised(w)| == k - 1 {
      assert w in candidates;
    }
  }
}
