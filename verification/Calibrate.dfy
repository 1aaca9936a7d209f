/** Calibration of arrival gaps (calibrate.py): the gap vector of one source split by regime,
    and the exact-rank quantile taken from it.
 */
module Calibrate {
  import opened Arithmetic
  import opened Sorting
  import opened Wrappers

  datatype Event = Event(time: int, seqNo: nat, id: nat)

  /** One regime, `[t0, t1)`. */
  datatype Phase = Phase(regime: nat, t0: int, t1: int)

  datatype Excluded = Excluded(t0: int, t1: int)

  predicate Contains(p: Phase, t: int) {
    p.t0 <= t < p.t1
  }

  predicate IntersectsClosed(e: Excluded, a: int, b: int) {
    e.t0 <= b && a < e.t1
  }

  /** An instant of both an exclusion and a closed span. */
  predicate Shared(e: Excluded, a: int, b: int, t: int) {
    e.t0 <= t < e.t1 && a <= t <= b
  }

  /** An exclusion meets a closed span exactly when they share an instant, or when it is empty
      and lies after the span's start. Its end is not part of it: a gap of no length right there
      is kept. */
  lemma MeetsIffShared(e: Excluded, a: int, b: int)
    requires e.t0 <= e.t1 && a <= b
    ensures IntersectsClosed(e, a, b) <==> (exists t :: Shared(e, a, b, t)) || (e.t0 == e.t1 && a < e.t0 <= b)
    ensures a == b == e.t1 ==> !IntersectsClosed(e, a, b)
  {
    var t := if a >= e.t0 then a else e.t0;
    assert IntersectsClosed(e, a, b) && e.t0 < e.t1 ==> Shared(e, a, b, t);
  }

  // ---------------------------------------------------------------------------
  // The phase timeline
  // ---------------------------------------------------------------------------

  ghost predicate Timeline(phases: seq<Phase>) {
    && (forall i :: 0 <= i < |phases| ==> phases[i].t0 < phases[i].t1)
    && (forall i, j :: 0 <= i < j < |phases| ==> phases[i].t1 <= phases[j].t0)
    && forall i, j :: 0 <= i < j < |phases| ==> phases[i].regime != phases[j].regime
  }

  predicate PhaseLess(p: Phase, q: Phase) {
    p.t0 < q.t0 || (p.t0 == q.t0 && p.t1 < q.t1)
  }

  datatype Checked = Accepted | NotAscending | Overlap | Repeated

  lemma {:induction false} OverlapFree(phases: seq<Phase>, i: nat, j: nat)
    requires forall k :: 0 <= k < |phases| ==> phases[k].t0 < phases[k].t1
    requires forall k :: 1 <= k < |phases| ==> phases[k - 1].t1 <= phases[k].t0
    requires i < j < |phases|
    ensures phases[i].t1 <= phases[j].t0
    decreases j
  {
    if i + 1 < j {
      OverlapFree(phases, i, j - 1);
      assert phases[j - 1].t1 <= phases[j].t0;
    } else {
      assert phases[j - 1].t1 <= phases[j].t0;
    }
  }

  lemma TimelineAscends(phases: seq<Phase>)
    ensures Timeline(phases) ==> Ascending(PhaseLess, phases)
  {
  }

  /** `check_phases`: accepts a timeline and nothing else. Each phase is longer than nothing by
      construction. */
  method CheckPhases(phases: seq<Phase>) returns (r: Checked)
    requires forall k :: 0 <= k < |phases| ==> phases[k].t0 < phases[k].t1
    ensures r.Accepted? <==> Timeline(phases)
    ensures r.NotAscending? ==> !Ascending(PhaseLess, phases)
    ensures r.Overlap? ==> exists i :: 1 <= i < |phases| && phases[i].t0 < phases[i - 1].t1
    ensures r.Repeated? ==> exists i, j :: 0 <= i < j < |phases| && phases[i].regime == phases[j].regime
  {
    TimelineAscends(phases);
    var ascending := CheckStrictlyAscending(PhaseLess, phases);
    if !ascending {
      return NotAscending;
    }
    var overlap := HasOverlap(phases);
    if overlap {
      return Overlap;
    }
    var repeated := HasRepeat(phases);
    if repeated {
      return Repeated;
    }
    forall i, j | 0 <= i < j < |phases| ensures phases[i].t1 <= phases[j].t0 {
      OverlapFree(phases, i, j);
    }
    return Accepted;
  }

  method HasOverlap(phases: seq<Phase>) returns (overlap: bool)
    ensures overlap <==> exists i :: 1 <= i < |phases| && phases[i].t0 < phases[i - 1].t1
  {
    var k := 1;
    while k < |phases|
      invariant 1 <= k && forall i :: 1 <= i < |phases| && i < k ==> phases[i - 1].t1 <= phases[i].t0
    {
      if phases[k].t0 < phases[k - 1].t1 {
        return true;
      }
      k := k + 1;
    }
    return false;
  }

  method HasRepeat(phases: seq<Phase>) returns (repeated: bool)
    ensures repeated <==> exists i, j :: 0 <= i < j < |phases| && phases[i].regime == phases[j].regime
  {
    var seen: set<nat> := {};
    for i := 0 to |phases|
      invariant forall r :: r in seen <==> exists j :: 0 <= j < i && phases[j].regime == r
      invariant forall a, b :: 0 <= a < b < i ==> phases[a].regime != phases[b].regime
    {
      if phases[i].regime in seen {
        return true;
      }
      seen := seen + {phases[i].regime};
    }
    return false;
  }

  /** `phase_of`. */
  function PhaseOf(phases: seq<Phase>, t: int): (r: Option<nat>)
    ensures r.None? <==> forall i :: 0 <= i < |phases| ==> !Contains(phases[i], t)
    ensures r.Some? ==> exists i :: 0 <= i < |phases| && Contains(phases[i], t) && phases[i].regime == r.value
  {
    if phases == [] then None
    else if Contains(phases[0], t) then
      assert Contains(phases[0], t);
      Some(phases[0].regime)
    else
      var rest := PhaseOf(phases[1..], t);
      assert forall i :: 0 <= i < |phases[1..]| ==> phases[1..][i] == phases[i + 1];
      assert forall i :: 1 <= i < |phases| ==> phases[i] == phases[1..][i - 1];
      rest
  }

  lemma PhasesDisjoint(phases: seq<Phase>, i: nat, j: nat, t: int)
    requires Timeline(phases) && i < j < |phases|
    ensures !(Contains(phases[i], t) && Contains(phases[j], t))
  {
  }

  /** In a timeline an instant has the regime of phase `i` exactly when it lies in it. */
  lemma {:induction false} RegimeOfPhase(phases: seq<Phase>, i: nat, t: int)
    requires Timeline(phases) && i < |phases|
    ensures PhaseOf(phases, t) == Some(phases[i].regime) <==> Contains(phases[i], t)
  {
    if PhaseOf(phases, t).Some? {
      var j :| 0 <= j < |phases| && Contains(phases[j], t) && phases[j].regime == PhaseOf(phases, t).value;
      if i < j {
        PhasesDisjoint(phases, i, j, t);
      } else if j < i {
        PhasesDisjoint(phases, j, i, t);
      }
    }
  }

  // ---------------------------------------------------------------------------
  // The gap vector
  // ---------------------------------------------------------------------------

  /** The calibration order: time, sequence number, id. */
  predicate EventLess(a: Event, b: Event) {
    a.time < b.time || (a.time == b.time && (a.seqNo < b.seqNo || (a.seqNo == b.seqNo && a.id < b.id)))
  }

  predicate IntLess(a: int, b: int) {
    a < b
  }

  function Times(events: seq<Event>): (s: seq<int>)
    ensures |s| == |events| && forall k :: 0 <= k < |s| ==> s[k] == events[k].time
  {
    seq(|events|, k requires 0 <= k < |events| => events[k].time)
  }

  /** The regime a gap counts for: both ends lie in it, and no exclusion meets it. */
  function GapRegime(phases: seq<Phase>, excluded: seq<Excluded>, a: int, b: int): Option<nat> {
    var left := PhaseOf(phases, a);
    if left.None? || left != PhaseOf(phases, b) then None
    else if exists i :: 0 <= i < |excluded| && IntersectsClosed(excluded[i], a, b) then None
    else left
  }

  /** A gap counts for a phase's regime when both its ends are in the phase and nothing excluded meets it. */
  lemma {:induction false} GapIsWithinPhase(phases: seq<Phase>, excluded: seq<Excluded>, i: nat, a: int, b: int)
    requires Timeline(phases) && i < |phases|
    ensures GapRegime(phases, excluded, a, b) == Some(phases[i].regime)
       <==> Contains(phases[i], a) && Contains(phases[i], b)
            && forall j :: 0 <= j < |excluded| ==> !IntersectsClosed(excluded[j], a, b)
  {
    RegimeOfPhase(phases, i, a);
    RegimeOfPhase(phases, i, b);
  }

  /** The gaps of one regime among the first instants, in order of arrival. */
  function GapsOf(times: seq<int>, phases: seq<Phase>, excluded: seq<Excluded>, regime: nat): seq<int> {
    if |times| < 2 then []
    else
      var n := |times|;
      GapsOf(times[..n - 1], phases, excluded, regime)
      + if GapRegime(phases, excluded, times[n - 2], times[n - 1]) == Some(regime)
           then [times[n - 1] - times[n - 2]] else []
  }

  function Sum(s: seq<int>): int {
    if s == [] then 0 else Sum(s[..|s| - 1]) + s[|s| - 1]
  }

  ghost predicate NonDecreasing(times: seq<int>) {
    forall i, j :: 0 <= i < j < |times| ==> times[i] <= times[j]
  }

  function Clamp(t: int, low: int, high: int): int {
    if t < low then low else if t > high then high else t
  }

  lemma {:induction false} SumOne(s: seq<int>, x: int)
    ensures Sum(s + [x]) == Sum(s) + x
  {
    assert (s + [x])[..|s|] == s;
  }

  /** So far the gaps of a regime add up to no more than the part of its phase gone by. */
  lemma {:induction false} GapsFitSoFar(times: seq<int>, phases: seq<Phase>, excluded: seq<Excluded>, i: nat)
    requires Timeline(phases) && i < |phases| && NonDecreasing(times) && times != []
    ensures Sum(GapsOf(times, phases, excluded, phases[i].regime))
          <= Clamp(times[|times| - 1], phases[i].t0, phases[i].t1 - 1) - phases[i].t0
    decreases |times|
  {
    var n, p := |times|, phases[i];
    if n >= 2 {
      var front := times[..n - 1];
      GapsFitSoFar(front, phases, excluded, i);
      assert front[n - 2] == times[n - 2] <= times[n - 1];
      if GapRegime(phases, excluded, times[n - 2], times[n - 1]) == Some(p.regime) {
        RegimeOfPhase(phases, i, times[n - 2]);
        RegimeOfPhase(phases, i, times[n - 1]);
        SumOne(GapsOf(front, phases, excluded, p.regime), times[n - 1] - times[n - 2]);
      } else {
        assert GapsOf(times, phases, excluded, p.regime) == GapsOf(front, phases, excluded, p.regime);
      }
    }
  }

  /** The gaps of a regime add up to less than its phase. */
  lemma {:induction false} GapsFitPhase(times: seq<int>, phases: seq<Phase>, excluded: seq<Excluded>, i: nat)
    requires Timeline(phases) && i < |phases| && NonDecreasing(times)
    ensures Sum(GapsOf(times, phases, excluded, phases[i].regime)) < phases[i].t1 - phases[i].t0
  {
    if times != [] {
      GapsFitSoFar(times, phases, excluded, i);
    }
  }

  datatype Vector = Vector(regime: nat, gaps: seq<int>)

  datatype GapVectors = GapVectors(vectors: seq<Vector>) | ProfileInvalid

  /** The dictionary holds each regime's gaps so far, and no regime without one. */
  ghost predicate Collected(byRegime: map<nat, seq<int>>, times: seq<int>, phases: seq<Phase>,
                            excluded: seq<Excluded>)
  {
    forall regime :: if regime in byRegime then byRegime[regime] == GapsOf(times, phases, excluded, regime) != []
                     else GapsOf(times, phases, excluded, regime) == []
  }

  function AddGap(byRegime: map<nat, seq<int>>, regime: nat, gap: int): map<nat, seq<int>> {
    byRegime[regime := (if regime in byRegime then byRegime[regime] else []) + [gap]]
  }

  lemma CollectedStep(byRegime: map<nat, seq<int>>, times: seq<int>, phases: seq<Phase>, excluded: seq<Excluded>,
                      k: nat)
    requires 1 <= k < |times| && Collected(byRegime, times[..k], phases, excluded)
    ensures var regime := GapRegime(phases, excluded, times[k - 1], times[k]);
            Collected(if regime.Some? then AddGap(byRegime, regime.value, times[k] - times[k - 1]) else byRegime,
                      times[..k + 1], phases, excluded)
  {
    assert times[..k + 1][..k] == times[..k];
    var counted := GapRegime(phases, excluded, times[k - 1], times[k]);
    forall regime: nat ensures GapsOf(times[..k + 1], phases, excluded, regime)
                       == GapsOf(times[..k], phases, excluded, regime)
                          + if counted == Some(regime) then [times[k] - times[k - 1]] else []
    {
    }
  }

  /** One neighbouring pair. */
  method CountGap(byRegime: map<nat, seq<int>>, times: seq<int>, phases: seq<Phase>, excluded: seq<Excluded>, k: nat)
    returns (byRegime': map<nat, seq<int>>)
    requires 1 <= k < |times| && Collected(byRegime, times[..k], phases, excluded)
    ensures Collected(byRegime', times[..k + 1], phases, excluded)
  {
    CollectedStep(byRegime, times, phases, excluded, k);
    byRegime' := byRegime;
    var regime := GapRegime(phases, excluded, times[k - 1], times[k]);
    if regime.Some? {
      byRegime' := AddGap(byRegime, regime.value, times[k] - times[k - 1]);
    }
  }

  /** The pass over neighbours: each regime's gaps under its name. */
  method CollectGaps(times: seq<int>, phases: seq<Phase>, excluded: seq<Excluded>)
    returns (ok: bool, byRegime: map<nat, seq<int>>)
    ensures ok <==> forall k :: 1 <= k < |times| ==> times[k - 1] <= times[k]
    ensures ok ==> Collected(byRegime, times, phases, excluded)
  {
    byRegime := map[];
    if |times| == 0 {
      return true, map[];
    }
    for k := 1 to |times|
      invariant forall m :: 1 <= m < k ==> times[m - 1] <= times[m]
      invariant Collected(byRegime, times[..k], phases, excluded)
    {
      var previous, current := times[k - 1], times[k];
      var span := current - previous;
      if span < 0 {
        return false, map[];
      }
      byRegime := CountGap(byRegime, times, phases, excluded, k);
    }
    assert times[..|times|] == times;
    ok := true;
  }

  /** `gap_vectors`: one sorted vector for each regime that has a gap, regimes ascending. The
      error for times that go back cannot occur once the events are sorted. */
  method FindGapVectors(events: seq<Event>, phases: seq<Phase>, excluded: seq<Excluded>) returns (r: GapVectors)
    ensures r.GapVectors?
    ensures forall i, j :: 0 <= i < j < |r.vectors| ==> r.vectors[i].regime < r.vectors[j].regime
    ensures forall v :: v in r.vectors
              <==> GapsOf(Times(Sort(EventLess, events)), phases, excluded, v.regime) != []
                   && v.gaps == Sort(IntLess, GapsOf(Times(Sort(EventLess, events)), phases, excluded, v.regime))
  {
    var ordered := Sort(EventLess, events);
    SortedTimes(events);
    var ok, byRegime := CollectGaps(Times(ordered), phases, excluded);
    if !ok {
      return ProfileInvalid;
    }
    var vectors := RenderVectors(byRegime);
    r := GapVectors(vectors);
  }

  predicate RegimeLess(a: nat, b: nat) {
    a < b
  }

  method RenderVectors(byRegime: map<nat, seq<int>>) returns (vectors: seq<Vector>)
    ensures forall i, j :: 0 <= i < j < |vectors| ==> vectors[i].regime < vectors[j].regime
    ensures forall v :: v in vectors <==> v.regime in byRegime && v.gaps == Sort(IntLess, byRegime[v.regime])
  {
    var regimes := SortedKeys(byRegime.Keys);
    vectors := [];
    for i := 0 to |regimes|
      invariant |vectors| == i
      invariant forall k :: 0 <= k < i ==>
                regimes[k] in byRegime && vectors[k] == Vector(regimes[k], Sort(IntLess, byRegime[regimes[k]]))
    {
      assert regimes[i] in byRegime.Keys;
      vectors := vectors + [Vector(regimes[i], Sort(IntLess, byRegime[regimes[i]]))];
    }
    forall v: Vector | v.regime in byRegime && v.gaps == Sort(IntLess, byRegime[v.regime]) ensures v in vectors {
      assert v.regime in regimes;
      var k :| 0 <= k < |regimes| && regimes[k] == v.regime;
      assert vectors[k] == v;
    }
  }

  /** A set of names in ascending order. */
  method SortedKeys(names: set<nat>) returns (s: seq<nat>)
    ensures forall x :: x in s <==> x in names
    ensures forall i, j :: 0 <= i < j < |s| ==> s[i] < s[j]
  {
    var left, list := names, [];
    while left != {}
      invariant forall x :: x in names <==> x in left || x in list
      invariant forall x :: x in list ==> x !in left && multiset(list)[x] == 1
      decreases left
    {
      var x :| x in left;
      assert x !in multiset(list);
      left, list := left - {x}, list + [x];
    }
    s := Sort(RegimeLess, list);
    SortLength(RegimeLess, list);
    SortAscends(RegimeLess, list);
    forall i, j | 0 <= i < j < |s| ensures s[i] < s[j] {
      assert RegimeLess(s[i], s[j]);
    }
  }

  lemma {:induction false} NeverDownIsSorted(s: seq<int>)
    requires forall i :: 1 <= i < |s| ==> s[i - 1] <= s[i]
    ensures NonDecreasing(s)
    decreases |s|
  {
    if s != [] {
      var front, last := s[..|s| - 1], s[|s| - 1];
      NeverDownIsSorted(front);
      forall i | 0 <= i < |front| ensures s[i] <= last {
        assert front[i] <= front[|front| - 1] <= last;
      }
      forall i, j | 0 <= i < j < |s| ensures s[i] <= s[j] {
        assert j < |front| ==> front[i] <= front[j];
      }
    }
  }

  lemma {:induction false} SortedTimes(events: seq<Event>)
    ensures NonDecreasing(Times(Sort(EventLess, events)))
  {
    var ordered := Sort(EventLess, events);
    SortNeverDown(EventLess, events);
    forall i | 1 <= i < |ordered| ensures ordered[i - 1].time <= ordered[i].time {
      assert !EventLess(ordered[i], ordered[i - 1]);
    }
    NeverDownIsSorted(Times(ordered));
  }

  // ---------------------------------------------------------------------------
  // The vector does not depend on the order of events
  // ---------------------------------------------------------------------------

  lemma Removed<T>(s: seq<T>, i: nat)
    requires i < |s|
    ensures multiset(s) == multiset(s[..i] + s[i + 1..]) + multiset{s[i]}
  {
    assert s == s[..i] + [s[i]] + s[i + 1..];
  }

  lemma RemovedFromBoth<T>(a: seq<T>, b: seq<T>, i: nat, j: nat)
    requires multiset(a) == multiset(b) && i < |a| && j < |b| && a[i] == b[j]
    ensures multiset(a[..i] + a[i + 1..]) == multiset(b[..j] + b[j + 1..])
  {
    Removed(a, i);
    Removed(b, j);
    var a', b' := multiset(a[..i] + a[i + 1..]), multiset(b[..j] + b[j + 1..]);
    assert a' == (a' + multiset{a[i]}) - multiset{a[i]};
    assert b' == (b' + multiset{b[j]}) - multiset{b[j]};
  }

  lemma TimesOfRest(events: seq<Event>, i: nat)
    requires i < |events|
    ensures multiset(Times(events)) == multiset(Times(events[..i] + events[i + 1..])) + multiset{events[i].time}
  {
    var times := Times(events);
    Removed(times, i);
    assert Times(events[..i] + events[i + 1..]) == times[..i] + times[i + 1..];
  }

  lemma {:induction false} TimesOfSame(a: seq<Event>, b: seq<Event>)
    requires multiset(a) == multiset(b)
    ensures multiset(Times(a)) == multiset(Times(b))
    decreases |a|
  {
    if a == [] {
      assert |multiset(b)| == |b|;
    } else {
      assert a[0] in multiset(b);
      var i :| 0 <= i < |b| && b[i] == a[0];
      RemovedFromBoth(a, b, 0, i);
      TimesOfSame(a[..0] + a[1..], b[..i] + b[i + 1..]);
      TimesOfRest(a, 0);
      TimesOfRest(b, i);
      assert multiset(Times(b)) == multiset(Times(a[..0] + a[1..])) + multiset{a[0].time};
    }
  }

  lemma SortedRest(a: seq<int>, b: seq<int>)
    requires NonDecreasing(a) && NonDecreasing(b) && multiset(a) == multiset(b) && a != []
    ensures b != [] && a[0] == b[0] && multiset(a[1..]) == multiset(b[1..])
  {
    assert a[0] in multiset(b);
    assert b != [] && b[0] in multiset(a);
    RestOf(a, a[0], a[1..]);
    RestOf(b, b[0], b[1..]);
  }

  lemma {:induction false} SortedIsUnique(a: seq<int>, b: seq<int>)
    requires NonDecreasing(a) && NonDecreasing(b) && multiset(a) == multiset(b)
    ensures a == b
    decreases |a|
  {
    if a == [] {
      assert |multiset(b)| == |b|;
    } else {
      SortedRest(a, b);
      SortedIsUnique(a[1..], b[1..]);
      assert a == [a[0]] + a[1..];
      assert b == [b[0]] + b[1..];
    }
  }

  /** The gaps depend on the instants alone, whatever order the events come in. */
  lemma {:induction false} GapsIgnoreOrder(events: seq<Event>, events': seq<Event>)
    requires multiset(events) == multiset(events')
    ensures Times(Sort(EventLess, events)) == Times(Sort(EventLess, events'))
  {
    SortedTimes(events);
    SortedTimes(events');
    TimesOfSame(Sort(EventLess, events), Sort(EventLess, events'));
    SortedIsUnique(Times(Sort(EventLess, events)), Times(Sort(EventLess, events')));
  }

  // ---------------------------------------------------------------------------
  // The exact-rank quantile
  // ---------------------------------------------------------------------------

  /** The share of gaps no longer than `x` is at least `p/q`. */
  ghost predicate Reaches(gaps: seq<int>, p: nat, q: nat, x: int) {
    q * CountUpTo(gaps, x) >= |gaps| * p
  }

  /** `q_exact`: nothing for an empty vector, else the least gap of the vector that reaches the
      share; a share above one gives the longest gap. */
  method QExact(gaps: seq<int>, p: nat, q: nat) returns (r: Option<int>)
    requires q > 0 && NonDecreasing(gaps)
    ensures r.None? <==> gaps == []
    ensures r.Some? ==> r.value in gaps
    ensures r.Some? && p <= q ==> Reaches(gaps, p, q, r.value)
    ensures r.Some? && p <= q ==> forall y :: y in gaps && Reaches(gaps, p, q, y) ==> r.value <= y
    ensures r.Some? && p > q ==> forall y :: y in gaps ==> y <= r.value
    ensures r.Some? ==> r.value == gaps[Rank(|gaps|, p, q) - 1]
  {
    var n := |gaps|;
    if n == 0 {
      return None;
    }
    if p <= q {
      QuantileIsLeastReaching(gaps, p, q);
    } else {
      RankAboveOne(n, p, q);
    }
    var j := (n * p + (q - 1)) / q;
    if j < 1 {
      j := 1;
    }
    if j > n {
      j := n;
    }
    return Some(gaps[j - 1]);
  }

  function Rank(n: nat, p: nat, q: nat): (j: nat)
    requires n > 0 && q > 0
    ensures 1 <= j <= n
  {
    var j := CeilDiv(n * p, q);
    if j < 1 then 1 else if j > n then n else j
  }

  /** How many gaps are no longer than `x`. */
  function CountUpTo(gaps: seq<int>, x: int): (c: nat)
    ensures c <= |gaps|
  {
    if gaps == [] then 0 else CountUpTo(gaps[..|gaps| - 1], x) + if gaps[|gaps| - 1] <= x then 1 else 0
  }

  /** In a sorted vector the gaps no longer than `x` are the first ones. */
  lemma {:induction false} CountIsPrefix(gaps: seq<int>, x: int, k: nat)
    requires NonDecreasing(gaps) && k < |gaps|
    ensures gaps[k] <= x <==> k < CountUpTo(gaps, x)
    decreases |gaps|
  {
    var n := |gaps|;
    var front := gaps[..n - 1];
    if k < n - 1 {
      CountIsPrefix(front, x, k);
      assert gaps[n - 1] <= x ==> front[k] <= x;
    } else if n > 1 {
      CountIsPrefix(front, x, n - 2);
      assert gaps[n - 1] <= x ==> front[n - 2] <= x;
    }
  }

  /** A gap reaches the share exactly when it is no shorter than the one at the rank. */
  lemma {:induction false} ReachesFromRank(gaps: seq<int>, p: nat, q: nat, k: nat)
    requires k < |gaps| && q > 0 && p <= q && NonDecreasing(gaps)
    ensures Reaches(gaps, p, q, gaps[k]) <==> gaps[Rank(|gaps|, p, q) - 1] <= gaps[k]
  {
    var n, count := |gaps|, CountUpTo(gaps, gaps[k]);
    var j := Rank(n, p, q);
    CountIsPrefix(gaps, gaps[k], k);
    CountIsPrefix(gaps, gaps[k], j - 1);
    CeilIsLeast(n * p, q, count);
    TimesMonotone(p, q, n);
    CeilIsLeast(n * p, q, n);
    assert count >= 1;
    assert CeilDiv(n * p, q) <= count <==> j <= count;
  }

  /** The quantile is the least gap `x` of the vector for which the share of gaps no longer
      than `x` is at least `p/q`. */
  lemma {:induction false} QuantileIsLeastReaching(gaps: seq<int>, p: nat, q: nat)
    requires gaps != [] && q > 0 && p <= q && NonDecreasing(gaps)
    ensures Reaches(gaps, p, q, gaps[Rank(|gaps|, p, q) - 1])
    ensures forall y :: y in gaps && Reaches(gaps, p, q, y) ==> gaps[Rank(|gaps|, p, q) - 1] <= y
  {
    var j := Rank(|gaps|, p, q);
    ReachesFromRank(gaps, p, q, j - 1);
    forall y | y in gaps && Reaches(gaps, p, q, y) ensures gaps[j - 1] <= y {
      var k :| 0 <= k < |gaps| && gaps[k] == y;
      ReachesFromRank(gaps, p, q, k);
    }
  }

  lemma RankAboveOne(n: nat, p: nat, q: nat)
    requires n > 0 && q > 0 && p > q
    ensures Rank(n, p, q) == n
  {
    TimesMonotone(q, p, n);
    CeilIsLeast(n * p, q, n - 1);
    TimesMonotone(n - 1, n, q);
  }

  /** A larger share never gives a smaller quantile. */
  lemma QuantileMonotone(gaps: seq<int>, p: nat, q: nat, p': nat, q': nat)
    requires gaps != [] && q > 0 && q' > 0 && p * q' <= p' * q && NonDecreasing(gaps)
    ensures gaps[Rank(|gaps|, p, q) - 1] <= gaps[Rank(|gaps|, p', q') - 1]
  {
    var n := |gaps|;
    var c := CeilDiv(n * p', q');
    CeilIsLeast(n * p', q', c);
    if p' > 0 {
      CrossMultiply(n, c, q', p', q, p);
    } else {
      CancelFactor(p, 0, q');
    }
    CeilIsLeast(n * p, q, c);
  }
}
