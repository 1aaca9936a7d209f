/** The canonical representative of the minimum family and the subset-minimal fallback
    (cut.py, `canonical_select`, `_hits_all`, `_level_minimal`, `_subset_minimal`).

    A covering problem holds, per control and level, the clauses hit at that level. A level
    vector gives every control its level, zero meaning not raised.
 */
module Selection {
  import opened Arithmetic
  import opened Wrappers
  import opened Reachability
  import opened HittingSets

  datatype Problem = Problem(clauses: nat, perLevel: seq<seq<set<nat>>>)

  /** Levels are cumulative: a higher level hits a superset. */
  ghost predicate ValidProblem(q: Problem) {
    && (forall c :: 0 <= c < |q.perLevel| ==> |q.perLevel[c]| >= 1)
    && (forall c, l :: 0 <= c < |q.perLevel| && 0 <= l < |q.perLevel[c]| ==> q.perLevel[c][l] <= Range(q.clauses))
    && forall c, l, m :: 0 <= c < |q.perLevel| && 0 <= l <= m < |q.perLevel[c]| ==> q.perLevel[c][l] <= q.perLevel[c][m]
  }

  function Top(q: Problem, c: nat): nat
    requires c < |q.perLevel|
  {
    |q.perLevel[c]|
  }

  function AtMax(q: Problem): (hits: Hits)
    requires ValidProblem(q)
    ensures |hits| == |q.perLevel|
    ensures forall c :: 0 <= c < |hits| ==> hits[c] == q.perLevel[c][|q.perLevel[c]| - 1]
  {
    seq(|q.perLevel|, c requires 0 <= c < |q.perLevel| => q.perLevel[c][|q.perLevel[c]| - 1])
  }

  type Levels = seq<nat>

  ghost predicate ValidLevels(q: Problem, levels: Levels) {
    |levels| == |q.perLevel| && forall c :: 0 <= c < |levels| ==> levels[c] <= Top(q, c)
  }

  ghost predicate Controls(q: Problem, chosen: seq<nat>) {
    Ascending(chosen) && forall i :: 0 <= i < |chosen| ==> chosen[i] < |q.perLevel|
  }

  ghost predicate LevelHit(q: Problem, levels: Levels, c: nat, clause: nat)
    requires ValidLevels(q, levels)
  {
    c < |levels| && levels[c] >= 1 && clause in q.perLevel[c][levels[c] - 1]
  }

  ghost predicate ClauseHit(q: Problem, chosen: seq<nat>, levels: Levels, clause: nat)
    requires ValidLevels(q, levels)
  {
    exists c :: c in chosen && LevelHit(q, levels, c, clause)
  }

  /** Every clause is hit by some chosen control at its level. */
  ghost predicate HitsEvery(q: Problem, chosen: seq<nat>, levels: Levels)
    requires ValidLevels(q, levels)
  {
    forall x :: 0 <= x < q.clauses ==> ClauseHit(q, chosen, levels, x)
  }

  lemma HitsEveryMonotone(q: Problem, chosen: seq<nat>, low: Levels, chosen': seq<nat>, high: Levels)
    requires ValidProblem(q) && ValidLevels(q, low) && ValidLevels(q, high)
    requires forall c :: c in chosen ==> c in chosen'
    requires forall c :: c in chosen && c < |low| ==> low[c] <= high[c]
    requires HitsEvery(q, chosen, low)
    ensures HitsEvery(q, chosen', high)
  {
    forall x | 0 <= x < q.clauses ensures ClauseHit(q, chosen', high, x) {
      assert ClauseHit(q, chosen, low, x);
      var c :| c in chosen && LevelHit(q, low, c, x);
      assert q.perLevel[c][low[c] - 1] <= q.perLevel[c][high[c] - 1];
      assert LevelHit(q, high, c, x);
    }
  }

  /** `covered` is exactly what the listed controls hit. */
  ghost predicate CoveredBy(q: Problem, chosen: seq<nat>, levels: Levels, covered: set<nat>)
    requires ValidLevels(q, levels)
  {
    forall x :: x in covered <==> 0 <= x < q.clauses && ClauseHit(q, chosen, levels, x)
  }

  lemma CoveredStep(q: Problem, chosen: seq<nat>, levels: Levels, covered: set<nat>, c: nat)
    requires ValidProblem(q) && ValidLevels(q, levels) && c < |levels|
    requires CoveredBy(q, chosen, levels, covered)
    ensures levels[c] >= 1 ==> CoveredBy(q, chosen + [c], levels, covered + q.perLevel[c][levels[c] - 1])
    ensures levels[c] == 0 ==> CoveredBy(q, chosen + [c], levels, covered)
  {
    var more := chosen + [c];
    assert forall d :: d in more <==> d in chosen || d == c;
    var now := if levels[c] >= 1 then covered + q.perLevel[c][levels[c] - 1] else covered;
    forall x | 0 <= x < q.clauses ensures x in now <==> ClauseHit(q, more, levels, x) {
      if x in covered {
        var d :| d in chosen && LevelHit(q, levels, d, x);
        assert d in more;
      }
      assert LevelHit(q, levels, c, x) <==> levels[c] >= 1 && x in q.perLevel[c][levels[c] - 1];
    }
    if levels[c] >= 1 {
      assert q.perLevel[c][levels[c] - 1] <= Range(q.clauses);
    }
  }

  lemma CoveredCount(q: Problem, chosen: seq<nat>, levels: Levels, covered: set<nat>)
    requires ValidLevels(q, levels) && CoveredBy(q, chosen, levels, covered)
    ensures |covered| == q.clauses <==> HitsEvery(q, chosen, levels)
  {
    assert covered <= Range(q.clauses);
    SubsetSize(covered, Range(q.clauses));
    if HitsEvery(q, chosen, levels) {
      assert covered == Range(q.clauses);
    }
  }

  /** The union test by cardinality: covered clauses are counted, not listed. */
  method HitsAll(q: Problem, chosen: seq<nat>, levels: Levels) returns (b: bool)
    requires ValidProblem(q) && ValidLevels(q, levels) && Controls(q, chosen)
    ensures b <==> HitsEvery(q, chosen, levels)
  {
    var covered: set<nat> := {};
    for i := 0 to |chosen|
      invariant CoveredBy(q, chosen[..i], levels, covered)
    {
      var control := chosen[i];
      CoveredStep(q, chosen[..i], levels, covered, control);
      assert chosen[..i + 1] == chosen[..i] + [control];
      if levels[control] >= 1 {
        covered := covered + q.perLevel[control][levels[control] - 1];
      }
    }
    assert chosen[..|chosen|] == chosen;
    CoveredCount(q, chosen, levels, covered);
    b := |covered| == q.clauses;
  }

  // ---------------------------------------------------------------------------
  // Lexicographic order
  // ---------------------------------------------------------------------------

  ghost predicate LexLess(a: seq<nat>, b: seq<nat>) {
    exists j :: 0 <= j < |a| && j < |b| && a[..j] == b[..j] && a[j] < b[j]
  }

  ghost predicate LexLeq(a: seq<nat>, b: seq<nat>) {
    a == b || LexLess(a, b)
  }

  lemma LexLessExtends(a: seq<nat>, b: seq<nat>, more: seq<nat>)
    requires LexLess(a, b)
    ensures LexLess(a + more, b)
  {
    var j :| 0 <= j < |a| && j < |b| && a[..j] == b[..j] && a[j] < b[j];
    assert (a + more)[..j] == b[..j];
  }

  lemma LexAppend(a: seq<nat>, b: seq<nat>, x: nat, y: nat)
    requires |a| == |b| && LexLeq(a, b)
    ensures a != b || x <= y ==> LexLeq(a + [x], b + [y])
  {
    if LexLess(a, b) {
      LexLessExtends(a, b, [x]);
      var j :| 0 <= j < |a| && j < |b| && a[..j] == b[..j] && a[j] < b[j];
      assert (a + [x])[..j] == (b + [y])[..j];
    } else if x < y {
      assert (a + [x])[..|a|] == (b + [y])[..|a|];
    }
  }

  lemma LexLessAsymmetric(a: seq<nat>, b: seq<nat>)
    requires LexLess(a, b)
    ensures !LexLess(b, a)
  {
    var i :| 0 <= i < |a| && i < |b| && a[..i] == b[..i] && a[i] < b[i];
    forall j | 0 <= j < |b| && j < |a| && b[..j] == a[..j] ensures !(b[j] < a[j]) {
      assert forall k :: 0 <= k < j ==> b[..j][k] == a[..j][k];
      assert forall k :: 0 <= k < i ==> a[..i][k] == b[..i][k];
    }
  }

  lemma LexAntisymmetric(a: seq<nat>, b: seq<nat>)
    requires LexLeq(a, b) && LexLeq(b, a)
    ensures a == b
  {
    if LexLess(a, b) {
      LexLessAsymmetric(a, b);
    }
  }

  // ---------------------------------------------------------------------------
  // Phase one: the least control vector
  // ---------------------------------------------------------------------------

  function Identity(n: nat): (s: seq<nat>)
    ensures |s| == n && forall i :: 0 <= i < n ==> s[i] == i
  {
    seq(n, i => i)
  }

  /** An ascending vector of `k` controls that hits every clause at maximum level. */
  ghost predicate HittingVector(hits: Hits, clauses: nat, v: seq<nat>, k: nat) {
    && |v| == k
    && Ascending(v)
    && (forall i :: 0 <= i < |v| ==> v[i] < |hits|)
    && Covers(hits, Elements(v), Range(clauses))
  }

  /** Where a vector stands against the greedy prefix: it starts with the prefix and goes on
      at or after `index`, or the prefix already beats it. */
  ghost predicate Behind(chosen: seq<nat>, index: nat, v: seq<nat>) {
    || LexLess(chosen, v)
    || (chosen <= v && (|chosen| < |v| ==> index <= v[|chosen|]))
  }

  ghost predicate Unhit(hits: Hits, clauses: nat, chosen: seq<nat>, unhit: set<nat>) {
    forall x :: x in unhit <==> 0 <= x < clauses && forall c :: c in chosen ==> !Hit(hits, c, x)
  }

  /** What a hitting vector's head leaves over, its tail hits. */
  lemma {:induction false} TailCovers(hits: Hits, clauses: nat, k: nat, chosen: seq<nat>, unhit: set<nat>, index: nat,
                                      v: seq<nat>, tail: seq<nat>)
    requires HittingVector(hits, clauses, v, k) && Unhit(hits, clauses, chosen, unhit)
    requires chosen <= v && |chosen| < |v| && v[|chosen|] == index < |hits| && tail == v[|chosen| + 1..]
    ensures Covers(hits, Elements(tail), unhit - hits[index])
  {
    assert v == chosen + [index] + tail;
    forall x | x in unhit - hits[index] ensures HitBy(hits, Elements(tail), x) {
      assert HitBy(hits, Elements(v), x);
      var c :| c in Elements(v) && Hit(hits, c, x);
      assert c !in chosen && c != index;
      assert c in tail;
    }
  }

  /** A hitting vector continuing with `index` leaves a cover of what `index` does not hit. */
  lemma {:induction false} ContinuationCovers(hits: Hits, clauses: nat, k: nat, chosen: seq<nat>, unhit: set<nat>,
                                              index: nat, v: seq<nat>)
    requires HittingVector(hits, clauses, v, k) && Unhit(hits, clauses, chosen, unhit)
    requires chosen <= v && |chosen| < |v| && v[|chosen|] == index < |hits|
    ensures AtMost(MinCover(hits, Identity(|hits|), unhit - hits[index], index + 1), k - |chosen| - 1)
  {
    var tail := v[|chosen| + 1..];
    var rest := Elements(tail);
    var allowed := Identity(|hits|);
    TailCovers(hits, clauses, k, chosen, unhit, index, v, tail);
    forall c | c in rest ensures c in Remaining(allowed, index + 1) {
      var i :| 0 <= i < |tail| && tail[i] == c;
      assert v[|chosen| + 1 + i] == c;
      assert allowed[c] == c;
    }
    MinCoverIsLowerBound(hits, allowed, unhit - hits[index], index + 1, rest);
    ElementsSize(tail);
  }

  lemma {:induction false} ElementsSize<T>(s: seq<T>)
    ensures |Elements(s)| <= |s|
    ensures (forall i, j :: 0 <= i < j < |s| ==> s[i] != s[j]) ==> |Elements(s)| == |s|
    decreases |s|
  {
    if s != [] {
      var last := |s| - 1;
      ElementsSize(s[..last]);
      assert s == s[..last] + [s[last]];
      assert Elements(s) == Elements(s[..last]) + {s[last]};
    }
  }

  lemma {:induction false} BehindStep(hits: Hits, clauses: nat, k: nat, chosen: seq<nat>, unhit: set<nat>, index: nat,
                                      v: seq<nat>, taken: bool)
    requires HittingVector(hits, clauses, v, k) && Unhit(hits, clauses, chosen, unhit)
    requires Behind(chosen, index, v) && |chosen| < k && index < |hits|
    requires !taken ==> !AtMost(MinCover(hits, Identity(|hits|), unhit - hits[index], index + 1), k - |chosen| - 1)
    ensures Behind(if taken then chosen + [index] else chosen, index + 1, v)
  {
    if LexLess(chosen, v) {
      LexLessExtends(chosen, v, [index]);
    } else if taken {
      if v[|chosen|] == index {
        assert chosen + [index] <= v;
      } else {
        assert (chosen + [index])[..|chosen|] == v[..|chosen|];
      }
    } else if v[|chosen|] == index {
      ContinuationCovers(hits, clauses, k, chosen, unhit, index, v);
    }
  }

  /** Everything the greedy walk keeps. */
  ghost predicate WalkInvariant(hits: Hits, clauses: nat, k: nat, chosen: seq<nat>, unhit: set<nat>, index: nat) {
    && |chosen| <= k && index <= |hits|
    && Ascending(chosen)
    && (forall i :: 0 <= i < |chosen| ==> chosen[i] < index)
    && Unhit(hits, clauses, chosen, unhit)
    && (forall v :: HittingVector(hits, clauses, v, k) ==> Behind(chosen, index, v))
  }

  ghost predicate WalkCompletes(hits: Hits, k: nat, chosen: seq<nat>, unhit: set<nat>, index: nat)
    requires index <= |hits|
  {
    && |chosen| <= k && k - |chosen| <= |hits| - index
    && AtMost(MinCover(hits, Identity(|hits|), unhit, index), k - |chosen|)
  }

  lemma WalkStep(hits: Hits, clauses: nat, k: nat, chosen: seq<nat>, unhit: set<nat>, index: nat, taken: bool)
    requires WalkInvariant(hits, clauses, k, chosen, unhit, index) && |chosen| < k && index < |hits|
    requires taken <==> AtMost(MinCover(hits, Identity(|hits|), unhit - hits[index], index + 1), k - |chosen| - 1)
    ensures taken ==> WalkInvariant(hits, clauses, k, chosen + [index], unhit - hits[index], index + 1)
    ensures !taken ==> WalkInvariant(hits, clauses, k, chosen, unhit, index + 1)
    ensures WalkCompletes(hits, k, chosen, unhit, index) ==>
              if taken then WalkCompletes(hits, k, chosen + [index], unhit - hits[index], index + 1)
              else WalkCompletes(hits, k, chosen, unhit, index + 1)
  {
    forall v | HittingVector(hits, clauses, v, k)
      ensures Behind(if taken then chosen + [index] else chosen, index + 1, v)
    {
      BehindStep(hits, clauses, k, chosen, unhit, index, v, taken);
    }
    if taken {
      UnhitStep(hits, clauses, chosen, unhit, index);
    } else if WalkCompletes(hits, k, chosen, unhit, index) {
      PassedOver(hits, k, chosen, unhit, index);
    }
  }

  /** When a control is passed over, enough controls are left: were there too few, all of them
      together would have covered the rest. */
  lemma {:induction false} PassedOver(hits: Hits, k: nat, chosen: seq<nat>, unhit: set<nat>, index: nat)
    requires index < |hits| && WalkCompletes(hits, k, chosen, unhit, index) && |chosen| < k
    requires !AtMost(MinCover(hits, Identity(|hits|), unhit - hits[index], index + 1), k - |chosen| - 1)
    ensures WalkCompletes(hits, k, chosen, unhit, index + 1)
  {
    var allowed := Identity(|hits|);
    assert AtMost(MinCover(hits, allowed, unhit, index + 1), k - |chosen|);
    LessToCover(hits, allowed, unhit, unhit - hits[index], index + 1);
    LessToCover(hits, allowed, unhit - hits[index], {}, index + 1);
  }

  lemma UnhitStep(hits: Hits, clauses: nat, chosen: seq<nat>, unhit: set<nat>, index: nat)
    requires Unhit(hits, clauses, chosen, unhit) && index < |hits|
    ensures Unhit(hits, clauses, chosen + [index], unhit - hits[index])
  {
    forall x | 0 <= x < clauses
      ensures x in unhit - hits[index] <==> forall c :: c in chosen + [index] ==> !Hit(hits, c, x)
    {
      if x in unhit && x in hits[index] {
        assert Hit(hits, index, x) && index in chosen + [index];
      }
      if forall c :: c in chosen + [index] ==> !Hit(hits, c, x) {
        assert forall c :: c in chosen ==> c in chosen + [index];
        assert index in chosen + [index];
      }
    }
  }

  lemma {:induction false} ZeroCover(hits: Hits, allowed: seq<nat>, unhit: set<nat>, start: nat)
    requires ValidAllowed(hits, allowed) && start <= |allowed|
    requires AtMost(MinCover(hits, allowed, unhit, start), 0)
    ensures unhit == {}
    decreases |allowed| - start
  {
    if start < |allowed| {
      ZeroCover(hits, allowed, unhit, start + 1);
    }
  }

  lemma {:induction false} EveryControlRemains(hits: Hits, controls: set<nat>)
    requires controls <= Range(|hits|)
    ensures controls <= Remaining(Identity(|hits|), 0)
  {
    forall c | c in controls ensures c in Remaining(Identity(|hits|), 0) {
      assert c in Range(|hits|);
      assert Identity(|hits|)[c] == c;
    }
  }

  lemma {:induction false} CoverableCompletes(hits: Hits, clauses: nat, k: nat)
    requires Coverable(hits, clauses, k)
    ensures WalkCompletes(hits, k, [], Range(clauses), 0)
  {
    var controls :| controls <= Range(|hits|) && |controls| == k && Covers(hits, controls, Range(clauses));
    EveryControlRemains(hits, controls);
    MinCoverIsLowerBound(hits, Identity(|hits|), Range(clauses), 0, controls);
    SubsetSize(controls, Range(|hits|));
  }

  lemma {:induction false} EmptyWalk(hits: Hits, clauses: nat, k: nat, none: seq<nat>, all: set<nat>)
    requires none == [] && all == Range(clauses)
    ensures WalkInvariant(hits, clauses, k, none, all, 0)
  {
  }

  lemma {:induction false} WalkStarts(hits: Hits, clauses: nat, k: nat)
    ensures Walking(hits, clauses, k, [], Range(clauses), 0)
  {
    EmptyWalk(hits, clauses, k, [], Range(clauses));
    if Coverable(hits, clauses, k) {
      CoverableCompletes(hits, clauses, k);
    }
  }

  /** A finished walk at the optimum has spent exactly its cardinality and missed nothing. */
  lemma {:induction false} WalkEnds(hits: Hits, clauses: nat, k: nat, chosen: seq<nat>, unhit: set<nat>, index: nat)
    requires WalkInvariant(hits, clauses, k, chosen, unhit, index)
    requires index == |hits| || |chosen| == k
    ensures unhit == {} ==> Covers(hits, Elements(chosen), Range(clauses))
    ensures WalkCompletes(hits, k, chosen, unhit, index) ==> |chosen| == k && unhit == {}
    ensures unhit == {} && |chosen| == k
            ==> forall v :: HittingVector(hits, clauses, v, k) ==> LexLeq(chosen, v)
  {
    if unhit == {} {
      forall x | x in Range(clauses) ensures HitBy(hits, Elements(chosen), x) {
        assert x !in unhit;
        var c :| c in chosen && Hit(hits, c, x);
        assert c in Elements(chosen);
      }
    }
    if WalkCompletes(hits, k, chosen, unhit, index) {
      ZeroCover(hits, Identity(|hits|), unhit, index);
    }
  }

  /** The walk so far, and that it can still complete if the cardinality is the optimum. */
  ghost predicate Walking(hits: Hits, clauses: nat, cardinality: nat, chosen: seq<nat>, unhit: set<nat>, index: nat) {
    && WalkInvariant(hits, clauses, cardinality, chosen, unhit, index)
    && (Coverable(hits, clauses, cardinality) ==> WalkCompletes(hits, cardinality, chosen, unhit, index))
  }

  /** Whether the walk takes a control, and the nodes it spends to find out. */
  ghost predicate Takes(hits: Hits, k: nat, taken: nat, unhit: set<nat>, index: nat)
    requires taken < k && index < |hits|
  {
    AtMost(MinCover(hits, Identity(|hits|), unhit - hits[index], index + 1), k - taken - 1)
  }

  ghost function StepNodes(hits: Hits, k: nat, taken: nat, unhit: set<nat>, index: nat): nat
    requires index < |hits|
  {
    ExtendNodes(hits, Identity(|hits|), unhit - hits[index], index + 1, k - taken - 1)
  }

  /** The nodes of the walk from a control on. */
  ghost function WalkNodes(hits: Hits, k: nat, taken: nat, unhit: set<nat>, index: nat): nat
    requires taken <= k && index <= |hits|
    decreases |hits| - index
  {
    if taken == k || index == |hits| then 0
    else
      StepNodes(hits, k, taken, unhit, index)
      + if Takes(hits, k, taken, unhit, index) then WalkNodes(hits, k, taken + 1, unhit - hits[index], index + 1)
        else WalkNodes(hits, k, taken, unhit, index + 1)
  }

  /** The nodes of a selection at a cardinality. */
  ghost function SelectNodes(hits: Hits, clauses: nat, k: nat): nat {
    WalkNodes(hits, k, 0, Range(clauses), 0)
  }

  lemma {:induction false} WalkNodesBound(hits: Hits, k: nat, taken: nat, unhit: set<nat>, index: nat)
    requires taken <= k && index <= |hits|
    ensures 1 + WalkNodes(hits, k, taken, unhit, index) <= Pow2(|hits| - index)
    decreases |hits| - index
  {
    if taken < k && index < |hits| {
      StepNodesBound(hits, k, taken, unhit, index);
      var half := Pow2(|hits| - index - 1);
      assert Pow2(|hits| - index) == half + half;
      if Takes(hits, k, taken, unhit, index) {
        WalkNodesBound(hits, k, taken + 1, unhit - hits[index], index + 1);
      } else {
        WalkNodesBound(hits, k, taken, unhit, index + 1);
      }
    }
  }

  lemma {:induction false} StepNodesBound(hits: Hits, k: nat, taken: nat, unhit: set<nat>, index: nat)
    requires taken < k && index < |hits|
    ensures 1 <= StepNodes(hits, k, taken, unhit, index) <= Pow2(|hits| - index - 1)
  {
    SearchNodesBound(hits, Identity(|hits|), unhit - hits[index], index + 1, 0, Some(k - taken));
  }

  /** A walk of `total` nodes in all has `rest` before it. */
  ghost predicate WalkSpent(limit: int, before: nat, now: nat, total: nat, rest: nat) {
    rest <= total && Spent(limit, before, now, true, total - rest)
  }

  lemma WalkSpentMore(limit: int, before: nat, now: nat, later: nat, total: nat, finished: bool, step: nat, rest: nat)
    requires WalkSpent(limit, before, now, total, step + rest) && Spent(limit, now, later, finished, step)
    ensures if finished then WalkSpent(limit, before, later, total, rest) else Spent(limit, before, later, false, total)
  {
    SpentThen(limit, before, now, later, total - step - rest, finished, step);
    if !finished {
      SpentOut(limit, before, later, total - rest, rest);
    }
  }

  /** Midway through a walk of `total` nodes: what is chosen, and the nodes spent, are right so far. */
  ghost predicate OnWalk(hits: Hits, clauses: nat, cardinality: nat, chosen: seq<nat>, unhit: set<nat>, index: nat,
                         limit: int, before: nat, now: nat, total: nat)
  {
    && Walking(hits, clauses, cardinality, chosen, unhit, index)
    && |chosen| <= cardinality && index <= |hits|
    && WalkSpent(limit, before, now, total, WalkNodes(hits, cardinality, |chosen|, unhit, index))
  }

  lemma {:induction false} WalkIsOpen(hits: Hits, clauses: nat, cardinality: nat, limit: int, before: nat, total: nat)
    requires Walking(hits, clauses, cardinality, [], Range(clauses), 0) && Spent(limit, before, before, true, 0)
    requires total == SelectNodes(hits, clauses, cardinality)
    ensures OnWalk(hits, clauses, cardinality, [], Range(clauses), 0, limit, before, before, total)
  {
  }

  /** One control of the walk, with the nodes it leaves to the rest. */
  method WalkOne(hits: Hits, clauses: nat, cardinality: nat, chosen: seq<nat>, unhit: set<nat>, index: nat,
                 box: NodeBox, ghost before: nat, ghost total: nat)
    returns (budgetHit: bool, chosen': seq<nat>, unhit': set<nat>)
    requires OnWalk(hits, clauses, cardinality, chosen, unhit, index, box.limit, before, box.used, total)
    requires |chosen| != cardinality && index < |hits|
    modifies box
    ensures budgetHit ==> Spent(box.limit, before, box.used, false, total)
    ensures !budgetHit ==>
              OnWalk(hits, clauses, cardinality, chosen', unhit', index + 1, box.limit, before, box.used, total)
  {
    ghost var now, step := box.used, StepNodes(hits, cardinality, |chosen|, unhit, index);
    ghost var rest := WalkNodes(hits, cardinality, |chosen|, unhit, index) - step;
    budgetHit, chosen', unhit' := ConsiderControl(hits, clauses, cardinality, chosen, unhit, index, box);
    WalkSpentMore(box.limit, before, now, box.used, total, !budgetHit, step, rest);
  }

  /** One step of the walk: control `index` is taken iff the rest stays coverable. */
  method ConsiderControl(hits: Hits, clauses: nat, cardinality: nat, chosen: seq<nat>, unhit: set<nat>, index: nat,
                         box: NodeBox)
    returns (budgetHit: bool, chosen': seq<nat>, unhit': set<nat>)
    requires Walking(hits, clauses, cardinality, chosen, unhit, index)
    requires |chosen| < cardinality && index < |hits|
    modifies box
    ensures Spent(box.limit, old(box.used), box.used, !budgetHit, StepNodes(hits, cardinality, |chosen|, unhit, index))
    ensures !budgetHit ==> Walking(hits, clauses, cardinality, chosen', unhit', index + 1)
    ensures !budgetHit && Takes(hits, cardinality, |chosen|, unhit, index) ==>
              chosen' == chosen + [index] && unhit' == unhit - hits[index]
    ensures !budgetHit && !Takes(hits, cardinality, |chosen|, unhit, index) ==> chosen' == chosen && unhit' == unhit
  {
    var covered := unhit * hits[index];
    assert unhit - covered == unhit - hits[index];
    var taken := Extendable(hits, Identity(|hits|), unhit - covered, index + 1, cardinality - |chosen| - 1, box);
    budgetHit, chosen', unhit' := taken.BudgetHit?, chosen, unhit;
    if taken.Found? {
      WalkStep(hits, clauses, cardinality, chosen, unhit, index, taken.result);
      if taken.result {
        chosen', unhit' := chosen + [index], unhit - hits[index];
      }
    }
  }

  /** The walk over the controls in order, until enough are chosen. */
  method Walk(hits: Hits, clauses: nat, cardinality: nat, box: NodeBox)
    returns (budgetHit: bool, chosen: seq<nat>, unhit: set<nat>, ghost index: nat)
    requires Walking(hits, clauses, cardinality, [], Range(clauses), 0)
    modifies box
    ensures Spent(box.limit, old(box.used), box.used, !budgetHit, SelectNodes(hits, clauses, cardinality))
    ensures !budgetHit ==> Walking(hits, clauses, cardinality, chosen, unhit, index)
    ensures !budgetHit ==> index == |hits| || |chosen| == cardinality
  {
    budgetHit, chosen, unhit := false, [], Range(clauses);
    var next: nat := 0;
    ghost var before, total := box.used, SelectNodes(hits, clauses, cardinality);
    WalkIsOpen(hits, clauses, cardinality, box.limit, before, total);
    while next < |hits| && |chosen| != cardinality
      invariant !budgetHit && next <= |hits|
      invariant OnWalk(hits, clauses, cardinality, chosen, unhit, next, box.limit, before, box.used, total)
      decreases |hits| - next
    {
      budgetHit, chosen, unhit :=
        WalkOne(hits, clauses, cardinality, chosen, unhit, next, box, before, total);
      if budgetHit {
        return true, [], {}, 0;
      }
      next := next + 1;
    }
    WalkIsSpent(hits, clauses, cardinality, chosen, unhit, next, box.limit, before, box.used, total);
    index := next;
  }

  lemma WalkIsSpent(hits: Hits, clauses: nat, cardinality: nat, chosen: seq<nat>, unhit: set<nat>, index: nat,
                    limit: int, before: nat, now: nat, total: nat)
    requires OnWalk(hits, clauses, cardinality, chosen, unhit, index, limit, before, now, total)
    requires index == |hits| || |chosen| == cardinality
    ensures Spent(limit, before, now, true, total)
  {
  }

  lemma {:induction false} ChosenIsCover(hits: Hits, clauses: nat, chosen: seq<nat>, unhit: set<nat>)
    requires Ascending(chosen) && forall i :: 0 <= i < |chosen| ==> chosen[i] < |hits|
    requires unhit == {} ==> Covers(hits, Elements(chosen), Range(clauses))
    ensures unhit == {} ==> Coverable(hits, clauses, |chosen|)
  {
    ElementsSize(chosen);
    assert Elements(chosen) <= Range(|hits|);
  }

  lemma {:induction false} OneControlMore(hits: Hits, clauses: nat, controls: set<nat>)
    requires controls <= Range(|hits|) && Covers(hits, controls, Range(clauses)) && |controls| < |hits|
    ensures Coverable(hits, clauses, |controls| + 1)
  {
    if Range(|hits|) <= controls {
      SubsetSize(Range(|hits|), controls);
    }
    var c :| c in Range(|hits|) && c !in controls;
    var more := controls + {c};
    CoversMonotone(hits, controls, more, Range(clauses));
    assert more <= Range(|hits|) && |more| == |controls| + 1;
  }

  /** A cover stays one with more controls in it. */
  lemma {:induction false} PadCover(hits: Hits, clauses: nat, j: nat, k: nat)
    requires Coverable(hits, clauses, j) && j <= k <= |hits|
    ensures Coverable(hits, clauses, k)
    decreases k - j
  {
    if j < k {
      var controls :| controls <= Range(|hits|) && |controls| == j && Covers(hits, controls, Range(clauses));
      OneControlMore(hits, clauses, controls);
      PadCover(hits, clauses, j + 1, k);
    }
  }

  /** The cardinalities at which selection succeeds: from the optimum to the number of controls. */
  lemma {:induction false} CoverableFromOptimum(hits: Hits, clauses: nat, least: nat, k: nat)
    requires IsOptimum(hits, Range(|hits|), clauses, least)
    ensures Coverable(hits, clauses, k) <==> least <= k <= |hits|
  {
    assert Coverable(hits, clauses, least);
    if Coverable(hits, clauses, k) {
      var controls :| controls <= Range(|hits|) && |controls| == k && Covers(hits, controls, Range(clauses));
      SubsetSize(controls, Range(|hits|));
    }
    if least <= k <= |hits| {
      PadCover(hits, clauses, least, k);
    }
  }

  /** Greedy selection of controls: take the first control that leaves the rest coverable. */
  method SelectControls(hits: Hits, clauses: nat, cardinality: nat, box: NodeBox)
    returns (budgetHit: bool, chosen: seq<nat>, unhit: set<nat>)
    modifies box
    ensures Spent(box.limit, old(box.used), box.used, !budgetHit, SelectNodes(hits, clauses, cardinality))
    ensures !budgetHit ==> Ascending(chosen) && forall i :: 0 <= i < |chosen| ==> chosen[i] < |hits|
    ensures !budgetHit && unhit == {} ==> Covers(hits, Elements(chosen), Range(clauses))
    ensures !budgetHit && unhit == {} && |chosen| == cardinality
            ==> forall v :: HittingVector(hits, clauses, v, cardinality) ==> LexLeq(chosen, v)
    ensures !budgetHit ==> (Coverable(hits, clauses, cardinality) <==> unhit == {} && |chosen| == cardinality)
  {
    ghost var index;
    WalkStarts(hits, clauses, cardinality);
    budgetHit, chosen, unhit, index := Walk(hits, clauses, cardinality, box);
    if !budgetHit {
      WalkEnds(hits, clauses, cardinality, chosen, unhit, index);
      ChosenIsCover(hits, clauses, chosen, unhit);
    }
  }

  // ---------------------------------------------------------------------------
  // Phase two: the least level vector on those controls
  // ---------------------------------------------------------------------------

  /** Every chosen control is raised. */
  ghost predicate Raises(q: Problem, chosen: seq<nat>, levels: Levels) {
    ValidLevels(q, levels) && forall c :: c in chosen && c < |levels| ==> levels[c] >= 1
  }

  function Project(levels: Levels, chosen: seq<nat>): (s: seq<nat>)
    requires forall i :: 0 <= i < |chosen| ==> chosen[i] < |levels|
    ensures |s| == |chosen| && forall i :: 0 <= i < |s| ==> s[i] == levels[chosen[i]]
  {
    seq(|chosen|, i requires 0 <= i < |chosen| => levels[chosen[i]])
  }

  /** No raised control can be lowered one step with the others held fixed. */
  ghost predicate LevelMinimal(q: Problem, chosen: seq<nat>, levels: Levels)
    requires ValidLevels(q, levels)
  {
    forall c :: c in chosen && c < |levels| && levels[c] > 1 ==> !HitsEvery(q, chosen, levels[c := levels[c] - 1])
  }

  /** The level vector is lexicographically least among those raising the same controls. */
  ghost predicate LeastLevels(q: Problem, chosen: seq<nat>, levels: Levels)
    requires Controls(q, chosen) && ValidLevels(q, levels)
  {
    forall w :: Raises(q, chosen, w) && HitsEvery(q, chosen, w) ==> LexLeq(Project(levels, chosen), Project(w, chosen))
  }

  ghost predicate LoweredBelow(q: Problem, chosen: seq<nat>, levels: Levels, done: nat)
    requires Controls(q, chosen) && done <= |chosen| && ValidLevels(q, levels)
  {
    && Raises(q, chosen, levels)
    && HitsEvery(q, chosen, levels)
    && (forall i :: done <= i < |chosen| ==> levels[chosen[i]] == Top(q, chosen[i]))
    && (forall i :: 0 <= i < done && levels[chosen[i]] > 1
          ==> !HitsEvery(q, chosen, levels[chosen[i] := levels[chosen[i]] - 1]))
    && forall w :: Raises(q, chosen, w) && HitsEvery(q, chosen, w)
          ==> LexLeq(Project(levels, chosen)[..done], Project(w, chosen)[..done])
  }

  /** Lowering one control as far as it goes keeps everything settled so far. */
  lemma LowerStep(q: Problem, chosen: seq<nat>, levels: Levels, done: nat, level: nat)
    requires ValidProblem(q) && Controls(q, chosen) && done < |chosen| && ValidLevels(q, levels)
    requires LoweredBelow(q, chosen, levels, done)
    requires 1 <= level <= levels[chosen[done]]
    requires HitsEvery(q, chosen, levels[chosen[done] := level])
    requires level > 1 ==> !HitsEvery(q, chosen, levels[chosen[done] := level - 1])
    ensures LoweredBelow(q, chosen, levels[chosen[done] := level], done + 1)
  {
    var control := chosen[done];
    var lowered := levels[control := level];
    forall i | 0 <= i < done + 1 && lowered[chosen[i]] > 1
      ensures !HitsEvery(q, chosen, lowered[chosen[i] := lowered[chosen[i]] - 1])
    {
      var trial := lowered[chosen[i] := lowered[chosen[i]] - 1];
      if i < done && HitsEvery(q, chosen, trial) {
        HitsEveryMonotone(q, chosen, trial, chosen, levels[chosen[i] := levels[chosen[i]] - 1]);
      } else if i == done {
        assert trial == levels[control := level - 1];
      }
    }
    forall w | Raises(q, chosen, w) && HitsEvery(q, chosen, w)
      ensures LexLeq(Project(lowered, chosen)[..done + 1], Project(w, chosen)[..done + 1])
    {
      LowerLex(q, chosen, levels, done, level, w);
    }
  }

  lemma LowerLex(q: Problem, chosen: seq<nat>, levels: Levels, done: nat, level: nat, w: Levels)
    requires ValidProblem(q) && Controls(q, chosen) && done < |chosen| && ValidLevels(q, levels)
    requires LoweredBelow(q, chosen, levels, done)
    requires 1 <= level <= levels[chosen[done]]
    requires level > 1 ==> !HitsEvery(q, chosen, levels[chosen[done] := level - 1])
    requires Raises(q, chosen, w) && HitsEvery(q, chosen, w)
    ensures LexLeq(Project(levels[chosen[done] := level], chosen)[..done + 1], Project(w, chosen)[..done + 1])
  {
    var control := chosen[done];
    var now := Project(levels[control := level], chosen);
    var other := Project(w, chosen);
    assert now[..done] == Project(levels, chosen)[..done];
    assert now[..done + 1] == now[..done] + [level];
    assert other[..done + 1] == other[..done] + [w[control]];
    LexAppend(now[..done], other[..done], level, w[control]);
    if now[..done] == other[..done] {
      if w[control] < level {
        forall c | c in chosen ensures w[c] <= levels[control := level - 1][c] {
          var i :| 0 <= i < |chosen| && chosen[i] == c;
          if i < done {
            assert now[..done][i] == other[..done][i];
          }
        }
        HitsEveryMonotone(q, chosen, w, chosen, levels[control := level - 1]);
      }
    }
  }

  /** Lower one control while every clause stays hit. */
  method LowerOne(q: Problem, chosen: seq<nat>, levels: Levels, done: nat) returns (lowered: Levels)
    requires ValidProblem(q) && Controls(q, chosen) && done < |chosen| && ValidLevels(q, levels)
    requires LoweredBelow(q, chosen, levels, done)
    ensures ValidLevels(q, lowered) && LoweredBelow(q, chosen, lowered, done + 1)
    ensures forall c :: 0 <= c < |levels| && c !in chosen ==> lowered[c] == levels[c]
  {
    var control := chosen[done];
    lowered := levels;
    while lowered[control] > 1
      invariant |lowered| == |levels| && 1 <= lowered[control] <= levels[control]
      invariant lowered == levels[control := lowered[control]]
      invariant HitsEvery(q, chosen, lowered)
    {
      var trial := lowered[control := lowered[control] - 1];
      var all := HitsAll(q, chosen, trial);
      assert trial == levels[control := lowered[control] - 1];
      if !all {
        break;
      }
      lowered := trial;
    }
    LowerStep(q, chosen, levels, done, lowered[control]);
  }

  /** Lower each chosen control, in ascending order, while every clause stays hit. */
  method LowerLevels(q: Problem, chosen: seq<nat>, levels: Levels) returns (lowered: Levels)
    requires ValidProblem(q) && Controls(q, chosen) && ValidLevels(q, levels)
    requires forall c :: c in chosen ==> levels[c] == Top(q, c)
    requires HitsEvery(q, chosen, levels)
    ensures Raises(q, chosen, lowered) && HitsEvery(q, chosen, lowered)
    ensures forall c :: 0 <= c < |levels| && c !in chosen ==> lowered[c] == levels[c]
    ensures LevelMinimal(q, chosen, lowered) && LeastLevels(q, chosen, lowered)
  {
    lowered := levels;
    for i := 0 to |chosen|
      invariant ValidLevels(q, lowered) && LoweredBelow(q, chosen, lowered, i)
      invariant forall c :: 0 <= c < |levels| && c !in chosen ==> lowered[c] == levels[c]
    {
      lowered := LowerOne(q, chosen, lowered, i);
    }
    LoweredAll(q, chosen, lowered);
  }

  lemma LoweredAll(q: Problem, chosen: seq<nat>, levels: Levels)
    requires Controls(q, chosen) && ValidLevels(q, levels) && LoweredBelow(q, chosen, levels, |chosen|)
    ensures LevelMinimal(q, chosen, levels) && LeastLevels(q, chosen, levels)
  {
    forall w | Raises(q, chosen, w) && HitsEvery(q, chosen, w)
      ensures LexLeq(Project(levels, chosen), Project(w, chosen))
    {
      assert Project(levels, chosen)[..|chosen|] == Project(levels, chosen);
      assert Project(w, chosen)[..|chosen|] == Project(w, chosen);
    }
  }

  // ---------------------------------------------------------------------------
  // The canonical order on level vectors
  // ---------------------------------------------------------------------------

  /** The raised controls of a level vector, in canonical order. */
  function Raised(levels: Levels): (v: seq<nat>)
    ensures Ascending(v)
    ensures forall c :: c in v <==> 0 <= c < |levels| && levels[c] >= 1
    ensures forall i :: 0 <= i < |v| ==> v[i] < |levels|
  {
    if levels == [] then []
    else
      var front := Raised(levels[..|levels| - 1]);
      assert forall k :: 0 <= k < |front| ==> front[k] in front;
      if levels[|levels| - 1] >= 1 then front + [|levels| - 1] else front
  }

  lemma AscendingLast(a: seq<nat>, b: seq<nat>)
    requires Ascending(a) && Ascending(b) && |a| > 0 && |b| > 0
    requires a[|a| - 1] in b && b[|b| - 1] in a
    ensures a[|a| - 1] == b[|b| - 1]
  {
    var i :| 0 <= i < |a| && a[i] == b[|b| - 1];
    var j :| 0 <= j < |b| && b[j] == a[|a| - 1];
  }

  lemma AscendingFront(a: seq<nat>)
    requires Ascending(a) && |a| > 0
    ensures Ascending(a[..|a| - 1])
    ensures forall x :: x in a[..|a| - 1] <==> x in a && x != a[|a| - 1]
  {
    var front := a[..|a| - 1];
    assert a == front + [a[|a| - 1]];
    forall x | x in front ensures x != a[|a| - 1] {
      var i :| 0 <= i < |front| && front[i] == x;
    }
  }

  lemma {:induction false} AscendingUnique(a: seq<nat>, b: seq<nat>)
    requires Ascending(a) && Ascending(b) && forall x :: x in a <==> x in b
    ensures a == b
    decreases |a|
  {
    if a == [] {
      assert forall i :: 0 <= i < |b| ==> b[i] in b;
    } else {
      assert a[|a| - 1] in b;
      assert b[|b| - 1] in a;
      AscendingLast(a, b);
      AscendingFront(a);
      AscendingFront(b);
      var a', b' := a[..|a| - 1], b[..|b| - 1];
      forall x: nat ensures x in a' <==> x in b' {
        assert x in a' <==> x in a && x != a[|a| - 1];
        assert x in b' <==> x in b && x != b[|b| - 1];
      }
      AscendingUnique(a', b');
      assert a == a' + [a[|a| - 1]];
      assert b == b' + [b[|b| - 1]];
    }
  }

  lemma {:induction false} OneRaised(w: Levels, b: nat)
    requires b < |w| && w[b] >= 1 && forall c :: 0 <= c < |w| && c != b ==> w[c] == 0
    ensures Raised(w) == [b]
  {
    AscendingUnique(Raised(w), [b]);
  }

  lemma {:induction false} TwoRaised(w: Levels, i: nat, j: nat)
    requires i < j < |w| && w[i] >= 1 && w[j] >= 1
    ensures |Raised(w)| >= 2
    ensures |Raised(w)| == 2 ==> Raised(w) == [i, j]
  {
    assert i in Raised(w) && j in Raised(w);
    var a :| 0 <= a < |Raised(w)| && Raised(w)[a] == i;
    var b :| 0 <= b < |Raised(w)| && Raised(w)[b] == j;
    assert a < b;
  }

  lemma AscendingSize(s: seq<nat>)
    requires Ascending(s)
    ensures |Elements(s)| == |s|
  {
    ElementsSize(s);
  }

  /** Fewer controls first, then the smaller control vector, then the smaller level vector. */
  ghost predicate Precedes(v: Levels, w: Levels) {
    || |Raised(v)| < |Raised(w)|
    || (|Raised(v)| == |Raised(w)| && LexLess(Raised(v), Raised(w)))
    || (|v| == |w| && Raised(v) == Raised(w) && LexLeq(Project(v, Raised(v)), Project(w, Raised(v))))
  }

  ghost predicate HittingLevels(q: Problem, w: Levels) {
    ValidLevels(q, w) && HitsEvery(q, Raised(w), w)
  }

  /** Two level vectors each of which precedes the other are the same. */
  lemma PrecedesAntisymmetric(v: Levels, w: Levels)
    requires |v| == |w| && Precedes(v, w) && Precedes(w, v)
    ensures v == w
  {
    if LexLess(Raised(v), Raised(w)) {
      LexLessAsymmetric(Raised(v), Raised(w));
    }
    if LexLess(Raised(w), Raised(v)) {
      LexLessAsymmetric(Raised(w), Raised(v));
    }
    var raised := Raised(v);
    LexAntisymmetric(Project(v, raised), Project(w, raised));
    forall c | 0 <= c < |v| ensures v[c] == w[c] {
      if c in raised {
        var i :| 0 <= i < |raised| && raised[i] == c;
        assert Project(v, raised)[i] == v[c] && Project(w, raised)[i] == w[c];
      }
    }
  }

  /** A hitting level vector raises a hitting set: cardinality is a question about controls. */
  lemma {:induction false} LevelsHitAtMax(q: Problem, w: Levels)
    requires ValidProblem(q) && HittingLevels(q, w)
    ensures HittingVector(AtMax(q), q.clauses, Raised(w), |Raised(w)|)
    ensures Elements(Raised(w)) <= Range(|q.perLevel|) && |Elements(Raised(w))| == |Raised(w)|
  {
    var raised := Raised(w);
    forall x | x in Range(q.clauses) ensures HitBy(AtMax(q), Elements(raised), x) {
      assert ClauseHit(q, raised, w, x);
      var c :| c in raised && LevelHit(q, w, c, x);
      assert q.perLevel[c][w[c] - 1] <= q.perLevel[c][|q.perLevel[c]| - 1];
      assert c in Elements(raised) && Hit(AtMax(q), c, x);
    }
    AscendingSize(raised);
  }

  lemma {:induction false} RaisedControls(w: Levels, controls: set<nat>)
    requires forall c :: c in controls <==> 0 <= c < |w| && w[c] >= 1
    ensures Elements(Raised(w)) == controls && |Raised(w)| == |controls|
  {
    assert forall c :: c in Raised(w) <==> c in controls;
    AscendingSize(Raised(w));
  }

  /** Conversely a hitting set, every control at its top, is a hitting level vector: searching
      over controls loses no optimum. */
  lemma ChosenTopsHit(q: Problem, chosen: seq<nat>, levels: Levels)
    requires ValidProblem(q) && Controls(q, chosen) && ValidLevels(q, levels)
    requires forall c :: c in chosen ==> levels[c] == Top(q, c)
    requires Covers(AtMax(q), Elements(chosen), Range(q.clauses))
    ensures HitsEvery(q, chosen, levels)
  {
    forall x | 0 <= x < q.clauses ensures ClauseHit(q, chosen, levels, x) {
      assert HitBy(AtMax(q), Elements(chosen), x);
      var c :| c in Elements(chosen) && Hit(AtMax(q), c, x);
      assert LevelHit(q, levels, c, x);
    }
  }

  lemma SetHasLevels(q: Problem, controls: set<nat>) returns (w: Levels)
    requires ValidProblem(q) && controls <= Range(|q.perLevel|) && Covers(AtMax(q), controls, Range(q.clauses))
    ensures HittingLevels(q, w) && |Raised(w)| == |controls|
    ensures Elements(Raised(w)) == controls
  {
    w := seq(|q.perLevel|, c requires 0 <= c < |q.perLevel| => if c in controls then Top(q, c) else 0);
    assert forall c :: c in controls ==> c in Range(|q.perLevel|);
    RaisedControls(w, controls);
    ChosenTopsHit(q, Raised(w), w);
  }

  /** `IsOptimum` over controls is the least number of raised controls of any level vector. */
  lemma OptimumOverLevels(q: Problem, k: nat)
    requires ValidProblem(q)
    ensures IsOptimum(AtMax(q), Range(|q.perLevel|), q.clauses, k) <==>
              && (exists w :: HittingLevels(q, w) && |Raised(w)| == k)
              && (forall w :: HittingLevels(q, w) ==> k <= |Raised(w)|)
  {
    if IsOptimum(AtMax(q), Range(|q.perLevel|), q.clauses, k) {
      var best :| best <= Range(|q.perLevel|) && |best| == k && Covers(AtMax(q), best, Range(q.clauses));
      var w := SetHasLevels(q, best);
      forall w | HittingLevels(q, w) ensures k <= |Raised(w)| {
        LevelsHitAtMax(q, w);
      }
    }
    if exists w :: HittingLevels(q, w) && |Raised(w)| == k {
      if forall w :: HittingLevels(q, w) ==> k <= |Raised(w)| {
        var w :| HittingLevels(q, w) && |Raised(w)| == k;
        LevelsHitAtMax(q, w);
        assert Covers(AtMax(q), Elements(Raised(w)), Range(q.clauses));
        forall controls | controls <= Range(|q.perLevel|) && Covers(AtMax(q), controls, Range(q.clauses))
          ensures k <= |controls|
        {
          var v := SetHasLevels(q, controls);
        }
      }
    }
  }

  // ---------------------------------------------------------------------------
  // canonical_select
  // ---------------------------------------------------------------------------

  /** The outcomes of `canonical_select`: a cut, or one of its four errors. */
  datatype Selected =
    | Selected(levels: Levels, nodes: nat)
    | BudgetError
    | NotTheOptimum
    | DoesNotHit
    | NotLevelMinimal

  function Lookup(n: nat, chosen: seq<nat>, levels: Levels): (kept: Levels)
    requires n <= |levels|
    ensures |kept| == n && forall c :: 0 <= c < n ==> kept[c] == if c in chosen then levels[c] else 0
  {
    seq(n, c requires 0 <= c < n => if c in chosen then levels[c] else 0)
  }

  method CheckLevelMinimal(q: Problem, chosen: seq<nat>, levels: Levels) returns (b: bool)
    requires ValidProblem(q) && ValidLevels(q, levels) && Controls(q, chosen)
    ensures b <==> LevelMinimal(q, chosen, levels)
  {
    for i := 0 to |chosen|
      invariant forall k :: 0 <= k < i && levels[chosen[k]] > 1
                  ==> !HitsEvery(q, chosen, levels[chosen[k] := levels[chosen[k]] - 1])
    {
      var c := chosen[i];
      if levels[c] > 1 {
        var trial := levels[c := levels[c] - 1];
        var all := HitsAll(q, chosen, trial);
        if all {
          return false;
        }
      }
    }
    return true;
  }

  /** A selected vector hits every clause, raises `cardinality` controls, and precedes every
      hitting vector that raises as many. */
  ghost predicate CanonicalAt(q: Problem, cardinality: nat, levels: Levels) {
    && HittingLevels(q, levels)
    && |Raised(levels)| == cardinality
    && LevelMinimal(q, Raised(levels), levels)
    && forall w :: HittingLevels(q, w) && |Raised(w)| == cardinality ==> Precedes(levels, w)
  }

  lemma SelectionIsCanonical(q: Problem, cardinality: nat, chosen: seq<nat>, levels: Levels)
    requires ValidProblem(q) && Controls(q, chosen) && |chosen| == cardinality
    requires Raises(q, chosen, levels) && HitsEvery(q, chosen, levels)
    requires forall c :: 0 <= c < |levels| && c !in chosen ==> levels[c] == 0
    requires LevelMinimal(q, chosen, levels) && LeastLevels(q, chosen, levels)
    requires forall v :: HittingVector(AtMax(q), q.clauses, v, cardinality) ==> LexLeq(chosen, v)
    ensures CanonicalAt(q, cardinality, levels)
  {
    assert forall i :: 0 <= i < |chosen| ==> chosen[i] in chosen;
    AscendingUnique(chosen, Raised(levels));
    forall w | HittingLevels(q, w) && |Raised(w)| == cardinality ensures Precedes(levels, w) {
      LevelsHitAtMax(q, w);
    }
  }

  /** The lexicographically least representative at the given cardinality. The branch for a
      cardinality that is not the optimum is taken exactly when no set of that many controls hits
      every clause: never at the optimum, nor above it. Two further branches never are. */
  method CanonicalSelect(q: Problem, cardinality: nat, budget: int) returns (r: Selected)
    requires ValidProblem(q)
    ensures !r.DoesNotHit? && !r.NotLevelMinimal?
    ensures r.NotTheOptimum? ==> !Coverable(AtMax(q), q.clauses, cardinality)
    ensures r.Selected? ==> Coverable(AtMax(q), q.clauses, cardinality)
    ensures r.Selected? ==> CanonicalAt(q, cardinality, r.levels)
    ensures r.Selected? ==> r.nodes == SelectNodes(AtMax(q), q.clauses, cardinality)
    ensures r.BudgetError? <==> SelectNodes(AtMax(q), q.clauses, cardinality) > Affordable(budget)
  {
    var hits := AtMax(q);
    var box := new NodeBox(budget);
    var budgetHit, chosen, unhit := SelectControls(hits, q.clauses, cardinality, box);
    if budgetHit {
      return BudgetError;
    }
    if |chosen| != cardinality || unhit != {} {
      return NotTheOptimum;
    }
    var n := |q.perLevel|;
    var levels: Levels := seq(n, c requires 0 <= c < n => if c in chosen then Top(q, c) else 0);
    ChosenTopsHit(q, chosen, levels);
    levels := LowerLevels(q, chosen, levels);
    var all := HitsAll(q, chosen, levels);
    if !all {
      return DoesNotHit;
    }
    var minimal := CheckLevelMinimal(q, chosen, levels);
    if !minimal {
      return NotLevelMinimal;
    }
    SelectionIsCanonical(q, cardinality, chosen, levels);
    return Selected(levels, box.used);
  }

  /** At the optimal cardinality the selected vector is the least of all hitting vectors, and
      it is the only vector with that property. */
  lemma CanonicalIsLeast(q: Problem, k: nat, levels: Levels)
    requires ValidProblem(q) && IsOptimum(AtMax(q), Range(|q.perLevel|), q.clauses, k)
    requires CanonicalAt(q, k, levels)
    ensures forall w :: HittingLevels(q, w) ==> Precedes(levels, w)
    ensures forall v :: HittingLevels(q, v) && (forall w :: HittingLevels(q, w) ==> Precedes(v, w)) ==> v == levels
  {
    OptimumOverLevels(q, k);
    forall v | HittingLevels(q, v) && (forall w :: HittingLevels(q, w) ==> Precedes(v, w)) ensures v == levels {
      assert Precedes(v, levels) && Precedes(levels, v);
      PrecedesAntisymmetric(v, levels);
    }
  }

  // ---------------------------------------------------------------------------
  // The subset-minimal fallback
  // ---------------------------------------------------------------------------

  function Without(chosen: seq<nat>, c: nat): (s: seq<nat>)
    requires Ascending(chosen)
    ensures Ascending(s)
    ensures forall x :: x in s <==> x in chosen && x != c
  {
    if chosen == [] then []
    else
      var last := chosen[|chosen| - 1];
      var front := Without(chosen[..|chosen| - 1], c);
      assert forall k :: 0 <= k < |front| ==> front[k] in front;
      assert chosen == chosen[..|chosen| - 1] + [last];
      if last == c then front else front + [last]
  }

  /** Dropping any chosen control at or above `from` leaves a clause unhit. */
  ghost predicate NoneSpare(q: Problem, chosen: seq<nat>, levels: Levels, from: nat)
    requires Ascending(chosen) && ValidLevels(q, levels)
  {
    forall c :: c in chosen && from <= c ==> !HitsEvery(q, Without(chosen, c), levels)
  }

  lemma NoneSpareStep(q: Problem, chosen: seq<nat>, levels: Levels, c: nat)
    requires ValidProblem(q) && Ascending(chosen) && ValidLevels(q, levels)
    requires NoneSpare(q, chosen, levels, c + 1)
    ensures HitsEvery(q, Without(chosen, c), levels) ==> NoneSpare(q, Without(chosen, c), levels, c)
    ensures !HitsEvery(q, Without(chosen, c), levels) ==> NoneSpare(q, chosen, levels, c)
  {
    var rest := Without(chosen, c);
    forall d | d in rest && c <= d ensures !HitsEvery(q, Without(rest, d), levels) {
      if HitsEvery(q, Without(rest, d), levels) {
        HitsEveryMonotone(q, Without(rest, d), levels, Without(chosen, d), levels);
      }
    }
  }

  /** No control can be removed and no level lowered. */
  ghost predicate SubsetMinimal(q: Problem, levels: Levels) {
    && HittingLevels(q, levels)
    && NoneSpare(q, Raised(levels), levels, 0)
    && LevelMinimal(q, Raised(levels), levels)
  }

  /** All controls before `c` and the raised ones after it, at their tops. */
  function RestLevels(q: Problem, w: Levels, c: nat): (v: Levels)
    requires |w| == |q.perLevel|
    ensures ValidLevels(q, v)
    ensures forall d :: 0 <= d < |v| ==> v[d] == if d < c || (d > c && w[d] >= 1) then Top(q, d) else 0
  {
    seq(|w|, d requires 0 <= d < |w| => if d < c || (d > c && w[d] >= 1) then Top(q, d) else 0)
  }

  /** Decided from the last control down, a control is raised exactly when all before it, with
      the raised ones after it, miss a clause. */
  ghost predicate DecidedFromLast(q: Problem, w: Levels) {
    |w| == |q.perLevel| && forall c: nat :: c < |w| ==> (w[c] >= 1 <==> !HittingLevels(q, RestLevels(q, w, c)))
  }

  /** What the fallback returns: that set of controls, at the least levels that hit every clause. */
  ghost predicate FallbackLevels(q: Problem, w: Levels) {
    && HittingLevels(q, w) && DecidedFromLast(q, w)
    && forall v :: HittingLevels(q, v) && Raised(v) == Raised(w) ==> Precedes(w, v)
  }

  ghost predicate SameAbove(v: Levels, w: Levels, c: nat) {
    |v| == |w| && forall d :: c <= d < |w| ==> (v[d] >= 1 <==> w[d] >= 1)
  }

  lemma {:induction false} SameDecision(q: Problem, v: Levels, w: Levels, c: nat)
    requires DecidedFromLast(q, v) && DecidedFromLast(q, w) && c < |w| && SameAbove(v, w, c + 1)
    ensures SameAbove(v, w, c)
  {
    SameRestLevels(q, v, w, c);
    DecidedHere(q, v, c, RestLevels(q, v, c));
    DecidedHere(q, w, c, RestLevels(q, v, c));
  }

  lemma SameRestLevels(q: Problem, v: Levels, w: Levels, c: nat)
    requires |v| == |w| == |q.perLevel| && c < |w| && SameAbove(v, w, c + 1)
    ensures RestLevels(q, v, c) == RestLevels(q, w, c)
  {
  }

  lemma DecidedHere(q: Problem, w: Levels, c: nat, rest: Levels)
    requires DecidedFromLast(q, w) && c < |w| && rest == RestLevels(q, w, c)
    ensures w[c] >= 1 <==> !HittingLevels(q, rest)
  {
  }

  lemma {:induction false} SameFrom(q: Problem, v: Levels, w: Levels, c: nat)
    requires DecidedFromLast(q, v) && DecidedFromLast(q, w) && c <= |w|
    ensures SameAbove(v, w, c)
    decreases |w| - c
  {
    if c < |w| {
      SameFrom(q, v, w, c + 1);
      SameDecision(q, v, w, c);
    }
  }

  /** The fallback is one vector: no other answers the description. */
  lemma {:induction false} FallbackIsUnique(q: Problem, v: Levels, w: Levels)
    requires FallbackLevels(q, v) && FallbackLevels(q, w)
    ensures v == w
  {
    SameFrom(q, v, w, 0);
    AscendingUnique(Raised(v), Raised(w));
    PrecedesAntisymmetric(v, w);
  }

  /** The clauses are hit by all controls before `c` and the chosen ones after it. */
  ghost predicate RestHits(q: Problem, chosen: seq<nat>, tops: Levels, c: nat)
    requires ValidLevels(q, tops)
  {
    forall x :: 0 <= x < q.clauses ==> RestHitsOne(q, chosen, tops, c, x)
  }

  ghost predicate RestHitsOne(q: Problem, chosen: seq<nat>, tops: Levels, c: nat, x: nat)
    requires ValidLevels(q, tops)
  {
    exists d: nat :: (d < c || (d > c && d in chosen)) && LevelHit(q, tops, d, x)
  }

  /** The pass so far: below `c` every control is still chosen, from `c` on each is decided. */
  ghost predicate Deciding(q: Problem, chosen: seq<nat>, tops: Levels, c: nat)
    requires ValidLevels(q, tops)
  {
    && (forall d: nat :: d < c && d < |tops| ==> d in chosen)
    && forall d: nat :: c <= d < |tops| ==> (d in chosen <==> !RestHits(q, chosen, tops, d))
  }

  lemma {:induction false} RestHitsSame(q: Problem, chosen: seq<nat>, other: seq<nat>, tops: Levels, d: nat)
    requires ValidLevels(q, tops) && forall e: nat :: e > d ==> (e in chosen <==> e in other)
    ensures RestHits(q, chosen, tops, d) <==> RestHits(q, other, tops, d)
  {
    forall x | 0 <= x < q.clauses ensures RestHitsOne(q, chosen, tops, d, x) <==> RestHitsOne(q, other, tops, d, x) {
    }
  }

  lemma {:induction false} TrialIsRest(q: Problem, chosen: seq<nat>, tops: Levels, c: nat)
    requires ValidLevels(q, tops) && Ascending(chosen) && c < |tops|
    requires forall d: nat :: d < c ==> d in chosen
    ensures HitsEvery(q, Without(chosen, c), tops) <==> RestHits(q, chosen, tops, c)
  {
    var trial := Without(chosen, c);
    forall x | 0 <= x < q.clauses ensures ClauseHit(q, trial, tops, x) <==> RestHitsOne(q, chosen, tops, c, x) {
      if ClauseHit(q, trial, tops, x) {
        var d :| d in trial && LevelHit(q, tops, d, x);
        assert d < c || (d > c && d in chosen);
      }
      if RestHitsOne(q, chosen, tops, c, x) {
        var d: nat :| (d < c || (d > c && d in chosen)) && LevelHit(q, tops, d, x);
        assert d in trial;
      }
    }
  }

  lemma {:induction false} DecideStep(q: Problem, chosen: seq<nat>, tops: Levels, c: nat, hit: bool, chosen': seq<nat>)
    requires ValidLevels(q, tops) && Ascending(chosen) && c < |tops| && Deciding(q, chosen, tops, c + 1)
    requires hit <==> HitsEvery(q, Without(chosen, c), tops)
    requires chosen' == if hit then Without(chosen, c) else chosen
    ensures Deciding(q, chosen', tops, c)
  {
    TrialIsRest(q, chosen, tops, c);
    forall d: nat | c <= d < |tops| ensures d in chosen' <==> !RestHits(q, chosen', tops, d) {
      RestHitsSame(q, chosen, chosen', tops, d);
    }
  }

  lemma {:induction false} DecidedIsRest(q: Problem, chosen: seq<nat>, tops: Levels, w: Levels, c: nat)
    requires ValidProblem(q) && ValidLevels(q, tops) && forall d :: 0 <= d < |tops| ==> tops[d] == Top(q, d)
    requires |w| == |tops| && Raised(w) == chosen && c < |w|
    ensures RestHits(q, chosen, tops, c) <==> HittingLevels(q, RestLevels(q, w, c))
  {
    forall x | 0 <= x < q.clauses
      ensures RestHitsOne(q, chosen, tops, c, x) <==> ClauseHit(q, Raised(RestLevels(q, w, c)), RestLevels(q, w, c), x)
    {
      DecidedIsRestOne(q, chosen, tops, w, c, x);
    }
  }

  lemma {:induction false} DecidedIsRestOne(q: Problem, chosen: seq<nat>, tops: Levels, w: Levels, c: nat, x: nat)
    requires ValidProblem(q) && ValidLevels(q, tops) && forall d :: 0 <= d < |tops| ==> tops[d] == Top(q, d)
    requires |w| == |tops| && Raised(w) == chosen && c < |w|
    ensures RestHitsOne(q, chosen, tops, c, x) <==> ClauseHit(q, Raised(RestLevels(q, w, c)), RestLevels(q, w, c), x)
  {
    var v := RestLevels(q, w, c);
    if RestHitsOne(q, chosen, tops, c, x) {
      var d: nat :| (d < c || (d > c && d in chosen)) && LevelHit(q, tops, d, x);
      RestHitsHere(q, chosen, tops, w, c, d, x);
    }
    if ClauseHit(q, Raised(v), v, x) {
      var d :| d in Raised(v) && LevelHit(q, v, d, x);
      RestHitsHere(q, chosen, tops, w, c, d, x);
    }
  }

  lemma {:induction false} RestHitsHere(q: Problem, chosen: seq<nat>, tops: Levels, w: Levels, c: nat, d: nat, x: nat)
    requires ValidProblem(q) && ValidLevels(q, tops) && forall e :: 0 <= e < |tops| ==> tops[e] == Top(q, e)
    requires |w| == |tops| && Raised(w) == chosen && c < |w|
    ensures (d < c || (d > c && d in chosen)) && LevelHit(q, tops, d, x)
       <==> d in Raised(RestLevels(q, w, c)) && LevelHit(q, RestLevels(q, w, c), d, x)
  {
  }

  lemma {:induction false} KeptDecided(q: Problem, chosen: seq<nat>, tops: Levels, kept: Levels)
    requires ValidProblem(q) && ValidLevels(q, tops) && forall c :: 0 <= c < |tops| ==> tops[c] == Top(q, c)
    requires Deciding(q, chosen, tops, 0) && |kept| == |tops| && Raised(kept) == chosen
    ensures DecidedFromLast(q, kept)
  {
    forall c: nat | c < |kept| ensures kept[c] >= 1 <==> !HittingLevels(q, RestLevels(q, kept, c)) {
      DecidedIsRest(q, chosen, tops, kept, c);
      assert c in chosen <==> kept[c] >= 1;
    }
  }

  lemma {:induction false} KeptPrecedes(q: Problem, chosen: seq<nat>, lowered: Levels, kept: Levels, v: Levels)
    requires Controls(q, chosen) && Raises(q, chosen, lowered) && LeastLevels(q, chosen, lowered)
    requires |kept| == |lowered| && (forall c :: c in chosen && c < |kept| ==> kept[c] == lowered[c])
    requires Raised(kept) == chosen && HittingLevels(q, v) && Raised(v) == chosen
    ensures Precedes(kept, v)
  {
    assert forall i :: 0 <= i < |chosen| ==> chosen[i] in chosen;
    assert Raises(q, chosen, v);
    assert Project(kept, chosen) == Project(lowered, chosen);
  }

  /** The dropping pass down to `c`. */
  ghost predicate Dropping(q: Problem, chosen: seq<nat>, tops: Levels, c: nat)
    requires ValidLevels(q, tops)
  {
    && Controls(q, chosen) && HitsEvery(q, chosen, tops)
    && NoneSpare(q, chosen, tops, c) && Deciding(q, chosen, tops, c)
  }

  lemma DroppingStarts(q: Problem, chosen: seq<nat>, tops: Levels)
    requires ValidLevels(q, tops) && chosen == Identity(|tops|) && HitsEvery(q, chosen, tops)
    ensures Dropping(q, chosen, tops, |tops|)
  {
    forall d: nat | d < |tops| ensures d in chosen {
      assert chosen[d] == d;
    }
  }

  /** One control of the pass: dropped when the others hit every clause. */
  method DropOne(q: Problem, chosen: seq<nat>, tops: Levels, c: nat) returns (kept: seq<nat>)
    requires ValidProblem(q) && ValidLevels(q, tops) && c < |tops| && Dropping(q, chosen, tops, c + 1)
    ensures Dropping(q, kept, tops, c)
  {
    NoneSpareStep(q, chosen, tops, c);
    var trial := Without(chosen, c);
    assert forall i :: 0 <= i < |trial| ==> trial[i] in trial;
    var hit := HitsAll(q, trial, tops);
    kept := if hit then trial else chosen;
    DecideStep(q, chosen, tops, c, hit, kept);
  }

  /** Every control at its top, dropped in one reverse pass, then lowered. `None` stands for
      the error on a clause the whole universe misses. */
  method SelectSubsetMinimal(q: Problem) returns (r: Option<Levels>)
    requires ValidProblem(q)
    ensures r.None? <==> !Covers(AtMax(q), Range(|q.perLevel|), Range(q.clauses))
    ensures r.Some? ==> SubsetMinimal(q, r.value) && FallbackLevels(q, r.value)
  {
    var n := |q.perLevel|;
    var chosen := Identity(n);
    var levels: Levels := seq(n, c requires 0 <= c < n => Top(q, c));
    var all := HitsAll(q, chosen, levels);
    UniverseTest(q, chosen, levels);
    if !all {
      return None;
    }
    DroppingStarts(q, chosen, levels);
    var c := n;
    while c > 0
      invariant 0 <= c <= n && Dropping(q, chosen, levels, c)
    {
      c := c - 1;
      chosen := DropOne(q, chosen, levels, c);
    }
    var lowered := LowerLevels(q, chosen, levels);
    var kept := Lookup(n, chosen, lowered);
    KeptIsSubsetMinimal(q, chosen, levels, lowered, kept);
    KeptHits(q, chosen, lowered, kept);
    KeptDecided(q, chosen, levels, kept);
    forall v | HittingLevels(q, v) && Raised(v) == chosen ensures Precedes(kept, v) {
      KeptPrecedes(q, chosen, lowered, kept, v);
    }
    return Some(kept);
  }

  lemma UniverseTest(q: Problem, chosen: seq<nat>, levels: Levels)
    requires ValidProblem(q) && chosen == Identity(|q.perLevel|) && ValidLevels(q, levels)
    requires forall c :: 0 <= c < |levels| ==> levels[c] == Top(q, c)
    ensures HitsEvery(q, chosen, levels) <==> Covers(AtMax(q), Range(|q.perLevel|), Range(q.clauses))
  {
    assert forall c: nat :: c < |q.perLevel| ==> chosen[c] in chosen;
    if HitsEvery(q, chosen, levels) {
      forall x | x in Range(q.clauses) ensures HitBy(AtMax(q), Range(|q.perLevel|), x) {
        assert ClauseHit(q, chosen, levels, x);
        var c :| c in chosen && LevelHit(q, levels, c, x);
        assert c in Range(|q.perLevel|) && Hit(AtMax(q), c, x);
      }
    }
    if Covers(AtMax(q), Range(|q.perLevel|), Range(q.clauses)) {
      forall x | 0 <= x < q.clauses ensures ClauseHit(q, chosen, levels, x) {
        assert HitBy(AtMax(q), Range(|q.perLevel|), x);
        var c: nat :| c in Range(|q.perLevel|) && Hit(AtMax(q), c, x);
        assert chosen[c] in chosen && LevelHit(q, levels, c, x);
      }
    }
  }

  /** Zeroing the levels of dropped controls changes nothing that is hit. */
  lemma {:induction false} KeptHits(q: Problem, chosen: seq<nat>, lowered: Levels, kept: Levels)
    requires ValidProblem(q) && Controls(q, chosen) && Raises(q, chosen, lowered) && HitsEvery(q, chosen, lowered)
    requires |kept| == |lowered| && forall c :: 0 <= c < |kept| ==> kept[c] == if c in chosen then lowered[c] else 0
    ensures Raised(kept) == chosen && HittingLevels(q, kept)
  {
    assert forall i :: 0 <= i < |chosen| ==> chosen[i] in chosen;
    AscendingUnique(chosen, Raised(kept));
    HitsEveryMonotone(q, chosen, lowered, chosen, kept);
  }

  lemma KeptIsLevelMinimal(q: Problem, chosen: seq<nat>, lowered: Levels, kept: Levels)
    requires ValidProblem(q) && Controls(q, chosen) && ValidLevels(q, lowered) && LevelMinimal(q, chosen, lowered)
    requires |kept| == |lowered| && forall c :: 0 <= c < |kept| ==> kept[c] == if c in chosen then lowered[c] else 0
    ensures ValidLevels(q, kept) && LevelMinimal(q, chosen, kept)
  {
    forall c | c in chosen && c < |kept| && kept[c] > 1 ensures !HitsEvery(q, chosen, kept[c := kept[c] - 1]) {
      var trial := kept[c := kept[c] - 1];
      if HitsEvery(q, chosen, trial) {
        HitsEveryMonotone(q, chosen, trial, chosen, lowered[c := lowered[c] - 1]);
      }
    }
  }

  lemma KeptIsSubsetMinimal(q: Problem, chosen: seq<nat>, levels: Levels, lowered: Levels, kept: Levels)
    requires ValidProblem(q) && Controls(q, chosen) && ValidLevels(q, levels)
    requires forall c :: 0 <= c < |levels| ==> levels[c] == Top(q, c)
    requires NoneSpare(q, chosen, levels, 0)
    requires Raises(q, chosen, lowered) && HitsEvery(q, chosen, lowered) && LevelMinimal(q, chosen, lowered)
    requires |kept| == |lowered| && forall c :: 0 <= c < |kept| ==> kept[c] == if c in chosen then lowered[c] else 0
    ensures SubsetMinimal(q, kept)
  {
    KeptHits(q, chosen, lowered, kept);
    KeptIsLevelMinimal(q, chosen, lowered, kept);
    forall c | c in chosen ensures !HitsEvery(q, Without(chosen, c), kept) {
      if HitsEvery(q, Without(chosen, c), kept) {
        HitsEveryMonotone(q, Without(chosen, c), kept, Without(chosen, c), levels);
      }
    }
  }
}
