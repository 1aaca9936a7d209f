/** Minimum hitting sets over controls (cut.py, `_bb`, `min_cardinality`, `_extendable`).

    `hits[c]` is the set of clause indices control `c` hits at its maximum level. A set of
    controls covers `unhit` when the union of their hits contains it.
 */
module HittingSets {
  import opened Arithmetic
  import opened Wrappers

  type Hits = seq<set<nat>>

  predicate Hit(hits: Hits, control: nat, clause: nat) {
    control < |hits| && clause in hits[control]
  }

  ghost predicate HitBy(hits: Hits, controls: set<nat>, clause: nat) {
    exists c :: c in controls && Hit(hits, c, clause)
  }

  ghost predicate Covers(hits: Hits, controls: set<nat>, unhit: set<nat>) {
    forall x {:trigger HitBy(hits, controls, x)} :: x in unhit ==> HitBy(hits, controls, x)
  }

  predicate ValidAllowed(hits: Hits, allowed: seq<nat>) {
    && (forall i :: 0 <= i < |allowed| ==> allowed[i] < |hits|)
    && forall i, j :: 0 <= i < j < |allowed| ==> allowed[i] < allowed[j]
  }

  /** The controls listed at or after `start`. */
  ghost function Remaining(allowed: seq<nat>, start: nat): (r: set<nat>)
    requires start <= |allowed|
    ensures forall c :: c in r <==> exists i :: start <= i < |allowed| && allowed[i] == c
    decreases |allowed| - start
  {
    if start == |allowed| then {} else {allowed[start]} + Remaining(allowed, start + 1)
  }

  // ---------------------------------------------------------------------------
  // The optimum, by plain take-or-skip recursion
  // ---------------------------------------------------------------------------

  function Better(a: Option<nat>, b: Option<nat>): Option<nat> {
    if a.None? then b
    else if b.None? || a.value <= b.value then a
    else b
  }

  function Plus(k: nat, a: Option<nat>): Option<nat> {
    if a.None? then None else Some(k + a.value)
  }

  /** The fewest controls of `allowed[start..]` that cover `unhit`. */
  ghost function MinCover(hits: Hits, allowed: seq<nat>, unhit: set<nat>, start: nat): Option<nat>
    requires ValidAllowed(hits, allowed) && start <= |allowed|
    decreases |allowed| - start
  {
    if start == |allowed| then
      if unhit == {} then Some(0) else None
    else
      Better(MinCover(hits, allowed, unhit, start + 1),
             Plus(1, MinCover(hits, allowed, unhit - hits[allowed[start]], start + 1)))
  }

  lemma {:induction false} NothingToCover(hits: Hits, allowed: seq<nat>, start: nat)
    requires ValidAllowed(hits, allowed) && start <= |allowed|
    ensures MinCover(hits, allowed, {}, start) == Some(0)
    decreases |allowed| - start
  {
    if start < |allowed| {
      NothingToCover(hits, allowed, start + 1);
    }
  }

  lemma CoversWithout(hits: Hits, controls: set<nat>, unhit: set<nat>, c: nat)
    requires c < |hits| && Covers(hits, controls, unhit)
    ensures Covers(hits, controls - {c}, unhit - hits[c])
  {
    forall x | x in unhit - hits[c] ensures HitBy(hits, controls - {c}, x) {
      assert HitBy(hits, controls, x);
      var d :| d in controls && Hit(hits, d, x);
      assert d in controls - {c};
    }
  }

  lemma CoversWith(hits: Hits, controls: set<nat>, unhit: set<nat>, c: nat)
    requires c < |hits| && Covers(hits, controls, unhit - hits[c])
    ensures Covers(hits, controls + {c}, unhit)
  {
    forall x | x in unhit ensures HitBy(hits, controls + {c}, x) {
      if x in hits[c] {
        assert Hit(hits, c, x);
      } else {
        assert HitBy(hits, controls, x);
        var d :| d in controls && Hit(hits, d, x);
        assert d in controls + {c};
      }
    }
  }

  lemma CoversMonotone(hits: Hits, small: set<nat>, large: set<nat>, unhit: set<nat>)
    requires small <= large && Covers(hits, small, unhit)
    ensures Covers(hits, large, unhit)
  {
    forall x | x in unhit ensures HitBy(hits, large, x) {
      assert HitBy(hits, small, x);
      var c :| c in small && Hit(hits, c, x);
    }
  }

  ghost predicate AtMost(a: Option<nat>, k: nat) {
    a.Some? && a.value <= k
  }

  lemma MinCoverAtMost(hits: Hits, allowed: seq<nat>, unhit: set<nat>, start: nat, k: nat)
    requires ValidAllowed(hits, allowed) && start < |allowed|
    requires AtMost(MinCover(hits, allowed, unhit, start + 1), k)
          || AtMost(Plus(1, MinCover(hits, allowed, unhit - hits[allowed[start]], start + 1)), k)
    ensures AtMost(MinCover(hits, allowed, unhit, start), k)
  {
  }

  /** What is left to cover can only shrink the optimum, which never passes the controls left. */
  lemma {:induction false} LessToCover(hits: Hits, allowed: seq<nat>, unhit: set<nat>, less: set<nat>, start: nat)
    requires ValidAllowed(hits, allowed) && start <= |allowed| && less <= unhit
    requires MinCover(hits, allowed, unhit, start).Some?
    ensures AtMost(MinCover(hits, allowed, less, start), MinCover(hits, allowed, unhit, start).value)
    ensures AtMost(MinCover(hits, allowed, unhit, start), |allowed| - start)
    decreases |allowed| - start
  {
    if start < |allowed| {
      var here := hits[allowed[start]];
      if MinCover(hits, allowed, unhit, start + 1).Some? {
        LessToCover(hits, allowed, unhit, less, start + 1);
      }
      if MinCover(hits, allowed, unhit - here, start + 1).Some? {
        LessToCover(hits, allowed, unhit - here, less - here, start + 1);
      }
    }
  }

  /** No set of the remaining controls covers with fewer. */
  lemma {:induction false} MinCoverIsLowerBound(hits: Hits, allowed: seq<nat>, unhit: set<nat>, start: nat,
                                                controls: set<nat>)
    requires ValidAllowed(hits, allowed) && start <= |allowed|
    requires controls <= Remaining(allowed, start) && Covers(hits, controls, unhit)
    ensures AtMost(MinCover(hits, allowed, unhit, start), |controls|)
    decreases |allowed| - start
  {
    if start == |allowed| {
      assert controls == {};
      assert forall x :: !HitBy(hits, controls, x);
      assert forall x :: x in unhit ==> HitBy(hits, controls, x);
    } else {
      var c := allowed[start];
      var rest := controls - {c};
      assert rest <= Remaining(allowed, start + 1);
      if c in controls {
        CoversWithout(hits, controls, unhit, c);
        MinCoverIsLowerBound(hits, allowed, unhit - hits[c], start + 1, rest);
        assert |controls| == |rest| + 1;
      } else {
        assert rest == controls;
        MinCoverIsLowerBound(hits, allowed, unhit, start + 1, controls);
      }
      MinCoverAtMost(hits, allowed, unhit, start, |controls|);
    }
  }

  /** Some set of the remaining controls attains it. */
  lemma {:induction false} MinCoverIsAttained(hits: Hits, allowed: seq<nat>, unhit: set<nat>, start: nat)
    returns (controls: set<nat>)
    requires ValidAllowed(hits, allowed) && start <= |allowed|
    requires MinCover(hits, allowed, unhit, start).Some?
    ensures controls <= Remaining(allowed, start)
    ensures Covers(hits, controls, unhit)
    ensures |controls| == MinCover(hits, allowed, unhit, start).value
    decreases |allowed| - start
  {
    if start == |allowed| {
      controls := {};
    } else if MinCover(hits, allowed, unhit, start + 1) == MinCover(hits, allowed, unhit, start) {
      controls := MinCoverIsAttained(hits, allowed, unhit, start + 1);
    } else {
      var c := allowed[start];
      var rest := MinCoverIsAttained(hits, allowed, unhit - hits[c], start + 1);
      CoversWith(hits, rest, unhit, c);
      controls := rest + {c};
    }
  }

  /** The cardinality bound: `k` controls each hitting at most `widest` hit at most `k * widest`. */
  lemma {:induction false} WidthBound(hits: Hits, allowed: seq<nat>, unhit: set<nat>, start: nat, widest: nat)
    requires ValidAllowed(hits, allowed) && start <= |allowed|
    requires forall i :: start <= i < |allowed| ==> |unhit * hits[allowed[i]]| <= widest
    ensures MinCover(hits, allowed, unhit, start).Some?
            ==> |unhit| <= MinCover(hits, allowed, unhit, start).value * widest
    decreases |allowed| - start
  {
    if start < |allowed| {
      var here := hits[allowed[start]];
      WidthBound(hits, allowed, unhit, start + 1, widest);
      var left := unhit - here;
      forall i | start + 1 <= i < |allowed| ensures |left * hits[allowed[i]]| <= widest {
        SubsetSize(left * hits[allowed[i]], unhit * hits[allowed[i]]);
      }
      WidthBound(hits, allowed, left, start + 1, widest);
      var take := MinCover(hits, allowed, left, start + 1);
      SplitSize(unhit, here);
      if take.Some? {
        assert (1 + take.value) * widest == widest + take.value * widest;
      }
    }
  }

  lemma SplitSize<T>(all: set<T>, part: set<T>)
    ensures |all| == |all - part| + |all * part|
  {
    assert all == (all - part) + (all * part);
  }

  /** Skipping a control that covers nothing loses nothing. */
  lemma UselessControl(hits: Hits, allowed: seq<nat>, unhit: set<nat>, start: nat)
    requires ValidAllowed(hits, allowed) && start < |allowed| && unhit != {}
    requires unhit * hits[allowed[start]] == {}
    ensures MinCover(hits, allowed, unhit, start) == MinCover(hits, allowed, unhit, start + 1)
  {
    assert forall x :: x in unhit && x in hits[allowed[start]] ==> x in unhit * hits[allowed[start]];
    assert unhit - hits[allowed[start]] == unhit;
  }

  /** One more control tried: the incumbent absorbs the take branch, the skip branch stays open. */
  lemma TakeOrSkip(incumbent: Option<nat>, chosen: nat, skip: Option<nat>, take: Option<nat>)
    ensures Better(incumbent, Plus(chosen, Better(skip, Plus(1, take))))
         == Better(Better(incumbent, Plus(chosen + 1, take)), Plus(chosen, skip))
  {
  }

  // ---------------------------------------------------------------------------
  // Deterministic node accounting
  // ---------------------------------------------------------------------------

  /** A branch-and-bound node counter. `Spend` answers false where the source raises. */
  class NodeBox {
    const limit: int
    var used: nat

    constructor (limit: int)
      ensures this.limit == limit && used == 0
    {
      this.limit := limit;
      used := 0;
    }

    method Spend() returns (ok: bool)
      modifies this
      ensures used == old(used) + 1
      ensures ok <==> used <= limit
    {
      used := used + 1;
      ok := used <= limit;
    }
  }

  /** How a box looks after work of exactly `cost` nodes: the work finishes if and only if the limit
      allows it, and otherwise one node is spent beyond what was allowed. */
  ghost predicate Spent(limit: int, before: nat, after: nat, finished: bool, cost: nat) {
    && (finished <==> cost == 0 || before + cost <= limit)
    && after == if finished then before + cost else if before <= limit then limit + 1 else before + 1
  }

  lemma SpentThen(limit: int, before: nat, between: nat, after: nat, first: nat, finished: bool, second: nat)
    requires Spent(limit, before, between, true, first) && Spent(limit, between, after, finished, second)
    ensures Spent(limit, before, after, finished, first + second)
  {
  }

  lemma SpentOut(limit: int, before: nat, after: nat, first: nat, second: nat)
    requires Spent(limit, before, after, false, first)
    ensures Spent(limit, before, after, false, first + second)
  {
  }

  // ---------------------------------------------------------------------------
  // Branch and bound
  // ---------------------------------------------------------------------------

  datatype Search<+T> = BudgetHit | Found(result: T)

  /** The most any one control still available covers; zero when none covers anything. */
  ghost predicate IsWidest(hits: Hits, allowed: seq<nat>, unhit: set<nat>, start: nat, width: nat)
    requires ValidAllowed(hits, allowed) && start <= |allowed|
  {
    && (forall i :: start <= i < |allowed| ==> |unhit * hits[allowed[i]]| <= width)
    && (width > 0 ==> exists i :: start <= i < |allowed| && |unhit * hits[allowed[i]]| == width)
  }

  /** The widest single control among those still available. */
  method Widest(hits: Hits, allowed: seq<nat>, unhit: set<nat>, start: nat) returns (widest: nat)
    requires ValidAllowed(hits, allowed) && start <= |allowed|
    ensures IsWidest(hits, allowed, unhit, start, widest)
  {
    widest := 0;
    for index := start to |allowed|
      invariant forall i :: start <= i < index ==> |unhit * hits[allowed[i]]| <= widest
      invariant widest > 0 ==> exists i :: start <= i < index && |unhit * hits[allowed[i]]| == widest
    {
      var width := |unhit * hits[allowed[index]]|;
      if width > widest {
        widest := width;
      }
    }
  }

  /** No control covers any of what is left, or the bound reaches the incumbent. */
  ghost predicate ClosesNode(hits: Hits, allowed: seq<nat>, unhit: set<nat>, start: nat, chosen: nat, best: Option<nat>)
    requires ValidAllowed(hits, allowed) && start <= |allowed|
  {
    exists width :: IsWidest(hits, allowed, unhit, start, width)
      && (width == 0 || (best.Some? && chosen + CeilDiv(|unhit|, width) >= best.value))
  }

  lemma WidestIsUnique(hits: Hits, allowed: seq<nat>, unhit: set<nat>, start: nat, a: nat, b: nat)
    requires ValidAllowed(hits, allowed) && start <= |allowed|
    requires IsWidest(hits, allowed, unhit, start, a) && IsWidest(hits, allowed, unhit, start, b)
    ensures a == b
  {
  }

  /** The two tests that close a node with something left to cover: no control covers any of it,
      or the bound reaches the incumbent. No cover below a closed node beats the incumbent. */
  method Pruned(hits: Hits, allowed: seq<nat>, unhit: set<nat>, start: nat, chosen: nat, best: Option<nat>)
    returns (stop: bool)
    requires ValidAllowed(hits, allowed) && start <= |allowed| && unhit != {}
    ensures stop ==> Better(best, Plus(chosen, MinCover(hits, allowed, unhit, start))) == best
    ensures stop <==> ClosesNode(hits, allowed, unhit, start, chosen, best)
  {
    var widest := Widest(hits, allowed, unhit, start);
    forall width | IsWidest(hits, allowed, unhit, start, width) ensures width == widest {
      WidestIsUnique(hits, allowed, unhit, start, width, widest);
    }
    WidthBound(hits, allowed, unhit, start, widest);
    ghost var optimum := MinCover(hits, allowed, unhit, start);
    if widest == 0 {
      assert optimum.None?;
      return true;
    }
    var bound := chosen + CeilDiv(|unhit|, widest);
    if optimum.Some? {
      CeilIsLeast(|unhit|, widest, optimum.value);
    }
    return best.Some? && bound >= best.value;
  }

  /** The nodes of the enumeration tree at and below a node. */
  ghost function SearchNodes(hits: Hits, allowed: seq<nat>, unhit: set<nat>, start: nat, chosen: nat,
                             best: Option<nat>): nat
    requires ValidAllowed(hits, allowed) && start <= |allowed|
    decreases |allowed| - start, 1
  {
    if unhit == {} || ClosesNode(hits, allowed, unhit, start, chosen, best) then 1
    else 1 + BranchNodes(hits, allowed, unhit, start, chosen, best)
  }

  /** The nodes below a node's controls from `index` on, each branch starting from the best known. */
  ghost function BranchNodes(hits: Hits, allowed: seq<nat>, unhit: set<nat>, index: nat, chosen: nat,
                             best: Option<nat>): nat
    requires ValidAllowed(hits, allowed) && index <= |allowed|
    decreases |allowed| - index, 0
  {
    if index == |allowed| then 0
    else
      BranchCost(hits, allowed, unhit, index, chosen, best)
      + BranchNodes(hits, allowed, unhit, index + 1, chosen, BranchBest(hits, allowed, unhit, index, chosen, best))
  }

  ghost function BranchCost(hits: Hits, allowed: seq<nat>, unhit: set<nat>, index: nat, chosen: nat,
                            best: Option<nat>): nat
    requires ValidAllowed(hits, allowed) && index < |allowed|
    decreases |allowed| - index - 1, 2
  {
    if unhit * hits[allowed[index]] == {} then 0
    else SearchNodes(hits, allowed, unhit - hits[allowed[index]], index + 1, chosen + 1, best)
  }

  /** The best known once the control at `index` has been tried. */
  ghost function BranchBest(hits: Hits, allowed: seq<nat>, unhit: set<nat>, index: nat, chosen: nat,
                            best: Option<nat>): Option<nat>
    requires ValidAllowed(hits, allowed) && index < |allowed|
  {
    if unhit * hits[allowed[index]] == {} then best
    else Better(best, Plus(chosen + 1, MinCover(hits, allowed, unhit - hits[allowed[index]], index + 1)))
  }

  /** The whole tree has at most one node for every set of the controls left. */
  lemma {:induction false} SearchNodesBound(hits: Hits, allowed: seq<nat>, unhit: set<nat>, start: nat, chosen: nat,
                                            best: Option<nat>)
    requires ValidAllowed(hits, allowed) && start <= |allowed|
    ensures 1 <= SearchNodes(hits, allowed, unhit, start, chosen, best) <= Pow2(|allowed| - start)
    decreases |allowed| - start, 1
  {
    BranchNodesBound(hits, allowed, unhit, start, chosen, best);
  }

  lemma {:induction false} BranchNodesBound(hits: Hits, allowed: seq<nat>, unhit: set<nat>, index: nat, chosen: nat,
                                            best: Option<nat>)
    requires ValidAllowed(hits, allowed) && index <= |allowed|
    ensures 1 + BranchNodes(hits, allowed, unhit, index, chosen, best) <= Pow2(|allowed| - index)
    decreases |allowed| - index, 0
  {
    if index < |allowed| {
      BranchNodesBound(hits, allowed, unhit, index + 1, chosen, BranchBest(hits, allowed, unhit, index, chosen, best));
      SearchNodesBound(hits, allowed, unhit - hits[allowed[index]], index + 1, chosen + 1, best);
    }
  }

  /** Ordered subset enumeration with the cardinality bound. A finished search returns the
      better of the incumbent and the true optimum, after exactly the nodes of its tree. */
  method BranchAndBound(hits: Hits, allowed: seq<nat>, unhit: set<nat>, start: nat, chosen: nat, best: Option<nat>,
                        box: NodeBox)
    returns (r: Search<Option<nat>>)
    requires ValidAllowed(hits, allowed) && start <= |allowed|
    modifies box
    ensures Spent(box.limit, old(box.used), box.used, r.Found?, SearchNodes(hits, allowed, unhit, start, chosen, best))
    ensures r.Found? ==> r.result == Better(best, Plus(chosen, MinCover(hits, allowed, unhit, start)))
    decreases |allowed| - start, 1
  {
    var ok := box.Spend();
    if !ok {
      return BudgetHit;
    }
    if unhit == {} {
      NothingToCover(hits, allowed, start);
      return Found(if best.None? || chosen < best.value then Some(chosen) else best);
    }
    var stop := Pruned(hits, allowed, unhit, start, chosen, best);
    if stop {
      return Found(best);
    }
    ghost var optimum := MinCover(hits, allowed, unhit, start);
    ghost var cost := BranchNodes(hits, allowed, unhit, start, chosen, best);
    var incumbent := best;
    for index := start to |allowed|
      invariant box.used <= box.limit
      invariant box.used + BranchNodes(hits, allowed, unhit, index, chosen, incumbent) == old(box.used) + 1 + cost
      invariant Better(incumbent, Plus(chosen, MinCover(hits, allowed, unhit, index)))
             == Better(best, Plus(chosen, optimum))
    {
      var below := Branch(hits, allowed, unhit, index, chosen, incumbent, box);
      if below.BudgetHit? {
        return BudgetHit;
      }
      incumbent := below.result;
    }
    return Found(incumbent);
  }

  /** One control of a node: skipped when it covers nothing, else taken. */
  method Branch(hits: Hits, allowed: seq<nat>, unhit: set<nat>, index: nat, chosen: nat, incumbent: Option<nat>,
                box: NodeBox)
    returns (r: Search<Option<nat>>)
    requires ValidAllowed(hits, allowed) && index < |allowed| && unhit != {}
    modifies box
    ensures Spent(box.limit, old(box.used), box.used, r.Found?,
                  BranchCost(hits, allowed, unhit, index, chosen, incumbent))
    ensures r.Found? ==> r.result == BranchBest(hits, allowed, unhit, index, chosen, incumbent)
    ensures r.Found? ==> (Better(r.result, Plus(chosen, MinCover(hits, allowed, unhit, index + 1)))
                          == Better(incumbent, Plus(chosen, MinCover(hits, allowed, unhit, index))))
    decreases |allowed| - index, 0
  {
    var covered := unhit * hits[allowed[index]];
    if covered == {} {
      UselessControl(hits, allowed, unhit, index);
      return Found(incumbent);
    }
    assert unhit - covered == unhit - hits[allowed[index]];
    TakeOrSkip(incumbent, chosen, MinCover(hits, allowed, unhit, index + 1),
               MinCover(hits, allowed, unhit - hits[allowed[index]], index + 1));
    r := BranchAndBound(hits, allowed, unhit - covered, index + 1, chosen + 1, incumbent, box);
  }

  /** The nodes spent on whether at most `cap` of the remaining controls cover `unhit`. */
  ghost function ExtendNodes(hits: Hits, allowed: seq<nat>, unhit: set<nat>, start: nat, cap: int): nat
    requires ValidAllowed(hits, allowed) && start <= |allowed|
  {
    if cap < 0 then 0 else SearchNodes(hits, allowed, unhit, start, 0, Some(cap + 1))
  }

  /** Whether at most `cap` of the remaining controls cover `unhit`. */
  method Extendable(hits: Hits, allowed: seq<nat>, unhit: set<nat>, start: nat, cap: int, box: NodeBox)
    returns (r: Search<bool>)
    requires ValidAllowed(hits, allowed) && start <= |allowed|
    modifies box
    ensures Spent(box.limit, old(box.used), box.used, r.Found?, ExtendNodes(hits, allowed, unhit, start, cap))
    ensures r.Found? && cap >= 0 ==>
              (r.result <==> AtMost(MinCover(hits, allowed, unhit, start), cap))
    ensures r.Found? && cap < 0 ==> (r.result <==> unhit == {})
  {
    if cap < 0 {
      return Found(unhit == {});
    }
    var found := BranchAndBound(hits, allowed, unhit, start, 0, Some(cap + 1), box);
    if found.BudgetHit? {
      return BudgetHit;
    }
    return Found(found.result.Some? && found.result.value <= cap);
  }

  // ---------------------------------------------------------------------------
  // Minimum cardinality
  // ---------------------------------------------------------------------------

  datatype Status = Exact | Infeasible | BudgetExhausted

  datatype MinCardinality = MinCardinality(value: Option<nat>, status: Status, nodes: nat)

  function Range(n: nat): (s: set<nat>)
    ensures forall i :: i in s <==> 0 <= i < n
    ensures |s| == n
  {
    if n == 0 then {} else Range(n - 1) + {n - 1}
  }

  /** `k` controls drawn from `allowed` hit every clause, and fewer never do. */
  ghost predicate IsOptimum(hits: Hits, allowed: set<nat>, clauses: nat, k: nat) {
    Attained(hits, allowed, clauses, k) && LeastCover(hits, allowed, clauses, k)
  }

  ghost predicate Attained(hits: Hits, allowed: set<nat>, clauses: nat, k: nat) {
    exists controls :: controls <= allowed && |controls| == k && Covers(hits, controls, Range(clauses))
  }

  ghost predicate LeastCover(hits: Hits, allowed: set<nat>, clauses: nat, k: nat) {
    forall controls :: controls <= allowed && Covers(hits, controls, Range(clauses)) ==> k <= |controls|
  }

  /** Some set of exactly `k` controls hits every clause. */
  ghost predicate Coverable(hits: Hits, clauses: nat, k: nat) {
    exists controls :: controls <= Range(|hits|) && |controls| == k && Covers(hits, controls, Range(clauses))
  }

  ghost predicate IsInfeasible(hits: Hits, allowed: set<nat>, clauses: nat) {
    forall controls :: controls <= allowed ==> !Covers(hits, controls, Range(clauses))
  }

  /** Controls that are not excluded, in canonical order. */
  function Permitted(n: nat, excluded: set<nat>): (allowed: seq<nat>)
    ensures |allowed| <= n
    ensures forall c: nat :: c in allowed <==> c < n && c !in excluded
    ensures forall i, j :: 0 <= i < j < |allowed| ==> allowed[i] < allowed[j]
  {
    if n == 0 then []
    else
      var front := Permitted(n - 1, excluded);
      assert forall k :: 0 <= k < |front| ==> front[k] in front;
      if n - 1 in excluded then front else front + [n - 1]
  }

  lemma {:induction false} MinCoverMeaning(hits: Hits, excluded: set<nat>, clauses: nat)
    requires ValidAllowed(hits, Permitted(|hits|, excluded))
    ensures var best := MinCover(hits, Permitted(|hits|, excluded), Range(clauses), 0);
            if best.Some? then IsOptimum(hits, Range(|hits|) - excluded, clauses, best.value)
            else IsInfeasible(hits, Range(|hits|) - excluded, clauses)
  {
    var allowed := Permitted(|hits|, excluded);
    var best := MinCover(hits, allowed, Range(clauses), 0);
    forall controls | controls <= Range(|hits|) - excluded && Covers(hits, controls, Range(clauses))
      ensures best.Some? && best.value <= |controls|
    {
      forall c | c in controls ensures c in allowed {
        assert c in Range(|hits|) - excluded;
      }
      assert controls <= Remaining(allowed, 0);
      MinCoverIsLowerBound(hits, allowed, Range(clauses), 0, controls);
    }
    if best.Some? {
      var controls := MinCoverIsAttained(hits, allowed, Range(clauses), 0);
      assert controls <= Range(|hits|) - excluded;
    }
  }

  lemma {:induction false} PermittedIsValid(hits: Hits, excluded: set<nat>)
    ensures ValidAllowed(hits, Permitted(|hits|, excluded))
  {
    var allowed := Permitted(|hits|, excluded);
    forall i | 0 <= i < |allowed| ensures allowed[i] < |hits| {
      assert allowed[i] in allowed;
    }
  }

  /** The nodes of a minimum-cardinality solve. */
  ghost function SolveNodes(hits: Hits, clauses: nat, excluded: set<nat>): (nodes: nat)
    ensures 1 <= nodes <= Pow2(|hits|)
  {
    PermittedIsValid(hits, excluded);
    var allowed := Permitted(|hits|, excluded);
    SearchNodesBound(hits, allowed, Range(clauses), 0, 0, None);
    Pow2Monotone(|allowed|, |hits|);
    SearchNodes(hits, allowed, Range(clauses), 0, 0, None)
  }

  /** A budget below zero affords what one of zero does. */
  function Affordable(budget: int): nat {
    if budget < 0 then 0 else budget
  }

  /** How many nodes a solve reports: all of them, or one beyond the budget it ran out of. */
  function Reported(budget: int, cost: nat): nat {
    if cost <= budget then cost else if budget <= 0 then 0 else budget + 1
  }

  /** The fewest raised controls hitting every clause, or that the budget is less than the solve's
      nodes. */
  method MinimumCardinality(hits: Hits, clauses: nat, budget: int, excluded: set<nat>) returns (r: MinCardinality)
    ensures r.value.Some? <==> r.status.Exact?
    ensures r.status.Exact? ==> IsOptimum(hits, Range(|hits|) - excluded, clauses, r.value.value)
    ensures r.status.Infeasible? ==> IsInfeasible(hits, Range(|hits|) - excluded, clauses)
    ensures r.status.BudgetExhausted? <==> budget < SolveNodes(hits, clauses, excluded)
    ensures r.nodes == Reported(budget, SolveNodes(hits, clauses, excluded))
  {
    if budget <= 0 {
      return MinCardinality(None, BudgetExhausted, 0);
    }
    var allowed := Permitted(|hits|, excluded);
    PermittedIsValid(hits, excluded);
    var box := new NodeBox(budget);
    var best := BranchAndBound(hits, allowed, Range(clauses), 0, 0, None, box);
    if best.BudgetHit? {
      return MinCardinality(None, BudgetExhausted, box.used);
    }
    MinCoverMeaning(hits, excluded, clauses);
    if best.result.None? {
      return MinCardinality(None, Infeasible, box.used);
    }
    return MinCardinality(best.result, Exact, box.used);
  }
}
