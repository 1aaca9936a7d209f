/** The corridor search has one answer (cut.py, `enumerate_psi`): whatever keeps its promises for a program,
    a table, a budget and a cap is the same result, field by field.
 */
module Determined {
  import opened Wrappers
  import opened Reachability
  import opened HittingSets
  import opened Selection
  import opened AtomTables
  import opened Corridors

  lemma LeastMeetingIsOne(t: Table, clauses: seq<Clause>, v: Levels, w: Levels)
    requires LeastMeeting(t, clauses, v) && LeastMeeting(t, clauses, w)
    ensures v == w
  {
    PrecedesAntisymmetric(v, w);
  }

  /** What was learned so far teaches at most one next clause. */
  lemma {:induction false} NextIsDetermined(p: Program, t: Table, held: seq<Clause>, a: Clause, b: Clause)
    requires TaughtAfter(p, t, held, a) && TaughtAfter(p, t, held, b)
    ensures a == b
  {
    var v, x :| TaughtBy(p, t, held, a, v, x);
    var w, y :| TaughtBy(p, t, held, b, w, y);
    LeastMeetingIsOne(t, held, v, w);
    LeavesOne(p, CutMask(t, w), x, y);
  }

  lemma {:induction false} ClausesAgree(p: Program, t: Table, a: seq<Clause>, b: seq<Clause>, n: nat)
    requires Taught(p, t, a) && Taught(p, t, b) && n <= |a| && n <= |b|
    ensures a[..n] == b[..n]
  {
    if n > 0 {
      ClausesAgree(p, t, a, b, n - 1);
      NextAgrees(p, t, a, b, n - 1, a[..n - 1]);
      OneMoreAgrees(a, b, n - 1);
    }
  }

  lemma NextAgrees(p: Program, t: Table, a: seq<Clause>, b: seq<Clause>, k: nat, held: seq<Clause>)
    requires Taught(p, t, a) && Taught(p, t, b) && k < |a| && k < |b| && held == a[..k] && held == b[..k]
    ensures a[k] == b[k]
  {
    assert TaughtAt(p, t, a, k) && TaughtAt(p, t, b, k);
    NextIsDetermined(p, t, held, a[k], b[k]);
  }

  /** A database that the search can have reached. */
  ghost predicate Reached(p: Program, t: Table, budget: int, cap: int, clauses: seq<Clause>)
    requires WellFormedTable(t)
  {
    && Taught(p, t, clauses) && TotalNodes(t, clauses, |clauses|) <= Affordable(budget)
    && (AtCap(cap, clauses) || clauses == [] || |clauses| < cap)
  }

  /** A database at which it stops: the cap is reached, the next round is not afforded, or its cut
      teaches nothing. */
  ghost predicate Stops(p: Program, t: Table, budget: int, cap: int, clauses: seq<Clause>)
    requires WellFormedTable(t)
  {
    || AtCap(cap, clauses)
    || budget < TotalNodes(t, clauses, |clauses|) + RoundNodes(t, clauses)
    || forall clause :: !TaughtAfter(p, t, clauses, clause)
  }

  lemma {:induction false} TotalNodesMonotone(t: Table, clauses: seq<Clause>, n: nat, m: nat)
    requires WellFormedTable(t) && n <= m <= |clauses|
    ensures TotalNodes(t, clauses, n) <= TotalNodes(t, clauses, m)
    decreases m
  {
    if n < m {
      TotalNodesMonotone(t, clauses, n, m - 1);
    }
  }

  lemma {:induction false} TotalNodesAgree(t: Table, a: seq<Clause>, b: seq<Clause>, n: nat)
    requires WellFormedTable(t) && n <= |a| && n <= |b| && a[..n] == b[..n]
    ensures TotalNodes(t, a, n) == TotalNodes(t, b, n)
  {
    if n > 0 {
      assert a[..n - 1] == a[..n][..n - 1] && b[..n - 1] == b[..n][..n - 1];
      TotalNodesAgree(t, a, b, n - 1);
    }
  }

  /** A longer database afforded the round that follows a shorter one. */
  lemma {:induction false} LongerAfforded(t: Table, budget: int, a: seq<Clause>, b: seq<Clause>)
    requires WellFormedTable(t) && |a| < |b| && a == b[..|a|] && TotalNodes(t, b, |b|) <= Affordable(budget)
    ensures budget >= TotalNodes(t, a, |a|) + RoundNodes(t, a)
  {
    var n := |a|;
    assert a[..n] == a;
    TotalNodesAgree(t, a, b, n);
    TotalNodesMonotone(t, b, n + 1, |b|);
  }

  lemma {:induction false} NothingBeyond(p: Program, t: Table, budget: int, cap: int, a: seq<Clause>, b: seq<Clause>)
    requires WellFormedTable(t) && Stops(p, t, budget, cap, a) && Reached(p, t, budget, cap, b)
    requires |a| <= |b| && a == b[..|a|]
    ensures a == b
  {
    if |a| < |b| {
      assert TaughtAt(p, t, b, |a|);
      LongerAfforded(t, budget, a, b);
    } else {
      assert b[..|b|] == b;
    }
  }

  /** There is one database at which the search can stop. */
  lemma {:induction false} StopIsDetermined(p: Program, t: Table, budget: int, cap: int, a: seq<Clause>, b: seq<Clause>)
    requires WellFormedTable(t) && Reached(p, t, budget, cap, a) && Reached(p, t, budget, cap, b)
    requires Stops(p, t, budget, cap, a) && Stops(p, t, budget, cap, b)
    ensures a == b
  {
    if |a| <= |b| {
      ClausesAgree(p, t, a, b, |a|);
      assert a[..|a|] == a;
      NothingBeyond(p, t, budget, cap, a, b);
    } else {
      ClausesAgree(p, t, a, b, |b|);
      assert b[..|b|] == b;
      NothingBeyond(p, t, budget, cap, b, a);
    }
  }

  /** The cut that taught a clause does not sever. */
  lemma TeachingCutFails(p: Program, t: Table, held: seq<Clause>, clause: Clause, w: Levels, tree: Tree)
    requires TaughtBy(p, t, held, clause, w, tree)
    ensures !Severs(p, CutMask(t, w))
  {
    assert Derives(p, CutMask(t, w), tree.head, tree);
    assert Derivable(p, CutMask(t, w), tree.head);
  }

  /** A complete search stopped because its cut teaches nothing. */
  lemma {:induction false} CompleteTeachesNothing(p: Program, t: Table, r: CutSearch, clause: Clause)
    requires r.Search? && Sound(p, t, r) && r.complete
    ensures !TaughtAfter(p, t, r.clauses, clause)
  {
    if TaughtAfter(p, t, r.clauses, clause) {
      var w, tree :| TaughtBy(p, t, r.clauses, clause, w, tree);
      LeastMeetingIsOne(t, r.clauses, w, r.levels);
      TeachingCutFails(p, t, r.clauses, clause, w, tree);
      if !r.severs {
        LeavesOne(p, r.cut.mask, tree, r.tree.value);
      }
    }
  }

  lemma {:induction false} SearchStops(p: Program, t: Table, budget: int, cap: int, r: CutSearch)
    requires WellFormedTable(t) && r.Search? && Promised(p, t, budget, cap, r)
    ensures Reached(p, t, budget, cap, r.clauses) && Stops(p, t, budget, cap, r.clauses)
  {
    if r.complete {
      forall clause ensures !TaughtAfter(p, t, r.clauses, clause) {
        CompleteTeachesNothing(p, t, r, clause);
      }
    }
  }

  lemma BarrenTeachesNothing(p: Program, t: Table, clauses: seq<Clause>, clause: Clause)
    requires Barren(p, t, clauses)
    ensures !TaughtAfter(p, t, clauses, clause)
  {
    forall w, tree ensures !TaughtBy(p, t, clauses, clause, w, tree) {
    }
  }

  lemma {:induction false} StuckStops(p: Program, t: Table, budget: int, cap: int, clauses: seq<Clause>, r: CutSearch)
    requires WellFormedTable(t) && Stuck(p, t, budget, cap, clauses, r)
    ensures Reached(p, t, budget, cap, clauses) && Stops(p, t, budget, cap, clauses)
  {
    forall clause ensures !TaughtAfter(p, t, clauses, clause) {
      BarrenTeachesNothing(p, t, clauses, clause);
    }
  }

  /** The literals of a cut, in rank order, are determined by which they are. */
  lemma {:induction false} SameAtoms(t: Table, a: seq<Literal>, b: seq<Literal>)
    requires WellFormedTable(t) && forall x :: x in a <==> x in b
    requires forall x :: x in a ==> x in t
    requires RanksAscend(a) && RanksAscend(b)
    ensures a == b
    decreases |a|
  {
    SomeMember(a);
    SomeMember(b);
    if a != [] {
      var last, end := |a| - 1, |b| - 1;
      LastIsGreatest(a, b[end]);
      LastIsGreatest(b, a[last]);
      SameFront(a, b, a[..last], b[..end]);
      SameAtoms(t, a[..last], b[..end]);
      assert a == a[..last] + [a[last]] && b == b[..end] + [b[end]];
    }
  }

  ghost predicate RanksAscend(s: seq<Literal>) {
    forall i, j :: 0 <= i < j < |s| ==> s[i].rank < s[j].rank
  }

  lemma SameFront(a: seq<Literal>, b: seq<Literal>, front: seq<Literal>, before: seq<Literal>)
    requires a != [] && b != [] && a[|a| - 1] == b[|b| - 1] && RanksAscend(a) && RanksAscend(b)
    requires front == a[..|a| - 1] && before == b[..|b| - 1] && forall x :: x in a <==> x in b
    ensures forall x :: x in front <==> x in before
    ensures RanksAscend(front) && RanksAscend(before) && forall x :: x in front ==> x in a
  {
    forall x ensures x in front <==> x in before {
      AllButLast(a, x);
      AllButLast(b, x);
    }
  }

  lemma SomeMember(s: seq<Literal>)
    ensures s == [] || exists x :: x in s
  {
    if s != [] {
      assert s[0] in s;
    }
  }

  lemma LastIsGreatest(s: seq<Literal>, x: Literal)
    requires s != [] && x in s && RanksAscend(s)
    ensures x.rank <= s[|s| - 1].rank && (x.rank == s[|s| - 1].rank ==> x == s[|s| - 1])
  {
    var i :| 0 <= i < |s| && s[i] == x;
  }

  lemma AllButLast(a: seq<Literal>, x: Literal)
    requires a != [] && RanksAscend(a)
    ensures x in a[..|a| - 1] <==> x in a && x != a[|a| - 1]
  {
    var last := |a| - 1;
    assert a == a[..last] + [a[last]];
    if x in a[..last] {
      var i :| 0 <= i < last && a[i] == x;
      assert a[i].rank < a[last].rank;
    }
  }

  lemma SameLevels(p: Program, t: Table, a: CutSearch, b: CutSearch)
    requires WellFormedTable(t) && a.Search? && b.Search? && Sound(p, t, a) && Sound(p, t, b)
    requires a.clauses == b.clauses && a.complete == b.complete
    ensures a.levels == b.levels
  {
    if a.complete {
      LeastMeetingIsOne(t, a.clauses, a.levels, b.levels);
    } else {
      FallbackIsDetermined(t, a.clauses, a.levels, b.levels);
    }
  }

  lemma SameCut(t: Table, w: Levels, a: Cut, b: Cut)
    requires WellFormedTable(t) && Renders(t, w, a) && Renders(t, w, b) && a.minimality == b.minimality
    ensures a == b
  {
    SameAtoms(t, a.atoms, b.atoms);
  }

  lemma SameTree(p: Program, t: Table, a: CutSearch, b: CutSearch)
    requires a.Search? && b.Search? && Sound(p, t, a) && Sound(p, t, b) && a.cut.mask == b.cut.mask
    ensures a.severs == b.severs && a.tree == b.tree
  {
    if a.tree.Some? {
      LeavesOne(p, a.cut.mask, a.tree.value, b.tree.value);
    }
  }

  /** How a search ended: what its counters and flags are. */
  lemma SameEnd(t: Table, budget: int, cap: int, a: CutSearch, b: CutSearch)
    requires WellFormedTable(t) && a.Search? && b.Search? && a.clauses == b.clauses
    requires Metered(t, budget, a) && Metered(t, budget, b) && Counted(cap, a) && Counted(cap, b)
    ensures a.capHit == b.capHit && a.budgetExhausted == b.budgetExhausted && a.nodes == b.nodes
  {
  }

  lemma {:induction false} SameSearch(p: Program, t: Table, budget: int, cap: int, a: CutSearch, b: CutSearch)
    requires WellFormedTable(t) && a.Search? && b.Search? && a.clauses == b.clauses
    requires Promised(p, t, budget, cap, a) && Promised(p, t, budget, cap, b)
    ensures a == b
  {
    SameEnd(t, budget, cap, a, b);
    SameLevels(p, t, a, b);
    assert Renders(t, a.levels, a.cut) && Renders(t, b.levels, b.cut);
    SameTree(p, t, a, b);
    SameCut(t, a.levels, a.cut, b.cut);
  }

  /** A search that ended in a cut ended over clauses that some cut meets. */
  lemma SearchIsNotStuck(p: Program, t: Table, budget: int, cap: int, r: CutSearch, clauses: seq<Clause>, e: CutSearch)
    requires WellFormedTable(t) && r.Search? && Sound(p, t, r) && Stuck(p, t, budget, cap, clauses, e)
    ensures r.clauses != clauses
  {
    assert Admissible(t, r.levels) && MeetsAll(r.clauses, CutRanks(t, r.levels));
  }

  lemma {:induction false} ErrorsAgree(p: Program, t: Table, budget: int, cap: int, a: CutSearch, b: CutSearch)
    requires WellFormedTable(t) && Hopeless(p, t, budget, cap, a) && Hopeless(p, t, budget, cap, b)
    ensures a == b
  {
    var x :| Stuck(p, t, budget, cap, x, a);
    var y :| Stuck(p, t, budget, cap, y, b);
    StuckStops(p, t, budget, cap, x, a);
    StuckStops(p, t, budget, cap, y, b);
    StopIsDetermined(p, t, budget, cap, x, y);
  }

  lemma {:induction false} NeverBoth(p: Program, t: Table, budget: int, cap: int, r: CutSearch, e: CutSearch)
    requires WellFormedTable(t) && r.Search? && Promised(p, t, budget, cap, r)
    ensures !Hopeless(p, t, budget, cap, e)
  {
    if Hopeless(p, t, budget, cap, e) {
      var clauses :| Stuck(p, t, budget, cap, clauses, e);
      SearchIsNotStuck(p, t, budget, cap, r, clauses, e);
      SearchStops(p, t, budget, cap, r);
      StuckStops(p, t, budget, cap, clauses, e);
      StopIsDetermined(p, t, budget, cap, r.clauses, clauses);
    }
  }

  /** The search has one answer: its cut, levels, clauses in order, witness, counters and flags, or its
      error, are determined by the program, the table, the budget and the cap. */
  lemma {:induction false} SearchIsDetermined(p: Program, t: Table, budget: int, cap: int, a: CutSearch, b: CutSearch)
    requires WellFormedTable(t) && Promised(p, t, budget, cap, a) && Promised(p, t, budget, cap, b)
    ensures a == b
  {
    if a.Search? && b.Search? {
      SearchStops(p, t, budget, cap, a);
      SearchStops(p, t, budget, cap, b);
      StopIsDetermined(p, t, budget, cap, a.clauses, b.clauses);
      SameSearch(p, t, budget, cap, a, b);
    } else if a.Search? {
      NeverBoth(p, t, budget, cap, a, b);
    } else if b.Search? {
      NeverBoth(p, t, budget, cap, b, a);
    } else {
      ErrorsAgree(p, t, budget, cap, a, b);
    }
  }
}
