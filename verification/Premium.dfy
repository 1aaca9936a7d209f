/** Necessary and occurring controls and the blindness premium (premium.py). */
module Premium {
  import opened Arithmetic
  import opened Wrappers
  import opened Reachability
  import opened HittingSets
  import opened Selection
  import opened AtomTables
  import opened Corridors
  import opened Bills

  // ---------------------------------------------------------------------------
  // Minimum-cardinality cuts of a clause database
  // ---------------------------------------------------------------------------

  ghost predicate Meets(t: Table, clauses: seq<Clause>, w: Levels) {
    Admissible(t, w) && MeetsAll(clauses, CutRanks(t, w))
  }

  /** A level vector that meets every clause with as few raised controls as any. */
  ghost predicate MinimumCut(t: Table, clauses: seq<Clause>, w: Levels) {
    Meets(t, clauses, w) && forall v :: Meets(t, clauses, v) ==> |Raised(w)| <= |Raised(v)|
  }

  /** The vector raises none of the excluded controls. */
  ghost predicate Avoids(w: Levels, excluded: set<nat>) {
    forall c :: c in excluded && c < |w| ==> w[c] == 0
  }

  /** `k` is the fewest raised controls of a meeting vector that avoids the excluded ones. */
  ghost predicate LeastAvoiding(t: Table, clauses: seq<Clause>, excluded: set<nat>, k: nat) {
    && (exists w :: Meets(t, clauses, w) && Avoids(w, excluded) && |Raised(w)| == k)
    && forall w :: Meets(t, clauses, w) && Avoids(w, excluded) ==> k <= |Raised(w)|
  }

  ghost predicate NoneAvoiding(t: Table, clauses: seq<Clause>, excluded: set<nat>) {
    forall w :: Meets(t, clauses, w) ==> !Avoids(w, excluded)
  }

  lemma {:induction false} MeetingAvoids(q: Problem, clauses: seq<Clause>, t: Table, excluded: set<nat>, w: Levels)
    requires WellFormedTable(t) && ProblemOf(q, clauses, t) && ValidProblem(q)
    requires Meets(t, clauses, w) && Avoids(w, excluded)
    ensures Elements(Raised(w)) <= Range(|q.perLevel|) - excluded
    ensures Covers(AtMax(q), Elements(Raised(w)), Range(q.clauses))
    ensures |Elements(Raised(w))| == |Raised(w)|
  {
    HittingIsMeeting(q, clauses, t, w);
    LevelsHitAtMax(q, w);
    forall c | c in Elements(Raised(w)) ensures c !in excluded {
      assert c in Raised(w);
    }
  }

  lemma CoverAvoids(q: Problem, clauses: seq<Clause>, t: Table, excluded: set<nat>, controls: set<nat>)
    returns (w: Levels)
    requires WellFormedTable(t) && ProblemOf(q, clauses, t) && ValidProblem(q)
    requires controls <= Range(|q.perLevel|) - excluded && Covers(AtMax(q), controls, Range(q.clauses))
    ensures Meets(t, clauses, w) && Avoids(w, excluded) && |Raised(w)| == |controls|
  {
    w := SetHasLevels(q, controls);
    HittingIsMeeting(q, clauses, t, w);
    assert forall c :: c in excluded ==> c !in Elements(Raised(w));
    assert forall c :: c in Elements(Raised(w)) <==> c in Raised(w);
  }

  /** `min_cardinality` with controls excluded, in terms of level vectors. */
  method SolveWithout(clauses: seq<Clause>, t: Table, budget: int, excluded: set<nat>) returns (r: MinCardinality)
    requires WellFormedTable(t)
    ensures r.status.Exact? ==> r.value.Some? && LeastAvoiding(t, clauses, excluded, r.value.value)
    ensures r.status.Infeasible? ==> NoneAvoiding(t, clauses, excluded)
    ensures r.status.BudgetExhausted? <==> budget < MinNodes(t, clauses, excluded)
    ensures r.nodes == Reported(budget, MinNodes(t, clauses, excluded))
  {
    var q := ControlHits(clauses, t);
    assert SolveTakes(t, clauses, excluded, MinNodes(t, clauses, excluded));
    r := MinimumCardinality(AtMax(q), |clauses|, budget, excluded);
    SolveMeaning(q, clauses, t, excluded, r);
  }

  lemma SolveMeaning(q: Problem, clauses: seq<Clause>, t: Table, excluded: set<nat>, r: MinCardinality)
    requires WellFormedTable(t) && ProblemOf(q, clauses, t) && ValidProblem(q)
    requires r.value.Some? <==> r.status.Exact?
    requires r.status.Exact? ==> IsOptimum(AtMax(q), Range(|q.perLevel|) - excluded, q.clauses, r.value.value)
    requires r.status.Infeasible? ==> IsInfeasible(AtMax(q), Range(|q.perLevel|) - excluded, q.clauses)
    ensures r.status.Exact? ==> LeastAvoiding(t, clauses, excluded, r.value.value)
    ensures r.status.Infeasible? ==> NoneAvoiding(t, clauses, excluded)
  {
    forall w | Meets(t, clauses, w) && Avoids(w, excluded)
      ensures !r.status.Infeasible?
      ensures r.status.Exact? ==> r.value.value <= |Raised(w)|
    {
      MeetingAvoids(q, clauses, t, excluded, w);
    }
    if r.status.Exact? {
      var controls :| controls <= Range(|q.perLevel|) - excluded && |controls| == r.value.value
                      && Covers(AtMax(q), controls, Range(q.clauses));
      var w := CoverAvoids(q, clauses, t, excluded, controls);
    }
  }

  // ---------------------------------------------------------------------------
  // NEC
  // ---------------------------------------------------------------------------

  /** The outcomes of a premium solve: control positions in canonical order, or why not. */
  datatype Solves =
    | Solved(controls: seq<nat>, nodes: nat, solves: nat)
    | Exhausted(nodes: nat, solves: nat)
    | Unsatisfiable

  /** The control is raised in every minimum-cardinality cut. */
  ghost predicate InEvery(t: Table, clauses: seq<Clause>, k: nat) {
    forall w :: MinimumCut(t, clauses, w) && k < |w| ==> w[k] >= 1
  }

  /** The control is raised in some minimum-cardinality cut. */
  ghost predicate InSome(t: Table, clauses: seq<Clause>, k: nat) {
    exists w :: MinimumCut(t, clauses, w) && k < |w| && w[k] >= 1
  }

  /** Without the control the optimum grows, or there is none: then and only then the control
      is in every minimum. */
  lemma {:induction false} NecessaryIsInEvery(t: Table, clauses: seq<Clause>, k: nat, base: nat, without: Option<nat>)
    requires k < |ControlsOf(t)| && LeastAvoiding(t, clauses, {}, base)
    requires without.Some? ==> LeastAvoiding(t, clauses, {k}, without.value)
    requires without.None? ==> NoneAvoiding(t, clauses, {k})
    ensures InEvery(t, clauses, k) <==> without.None? || without.value > base
  {
    if without.Some? && without.value <= base {
      var w :| Meets(t, clauses, w) && Avoids(w, {k}) && |Raised(w)| == without.value;
      assert MinimumCut(t, clauses, w) && w[k] == 0;
    } else {
      var b :| Meets(t, clauses, b) && Avoids(b, {}) && |Raised(b)| == base;
      forall w | MinimumCut(t, clauses, w) && k < |w| ensures w[k] >= 1 {
        assert |Raised(w)| <= base;
        assert w[k] == 0 ==> Avoids(w, {k});
      }
    }
  }

  /** The positions below `n` of the controls in every minimum, ascending. */
  ghost predicate NecessaryBelow(t: Table, clauses: seq<Clause>, found: seq<nat>, n: nat) {
    Ascending(found) && forall k: nat :: k in found <==> k < n && InEvery(t, clauses, k)
  }

  /** The positions below `n` of the controls in some minimum, ascending. */
  ghost predicate OccurringBelow(t: Table, clauses: seq<Clause>, found: seq<nat>, n: nat) {
    Ascending(found) && forall k: nat :: k in found <==> k < n && InSome(t, clauses, k)
  }

  lemma AppendPosition(found: seq<nat>, n: nat)
    requires Ascending(found) && forall k: nat :: k in found ==> k < n
    ensures Ascending(found + [n])
    ensures forall k: nat :: k in found + [n] <==> k in found || k == n
  {
    assert forall i :: 0 <= i < |found| ==> found[i] in found;
  }

  lemma NecessaryStep(t: Table, clauses: seq<Clause>, found: seq<nat>, k: nat, yes: bool)
    requires NecessaryBelow(t, clauses, found, k) && (yes <==> InEvery(t, clauses, k))
    ensures NecessaryBelow(t, clauses, if yes then found + [k] else found, k + 1)
  {
    AppendPosition(found, k);
  }

  lemma OccurringStep(t: Table, clauses: seq<Clause>, found: seq<nat>, k: nat, yes: bool)
    requires OccurringBelow(t, clauses, found, k) && (yes <==> InSome(t, clauses, k))
    ensures OccurringBelow(t, clauses, if yes then found + [k] else found, k + 1)
  {
    AppendPosition(found, k);
  }

  /** What one probe of the loop decides: spent budget, or membership. */
  datatype Answer = NoBudget | Member(yes: bool)

  method ProbeNecessary(clauses: seq<Clause>, t: Table, budget: int, base: nat, k: nat) returns (r: Answer, nodes: nat)
    requires WellFormedTable(t) && k < |ControlsOf(t)| && LeastAvoiding(t, clauses, {}, base)
    ensures r.Member? ==> (r.yes <==> InEvery(t, clauses, k))
    ensures r.NoBudget? <==> budget < MinNodes(t, clauses, {k})
    ensures nodes == Reported(budget, MinNodes(t, clauses, {k}))
  {
    var probe := SolveWithout(clauses, t, budget, {k});
    nodes := probe.nodes;
    match probe.status {
      case BudgetExhausted => r := NoBudget;
      case Infeasible =>
        NecessaryIsInEvery(t, clauses, k, base, None);
        r := Member(true);
      case Exact =>
        NecessaryIsInEvery(t, clauses, k, base, probe.value);
        r := Member(probe.value.value > base);
    }
  }

  /** The solves of NEC over the first `n` controls: one with nothing excluded, then one for each. */
  ghost function NecAccount(t: Table, clauses: seq<Clause>, budget: int, n: nat): Account
    requires WellFormedTable(t)
  {
    if n == 0 then Pay(Open, budget, MinNodes(t, clauses, {}))
    else Pay(NecAccount(t, clauses, budget, n - 1), budget, MinNodes(t, clauses, {n - 1}))
  }

  /** The result reports the account: its nodes and solves, and that it stopped if it did. */
  ghost predicate Settles(r: Solves, a: Account) {
    !r.Unsatisfiable? && r.nodes == a.nodes && r.solves == a.solves && (r.Solved? <==> a.going)
  }

  /** The first solve is afforded, and finds that no cut meets the clauses. */
  ghost predicate FoundUnmet(t: Table, clauses: seq<Clause>, budget: int)
    requires WellFormedTable(t)
  {
    MinNodes(t, clauses, {}) <= budget && forall w :: !Meets(t, clauses, w)
  }

  /** The first solve, with nothing excluded. */
  method Baseline(clauses: seq<Clause>, t: Table, budget: int) returns (r: Solves, base: nat)
    requires WellFormedTable(t)
    ensures r.Solved? ==> r.controls == [] && LeastAvoiding(t, clauses, {}, base)
    ensures !r.Unsatisfiable? ==> Settles(r, Pay(Open, budget, MinNodes(t, clauses, {})))
    ensures r.Unsatisfiable? <==> FoundUnmet(t, clauses, budget)
  {
    var baseline := SolveWithout(clauses, t, budget, {});
    base := 0;
    match baseline.status {
      case BudgetExhausted => r := Exhausted(baseline.nodes, 1);
      case Infeasible =>
        NoneAvoidingNothing(t, clauses);
        r := Unsatisfiable;
      case Exact =>
        r, base := Solved([], baseline.nodes, 1), baseline.value.value;
        BaseIsMet(t, clauses, base);
    }
  }

  lemma BaseIsMet(t: Table, clauses: seq<Clause>, base: nat)
    requires LeastAvoiding(t, clauses, {}, base)
    ensures exists w :: Meets(t, clauses, w)
  {
    var w :| Meets(t, clauses, w) && Avoids(w, {}) && |Raised(w)| == base;
  }

  /** NEC: the controls in every minimum-cardinality cut. */
  method NecessaryControls(clauses: seq<Clause>, t: Table, budget: int) returns (r: Solves)
    requires WellFormedTable(t)
    ensures r.Solved? ==> NecessaryBelow(t, clauses, r.controls, |ControlsOf(t)|)
    ensures r.Solved? ==> exists w :: Meets(t, clauses, w)
    ensures r.Unsatisfiable? <==> FoundUnmet(t, clauses, budget)
    ensures !r.Unsatisfiable? ==> Settles(r, NecAccount(t, clauses, budget, |ControlsOf(t)|))
  {
    var base;
    r, base := Baseline(clauses, t, budget);
    if r.Unsatisfiable? {
      return;
    }
    var k := 0;
    while k < |ControlsOf(t)| && r.Solved?
      invariant 0 <= k <= |ControlsOf(t)|
      invariant r.Solved? ==> NecessaryBelow(t, clauses, r.controls, k) && LeastAvoiding(t, clauses, {}, base)
      invariant Settles(r, NecAccount(t, clauses, budget, k))
    {
      r := AddNecessary(clauses, t, budget, base, k, r);
      k := k + 1;
    }
    if r.Exhausted? {
      NecStopped(t, clauses, budget, k, |ControlsOf(t)|);
    } else {
      BaseIsMet(t, clauses, base);
    }
  }

  /** One control probed, and added when every minimum raises it. */
  method AddNecessary(clauses: seq<Clause>, t: Table, budget: int, base: nat, k: nat, before: Solves)
    returns (r: Solves)
    requires WellFormedTable(t) && k < |ControlsOf(t)| && LeastAvoiding(t, clauses, {}, base)
    requires before.Solved? && NecessaryBelow(t, clauses, before.controls, k)
    requires Settles(before, NecAccount(t, clauses, budget, k))
    ensures r.Solved? ==> NecessaryBelow(t, clauses, r.controls, k + 1)
    ensures Settles(r, NecAccount(t, clauses, budget, k + 1))
  {
    var answer, nodes := ProbeNecessary(clauses, t, budget - before.nodes, base, k);
    if answer.NoBudget? {
      return Exhausted(before.nodes + nodes, before.solves + 1);
    }
    NecessaryStep(t, clauses, before.controls, k, answer.yes);
    var found := if answer.yes then before.controls + [k] else before.controls;
    return Solved(found, before.nodes + nodes, before.solves + 1);
  }

  lemma {:induction false} NecStopped(t: Table, clauses: seq<Clause>, budget: int, k: nat, n: nat)
    requires WellFormedTable(t) && k <= n && !NecAccount(t, clauses, budget, k).going
    ensures NecAccount(t, clauses, budget, n) == NecAccount(t, clauses, budget, k)
    decreases n
  {
    if k < n {
      NecStopped(t, clauses, budget, k, n - 1);
    }
  }

  lemma NoneAvoidingNothing(t: Table, clauses: seq<Clause>)
    requires NoneAvoiding(t, clauses, {})
    ensures forall w :: !Meets(t, clauses, w)
  {
    assert forall w :: Avoids(w, {});
  }

  // ---------------------------------------------------------------------------
  // OCC
  // ---------------------------------------------------------------------------

  /** The literals of control position `k` up to `level`. */
  ghost function RanksUpTo(t: Table, k: nat, level: nat): set<nat>
    requires k < |ControlsOf(t)|
  {
    set r | 0 <= r < |t| && t[r].control == ControlsOf(t)[k] && t[r].level <= level
  }

  /** The clauses that miss the given literals. */
  function Unmet(clauses: seq<Clause>, ranks: set<nat>): (kept: seq<Clause>)
    ensures forall c :: c in kept <==> c in clauses && c * ranks == {}
  {
    if clauses == [] then []
    else
      var last := clauses[|clauses| - 1];
      var front := Unmet(clauses[..|clauses| - 1], ranks);
      assert clauses == clauses[..|clauses| - 1] + [last];
      if last * ranks == {} then front + [last] else front
  }

  lemma MeetsAllByMember(clauses: seq<Clause>, ranks: set<nat>)
    ensures MeetsAll(clauses, ranks) <==> forall c :: c in clauses ==> c * ranks != {}
  {
    assert forall i :: 0 <= i < |clauses| ==> clauses[i] in clauses;
  }

  /** Setting one control's level replaces exactly that control's literals. */
  lemma {:induction false} SetLevel(t: Table, w: Levels, k: nat, level: nat)
    requires WellFormedTable(t) && Admissible(t, w) && k < |w| && level <= |LevelsOf(t, ControlsOf(t)[k])|
    ensures Admissible(t, w[k := level])
    ensures CutRanks(t, w[k := level])
         == CutRanks(t, w[k := 0]) + RanksUpTo(t, k, level)
    ensures CutRanks(t, w[k := 0]) <= CutRanks(t, w[k := level])
  {
    var v, zero := w[k := level], w[k := 0];
    var controls := ControlsOf(t);
    ControlsAscend(t);
    forall r: nat | r < |t|
      ensures r in CutRanks(t, v) <==> r in CutRanks(t, zero) || r in RanksUpTo(t, k, level)
    {
      LiteralAt(t, r);
      var c := Position(controls, t[r].control);
      assert c == k <==> t[r].control == controls[k] by {
        PositionOfEntry(controls, k);
      }
      assert LevelFor(controls, v, t[r].control) == v[c] && LevelFor(controls, zero, t[r].control) == zero[c];
    }
  }

  lemma RaisedSet(w: Levels, k: nat, level: nat)
    requires k < |w| && level >= 1
    ensures |Raised(w[k := level])| == |Raised(w[k := 0])| + 1
    ensures w[k] == 0 ==> w[k := 0] == w
    ensures w[k] >= 1 ==> |Raised(w)| == |Raised(w[k := 0])| + 1
  {
    var without := Elements(Raised(w[k := 0]));
    RaisedControls(w[k := 0], without);
    RaisedControls(w[k := level], without + {k});
    if w[k] >= 1 {
      RaisedControls(w, without + {k});
    }
  }

  lemma OwnLevel(t: Table, w: Levels, k: nat)
    requires WellFormedTable(t) && Admissible(t, w) && k < |w|
    ensures Admissible(t, w[k := 0])
    ensures CutRanks(t, w) == CutRanks(t, w[k := 0]) + RanksUpTo(t, k, w[k])
  {
    SetLevel(t, w, k, w[k]);
    SetLevel(t, w, k, 0);
    assert w[k := w[k]] == w;
  }

  /** Clauses that miss one part of a union and meet the union meet the other part. */
  lemma {:induction false} UnmetMeetRest(clauses: seq<Clause>, rest: set<nat>, part: set<nat>)
    requires MeetsAll(clauses, rest + part)
    ensures MeetsAll(Unmet(clauses, part), rest)
  {
    MeetsAllByMember(clauses, rest + part);
    MeetsAllByMember(Unmet(clauses, part), rest);
    forall c | c in Unmet(clauses, part) ensures c * rest != {} {
      var r :| r in c * (rest + part);
      assert r !in c * part;
      assert r in c * rest;
    }
  }

  lemma {:induction false} UnmetMeetAll(clauses: seq<Clause>, rest: set<nat>, part: set<nat>)
    requires MeetsAll(Unmet(clauses, part), rest)
    ensures MeetsAll(clauses, rest + part)
  {
    MeetsAllByMember(clauses, rest + part);
    MeetsAllByMember(Unmet(clauses, part), rest);
    forall c | c in clauses ensures c * (rest + part) != {} {
      if c * part != {} {
        var r :| r in c * part;
        assert r in c * (rest + part);
      } else {
        var r :| r in c * rest;
        assert r in c * (rest + part);
      }
    }
  }

  /** Dropping a raised control leaves a cover of the clauses its level misses. */
  lemma {:induction false} DropMeetsUnmet(t: Table, clauses: seq<Clause>, w: Levels, k: nat)
    requires WellFormedTable(t) && Meets(t, clauses, w) && k < |w|
    ensures Meets(t, Unmet(clauses, RanksUpTo(t, k, w[k])), w[k := 0])
  {
    OwnLevel(t, w, k);
    UnmetMeetRest(clauses, CutRanks(t, w[k := 0]), RanksUpTo(t, k, w[k]));
  }

  /** Raising the control again meets the clauses it was asked for. */
  lemma {:induction false} RaiseMeetsAll(t: Table, clauses: seq<Clause>, v: Levels, k: nat, level: nat)
    requires WellFormedTable(t) && k < |ControlsOf(t)| && level <= |LevelsOf(t, ControlsOf(t)[k])|
    requires Meets(t, Unmet(clauses, RanksUpTo(t, k, level)), v) && v[k] == 0
    ensures Meets(t, clauses, v[k := level])
  {
    SetLevel(t, v, k, level);
    assert v[k := 0] == v;
    UnmetMeetAll(clauses, CutRanks(t, v), RanksUpTo(t, k, level));
  }

  /** Raising the control to this level pays for itself. */
  ghost predicate PaysAt(t: Table, clauses: seq<Clause>, k: nat, base: nat, level: nat)
    requires k < |ControlsOf(t)|
  {
    base >= 1 && LeastAvoiding(t, Unmet(clauses, RanksUpTo(t, k, level)), {k}, base - 1)
  }

  /** A cover of what the level misses is at most one control short of the optimum. */
  lemma {:induction false} NoCheaperRest(t: Table, clauses: seq<Clause>, k: nat, base: nat, level: nat, v: Levels)
    requires WellFormedTable(t) && k < |ControlsOf(t)| && LeastAvoiding(t, clauses, {}, base)
    requires 1 <= level <= |LevelsOf(t, ControlsOf(t)[k])|
    requires Meets(t, Unmet(clauses, RanksUpTo(t, k, level)), v) && Avoids(v, {k})
    ensures base <= |Raised(v)| + 1
  {
    RaiseMeetsAll(t, clauses, v, k, level);
    RaisedSet(v, k, level);
    assert Avoids(v[k := level], {});
  }

  lemma {:induction false} MinimumIsBase(t: Table, clauses: seq<Clause>, base: nat, w: Levels)
    requires LeastAvoiding(t, clauses, {}, base) && MinimumCut(t, clauses, w)
    ensures |Raised(w)| == base
  {
    var b :| Meets(t, clauses, b) && Avoids(b, {}) && |Raised(b)| == base;
    assert Avoids(w, {});
  }

  lemma {:induction false} MinimumPays(t: Table, clauses: seq<Clause>, k: nat, base: nat, w: Levels)
    requires WellFormedTable(t) && k < |ControlsOf(t)| && LeastAvoiding(t, clauses, {}, base)
    requires MinimumCut(t, clauses, w) && w[k] >= 1
    ensures PaysAt(t, clauses, k, base, w[k])
  {
    var level := w[k];
    MinimumIsBase(t, clauses, base, w);
    RaisedSet(w, k, level);
    DropMeetsUnmet(t, clauses, w, k);
    assert Avoids(w[k := 0], {k});
    forall v | Meets(t, Unmet(clauses, RanksUpTo(t, k, level)), v) && Avoids(v, {k})
      ensures base - 1 <= |Raised(v)|
    {
      NoCheaperRest(t, clauses, k, base, level, v);
    }
  }

  lemma {:induction false} PayingIsInSome(t: Table, clauses: seq<Clause>, k: nat, base: nat, level: nat)
    requires WellFormedTable(t) && k < |ControlsOf(t)| && LeastAvoiding(t, clauses, {}, base)
    requires 1 <= level <= |LevelsOf(t, ControlsOf(t)[k])| && PaysAt(t, clauses, k, base, level)
    ensures InSome(t, clauses, k)
  {
    var rest := Unmet(clauses, RanksUpTo(t, k, level));
    var v :| Meets(t, rest, v) && Avoids(v, {k}) && |Raised(v)| == base - 1;
    RaiseMeetsAll(t, clauses, v, k, level);
    RaisedSet(v, k, level);
    var w := v[k := level];
    forall u | Meets(t, clauses, u) ensures |Raised(w)| <= |Raised(u)| {
      assert Avoids(u, {});
    }
    assert MinimumCut(t, clauses, w) && w[k] >= 1;
  }

  ghost predicate PaysBelow(t: Table, clauses: seq<Clause>, k: nat, base: nat, n: nat)
    requires k < |ControlsOf(t)|
  {
    exists level: nat :: 1 <= level < n && PaysAt(t, clauses, k, base, level)
  }

  lemma {:induction false} PaysWitness(t: Table, clauses: seq<Clause>, k: nat, base: nat, n: nat, level: nat)
    requires k < |ControlsOf(t)| && 1 <= level < n && PaysAt(t, clauses, k, base, level)
    ensures PaysBelow(t, clauses, k, base, n)
  {
  }

  /** A control in some minimum pays for itself at some level; `PayingIsInSome` is the converse. */
  lemma {:induction false} InSomePays(t: Table, clauses: seq<Clause>, k: nat, base: nat)
    requires WellFormedTable(t) && k < |ControlsOf(t)| && LeastAvoiding(t, clauses, {}, base)
    requires InSome(t, clauses, k)
    ensures PaysBelow(t, clauses, k, base, |LevelsOf(t, ControlsOf(t)[k])| + 1)
  {
    var w :| MinimumCut(t, clauses, w) && k < |w| && w[k] >= 1;
    MinimumPays(t, clauses, k, base, w);
    PaysWitness(t, clauses, k, base, |LevelsOf(t, ControlsOf(t)[k])| + 1, w[k]);
  }

  lemma {:induction false} PaysBelowStep(t: Table, clauses: seq<Clause>, k: nat, base: nat, n: nat)
    requires k < |ControlsOf(t)| && n >= 1
    ensures PaysBelow(t, clauses, k, base, n + 1)
        <==> PaysBelow(t, clauses, k, base, n) || PaysAt(t, clauses, k, base, n)
  {
    if PaysBelow(t, clauses, k, base, n + 1) {
      var level: nat :| 1 <= level < n + 1 && PaysAt(t, clauses, k, base, level);
      assert level < n || level == n;
    }
    if PaysBelow(t, clauses, k, base, n) {
      var level: nat :| 1 <= level < n && PaysAt(t, clauses, k, base, level);
      assert level < n + 1;
    }
  }

  /** The ranks of the literals `control >= 1` .. `control >= level`. */
  method LiteralsUpTo(t: Table, k: nat, level: nat) returns (ranks: set<nat>)
    requires k < |ControlsOf(t)|
    ensures ranks == RanksUpTo(t, k, level)
  {
    ranks := set r | 0 <= r < |t| && t[r].control == ControlsOf(t)[k] && t[r].level <= level;
  }

  lemma LeastAvoidingUnique(t: Table, clauses: seq<Clause>, excluded: set<nat>, a: nat, b: nat)
    requires LeastAvoiding(t, clauses, excluded, a) && LeastAvoiding(t, clauses, excluded, b)
    ensures a == b
  {
    var v :| Meets(t, clauses, v) && Avoids(v, excluded) && |Raised(v)| == a;
    var w :| Meets(t, clauses, w) && Avoids(w, excluded) && |Raised(w)| == b;
  }

  /** The nodes of the solve that tells whether a level pays: without the control, over the clauses
      the level misses. */
  ghost predicate LevelTakes(t: Table, clauses: seq<Clause>, k: nat, level: nat, nodes: nat)
    requires WellFormedTable(t) && k < |ControlsOf(t)|
  {
    forall kept :: MissedBy(t, clauses, k, level, kept) ==> nodes == MinNodes(t, kept, {k})
  }

  ghost predicate MissedBy(t: Table, clauses: seq<Clause>, k: nat, level: nat, kept: seq<Clause>)
    requires k < |ControlsOf(t)|
  {
    kept == Unmet(clauses, RanksUpTo(t, k, level))
  }

  ghost function LevelNodes(t: Table, clauses: seq<Clause>, k: nat, level: nat): (nodes: nat)
    requires WellFormedTable(t) && k < |ControlsOf(t)|
    ensures LevelTakes(t, clauses, k, level, nodes) && nodes >= 1
  {
    assert LevelTakes(t, clauses, k, level, MinNodes(t, Unmet(clauses, RanksUpTo(t, k, level)), {k}));
    var nodes: nat :| LevelTakes(t, clauses, k, level, nodes) && nodes >= 1;
    nodes
  }

  lemma {:induction false} LevelNodesBound(t: Table, clauses: seq<Clause>, k: nat, level: nat)
    requires WellFormedTable(t) && k < |ControlsOf(t)|
    ensures LevelNodes(t, clauses, k, level) <= SolveCost(t)
  {
    var kept := Unmet(clauses, RanksUpTo(t, k, level));
    assert MissedBy(t, clauses, k, level, kept);
    MinNodesBound(t, kept, {k});
  }

  /** Of the levels up to `top`, those tried end with the first that pays, or with the last. */
  ghost predicate TriesUpTo(t: Table, clauses: seq<Clause>, base: nat, k: nat, top: nat, n: nat)
    requires k < |ControlsOf(t)|
  {
    1 <= n <= top && !PaysBelow(t, clauses, k, base, n) && (PaysBelow(t, clauses, k, base, n + 1) || n == top)
  }

  /** How many levels of a control are tried. */
  ghost predicate TriesLevels(t: Table, clauses: seq<Clause>, base: nat, k: nat, n: nat)
    requires k < |ControlsOf(t)|
  {
    forall top :: TopLevel(t, k, top) ==> TriesUpTo(t, clauses, base, k, top, n)
  }

  ghost predicate TopLevel(t: Table, k: nat, top: nat)
    requires k < |ControlsOf(t)|
  {
    top == |LevelsOf(t, ControlsOf(t)[k])|
  }

  lemma {:induction false} SomeTries(t: Table, clauses: seq<Clause>, base: nat, k: nat, top: nat, from: nat)
    requires k < |ControlsOf(t)| && 1 <= from <= top && !PaysBelow(t, clauses, k, base, from)
    ensures exists n: nat :: TriesUpTo(t, clauses, base, k, top, n)
    decreases top - from
  {
    if PaysBelow(t, clauses, k, base, from + 1) || from == top {
      assert TriesUpTo(t, clauses, base, k, top, from);
    } else {
      SomeTries(t, clauses, base, k, top, from + 1);
    }
  }

  ghost function Tries(t: Table, clauses: seq<Clause>, base: nat, k: nat): (n: nat)
    requires WellFormedTable(t) && k < |ControlsOf(t)|
    ensures TriesLevels(t, clauses, base, k, n)
  {
    ControlHasLevel(t, k);
    var top := |LevelsOf(t, ControlsOf(t)[k])|;
    SomeTries(t, clauses, base, k, top, 1);
    var some: nat :| TriesUpTo(t, clauses, base, k, top, some);
    assert TriesLevels(t, clauses, base, k, some);
    var n: nat :| TriesLevels(t, clauses, base, k, n);
    n
  }

  /** No level below pays, so at least these levels are tried, and no more when the last of them pays. */
  lemma {:induction false} TriesDetermined(t: Table, clauses: seq<Clause>, base: nat, k: nat, top: nat, n: nat)
    requires WellFormedTable(t) && k < |ControlsOf(t)| && top == |LevelsOf(t, ControlsOf(t)[k])| && 1 <= n <= top
    requires !PaysBelow(t, clauses, k, base, n)
    ensures n <= Tries(t, clauses, base, k)
    ensures PaysBelow(t, clauses, k, base, n + 1) || n == top ==> Tries(t, clauses, base, k) == n
  {
    var m := Tries(t, clauses, base, k);
    assert TopLevel(t, k, top) && TriesUpTo(t, clauses, base, k, top, m);
    PaysLater(t, clauses, k, base, m + 1, n);
    PaysLater(t, clauses, k, base, n + 1, m);
  }

  /** An account carried on over the first `n` levels of a control. */
  ghost function LevelsAccount(t: Table, clauses: seq<Clause>, budget: int, k: nat, from: Account, n: nat): Account
    requires WellFormedTable(t) && k < |ControlsOf(t)|
  {
    if n == 0 then from
    else Pay(LevelsAccount(t, clauses, budget, k, from, n - 1), budget, LevelNodes(t, clauses, k, n))
  }

  /** The solves of OCC over the first `n` controls, for a baseline optimum: one with nothing excluded,
      then one for each level tried of each control. */
  ghost function OccAccount(t: Table, clauses: seq<Clause>, budget: int, base: nat, n: nat): Account
    requires WellFormedTable(t) && n <= |ControlsOf(t)|
  {
    if n == 0 then Pay(Open, budget, MinNodes(t, clauses, {}))
    else LevelsAccount(t, clauses, budget, n - 1, OccAccount(t, clauses, budget, base, n - 1),
                       Tries(t, clauses, base, n - 1))
  }

  /** One level of one control: does it pay for itself? */
  method ProbeLevel(clauses: seq<Clause>, t: Table, budget: int, base: nat, k: nat, level: nat)
    returns (r: Answer, nodes: nat)
    requires WellFormedTable(t) && k < |ControlsOf(t)|
    ensures r.Member? ==> (r.yes <==> PaysAt(t, clauses, k, base, level))
    ensures r.NoBudget? <==> budget < LevelNodes(t, clauses, k, level)
    ensures nodes == Reported(budget, LevelNodes(t, clauses, k, level))
  {
    var ranks := LiteralsUpTo(t, k, level);
    var kept := Unmet(clauses, ranks);
    assert MissedBy(t, clauses, k, level, kept);
    var probe := SolveWithout(kept, t, budget, {k});
    nodes := probe.nodes;
    match probe.status {
      case BudgetExhausted => r := NoBudget;
      case Infeasible => r := Member(false);
      case Exact =>
        if base >= 1 && LeastAvoiding(t, kept, {k}, base - 1) {
          LeastAvoidingUnique(t, kept, {k}, base - 1, probe.value.value);
        }
        r := Member(1 + probe.value.value == base);
    }
  }

  lemma {:induction false} PayingBelowIsInSome(t: Table, clauses: seq<Clause>, k: nat, base: nat, n: nat)
    requires WellFormedTable(t) && k < |ControlsOf(t)| && LeastAvoiding(t, clauses, {}, base)
    requires n <= |LevelsOf(t, ControlsOf(t)[k])| + 1 && PaysBelow(t, clauses, k, base, n)
    ensures InSome(t, clauses, k)
  {
    var level: nat :| 1 <= level < n && PaysAt(t, clauses, k, base, level);
    PayingIsInSome(t, clauses, k, base, level);
  }

  /** A control is in some minimum exactly when one of its levels pays. */
  lemma {:induction false} PaysIffInSome(t: Table, clauses: seq<Clause>, k: nat, base: nat, n: nat)
    requires WellFormedTable(t) && k < |ControlsOf(t)| && LeastAvoiding(t, clauses, {}, base)
    requires n == |LevelsOf(t, ControlsOf(t)[k])| + 1
    ensures PaysBelow(t, clauses, k, base, n) <==> InSome(t, clauses, k)
  {
    var pays, some := PaysBelow(t, clauses, k, base, n), InSome(t, clauses, k);
    if pays {
      PayingBelowIsInSome(t, clauses, k, base, n);
    }
    if some {
      InSomePays(t, clauses, k, base);
    }
  }

  lemma {:induction false} PaysBelowMonotone(t: Table, clauses: seq<Clause>, k: nat, base: nat, n: nat, more: nat)
    requires k < |ControlsOf(t)| && n <= more && PaysBelow(t, clauses, k, base, n)
    ensures PaysBelow(t, clauses, k, base, more)
  {
    var level: nat :| 1 <= level < n && PaysAt(t, clauses, k, base, level);
    assert level < more;
  }

  lemma {:induction false} PaysLater(t: Table, clauses: seq<Clause>, k: nat, base: nat, n: nat, more: nat)
    requires k < |ControlsOf(t)|
    ensures n <= more && PaysBelow(t, clauses, k, base, n) ==> PaysBelow(t, clauses, k, base, more)
  {
    if n <= more && PaysBelow(t, clauses, k, base, n) {
      PaysBelowMonotone(t, clauses, k, base, n, more);
    }
  }

  lemma {:induction false} LevelsStopped(t: Table, clauses: seq<Clause>, budget: int, k: nat, from: Account, m: nat,
                                         n: nat)
    requires WellFormedTable(t) && k < |ControlsOf(t)| && m <= n
    requires !LevelsAccount(t, clauses, budget, k, from, m).going
    ensures LevelsAccount(t, clauses, budget, k, from, n) == LevelsAccount(t, clauses, budget, k, from, m)
    decreases n
  {
    if m < n {
      LevelsStopped(t, clauses, budget, k, from, m, n - 1);
    }
  }

  /** One control: whether some minimum raises it. The first level that pays settles it. */
  method ProbeOccurring(clauses: seq<Clause>, t: Table, budget: int, base: nat, k: nat, ghost from: Account,
                        spent: nat, before: nat)
    returns (r: Answer, nodes: nat, solves: nat)
    requires WellFormedTable(t) && k < |ControlsOf(t)| && LeastAvoiding(t, clauses, {}, base)
    requires from == Account(spent, before, true)
    ensures r.Member? ==> (r.yes <==> InSome(t, clauses, k))
    ensures Account(nodes, solves, r.Member?) == LevelsAccount(t, clauses, budget, k, from, Tries(t, clauses, base, k))
  {
    var top := |LevelsOf(t, ControlsOf(t)[k])|;
    ControlHasLevel(t, k);
    PaysIffInSome(t, clauses, k, base, top + 1);
    r, nodes, solves := ProbeLevels(clauses, t, budget, base, k, from, spent, before, top);
  }

  /** The levels of one control in turn. */
  method ProbeLevels(clauses: seq<Clause>, t: Table, budget: int, base: nat, k: nat, ghost from: Account, spent: nat,
                     before: nat, top: nat)
    returns (r: Answer, nodes: nat, solves: nat)
    requires WellFormedTable(t) && k < |ControlsOf(t)| && from == Account(spent, before, true)
    requires top == |LevelsOf(t, ControlsOf(t)[k])| && top >= 1
    ensures r.Member? ==> (r.yes <==> PaysBelow(t, clauses, k, base, top + 1))
    ensures Account(nodes, solves, r.Member?) == LevelsAccount(t, clauses, budget, k, from, Tries(t, clauses, base, k))
  {
    r, nodes, solves := Member(false), spent, before;
    var level := 0;
    while level < top
      invariant level <= top && r == Member(false) && !PaysBelow(t, clauses, k, base, level + 1)
      invariant Account(nodes, solves, true) == LevelsAccount(t, clauses, budget, k, from, level)
      invariant level == top ==> Tries(t, clauses, base, k) == top
    {
      level := level + 1;
      var more;
      r, more := ProbeLevel(clauses, t, budget - nodes, base, k, level);
      nodes, solves := nodes + more, solves + 1;
      PaysBelowStep(t, clauses, k, base, level);
      TriesDetermined(t, clauses, base, k, top, level);
      if r.NoBudget? {
        LevelsStopped(t, clauses, budget, k, from, level, Tries(t, clauses, base, k));
        return;
      }
      if r.yes {
        PaysBelowMonotone(t, clauses, k, base, level + 1, top + 1);
        return;
      }
    }
  }

  /** How many literals the first `k` controls have. */
  function LevelsBefore(t: Table, k: nat): nat
    requires k <= |ControlsOf(t)|
  {
    if k == 0 then 0 else LevelsBefore(t, k - 1) + |LevelsOf(t, ControlsOf(t)[k - 1])|
  }

  /** The optimum of a database that some cut meets; no matter for one that none does. */
  ghost predicate IsBase(t: Table, clauses: seq<Clause>, base: nat) {
    forall any :: LeastAvoiding(t, clauses, {}, any) ==> any == base
  }

  /** OCC: the controls in some minimum-cardinality cut. */
  method OccurringControls(clauses: seq<Clause>, t: Table, budget: int) returns (r: Solves)
    requires WellFormedTable(t)
    ensures r.Solved? ==> OccurringBelow(t, clauses, r.controls, |ControlsOf(t)|)
    ensures r.Solved? ==> exists w :: Meets(t, clauses, w)
    ensures r.Unsatisfiable? <==> FoundUnmet(t, clauses, budget)
    ensures !r.Unsatisfiable? ==> forall base :: IsBase(t, clauses, base) ==>
              Settles(r, OccAccount(t, clauses, budget, base, |ControlsOf(t)|))
  {
    var base;
    r, base := Baseline(clauses, t, budget);
    if r.Unsatisfiable? {
      return;
    }
    if r.Exhausted? {
      OccStoppedAtOnce(t, clauses, budget);
      return;
    }
    var k := 0;
    while k < |ControlsOf(t)| && r.Solved?
      invariant 0 <= k <= |ControlsOf(t)|
      invariant r.Solved? ==> OccurringBelow(t, clauses, r.controls, k)
      invariant Settles(r, OccAccount(t, clauses, budget, base, k))
    {
      r := AddOccurring(clauses, t, budget, base, k, r);
      k := k + 1;
    }
    if r.Exhausted? {
      OccStopped(t, clauses, budget, base, k, |ControlsOf(t)|);
    }
    BaseIsMet(t, clauses, base);
  }

  lemma BaseIsUnique(t: Table, clauses: seq<Clause>, base: nat)
    requires LeastAvoiding(t, clauses, {}, base)
    ensures IsBase(t, clauses, base)
  {
    forall any | LeastAvoiding(t, clauses, {}, any) ensures any == base {
      LeastAvoidingUnique(t, clauses, {}, any, base);
    }
  }

  lemma {:induction false} NothingMore(t: Table, clauses: seq<Clause>, budget: int, k: nat, from: Account, n: nat)
    requires WellFormedTable(t) && k < |ControlsOf(t)| && !from.going
    ensures LevelsAccount(t, clauses, budget, k, from, n) == from
  {
    LevelsStopped(t, clauses, budget, k, from, 0, n);
  }

  lemma {:induction false} OccStopped(t: Table, clauses: seq<Clause>, budget: int, base: nat, k: nat, n: nat)
    requires WellFormedTable(t) && k <= n <= |ControlsOf(t)| && !OccAccount(t, clauses, budget, base, k).going
    ensures OccAccount(t, clauses, budget, base, n) == OccAccount(t, clauses, budget, base, k)
    decreases n
  {
    if k < n {
      var from := OccAccount(t, clauses, budget, base, n - 1);
      OccStopped(t, clauses, budget, base, k, n - 1);
      NothingMore(t, clauses, budget, n - 1, from, Tries(t, clauses, base, n - 1));
    }
  }

  lemma {:induction false} OccStoppedAtOnce(t: Table, clauses: seq<Clause>, budget: int)
    requires WellFormedTable(t) && !Pay(Open, budget, MinNodes(t, clauses, {})).going
    ensures forall base: nat ::
              OccAccount(t, clauses, budget, base, |ControlsOf(t)|) == Pay(Open, budget, MinNodes(t, clauses, {}))
  {
    forall base: nat
      ensures OccAccount(t, clauses, budget, base, |ControlsOf(t)|) == Pay(Open, budget, MinNodes(t, clauses, {}))
    {
      OccStopped(t, clauses, budget, base, 0, |ControlsOf(t)|);
    }
  }

  /** One control probed, and added when some minimum raises it. */
  method AddOccurring(clauses: seq<Clause>, t: Table, budget: int, base: nat, k: nat, before: Solves)
    returns (r: Solves)
    requires WellFormedTable(t) && k < |ControlsOf(t)| && LeastAvoiding(t, clauses, {}, base)
    requires before.Solved? && OccurringBelow(t, clauses, before.controls, k)
    requires Settles(before, OccAccount(t, clauses, budget, base, k))
    ensures r.Solved? ==> OccurringBelow(t, clauses, r.controls, k + 1)
    ensures Settles(r, OccAccount(t, clauses, budget, base, k + 1))
  {
    ghost var from := OccAccount(t, clauses, budget, base, k);
    var answer, nodes, solves := ProbeOccurring(clauses, t, budget, base, k, from, before.nodes, before.solves);
    if answer.NoBudget? {
      return Exhausted(nodes, solves);
    }
    OccurringStep(t, clauses, before.controls, k, answer.yes);
    return Solved(if answer.yes then before.controls + [k] else before.controls, nodes, solves);
  }

  // ---------------------------------------------------------------------------
  // The premium
  // ---------------------------------------------------------------------------

  /** The closed enum of suppression reasons. */
  datatype Suppressed = GroundingCapped | CorridorCap | SolverBudget | HorizonTruncated | ErAmbiguous

  datatype PremiumResult =
    | Published(necMax: seq<nat>, occMin: seq<nat>, premium: seq<nat>, solves: nat, nodes: nat)
    | Withheld(reason: Suppressed, solves: nat, nodes: nat)
    | UnsatisfiableError

  /** The members of `a` outside `b`, in order. */
  function Minus(a: seq<nat>, b: seq<nat>): (r: seq<nat>)
    requires Ascending(a)
    ensures Ascending(r)
    ensures forall x :: x in r <==> x in a && x !in b
  {
    if a == [] then []
    else
      var last := a[|a| - 1];
      var front := Minus(a[..|a| - 1], b);
      assert a == a[..|a| - 1] + [last];
      assert forall i :: 0 <= i < |front| ==> front[i] in front;
      if last in b then front else front + [last]
  }

  /** The first precondition that fails, in the order they are checked. */
  function FirstFailing(lower: CutSearch, upper: CutSearch, groundingCapped: bool, budgetExhausted: bool,
                        horizonTruncated: bool, erAmbiguous: bool): Option<Suppressed>
    requires lower.Search? && upper.Search?
  {
    if groundingCapped then Some(GroundingCapped)
    else if !lower.complete || !upper.complete then Some(CorridorCap)
    else if budgetExhausted then Some(SolverBudget)
    else if horizonTruncated then Some(HorizonTruncated)
    else if erAmbiguous then Some(ErAmbiguous)
    else None
  }

  /** All the solves of a premium: NEC of the upper database, then OCC of the lower one. */
  ghost function PremiumAccount(t: Table, lower: seq<Clause>, upper: seq<Clause>, budget: int, base: nat): Account
    requires WellFormedTable(t)
  {
    var nec := NecAccount(t, upper, budget, |ControlsOf(t)|);
    Joined(nec, OccAccount(t, lower, budget - nec.nodes, base, |ControlsOf(t)|))
  }

  /** The premium reports the account: its nodes and solves, and that it is withheld if it stopped. */
  ghost predicate Reports(r: PremiumResult, a: Account) {
    if a.going then r.Published? && r.solves == a.solves && r.nodes == a.nodes
    else r == Withheld(SolverBudget, a.solves, a.nodes)
  }

  /** What is reported once every precondition is met, but for the error: what the account of all the
      solves says. */
  ghost predicate Priced(t: Table, lower: seq<Clause>, upper: seq<Clause>, budget: int, r: PremiumResult)
    requires WellFormedTable(t)
  {
    !r.UnsatisfiableError? ==>
      forall base :: IsBase(t, lower, base) ==> Reports(r, PremiumAccount(t, lower, upper, budget, base))
  }

  /** The error is raised when a first solve finds that no cut meets its database, that of the lower one
      on what a finished NEC left over, and only then. */
  ghost predicate Blamed(t: Table, lower: seq<Clause>, upper: seq<Clause>, budget: int, r: PremiumResult)
    requires WellFormedTable(t)
  {
    var nec := NecAccount(t, upper, budget, |ControlsOf(t)|);
    r.UnsatisfiableError? <==>
      FoundUnmet(t, upper, budget)
      || ((exists w :: Meets(t, upper, w)) && nec.going && FoundUnmet(t, lower, budget - nec.nodes))
  }

  /** The published lists: NEC of the upper database, OCC of the lower one, and what is in the first alone. */
  ghost predicate IsPremium(t: Table, lower: seq<Clause>, upper: seq<Clause>, r: PremiumResult)
    requires r.Published?
  {
    && NecessaryBelow(t, upper, r.necMax, |ControlsOf(t)|)
    && OccurringBelow(t, lower, r.occMin, |ControlsOf(t)|)
    && Ascending(r.premium) && forall k :: k in r.premium <==> k in r.necMax && k !in r.occMin
  }

  lemma SomeBase(t: Table, clauses: seq<Clause>) returns (base: nat)
    ensures IsBase(t, clauses, base)
  {
    base := 0;
    if k :| LeastAvoiding(t, clauses, {}, k) {
      BaseIsUnique(t, clauses, k);
      base := k;
    }
  }

  /** There is one answer: what is published, with its counters, or why not. */
  lemma {:induction false} PremiumIsDetermined(t: Table, lower: seq<Clause>, upper: seq<Clause>, budget: int,
                                               a: PremiumResult, b: PremiumResult)
    requires WellFormedTable(t) && Priced(t, lower, upper, budget, a) && Priced(t, lower, upper, budget, b)
    requires Blamed(t, lower, upper, budget, a) && Blamed(t, lower, upper, budget, b)
    requires a.Published? ==> IsPremium(t, lower, upper, a)
    requires b.Published? ==> IsPremium(t, lower, upper, b)
    ensures a == b
  {
    if !a.UnsatisfiableError? {
      var base := SomeBase(t, lower);
      assert Reports(a, PremiumAccount(t, lower, upper, budget, base));
      assert Reports(b, PremiumAccount(t, lower, upper, budget, base));
      if a.Published? {
        AscendingUnique(a.necMax, b.necMax);
        AscendingUnique(a.occMin, b.occMin);
        AscendingUnique(a.premium, b.premium);
      }
    }
  }

  /** `B = NEC(Psi_max) \ OCC(Psi_min)`, or the reason it is not published. */
  method BlindnessPremium(lower: CutSearch, upper: CutSearch, t: Table, budget: int, groundingCapped: bool,
                          budgetExhausted: bool, horizonTruncated: bool, erAmbiguous: bool)
    returns (r: PremiumResult)
    requires WellFormedTable(t) && lower.Search? && upper.Search?
    ensures var failing := FirstFailing(lower, upper, groundingCapped, budgetExhausted, horizonTruncated, erAmbiguous);
            if failing.Some? then r == Withheld(failing.value, 0, 0)
            else Priced(t, lower.clauses, upper.clauses, budget, r)
                 && Blamed(t, lower.clauses, upper.clauses, budget, r)
    ensures r.Published? ==> IsPremium(t, lower.clauses, upper.clauses, r)
  {
    if groundingCapped { return Withheld(GroundingCapped, 0, 0); }
    if !lower.complete || !upper.complete { return Withheld(CorridorCap, 0, 0); }
    if budgetExhausted { return Withheld(SolverBudget, 0, 0); }
    if horizonTruncated { return Withheld(HorizonTruncated, 0, 0); }
    if erAmbiguous { return Withheld(ErAmbiguous, 0, 0); }
    var nec := NecessaryControls(upper.clauses, t, budget);
    match nec {
      case Unsatisfiable => return UnsatisfiableError;
      case Exhausted(nodes, solves) =>
        r := Withheld(SolverBudget, solves, nodes);
        PricedByNec(t, lower.clauses, upper.clauses, budget, nec, r);
      case Solved(necMax, necNodes, necSolves) =>
        var occ := OccurringControls(lower.clauses, t, budget - necNodes);
        match occ {
          case Unsatisfiable => return UnsatisfiableError;
          case Exhausted(nodes, solves) => r := Withheld(SolverBudget, necSolves + solves, necNodes + nodes);
          case Solved(occMin, nodes, solves) =>
            r := Published(necMax, occMin, Minus(necMax, occMin), necSolves + solves, necNodes + nodes);
        }
        PricedByBoth(t, lower.clauses, upper.clauses, budget, nec, occ, r);
    }
  }

  lemma {:induction false} PricedByNec(t: Table, lower: seq<Clause>, upper: seq<Clause>, budget: int, nec: Solves,
                                       r: PremiumResult)
    requires WellFormedTable(t) && nec.Exhausted? && r == Withheld(SolverBudget, nec.solves, nec.nodes)
    requires Settles(nec, NecAccount(t, upper, budget, |ControlsOf(t)|))
    ensures Priced(t, lower, upper, budget, r)
  {
    var n := |ControlsOf(t)|;
    forall base | IsBase(t, lower, base) ensures Reports(r, PremiumAccount(t, lower, upper, budget, base)) {
      JoinedReports(nec, nec, NecAccount(t, upper, budget, n), OccAccount(t, lower, budget - nec.nodes, base, n), r);
    }
  }

  lemma {:induction false} PricedByBoth(t: Table, lower: seq<Clause>, upper: seq<Clause>, budget: int, nec: Solves,
                                        occ: Solves, r: PremiumResult)
    requires WellFormedTable(t) && nec.Solved? && !occ.Unsatisfiable? && !r.UnsatisfiableError?
    requires r.nodes == nec.nodes + occ.nodes && r.solves == nec.solves + occ.solves
    requires if occ.Solved? then r.Published? else r.Withheld? && r.reason == SolverBudget
    requires Settles(nec, NecAccount(t, upper, budget, |ControlsOf(t)|))
    requires forall base :: IsBase(t, lower, base) ==>
               Settles(occ, OccAccount(t, lower, budget - nec.nodes, base, |ControlsOf(t)|))
    ensures Priced(t, lower, upper, budget, r)
  {
    var n := |ControlsOf(t)|;
    forall base | IsBase(t, lower, base) ensures Reports(r, PremiumAccount(t, lower, upper, budget, base)) {
      JoinedReports(nec, occ, NecAccount(t, upper, budget, n), OccAccount(t, lower, budget - nec.nodes, base, n), r);
    }
  }

  lemma JoinedReports(nec: Solves, occ: Solves, a: Account, b: Account, r: PremiumResult)
    requires Settles(nec, a) && !r.UnsatisfiableError?
    requires nec.Exhausted? ==> r == Withheld(SolverBudget, nec.solves, nec.nodes)
    requires nec.Solved? ==> Settles(occ, b) && r.nodes == nec.nodes + occ.nodes && r.solves == nec.solves + occ.solves
    requires nec.Solved? ==> if occ.Solved? then r.Published? else r.Withheld? && r.reason == SolverBudget
    ensures Reports(r, Joined(a, b))
  {
  }

  lemma {:induction false} NecWithin(t: Table, clauses: seq<Clause>, budget: int, n: nat)
    requires WellFormedTable(t)
    ensures Within(NecAccount(t, clauses, budget, n), budget, 1 + n, SolveCost(t))
  {
    if n == 0 {
      MinNodesBound(t, clauses, {});
      PayWithin(Open, budget, 0, SolveCost(t), MinNodes(t, clauses, {}));
    } else {
      MinNodesBound(t, clauses, {n - 1});
      NecWithin(t, clauses, budget, n - 1);
      PayWithin(NecAccount(t, clauses, budget, n - 1), budget, n, SolveCost(t), MinNodes(t, clauses, {n - 1}));
    }
  }

  lemma {:induction false} LevelsWithin(t: Table, clauses: seq<Clause>, budget: int, k: nat, from: Account, before: nat,
                                        n: nat)
    requires WellFormedTable(t) && k < |ControlsOf(t)| && Within(from, budget, before, SolveCost(t))
    ensures Within(LevelsAccount(t, clauses, budget, k, from, n), budget, before + n, SolveCost(t))
  {
    if n > 0 {
      LevelNodesBound(t, clauses, k, n);
      LevelsWithin(t, clauses, budget, k, from, before, n - 1);
      PayWithin(LevelsAccount(t, clauses, budget, k, from, n - 1), budget, before + n - 1, SolveCost(t),
                LevelNodes(t, clauses, k, n));
    }
  }

  lemma {:induction false} TriesFewLevels(t: Table, clauses: seq<Clause>, base: nat, k: nat)
    requires WellFormedTable(t) && k < |ControlsOf(t)|
    ensures Tries(t, clauses, base, k) <= |LevelsOf(t, ControlsOf(t)[k])|
  {
    assert TopLevel(t, k, |LevelsOf(t, ControlsOf(t)[k])|);
  }

  lemma {:induction false} ControlWithin(t: Table, clauses: seq<Clause>, budget: int, base: nat, k: nat, from: Account,
                                         before: nat, levels: nat)
    requires WellFormedTable(t) && k < |ControlsOf(t)| && Within(from, budget, before, SolveCost(t))
    requires levels == |LevelsOf(t, ControlsOf(t)[k])|
    ensures Within(LevelsAccount(t, clauses, budget, k, from, Tries(t, clauses, base, k)), budget, before + levels,
                   SolveCost(t))
  {
    var tries := Tries(t, clauses, base, k);
    TriesFewLevels(t, clauses, base, k);
    LevelsWithin(t, clauses, budget, k, from, before, tries);
    WithinMonotone(LevelsAccount(t, clauses, budget, k, from, tries), budget, before + tries, before + levels,
                   SolveCost(t));
  }

  lemma {:induction false} OccWithin(t: Table, clauses: seq<Clause>, budget: int, base: nat, n: nat)
    requires WellFormedTable(t) && n <= |ControlsOf(t)|
    ensures Within(OccAccount(t, clauses, budget, base, n), budget, 1 + LevelsBefore(t, n), SolveCost(t))
  {
    if n == 0 {
      NecWithin(t, clauses, budget, 0);
    } else {
      OccWithin(t, clauses, budget, base, n - 1);
      ControlWithin(t, clauses, budget, base, n - 1, OccAccount(t, clauses, budget, base, n - 1),
                    1 + LevelsBefore(t, n - 1), |LevelsOf(t, ControlsOf(t)[n - 1])|);
    }
  }

  lemma {:induction false} PremiumWithin(t: Table, lower: seq<Clause>, upper: seq<Clause>, budget: int, base: nat,
                                         n: nat)
    requires WellFormedTable(t) && n == |ControlsOf(t)|
    ensures Within(PremiumAccount(t, lower, upper, budget, base), budget, 2 + n + LevelsBefore(t, n), SolveCost(t))
  {
    var nec := NecAccount(t, upper, budget, n);
    var occ := OccAccount(t, lower, budget - nec.nodes, base, n);
    NecWithin(t, upper, budget, n);
    OccWithin(t, lower, budget - nec.nodes, base, n);
    JoinedWithin(nec, occ, budget, 1 + n, 1 + LevelsBefore(t, n), SolveCost(t));
    assert PremiumAccount(t, lower, upper, budget, base) == Joined(nec, occ);
  }

  /** How many solves a premium can ask for: two baselines, one for each control and one for each level. */
  function Asks(t: Table): nat {
    2 + |ControlsOf(t)| + LevelsBefore(t, |ControlsOf(t)|)
  }

  lemma ReportsMeans(r: PremiumResult, a: Account, budget: int, n: nat, each: nat)
    requires Reports(r, a) && Within(a, budget, n, each)
    ensures r.Withheld? ==> r.nodes >= budget && r.solves <= n
    ensures budget >= n * each ==> r.Published?
  {
    WithinMeans(a, budget, n, each);
  }

  lemma PricedReports(t: Table, lower: seq<Clause>, upper: seq<Clause>, base: nat, budget: int, r: PremiumResult)
    returns (a: Account)
    requires WellFormedTable(t) && Priced(t, lower, upper, budget, r) && LeastAvoiding(t, lower, {}, base)
    ensures r.UnsatisfiableError? || Reports(r, a)
    ensures Within(a, budget, Asks(t), SolveCost(t))
  {
    BaseIsUnique(t, lower, base);
    a := PremiumAccount(t, lower, upper, budget, base);
    PremiumWithin(t, lower, upper, budget, base, |ControlsOf(t)|);
  }

  /** A premium withheld for its own solves has used the whole budget, on no more solves than there
      are controls and literals to ask about; and a budget for all of those always publishes. */
  lemma PremiumIsAffordable(t: Table, lower: seq<Clause>, upper: seq<Clause>, base: nat, budget: int, r: PremiumResult)
    requires WellFormedTable(t) && Priced(t, lower, upper, budget, r) && Blamed(t, lower, upper, budget, r)
    requires LeastAvoiding(t, lower, {}, base) && exists w :: Meets(t, upper, w)
    ensures !r.UnsatisfiableError?
    ensures r.Withheld? ==> r.nodes >= budget && r.solves <= Asks(t)
    ensures budget >= Asks(t) * SolveCost(t) ==> r.Published?
  {
    BaseIsMet(t, lower, base);
    var a := PricedReports(t, lower, upper, base, budget, r);
    ReportsMeans(r, a, budget, Asks(t), SolveCost(t));
  }
}
