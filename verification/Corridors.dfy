/** The hitting-set loop over corridors (cut.py, `_control_hits`, `enumerate_psi`): solve a
    minimum hitting set over the learned clauses, test the cut by reachability, learn a new
    clause from the witness, repeat.
 */
module Corridors {
  import opened Arithmetic
  import opened Wrappers
  import opened Reachability
  import opened HittingSets
  import opened Selection
  import opened AtomTables

  type Clause = set<nat>

  // ---------------------------------------------------------------------------
  // Clauses seen by the solver
  // ---------------------------------------------------------------------------

  /** Some literal at level `l + 1` or below is in the clause. */
  ghost predicate InReach(lits: seq<Literal>, l: nat, clause: Clause) {
    exists j :: 0 <= j <= l && j < |lits| && lits[j].rank in clause
  }

  ghost predicate LevelTable(clauses: seq<Clause>, lits: seq<Literal>, levels: seq<set<nat>>) {
    forall l: nat :: l < |levels| ==> LevelRow(clauses, lits, l, levels[l])
  }

  /** `row` lists exactly the clauses in reach at one level. */
  ghost predicate LevelRow(clauses: seq<Clause>, lits: seq<Literal>, l: nat, row: set<nat>) {
    forall i: nat :: i in row <==> i < |clauses| && InReach(lits, l, clauses[i])
  }

  function ClausesWith(clauses: seq<Clause>, rank: nat): (s: set<nat>) {
    set i | 0 <= i < |clauses| && rank in clauses[i]
  }

  /** The clauses one control hits at each of its levels. */
  method ControlLevels(clauses: seq<Clause>, lits: seq<Literal>) returns (levels: seq<set<nat>>)
    ensures |levels| == |lits| && LevelTable(clauses, lits, levels)
  {
    levels := [];
    var running: set<nat> := {};
    for l := 0 to |lits|
      invariant |levels| == l && LevelTable(clauses, lits, levels)
      invariant if l == 0 then running == {} else LevelRow(clauses, lits, l - 1, running)
    {
      running := running + ClausesWith(clauses, lits[l].rank);
      forall i: nat | i < |clauses| ensures i in running <==> InReach(lits, l, clauses[i]) {
        if l > 0 && InReach(lits, l - 1, clauses[i]) {
          var j :| 0 <= j <= l - 1 && j < |lits| && lits[j].rank in clauses[i];
          assert InReach(lits, l, clauses[i]);
        }
        if InReach(lits, l, clauses[i]) && lits[l].rank !in clauses[i] {
          var j :| 0 <= j <= l && j < |lits| && lits[j].rank in clauses[i];
          assert InReach(lits, l - 1, clauses[i]);
        }
      }
      levels := levels + [running];
    }
  }

  /** The covering problem of a clause database over a table. */
  ghost predicate ProblemOf(q: Problem, clauses: seq<Clause>, t: Table) {
    && q.clauses == |clauses|
    && |q.perLevel| == |ControlsOf(t)|
    && forall k :: 0 <= k < |q.perLevel| ==>
         |q.perLevel[k]| == |LevelsOf(t, ControlsOf(t)[k])|
         && LevelTable(clauses, LevelsOf(t, ControlsOf(t)[k]), q.perLevel[k])
  }

  method ControlHits(clauses: seq<Clause>, t: Table) returns (q: Problem)
    requires WellFormedTable(t)
    ensures ProblemOf(q, clauses, t) && ValidProblem(q)
  {
    var controls := ListControls(t);
    var perLevel: seq<seq<set<nat>>> := [];
    for k := 0 to |controls|
      invariant |perLevel| == k
      invariant forall m :: 0 <= m < k ==>
        |perLevel[m]| == |LevelsOf(t, controls[m])| && LevelTable(clauses, LevelsOf(t, controls[m]), perLevel[m])
    {
      var levels := ControlLevels(clauses, LevelsOf(t, controls[k]));
      perLevel := perLevel + [levels];
    }
    q := Problem(|clauses|, perLevel);
    ProblemIsValid(q, clauses, t);
  }

  /** The one covering problem of a clause database over a table. */
  ghost function Induced(clauses: seq<Clause>, t: Table): (q: Problem)
    requires WellFormedTable(t)
    ensures ProblemOf(q, clauses, t) && ValidProblem(q)
  {
    var q := Problem(|clauses|, seq(|ControlsOf(t)|, k requires 0 <= k < |ControlsOf(t)| =>
      InducedRows(clauses, LevelsOf(t, ControlsOf(t)[k]))));
    ProblemIsValid(q, clauses, t);
    q
  }

  ghost function InducedRows(clauses: seq<Clause>, lits: seq<Literal>): (rows: seq<set<nat>>)
    ensures |rows| == |lits| && LevelTable(clauses, lits, rows)
  {
    seq(|lits|, l requires 0 <= l < |lits| => set i | 0 <= i < |clauses| && InReach(lits, l, clauses[i]))
  }

  lemma {:induction false} RowsAreInduced(clauses: seq<Clause>, lits: seq<Literal>, rows: seq<set<nat>>)
    requires |rows| == |lits| && LevelTable(clauses, lits, rows)
    ensures rows == InducedRows(clauses, lits)
  {
    forall l: nat | l < |rows| ensures rows[l] == InducedRows(clauses, lits)[l] {
      assert LevelRow(clauses, lits, l, rows[l]) && LevelRow(clauses, lits, l, InducedRows(clauses, lits)[l]);
      forall i: nat ensures i in rows[l] <==> i in InducedRows(clauses, lits)[l] {
      }
    }
  }

  lemma {:induction false} ProblemIsInduced(q: Problem, clauses: seq<Clause>, t: Table)
    requires WellFormedTable(t) && ProblemOf(q, clauses, t)
    ensures q == Induced(clauses, t)
  {
    forall k: nat | k < |q.perLevel| ensures q.perLevel[k] == Induced(clauses, t).perLevel[k] {
      RowsAreInduced(clauses, LevelsOf(t, ControlsOf(t)[k]), q.perLevel[k]);
    }
  }

  lemma ProblemIsValid(q: Problem, clauses: seq<Clause>, t: Table)
    requires WellFormedTable(t) && ProblemOf(q, clauses, t)
    ensures ValidProblem(q)
  {
    forall c | 0 <= c < |q.perLevel| ensures |q.perLevel[c]| >= 1 {
      ControlHasLevel(t, c);
    }
    forall c, l | 0 <= c < |q.perLevel| && 0 <= l < |q.perLevel[c]| ensures q.perLevel[c][l] <= Range(q.clauses) {
      assert LevelRow(clauses, LevelsOf(t, ControlsOf(t)[c]), l, q.perLevel[c][l]);
    }
    forall c, l, m | 0 <= c < |q.perLevel| && 0 <= l <= m < |q.perLevel[c]|
      ensures q.perLevel[c][l] <= q.perLevel[c][m]
    {
      var lits := LevelsOf(t, ControlsOf(t)[c]);
      assert LevelRow(clauses, lits, l, q.perLevel[c][l]) && LevelRow(clauses, lits, m, q.perLevel[c][m]);
      forall i: nat | i in q.perLevel[c][l] ensures i in q.perLevel[c][m] {
        var j :| 0 <= j <= l && j < |lits| && lits[j].rank in clauses[i];
        assert InReach(lits, m, clauses[i]);
      }
    }
  }

  lemma LevelHitMeets(q: Problem, clauses: seq<Clause>, t: Table, w: Levels, c: nat, i: nat)
    requires WellFormedTable(t) && ProblemOf(q, clauses, t) && Admissible(t, w) && ValidLevels(q, w)
    requires i < |clauses| && LevelHit(q, w, c, i)
    ensures clauses[i] * CutRanks(t, w) != {}
  {
    var lits := LevelsOf(t, ControlsOf(t)[c]);
    assert LevelRow(clauses, lits, w[c] - 1, q.perLevel[c][w[c] - 1]);
    assert InReach(lits, w[c] - 1, clauses[i]);
    var j :| 0 <= j <= w[c] - 1 && j < |lits| && lits[j].rank in clauses[i];
    LevelsOfRank(t, ControlsOf(t)[c], j);
    LevelForIndex(t, w, c);
    assert lits[j].rank in clauses[i] * CutRanks(t, w);
  }

  lemma MeetingIsLevelHit(q: Problem, clauses: seq<Clause>, t: Table, w: Levels, r: nat, i: nat) returns (k: nat)
    requires WellFormedTable(t) && ProblemOf(q, clauses, t) && Admissible(t, w) && ValidLevels(q, w)
    requires i < |clauses| && r in clauses[i] && r in CutRanks(t, w)
    ensures k in Raised(w) && LevelHit(q, w, k, i)
  {
    LiteralAt(t, r);
    k := Position(ControlsOf(t), t[r].control);
    var lits := LevelsOf(t, ControlsOf(t)[k]);
    assert LevelRow(clauses, lits, w[k] - 1, q.perLevel[k][w[k] - 1]);
    assert lits[t[r].level - 1].rank == r;
    assert InReach(lits, w[k] - 1, clauses[i]);
  }

  /** Hitting a clause in the solver's view is meeting it with the cut's literals. */
  lemma {:induction false} ClauseHitIsMeeting(q: Problem, clauses: seq<Clause>, t: Table, w: Levels, i: nat)
    requires WellFormedTable(t) && ProblemOf(q, clauses, t) && Admissible(t, w) && ValidLevels(q, w) && i < |clauses|
    ensures ClauseHit(q, Raised(w), w, i) <==> clauses[i] * CutRanks(t, w) != {}
  {
    if ClauseHit(q, Raised(w), w, i) {
      var c :| c in Raised(w) && LevelHit(q, w, c, i);
      LevelHitMeets(q, clauses, t, w, c, i);
    }
    if r :| r in clauses[i] * CutRanks(t, w) {
      var k := MeetingIsLevelHit(q, clauses, t, w, r, i);
    }
  }

  ghost predicate MeetsAll(clauses: seq<Clause>, ranks: set<nat>) {
    forall i :: 0 <= i < |clauses| ==> clauses[i] * ranks != {}
  }

  lemma HittingIsMeeting(q: Problem, clauses: seq<Clause>, t: Table, w: Levels)
    requires WellFormedTable(t) && ProblemOf(q, clauses, t)
    ensures ValidLevels(q, w) <==> Admissible(t, w)
    ensures Admissible(t, w) ==> (HittingLevels(q, w) <==> MeetsAll(clauses, CutRanks(t, w)))
  {
    if Admissible(t, w) {
      forall i | 0 <= i < |clauses|
        ensures ClauseHit(q, Raised(w), w, i) <==> clauses[i] * CutRanks(t, w) != {}
      {
        ClauseHitIsMeeting(q, clauses, t, w, i);
      }
    }
  }

  // ---------------------------------------------------------------------------
  // What the clause database means
  // ---------------------------------------------------------------------------

  /** An admissible level vector whose cut severs the goal. */
  ghost predicate SeveringLevels(p: Program, t: Table, w: Levels) {
    Admissible(t, w) && Severs(p, CutMask(t, w))
  }

  /** Some instance is blocked by a literal the table does not list. */
  ghost predicate UnlistedBlocker(p: Program, t: Table) {
    exists i, b :: 0 <= i < |p.instances| && b in BlockerBits(p.instances[i])
                && forall r :: 0 <= r < |t| ==> t[r].bit != b
  }

  /** Every severing cut meets every clause. */
  ghost predicate Necessary(p: Program, t: Table, clauses: seq<Clause>) {
    forall w :: SeveringLevels(p, t, w) ==> MeetsAll(clauses, CutRanks(t, w))
  }

  ghost predicate Distinct(clauses: seq<Clause>) {
    forall i, j :: 0 <= i < j < |clauses| ==> clauses[i] != clauses[j]
  }

  /** Clauses name listed literals, and an empty one rests on an unlisted blocker. */
  ghost predicate Backed(p: Program, t: Table, clauses: seq<Clause>) {
    forall i :: 0 <= i < |clauses| ==> clauses[i] <= Range(|t|) && (clauses[i] == {} ==> UnlistedBlocker(p, t))
  }

  /** The clause is the corridor of the goal derivation that the canonical cut for the clauses held so
      far leaves as its witness. */
  ghost predicate TaughtBy(p: Program, t: Table, held: seq<Clause>, clause: Clause, w: Levels, tree: Tree) {
    && LeastMeeting(t, held, w)
    && Leaves(p, CutMask(t, w), tree)
    && ValidTree(p, CutMask(t, w), tree) && NeverRepeats(tree, {}) && tree.head in p.goals
    && Corridor(p, Instances(tree)) != {} && clause == RanksOfMask(t, Corridor(p, Instances(tree)))
  }

  ghost predicate TaughtAfter(p: Program, t: Table, held: seq<Clause>, clause: Clause) {
    exists w, tree :: TaughtBy(p, t, held, clause, w, tree)
  }

  /** Every clause was learned from a derivation, in the order they are held. */
  ghost predicate Taught(p: Program, t: Table, clauses: seq<Clause>) {
    forall i :: 0 <= i < |clauses| ==> TaughtAt(p, t, clauses, i)
  }

  ghost predicate TaughtAt(p: Program, t: Table, clauses: seq<Clause>, i: nat)
    requires i < |clauses|
  {
    TaughtAfter(p, t, clauses[..i], clauses[i])
  }

  /** The invariant of the loop: distinct clauses, each learned from a derivation and met by every
      severing cut, and none empty unless a blocker is unlisted. */
  ghost predicate Learned(p: Program, t: Table, clauses: seq<Clause>) {
    Distinct(clauses) && Necessary(p, t, clauses) && Backed(p, t, clauses) && Taught(p, t, clauses)
  }

  lemma {:induction false} TaughtOneMore(p: Program, t: Table, clauses: seq<Clause>, clause: Clause)
    requires Taught(p, t, clauses) && TaughtAfter(p, t, clauses, clause)
    ensures Taught(p, t, clauses + [clause])
  {
    var more := clauses + [clause];
    forall i: nat | i < |more| ensures TaughtAt(p, t, more, i) {
      SameBefore(clauses, clause, i);
      assert i < |clauses| ==> TaughtAt(p, t, clauses, i);
    }
  }

  lemma SameBefore(clauses: seq<Clause>, clause: Clause, i: nat)
    requires i <= |clauses|
    ensures (clauses + [clause])[..i] == clauses[..i]
    ensures (clauses + [clause])[i] == if i < |clauses| then clauses[i] else clause
    ensures i == |clauses| ==> clauses[..i] == clauses
  {
  }

  /** The least level vector, in canonical order, that meets every clause. */
  ghost predicate LeastMeeting(t: Table, clauses: seq<Clause>, w: Levels) {
    && Admissible(t, w)
    && MeetsAll(clauses, CutRanks(t, w))
    && forall v :: Admissible(t, v) && MeetsAll(clauses, CutRanks(t, v)) ==> Precedes(w, v)
  }

  /** A severing cut meets the ranks of a goal derivation's corridor. */
  lemma {:induction false} SeveringMeetsCorridor(p: Program, t: Table, cut: Mask, tree: Tree, v: Levels)
    requires WellFormed(p) && WellFormedTable(t)
    requires ValidTree(p, cut, tree) && tree.head in p.goals && SeveringLevels(p, t, v)
    ensures RanksOfMask(t, Corridor(p, Instances(tree))) * CutRanks(t, v) != {}
  {
    CorridorTheorem(p, cut, tree);
    MasksMeetAsRanks(t, Corridor(p, Instances(tree)), CutRanks(t, v));
  }

  /** A corridor with no listed literal rests on a blocker the table does not list. */
  lemma EmptyClauseIsUnlisted(p: Program, t: Table, used: set<nat>)
    requires Corridor(p, used) != {} && RanksOfMask(t, Corridor(p, used)) == {}
    ensures UnlistedBlocker(p, t)
  {
    var mask := Corridor(p, used);
    var b :| b in mask;
    var i :| i in used && 0 <= i < |p.instances| && b in BlockerBits(p.instances[i]);
    forall r | 0 <= r < |t| ensures t[r].bit != b {
      assert r !in RanksOfMask(t, mask);
    }
  }

  /** A clause disjoint from a cut that meets every held clause is not held. */
  lemma DisjointClauseIsNew(clauses: seq<Clause>, ranks: set<nat>, clause: Clause)
    requires MeetsAll(clauses, ranks) && clause * ranks == {}
    ensures clause !in clauses
  {
    forall i | 0 <= i < |clauses| ensures clauses[i] != clause {
      assert clauses[i] * ranks != {};
    }
  }

  lemma MeetsOneMore(clauses: seq<Clause>, ranks: set<nat>, clause: Clause)
    requires MeetsAll(clauses, ranks) && clause * ranks != {}
    ensures MeetsAll(clauses + [clause], ranks)
  {
  }

  lemma NecessaryOneMore(p: Program, t: Table, clauses: seq<Clause>, clause: Clause)
    requires Necessary(p, t, clauses)
    requires forall w :: SeveringLevels(p, t, w) ==> clause * CutRanks(t, w) != {}
    ensures Necessary(p, t, clauses + [clause])
  {
    forall w | SeveringLevels(p, t, w) ensures MeetsAll(clauses + [clause], CutRanks(t, w)) {
      MeetsOneMore(clauses, CutRanks(t, w), clause);
    }
  }

  lemma DistinctOneMore(clauses: seq<Clause>, clause: Clause)
    requires Distinct(clauses) && clause !in clauses
    ensures Distinct(clauses + [clause])
  {
    assert forall i :: 0 <= i < |clauses| ==> clauses[i] in clauses;
  }

  lemma {:induction false} BackedOneMore(p: Program, t: Table, clauses: seq<Clause>, clause: Clause)
    requires Backed(p, t, clauses)
    requires clause <= Range(|t|) && (clause == {} ==> UnlistedBlocker(p, t))
    ensures Backed(p, t, clauses + [clause])
  {
  }

  /** Learning from a witness found under a cut that meets every clause: the new clause is
      disjoint from that cut, so it is new, and every severing cut meets it. */
  lemma {:induction false} LearnClause(p: Program, t: Table, clauses: seq<Clause>, w: Levels, tree: Tree,
                                       clause: Clause)
    requires WellFormed(p) && WellFormedTable(t) && Learned(p, t, clauses)
    requires TaughtBy(p, t, clauses, clause, w, tree)
    ensures clause * CutRanks(t, w) == {}
    ensures clause !in clauses
    ensures Learned(p, t, clauses + [clause])
  {
    assert clause * CutRanks(t, w) == {} by {
      CorridorTheorem(p, CutMask(t, w), tree);
      MasksMeetAsRanks(t, Corridor(p, Instances(tree)), CutRanks(t, w));
    }
    DisjointClauseIsNew(clauses, CutRanks(t, w), clause);
    forall v | SeveringLevels(p, t, v) ensures clause * CutRanks(t, v) != {} {
      SeveringMeetsCorridor(p, t, CutMask(t, w), tree, v);
    }
    if clause == {} {
      EmptyClauseIsUnlisted(p, t, Instances(tree));
    }
    DistinctOneMore(clauses, clause);
    NecessaryOneMore(p, t, clauses, clause);
    BackedOneMore(p, t, clauses, clause);
    TaughtOneMore(p, t, clauses, clause);
  }

  // ---------------------------------------------------------------------------
  // One round: propose a cut
  // ---------------------------------------------------------------------------

  datatype Proposal = OutOfNodes | NoHittingSet | SelectionError | Proposed(levels: Levels)

  lemma ProposalIsLeast(q: Problem, clauses: seq<Clause>, t: Table, k: nat, w: Levels)
    requires WellFormedTable(t) && ProblemOf(q, clauses, t) && ValidProblem(q)
    requires IsOptimum(AtMax(q), Range(|q.perLevel|), q.clauses, k) && CanonicalAt(q, k, w)
    ensures LeastMeeting(t, clauses, w)
  {
    CanonicalIsLeast(q, k, w);
    HittingIsMeeting(q, clauses, t, w);
    forall v | Admissible(t, v) && MeetsAll(clauses, CutRanks(t, v)) ensures Precedes(w, v) {
      HittingIsMeeting(q, clauses, t, v);
    }
  }

  lemma InfeasibleMeansUnmet(q: Problem, clauses: seq<Clause>, t: Table)
    requires WellFormedTable(t) && ProblemOf(q, clauses, t) && ValidProblem(q)
    requires !exists controls :: controls <= Range(|q.perLevel|) && Covers(AtMax(q), controls, Range(q.clauses))
    ensures forall w :: Admissible(t, w) ==> !MeetsAll(clauses, CutRanks(t, w))
  {
    forall w | Admissible(t, w) ensures !MeetsAll(clauses, CutRanks(t, w)) {
      HittingIsMeeting(q, clauses, t, w);
      if HittingLevels(q, w) {
        LevelsHitAtMax(q, w);
      }
    }
  }

  /** What one exhaustive solve over the table's controls can cost; a round runs two. */
  function SolveCost(t: Table): (cost: nat)
    ensures cost >= 1
  {
    Pow2(|ControlsOf(t)|)
  }

  /** The fewest controls that hit every clause of a problem. */
  ghost function BestOn(q: Problem): Option<nat>
    requires ValidProblem(q)
  {
    PermittedIsValid(AtMax(q), {});
    MinCover(AtMax(q), Permitted(|q.perLevel|, {}), Range(q.clauses), 0)
  }

  lemma {:induction false} BestOnMeaning(q: Problem)
    requires ValidProblem(q)
    ensures var best := BestOn(q);
            if best.Some? then IsOptimum(AtMax(q), Range(|q.perLevel|), q.clauses, best.value)
            else IsInfeasible(AtMax(q), Range(|q.perLevel|), q.clauses)
  {
    PermittedIsValid(AtMax(q), {});
    MinCoverMeaning(AtMax(q), {}, q.clauses);
    assert Range(|q.perLevel|) - {} == Range(|q.perLevel|);
  }

  /** The nodes of one round on a problem: the solve, and the selection at the optimum it finds. */
  ghost function RoundOn(q: Problem): nat
    requires ValidProblem(q)
  {
    SolveNodes(AtMax(q), q.clauses, {}) + match BestOn(q)
                                          case None => 0
                                          case Some(k) => SelectNodes(AtMax(q), q.clauses, k)
  }

  lemma RoundOnBound(q: Problem)
    requires ValidProblem(q)
    ensures 1 <= RoundOn(q) < 2 * Pow2(|q.perLevel|)
  {
    match BestOn(q)
    case None =>
    case Some(k) => WalkNodesBound(AtMax(q), k, 0, Range(q.clauses), 0);
  }

  /** The nodes of a solve of the covering problem the clauses induce, with controls excluded. */
  ghost predicate SolveTakes(t: Table, clauses: seq<Clause>, excluded: set<nat>, nodes: nat) {
    forall q :: ProblemOf(q, clauses, t) && ValidProblem(q) ==> nodes == SolveNodes(AtMax(q), q.clauses, excluded)
  }

  ghost function MinNodes(t: Table, clauses: seq<Clause>, excluded: set<nat>): (nodes: nat)
    requires WellFormedTable(t)
    ensures SolveTakes(t, clauses, excluded, nodes) && nodes >= 1
  {
    SolveIsUnique(t, clauses, excluded);
    var nodes: nat :| SolveTakes(t, clauses, excluded, nodes) && nodes >= 1;
    nodes
  }

  lemma MinNodesBound(t: Table, clauses: seq<Clause>, excluded: set<nat>)
    requires WellFormedTable(t)
    ensures MinNodes(t, clauses, excluded) <= SolveCost(t)
  {
    var q := Induced(clauses, t);
    assert MinNodes(t, clauses, excluded) == SolveNodes(AtMax(q), q.clauses, excluded);
  }

  lemma SolveIsUnique(t: Table, clauses: seq<Clause>, excluded: set<nat>)
    requires WellFormedTable(t)
    ensures exists nodes: nat :: SolveTakes(t, clauses, excluded, nodes) && nodes >= 1
  {
    var nodes := SolveNodes(AtMax(Induced(clauses, t)), |clauses|, excluded);
    forall q | ProblemOf(q, clauses, t) ensures q == Induced(clauses, t) {
      ProblemIsInduced(q, clauses, t);
    }
    assert SolveTakes(t, clauses, excluded, nodes);
  }

  /** The nodes of a round on the covering problem the clauses induce. */
  ghost predicate RoundTakes(t: Table, clauses: seq<Clause>, nodes: nat) {
    forall q :: ProblemOf(q, clauses, t) && ValidProblem(q) ==> nodes == RoundOn(q)
  }

  ghost function RoundNodes(t: Table, clauses: seq<Clause>): (nodes: nat)
    requires WellFormedTable(t)
    ensures RoundTakes(t, clauses, nodes) && nodes >= 1
  {
    RoundIsUnique(t, clauses);
    var nodes: nat :| RoundTakes(t, clauses, nodes) && nodes >= 1;
    nodes
  }

  lemma RoundNodesBound(t: Table, clauses: seq<Clause>)
    requires WellFormedTable(t)
    ensures RoundNodes(t, clauses) <= 2 * SolveCost(t)
  {
    var q := Induced(clauses, t);
    RoundOnBound(q);
    assert RoundNodes(t, clauses) == RoundOn(q);
  }

  lemma RoundIsUnique(t: Table, clauses: seq<Clause>)
    requires WellFormedTable(t)
    ensures exists nodes: nat :: RoundTakes(t, clauses, nodes) && nodes >= 1
  {
    RoundOnBound(Induced(clauses, t));
    var nodes := RoundOn(Induced(clauses, t));
    forall q | ProblemOf(q, clauses, t) ensures q == Induced(clauses, t) {
      ProblemIsInduced(q, clauses, t);
    }
    assert RoundTakes(t, clauses, nodes);
  }

  lemma {:induction false} RoundAtOptimum(q: Problem, k: nat)
    requires ValidProblem(q) && IsOptimum(AtMax(q), Range(|q.perLevel|), q.clauses, k)
    ensures RoundOn(q) == SolveNodes(AtMax(q), q.clauses, {}) + SelectNodes(AtMax(q), q.clauses, k)
  {
    BestOnMeaning(q);
  }

  lemma {:induction false} RoundWithoutCover(q: Problem)
    requires ValidProblem(q) && IsInfeasible(AtMax(q), Range(|q.perLevel|), q.clauses)
    ensures RoundOn(q) == SolveNodes(AtMax(q), q.clauses, {})
  {
    BestOnMeaning(q);
  }

  /** The minimum-cardinality solve and the canonical selection of one round. */
  method Propose(clauses: seq<Clause>, t: Table, budget: int) returns (r: Proposal, nodes: nat)
    requires WellFormedTable(t)
    ensures !r.SelectionError?
    ensures r.Proposed? ==> LeastMeeting(t, clauses, r.levels)
    ensures r.NoHittingSet? ==> forall w :: Admissible(t, w) ==> !MeetsAll(clauses, CutRanks(t, w))
    ensures r.OutOfNodes? <==> budget < RoundNodes(t, clauses)
    ensures nodes == if r.OutOfNodes? then Reported(budget, MinNodes(t, clauses, {})) else RoundNodes(t, clauses)
  {
    var q := ControlHits(clauses, t);
    ghost var least, round := MinNodes(t, clauses, {}), RoundNodes(t, clauses);
    assert least == SolveNodes(AtMax(q), q.clauses, {});
    RoundIsAccount(q, clauses, t, least, round);
    r, nodes := SolveAndSelect(q, clauses, t, budget, least, round);
  }

  /** A proposal is the least vector that meets the clauses; none is made for want of a cut only if none
      meets them. */
  ghost predicate RightlyProposed(t: Table, clauses: seq<Clause>, r: Proposal) {
    match r
    case OutOfNodes => true
    case NoHittingSet => forall w :: Admissible(t, w) ==> !MeetsAll(clauses, CutRanks(t, w))
    case SelectionError => false
    case Proposed(w) => LeastMeeting(t, clauses, w)
  }

  /** The nodes of a round: those of the solve, and at an optimum those of the selection. */
  ghost predicate RoundAccount(q: Problem, least: nat, round: nat)
    requires ValidProblem(q)
  {
    && round >= least && (IsInfeasible(AtMax(q), Range(|q.perLevel|), q.clauses) ==> round == least)
    && forall k: nat :: IsOptimum(AtMax(q), Range(|q.perLevel|), q.clauses, k) ==>
         round == least + SelectNodes(AtMax(q), q.clauses, k)
  }

  lemma {:induction false} RoundIsAccount(q: Problem, clauses: seq<Clause>, t: Table, least: nat, round: nat)
    requires WellFormedTable(t) && ProblemOf(q, clauses, t) && ValidProblem(q)
    requires least == SolveNodes(AtMax(q), q.clauses, {}) && round == RoundNodes(t, clauses)
    ensures RoundAccount(q, least, round)
  {
    assert round == RoundOn(q);
    if IsInfeasible(AtMax(q), Range(|q.perLevel|), q.clauses) {
      RoundWithoutCover(q);
    }
    forall k: nat | IsOptimum(AtMax(q), Range(|q.perLevel|), q.clauses, k)
      ensures round == least + SelectNodes(AtMax(q), q.clauses, k)
    {
      RoundAtOptimum(q, k);
    }
  }

  lemma RoundHere(q: Problem, least: nat, round: nat, k: nat)
    requires ValidProblem(q) && RoundAccount(q, least, round)
    requires IsOptimum(AtMax(q), Range(|q.perLevel|), q.clauses, k)
    ensures round == least + SelectNodes(AtMax(q), q.clauses, k)
  {
  }

  /** The two solves of a round, over its covering problem. */
  method SolveAndSelect(q: Problem, clauses: seq<Clause>, t: Table, budget: int, ghost least: nat, ghost round: nat)
    returns (r: Proposal, nodes: nat)
    requires WellFormedTable(t) && ProblemOf(q, clauses, t) && ValidProblem(q)
    requires least == SolveNodes(AtMax(q), q.clauses, {}) && RoundAccount(q, least, round)
    ensures RightlyProposed(t, clauses, r)
    ensures (r.OutOfNodes? <==> budget < round) && nodes == if r.OutOfNodes? then Reported(budget, least) else round
  {
    var solve := MinimumCardinality(AtMax(q), |clauses|, budget, {});
    assert Range(|q.perLevel|) - {} == Range(|q.perLevel|);
    if solve.status.BudgetExhausted? {
      return OutOfNodes, solve.nodes;
    }
    if solve.status.Infeasible? {
      InfeasibleMeansUnmet(q, clauses, t);
      return NoHittingSet, solve.nodes;
    }
    RoundHere(q, least, round, solve.value.value);
    var more;
    r, more := SelectLeast(q, clauses, t, solve.value.value, budget - solve.nodes);
    nodes := solve.nodes + more;
  }

  /** The canonical selection at the optimum: the least vector, unless its walk is not afforded. */
  method SelectLeast(q: Problem, clauses: seq<Clause>, t: Table, k: nat, budget: int) returns (r: Proposal, nodes: nat)
    requires WellFormedTable(t) && ProblemOf(q, clauses, t) && ValidProblem(q) && budget >= 0
    requires IsOptimum(AtMax(q), Range(|q.perLevel|), q.clauses, k)
    ensures RightlyProposed(t, clauses, r) && !r.NoHittingSet?
    ensures r.OutOfNodes? <==> budget < SelectNodes(AtMax(q), q.clauses, k)
    ensures nodes == if r.OutOfNodes? then 0 else SelectNodes(AtMax(q), q.clauses, k)
  {
    r, nodes := OutOfNodes, 0;
    var selected := CanonicalSelect(q, k, budget);
    match selected {
      case BudgetError =>
      case Selected(levels, more) =>
        ProposalIsLeast(q, clauses, t, k, levels);
        r, nodes := Proposed(levels), more;
      case _ => r := SelectionError;
    }
  }

  // ---------------------------------------------------------------------------
  // The loop
  // ---------------------------------------------------------------------------

  /** The outcomes of `enumerate_psi`: a search result or one of its errors. */
  datatype CutSearch =
    | Search(levels: Levels, cut: Cut, clauses: seq<Clause>, severs: bool, tree: Option<Tree>,
             complete: bool, nodes: nat, budgetExhausted: bool, capHit: bool)
    | InfeasibleError
    | SelectError
    | RepeatedClauseError
    | UnhittableError

  ghost predicate Below(v: Levels, w: Levels) {
    |v| == |w| && v != w && forall k :: 0 <= k < |w| ==> v[k] <= w[k]
  }

  /** The vector meets every clause and nothing below it does: no raised control can be
      dropped or lowered. */
  ghost predicate NothingSpare(t: Table, clauses: seq<Clause>, w: Levels) {
    && Admissible(t, w)
    && MeetsAll(clauses, CutRanks(t, w))
    && forall v :: Admissible(t, v) && Below(v, w) ==> !MeetsAll(clauses, CutRanks(t, v))
  }

  /** All controls before `c` and the raised ones after it, at their tops. */
  function RestOf(t: Table, w: Levels, c: nat): (v: Levels)
    requires |w| == |ControlsOf(t)|
    ensures |v| == |w|
    ensures forall d :: 0 <= d < |v| ==>
              v[d] == if d < c || (d > c && w[d] >= 1) then |LevelsOf(t, ControlsOf(t)[d])| else 0
  {
    seq(|w|, d requires 0 <= d < |w| =>
      if d < c || (d > c && w[d] >= 1) then |LevelsOf(t, ControlsOf(t)[d])| else 0)
  }

  /** The fallback cut of a clause database. Decided from the last control down, a control is raised
      exactly when all before it, with the raised ones after it, miss a clause; and the levels are
      the least, in canonical order, that meet every clause with those controls. */
  ghost predicate IsFallback(t: Table, clauses: seq<Clause>, w: Levels) {
    && MeetsWith(t, clauses, w) && DecidedOver(t, clauses, w)
    && forall v :: MeetsWith(t, clauses, v) && Raised(v) == Raised(w) ==> Precedes(w, v)
  }

  ghost predicate MeetsWith(t: Table, clauses: seq<Clause>, v: Levels) {
    Admissible(t, v) && MeetsAll(clauses, CutRanks(t, v))
  }

  lemma HitsIsMeets(q: Problem, clauses: seq<Clause>, t: Table, v: Levels)
    requires WellFormedTable(t) && ProblemOf(q, clauses, t)
    ensures HittingLevels(q, v) <==> MeetsWith(t, clauses, v)
  {
    HittingIsMeeting(q, clauses, t, v);
  }

  lemma SameRest(q: Problem, clauses: seq<Clause>, t: Table, w: Levels, c: nat)
    requires ProblemOf(q, clauses, t) && |w| == |q.perLevel|
    ensures RestLevels(q, w, c) == RestOf(t, w, c)
  {
  }

  /** Each control decided from the last down, in either view. */
  ghost predicate DecidedOver(t: Table, clauses: seq<Clause>, w: Levels) {
    |w| == |ControlsOf(t)| && forall c: nat :: c < |w| ==> (w[c] >= 1 <==> !MeetsWith(t, clauses, RestOf(t, w, c)))
  }

  lemma {:induction false} DecidedAlike(q: Problem, clauses: seq<Clause>, t: Table, w: Levels)
    requires WellFormedTable(t) && ProblemOf(q, clauses, t)
    ensures DecidedFromLast(q, w) <==> DecidedOver(t, clauses, w)
  {
    if |w| == |q.perLevel| {
      forall c: nat | c < |w|
        ensures HittingLevels(q, RestLevels(q, w, c)) <==> MeetsWith(t, clauses, RestOf(t, w, c))
      {
        SameRest(q, clauses, t, w, c);
        HitsIsMeets(q, clauses, t, RestOf(t, w, c));
      }
    }
  }

  lemma {:induction false} FallbackMeets(q: Problem, clauses: seq<Clause>, t: Table, w: Levels)
    requires WellFormedTable(t) && ProblemOf(q, clauses, t) && FallbackLevels(q, w)
    ensures IsFallback(t, clauses, w)
  {
    HitsIsMeets(q, clauses, t, w);
    DecidedAlike(q, clauses, t, w);
    forall v | MeetsWith(t, clauses, v) && Raised(v) == Raised(w) ensures Precedes(w, v) {
      HitsIsMeets(q, clauses, t, v);
    }
  }

  lemma {:induction false} FallbackHits(q: Problem, clauses: seq<Clause>, t: Table, w: Levels)
    requires WellFormedTable(t) && ProblemOf(q, clauses, t) && IsFallback(t, clauses, w)
    ensures FallbackLevels(q, w)
  {
    HitsIsMeets(q, clauses, t, w);
    DecidedAlike(q, clauses, t, w);
    forall v | HittingLevels(q, v) && Raised(v) == Raised(w) ensures Precedes(w, v) {
      HitsIsMeets(q, clauses, t, v);
    }
  }

  /** A clause database has one fallback cut. */
  lemma {:induction false} FallbackIsDetermined(t: Table, clauses: seq<Clause>, v: Levels, w: Levels)
    requires WellFormedTable(t) && IsFallback(t, clauses, v) && IsFallback(t, clauses, w)
    ensures v == w
  {
    var q := Induced(clauses, t);
    FallbackHits(q, clauses, t, v);
    FallbackHits(q, clauses, t, w);
    FallbackIsUnique(q, v, w);
  }

  lemma DroppingFails(q: Problem, w: Levels, v: Levels, k: nat)
    requires ValidProblem(q) && SubsetMinimal(q, w) && Below(v, w) && ValidLevels(q, v)
    requires k < |w| && v[k] == 0 < w[k]
    ensures !HittingLevels(q, v)
  {
    if HitsEvery(q, Raised(v), v) {
      HitsEveryMonotone(q, Raised(v), v, Without(Raised(w), k), w);
    }
  }

  lemma LoweringFails(q: Problem, w: Levels, v: Levels, k: nat)
    requires ValidProblem(q) && SubsetMinimal(q, w) && Below(v, w) && ValidLevels(q, v)
    requires k < |w| && 0 < v[k] < w[k]
    ensures !HittingLevels(q, v)
  {
    var lower := w[k := w[k] - 1];
    assert k in Raised(w) && !HitsEvery(q, Raised(w), lower);
    if HitsEvery(q, Raised(v), v) {
      HitsEveryMonotone(q, Raised(v), v, Raised(w), lower);
    }
  }

  lemma SubsetMinimalBelow(q: Problem, w: Levels, v: Levels)
    requires ValidProblem(q) && SubsetMinimal(q, w) && Below(v, w) && ValidLevels(q, v)
    ensures !HittingLevels(q, v)
  {
    var k: nat :| k < |w| && v[k] != w[k];
    if v[k] == 0 {
      DroppingFails(q, w, v, k);
    } else {
      LoweringFails(q, w, v, k);
    }
  }

  lemma SubsetMinimalHasNothingSpare(q: Problem, clauses: seq<Clause>, t: Table, w: Levels)
    requires WellFormedTable(t) && ProblemOf(q, clauses, t) && ValidProblem(q) && SubsetMinimal(q, w)
    ensures NothingSpare(t, clauses, w)
  {
    HittingIsMeeting(q, clauses, t, w);
    forall v | Admissible(t, v) && Below(v, w) ensures !MeetsAll(clauses, CutRanks(t, v)) {
      HittingIsMeeting(q, clauses, t, v);
      SubsetMinimalBelow(q, w, v);
    }
  }

  /** Every nonempty clause over the table is met by the whole universe. */
  lemma {:induction false} UniverseMeets(p: Program, t: Table, clauses: seq<Clause>, w: Levels)
    requires WellFormedTable(t) && Backed(p, t, clauses) && !UnlistedBlocker(p, t)
    requires |w| == |ControlsOf(t)| && forall k :: 0 <= k < |w| ==> w[k] == |LevelsOf(t, ControlsOf(t)[k])|
    ensures Admissible(t, w) && MeetsAll(clauses, CutRanks(t, w))
  {
    forall i | 0 <= i < |clauses| ensures clauses[i] * CutRanks(t, w) != {} {
      var r :| r in clauses[i];
      assert r in Range(|t|);
      LiteralAt(t, r);
      assert r in CutRanks(t, w);
    }
  }

  lemma UnmetMeansUnlisted(p: Program, t: Table, clauses: seq<Clause>)
    requires WellFormedTable(t) && Learned(p, t, clauses)
    requires forall w :: Admissible(t, w) ==> !MeetsAll(clauses, CutRanks(t, w))
    ensures UnlistedBlocker(p, t)
    ensures forall w :: Admissible(t, w) ==> !SeveringLevels(p, t, w)
  {
    if !UnlistedBlocker(p, t) {
      var w := seq(|ControlsOf(t)|, k requires 0 <= k < |ControlsOf(t)| => |LevelsOf(t, ControlsOf(t)[k])|);
      UniverseMeets(p, t, clauses, w);
    }
  }

  /** What testing a proposed cut teaches. */
  datatype Lesson = Severed | Unblockable(tree: Tree) | NewClause(clause: Clause)

  lemma {:induction false} NoCutSevers(p: Program, cut: Mask, tree: Tree)
    requires WellFormed(p) && ValidTree(p, cut, tree) && tree.head in p.goals
    requires Corridor(p, Instances(tree)) == {}
    ensures forall other: Mask :: !Severs(p, other)
  {
    CorridorTheorem(p, cut, tree);
  }

  /** Reachability under the cut and, when the goal survives, the corridor of its witness. */
  method TestCut(p: Program, t: Table, ghost clauses: seq<Clause>, ghost w: Levels, mask: Mask) returns (r: Lesson)
    requires WellFormed(p) && WellFormedTable(t) && Learned(p, t, clauses)
    requires LeastMeeting(t, clauses, w) && mask == CutMask(t, w)
    ensures r.Severed? <==> Severs(p, mask)
    ensures r.Unblockable? ==>
              Leaves(p, mask, r.tree) && ValidTree(p, mask, r.tree) && r.tree.head in p.goals
    ensures r.Unblockable? ==> Corridor(p, Instances(r.tree)) == {} && forall cut: Mask :: !Severs(p, cut)
    ensures r.NewClause? ==>
              r.clause !in clauses && r.clause * CutRanks(t, w) == {} && Learned(p, t, clauses + [r.clause])
  {
    var reached := Reach(p, mask);
    if !reached.derivable {
      return Severed;
    }
    var tree := WitnessTree(p, mask, reached);
    var corridor := WitnessMask(p, tree.value);
    if corridor == {} {
      NoCutSevers(p, mask, tree.value);
      return Unblockable(tree.value);
    }
    var clause := RanksOfMask(t, corridor);
    assert TaughtBy(p, t, clauses, clause, w, tree.value);
    LearnClause(p, t, clauses, w, tree.value, clause);
    return NewClause(clause);
  }

  // ---------------------------------------------------------------------------
  // The result
  // ---------------------------------------------------------------------------

  /** The cut severs, and no severing cut comes before it in canonical order: none raises
      fewer controls, none as many with a smaller control vector, none the same controls at
      smaller levels. */
  ghost predicate CanonicalOptimum(p: Program, t: Table, w: Levels) {
    SeveringLevels(p, t, w) && forall v :: SeveringLevels(p, t, v) ==> Precedes(w, v)
  }

  ghost predicate Renders(t: Table, w: Levels, cut: Cut) {
    && Admissible(t, w)
    && cut.mask == CutMask(t, w)
    && cut.cardinality == |Raised(w)|
    && (forall i, j :: 0 <= i < j < |cut.atoms| ==> cut.atoms[i].rank < cut.atoms[j].rank)
    && UpwardClosed(t, cut.atoms)
    && forall a :: a in cut.atoms <==> a in t && Asserts(ControlsOf(t), w, a)
  }

  /** Every claim a finished search makes. */
  ghost predicate Sound(p: Program, t: Table, r: CutSearch)
    requires r.Search?
  {
    && Learned(p, t, r.clauses)
    && Renders(t, r.levels, r.cut)
    && (r.severs <==> Severs(p, r.cut.mask))
    && (r.tree.None? <==> r.severs)
    && (r.tree.Some? ==>
            Leaves(p, r.cut.mask, r.tree.value)
            && ValidTree(p, r.cut.mask, r.tree.value) && r.tree.value.head in p.goals)
    && (r.complete <==> !r.budgetExhausted && !r.capHit)
    && r.cut.minimality == (if !r.complete then SubsetOnly else if r.severs then ExactPsiRelative else Unverified)
    && (if r.complete then LeastMeeting(t, r.clauses, r.levels)
        else NothingSpare(t, r.clauses, r.levels) && IsFallback(t, r.clauses, r.levels))
    && (r.complete && r.severs ==> CanonicalOptimum(p, t, r.levels))
    && (r.complete && !r.severs ==>
            Corridor(p, Instances(r.tree.value)) == {} && forall cut: Mask :: !Severs(p, cut))
  }

  /** No cut over the table meets the clauses, which takes a blocker the table does not list; so none
      severs. */
  ghost predicate Barren(p: Program, t: Table, clauses: seq<Clause>) {
    && (forall w :: Admissible(t, w) ==> !MeetsAll(clauses, CutRanks(t, w)))
    && UnlistedBlocker(p, t) && forall w :: !SeveringLevels(p, t, w)
  }

  /** The cap-and-budget fallback. */
  method FallBack(p: Program, t: Table, clauses: seq<Clause>, nodes: nat, budgetExhausted: bool, capHit: bool)
    returns (r: CutSearch)
    requires WellFormed(p) && WellFormedTable(t) && Learned(p, t, clauses)
    requires budgetExhausted || capHit
    ensures r.Search? ==> Sound(p, t, r) && r.nodes == nodes && r.clauses == clauses
    ensures r.Search? ==> r.budgetExhausted == budgetExhausted && r.capHit == capHit
    ensures !r.Search? ==> r.UnhittableError? && Barren(p, t, clauses)
  {
    var q := ControlHits(clauses, t);
    var levels := SelectSubsetMinimal(q);
    if levels.None? {
      FallBackFails(p, t, q, clauses);
      return UnhittableError;
    }
    SubsetMinimalHasNothingSpare(q, clauses, t, levels.value);
    FallbackMeets(q, clauses, t, levels.value);
    var cut := CutOfLevels(t, levels.value, SubsetOnly);
    var severs, tree := Survivor(p, cut.mask);
    r := Search(levels.value, cut, clauses, severs, tree, false, nodes, budgetExhausted, capHit);
  }

  /** Whether the cut severs, and otherwise the witness it leaves. */
  method Survivor(p: Program, mask: Mask) returns (severs: bool, tree: Option<Tree>)
    ensures (severs <==> Severs(p, mask)) && (tree.None? <==> severs)
    ensures tree.Some? ==> Leaves(p, mask, tree.value) && ValidTree(p, mask, tree.value) && tree.value.head in p.goals
  {
    var reached := Reach(p, mask);
    severs, tree := !reached.derivable, None;
    if reached.derivable {
      tree := WitnessTree(p, mask, reached);
    }
  }

  lemma FallBackFails(p: Program, t: Table, q: Problem, clauses: seq<Clause>)
    requires WellFormedTable(t) && Learned(p, t, clauses) && ProblemOf(q, clauses, t) && ValidProblem(q)
    requires !Covers(AtMax(q), Range(|q.perLevel|), Range(q.clauses))
    ensures Barren(p, t, clauses)
  {
    forall controls | controls <= Range(|q.perLevel|) ensures !Covers(AtMax(q), controls, Range(q.clauses)) {
      if Covers(AtMax(q), controls, Range(q.clauses)) {
        CoversMonotone(AtMax(q), controls, Range(|q.perLevel|), Range(q.clauses));
      }
    }
    InfeasibleMeansUnmet(q, clauses, t);
    UnmetMeansUnlisted(p, t, clauses);
  }

  /** A severing proposal is the canonical optimum over all severing cuts, because every one
      of them meets every learned clause. */
  lemma LeastMeetingIsOptimum(p: Program, t: Table, clauses: seq<Clause>, w: Levels)
    requires Learned(p, t, clauses) && LeastMeeting(t, clauses, w) && Severs(p, CutMask(t, w))
    ensures CanonicalOptimum(p, t, w)
  {
    forall v | SeveringLevels(p, t, v) ensures Precedes(w, v) {
      assert MeetsAll(clauses, CutRanks(t, v));
    }
  }

  /** The nodes of the rounds that learned the first `n` clauses. */
  ghost function TotalNodes(t: Table, clauses: seq<Clause>, n: nat): nat
    requires WellFormedTable(t) && n <= |clauses|
  {
    if n == 0 then 0 else TotalNodes(t, clauses, n - 1) + RoundNodes(t, clauses[..n - 1])
  }

  lemma {:induction false} TotalNodesPrefix(t: Table, clauses: seq<Clause>, clause: Clause, n: nat)
    requires WellFormedTable(t) && n <= |clauses|
    ensures TotalNodes(t, clauses + [clause], n) == TotalNodes(t, clauses, n)
    decreases n
  {
    if n > 0 {
      TotalNodesPrefix(t, clauses, clause, n - 1);
      assert (clauses + [clause])[..n - 1] == clauses[..n - 1];
    }
  }

  lemma {:induction false} TotalNodesNext(t: Table, clauses: seq<Clause>, clause: Clause)
    requires WellFormedTable(t)
    ensures TotalNodes(t, clauses + [clause], |clauses| + 1)
         == TotalNodes(t, clauses, |clauses|) + RoundNodes(t, clauses)
  {
    TotalNodesPrefix(t, clauses, clause, |clauses|);
    assert (clauses + [clause])[..|clauses|] == clauses;
  }

  lemma {:induction false} TotalNodesBound(t: Table, clauses: seq<Clause>, n: nat)
    requires WellFormedTable(t) && n <= |clauses|
    ensures TotalNodes(t, clauses, n) <= n * (2 * SolveCost(t))
    decreases n
  {
    if n > 0 {
      TotalNodesBound(t, clauses, n - 1);
      RoundNodesBound(t, clauses[..n - 1]);
      OneMore(n - 1, 2 * SolveCost(t));
    }
  }

  /** The node account of a search, to the node: the rounds that learned its clauses were afforded;
      the budget ran out in the next round if and only if it could not afford that one too. */
  ghost predicate Metered(t: Table, budget: int, r: CutSearch)
    requires WellFormedTable(t) && r.Search?
  {
    var spent := TotalNodes(t, r.clauses, |r.clauses|);
    && spent <= Affordable(budget)
    && (r.budgetExhausted <==> !r.capHit && budget < spent + RoundNodes(t, r.clauses))
    && r.nodes == spent + if r.capHit then 0
                          else if r.budgetExhausted then Reported(budget - spent, MinNodes(t, r.clauses, {}))
                          else RoundNodes(t, r.clauses)
  }

  /** A metered search passes the budget by one node at most, and runs out only of one too small. */
  lemma {:induction false} MeteredWithin(t: Table, budget: int, r: CutSearch)
    requires WellFormedTable(t) && r.Search? && Metered(t, budget, r)
    ensures r.nodes <= if budget <= 0 then 0 else budget + 1
    ensures r.budgetExhausted ==> budget < (|r.clauses| + 1) * (2 * SolveCost(t))
  {
    TotalNodesBound(t, r.clauses, |r.clauses|);
    RoundNodesBound(t, r.clauses);
    OneMore(|r.clauses|, 2 * SolveCost(t));
  }

  /** What the loop promises of its result. */
  ghost predicate Promised(p: Program, t: Table, budget: int, cap: int, r: CutSearch)
    requires WellFormedTable(t)
  {
    if r.Search? then Sound(p, t, r) && Metered(t, budget, r) && Counted(cap, r)
    else Hopeless(p, t, budget, cap, r)
  }

  /** The clauses stay below the cap, or reach it exactly. */
  ghost predicate Counted(cap: int, r: CutSearch)
    requires r.Search?
  {
    if r.capHit then AtCap(cap, r.clauses) else r.clauses == [] || |r.clauses| < cap
  }

  /** The two errors of a table that lists too little to meet what was learned: one when the solver finds
      out, the other when the cap or the budget comes first. The other errors do not arise. */
  ghost predicate Hopeless(p: Program, t: Table, budget: int, cap: int, r: CutSearch)
    requires WellFormedTable(t)
  {
    (r.InfeasibleError? || r.UnhittableError?) && exists clauses :: Stuck(p, t, budget, cap, clauses, r)
  }

  ghost predicate Stuck(p: Program, t: Table, budget: int, cap: int, clauses: seq<Clause>, r: CutSearch)
    requires WellFormedTable(t)
  {
    && Barren(p, t, clauses) && Extends(p, t, budget, clauses, TotalNodes(t, clauses, |clauses|))
    && (AtCap(cap, clauses) || clauses == [] || |clauses| < cap)
    && (r.UnhittableError? <==>
          AtCap(cap, clauses) || budget < TotalNodes(t, clauses, |clauses|) + RoundNodes(t, clauses))
  }

  predicate AtCap(cap: int, clauses: seq<Clause>) {
    |clauses| == if cap <= 1 then 1 else cap
  }

  /** One pass of the loop either finishes the search or learns one clause. */
  datatype Round = Finished(r: CutSearch) | Learnt(clause: Clause, nodes: nat)

  /** The state of the loop: clauses learned below the cap, at exactly the nodes of their rounds. */
  ghost predicate Underway(p: Program, t: Table, budget: int, cap: int, clauses: seq<Clause>, nodes: nat)
    requires WellFormedTable(t)
  {
    Extends(p, t, budget, clauses, nodes) && (clauses == [] || |clauses| < cap)
  }

  ghost predicate Extends(p: Program, t: Table, budget: int, clauses: seq<Clause>, nodes: nat)
    requires WellFormedTable(t)
  {
    Learned(p, t, clauses) && nodes == TotalNodes(t, clauses, |clauses|) <= Affordable(budget)
  }

  lemma {:induction false} Extended(p: Program, t: Table, budget: int, clauses: seq<Clause>, nodes: nat, clause: Clause,
                                    more: nat)
    requires WellFormedTable(t) && nodes == TotalNodes(t, clauses, |clauses|) && clause !in clauses
    requires Learned(p, t, clauses + [clause]) && more == nodes + RoundNodes(t, clauses) <= budget
    ensures Extends(p, t, budget, clauses + [clause], more)
    ensures Unlearned(t, clauses + [clause]) < Unlearned(t, clauses)
    ensures Elements(clauses + [clause]) == Elements(clauses) + {clause}
  {
    LearnedIsListed(p, t, clauses, clause);
    LearningShrinks(t, clauses, clause);
    TotalNodesNext(t, clauses, clause);
  }

  method FinishRound(p: Program, t: Table, budget: int, cap: int, clauses: seq<Clause>, levels: Levels, nodes: nat)
    returns (next: Round)
    requires WellFormed(p) && WellFormedTable(t) && Learned(p, t, clauses) && LeastMeeting(t, clauses, levels)
    requires (clauses == [] || |clauses| < cap) && nodes <= budget
    requires nodes == TotalNodes(t, clauses, |clauses|) + RoundNodes(t, clauses)
    ensures next.Finished? ==> Promised(p, t, budget, cap, next.r)
    ensures next.Learnt? ==> next.nodes == nodes && next.clause !in clauses && Learned(p, t, clauses + [next.clause])
  {
    var cut := CutOfLevels(t, levels, ExactPsiRelative);
    var lesson := TestCut(p, t, clauses, levels, cut.mask);
    match lesson {
      case Severed =>
        LeastMeetingIsOptimum(p, t, clauses, levels);
        return Finished(Search(levels, cut, clauses, true, None, true, nodes, false, false));
      case Unblockable(tree) =>
        return Finished(Search(levels, cut.(minimality := Unverified), clauses, false, Some(tree), true, nodes, false,
                               false));
      case NewClause(clause) =>
        return Learnt(clause, nodes);
    }
  }

  lemma OneMore(n: nat, cost: nat)
    ensures (n + 1) * cost == n * cost + cost
  {
  }

  /** A fallback because the budget could not afford the next round keeps the promises. */
  lemma RanOut(p: Program, t: Table, budget: int, cap: int, clauses: seq<Clause>, nodes: nat, spent: nat, r: CutSearch)
    requires WellFormedTable(t) && Underway(p, t, budget, cap, clauses, nodes)
    requires budget - nodes < RoundNodes(t, clauses) && spent == Reported(budget - nodes, MinNodes(t, clauses, {}))
    requires r.Search? ==> Sound(p, t, r) && r.nodes == nodes + spent && r.clauses == clauses
    requires r.Search? ==> r.budgetExhausted && !r.capHit
    requires !r.Search? ==> r.UnhittableError? && Barren(p, t, clauses)
    ensures Promised(p, t, budget, cap, r)
  {
    if !r.Search? {
      assert Stuck(p, t, budget, cap, clauses, r);
    }
  }

  /** So does the error of a solver that finds no cut over the clauses. */
  lemma SolverStuck(p: Program, t: Table, budget: int, cap: int, clauses: seq<Clause>, nodes: nat, r: CutSearch)
    requires WellFormedTable(t) && Underway(p, t, budget, cap, clauses, nodes) && r.InfeasibleError?
    requires budget - nodes >= RoundNodes(t, clauses) && !AtCap(cap, clauses)
    requires forall w :: Admissible(t, w) ==> !MeetsAll(clauses, CutRanks(t, w))
    ensures Promised(p, t, budget, cap, r)
  {
    UnmetMeansUnlisted(p, t, clauses);
    assert Stuck(p, t, budget, cap, clauses, r);
  }

  /** So does one because the cap was reached. */
  lemma CapReached(p: Program, t: Table, budget: int, cap: int, clauses: seq<Clause>, nodes: nat, r: CutSearch)
    requires WellFormedTable(t) && Extends(p, t, budget, clauses, nodes) && AtCap(cap, clauses)
    requires r.Search? ==> Sound(p, t, r) && r.nodes == nodes && r.clauses == clauses
    requires r.Search? ==> !r.budgetExhausted && r.capHit
    requires !r.Search? ==> r.UnhittableError? && Barren(p, t, clauses)
    ensures Promised(p, t, budget, cap, r)
  {
    if !r.Search? {
      assert Stuck(p, t, budget, cap, clauses, r);
    }
  }

  method RunRound(p: Program, t: Table, budget: int, cap: int, clauses: seq<Clause>, nodes: nat) returns (next: Round)
    requires WellFormed(p) && WellFormedTable(t) && Underway(p, t, budget, cap, clauses, nodes)
    ensures next.Finished? ==> Promised(p, t, budget, cap, next.r)
    ensures next.Learnt? ==> next.clause !in clauses && Learned(p, t, clauses + [next.clause])
    ensures next.Learnt? ==> next.nodes == nodes + RoundNodes(t, clauses) <= budget
  {
    var proposal, spent := Propose(clauses, t, budget - nodes);
    match proposal {
      case OutOfNodes =>
        var fallback := FallBack(p, t, clauses, nodes + spent, true, false);
        RanOut(p, t, budget, cap, clauses, nodes, spent, fallback);
        return Finished(fallback);
      case NoHittingSet =>
        SolverStuck(p, t, budget, cap, clauses, nodes, InfeasibleError);
        return Finished(InfeasibleError);
      case SelectionError =>
        return Finished(SelectError);
      case Proposed(levels) =>
        next := FinishRound(p, t, budget, cap, clauses, levels, nodes + spent);
    }
  }

  /** All clauses a table can teach and has not taught: the measure of the loop. */
  ghost function Unlearned(t: Table, clauses: seq<Clause>): set<Clause> {
    (set c | c <= Range(|t|)) - Elements(clauses)
  }

  lemma {:induction false} LearnedIsListed(p: Program, t: Table, clauses: seq<Clause>, clause: Clause)
    requires Learned(p, t, clauses + [clause])
    ensures clause <= Range(|t|)
  {
    assert (clauses + [clause])[|clauses|] == clause;
  }

  lemma {:induction false} LearningShrinks(t: Table, clauses: seq<Clause>, clause: Clause)
    requires clause <= Range(|t|) && clause !in clauses
    ensures Unlearned(t, clauses + [clause]) < Unlearned(t, clauses)
    ensures Elements(clauses + [clause]) == Elements(clauses) + {clause}
  {
    var longer := clauses + [clause];
    assert longer[|clauses|] == clause;
    assert forall c :: c in longer <==> c in clauses || c == clause;
    assert clause in Unlearned(t, clauses) && clause !in Unlearned(t, longer);
  }

  /** The cap is reached: the search ends with a fallback cut. */
  method StopAtCap(p: Program, t: Table, budget: int, cap: int, clauses: seq<Clause>, nodes: nat) returns (r: CutSearch)
    requires WellFormed(p) && WellFormedTable(t) && Extends(p, t, budget, clauses, nodes)
    requires AtCap(cap, clauses)
    ensures Promised(p, t, budget, cap, r)
  {
    r := FallBack(p, t, clauses, nodes, false, true);
    CapReached(p, t, budget, cap, clauses, nodes, r);
  }

  /** The corridor loop. */
  method EnumeratePsi(p: Program, t: Table, budget: int, cap: int) returns (r: CutSearch)
    requires WellFormed(p) && WellFormedTable(t)
    ensures Promised(p, t, budget, cap, r)
  {
    var clauses: seq<Clause>, seen: set<Clause>, nodes: nat := [], {}, 0;
    while true
      invariant Extends(p, t, budget, clauses, nodes) && (clauses == [] || |clauses| < cap)
      invariant seen == Elements(clauses)
      decreases Unlearned(t, clauses)
    {
      var next := RunRound(p, t, budget, cap, clauses, nodes);
      if next.Finished? {
        return next.r;
      }
      if next.clause in seen {
        return RepeatedClauseError;
      }
      Extended(p, t, budget, clauses, nodes, next.clause, next.nodes);
      seen, clauses, nodes := seen + {next.clause}, clauses + [next.clause], next.nodes;
      if |clauses| >= cap {
        r := StopAtCap(p, t, budget, cap, clauses, nodes);
        return;
      }
    }
  }

  /** Two to the number of literals bounds the sets of ranks. */
  lemma {:induction false} SubsetCount(n: nat, family: set<Clause>)
    requires forall c :: c in family ==> c <= Range(n)
    ensures |family| <= Pow2(n)
    decreases n
  {
    if n == 0 {
      forall c | c in family ensures c == {} {
        NothingBelowZero(c);
      }
      var empty: Clause := {};
      SubsetSize(family, {empty});
    } else {
      var holding := set c | c in family && n - 1 in c;
      var trimmed := set c | c in holding :: c - {n - 1};
      TrimmedSize(holding, trimmed, n - 1);
      forall c | c in family - holding ensures c <= Range(n - 1) {
        BelowTop(c, n);
      }
      forall c | c in holding ensures c - {n - 1} <= Range(n - 1) {
        BelowTop(c - {n - 1}, n);
      }
      SubsetCount(n - 1, family - holding);
      SubsetCount(n - 1, trimmed);
      SplitSize(family, holding);
      assert family * holding == holding;
    }
  }

  lemma NothingBelowZero(c: Clause)
    requires c <= Range(0)
    ensures c == {}
  {
  }

  lemma BelowTop(c: Clause, n: nat)
    requires n > 0 && c <= Range(n) && n - 1 !in c
    ensures c <= Range(n - 1)
  {
  }

  lemma SameTrimmed(c: Clause, d: Clause, x: nat)
    requires x in c && x in d && c - {x} == d - {x}
    ensures c == d
  {
    assert c == (c - {x}) + {x} && d == (d - {x}) + {x};
  }

  lemma {:induction false} TrimmedSize(family: set<Clause>, trimmed: set<Clause>, x: nat)
    requires forall c :: c in family ==> x in c
    requires trimmed == set c | c in family :: c - {x}
    ensures |trimmed| == |family|
    decreases family
  {
    if family != {} {
      var c :| c in family;
      var rest := family - {c};
      var small := set d | d in rest :: d - {x};
      TrimmedSize(rest, small, x);
      forall d | d in rest ensures d - {x} != c - {x} {
        if d - {x} == c - {x} {
          SameTrimmed(c, d, x);
        }
      }
      assert trimmed == small + {c - {x}};
    }
  }

  lemma {:induction false} ClausesFewerThanSubsets(t: Table, clauses: seq<Clause>)
    requires Distinct(clauses) && {} !in clauses && forall i :: 0 <= i < |clauses| ==> clauses[i] <= Range(|t|)
    ensures |clauses| + 1 <= Pow2(|t|)
  {
    ElementsSize(clauses);
    SubsetCount(|t|, Elements(clauses) + {{}});
  }

  lemma {:induction false} FallbackClausesFew(p: Program, t: Table, clauses: seq<Clause>, w: Levels)
    requires Learned(p, t, clauses) && NothingSpare(t, clauses, w)
    ensures |clauses| + 1 <= Pow2(|t|)
  {
    assert MeetsAll(clauses, CutRanks(t, w));
    assert {} !in clauses;
    ClausesFewerThanSubsets(t, clauses);
  }

  /** With room for every clause the table can teach and every node a solve can take, the
      search never falls back. */
  lemma {:induction false} EnoughRoomIsComplete(p: Program, t: Table, budget: int, cap: int, r: CutSearch)
    requires WellFormedTable(t) && r.Search? && Promised(p, t, budget, cap, r)
    requires cap >= Pow2(|t|) && budget >= Pow2(|t|) * (2 * SolveCost(t))
    ensures !r.cut.minimality.SubsetOnly? && r.complete
  {
    if r.cut.minimality.SubsetOnly? {
      FallbackClausesFew(p, t, r.clauses, r.levels);
      MeteredWithin(t, budget, r);
      StopTooSoon(|r.clauses|, Pow2(|t|), 2 * SolveCost(t), budget, cap, r);
    }
  }

  /** With fewer clauses than the bound neither the cap nor the budget has stopped the search. */
  lemma StopTooSoon(n: nat, bound: nat, each: nat, budget: int, cap: int, r: CutSearch)
    requires r.Search? && n == |r.clauses| && n + 1 <= bound && Counted(cap, r) && cap >= bound
    requires budget >= bound * each && (r.budgetExhausted ==> budget < (n + 1) * each)
    ensures !r.budgetExhausted && !r.capHit
  {
    TimesMonotone(n + 1, bound, each);
  }

  /** Two exact searches of one program report the same cut, whatever order they learned their
      clauses in and whatever witnesses taught them. */
  lemma ExactSearchesAgree(p: Program, t: Table, a: CutSearch, b: CutSearch)
    requires a.Search? && b.Search? && Sound(p, t, a) && Sound(p, t, b)
    requires a.cut.minimality.ExactPsiRelative? && b.cut.minimality.ExactPsiRelative?
    ensures a.levels == b.levels && a.cut.mask == b.cut.mask && a.cut.cardinality == b.cut.cardinality
  {
    PrecedesAntisymmetric(a.levels, b.levels);
  }

  /** Nothing below a fallback cut severs the goal: its every control is needed. */
  lemma FallbackIsSubsetMinimal(p: Program, t: Table, r: CutSearch, v: Levels)
    requires r.Search? && Sound(p, t, r) && r.cut.minimality.SubsetOnly?
    requires Admissible(t, v) && Below(v, r.levels)
    ensures !Severs(p, CutMask(t, v))
  {
    assert Necessary(p, t, r.clauses);
    assert SeveringLevels(p, t, v) <==> Severs(p, CutMask(t, v));
  }
}
