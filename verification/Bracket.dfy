/** The two-sided bracket (premium.py, `two_sided_bracket`): one search over the observed
    program, one over the program with licensed silent instances added, and what the pair of
    results says together.
 */
module Bracket {
  import opened Wrappers
  import opened Reachability
  import opened Selection
  import opened AtomTables
  import opened Corridors
  import opened Premium

  // ---------------------------------------------------------------------------
  // When the upper program derives all the lower one derives
  // ---------------------------------------------------------------------------

  /** Every instance of the lower program is in the upper one, and the goals agree. */
  ghost predicate Contained(lo: Program, hi: Program) {
    && lo.goals == hi.goals
    && forall i :: 0 <= i < |lo.instances| ==> lo.instances[i] in hi.instances
  }

  /** Every literal that blocks anything: the strongest cut there is. */
  ghost function AllBlockers(p: Program): Mask {
    set i, b | 0 <= i < |p.instances| && b in BlockerBits(p.instances[i]) :: b
  }

  /** The lower axioms are still derivable in the upper program under the strongest cut: one
      fixpoint run decides it. */
  ghost predicate AxiomsSurvive(lo: Program, hi: Program) {
    forall a :: a in lo.axioms ==> Derivable(hi, AllBlockers(hi), a)
  }

  ghost predicate DerivesMore(lo: Program, hi: Program) {
    forall cut: Mask, f: Fact :: Derivable(lo, cut, f) ==> Derivable(hi, cut, f)
  }

  ghost function SomeTree(p: Program, cut: Mask, f: Fact): (t: Tree)
    requires Derivable(p, cut, f)
    ensures Derives(p, cut, f, t)
  {
    var t :| Derives(p, cut, f, t);
    t
  }

  lemma DerivableByInstance(p: Program, cut: Mask, i: nat)
    requires i < |p.instances| && !Blocked(p.instances[i], cut)
    requires forall k :: 0 <= k < |p.instances[i].body| ==> Derivable(p, cut, p.instances[i].body[k])
    ensures Derivable(p, cut, p.instances[i].head)
  {
    var body := p.instances[i].body;
    var children := seq(|body|, k requires 0 <= k < |body| => SomeTree(p, cut, body[k]));
    assert forall k :: 0 <= k < |body| ==> Derives(p, cut, body[k], children[k]);
    assert Derives(p, cut, p.instances[i].head, Node(p.instances[i].head, i, children));
  }

  lemma {:induction false} ContainedDerives(lo: Program, hi: Program, cut: Mask, t: Tree)
    requires Contained(lo, hi) && ValidTree(lo, cut, t)
    requires forall a :: a in lo.axioms ==> Derivable(hi, cut, a)
    ensures Derivable(hi, cut, t.head)
    decreases t
  {
    match t
    case Leaf(_) =>
    case Node(f, i, cs) =>
      var j :| 0 <= j < |hi.instances| && hi.instances[j] == lo.instances[i];
      forall k | 0 <= k < |cs| ensures Derivable(hi, cut, lo.instances[i].body[k]) {
        ContainedDerives(lo, hi, cut, cs[k]);
      }
      DerivableByInstance(hi, cut, j);
  }

  /** What survives the strongest cut uses no blockable instance, so it survives every cut. */
  lemma {:induction false} SurvivesEveryCut(p: Program, cut: Mask, t: Tree)
    requires WellFormed(p) && ValidTree(p, AllBlockers(p), t)
    ensures ValidTree(p, cut, t)
    decreases t
  {
    match t
    case Leaf(_) =>
    case Node(f, i, cs) =>
      BlockedIsMeeting(p, i, AllBlockers(p));
      BlockedIsMeeting(p, i, cut);
      assert forall b :: b in BlockerBits(p.instances[i]) ==> b in AllBlockers(p);
      assert BlockerBits(p.instances[i]) * AllBlockers(p) == BlockerBits(p.instances[i]);
      forall k | 0 <= k < |cs| ensures ValidTree(p, cut, cs[k]) {
        SurvivesEveryCut(p, cut, cs[k]);
      }
  }

  /** For contained programs, the upper one derives everything the lower one does under every
      cut exactly when the lower axioms survive the strongest cut. */
  lemma DerivesMoreIffAxiomsSurvive(lo: Program, hi: Program)
    requires WellFormed(hi) && Contained(lo, hi)
    ensures DerivesMore(lo, hi) <==> AxiomsSurvive(lo, hi)
  {
    if AxiomsSurvive(lo, hi) {
      forall cut: Mask, f: Fact | Derivable(lo, cut, f) ensures Derivable(hi, cut, f) {
        var t := SomeTree(lo, cut, f);
        forall a | a in lo.axioms ensures Derivable(hi, cut, a) {
          var s := SomeTree(hi, AllBlockers(hi), a);
          SurvivesEveryCut(hi, cut, s);
          assert Derives(hi, cut, a, s);
        }
        ContainedDerives(lo, hi, cut, t);
      }
    }
    if DerivesMore(lo, hi) {
      forall a | a in lo.axioms ensures Derivable(hi, AllBlockers(hi), a) {
        assert Derives(lo, AllBlockers(hi), a, Leaf(a));
        assert Derivable(lo, AllBlockers(hi), a);
      }
    }
  }

  lemma SeversDownward(lo: Program, hi: Program, cut: Mask)
    requires DerivesMore(lo, hi) && lo.goals == hi.goals && Severs(hi, cut)
    ensures Severs(lo, cut)
  {
    forall g | g in lo.goals ensures !Derivable(lo, cut, g) {
      assert Derivable(lo, cut, g) ==> Derivable(hi, cut, g);
    }
  }

  // ---------------------------------------------------------------------------
  // The bracket
  // ---------------------------------------------------------------------------

  /** Run the cut machinery once per side. */
  method TwoSidedBracket(lo: Program, hi: Program, t: Table, budget: int, cap: int)
    returns (lower: CutSearch, upper: CutSearch)
    requires WellFormed(lo) && WellFormed(hi) && WellFormedTable(t)
    ensures Promised(lo, t, budget, cap, lower) && Promised(hi, t, budget, cap, upper)
  {
    lower := EnumeratePsi(lo, t, budget, cap);
    upper := EnumeratePsi(hi, t, budget, cap);
  }

  /** The bracket is ordered: when both sides are exact the lower optimum needs no more
      controls, and when no cut severs the lower side none severs the upper. */
  lemma BracketOrdered(lo: Program, hi: Program, t: Table, lower: CutSearch, upper: CutSearch)
    requires WellFormed(hi) && Contained(lo, hi) && AxiomsSurvive(lo, hi)
    requires lower.Search? && upper.Search? && Sound(lo, t, lower) && Sound(hi, t, upper)
    ensures upper.severs ==> Severs(lo, upper.cut.mask)
    ensures lower.cut.minimality.ExactPsiRelative? && upper.severs ==> lower.cut.cardinality <= upper.cut.cardinality
    ensures lower.cut.minimality.Unverified? ==> !upper.severs
  {
    DerivesMoreIffAxiomsSurvive(lo, hi);
    if upper.severs {
      SeversDownward(lo, hi, upper.cut.mask);
      assert SeveringLevels(lo, t, upper.levels);
    }
  }

  // ---------------------------------------------------------------------------
  // What the premium means
  // ---------------------------------------------------------------------------

  /** A severing cut that raises as few controls as any severing cut. */
  ghost predicate MinimumSevering(p: Program, t: Table, w: Levels) {
    SeveringLevels(p, t, w) && forall v :: SeveringLevels(p, t, v) ==> |Raised(w)| <= |Raised(v)|
  }

  /** In a complete search every minimum severing cut is a minimum of the clause database. */
  lemma MinimumSeveringIsMinimumCut(p: Program, t: Table, r: CutSearch, w: Levels)
    requires r.Search? && Sound(p, t, r) && r.complete && MinimumSevering(p, t, w)
    ensures MinimumCut(t, r.clauses, w)
  {
    assert r.cut.minimality.ExactPsiRelative?;
    assert |Raised(w)| <= |Raised(r.levels)|;
    assert MeetsAll(r.clauses, CutRanks(t, w));
    forall v | Meets(t, r.clauses, v) ensures |Raised(w)| <= |Raised(v)| {
      assert Precedes(r.levels, v);
    }
  }

  /** A premium control is raised in every minimum severing cut of the upper program and in
      none of the lower one. */
  lemma {:induction false} PremiumMeaning(lo: Program, hi: Program, t: Table, lower: CutSearch, upper: CutSearch,
                                          nec: seq<nat>, occ: seq<nat>, k: nat)
    requires lower.Search? && upper.Search? && Sound(lo, t, lower) && Sound(hi, t, upper)
    requires lower.complete && upper.complete
    requires NecessaryBelow(t, upper.clauses, nec, |ControlsOf(t)|)
    requires OccurringBelow(t, lower.clauses, occ, |ControlsOf(t)|)
    requires k in nec && k !in occ
    ensures forall w :: MinimumSevering(hi, t, w) ==> w[k] >= 1
    ensures forall w :: MinimumSevering(lo, t, w) ==> w[k] == 0
  {
    forall w | MinimumSevering(hi, t, w) ensures w[k] >= 1 {
      MinimumSeveringIsMinimumCut(hi, t, upper, w);
      assert InEvery(t, upper.clauses, k);
    }
    forall w | MinimumSevering(lo, t, w) ensures w[k] == 0 {
      MinimumSeveringIsMinimumCut(lo, t, lower, w);
      assert !InSome(t, lower.clauses, k);
    }
  }

  /** The strongest admissible cut that leaves one control alone. */
  function TopsWithout(t: Table, k: nat): (w: Levels)
    ensures |w| == |ControlsOf(t)|
    ensures forall c :: 0 <= c < |w| ==> w[c] == if c == k then 0 else |LevelsOf(t, ControlsOf(t)[c])|
  {
    seq(|ControlsOf(t)|, c requires 0 <= c < |ControlsOf(t)| => if c == k then 0 else |LevelsOf(t, ControlsOf(t)[c])|)
  }

  /** A control is in every severing cut, of any size, exactly when all the others at their
      tops do not sever. Membership of NEC alone does not give this. */
  lemma {:induction false} InEverySeveringCut(p: Program, t: Table, k: nat)
    requires k < |ControlsOf(t)|
    ensures (forall w :: SeveringLevels(p, t, w) ==> w[k] >= 1) <==> !SeveringLevels(p, t, TopsWithout(t, k))
  {
    var tops := TopsWithout(t, k);
    assert Admissible(t, tops);
    if w :| SeveringLevels(p, t, w) && w[k] == 0 {
      CutMaskMonotone(t, w, tops);
      SeversUpward(p, CutMask(t, w), CutMask(t, tops));
    }
  }

  // ---------------------------------------------------------------------------
  // Necessary in the database is not necessary in every cut
  // ---------------------------------------------------------------------------

  /** Three controls with one level each, their bits in order. */
  ghost predicate ThreeControls(t: Table) {
    |t| == 3 && t[0] == Literal(0, 1, 0, 0) && t[1] == Literal(1, 1, 1, 1) && t[2] == Literal(2, 1, 2, 2)
  }

  lemma {:induction false} ThreeLevels(t: Table, c: nat)
    requires ThreeControls(t)
    ensures LevelsOf(t, c) == if c < 3 then [t[c]] else []
  {
    assert t[..1][..0] == [] && t[..2][..1] == t[..1];
    assert LevelsOf(t[..1], c) == if c == 0 then [t[0]] else [];
    assert LevelsOf(t[..2], c) == if c < 2 then [t[c]] else [];
  }

  lemma {:induction false} ThreeControlIds(t: Table)
    requires ThreeControls(t)
    ensures ControlsOf(t) == [0, 1, 2]
  {
    assert t[..1][..0] == [] && t[..2][..1] == t[..1];
    assert ControlsOf(t[..1]) == [0];
    assert ControlsOf(t[..2]) == [0, 1];
  }

  lemma ThreeControlsTable(t: Table)
    requires ThreeControls(t)
    ensures WellFormedTable(t)
  {
    forall c: nat ensures DenseLevels(LevelsOf(t, c)) {
      ThreeLevels(t, c);
    }
  }

  /** A level vector of the table is three levels of at most one. */
  lemma ThreeAdmissible(t: Table, w: Levels)
    requires ThreeControls(t)
    ensures Admissible(t, w) <==> |w| == 3 && w[0] <= 1 && w[1] <= 1 && w[2] <= 1
  {
    ThreeControlIds(t);
    ThreeLevels(t, 0);
    ThreeLevels(t, 1);
    ThreeLevels(t, 2);
  }

  /** The ranks and bits of a cut are its raised controls. */
  lemma ThreeMask(t: Table, w: Levels, b: nat)
    requires ThreeControls(t) && Admissible(t, w) && b < 3
    ensures |w| == 3 && (b in CutRanks(t, w) <==> w[b] >= 1) && (b in CutMask(t, w) <==> w[b] >= 1)
  {
    ThreeAdmissible(t, w);
    ThreeControlIds(t);
    PositionOfEntry(ControlsOf(t), b);
    assert b in CutRanks(t, w) <==> w[b] >= 1;
    assert b in CutRanks(t, w) ==> t[b].bit in BitsOf(t, CutRanks(t, w));
  }

  /** Two ways to the goal, each blocked by its own control or by the last one. */
  ghost predicate TwoWays(p: Program) {
    p == Program([Instance(0, 1, [], [{0}, {2}]), Instance(1, 1, [], [{1}, {2}])], [], 1, [1])
  }

  lemma TwoWaysProgram(p: Program)
    requires TwoWays(p)
    ensures WellFormed(p)
  {
  }

  lemma TwoWaysSevered(p: Program, cut: Mask)
    requires TwoWays(p)
    ensures Severs(p, cut) <==> 2 in cut || (0 in cut && 1 in cut)
  {
    forall i | 0 <= i < 2 ensures Blocked(p.instances[i], cut) <==> 2 in cut || i in cut {
      assert p.instances[i].blockers[0] == {i} && p.instances[i].blockers[1] == {2};
    }
    assert 1 in p.goals;
    if !Blocked(p.instances[0], cut) {
      DerivableByInstance(p, cut, 0);
    } else if !Blocked(p.instances[1], cut) {
      DerivableByInstance(p, cut, 1);
    } else {
      assert Closed(p, cut, {});
      forall u | Derives(p, cut, 1, u) ensures false {
        DerivationsStayInClosedSets(p, cut, u, {});
      }
    }
  }

  lemma TwoWaysLevels(p: Program, t: Table, w: Levels)
    requires TwoWays(p) && ThreeControls(t) && Admissible(t, w)
    ensures |w| == 3 && (SeveringLevels(p, t, w) <==> w[2] == 1 || (w[0] == 1 && w[1] == 1))
  {
    ThreeAdmissible(t, w);
    TwoWaysSevered(p, CutMask(t, w));
    ThreeMask(t, w, 0);
    ThreeMask(t, w, 1);
    ThreeMask(t, w, 2);
  }

  /** The two corridors of the program: one for each way. */
  function TwoCorridors(): seq<Clause> { [{0, 2}, {1, 2}] }

  lemma TwoCorridorsMet(t: Table, w: Levels)
    requires ThreeControls(t) && Admissible(t, w)
    ensures |w| == 3 && (MeetsAll(TwoCorridors(), CutRanks(t, w)) <==> w[2] == 1 || (w[0] == 1 && w[1] == 1))
  {
    ThreeAdmissible(t, w);
    ThreeMask(t, w, 0);
    ThreeMask(t, w, 1);
    ThreeMask(t, w, 2);
    var ranks := CutRanks(t, w);
    forall i: nat | i < 2 ensures TwoCorridors()[i] * ranks != {} <==> i in ranks || 2 in ranks {
      assert i in TwoCorridors()[i] * ranks <==> i in ranks;
      assert 2 in TwoCorridors()[i] * ranks <==> 2 in ranks;
      assert forall b :: b in TwoCorridors()[i] * ranks ==> b == i || b == 2;
    }
  }

  lemma {:induction false} NoneRaised(w: Levels)
    requires forall c :: 0 <= c < |w| ==> w[c] == 0
    ensures Raised(w) == []
  {
    AscendingUnique(Raised(w), []);
  }

  /** One control raised: the later control comes later. */
  lemma {:induction false} LaterComesLater(w: Levels, last: Levels, b: nat)
    requires Raised(last) == [2] && Raised(w) == [b] && b < 2
    ensures !Precedes(last, w)
  {
  }

  lemma {:induction false} FewerComesFirst(w: Levels, last: Levels)
    requires |Raised(last)| == 1 && |Raised(w)| != 1
    ensures Precedes(last, w) <==> |Raised(w)| > 1
  {
  }

  /** The cut that raises the last control alone comes before every vector that raises it or
      both others, and before no other vector of at most one control. */
  lemma {:induction false} LastAlone(w: Levels, last: Levels)
    requires last == [0, 0, 1] && |w| == 3 && w[0] <= 1 && w[1] <= 1 && w[2] <= 1
    ensures Raised(last) == [2]
    ensures w[2] == 1 || (w[0] == 1 && w[1] == 1) ==> Precedes(last, w)
    ensures Precedes(last, w) && w[2] == 0 ==> |Raised(w)| >= 2
  {
    OneRaised(last, 2);
    if w[0] == w[1] == w[2] == 0 {
      NoneRaised(w);
      FewerComesFirst(w, last);
    } else if w[0] == w[1] == 0 {
      assert w == last;
    } else if w[1] == w[2] == 0 {
      OneRaised(w, 0);
      LaterComesLater(w, last, 0);
    } else if w[0] == w[2] == 0 {
      OneRaised(w, 1);
      LaterComesLater(w, last, 1);
    } else {
      TwoRaised(w, if w[0] == 1 then 0 else 1, if w[2] == 1 then 2 else 1);
      FewerComesFirst(w, last);
    }
  }

  /** A way that the cut leaves open teaches its corridor. */
  lemma {:induction false} WayTeaches(p: Program, t: Table, held: seq<Clause>, i: nat, w: Levels)
    requires TwoWays(p) && ThreeControls(t) && i < 2 && LeastMeeting(t, held, w)
    requires |w| == 3 && w[i] == 0 && w[2] == 0 && (i == 1 ==> w[0] >= 1)
    ensures TaughtAfter(p, t, held, {i, 2})
  {
    var tree, clause := Node(1, i, []), {i, 2};
    WayCorridor(p, t, i, tree, clause);
    ThreeMask(t, w, 0);
    ThreeMask(t, w, i);
    ThreeMask(t, w, 2);
    WayIsOpen(p, CutMask(t, w), i, tree);
    WayIsWitness(p, CutMask(t, w), i, tree);
    Teaches(p, t, held, clause, w, tree);
  }

  lemma Teaches(p: Program, t: Table, held: seq<Clause>, clause: Clause, w: Levels, tree: Tree)
    requires TaughtBy(p, t, held, clause, w, tree)
    ensures TaughtAfter(p, t, held, clause)
  {
  }

  lemma {:induction false} WayIsOpen(p: Program, cut: Mask, i: nat, tree: Tree)
    requires TwoWays(p) && i < 2 && i !in cut && 2 !in cut && tree == Node(1, i, [])
    ensures ValidTree(p, cut, tree) && NeverRepeats(tree, {}) && tree.head in p.goals
  {
    assert p.instances[i].blockers[0] == {i} && p.instances[i].blockers[1] == {2};
  }

  /** The first way left open is the witness of the cut. */
  lemma {:induction false} WayIsWitness(p: Program, cut: Mask, i: nat, tree: Tree)
    requires TwoWays(p) && i < 2 && i !in cut && 2 !in cut && (i == 1 ==> 0 in cut) && tree == Node(1, i, [])
    ensures Leaves(p, cut, tree)
  {
    var order := [1];
    assert order[..0] == [] && Elements(order[..0]) == {};
    WaysOpen(p, cut, i);
    WaySeeds(p, cut, i);
    assert Supports(p, cut, i, 1, {});
    assert DerivationOrder(p, cut, order);
    assert Closed(p, cut, Elements(order));
    assert FirstSupport(p, cut, 1, {}, 0) == Some(i) by {
      assert FirstSupport(p, cut, 1, {}, i) == Some(i);
    }
    assert Witness(p, cut, order, 0) == tree;
    assert IsOrder(p, cut, order) && IsWitness(p, cut, order, tree);
  }

  lemma WaysOpen(p: Program, cut: Mask, i: nat)
    requires TwoWays(p) && i < 2 && i !in cut && 2 !in cut && (i == 1 ==> 0 in cut)
    ensures Fulfilled(p, cut, i, {}) && (i == 1 ==> Blocked(p.instances[0], cut))
  {
    assert p.instances[i].blockers[0] == {i} && p.instances[i].blockers[1] == {2};
    assert p.instances[0].blockers[0] == {0};
  }

  /** Both heads are the goal, and nothing depends on it. */
  lemma {:induction false} WaySeeds(p: Program, cut: Mask, i: nat)
    requires TwoWays(p) && i < 2 && Fulfilled(p, cut, i, {})
    ensures QueueOrder(p, cut, [1])
  {
    var order := [1];
    assert UpTo(1) == [0] && UpTo(2) == [0] + [1];
    HeadsOneMore(p, cut, [], 0, {});
    HeadsOneMore(p, cut, [0], 1, {});
    assert [] + [0] == [0];
    var seeds := Seeds(p, cut);
    assert seeds == [1] || seeds == [1, 1];
    assert Dependents(p, 1, 0) == [] && Dependents(p, 1, 1) == [] && Dependents(p, 1, 2) == [];
    assert Queued(p, cut, order, 0) == seeds && Queued(p, cut, order, 1) == seeds + [];
    FirstsOneMore([], 1);
    FirstsOneMore([1], 1);
    assert [] + [1] == [1] && [1] + [1] == [1, 1] && Firsts(seeds) == [1];
  }

  lemma {:induction false} WayCorridor(p: Program, t: Table, i: nat, tree: Tree, clause: Clause)
    requires TwoWays(p) && ThreeControls(t) && i < 2 && tree == Node(1, i, []) && clause == {i, 2}
    ensures Corridor(p, Instances(tree)) != {} && clause == RanksOfMask(t, Corridor(p, Instances(tree)))
  {
    var bits := BlockerBits(p.instances[i]);
    WayBits(p, i, bits, clause);
    assert Instances(tree) == {i};
    forall b ensures b in Corridor(p, {i}) <==> b in bits {
    }
    assert Corridor(p, {i}) == bits;
    forall r: nat ensures r in RanksOfMask(t, clause) <==> r in clause {
    }
  }

  lemma {:induction false} WayBits(p: Program, i: nat, bits: Mask, clause: Clause)
    requires TwoWays(p) && i < 2 && bits == BlockerBits(p.instances[i]) && clause == {i, 2}
    ensures bits == clause && i in bits
  {
    assert p.instances[i].blockers[0] == {i} && p.instances[i].blockers[1] == {2};
  }

  /** With nothing learned the least vector raises nothing; with the first corridor, its control. */
  lemma {:induction false} LeastBefore(t: Table, none: Levels, first: Levels)
    requires ThreeControls(t) && none == [0, 0, 0] && first == [1, 0, 0]
    ensures LeastMeeting(t, [], none) && LeastMeeting(t, [{0, 2}], first)
  {
    ThreeAdmissible(t, none);
    ThreeAdmissible(t, first);
    NoneRaised(none);
    OneRaised(first, 0);
    FirstMet(t, first);
    forall v | Admissible(t, v)
      ensures Precedes(none, v) && (MeetsAll([{0, 2}], CutRanks(t, v)) ==> Precedes(first, v))
    {
      ThreeAdmissible(t, v);
      FirstMet(t, v);
      NoneFirst(v, none);
      if v[0] == 1 || v[2] == 1 {
        FirstAlone(v, first);
      }
    }
  }

  lemma FirstMet(t: Table, v: Levels)
    requires ThreeControls(t) && Admissible(t, v)
    ensures |v| == 3 && (MeetsAll([{0, 2}], CutRanks(t, v)) <==> v[0] >= 1 || v[2] >= 1)
  {
    ThreeMask(t, v, 0);
    ThreeMask(t, v, 2);
    var ranks := CutRanks(t, v);
    assert 0 in {0, 2} * ranks <==> 0 in ranks;
    assert 2 in {0, 2} * ranks <==> 2 in ranks;
    assert [{0, 2}][0] == {0, 2};
  }

  lemma {:induction false} NoneFirst(v: Levels, none: Levels)
    requires none == [0, 0, 0] && |v| == 3
    ensures Precedes(none, v)
  {
    NoneRaised(none);
    if Raised(v) == [] {
      assert forall c :: 0 <= c < |v| && v[c] >= 1 ==> c in Raised(v);
      assert v == none;
    }
  }

  lemma {:induction false} FirstAlone(v: Levels, first: Levels)
    requires first == [1, 0, 0] && |v| == 3 && v[0] <= 1 && v[1] <= 1 && v[2] <= 1 && (v[0] == 1 || v[2] == 1)
    ensures Precedes(first, v)
  {
    OneRaised(first, 0);
    if v[1] == 0 && v[2] == 0 {
      assert v == first;
    } else if v[0] == 0 && v[1] == 0 {
      OneRaised(v, 2);
    } else {
      TwoRaised(v, if v[0] == 1 then 0 else 1, if v[0] == 1 && v[1] == 1 then 1 else 2);
    }
  }

  /** Both corridors are learned, and the least vector meeting them raises the last control. */
  lemma {:induction false} TwoCorridorsLearned(p: Program, t: Table, last: Levels)
    requires TwoWays(p) && ThreeControls(t) && last == [0, 0, 1]
    ensures Learned(p, t, TwoCorridors()) && LeastMeeting(t, TwoCorridors(), last) && CanonicalOptimum(p, t, last)
  {
    TwoCorridorsLeast(p, t, last);
    TwoCorridorsTaught(p, t);
    assert 0 in TwoCorridors()[0] && 0 !in TwoCorridors()[1];
    assert Distinct(TwoCorridors()) && Backed(p, t, TwoCorridors());
  }

  lemma {:induction false} TwoCorridorsTaught(p: Program, t: Table)
    requires TwoWays(p) && ThreeControls(t)
    ensures Taught(p, t, TwoCorridors())
  {
    LeastBefore(t, [0, 0, 0], [1, 0, 0]);
    WayTeaches(p, t, [], 0, [0, 0, 0]);
    WayTeaches(p, t, [{0, 2}], 1, [1, 0, 0]);
    TaughtTwo(p, t, TwoCorridors(), {0, 2}, {1, 2});
  }

  lemma TaughtTwo(p: Program, t: Table, clauses: seq<Clause>, a: Clause, b: Clause)
    requires clauses == [a, b] && TaughtAfter(p, t, [], a) && TaughtAfter(p, t, [a], b)
    ensures Taught(p, t, clauses)
  {
    Listing(a, b);
    TaughtOneMore(p, t, [], a);
    TaughtOneMore(p, t, [a], b);
  }

  lemma Listing<T>(a: T, b: T)
    ensures [] + [a] == [a] && [a] + [b] == [a, b]
  {
  }

  lemma {:induction false} TwoCorridorsLeast(p: Program, t: Table, last: Levels)
    requires TwoWays(p) && ThreeControls(t) && last == [0, 0, 1]
    ensures Necessary(p, t, TwoCorridors()) && LeastMeeting(t, TwoCorridors(), last) && CanonicalOptimum(p, t, last)
  {
    ThreeAdmissible(t, last);
    TwoCorridorsMet(t, last);
    TwoWaysLevels(p, t, last);
    forall w | Admissible(t, w)
      ensures SeveringLevels(p, t, w) <==> MeetsAll(TwoCorridors(), CutRanks(t, w))
      ensures SeveringLevels(p, t, w) ==> Precedes(last, w)
    {
      ThreeAdmissible(t, w);
      TwoCorridorsMet(t, w);
      TwoWaysLevels(p, t, w);
      LastAlone(w, last);
    }
  }

  lemma {:induction false} LastIsMinimum(t: Table, clauses: seq<Clause>, last: Levels)
    requires ThreeControls(t) && last == [0, 0, 1] && LeastMeeting(t, clauses, last)
    ensures MinimumCut(t, clauses, last) && Raised(last) == [2]
    ensures forall w :: Meets(t, clauses, w) && |Raised(w)| <= 1 ==> |w| == 3 && w[2] >= 1
  {
    LastAlone(last, last);
    forall w | Meets(t, clauses, w) ensures |Raised(w)| >= 1 && |w| == 3 && (|Raised(w)| == 1 ==> w[2] >= 1) {
      ThreeAdmissible(t, w);
      LastAlone(w, last);
    }
  }

  /** Whatever an exact search of the program learned, its NEC is the last control. */
  lemma {:induction false} LastIsNecessary(t: Table, clauses: seq<Clause>, last: Levels)
    requires ThreeControls(t) && last == [0, 0, 1] && LeastMeeting(t, clauses, last)
    ensures NecessaryBelow(t, clauses, [2], 3)
  {
    LastIsMinimum(t, clauses, last);
    assert InEvery(t, clauses, 2);
    assert !InEvery(t, clauses, 0) && !InEvery(t, clauses, 1);
  }

  /** A control can be all of NEC while a cut severs without it: so it is for every exact search
      of this program, and the clauses of its two corridors are such a database. */
  lemma {:induction false} NecessaryIsNotInEveryCut(p: Program, t: Table, both: Levels)
    requires TwoWays(p) && ThreeControls(t) && both == [1, 1, 0]
    ensures WellFormed(p) && WellFormedTable(t) && SeveringLevels(p, t, both)
    ensures Learned(p, t, TwoCorridors()) && NecessaryBelow(t, TwoCorridors(), [2], |ControlsOf(t)|)
    ensures forall r: CutSearch :: r.Search? && Sound(p, t, r) && r.cut.minimality.ExactPsiRelative?
              ==> NecessaryBelow(t, r.clauses, [2], |ControlsOf(t)|)
  {
    TwoWaysProgram(p);
    ThreeControlsTable(t);
    ThreeControlIds(t);
    ThreeAdmissible(t, both);
    TwoWaysLevels(p, t, both);
    var last := [0, 0, 1];
    TwoCorridorsLearned(p, t, last);
    LastIsNecessary(t, TwoCorridors(), last);
    forall r: CutSearch | r.Search? && Sound(p, t, r) && r.cut.minimality.ExactPsiRelative?
      ensures NecessaryBelow(t, r.clauses, [2], 3)
    {
      PrecedesAntisymmetric(r.levels, last);
      LastIsNecessary(t, r.clauses, last);
    }
  }
}
