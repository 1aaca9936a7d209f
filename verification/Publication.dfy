/** From the engine's tables to the program reachability runs on (ground.py, `snapshot`), and
    when that program keeps what the tables hold. Fact and instance ids are hashes: here any
    numbering of facts and of instances that is injective on facts.
 */
module Publication {
  import opened Wrappers
  import opened Reachability
  import opened Grounding
  import opened Saturation
  import opened Bracket
  import opened Licences
  import Liveness
  import opened Envelope

  function Keys(h: Atom -> nat, body: seq<Atom>): (r: seq<nat>)
    ensures |r| == |body| && forall k :: 0 <= k < |body| ==> r[k] == h(body[k])
  {
    seq(|body|, k requires 0 <= k < |body| => h(body[k]))
  }

  function Render(h: Atom -> nat, id: GroundInstance -> nat, i: GroundInstance): Instance {
    Instance(id(i), h(i.head), Keys(h, i.body), i.blockers)
  }

  ghost predicate Numbering(h: Atom -> nat) {
    forall a: Atom, b: Atom :: h(a) == h(b) ==> a == b
  }

  /** An axiom of the published program is a fact that no instance with a body heads. */
  ghost predicate Unsupported(instances: set<GroundInstance>, f: Atom) {
    forall i :: i in instances && i.head == f ==> i.body == []
  }

  ghost predicate RendersOne(instances: set<GroundInstance>, h: Atom -> nat, id: GroundInstance -> nat,
                             inst: Instance)
  {
    exists i :: i in instances && Render(h, id, i) == inst
  }

  /** `snapshot`: the instances, and as axioms the facts without a supporting body. */
  ghost predicate Published(p: Program, facts: set<Atom>, instances: set<GroundInstance>, h: Atom -> nat,
                            id: GroundInstance -> nat)
  {
    && (forall i :: i in instances ==> Render(h, id, i) in p.instances)
    && (forall k :: 0 <= k < |p.instances| ==> RendersOne(instances, h, id, p.instances[k]))
    && (forall f: Atom :: h(f) in p.axioms <==> f in facts && Unsupported(instances, f))
    && forall x :: x in p.axioms ==> exists f: Atom :: h(f) == x
  }

  // ---------------------------------------------------------------------------
  // The two sides of the bracket
  // ---------------------------------------------------------------------------

  /** Growing tables publish a program that contains the smaller one's instances. */
  lemma PublishedContained(lo: Program, hi: Program, facts: set<Atom>, instances: set<GroundInstance>,
                           facts': set<Atom>, instances': set<GroundInstance>, h: Atom -> nat,
                           id: GroundInstance -> nat)
    requires Published(lo, facts, instances, h, id) && Published(hi, facts', instances', h, id)
    requires instances <= instances' && lo.goals == hi.goals
    ensures Contained(lo, hi)
  {
    forall k | 0 <= k < |lo.instances| ensures lo.instances[k] in hi.instances {
      assert RendersOne(instances, h, id, lo.instances[k]);
      var i :| i in instances && Render(h, id, i) == lo.instances[k];
      assert Render(h, id, i) in hi.instances;
    }
  }

  /** No lower axiom is headed by an instance with a body in the larger tables. */
  ghost predicate AxiomsStayUnsupported(facts: set<Atom>, instances: set<GroundInstance>,
                                        instances': set<GroundInstance>)
  {
    forall f :: f in facts && Unsupported(instances, f) ==> Unsupported(instances', f)
  }

  /** Published from growing tables, the upper program derives all the lower one does under every
      cut if and only if the lower axioms survive the strongest cut above; then a cut that severs
      above severs below. */
  lemma UpperDerivesMoreIff(lo: Program, hi: Program, facts: set<Atom>, instances: set<GroundInstance>,
                            facts': set<Atom>, instances': set<GroundInstance>, h: Atom -> nat,
                            id: GroundInstance -> nat)
    requires WellFormed(hi) && lo.goals == hi.goals && instances <= instances'
    requires Published(lo, facts, instances, h, id) && Published(hi, facts', instances', h, id)
    ensures DerivesMore(lo, hi) <==> AxiomsSurvive(lo, hi)
    ensures DerivesMore(lo, hi) ==> forall cut: Mask :: Severs(hi, cut) ==> Severs(lo, cut)
  {
    PublishedContained(lo, hi, facts, instances, facts', instances', h, id);
    DerivesMoreIffAxiomsSurvive(lo, hi);
    forall cut: Mask | DerivesMore(lo, hi) && Severs(hi, cut) ensures Severs(lo, cut) {
      SeversDownward(lo, hi, cut);
    }
  }

  /** It does when no lower axiom gains a supporting body. */
  lemma UpperDerivesMore(lo: Program, hi: Program, facts: set<Atom>, instances: set<GroundInstance>,
                         facts': set<Atom>, instances': set<GroundInstance>, h: Atom -> nat, id: GroundInstance -> nat)
    requires WellFormed(hi) && lo.goals == hi.goals && facts <= facts' && instances <= instances'
    requires Published(lo, facts, instances, h, id) && Published(hi, facts', instances', h, id)
    requires AxiomsStayUnsupported(facts, instances, instances')
    ensures DerivesMore(lo, hi) && forall cut: Mask :: Severs(hi, cut) ==> Severs(lo, cut)
  {
    forall x | x in lo.axioms ensures Derivable(hi, AllBlockers(hi), x) {
      var f: Atom :| h(f) == x;
      assert h(f) in lo.axioms;
      assert h(f) in hi.axioms;
      assert Derives(hi, AllBlockers(hi), x, Leaf(x));
    }
    UpperDerivesMoreIff(lo, hi, facts, instances, facts', instances', h, id);
  }

  /** Every instance heading the fact has a body and a blocker the cut covers. */
  ghost predicate OnlyBlockedHeads(instances: set<GroundInstance>, h: Atom -> nat, id: GroundInstance -> nat, f: Atom,
                                   cut: Mask)
  {
    forall i :: i in instances && i.head == f ==> i.body != [] && Blocked(Render(h, id, i), cut)
  }

  /** Without it the bracket turns over: a goal that is an axiom below and that blocked instances
      head above is severed by that cut above and by no cut below. */
  lemma DroppedAxiomTurnsBracketOver(lo: Program, hi: Program, facts: set<Atom>, instances: set<GroundInstance>,
                                     facts': set<Atom>, instances': set<GroundInstance>, h: Atom -> nat,
                                     id: GroundInstance -> nat, g: Atom, cut: Mask)
    requires Numbering(h) && Published(lo, facts, instances, h, id) && Published(hi, facts', instances', h, id)
    requires lo.goals == hi.goals == [h(g)]
    requires g in facts && Unsupported(instances, g)
    requires !Unsupported(instances', g) && OnlyBlockedHeads(instances', h, id, g, cut)
    ensures Severs(hi, cut) && forall any: Mask :: !Severs(lo, any)
  {
    Unreachable(hi, facts', instances', h, id, {g}, cut);
    forall any: Mask ensures !Severs(lo, any) {
      assert h(g) in lo.axioms && h(g) in lo.goals;
      assert Derives(lo, any, h(g), Leaf(h(g)));
    }
  }

  /** The envelope brings this about on its own: it draws a silent instance over a blind window
      even when the head is a fact already seeded. Here the observed tables hold the seeded goal
      alone, and the licensed ones add a silent instance heading it and its premises. */
  lemma SilentHeadTurnsBracketOver(lo: Program, hi: Program, s: SilentRule, w: Interval, licences: set<Licence>,
                                   b: Binding, facts': set<Atom>, instances': set<GroundInstance>, h: Atom -> nat,
                                   id: GroundInstance -> nat, g: Atom, cut: Mask)
    requires Numbering(h) && Published(lo, {g}, {}, h, id) && Published(hi, facts', instances', h, id)
    requires lo.goals == hi.goals == [h(g)]
    requires DetectFor(s, w, licences, b).Some? && DetectFor(s, w, licences, b).value.head == g
    requires DetectFor(s, w, licences, b).value in instances' && OnlyParts(s, w, licences, [b], {}, instances')
    requires |s.rule.body| > 0 && g !in DetectFor(s, w, licences, b).value.body
    requires exists k :: 0 <= k < |s.rule.blockers| && s.rule.blockers[k] <= cut
    ensures Severs(hi, cut) && forall any: Mask :: !Severs(lo, any)
  {
    var detect := DetectFor(s, w, licences, b).value;
    forall i | i in instances' && i.head == g ensures i == detect {
      assert i !in {};
      assert PartOf(s, w, [b][0], i);
    }
    assert detect.body != [];
    DroppedAxiomTurnsBracketOver(lo, hi, {g}, {}, facts', instances', h, id, g, cut);
  }

  // ---------------------------------------------------------------------------
  // A run of the envelope that turns the bracket over
  // ---------------------------------------------------------------------------

  /** Fact 0 from fact 1, blocked by the first control literal. */
  function HeadRule(): Rule {
    Rule(0, [Pattern(1, [], 0)], Pattern(0, [], 0), [{0}], NoTemporal, (fs: seq<Atom>) => true,
         (low: int, high: int) => true)
  }

  /** The goal, recorded as an event of its own. */
  function SeededGoal(): Atom { Atom(0, [], 0) }

  /** The one source is blind during the first tick. */
  function BlindTick(): Liveness.View {
    map[0 := [Liveness.Stretch(Interval(0, TICK_NS), Liveness.Blind, 0, {})]]
  }

  /** However the tables are published, the cut severs the upper program and no cut the lower. */
  ghost predicate TurnsOver(facts: set<Atom>, instances: set<GroundInstance>, facts': set<Atom>,
                            instances': set<GroundInstance>, g: Atom, cut: Mask)
  {
    forall lo, hi, h: Atom -> nat, id: GroundInstance -> nat ::
      (Numbering(h) && Published(lo, facts, instances, h, id) && Published(hi, facts', instances', h, id)
       && lo.goals == hi.goals == [h(g)]) ==>
        Severs(hi, cut) && forall any: Mask :: !Severs(lo, any)
  }

  lemma TablesTurnOver(facts: set<Atom>, instances: set<GroundInstance>, facts': set<Atom>,
                       instances': set<GroundInstance>, g: Atom, cut: Mask)
    requires g in facts && Unsupported(instances, g) && !Unsupported(instances', g)
    requires forall i :: i in instances' && i.head == g ==>
               i.body != [] && exists k :: 0 <= k < |i.blockers| && i.blockers[k] <= cut
    ensures TurnsOver(facts, instances, facts', instances', g, cut)
  {
    forall lo, hi, h: Atom -> nat, id: GroundInstance -> nat |
      Numbering(h) && Published(lo, facts, instances, h, id) && Published(hi, facts', instances', h, id)
      && lo.goals == hi.goals == [h(g)]
      ensures Severs(hi, cut) && forall any: Mask :: !Severs(lo, any)
    {
      DroppedAxiomTurnsBracketOver(lo, hi, facts, instances, facts', instances', h, id, g, cut);
    }
  }

  /** Without evidence for fact 1 the rule never fires. */
  lemma HeadRuleSilent(c: Context, facts: set<Atom>)
    requires c.rules == [HeadRule()] && c.events.Keys == {SeededGoal()}
    ensures RulesOk(c.rules) && Stratified(c.rules)
    ensures forall i :: !IsFiring(c, facts, i)
    ensures ClosedUnder(c, facts)
  {
    forall chosen: seq<Atom> ensures Firing(c, 0, chosen).None? {
      if |chosen| == 1 && UnifyAll(HeadRule().body, chosen, map[]).Some? {
        assert Unify(HeadRule().body[0], chosen[0], map[], false).Some?;
        assert chosen[0] !in c.events;
        assert EvidenceFor(HeadRule(), chosen, {}, c.events) == {};
      }
    }
  }

  lemma {:induction false} BlindTickRuns(tl: Liveness.Timeline)
    requires tl == [Liveness.Stretch(Interval(0, TICK_NS), Liveness.Blind, 0, {})]
    ensures Liveness.Ordered(tl)
    ensures Liveness.RunsIn(tl) == [Liveness.Run(Interval(0, TICK_NS), Liveness.Blind, 0, {})]
  {
    assert tl[..0] == [] && Liveness.RunsIn([]) == [];
  }

  /** The source's cover is its one blind run, which needs no witness. */
  lemma BlindTickWitnessed(w: Interval)
    ensures Liveness.ViewOrdered(BlindTick()) && !Liveness.WitnessMissing(BlindTick(), [0], w)
  {
    BlindTickRuns(Liveness.TimelineOf(BlindTick(), 0));
    var cover := Liveness.CoverOn(BlindTick(), 0, w);
    forall i | 0 <= i < |cover| ensures !Liveness.Unwitnessed(cover[i]) {
      assert cover[i] in cover;
    }
  }

  /** What the silent rule draws over the window that holds the first instant. */
  lemma SilentGoalDrawn(w: Interval, licences: set<Licence>)
    requires w.t0 == 0
    ensures DetectFor(SilentRule(HeadRule(), [0]), w, licences, map[])
         == Some(GroundInstance(0, SeededGoal(), [Atom(1, [], 0)], [{0}], false, {}, licences, false))
  {
    var b: Binding, rule := map[], HeadRule();
    assert BoundArgs([], b) == Some([]);
    assert rule.body[1..] == [] && BoundBody([], b, 0) == Some([]);
    assert BoundAtom(rule.body[0], b, 0) == Some(Atom(1, [], 0));
    var fact: seq<Atom> := [Atom(1, [], 0)];
    assert TickOf(w.t0) == 0 && fact + [] == fact;
    assert BoundBody(rule.body, b, 0) == Some(fact + []);
    assert BoundAtom(rule.head, b, TickOf(w.t0)) == Some(SeededGoal());
  }

  /** The first instant lies in a window that starts there. */
  lemma FirstInstantBlind()
    ensures Liveness.AllBlindAt(BlindTick(), [0], 0)
  {
    var tl := Liveness.TimelineOf(BlindTick(), 0);
    assert tl[0].span.Contains(0);
  }

  /** The goal's only support above is silent and blocked. */
  lemma GoalBlockedAbove(minted: set<Licence>, run: Stages, facts: set<Atom>, i: GroundInstance)
    requires run.second.rules == run.third.rules == [HeadRule()]
    requires run.second.events.Keys == {SeededGoal()} && run.third.events.Keys == {SeededGoal()}
    requires RulesOk(run.second.rules) && i.head == SeededGoal()
    requires Accounted(BlindTick(), [SilentRule(HeadRule(), [0])], [[map[]]], [], minted, run, facts, i)
    ensures i.body != [] && i.blockers == [{0}]
  {
    HeadRuleSilent(run.second, facts);
    HeadRuleSilent(run.third, facts);
    var s := SilentRule(HeadRule(), [0]);
    assert SilentBy(BlindTick(), s, [map[]], i);
    var w :| Liveness.BlindWindow(BlindTick(), s.sources, w) && SilentOver(BlindTick(), s, [map[]], w, i);
    var k :| 0 <= k < 1 && PartOf(s, w, [map[]][k], i);
    var d := DetectFor(s, w, i.licences, map[]).value;
    assert |d.body| == 1;
    assert d.body[0].pred == 1;
  }

  /** A run of the envelope that turns the bracket over: the goal is seeded, and the silent
      instance drawn over the blind tick heads it. */
  method SilentHeadRun(order: Atom -> nat, maxFacts: nat, maxInstances: nat, maxIterations: nat, maxSilent: nat)
    returns (e: Engine, lower: Tables)
    ensures e.Valid()
    ensures !e.capped ==> TurnsOver(lower.facts, lower.instances, e.facts, e.instances, SeededGoal(), {0})
  {
    var records, s := [(0 as nat, SeededGoal())], SilentRule(HeadRule(), [0]);
    var silent: seq<SilentRule>, bindings: seq<seq<Binding>> := [s], [[map[]]];
    BlindTickWitnessed(Interval(0, 0));
    var minted, spots, fault;
    ghost var c, run;
    e, lower, minted, spots, fault, c, run :=
      RunEnvelope([HeadRule()], order, maxFacts, maxInstances, maxIterations, records, BlindTick(), silent, bindings,
                  [], maxSilent);
    GoalIsOnlyRecord(records, c.events);
    NoFault(s);
    if !e.capped {
      assert RuleRepresented(BlindTick(), silent[0], bindings[0], minted, TablesOf(e));
      UpperTablesTurnOver(minted, c, run, lower, TablesOf(e));
    }
  }

  lemma GoalIsOnlyRecord(records: seq<(nat, Atom)>, events: Events)
    requires records == [(0, SeededGoal())] && Recorded(records, events)
    ensures events.Keys == {SeededGoal()}
  {
    assert records[0].1 == SeededGoal();
  }

  lemma NoFault(s: SilentRule)
    requires s == SilentRule(HeadRule(), [0])
    ensures !SilentFaulty(BlindTick(), s)
  {
    forall w ensures !Liveness.WitnessMissing(BlindTick(), [0], w) {
      BlindTickWitnessed(w);
    }
  }

  lemma UpperTablesTurnOver(minted: set<Licence>, c: Context, run: Stages, lower: Tables, upper: Tables)
    requires c.rules == run.second.rules == run.third.rules == [HeadRule()] && RulesOk(c.rules)
    requires c.events.Keys == {SeededGoal()} && run.second.events == c.events && run.third.events == c.events
    requires c.base == c.events.Keys && LeastFixpoint(c, lower.facts) && ExactInstances(c, lower.facts, lower.instances)
    requires forall i :: i in upper.instances && i !in lower.instances ==>
               Accounted(BlindTick(), [SilentRule(HeadRule(), [0])], [[map[]]], [], minted, run, upper.facts, i)
    requires RuleRepresented(BlindTick(), SilentRule(HeadRule(), [0]), [map[]], minted, upper)
    ensures TurnsOver(lower.facts, lower.instances, upper.facts, upper.instances, SeededGoal(), {0})
  {
    HeadRuleSilent(c, lower.facts);
    assert lower.instances == {};
    FirstInstantBlind();
    assert Represented(BlindTick(), SilentRule(HeadRule(), [0]), [map[]], minted, upper, 0);
    GoalHeadedAbove(minted, upper);
    forall i | i in upper.instances && i.head == SeededGoal()
      ensures i.body != [] && exists k :: 0 <= k < |i.blockers| && i.blockers[k] <= {0}
    {
      GoalBlockedAbove(minted, run, upper.facts, i);
      assert i.blockers[0] <= {0};
    }
    TablesTurnOver(lower.facts, lower.instances, upper.facts, upper.instances, SeededGoal(), {0});
  }

  lemma GoalHeadedAbove(minted: set<Licence>, upper: Tables)
    requires Represented(BlindTick(), SilentRule(HeadRule(), [0]), [map[]], minted, upper, 0)
    ensures !Unsupported(upper.instances, SeededGoal())
  {
    var s := SilentRule(HeadRule(), [0]);
    var w :| Liveness.BlindWindow(BlindTick(), s.sources, w) && w.Contains(0)
             && WindowDrawn(BlindTick(), s, [map[]], w, minted, upper);
    DrawnHeadsGoal(w, minted, upper);
  }

  lemma DrawnHeadsGoal(w: Interval, minted: set<Licence>, upper: Tables)
    requires w.Contains(0) && WindowDrawn(BlindTick(), SilentRule(HeadRule(), [0]), [map[]], w, minted, upper)
    ensures !Unsupported(upper.instances, SeededGoal())
  {
    var s := SilentRule(HeadRule(), [0]);
    var licences :| licences <= minted && Liveness.Licenses(BlindTick(), s.sources, w, licences)
                    && AllDrawn(s, w, licences, [map[]], 1, upper);
    SilentGoalDrawn(w, licences);
    assert Drawn(s, w, licences, [map[]][0], upper);
  }

  lemma KeyOfMember(h: Atom -> nat, body: seq<Atom>, f: Atom)
    requires f in body
    ensures h(f) in Elements(Keys(h, body))
  {
    var n :| 0 <= n < |body| && body[n] == f;
    assert Keys(h, body)[n] == h(f);
  }

  /** Facts that no published axiom is and that instances head only when blocked or when their
      body holds another of these facts are out of reach. */
  lemma Unreachable(p: Program, facts: set<Atom>, instances: set<GroundInstance>, h: Atom -> nat,
                    id: GroundInstance -> nat, lost: set<Atom>, cut: Mask)
    requires Numbering(h) && Published(p, facts, instances, h, id)
    requires forall f :: f in lost ==> !Unsupported(instances, f)
    requires forall i :: i in instances && i.head in lost ==>
              Blocked(Render(h, id, i), cut) || exists f :: f in lost && f in i.body
    ensures forall f :: f in lost ==> !Derivable(p, cut, h(f))
  {
    var heads := set k | 0 <= k < |p.instances| :: p.instances[k].head;
    var reach := set x | x in Elements(p.axioms) + heads && forall f :: f in lost ==> x != h(f);
    assert forall f :: f in lost ==> h(f) !in p.axioms;
    forall k | 0 <= k < |p.instances| && !Blocked(p.instances[k], cut) && Elements(p.instances[k].body) <= reach
      ensures p.instances[k].head in reach
    {
      assert RendersOne(instances, h, id, p.instances[k]);
      var i :| i in instances && Render(h, id, i) == p.instances[k];
      if i.head in lost {
        var f :| f in lost && f in i.body;
        KeyOfMember(h, i.body, f);
        assert false;
      }
      assert p.instances[k].head in heads;
    }
    forall f, t | f in lost && Derives(p, cut, h(f), t) ensures false {
      DerivationsStayInClosedSets(p, cut, t, reach);
    }
  }

  // ---------------------------------------------------------------------------
  // The published program reproduces the tables
  // ---------------------------------------------------------------------------

  lemma PublishedFiring(facts: set<Atom>, instances: set<GroundInstance>, p: Program, h: Atom -> nat,
                        id: GroundInstance -> nat, i: GroundInstance)
    requires Published(p, facts, instances, h, id) && i in instances
    requires forall k :: 0 <= k < |i.body| ==> Derivable(p, {}, h(i.body[k]))
    requires forall k :: 0 <= k < |p.instances| ==> !Blocked(p.instances[k], {})
    ensures Derivable(p, {}, h(i.head))
  {
    var k :| 0 <= k < |p.instances| && p.instances[k] == Render(h, id, i);
    DerivableByInstance(p, {}, k);
  }

  /** The facts the published program derives with nothing raised. */
  ghost function Kept(p: Program, facts: set<Atom>, h: Atom -> nat): set<Atom> {
    set f | f in facts && Derivable(p, {}, h(f))
  }

  lemma KeptIsClosed(c: Context, facts: set<Atom>, instances: set<GroundInstance>, p: Program, h: Atom -> nat,
                     id: GroundInstance -> nat)
    requires RulesOk(c.rules) && ClosedUnder(c, facts) && ExactInstances(c, facts, instances)
    requires Published(p, facts, instances, h, id)
    requires forall k :: 0 <= k < |p.instances| ==> !Blocked(p.instances[k], {})
    ensures ClosedUnder(c, Kept(p, facts, h))
  {
    var kept := Kept(p, facts, h);
    forall r, chosen | 0 <= r < |c.rules| && Over(chosen, kept) && Firing(c, r, chosen).Some?
      ensures Firing(c, r, chosen).value.head in kept
    {
      assert Over(chosen, facts);
      var i := Firing(c, r, chosen).value;
      assert IsFiring(c, facts, i);
      PublishedFiring(facts, instances, p, h, id, i);
    }
  }

  lemma NothingBlockedByNothing(p: Program)
    requires WellFormed(p)
    ensures forall k :: 0 <= k < |p.instances| ==> !Blocked(p.instances[k], {})
  {
    forall k, j | 0 <= k < |p.instances| && 0 <= j < |p.instances[k].blockers|
      ensures !(p.instances[k].blockers[j] <= {})
    {
      assert |p.instances[k].blockers[j]| == 1;
    }
  }

  /** The published program derives exactly the facts of the tables with nothing raised. */
  ghost predicate Reproduces(p: Program, facts: set<Atom>, h: Atom -> nat) {
    forall f :: f in facts <==> Derivable(p, {}, h(f))
  }

  /** Reachability over the published program derives exactly the facts of a grounded fixpoint if
      and only if it derives every seeded fact. */
  lemma PublishedReproducesIff(c: Context, facts: set<Atom>, instances: set<GroundInstance>, p: Program,
                               h: Atom -> nat, id: GroundInstance -> nat)
    requires WellFormed(p) && Numbering(h)
    requires RulesOk(c.rules) && LeastFixpoint(c, facts) && ExactInstances(c, facts, instances)
    requires Published(p, facts, instances, h, id)
    ensures Reproduces(p, facts, h) <==> forall s :: s in c.base ==> Derivable(p, {}, h(s))
  {
    NothingBlockedByNothing(p);
    forall f | Derivable(p, {}, h(f)) ensures f in facts {
      var t :| Derives(p, {}, h(f), t);
      PublishedClosure(c, facts, instances, p, h, id);
      DerivationsStayInClosedSets(p, {}, t, set g | g in facts :: h(g));
      var g :| g in facts && h(g) == h(f);
    }
    if forall s :: s in c.base ==> Derivable(p, {}, h(s)) {
      KeptIsClosed(c, facts, instances, p, h, id);
      assert facts <= Kept(p, facts, h);
    }
  }

  /** In particular when no seeded fact is also headed by an instance. */
  lemma PublishedDerivesTables(c: Context, facts: set<Atom>, instances: set<GroundInstance>, p: Program,
                               h: Atom -> nat, id: GroundInstance -> nat)
    requires WellFormed(p) && Numbering(h)
    requires RulesOk(c.rules) && LeastFixpoint(c, facts) && ExactInstances(c, facts, instances)
    requires Published(p, facts, instances, h, id)
    requires forall s :: s in c.base ==> Unsupported(instances, s)
    ensures Reproduces(p, facts, h)
  {
    forall s | s in c.base ensures Derivable(p, {}, h(s)) {
      assert h(s) in p.axioms;
      assert Derives(p, {}, h(s), Leaf(h(s)));
    }
    PublishedReproducesIff(c, facts, instances, p, h, id);
  }

  lemma PublishedClosure(c: Context, facts: set<Atom>, instances: set<GroundInstance>, p: Program, h: Atom -> nat,
                         id: GroundInstance -> nat)
    requires RulesOk(c.rules) && ClosedUnder(c, facts) && ExactInstances(c, facts, instances)
    requires Published(p, facts, instances, h, id)
    ensures Closed(p, {}, set g | g in facts :: h(g))
  {
    var keys := set g | g in facts :: h(g);
    forall x | x in p.axioms ensures x in keys {
      var f: Atom :| h(f) == x;
      assert h(f) in p.axioms;
    }
    forall k | 0 <= k < |p.instances| ensures p.instances[k].head in keys {
      assert RendersOne(instances, h, id, p.instances[k]);
      var i :| i in instances && Render(h, id, i) == p.instances[k];
      assert IsFiring(c, facts, i);
    }
  }

  /** A seeded fact on a cycle is lost: when every instance heading either of two facts stands on
      the other, beside whatever else, the published program derives neither under any cut. */
  lemma SeededCycleIsLost(p: Program, facts: set<Atom>, instances: set<GroundInstance>, a: Atom, b: Atom,
                          h: Atom -> nat, id: GroundInstance -> nat, cut: Mask)
    requires Published(p, facts, instances, h, id) && Numbering(h)
    requires forall i :: i in instances ==> (i.head == a ==> b in i.body) && (i.head == b ==> a in i.body)
    requires (exists i :: i in instances && i.head == a) && exists i :: i in instances && i.head == b
    ensures !Derivable(p, cut, h(a)) && !Derivable(p, cut, h(b))
  {
    Unreachable(p, facts, instances, h, id, {a, b}, cut);
  }

  // ---------------------------------------------------------------------------
  // A rule table on which a seeded fact is lost
  // ---------------------------------------------------------------------------

  /** What the rule loader asks of a detect rule: a body slot whose predicate no rule heads. */
  ghost predicate HasAxiomSlot(rules: seq<Rule>, r: Rule) {
    exists k :: 0 <= k < |r.body| && forall j :: 0 <= j < |rules| ==> rules[j].head.pred != r.body[k].pred
  }

  function CycleFact(pred: nat): Atom { Atom(pred, [], 5) }

  function CyclePattern(pred: nat): Pattern { Pattern(pred, [], 0) }

  function Other(r: nat): nat { if r == 0 then 1 else 0 }

  /** Fact 1 from facts 0 and 2, and fact 0 from facts 1 and 3. */
  function CycleRule(r: nat): Rule {
    Rule(r, [CyclePattern(r), CyclePattern(r + 2)], CyclePattern(Other(r)), [], NoTemporal, (fs: seq<Atom>) => true,
         (low: int, high: int) => true)
  }

  /** Facts 0, 2 and 3 are seeded, each by one record. */
  function CycleContext(): Context {
    Context([CycleRule(0), CycleRule(1)], {CycleFact(0), CycleFact(2), CycleFact(3)}, Snapshot({}, map[]),
            map[CycleFact(0) := {0}, CycleFact(2) := {2}, CycleFact(3) := {3}])
  }

  function CycleFacts(): set<Atom> { {CycleFact(0), CycleFact(1), CycleFact(2), CycleFact(3)} }

  function CycleInstance(r: nat): GroundInstance {
    var body := [CycleFact(r), CycleFact(r + 2)];
    GroundInstance(r, CycleFact(Other(r)), body, [], true, EvidenceFor(CycleRule(r), body, {},
                                  CycleContext().events), {}, false)
  }

  lemma UnifyCycle(pred: nat, f: Atom, env: Env)
    requires f in CycleFacts() && (env == map[] || env == map[0 := At(5)])
    ensures Unify(CyclePattern(pred), f, env, false) == if f.pred == pred then Some(map[0 := At(5)]) else None
  {
    assert env[0 := At(5)] == map[0 := At(5)];
  }

  /** Each rule takes one tuple of the facts. */
  lemma {:induction false} CycleUnifies(r: nat, chosen: seq<Atom>)
    requires r < 2 && Over(chosen, CycleFacts()) && |chosen| == 2
    ensures UnifyAll(CycleRule(r).body, chosen, map[])
         == if chosen == CycleInstance(r).body then Some(map[0 := At(5)]) else None
  {
    var body := CycleRule(r).body;
    UnifyCycle(r, chosen[0], map[]);
    UnifyCycle(r + 2, chosen[1], map[0 := At(5)]);
    assert body[1..][1..] == [] && chosen[1..][1..] == [];
  }

  lemma CycleFires(r: nat, chosen: seq<Atom>)
    requires r < 2 && Over(chosen, CycleFacts()) && RulesOk(CycleContext().rules)
    ensures Firing(CycleContext(), r, chosen)
         == if chosen == CycleInstance(r).body then Some(CycleInstance(r)) else None
  {
    if |chosen| == 2 {
      CycleUnifies(r, chosen);
      if chosen == CycleInstance(r).body {
        assert (1, r + 2) in EvidenceFor(CycleRule(r), chosen, {}, CycleContext().events);
      }
    }
  }

  lemma CycleIsFixpoint(c: Context, facts: set<Atom>, instances: set<GroundInstance>)
    requires c == CycleContext() && facts == CycleFacts() && instances == {CycleInstance(0), CycleInstance(1)}
    requires RulesOk(c.rules)
    ensures LeastFixpoint(c, facts) && ExactInstances(c, facts, instances)
  {
    forall r, chosen | 0 <= r < 2 && Over(chosen, facts)
      ensures Firing(c, r, chosen) == if chosen == CycleInstance(r).body then Some(CycleInstance(r)) else None
    {
      CycleFires(r, chosen);
    }
    forall r: nat | r < 2 ensures IsFiring(c, facts, CycleInstance(r)) {
      assert Over(CycleInstance(r).body, facts) && Firing(c, r, CycleInstance(r).body) == Some(CycleInstance(r));
    }
    forall closed | ClosedUnder(c, closed) && c.base <= closed ensures facts <= closed {
      assert Over(CycleInstance(0).body, closed) && Firing(c, 0, CycleInstance(0).body) == Some(CycleInstance(0));
    }
  }

  lemma CycleRulesOk(rules: seq<Rule>)
    requires rules == CycleContext().rules
    ensures RulesOk(rules) && Stratified(rules) && forall r :: 0 <= r < |rules| ==> HasAxiomSlot(rules, rules[r])
  {
    forall r | 0 <= r < |rules| ensures HasAxiomSlot(rules, rules[r]) {
      assert rules[r].body[1].pred == r + 2;
    }
  }

  lemma CycleLost(p: Program, instances: set<GroundInstance>, h: Atom -> nat, id: GroundInstance -> nat)
    requires instances == {CycleInstance(0), CycleInstance(1)}
    requires Numbering(h) && Published(p, CycleFacts(), instances, h, id)
    ensures !Derivable(p, {}, h(CycleFact(0)))
  {
    var first, second := CycleInstance(0), CycleInstance(1);
    assert first.head == CycleFact(1) && second.head == CycleFact(0);
    assert first.body[0] == CycleFact(0) && second.body[0] == CycleFact(1);
    SeededCycleIsLost(p, CycleFacts(), instances, CycleFact(0), CycleFact(1), h, id, {});
  }

  /** The tables of the two rules over the three seeds are a grounded fixpoint, the loader accepts
      the rules, and a seeded fact is not derivable in any program published from the tables. */
  lemma SeededFactLost(c: Context, p: Program, instances: set<GroundInstance>, h: Atom -> nat,
                       id: GroundInstance -> nat)
    requires c == CycleContext() && instances == {CycleInstance(0), CycleInstance(1)}
    requires Numbering(h) && Published(p, CycleFacts(), instances, h, id)
    ensures RulesOk(c.rules) && Stratified(c.rules)
    ensures forall r :: 0 <= r < |c.rules| ==> HasAxiomSlot(c.rules, c.rules[r])
    ensures LeastFixpoint(c, CycleFacts()) && ExactInstances(c, CycleFacts(), instances)
    ensures CycleFact(0) in c.base && !Derivable(p, {}, h(CycleFact(0)))
  {
    CycleRulesOk(c.rules);
    CycleIsFixpoint(c, CycleFacts(), instances);
    CycleLost(p, instances, h, id);
  }
}
