/** What a firing means (ground.py, `_unify`, `_check_temporal`, `_evidence_for` and `_head_fact`), told
    apart from how it is computed: one assignment of the variables, an operator that holds under it, the
    head pattern under it, and the records behind what it consumed.
 */
module Firings {
  import opened Wrappers
  import opened Grounding

  // ---------------------------------------------------------------------------
  // Joins are assignments
  // ---------------------------------------------------------------------------

  ghost predicate GivesArgs(sigma: Env, vars: seq<nat>, args: seq<nat>) {
    |vars| == |args| && forall k :: 0 <= k < |vars| ==> vars[k] in sigma && sigma[vars[k]] == Entity(args[k])
  }

  /** The pattern under the assignment is the fact: its predicate, its arguments and its tick. */
  ghost predicate Gives(sigma: Env, p: Pattern, f: Atom) {
    && p.pred == f.pred && GivesArgs(sigma, p.entityVars, f.args)
    && p.tickVar in sigma && sigma[p.tickVar] == At(f.tick)
  }

  ghost predicate GivesAll(sigma: Env, patterns: seq<Pattern>, facts: seq<Atom>) {
    |patterns| == |facts| && forall k :: 0 <= k < |patterns| ==> Gives(sigma, patterns[k], facts[k])
  }

  ghost predicate Extends(sigma: Env, env: Env) {
    forall v :: v in env ==> v in sigma && sigma[v] == env[v]
  }

  function VarsOf(p: Pattern): set<nat> {
    (set v | v in p.entityVars) + {p.tickVar}
  }

  ghost function VarsOfAll(patterns: seq<Pattern>): set<nat> {
    set k: nat, v | k < |patterns| && v in VarsOf(patterns[k]) :: v
  }

  /** The least environment asked for: exactly the extensions of `env` that satisfy `wanted` extend it,
      and there is one unless no extension of `env` does. */
  ghost predicate LeastExtension(r: Option<Env>, env: Env, wanted: Env -> bool) {
    forall sigma :: Extends(sigma, env) && wanted(sigma) <==> r.Some? && Extends(sigma, r.value)
  }

  lemma {:induction false} BindArgsMeans(vars: seq<nat>, args: seq<nat>, env: Env)
    requires |vars| == |args|
    ensures LeastExtension(BindArgs(vars, args, env), env, sigma => GivesArgs(sigma, vars, args))
    ensures BindArgs(vars, args, env).Some? ==>
              BindArgs(vars, args, env).value.Keys == env.Keys + set v | v in vars
    decreases |vars|
  {
    var r := BindArgs(vars, args, env);
    if vars == [] {
    } else {
      var next := env[vars[0] := Entity(args[0])];
      assert vars == [vars[0]] + vars[1..] && args == [args[0]] + args[1..];
      BindArgsMeans(vars[1..], args[1..], next);
      forall sigma ensures Extends(sigma, env) && GivesArgs(sigma, vars, args) <==> r.Some? && Extends(sigma, r.value) {
        GivesFirst(sigma, vars, args);
        NextExtends(sigma, env, vars[0], Entity(args[0]));
      }
    }
  }

  lemma GivesFirst(sigma: Env, vars: seq<nat>, args: seq<nat>)
    requires |vars| == |args| && vars != []
    ensures GivesArgs(sigma, vars, args)
       <==> vars[0] in sigma && sigma[vars[0]] == Entity(args[0]) && GivesArgs(sigma, vars[1..], args[1..])
  {
    if GivesArgs(sigma, vars[1..], args[1..]) && vars[0] in sigma && sigma[vars[0]] == Entity(args[0]) {
      forall k | 0 <= k < |vars| ensures vars[k] in sigma && sigma[vars[k]] == Entity(args[k]) {
        if k > 0 {
          assert vars[1..][k - 1] == vars[k] && args[1..][k - 1] == args[k];
        }
      }
    }
  }

  /** Extending with one more entry asks that entry besides. */
  lemma NextExtends(sigma: Env, env: Env, v: nat, value: Value)
    ensures v in env && env[v] != value ==> !(Extends(sigma, env) && v in sigma && sigma[v] == value)
    ensures (v in env ==> env[v] == value) ==>
              (Extends(sigma, env[v := value]) <==> Extends(sigma, env) && v in sigma && sigma[v] == value)
  {
    if Extends(sigma, env[v := value]) {
      assert v in env[v := value];
      forall u | u in env && u != v ensures u in sigma && sigma[u] == env[u] {
        assert u in env[v := value];
      }
    }
  }

  /** One slot: the least extension that makes the pattern the fact. */
  lemma {:induction false} UnifyMeans(p: Pattern, f: Atom, env: Env)
    ensures LeastExtension(Unify(p, f, env, false), env, sigma => Gives(sigma, p, f))
    ensures Unify(p, f, env, false).Some? ==> Unify(p, f, env, false).value.Keys == env.Keys + VarsOf(p)
  {
    if f.pred == p.pred && |f.args| == |p.entityVars| {
      BindArgsMeans(p.entityVars, f.args, env);
      var bound, r := BindArgs(p.entityVars, f.args, env), Unify(p, f, env, false);
      forall sigma ensures Extends(sigma, env) && Gives(sigma, p, f) <==> r.Some? && Extends(sigma, r.value) {
        assert Extends(sigma, env) && GivesArgs(sigma, p.entityVars, f.args)
          <==> bound.Some? && Extends(sigma, bound.value);
        if bound.Some? {
          NextExtends(sigma, bound.value, p.tickVar, At(f.tick));
        }
      }
    }
  }

  /** Without its tick: the least extension that gives the arguments. */
  lemma {:induction false} TickFreeUnifyMeans(p: Pattern, f: Atom, env: Env)
    ensures Unify(p, f, env, true).Some?
       <==> p.pred == f.pred && exists sigma :: Extends(sigma, env) && GivesArgs(sigma, p.entityVars, f.args)
  {
    if f.pred == p.pred && |f.args| == |p.entityVars| {
      BindArgsMeans(p.entityVars, f.args, env);
      var bound := BindArgs(p.entityVars, f.args, env);
      if bound.Some? {
        assert Extends(bound.value, bound.value);
      }
    }
  }

  /** Slot by slot: the least extension that makes every pattern its fact. */
  lemma {:induction false} UnifyAllMeans(patterns: seq<Pattern>, facts: seq<Atom>, env: Env)
    requires |patterns| == |facts|
    ensures LeastExtension(UnifyAll(patterns, facts, env), env, sigma => GivesAll(sigma, patterns, facts))
    ensures UnifyAll(patterns, facts, env).Some? ==>
              UnifyAll(patterns, facts, env).value.Keys == env.Keys + VarsOfAll(patterns)
    decreases |patterns|
  {
    if patterns == [] {
    } else {
      UnifyMeans(patterns[0], facts[0], env);
      var bound, r := Unify(patterns[0], facts[0], env, false), UnifyAll(patterns, facts, env);
      if bound.Some? {
        UnifyAllMeans(patterns[1..], facts[1..], bound.value);
        FirstVars(patterns);
      }
      forall sigma
        ensures Extends(sigma, env) && GivesAll(sigma, patterns, facts) <==> r.Some? && Extends(sigma, r.value)
      {
        GivesFirstSlot(sigma, patterns, facts);
      }
    }
  }

  lemma FirstVars(patterns: seq<Pattern>)
    requires patterns != []
    ensures VarsOfAll(patterns) == VarsOf(patterns[0]) + VarsOfAll(patterns[1..])
  {
    forall v ensures v in VarsOfAll(patterns) <==> v in VarsOf(patterns[0]) || v in VarsOfAll(patterns[1..]) {
      if k: nat :| k < |patterns| && v in VarsOf(patterns[k]) && k > 0 {
        assert patterns[1..][k - 1] == patterns[k];
      }
      if v in VarsOfAll(patterns[1..]) {
        var k: nat :| k < |patterns[1..]| && v in VarsOf(patterns[1..][k]);
        assert patterns[k + 1] == patterns[1..][k];
      }
    }
  }

  lemma GivesFirstSlot(sigma: Env, patterns: seq<Pattern>, facts: seq<Atom>)
    requires |patterns| == |facts| && patterns != []
    ensures GivesAll(sigma, patterns, facts)
       <==> Gives(sigma, patterns[0], facts[0]) && GivesAll(sigma, patterns[1..], facts[1..])
  {
    if Gives(sigma, patterns[0], facts[0]) && GivesAll(sigma, patterns[1..], facts[1..]) {
      forall k | 0 <= k < |patterns| ensures Gives(sigma, patterns[k], facts[k]) {
        if k > 0 {
          assert patterns[1..][k - 1] == patterns[k] && facts[1..][k - 1] == facts[k];
        }
      }
    }
  }

  /** An assignment of exactly the variables of the patterns, under which they are the facts. */
  ghost predicate Assignment(sigma: Env, patterns: seq<Pattern>, facts: seq<Atom>) {
    sigma.Keys == VarsOfAll(patterns) && GivesAll(sigma, patterns, facts)
  }

  lemma SameEntries(sigma: Env, env: Env)
    requires Extends(sigma, env) && sigma.Keys == env.Keys
    ensures sigma == env
  {
    assert forall v :: v in sigma ==> v in env;
  }

  lemma {:induction false} AssignmentIsJoin(patterns: seq<Pattern>, facts: seq<Atom>, r: Option<Env>, sigma: Env)
    requires |patterns| == |facts| && r == UnifyAll(patterns, facts, map[])
    ensures Assignment(sigma, patterns, facts) <==> r == Some(sigma)
  {
    UnifyAllMeans(patterns, facts, map[]);
    assert Extends(sigma, map[]) && GivesAll(sigma, patterns, facts) <==> r.Some? && Extends(sigma, r.value);
    if r == Some(sigma) {
      assert Extends(sigma, sigma);
    }
    if Assignment(sigma, patterns, facts) {
      SameEntries(sigma, r.value);
    }
  }

  /** A tuple joins if and only if some assignment makes every slot its fact; it is then the one found,
      and there is no other. */
  lemma {:induction false} JoinIsAssignment(patterns: seq<Pattern>, facts: seq<Atom>)
    requires |patterns| == |facts|
    ensures forall sigma :: Assignment(sigma, patterns, facts) <==> UnifyAll(patterns, facts, map[]) == Some(sigma)
  {
    forall sigma ensures Assignment(sigma, patterns, facts) <==> UnifyAll(patterns, facts, map[]) == Some(sigma) {
      AssignmentIsJoin(patterns, facts, UnifyAll(patterns, facts, map[]), sigma);
    }
  }

  // ---------------------------------------------------------------------------
  // Operators
  // ---------------------------------------------------------------------------

  /** The first end of a recorded span is not after the last. */
  ghost predicate OrderedSpans(s: Snapshot) {
    forall f :: f in s.spans ==> s.spans[f].0 <= s.spans[f].1
  }

  /** The fact may take part in the count: inside the window that ends at the anchor, and equal to the
      pattern under the assignment but for its tick and the counted argument. */
  ghost predicate TakesPart(p: Pattern, f: Atom, sigma: Env, field: nat, low: int, high: int) {
    && f.pred == p.pred && |f.args| == |p.entityVars| && low <= f.tick <= high
    && forall k :: 0 <= k < |f.args| && k != field ==>
         p.entityVars[k] in sigma && sigma[p.entityVars[k]] == Entity(f.args[k])
  }

  /** Facts of the set, no two with the same counted argument. */
  ghost predicate Differ(picks: seq<Atom>, from: set<Atom>, field: nat) {
    && (forall k :: 0 <= k < |picks| ==> picks[k] in from && field < |picks[k].args|)
    && forall j, k :: 0 <= j < k < |picks| ==> picks[j].args[field] != picks[k].args[field]
  }

  /** A fact in the lookback that the absent pattern would match. */
  ghost predicate Contradicts(p: Pattern, f: Atom, sigma: Env, low: int, high: int) {
    && low <= f.tick < high && f.pred == p.pred
    && exists tau :: Extends(tau, sigma) && GivesArgs(tau, p.entityVars, f.args)
  }

  /** The operator holds of the joined tuple and consumes these facts besides. */
  ghost predicate Holds(r: Rule, chosen: seq<Atom>, sigma: Env, base: set<Atom>, s: Snapshot, extra: set<Atom>)
    requires RuleOk(r) && |chosen| == |r.body|
  {
    match r.temporal
    case NoTemporal => extra == {}
    case Sequence(left, right, within) =>
      var a, b := TickRange(s, chosen[left]), TickRange(s, chosen[right]);
      extra == {} && (a.Some? && b.Some? ==> SomePlacement(a.value, b.value, within))
    case DistinctValues(slot, field, n, window) =>
      var anchor := chosen[slot].tick;
      && (forall f :: f in extra <==> f in base && TakesPart(r.body[slot], f, sigma, field, anchor - window, anchor))
      && exists picks :: |picks| == n && Differ(picks, extra, field)
    case AbsenceOf(p, before, lookback) =>
      var anchor := chosen[before].tick;
      && extra == {} && r.available(anchor - lookback, anchor)
      && forall f :: f in base ==> !Contradicts(p, f, sigma, anchor - lookback, anchor)
  }

  lemma {:induction false} PicksAreValues(picks: seq<Atom>, from: set<Atom>, field: nat, values: set<nat>)
    requires Differ(picks, from, field)
    requires forall f :: f in from && field < |f.args| ==> f.args[field] in values
    ensures |picks| <= |values|
  {
    if picks != [] {
      var last := |picks| - 1;
      var v := picks[last].args[field];
      var rest := set f | f in from && field < |f.args| && f.args[field] != v;
      PicksAreValues(picks[..last], rest, field, values - {v});
    }
  }

  lemma {:induction false} ValuesArePicked(from: set<Atom>, field: nat, values: set<nat>, n: nat)
    returns (picks: seq<Atom>)
    requires forall v :: v in values ==> exists f :: f in from && field < |f.args| && f.args[field] == v
    requires n <= |values|
    ensures |picks| == n && Differ(picks, from, field)
    ensures forall k :: 0 <= k < n ==> picks[k].args[field] in values
    decreases n
  {
    if n == 0 {
      picks := [];
    } else {
      var v :| v in values;
      var f :| f in from && field < |f.args| && f.args[field] == v;
      var rest := ValuesArePicked(from, field, values - {v}, n - 1);
      picks := rest + [f];
    }
  }

  /** Counting values is picking facts that differ. */
  lemma {:induction false} EnoughValues(from: set<Atom>, field: nat, n: nat)
    ensures (exists picks :: |picks| == n && Differ(picks, from, field))
       <==> |set f | f in from && field < |f.args| :: f.args[field]| >= n
  {
    var values := set f | f in from && field < |f.args| :: f.args[field];
    if picks :| |picks| == n && Differ(picks, from, field) {
      PicksAreValues(picks, from, field, values);
    }
    if |values| >= n {
      var picks := ValuesArePicked(from, field, values, n);
    }
  }

  /** Under an assignment of the pattern's variables, agreeing but for one argument is taking part. */
  lemma AgreesIsTakingPart(p: Pattern, f: Atom, sigma: Env, field: nat, low: int, high: int)
    requires forall v :: v in p.entityVars ==> v in sigma
    ensures TakesPart(p, f, sigma, field, low, high) <==> low <= f.tick <= high && AgreesExcept(p, f, sigma, field)
  {
    assert forall k :: 0 <= k < |p.entityVars| ==> p.entityVars[k] in p.entityVars;
  }

  lemma {:induction false} DistinctMeans(r: Rule, chosen: seq<Atom>, sigma: Env, base: set<Atom>, s: Snapshot,
                                         extra: set<Atom>)
    requires RuleOk(r) && |chosen| == |r.body| && r.temporal.DistinctValues? && VarsOfAll(r.body) <= sigma.Keys
    ensures Holds(r, chosen, sigma, base, s, extra) <==> CheckTemporal(r, chosen, sigma, base, s) == Some(extra)
  {
    var DistinctValues(slot, field, n, window) := r.temporal;
    var p, anchor := r.body[slot], chosen[slot];
    var taking := set f | f in base && anchor.tick - window <= f.tick <= anchor.tick
                          && AgreesExcept(p, f, sigma, field);
    forall v | v in p.entityVars ensures v in sigma {
      assert v in VarsOf(r.body[slot]);
    }
    forall f
      ensures f in taking <==> f in base && TakesPart(p, f, sigma, field, anchor.tick - window, anchor.tick)
    {
      AgreesIsTakingPart(p, f, sigma, field, anchor.tick - window, anchor.tick);
    }
    assert (forall f :: f in extra <==> f in base && TakesPart(p, f, sigma, field, anchor.tick - window, anchor.tick))
      <==> extra == taking;
    EnoughValues(taking, field, n);
  }

  lemma {:induction false} AbsenceMeans(r: Rule, chosen: seq<Atom>, sigma: Env, base: set<Atom>, s: Snapshot,
                                        extra: set<Atom>)
    requires RuleOk(r) && |chosen| == |r.body| && r.temporal.AbsenceOf?
    ensures Holds(r, chosen, sigma, base, s, extra) <==> CheckTemporal(r, chosen, sigma, base, s) == Some(extra)
  {
    var AbsenceOf(p, before, lookback) := r.temporal;
    var anchor := chosen[before].tick;
    forall f
      ensures Contradicts(p, f, sigma, anchor - lookback, anchor)
         <==> anchor - lookback <= f.tick < anchor && Unify(p, f, sigma, true).Some?
    {
      TickFreeUnifyMeans(p, f, sigma);
    }
  }

  /** The operator passes with these extra facts if and only if it holds with them. */
  lemma {:induction false} TemporalMeans(r: Rule, chosen: seq<Atom>, sigma: Env, base: set<Atom>, s: Snapshot,
                                         extra: set<Atom>)
    requires RuleOk(r) && |chosen| == |r.body| && VarsOfAll(r.body) <= sigma.Keys && OrderedSpans(s)
    ensures Holds(r, chosen, sigma, base, s, extra) <==> CheckTemporal(r, chosen, sigma, base, s) == Some(extra)
  {
    match r.temporal
    case NoTemporal =>
    case Sequence(left, right, within) =>
      var a, b := TickRange(s, chosen[left]), TickRange(s, chosen[right]);
      if a.Some? && b.Some? {
        SeqFeasibleIsPlacement(a.value, b.value, within);
      }
    case DistinctValues(_, _, _, _) => DistinctMeans(r, chosen, sigma, base, s, extra);
    case AbsenceOf(_, _, _) => AbsenceMeans(r, chosen, sigma, base, s, extra);
  }

  // ---------------------------------------------------------------------------
  // Emission
  // ---------------------------------------------------------------------------

  ghost predicate RecordOf(events: Events, f: Atom, e: nat) {
    f in events && e in events[f]
  }

  /** The records behind the chosen facts by slot, and behind the extra facts by the counted slot. */
  ghost predicate EvidenceIs(evidence: set<(nat, nat)>, r: Rule, chosen: seq<Atom>, extra: set<Atom>, events: Events) {
    forall k: nat, e: nat :: (k, e) in evidence <==>
      || (k < |chosen| && RecordOf(events, chosen[k], e))
      || (r.temporal.DistinctValues? && k == r.temporal.slot && exists f :: f in extra && RecordOf(events, f, e))
  }

  lemma EvidenceMeans(r: Rule, chosen: seq<Atom>, extra: set<Atom>, events: Events, evidence: set<(nat, nat)>)
    ensures EvidenceIs(evidence, r, chosen, extra, events) <==> evidence == EvidenceFor(r, chosen, extra, events)
  {
    var found := EvidenceFor(r, chosen, extra, events);
    assert EvidenceIs(found, r, chosen, extra, events);
    if EvidenceIs(evidence, r, chosen, extra, events) {
      forall x ensures x in evidence <==> x in found {
        assert x == (x.0, x.1);
      }
    }
  }

  lemma {:induction false} HeadArgsMeans(vars: seq<nat>, env: Env, args: seq<nat>)
    ensures HeadArgs(vars, env) == Some(args) <==> GivesArgs(env, vars, args)
    decreases |vars|
  {
    if vars != [] {
      if args != [] {
        HeadArgsMeans(vars[1..], env, args[1..]);
        assert args == [args[0]] + args[1..];
        if |vars| == |args| {
          GivesFirst(env, vars, args);
        }
      }
    }
  }

  lemma HeadMeans(p: Pattern, env: Env, head: Atom)
    ensures HeadAtom(p, env) == Some(head) <==> Gives(env, p, head)
  {
    HeadArgsMeans(p.entityVars, env, head.args);
  }

  /** The rule fires on the tuple as this instance: under one assignment of the body's variables every
      slot is its fact and the head pattern is the head; the data guard holds, unless a chosen fact is
      time-free; the operator holds; and the evidence is the records consumed, of which there are some. */
  ghost predicate FiresAs(r: Rule, chosen: seq<Atom>, base: set<Atom>, s: Snapshot, events: Events, i: GroundInstance,
                          sigma: Env, extra: set<Atom>)
    requires RuleOk(r)
  {
    && Assignment(sigma, r.body, chosen)
    && ((exists k :: 0 <= k < |chosen| && chosen[k] in s.timeFree) || r.guard(chosen))
    && Holds(r, chosen, sigma, base, s, extra)
    && EvidenceIs(i.evidence, r, chosen, extra, events) && i.evidence != {}
    && Gives(sigma, r.head, i.head)
    && i == GroundInstance(r.id, i.head, chosen, r.blockers, true, i.evidence, {}, false)
  }

  lemma AnyTimeFree(chosen: seq<Atom>, s: Snapshot)
    ensures (exists f :: f in chosen && f in s.timeFree) <==> exists k :: 0 <= k < |chosen| && chosen[k] in s.timeFree
  {
  }

  lemma {:induction false} EmissionSteps(r: Rule, chosen: seq<Atom>, sigma: Env, base: set<Atom>, s: Snapshot,
                                         events: Events, i: GroundInstance, extra: set<Atom>)
    requires RuleOk(r) && |chosen| == |r.body| && CheckTemporal(r, chosen, sigma, base, s) == Some(extra)
    ensures Emission(r, chosen, sigma, base, s, events) == Some(i)
       <==> ((exists f :: f in chosen && f in s.timeFree) || r.guard(chosen))
            && i.evidence == EvidenceFor(r, chosen, extra, events) && i.evidence != {}
            && HeadAtom(r.head, sigma) == Some(i.head)
            && i == GroundInstance(r.id, i.head, chosen, r.blockers, true, i.evidence, {}, false)
  {
  }

  lemma {:induction false} EmissionWith(r: Rule, chosen: seq<Atom>, sigma: Env, base: set<Atom>, s: Snapshot,
                                        events: Events, i: GroundInstance, extra: set<Atom>)
    requires RuleOk(r) && Assignment(sigma, r.body, chosen)
    requires CheckTemporal(r, chosen, sigma, base, s) == Some(extra) && Holds(r, chosen, sigma, base, s, extra)
    ensures Emission(r, chosen, sigma, base, s, events) == Some(i)
       <==> FiresAs(r, chosen, base, s, events, i, sigma, extra)
  {
    EmissionSteps(r, chosen, sigma, base, s, events, i, extra);
    AnyTimeFree(chosen, s);
    HeadMeans(r.head, sigma, i.head);
    EvidenceMeans(r, chosen, extra, events, i.evidence);
  }

  lemma {:induction false} EmissionMeans(r: Rule, chosen: seq<Atom>, sigma: Env, base: set<Atom>, s: Snapshot,
                                         events: Events, i: GroundInstance)
    requires RuleOk(r) && OrderedSpans(s) && Assignment(sigma, r.body, chosen)
    ensures Emission(r, chosen, sigma, base, s, events) == Some(i)
       <==> exists extra :: FiresAs(r, chosen, base, s, events, i, sigma, extra)
  {
    var checked := CheckTemporal(r, chosen, sigma, base, s);
    if checked.Some? {
      TemporalMeans(r, chosen, sigma, base, s, checked.value);
      EmissionWith(r, chosen, sigma, base, s, events, i, checked.value);
    }
    if extra :| FiresAs(r, chosen, base, s, events, i, sigma, extra) {
      TemporalMeans(r, chosen, sigma, base, s, extra);
    }
  }

  /** A rule fires exactly as its meaning says, on every tuple and base. */
  lemma {:induction false} FiringMeans(r: Rule, chosen: seq<Atom>, base: set<Atom>, s: Snapshot, events: Events,
                                       i: GroundInstance)
    requires RuleOk(r) && OrderedSpans(s)
    ensures Fires(r, chosen, base, s, events) == Some(i)
       <==> exists sigma, extra :: FiresAs(r, chosen, base, s, events, i, sigma, extra)
  {
    if |chosen| == |r.body| {
      JoinIsAssignment(r.body, chosen);
      var joined := UnifyAll(r.body, chosen, map[]);
      if joined.Some? {
        EmissionMeans(r, chosen, joined.value, base, s, events, i);
      }
      if sigma, extra :| FiresAs(r, chosen, base, s, events, i, sigma, extra) {
        assert joined == Some(sigma);
      }
    }
  }
}
