/** Semi-naive grounding (ground.py, `Engine`): rules joined against a growing fact base with
    one body slot pinned to the latest delta, until nothing new appears.

    Predicates, variables, entities, events and sources are numbers; a fact and an instance
    are identified by their content, as their hashes identify them in the source.
 */
module Grounding {
  import opened Wrappers
  import opened Reachability
  import opened Licences

  datatype Atom = Atom(pred: nat, args: seq<nat>, tick: nat)

  datatype Value = Entity(id: nat) | At(tick: nat)

  type Env = map<nat, Value>

  datatype Pattern = Pattern(pred: nat, entityVars: seq<nat>, tickVar: nat)

  datatype Temporal =
    | NoTemporal
    | Sequence(left: nat, right: nat, within: int)
    | DistinctValues(slot: nat, field: nat, n: nat, window: int)
    | AbsenceOf(pattern: Pattern, before: nat, lookback: int)

  /** A compiled detect rule. The data guard and the availability oracle are parameters. */
  datatype Rule = Rule(id: nat, body: seq<Pattern>, head: Pattern, blockers: seq<Mask>, temporal: Temporal,
                       guard: seq<Atom> -> bool, available: (int, int) -> bool)

  datatype GroundInstance = GroundInstance(rule: nat, head: Atom, body: seq<Atom>, blockers: seq<Mask>, observed: bool,
                                           evidence: set<(nat, nat)>, licences: set<Licence>, isGhost: bool)

  /** What `_compile_one` checks about a rule's slots. */
  predicate RuleOk(r: Rule) {
    && |r.body| >= 1
    && match r.temporal
       case NoTemporal => true
       case Sequence(left, right, _) => left < |r.body| && right < |r.body|
       case DistinctValues(slot, field, _, _) => slot < |r.body| && field < |r.body[slot].entityVars|
       case AbsenceOf(_, before, _) => before < |r.body|
  }

  // ---------------------------------------------------------------------------
  // Unification
  // ---------------------------------------------------------------------------

  function BindArgs(vars: seq<nat>, args: seq<nat>, env: Env): Option<Env>
    requires |vars| == |args|
  {
    if vars == [] then Some(env)
    else if vars[0] in env && env[vars[0]] != Entity(args[0]) then None
    else BindArgs(vars[1..], args[1..], env[vars[0] := Entity(args[0])])
  }

  function Unify(p: Pattern, f: Atom, env: Env, tickFree: bool): (r: Option<Env>)
    ensures r.Some? ==> f.pred == p.pred && |f.args| == |p.entityVars|
  {
    if f.pred != p.pred || |f.args| != |p.entityVars| then None
    else
      match BindArgs(p.entityVars, f.args, env)
      case None => None
      case Some(bound) =>
        if tickFree then Some(bound)
        else if p.tickVar in bound && bound[p.tickVar] != At(f.tick) then None
        else Some(bound[p.tickVar := At(f.tick)])
  }

  /** Patterns against facts, slot by slot. */
  function UnifyAll(patterns: seq<Pattern>, facts: seq<Atom>, env: Env): Option<Env>
    requires |patterns| == |facts|
  {
    if patterns == [] then Some(env)
    else
      match Unify(patterns[0], facts[0], env, false)
      case None => None
      case Some(bound) => UnifyAll(patterns[1..], facts[1..], bound)
  }

  // ---------------------------------------------------------------------------
  // Temporal operators
  // ---------------------------------------------------------------------------

  function Max(a: int, b: int): int { if a < b then b else a }

  function Min(a: int, b: int): int { if a < b then a else b }

  type Span = (int, int)

  /** The interval meet of `seq_feasible`. */
  predicate SeqFeasible(left: Span, right: Span, within: int) {
    Max(right.0 - left.1, 1) <= Min(right.1 - left.0, within)
  }

  /** What the operator promises: some placement satisfies `l < r <= l + within`. */
  ghost predicate SomePlacement(left: Span, right: Span, within: int) {
    exists l, r :: Places(left, right, within, l, r)
  }

  ghost predicate Places(left: Span, right: Span, within: int, l: int, r: int) {
    left.0 <= l <= left.1 && right.0 <= r <= right.1 && l < r <= l + within
  }

  lemma SeqFeasibleIsPlacement(left: Span, right: Span, within: int)
    requires left.0 <= left.1 && right.0 <= right.1
    ensures SeqFeasible(left, right, within) <==> SomePlacement(left, right, within)
  {
    if SeqFeasible(left, right, within) {
      var gap := Max(right.0 - left.1, 1);
      var l := Max(left.0, right.0 - gap);
      assert Places(left, right, within, l, l + gap);
    }
    if SomePlacement(left, right, within) {
      var l, r :| Places(left, right, within, l, r);
      assert right.0 - left.1 <= r - l <= right.1 - left.0;
    }
  }

  function Hull(a: Span, b: Span): Span {
    (Min(a.0, b.0), Max(a.1, b.1))
  }

  function HullOf(spans: seq<Span>): Span
    requires |spans| > 0
  {
    if |spans| == 1 then spans[0] else Hull(spans[|spans| - 1], HullOf(spans[..|spans| - 1]))
  }

  /** Widening a licensed fact's span to the hull over its instances, on either side of the
      operator, never rejects a pair that one instance's own span admitted. */
  lemma {:induction false} HullAdmitsMembers(spans: seq<Span>, k: nat, other: Span, within: int)
    requires k < |spans|
    ensures SeqFeasible(spans[k], other, within) ==> SeqFeasible(HullOf(spans), other, within)
    ensures SeqFeasible(other, spans[k], within) ==> SeqFeasible(other, HullOf(spans), within)
    decreases |spans|
  {
    if k < |spans| - 1 {
      HullAdmitsMembers(spans[..|spans| - 1], k, other, within);
    }
  }

  /** Facts whose tick stands for an interval, as of the start of a saturation. */
  datatype Snapshot = Snapshot(timeFree: set<Atom>, spans: map<Atom, Span>)

  function TickRange(s: Snapshot, f: Atom): Option<Span> {
    if f !in s.timeFree then Some((f.tick, f.tick))
    else if f in s.spans then Some(s.spans[f])
    else None
  }

  predicate AgreesExcept(p: Pattern, f: Atom, env: Env, free: nat) {
    && f.pred == p.pred && |f.args| == |p.entityVars|
    && forall i :: 0 <= i < |p.entityVars| && i != free && p.entityVars[i] in env ==>
         env[p.entityVars[i]] == Entity(f.args[i])
  }

  /** The extra facts an operator consumed, or `None` when it fails. `base` is the fact base. */
  function CheckTemporal(r: Rule, chosen: seq<Atom>, env: Env, base: set<Atom>, s: Snapshot): Option<set<Atom>>
    requires RuleOk(r) && |chosen| == |r.body|
  {
    match r.temporal
    case NoTemporal => Some({})
    case Sequence(left, right, within) =>
      var l, rr := TickRange(s, chosen[left]), TickRange(s, chosen[right]);
      if l.None? || rr.None? then Some({})
      else if SeqFeasible(l.value, rr.value, within) then Some({})
      else None
    case DistinctValues(slot, field, n, window) =>
      var p, anchor := r.body[slot], chosen[slot];
      var taking := set f | f in base && anchor.tick - window <= f.tick <= anchor.tick
                          && AgreesExcept(p, f, env, field);
      var values := set f | f in taking && field < |f.args| :: f.args[field];
      if |values| < n then None else Some(taking)
    case AbsenceOf(p, before, lookback) =>
      var anchor := chosen[before];
      if exists f :: f in base && anchor.tick - lookback <= f.tick < anchor.tick
                && Unify(p, f, env, true).Some? then None
      else if r.available(anchor.tick - lookback, anchor.tick) then Some({})
      else None
  }

  // ---------------------------------------------------------------------------
  // Emission
  // ---------------------------------------------------------------------------

  type Events = map<Atom, set<nat>>

  /** Records behind the chosen facts, by slot, and behind the operator's extra facts. */
  function EvidenceFor(r: Rule, chosen: seq<Atom>, extra: set<Atom>, events: Events): set<(nat, nat)> {
    (set k: nat, e | k < |chosen| && chosen[k] in events && e in events[chosen[k]] :: (k, e))
    + (if r.temporal.DistinctValues?
         then set f, e | f in extra && f in events && e in events[f] :: (r.temporal.slot, e) else {})
  }

  function HeadArgs(vars: seq<nat>, env: Env): Option<seq<nat>> {
    if vars == [] then Some([])
    else if vars[0] !in env || !env[vars[0]].Entity? then None
    else
      match HeadArgs(vars[1..], env)
      case None => None
      case Some(rest) => Some([env[vars[0]].id] + rest)
  }

  function HeadAtom(p: Pattern, env: Env): (r: Option<Atom>)
    ensures r.Some? ==> r.value.pred == p.pred
  {
    match HeadArgs(p.entityVars, env)
    case None => None
    case Some(args) =>
      if p.tickVar in env && env[p.tickVar].At? then Some(Atom(p.pred, args, env[p.tickVar].tick)) else None
  }

  /** What `_emit` adds for one joined tuple, if anything. */
  function Emission(r: Rule, chosen: seq<Atom>, env: Env, base: set<Atom>, s: Snapshot,
                    events: Events): (e: Option<GroundInstance>)
    requires RuleOk(r) && |chosen| == |r.body|
    ensures e.Some? ==>
              e.value.head.pred == r.head.pred && e.value.body == chosen && e.value.observed && e.value.licences == {}
  {
    if !(exists f :: f in chosen && f in s.timeFree) && !r.guard(chosen) then None
    else
      match CheckTemporal(r, chosen, env, base, s)
      case None => None
      case Some(extra) =>
        var evidence := EvidenceFor(r, chosen, extra, events);
        if evidence == {} then None
        else
          match HeadAtom(r.head, env)
          case None => None
          case Some(head) => Some(GroundInstance(r.id, head, chosen, r.blockers, true, evidence, {}, false))
  }

  /** The whole effect of a rule on a tuple of facts. */
  function Fires(r: Rule, chosen: seq<Atom>, base: set<Atom>, s: Snapshot, events: Events): (e: Option<GroundInstance>)
    requires RuleOk(r)
    ensures e.Some? ==>
              e.value.head.pred == r.head.pred && e.value.body == chosen && e.value.observed && e.value.licences == {}
  {
    if |chosen| != |r.body| then None
    else
      match UnifyAll(r.body, chosen, map[])
      case None => None
      case Some(env) => Emission(r, chosen, env, base, s, events)
  }
}
