/** The stateful engine of ground.py: the fact base with its buckets, the instance table, the
    delta, and saturation. The source's caps are parameters of the engine.
 */
module Saturation {
  import opened Wrappers
  import opened Reachability
  import opened Grounding
  import opened Firings

  // ---------------------------------------------------------------------------
  // What saturation is measured against
  // ---------------------------------------------------------------------------

  /** The inputs of one saturation that do not change while it runs: the rules, the fact base
      it started from, the time-free snapshot and the records behind the axioms. */
  datatype Context = Context(rules: seq<Rule>, base: set<Atom>, snap: Snapshot, events: Events)

  ghost predicate RulesOk(rules: seq<Rule>) {
    forall r :: 0 <= r < |rules| ==> RuleOk(rules[r])
  }

  predicate Over(chosen: seq<Atom>, facts: set<Atom>) {
    forall k :: 0 <= k < |chosen| ==> chosen[k] in facts
  }

  /** The firing of rule `r` on a tuple, judged against the starting base. */
  ghost function Firing(c: Context, r: nat, chosen: seq<Atom>): Option<GroundInstance>
    requires RulesOk(c.rules) && r < |c.rules|
  {
    Fires(c.rules[r], chosen, c.base, c.snap, c.events)
  }

  /** The tuple's firing, if any, is recorded. */
  ghost predicate Done(c: Context, facts: set<Atom>, instances: set<GroundInstance>, r: nat, chosen: seq<Atom>)
    requires RulesOk(c.rules) && r < |c.rules|
  {
    var e := Firing(c, r, chosen);
    e.Some? ==> e.value in instances && e.value.head in facts
  }

  /** Closed under naive application of every rule. */
  ghost predicate ClosedUnder(c: Context, facts: set<Atom>)
    requires RulesOk(c.rules)
  {
    forall r, chosen :: 0 <= r < |c.rules| && Over(chosen, facts) && Firing(c, r, chosen).Some?
                        ==> Firing(c, r, chosen).value.head in facts
  }

  /** Everything in `large` is forced by `small`. */
  ghost predicate Forced(c: Context, small: set<Atom>, large: set<Atom>)
    requires RulesOk(c.rules)
  {
    forall closed :: ClosedUnder(c, closed) && small <= closed ==> large <= closed
  }

  ghost predicate IsFiring(c: Context, facts: set<Atom>, i: GroundInstance)
    requires RulesOk(c.rules)
  {
    exists r, chosen :: 0 <= r < |c.rules| && Over(chosen, facts) && Firing(c, r, chosen) == Some(i)
  }

  // ---------------------------------------------------------------------------
  // Negation reads only underived predicates
  // ---------------------------------------------------------------------------

  /** The predicate whose facts an operator scans, if it scans any. */
  function Scanned(r: Rule): Option<nat>
    requires RuleOk(r)
  {
    match r.temporal
    case DistinctValues(slot, _, _, _) => Some(r.body[slot].pred)
    case AbsenceOf(p, _, _) => Some(p.pred)
    case _ => None
  }

  /** No scanned predicate is the head of a rule. */
  ghost predicate Stratified(rules: seq<Rule>)
    requires RulesOk(rules)
  {
    forall r, h :: 0 <= r < |rules| && 0 <= h < |rules| && Scanned(rules[r]).Some?
                   ==> Scanned(rules[r]).value != rules[h].head.pred
  }

  /** Two bases that agree on the scanned predicate give the same firing. */
  lemma FiresStable(r: Rule, chosen: seq<Atom>, a: set<Atom>, b: set<Atom>, s: Snapshot, events: Events)
    requires RuleOk(r)
    requires Scanned(r).Some? ==> forall f: Atom :: f.pred == Scanned(r).value ==> (f in a <==> f in b)
    ensures Fires(r, chosen, a, s, events) == Fires(r, chosen, b, s, events)
  {
    if |chosen| == |r.body| {
      match UnifyAll(r.body, chosen, map[])
      case None =>
      case Some(env) => CheckTemporalStable(r, chosen, env, a, b, s);
    }
  }

  lemma CheckTemporalStable(r: Rule, chosen: seq<Atom>, env: Env, a: set<Atom>, b: set<Atom>, s: Snapshot)
    requires RuleOk(r) && |chosen| == |r.body|
    requires Scanned(r).Some? ==> forall f: Atom :: f.pred == Scanned(r).value ==> (f in a <==> f in b)
    ensures CheckTemporal(r, chosen, env, a, s) == CheckTemporal(r, chosen, env, b, s)
  {
    match r.temporal
    case DistinctValues(slot, field, n, window) =>
      var p, anchor := r.body[slot], chosen[slot];
      assert (set f | f in a && anchor.tick - window <= f.tick <= anchor.tick && AgreesExcept(p, f, env, field))
          == (set f | f in b && anchor.tick - window <= f.tick <= anchor.tick && AgreesExcept(p, f, env, field));
    case _ =>
  }

  /** While a saturation runs, a firing judged on the current base is the firing judged on the
      starting base. */
  lemma FiringOnCurrentBase(c: Context, facts: set<Atom>, r: nat, chosen: seq<Atom>)
    requires RulesOk(c.rules) && Stratified(c.rules) && r < |c.rules|
    requires c.base <= facts
    requires forall f :: f in facts && f !in c.base ==> exists h :: 0 <= h < |c.rules| && f.pred == c.rules[h].head.pred
    ensures Fires(c.rules[r], chosen, facts, c.snap, c.events) == Firing(c, r, chosen)
  {
    FiresStable(c.rules[r], chosen, facts, c.base, c.snap, c.events);
  }

  // ---------------------------------------------------------------------------
  // Growth
  // ---------------------------------------------------------------------------

  /** Growth by rule application: nothing is retracted, every new fact has a derived predicate
      and every new instance is observed. When negation is stratified, rule application also forces everything new. */
  ghost predicate SoundGrowth(c: Context, facts: set<Atom>, instances: set<GroundInstance>, facts': set<Atom>,
                              instances': set<GroundInstance>)
    requires RulesOk(c.rules)
  {
    && facts <= facts'
    && instances <= instances'
    && (forall f :: f in facts' && f !in facts ==> exists r :: 0 <= r < |c.rules| && f.pred == c.rules[r].head.pred)
    && (forall i :: i in instances' && i !in instances ==> i.observed && i.licences == {})
    && (Stratified(c.rules) ==> ForcedGrowth(c, facts, instances, facts', instances'))
  }

  ghost predicate ForcedGrowth(c: Context, facts: set<Atom>, instances: set<GroundInstance>, facts': set<Atom>,
                               instances': set<GroundInstance>)
    requires RulesOk(c.rules)
  {
    && Forced(c, facts, facts')
    && forall i :: i in instances' && i !in instances ==> IsFiring(c, facts', i)
  }

  lemma SoundGrowthComposes(c: Context, f0: set<Atom>, i0: set<GroundInstance>, f1: set<Atom>,
                            i1: set<GroundInstance>, f2: set<Atom>, i2: set<GroundInstance>)
    requires RulesOk(c.rules) && SoundGrowth(c, f0, i0, f1, i1) && SoundGrowth(c, f1, i1, f2, i2)
    ensures SoundGrowth(c, f0, i0, f2, i2)
  {
    if Stratified(c.rules) {
      forall i | i in i2 && i !in i0 ensures IsFiring(c, f2, i) {
        if i in i1 {
          var r, chosen :| 0 <= r < |c.rules| && Over(chosen, f1) && Firing(c, r, chosen) == Some(i);
          assert Over(chosen, f2);
        }
      }
    }
  }

  /** Sound growth whose new facts are exactly what joined the delta. */
  ghost predicate Grew(c: Context, facts: set<Atom>, instances: set<GroundInstance>, delta: seq<Atom>,
                       facts': set<Atom>, instances': set<GroundInstance>, delta': seq<Atom>)
    requires RulesOk(c.rules)
  {
    SoundGrowth(c, facts, instances, facts', instances') && Lists(facts, delta, facts', delta')
  }

  lemma GrewComposes(c: Context, f0: set<Atom>, i0: set<GroundInstance>, d0: seq<Atom>, f1: set<Atom>,
                     i1: set<GroundInstance>, d1: seq<Atom>, f2: set<Atom>, i2: set<GroundInstance>, d2: seq<Atom>)
    requires RulesOk(c.rules) && Grew(c, f0, i0, d0, f1, i1, d1) && Grew(c, f1, i1, d1, f2, i2, d2)
    ensures Grew(c, f0, i0, d0, f2, i2, d2)
  {
    SoundGrowthComposes(c, f0, i0, f1, i1, f2, i2);
  }

  lemma FiringIsSound(c: Context, facts: set<Atom>, instances: set<GroundInstance>, r: nat, chosen: seq<Atom>,
                      facts': set<Atom>, instances': set<GroundInstance>)
    requires RulesOk(c.rules) && r < |c.rules| && Over(chosen, facts)
    requires facts <= facts' && instances <= instances'
    requires var e := Firing(c, r, chosen);
             && facts' <= (if e.Some? then facts + {e.value.head} else facts)
             && instances' <= (if e.Some? then instances + {e.value} else instances)
    ensures ForcedGrowth(c, facts, instances, facts', instances')
  {
    assert Over(chosen, facts');
    forall closed | ClosedUnder(c, closed) && facts <= closed ensures facts' <= closed {
      assert Over(chosen, closed);
    }
  }

  /** Recording one emission is sound growth. */
  lemma EmitGrowth(c: Context, facts: set<Atom>, instances: set<GroundInstance>, r: nat, chosen: seq<Atom>,
                   e: Option<GroundInstance>, facts': set<Atom>, instances': set<GroundInstance>)
    requires RulesOk(c.rules) && r < |c.rules| && Over(chosen, facts)
    requires Stratified(c.rules) ==> e == Firing(c, r, chosen)
    requires e.Some? ==> e.value.head.pred == c.rules[r].head.pred && e.value.observed && e.value.licences == {}
    requires facts <= facts' && instances <= instances'
    requires facts' <= (if e.Some? then facts + {e.value.head} else facts)
    requires instances' <= (if e.Some? then instances + {e.value} else instances)
    ensures SoundGrowth(c, facts, instances, facts', instances')
  {
    if Stratified(c.rules) {
      FiringIsSound(c, facts, instances, r, chosen, facts', instances');
    }
  }

  // ---------------------------------------------------------------------------
  // Joins
  // ---------------------------------------------------------------------------

  lemma {:induction false} UnifyAllAppend(patterns: seq<Pattern>, facts: seq<Atom>, p: Pattern, f: Atom, env: Env)
    requires |patterns| == |facts|
    ensures UnifyAll(patterns + [p], facts + [f], env)
         == match UnifyAll(patterns, facts, env) case None => None case Some(bound) => Unify(p, f, bound, false)
    decreases |patterns|
  {
    var ps, fs := patterns + [p], facts + [f];
    if patterns == [] {
      assert ps[1..] == [] && fs[1..] == [];
    } else {
      assert ps[1..] == patterns[1..] + [p] && fs[1..] == facts[1..] + [f];
      match Unify(patterns[0], facts[0], env, false)
      case None =>
      case Some(bound) => UnifyAllAppend(patterns[1..], facts[1..], p, f, bound);
    }
  }

  /** A tuple unifies only if each of its prefixes does. */
  lemma {:induction false} UnifyAllPrefix(patterns: seq<Pattern>, facts: seq<Atom>, k: nat, env: Env)
    requires |patterns| == |facts| && k <= |facts|
    ensures UnifyAll(patterns, facts, env).Some? ==> UnifyAll(patterns[..k], facts[..k], env).Some?
    decreases |patterns|
  {
    if k > 0 {
      assert patterns[..k][1..] == patterns[1..][..k - 1] && facts[..k][1..] == facts[1..][..k - 1];
      match Unify(patterns[0], facts[0], env, false)
      case None =>
      case Some(bound) => UnifyAllPrefix(patterns[1..], facts[1..], k - 1, bound);
    }
  }

  /** A tuple whose prefix does not unify does not fire. */
  lemma PrefixBlocksFiring(c: Context, r: nat, chosen: seq<Atom>, k: nat)
    requires RulesOk(c.rules) && r < |c.rules| && k <= |chosen| <= |c.rules[r].body|
    requires UnifyAll(c.rules[r].body[..k], chosen[..k], map[]).None?
    ensures Firing(c, r, chosen).None?
  {
    if |chosen| == |c.rules[r].body| {
      UnifyAllPrefix(c.rules[r].body, chosen, k, map[]);
    }
  }

  // ---------------------------------------------------------------------------
  // The engine
  // ---------------------------------------------------------------------------

  /** `rest` completes a prefix of length `slot` to a full tuple over `facts`, with the pivot
      slot, if still open, filled from the delta. */
  ghost predicate Completes(width: nat, slot: nat, rest: seq<Atom>, facts: set<Atom>, pivot: nat, latest: set<Atom>) {
    slot + |rest| == width && Over(rest, facts) && (slot <= pivot < width ==> rest[pivot - slot] in latest)
  }

  /** Every completion of the prefix whose next fact is in `next` is done. */
  ghost predicate CompletionsDone(c: Context, facts: set<Atom>, instances: set<GroundInstance>, r: nat,
                                  chosen: seq<Atom>, from: set<Atom>, pivot: nat, latest: set<Atom>, next: set<Atom>)
    requires RulesOk(c.rules) && r < |c.rules|
  {
    forall rest :: Completes(|c.rules[r].body|, |chosen|, rest, from, pivot, latest) && (rest != [] ==> rest[0] in next)
      ==> Done(c, facts, instances, r, chosen + rest)
  }

  lemma DoneGrows(c: Context, facts: set<Atom>, instances: set<GroundInstance>, facts': set<Atom>,
                  instances': set<GroundInstance>, r: nat, chosen: seq<Atom>, from: set<Atom>, pivot: nat,
                  latest: set<Atom>, next: set<Atom>)
    requires RulesOk(c.rules) && r < |c.rules| && facts <= facts' && instances <= instances'
    requires CompletionsDone(c, facts, instances, r, chosen, from, pivot, latest, next)
    ensures CompletionsDone(c, facts', instances', r, chosen, from, pivot, latest, next)
  {
    forall rest | Completes(|c.rules[r].body|, |chosen|, rest, from, pivot, latest) && (rest != [] ==> rest[0] in next)
      ensures Done(c, facts', instances', r, chosen + rest)
    {
      assert Done(c, facts, instances, r, chosen + rest);
    }
  }

  /** A fact that does not unify at the next slot has nothing to do. */
  lemma {:induction false} NonUnifyingDone(c: Context, facts: set<Atom>, instances: set<GroundInstance>, r: nat,
                                           chosen: seq<Atom>, env: Env, rest: seq<Atom>)
    requires RulesOk(c.rules) && r < |c.rules| && |chosen| + |rest| == |c.rules[r].body| && rest != []
    requires UnifyAll(c.rules[r].body[..|chosen|], chosen, map[]) == Some(env)
    requires Unify(c.rules[r].body[|chosen|], rest[0], env, false).None?
    ensures Done(c, facts, instances, r, chosen + rest)
  {
    var body, slot := c.rules[r].body, |chosen|;
    var tuple := chosen + rest;
    assert tuple[..slot + 1] == chosen + [rest[0]];
    assert body[..slot + 1] == body[..slot] + [body[slot]];
    UnifyAllAppend(body[..slot], chosen, body[slot], rest[0], map[]);
    PrefixBlocksFiring(c, r, tuple, slot + 1);
  }

  /** One more candidate for the next slot: the pivot rejects it, it does not unify, or the
      completions through it are done. */
  lemma {:induction false} VisitStep(c: Context, facts: set<Atom>, instances: set<GroundInstance>, r: nat,
                                     chosen: seq<Atom>, env: Env, from: set<Atom>, pivot: nat, latest: set<Atom>,
                                     next: set<Atom>, f: Atom)
    requires RulesOk(c.rules) && r < |c.rules| && |chosen| < |c.rules[r].body|
    requires UnifyAll(c.rules[r].body[..|chosen|], chosen, map[]) == Some(env)
    requires CompletionsDone(c, facts, instances, r, chosen, from, pivot, latest, next)
    requires || (|chosen| == pivot && f !in latest)
             || Unify(c.rules[r].body[|chosen|], f, env, false).None?
             || CompletionsDone(c, facts, instances, r, chosen + [f], from, pivot, latest, from)
    ensures CompletionsDone(c, facts, instances, r, chosen, from, pivot, latest, next + {f})
  {
    var width := |c.rules[r].body|;
    forall rest | Completes(width, |chosen|, rest, from, pivot, latest) && (rest != [] ==> rest[0] in next + {f})
      ensures Done(c, facts, instances, r, chosen + rest)
    {
      if rest[0] == f && f !in next {
        if Unify(c.rules[r].body[|chosen|], f, env, false).None? {
          NonUnifyingDone(c, facts, instances, r, chosen, env, rest);
        } else if !(|chosen| == pivot && f !in latest) {
          var tail := rest[1..];
          assert chosen + rest == (chosen + [f]) + tail;
          assert Over(tail, from);
          assert Completes(width, |chosen| + 1, tail, from, pivot, latest);
        }
      }
    }
  }

  /** Once the whole bucket has been visited every completion is done. */
  lemma {:induction false} BucketSuffices(c: Context, facts: set<Atom>, instances: set<GroundInstance>, r: nat,
                                          chosen: seq<Atom>, env: Env, from: set<Atom>, pivot: nat, latest: set<Atom>,
                                          next: set<Atom>)
    requires RulesOk(c.rules) && r < |c.rules| && |chosen| < |c.rules[r].body|
    requires UnifyAll(c.rules[r].body[..|chosen|], chosen, map[]) == Some(env)
    requires CompletionsDone(c, facts, instances, r, chosen, from, pivot, latest, next)
    requires var p := c.rules[r].body[|chosen|];
             forall f :: f in from && BucketOf(f) == (p.pred, |p.entityVars|) ==> f in next
    ensures CompletionsDone(c, facts, instances, r, chosen, from, pivot, latest, from)
  {
    forall rest | Completes(|c.rules[r].body|, |chosen|, rest, from, pivot, latest) && (rest != [] ==> rest[0] in from)
      ensures Done(c, facts, instances, r, chosen + rest)
    {
      if rest[0] !in next {
        assert Unify(c.rules[r].body[|chosen|], rest[0], env, false).None?;
        NonUnifyingDone(c, facts, instances, r, chosen, env, rest);
      }
    }
  }

  lemma NarrowFrom(c: Context, facts: set<Atom>, instances: set<GroundInstance>, r: nat, chosen: seq<Atom>,
                   large: set<Atom>, small: set<Atom>, pivot: nat, latest: set<Atom>)
    requires RulesOk(c.rules) && r < |c.rules| && small <= large
    requires CompletionsDone(c, facts, instances, r, chosen, large, pivot, latest, large)
    ensures CompletionsDone(c, facts, instances, r, chosen, small, pivot, latest, small)
  {
    forall rest | Completes(|c.rules[r].body|, |chosen|, rest, small, pivot, latest)
           && (rest != [] ==> rest[0] in small)
      ensures Done(c, facts, instances, r, chosen + rest)
    {
      assert Completes(|c.rules[r].body|, |chosen|, rest, large, pivot, latest);
    }
  }

  /** Some slot below `n` is filled from the delta. */
  ghost predicate Touches(chosen: seq<Atom>, latest: set<Atom>, n: nat) {
    exists k :: 0 <= k < n && k < |chosen| && chosen[k] in latest
  }

  /** Every tuple over `from` that touches the delta below slot `n` is done. */
  ghost predicate TouchingDone(c: Context, facts: set<Atom>, instances: set<GroundInstance>, r: nat, from: set<Atom>,
                               latest: set<Atom>, n: nat)
    requires RulesOk(c.rules) && r < |c.rules|
  {
    forall chosen :: |chosen| == |c.rules[r].body| && Over(chosen, from) && Touches(chosen, latest, n)
      ==> Done(c, facts, instances, r, chosen)
  }

  lemma PivotStep(c: Context, f0: set<Atom>, i0: set<GroundInstance>, facts: set<Atom>,
                  instances: set<GroundInstance>, r: nat, from: set<Atom>, latest: set<Atom>, pivot: nat)
    requires RulesOk(c.rules) && r < |c.rules| && pivot < |c.rules[r].body|
    requires f0 <= facts && i0 <= instances && from <= f0
    requires TouchingDone(c, f0, i0, r, from, latest, pivot)
    requires CompletionsDone(c, facts, instances, r, [], f0, pivot, latest, f0)
    ensures TouchingDone(c, facts, instances, r, from, latest, pivot + 1)
  {
    forall chosen | |chosen| == |c.rules[r].body| && Over(chosen, from) && Touches(chosen, latest, pivot + 1)
      ensures Done(c, facts, instances, r, chosen)
    {
      if Touches(chosen, latest, pivot) {
        assert Done(c, f0, i0, r, chosen);
      } else {
        assert chosen[pivot] in latest;
        assert Completes(|c.rules[r].body|, 0, chosen, f0, pivot, latest);
        assert [] + chosen == chosen;
      }
    }
  }

  /** Every tuple over `from` that touches the delta is done, for the first `n` rules. */
  ghost predicate RulesDone(c: Context, facts: set<Atom>, instances: set<GroundInstance>, from: set<Atom>,
                            latest: set<Atom>, n: nat)
    requires RulesOk(c.rules) && n <= |c.rules|
  {
    forall r :: 0 <= r < n ==> TouchingDone(c, facts, instances, r, from, latest, |c.rules[r].body|)
  }

  lemma RulesDoneStep(c: Context, f0: set<Atom>, i0: set<GroundInstance>, facts: set<Atom>,
                      instances: set<GroundInstance>, from: set<Atom>, latest: set<Atom>, n: nat)
    requires RulesOk(c.rules) && n < |c.rules| && f0 <= facts && i0 <= instances && from <= f0
    requires RulesDone(c, f0, i0, from, latest, n)
    requires TouchingDone(c, facts, instances, n, f0, latest, |c.rules[n].body|)
    ensures RulesDone(c, facts, instances, from, latest, n + 1)
  {
    forall r | 0 <= r < n + 1 ensures TouchingDone(c, facts, instances, r, from, latest, |c.rules[r].body|) {
      forall chosen | |chosen| == |c.rules[r].body| && Over(chosen, from) && Touches(chosen, latest, |c.rules[r].body|)
        ensures Done(c, facts, instances, r, chosen)
      {
        if r < n {
          assert Done(c, f0, i0, r, chosen);
        } else {
          assert Over(chosen, f0);
        }
      }
    }
  }

  /** Every tuple over `from` that is not wholly over `settled` is done. */
  ghost predicate AllDoneBeyond(c: Context, facts: set<Atom>, instances: set<GroundInstance>, settled: set<Atom>,
                                from: set<Atom>)
    requires RulesOk(c.rules)
  {
    forall r, chosen :: 0 <= r < |c.rules| && Over(chosen, from) && !Over(chosen, settled)
      ==> Done(c, facts, instances, r, chosen)
  }

  /** A pass over a delta extends what is done from the facts before the delta to all facts at
      the start of the pass. */
  lemma PassStep(c: Context, f0: set<Atom>, i0: set<GroundInstance>, facts: set<Atom>, instances: set<GroundInstance>,
                 settled: set<Atom>, latest: set<Atom>)
    requires RulesOk(c.rules) && f0 <= facts && i0 <= instances
    requires AllDoneBeyond(c, f0, i0, settled, f0 - latest)
    requires RulesDone(c, facts, instances, f0, latest, |c.rules|)
    ensures AllDoneBeyond(c, facts, instances, settled, f0)
  {
    forall r, chosen | 0 <= r < |c.rules| && Over(chosen, f0) && !Over(chosen, settled)
      ensures Done(c, facts, instances, r, chosen)
    {
      if |chosen| != |c.rules[r].body| {
        assert Firing(c, r, chosen).None?;
      } else if Touches(chosen, latest, |chosen|) {
        assert TouchingDone(c, facts, instances, r, f0, latest, |c.rules[r].body|);
      } else {
        assert Over(chosen, f0 - latest);
        assert Done(c, f0, i0, r, chosen);
      }
    }
  }

  type Bucket = (nat, nat)

  type Buckets = map<Bucket, seq<Atom>>

  function BucketOf(f: Atom): Bucket { (f.pred, |f.args|) }

  /** A bucket lists its facts in key order. */
  ghost predicate Ordered(order: Atom -> nat, bucket: seq<Atom>) {
    forall i, j :: 0 <= i < j < |bucket| ==> order(bucket[i]) <= order(bucket[j])
  }

  /** Insertion after the last entry whose key is not greater. */
  function Insort(order: Atom -> nat, bucket: seq<Atom>, f: Atom): (r: seq<Atom>)
    requires Ordered(order, bucket)
    ensures Ordered(order, r)
    ensures forall g :: g in r <==> g in bucket || g == f
  {
    if bucket == [] then [f]
    else
      var last := |bucket| - 1;
      assert bucket == bucket[..last] + [bucket[last]];
      if order(bucket[last]) <= order(f) then bucket + [f]
      else
        var front := Insort(order, bucket[..last], f);
        assert forall i :: 0 <= i < |front| ==> front[i] in front;
        front + [bucket[last]]
  }

  /** The buckets partition the fact base by predicate and arity. */
  ghost predicate Partitions(order: Atom -> nat, byPred: Buckets, facts: set<Atom>) {
    && (forall f :: f in facts ==> BucketOf(f) in byPred && f in byPred[BucketOf(f)])
    && (forall k, f :: k in byPred && f in byPred[k] ==> f in facts && BucketOf(f) == k)
    && forall k :: k in byPred ==> Ordered(order, byPred[k])
  }

  function FactsIn(byPred: Buckets, k: Bucket): seq<Atom> {
    if k in byPred then byPred[k] else []
  }

  lemma {:induction false} PartitionsInsert(order: Atom -> nat, byPred: Buckets, facts: set<Atom>, f: Atom)
    requires Partitions(order, byPred, facts)
    ensures Ordered(order, FactsIn(byPred, BucketOf(f)))
    ensures Partitions(order, byPred[BucketOf(f) := Insort(order, FactsIn(byPred, BucketOf(f)), f)], facts + {f})
  {
  }

  lemma BucketListing(order: Atom -> nat, byPred: Buckets, facts: set<Atom>, k: Bucket)
    requires Partitions(order, byPred, facts)
    ensures forall i :: 0 <= i < |FactsIn(byPred, k)| ==> FactsIn(byPred, k)[i] in facts
    ensures forall f :: f in facts && BucketOf(f) == k ==> f in Elements(FactsIn(byPred, k)[..|FactsIn(byPred, k)|])
  {
    var pool := FactsIn(byPred, k);
    assert pool[..|pool|] == pool;
    assert forall i :: 0 <= i < |pool| ==> pool[i] in pool;
  }

  lemma ElementsTake<T>(s: seq<T>, i: nat)
    requires i < |s|
    ensures Elements(s[..i + 1]) == Elements(s[..i]) + {s[i]}
  {
    assert s[..i + 1] == s[..i] + [s[i]];
    ElementsAppend(s[..i], s[i]);
  }

  /** Some observed instance of the table supports the fact. */
  predicate ObservedSupport(table: set<GroundInstance>, f: Atom) {
    exists i :: i in table && i.head == f && i.observed
  }

  /** A head is time-free while no observed instance supports it. */
  function LicensedAfter(licensed: set<Atom>, table: set<GroundInstance>, i: GroundInstance): set<Atom> {
    if i.observed then licensed - {i.head}
    else if ObservedSupport(table, i.head) then licensed
    else licensed + {i.head}
  }

  /** The time-free facts are the heads that some licensed instance and no observed one supports. */
  ghost predicate TimeFree(licensed: set<Atom>, table: set<GroundInstance>) {
    forall f :: f in licensed <==> !ObservedSupport(table, f) && exists i :: i in table && i.head == f
  }

  lemma TimeFreeStays(licensed: set<Atom>, table: set<GroundInstance>, i: GroundInstance)
    requires TimeFree(licensed, table)
    ensures TimeFree(LicensedAfter(licensed, table, i), table + {i})
  {
    forall f
      ensures f in LicensedAfter(licensed, table, i)
              <==> !ObservedSupport(table + {i}, f) && exists j :: j in table + {i} && j.head == f
    {
      assert i in table + {i};
      assert ObservedSupport(table + {i}, f) <==> ObservedSupport(table, f) || (i.head == f && i.observed);
    }
  }

  function GhostsAfter(ghosts: set<Atom>, i: GroundInstance): set<Atom> {
    if i.observed then ghosts - {i.head}
    else if i.isGhost then ghosts + {i.head}
    else ghosts
  }

  /** The recorded span of a licensed instance's head is the hull over its instances. */
  function SpansAfter(spans: map<Atom, Span>, i: GroundInstance, span: Option<Span>): map<Atom, Span> {
    if span.None? || i.observed then spans
    else if i.head in spans then spans[i.head := Hull(span.value, spans[i.head])]
    else spans[i.head := span.value]
  }

  /** What a licensed instance with a span adds to the log of the spans given for each head. */
  function LogAfter(log: set<(Atom, Span)>, i: GroundInstance, span: Option<Span>): set<(Atom, Span)> {
    if span.None? || i.observed then log else log + {(i.head, span.value)}
  }

  /** The recorded spans are the hulls of those given: each covers every span given for its fact, and
      either end is the end of one of them. */
  ghost predicate Hulls(spans: map<Atom, Span>, log: set<(Atom, Span)>) {
    && (forall f, given: Span :: (f, given) in log ==>
          f in spans && spans[f].0 <= given.0 && given.1 <= spans[f].1)
    && forall f :: f in spans ==> StartsIn(spans[f].0, f, log) && EndsIn(spans[f].1, f, log)
  }

  ghost predicate StartsIn(low: int, f: Atom, log: set<(Atom, Span)>) {
    exists given: Span :: (f, given) in log && given.0 == low
  }

  ghost predicate EndsIn(high: int, f: Atom, log: set<(Atom, Span)>) {
    exists given: Span :: (f, given) in log && given.1 == high
  }

  lemma HullsStay(spans: map<Atom, Span>, log: set<(Atom, Span)>, i: GroundInstance, span: Option<Span>)
    requires Hulls(spans, log)
    ensures Hulls(SpansAfter(spans, i, span), LogAfter(log, i, span))
  {
    var spans', log' := SpansAfter(spans, i, span), LogAfter(log, i, span);
    if span.Some? && !i.observed {
      assert (i.head, span.value) in log';
      forall f | f in spans' ensures StartsIn(spans'[f].0, f, log') && EndsIn(spans'[f].1, f, log') {
        if f in spans {
          var a: Span :| (f, a) in log && a.0 == spans[f].0;
          var b: Span :| (f, b) in log && b.1 == spans[f].1;
          assert (f, a) in log' && (f, b) in log';
        }
      }
    }
  }

  /** The events behind each fact of the records. */
  ghost predicate Recorded(records: seq<(nat, Atom)>, events: Events) {
    && (forall f :: f in events <==> exists k :: 0 <= k < |records| && records[k].1 == f)
    && forall f, e :: f in events ==> (e in events[f] <==> exists k :: 0 <= k < |records| && records[k] == (e, f))
  }

  lemma RecordedStep(records: seq<(nat, Atom)>, events: Events, e: nat, f: Atom)
    requires Recorded(records, events)
    ensures Recorded(records + [(e, f)], events[f := (if f in events then events[f] else {}) + {e}])
  {
    var more := records + [(e, f)];
    assert more[|records|] == (e, f);
    assert forall k :: 0 <= k < |records| ==> more[k] == records[k];
    if f !in events {
      assert forall k :: 0 <= k < |records| ==> records[k].1 != f;
    }
  }

  lemma DeltaIsBase(f: Atom, facts: set<Atom>, delta: seq<Atom>, facts': set<Atom>, delta': seq<Atom>)
    requires Joined(f, facts, delta, facts', delta') && Elements(delta) == facts
    ensures Elements(delta') == facts' && facts <= facts' <= facts + {f}
  {
    JoinedIsListed(f, facts, delta, facts', delta');
  }

  /** Every fact beyond the base has the predicate of some rule's head. */
  ghost predicate HeadedBeyond(rules: seq<Rule>, base: set<Atom>, facts: set<Atom>) {
    forall f :: f in facts && f !in base ==> exists h :: 0 <= h < |rules| && f.pred == rules[h].head.pred
  }

  lemma HeadedBeyondGrows(rules: seq<Rule>, base: set<Atom>, facts: set<Atom>, delta: seq<Atom>, r: nat, f: Atom,
                          facts': set<Atom>, delta': seq<Atom>)
    requires base <= facts && HeadedBeyond(rules, base, facts) && Joined(f, facts, delta, facts', delta')
    requires r < |rules| && f.pred == rules[r].head.pred
    ensures base <= facts' && HeadedBeyond(rules, base, facts')
  {
  }

  /** The base holds recorded facts only, and all of them when uncapped. */
  ghost predicate Seeded(records: seq<(nat, Atom)>, events: Events, facts: set<Atom>, capped: bool) {
    Recorded(records, events) && facts <= events.Keys && (!capped ==> facts == events.Keys)
  }

  lemma SeededStep(records: seq<(nat, Atom)>, events: Events, facts: set<Atom>, capped: bool, e: nat, f: Atom,
                   facts': set<Atom>, capped': bool)
    requires Seeded(records, events, facts, capped) && facts <= facts' <= facts + {f}
    requires !capped' ==> !capped && f in facts'
    ensures Seeded(records + [(e, f)], events[f := (if f in events then events[f] else {}) + {e}], facts', capped')
  {
    RecordedStep(records, events, e, f);
  }

  /** The first cap that fired. */
  datatype Cap = NoCap | FactsCap | InstancesCap | IterationsCap | SilentCap

  /** A cap once recorded stays, and the engine itself records no cap on silent instances. */
  predicate CapKept(before: Cap, after: Cap) {
    (before != NoCap ==> after == before) && (after == SilentCap ==> before == SilentCap)
  }

  /** The sizes the engine's caps limit. */
  datatype Sizes = Sizes(facts: nat, instances: nat, iterations: nat)

  /** An engine cap is recorded only where the size it limits has reached it. */
  predicate CapDue(cap: Cap, used: Sizes, limit: Sizes) {
    match cap
    case FactsCap => used.facts >= limit.facts
    case InstancesCap => used.instances >= limit.instances
    case IterationsCap => used.iterations > limit.iterations
    case _ => true
  }

  /** Growing tables keep a recorded cap due. */
  lemma CapStaysDue(cap: Cap, used: Sizes, more: Sizes, limit: Sizes)
    requires CapDue(cap, used, limit)
    requires used.facts <= more.facts && used.instances <= more.instances && used.iterations <= more.iterations
    ensures CapDue(cap, more, limit)
  {
  }

  predicate HeadsIn(instances: set<GroundInstance>, facts: set<Atom>) {
    forall i :: i in instances ==> i.head in facts
  }

  lemma HeadsStay(instances: set<GroundInstance>, facts: set<Atom>, f: Atom)
    ensures HeadsIn(instances, facts) ==> HeadsIn(instances, facts + {f})
  {
  }

  lemma DeltaInside(delta: seq<Atom>, f: Atom, facts: set<Atom>)
    requires Elements(delta) <= facts
    ensures Elements(delta + [f]) <= facts + {f}
  {
    ElementsAppend(delta, f);
  }

  lemma HeadsInGrows(instances: set<GroundInstance>, facts: set<Atom>, i: GroundInstance, facts': set<Atom>)
    requires HeadsIn(instances, facts) && facts <= facts' && i.head in facts'
    ensures HeadsIn(instances + {i}, facts')
  {
  }

  /** The delta lists what joined the base since `facts`, beside what `delta` listed. */
  ghost predicate Lists(facts: set<Atom>, delta: seq<Atom>, facts': set<Atom>, delta': seq<Atom>) {
    Elements(delta') == Elements(delta) + (facts' - facts)
  }

  /** At most the one fact joined the base, and then it is listed in the delta. */
  ghost predicate Joined(f: Atom, facts: set<Atom>, delta: seq<Atom>, facts': set<Atom>, delta': seq<Atom>) {
    || (facts' == facts && delta' == delta)
    || (f !in facts && facts' == facts + {f} && delta' == delta + [f])
  }

  lemma JoinedFacts(f: Atom, facts: set<Atom>, delta: seq<Atom>, facts': set<Atom>, delta': seq<Atom>)
    requires Joined(f, facts, delta, facts', delta') && f in facts'
    ensures facts' == facts + {f}
  {
  }

  lemma JoinedIsListed(f: Atom, facts: set<Atom>, delta: seq<Atom>, facts': set<Atom>, delta': seq<Atom>)
    requires Joined(f, facts, delta, facts', delta')
    ensures facts <= facts' <= facts + {f} && Lists(facts, delta, facts', delta')
  {
    ElementsAppend(delta, f);
  }

  class Engine {
    const rules: seq<Rule>
    const order: Atom -> nat
    const maxFacts: nat
    const maxInstances: nat
    const maxIterations: nat

    var facts: set<Atom>
    var byPred: Buckets
    var instances: set<GroundInstance>
    var events: Events
    var delta: seq<Atom>
    var licensed: set<Atom>
    var ghosts: set<Atom>
    var spans: map<Atom, Span>
    ghost var log: set<(Atom, Span)>
    var snap: Snapshot
    var iterations: nat
    var steps: nat
    var capped: bool
    var detail: Cap

    constructor (rules: seq<Rule>, order: Atom -> nat, maxFacts: nat, maxInstances: nat, maxIterations: nat)
      ensures Valid() && facts == {} && instances == {} && delta == [] && events == map[]
      ensures licensed == {} && ghosts == {} && spans == map[] && log == {} && !capped && detail == NoCap
      ensures iterations == 0 && steps == 0
      ensures this.rules == rules && this.maxFacts == maxFacts
      ensures this.maxInstances == maxInstances && this.maxIterations == maxIterations
    {
      this.rules, this.order := rules, order;
      this.maxFacts, this.maxInstances, this.maxIterations := maxFacts, maxInstances, maxIterations;
      facts, byPred, instances, events, delta := {}, map[], {}, map[], [];
      licensed, ghosts, spans, log, snap := {}, {}, map[], {}, Snapshot({}, map[]);
      iterations, steps, capped, detail := 0, 0, false, NoCap;
    }

    ghost function Used(): Sizes
      reads this`facts, this`instances, this`iterations
    {
      Sizes(|facts|, |instances|, iterations)
    }

    ghost function Limit(): Sizes { Sizes(maxFacts, maxInstances, maxIterations) }

    /** The buckets match the fact base, the delta lists facts of it, uncapped every instance has
        its head in it, and a cap is recorded only where it is due. */
    ghost predicate Valid()
      reads this`facts, this`byPred, this`delta, this`instances, this`licensed, this`capped, this`detail,
            this`iterations, this`spans, this`log
    {
      Tabled() && Marked() && CapSound()
    }

    ghost predicate Tabled()
      reads this`facts, this`byPred, this`delta, this`instances, this`capped
    {
      Partitions(order, byPred, facts) && Elements(delta) <= facts && (!capped ==> HeadsIn(instances, facts))
    }

    ghost predicate Marked()
      reads this`instances, this`licensed, this`spans, this`log
    {
      TimeFree(licensed, instances) && Hulls(spans, log)
    }

    ghost predicate CapSound()
      reads this`facts, this`instances, this`iterations, this`capped, this`detail
    {
      (capped <==> detail != NoCap) && CapDue(detail, Used(), Limit())
    }

    /** `record_cap`: the flag is never cleared and the first detail is kept. */
    method RecordCap(cap: Cap)
      requires Valid() && cap != NoCap && CapDue(cap, Used(), Limit())
      modifies this`capped, this`detail
      ensures Valid() && capped
      ensures detail == if old(capped) then old(detail) else cap
    {
      detail := if capped then detail else cap;
      capped := true;
    }

    /** `_add_fact`: a new fact enters the base, its bucket and the delta, unless capped. */
    method AddFact(f: Atom) returns (added: bool)
      requires Valid()
      modifies this`facts, this`byPred, this`delta, this`capped, this`detail
      ensures Valid()
      ensures added <==> f !in old(facts) && |old(facts)| < maxFacts
      ensures facts == if added then old(facts) + {f} else old(facts)
      ensures delta == if added then old(delta) + [f] else old(delta)
      ensures detail == if !old(capped) && f !in old(facts) && !added then FactsCap else old(detail)
    {
      if f in facts {
        return false;
      }
      if |facts| >= maxFacts {
        RecordCap(FactsCap);
        return false;
      }
      Enter(f);
      return true;
    }

    /** A fact new to the base enters it. */
    method Enter(f: Atom)
      requires Valid() && f !in facts
      modifies this`facts, this`byPred, this`delta
      ensures Valid() && facts == old(facts) + {f} && delta == old(delta) + [f]
    {
      PartitionsInsert(order, byPred, facts, f);
      DeltaInside(delta, f, facts);
      HeadsStay(instances, facts, f);
      ghost var used := Used();
      facts := facts + {f};
      byPred := byPred[BucketOf(f) := Insort(order, FactsIn(byPred, BucketOf(f)), f)];
      delta := delta + [f];
      CapStaysDue(detail, used, Used(), Limit());
    }

    /** `add_instance`: the licensed span, and then the instance. */
    method AddInstance(i: GroundInstance, span: Option<Span>) returns (added: bool)
      requires Valid()
      modifies this`facts, this`byPred, this`delta, this`capped, this`detail, this`instances, this`licensed,
               this`ghosts, this`spans, this`log
      ensures Valid()
      ensures added <==> i !in old(instances) && |old(instances)| < maxInstances
      ensures instances == if added then old(instances) + {i} else old(instances)
      ensures Joined(i.head, old(facts), old(delta), facts, delta) && (!added ==> facts == old(facts))
      ensures CapKept(old(detail), detail)
      ensures !capped ==> i in instances && i.head in facts
      ensures spans == SpansAfter(old(spans), i, span) && log == LogAfter(old(log), i, span)
      ensures licensed == if added then LicensedAfter(old(licensed), old(instances), i) else old(licensed)
      ensures ghosts == if added then GhostsAfter(old(ghosts), i) else old(ghosts)
    {
      HullsStay(spans, log, i, span);
      spans, log := SpansAfter(spans, i, span), LogAfter(log, i, span);
      added := Support(i);
    }

    /** The instance and its head, and the licensed and ghost markings. */
    method Support(i: GroundInstance) returns (added: bool)
      requires Valid()
      modifies this`facts, this`byPred, this`delta, this`capped, this`detail, this`instances, this`licensed,
               this`ghosts
      ensures Valid()
      ensures added <==> i !in old(instances) && |old(instances)| < maxInstances
      ensures instances == if added then old(instances) + {i} else old(instances)
      ensures Joined(i.head, old(facts), old(delta), facts, delta) && (!added ==> facts == old(facts))
      ensures CapKept(old(detail), detail)
      ensures !capped ==> i in instances && i.head in facts
      ensures licensed == if added then LicensedAfter(old(licensed), old(instances), i) else old(licensed)
      ensures ghosts == if added then GhostsAfter(old(ghosts), i) else old(ghosts)
    {
      if i in instances {
        return false;
      }
      if |instances| >= maxInstances {
        RecordCap(InstancesCap);
        return false;
      }
      ghosts := GhostsAfter(ghosts, i);
      Insert(i);
      return true;
    }

    /** An instance new to the table joins it with its head, which is time-free while no
        observed instance supports it. */
    method Insert(i: GroundInstance)
      requires Valid() && i !in instances
      modifies this`facts, this`byPred, this`delta, this`capped, this`detail, this`instances, this`licensed
      ensures Valid() && instances == old(instances) + {i}
      ensures licensed == LicensedAfter(old(licensed), old(instances), i)
      ensures Joined(i.head, old(facts), old(delta), facts, delta)
      ensures CapKept(old(detail), detail)
      ensures !capped ==> i.head in facts
    {
      var isNew := AddFact(i.head);
      JoinedIsListed(i.head, old(facts), old(delta), facts, delta);
      File(i);
    }

    /** An instance new to the table is filed, once its head had its chance to join the base. */
    method File(i: GroundInstance)
      requires Valid() && i !in instances && (!capped ==> i.head in facts)
      modifies this`instances, this`licensed
      ensures Valid() && instances == old(instances) + {i}
      ensures licensed == LicensedAfter(old(licensed), old(instances), i)
    {
      if !capped {
        HeadsInGrows(instances, facts, i, facts);
      }
      ghost var used := Used();
      TimeFreeStays(licensed, instances, i);
      licensed := LicensedAfter(licensed, instances, i);
      instances := instances + {i};
      CapStaysDue(detail, used, Used(), Limit());
    }

    // -- seeding -------------------------------------------------------------

    /** One record's axiom fact, with the record behind it. */
    method SeedOne(ghost records: seq<(nat, Atom)>, e: nat, f: Atom)
      requires Valid() && Elements(delta) == facts && Seeded(records, events, facts, capped)
      modifies this`facts, this`byPred, this`delta, this`capped, this`detail, this`events
      ensures Valid() && Elements(delta) == facts && Seeded(records + [(e, f)], events, facts, capped)
      ensures CapKept(old(detail), detail)
    {
      var added := AddFact(f);
      DeltaIsBase(f, old(facts), old(delta), facts, delta);
      Note(records, e, f, old(facts), old(capped));
    }

    /** The record stands behind its fact. */
    method Note(ghost records: seq<(nat, Atom)>, e: nat, f: Atom, ghost before: set<Atom>, ghost was: bool)
      requires Seeded(records, events, before, was) && before <= facts <= before + {f}
      requires !capped ==> !was && f in facts
      modifies this`events
      ensures Seeded(records + [(e, f)], events, facts, capped)
    {
      SeededStep(records, events, before, was, e, f, facts, capped);
      events := events[f := (if f in events then events[f] else {}) + {e}];
    }

    /** `seed`: every record's axiom fact, with the record behind it. */
    method Seed(records: seq<(nat, Atom)>)
      requires Valid() && facts == {} && delta == [] && events == map[]
      modifies this`facts, this`byPred, this`delta, this`capped, this`detail, this`events
      ensures Valid() && Elements(delta) == facts
      ensures CapKept(old(detail), detail)
      ensures Seeded(records, events, facts, capped)
    {
      assert records[..0] == [];
      for i := 0 to |records|
        invariant Valid() && Elements(delta) == facts
        invariant CapKept(old(detail), detail)
        invariant Seeded(records[..i], events, facts, capped)
      {
        SeedOne(records[..i], records[i].0, records[i].1);
        assert records[..i + 1] == records[..i] + [records[i]];
      }
      assert records[..|records|] == records;
    }

    // -- the fixpoint --------------------------------------------------------

    /** The engine is saturating against this context. */
    ghost predicate Running(c: Context)
      reads this
    {
      && Valid() && RulesOk(rules)
      && c.rules == rules && c.snap == snap && c.events == events
      && c.base <= facts
      && HeadedBeyond(rules, c.base, facts)
    }

    /** No cap fired and negation is stratified: what has been joined is fully recorded. */
    ghost predicate Complete()
      requires RulesOk(rules)
      reads this`capped, this`detail
    {
      !capped && Stratified(rules)
    }

    /** An observed instance of a rule joins the tables. */
    method Record(ghost c: Context, ghost r: nat, i: GroundInstance)
      requires Running(c) && r < |rules| && i.head.pred == rules[r].head.pred
      modifies this`facts, this`byPred, this`delta, this`capped, this`detail, this`instances, this`licensed,
               this`ghosts
      ensures Running(c)
      ensures Joined(i.head, old(facts), old(delta), facts, delta)
      ensures instances == old(instances) || instances == old(instances) + {i}
      ensures CapKept(old(detail), detail)
      ensures !capped ==> i in instances && i.head in facts
    {
      var added := Support(i);
      HeadedBeyondGrows(rules, c.base, old(facts), old(delta), r, i.head, facts, delta);
    }

    /** `_emit`: record the firing of one joined tuple. */
    method Emit(ghost c: Context, r: nat, chosen: seq<Atom>, env: Env)
      requires Running(c) && r < |rules| && Over(chosen, facts) && |chosen| == |rules[r].body|
      requires UnifyAll(rules[r].body, chosen, map[]) == Some(env)
      modifies this`facts, this`byPred, this`delta, this`capped, this`detail, this`instances, this`licensed,
               this`ghosts
      ensures Running(c)
      ensures Grew(c, old(facts), old(instances), old(delta), facts, instances, delta)
      ensures CapKept(old(detail), detail)
      ensures Complete() ==> Done(c, facts, instances, r, chosen)
    {
      ghost var firing := Fires(rules[r], chosen, facts, snap, events);
      var e := Emission(rules[r], chosen, env, facts, snap, events);
      assert e == firing;
      if Stratified(rules) {
        FiringOnCurrentBase(c, facts, r, chosen);
      }
      if e.Some? {
        Record(c, r, e.value);
        JoinedIsListed(e.value.head, old(facts), old(delta), facts, delta);
      }
      EmitGrowth(c, old(facts), old(instances), r, chosen, e, facts, instances);
    }

    /** A full tuple has only the empty completion: itself. */
    method EmitTuple(ghost c: Context, r: nat, env: Env, chosen: seq<Atom>, ghost pivot: nat, ghost latest: set<Atom>)
      requires Running(c) && r < |rules| && Over(chosen, facts) && |chosen| == |rules[r].body|
      requires UnifyAll(rules[r].body, chosen, map[]) == Some(env)
      modifies this`facts, this`byPred, this`delta, this`capped, this`detail, this`instances, this`licensed,
               this`ghosts, this`steps
      ensures Running(c)
      ensures Grew(c, old(facts), old(instances), old(delta), facts, instances, delta)
      ensures CapKept(old(detail), detail)
      ensures Complete() ==> CompletionsDone(c, facts, instances, r, chosen, old(facts), pivot, latest, old(facts))
    {
      steps := steps + 1;
      Emit(c, r, chosen, env);
      ghost var from := old(facts);
      forall rest | Completes(|chosen|, |chosen|, rest, from, pivot, latest) && Complete()
        ensures Done(c, facts, instances, r, chosen + rest)
      {
        assert chosen + rest == chosen;
      }
    }

    /** `_enumerate`: extend the joined prefix slot by slot, emitting each full tuple as it is
        found. Facts emitted on the way may join deeper slots of the same pass. */
    method Enumerate(ghost c: Context, r: nat, env: Env, chosen: seq<Atom>, pivot: nat, latest: set<Atom>)
      requires Running(c) && r < |rules| && Over(chosen, facts) && |chosen| <= |rules[r].body|
      requires UnifyAll(rules[r].body[..|chosen|], chosen, map[]) == Some(env)
      modifies this`facts, this`byPred, this`delta, this`capped, this`detail, this`instances, this`licensed,
               this`ghosts, this`steps
      ensures Running(c)
      ensures Grew(c, old(facts), old(instances), old(delta), facts, instances, delta)
      ensures CapKept(old(detail), detail)
      ensures Complete() ==> CompletionsDone(c, facts, instances, r, chosen, old(facts), pivot, latest, old(facts))
      decreases |rules[r].body| - |chosen|, 2
    {
      if |chosen| == |rules[r].body| {
        assert rules[r].body[..|chosen|] == rules[r].body;
        EmitTuple(c, r, env, chosen, pivot, latest);
      } else {
        VisitPool(c, r, env, chosen, pivot, latest);
      }
    }

    /** Every candidate of the next slot's bucket, as listed when the slot is reached. */
    method VisitPool(ghost c: Context, r: nat, env: Env, chosen: seq<Atom>, pivot: nat, latest: set<Atom>)
      requires Running(c) && r < |rules| && Over(chosen, facts) && |chosen| < |rules[r].body|
      requires UnifyAll(rules[r].body[..|chosen|], chosen, map[]) == Some(env)
      modifies this`facts, this`byPred, this`delta, this`capped, this`detail, this`instances, this`licensed,
               this`ghosts, this`steps
      ensures Running(c)
      ensures Grew(c, old(facts), old(instances), old(delta), facts, instances, delta)
      ensures CapKept(old(detail), detail)
      ensures Complete() ==> CompletionsDone(c, facts, instances, r, chosen, old(facts), pivot, latest, old(facts))
      decreases |rules[r].body| - |chosen|, 1
    {
      var p := rules[r].body[|chosen|];
      var pool := FactsIn(byPred, (p.pred, |p.entityVars|));
      ghost var from := facts;
      BucketListing(order, byPred, facts, (p.pred, |p.entityVars|));
      ghost var next: set<Atom> := {};
      for i := 0 to |pool|
        invariant Running(c) && from <= facts
        invariant Grew(c, from, old(instances), old(delta), facts, instances, delta)
        invariant CapKept(old(detail), detail)
        invariant next == Elements(pool[..i])
        invariant Complete() ==> CompletionsDone(c, facts, instances, r, chosen, from, pivot, latest, next)
      {
        ghost var factsBefore, instancesBefore, deltaBefore := facts, instances, delta;
        Visit(c, r, env, chosen, pivot, latest, pool[i], from, next);
        GrewComposes(c, from, old(instances), old(delta), factsBefore, instancesBefore, deltaBefore, facts, instances,
                     delta);
        ElementsTake(pool, i);
        next := next + {pool[i]};
      }
      if Complete() {
        BucketSuffices(c, facts, instances, r, chosen, env, from, pivot, latest, next);
      }
    }

    /** One candidate fact for the next slot. */
    method Visit(ghost c: Context, r: nat, env: Env, chosen: seq<Atom>, pivot: nat, latest: set<Atom>, f: Atom,
                 ghost from: set<Atom>, ghost next: set<Atom>)
      requires Running(c) && r < |rules| && Over(chosen, facts) && |chosen| < |rules[r].body| && f in facts
      requires UnifyAll(rules[r].body[..|chosen|], chosen, map[]) == Some(env)
      requires from <= facts
      requires Complete() ==> CompletionsDone(c, facts, instances, r, chosen, from, pivot, latest, next)
      modifies this`facts, this`byPred, this`delta, this`capped, this`detail, this`instances, this`licensed,
               this`ghosts, this`steps
      ensures Running(c)
      ensures Grew(c, old(facts), old(instances), old(delta), facts, instances, delta)
      ensures CapKept(old(detail), detail)
      ensures Complete() ==> CompletionsDone(c, facts, instances, r, chosen, from, pivot, latest, next + {f})
      decreases |rules[r].body| - |chosen|, 0
    {
      var slot := |chosen|;
      var extended := Unify(rules[r].body[slot], f, env, false);
      if (slot == pivot && f !in latest) || extended.None? {
        if Complete() {
          VisitStep(c, facts, instances, r, chosen, env, from, pivot, latest, next, f);
        }
        return;
      }
      UnifyAllAppend(rules[r].body[..slot], chosen, rules[r].body[slot], f, map[]);
      assert rules[r].body[..slot + 1] == rules[r].body[..slot] + [rules[r].body[slot]];
      Enumerate(c, r, extended.value, chosen + [f], pivot, latest);
      if Complete() {
        DoneGrows(c, old(facts), old(instances), facts, instances, r, chosen, from, pivot, latest, next);
        NarrowFrom(c, facts, instances, r, chosen + [f], old(facts), from, pivot, latest);
        VisitStep(c, facts, instances, r, chosen, env, from, pivot, latest, next, f);
      }
    }

    /** `_apply`: join one rule against the base, once per pivot slot. */
    method Apply(ghost c: Context, r: nat, latest: set<Atom>)
      requires Running(c) && r < |rules|
      modifies this`facts, this`byPred, this`delta, this`capped, this`detail, this`instances, this`licensed,
               this`ghosts, this`steps
      ensures Running(c)
      ensures Grew(c, old(facts), old(instances), old(delta), facts, instances, delta)
      ensures CapKept(old(detail), detail)
      ensures Complete() ==> TouchingDone(c, facts, instances, r, old(facts), latest, |rules[r].body|)
    {
      ghost var from := facts;
      for pivot := 0 to |rules[r].body|
        invariant Running(c) && from <= facts
        invariant Grew(c, from, old(instances), old(delta), facts, instances, delta)
        invariant CapKept(old(detail), detail)
        invariant Complete() ==> TouchingDone(c, facts, instances, r, from, latest, pivot)
      {
        ghost var factsBefore, instancesBefore, deltaBefore := facts, instances, delta;
        assert rules[r].body[..0] == [];
        Enumerate(c, r, map[], [], pivot, latest);
        GrewComposes(c, from, old(instances), old(delta), factsBefore, instancesBefore, deltaBefore, facts, instances,
                     delta);
        if Complete() {
          PivotStep(c, factsBefore, instancesBefore, facts, instances, r, from, latest, pivot);
        }
      }
    }

    /** One iteration: every rule against the delta, in table order. */
    method ApplyAll(ghost c: Context, latest: set<Atom>)
      requires Running(c)
      modifies this`facts, this`byPred, this`delta, this`capped, this`detail, this`instances, this`licensed,
               this`ghosts, this`steps
      ensures Running(c)
      ensures Grew(c, old(facts), old(instances), old(delta), facts, instances, delta)
      ensures CapKept(old(detail), detail)
      ensures Complete() ==> RulesDone(c, facts, instances, old(facts), latest, |rules|)
    {
      ghost var from := facts;
      for r := 0 to |rules|
        invariant Running(c) && from <= facts
        invariant Grew(c, from, old(instances), old(delta), facts, instances, delta)
        invariant CapKept(old(detail), detail)
        invariant Complete() ==> RulesDone(c, facts, instances, from, latest, r)
      {
        ghost var factsBefore, instancesBefore, deltaBefore := facts, instances, delta;
        Apply(c, r, latest);
        GrewComposes(c, from, old(instances), old(delta), factsBefore, instancesBefore, deltaBefore, facts, instances,
                     delta);
        if Complete() {
          RulesDoneStep(c, factsBefore, instancesBefore, facts, instances, from, latest, r);
        }
      }
    }

    /** One iteration of `saturate`: apply every rule to the delta and take the next delta. */
    method Iterate(ghost c: Context, latest: set<Atom>, ghost settled: set<Atom>) returns (next: set<Atom>)
      requires Running(c) && delta == [] && latest <= facts
      requires Complete() ==> AllDoneBeyond(c, facts, instances, settled, facts - latest)
      modifies this`facts, this`byPred, this`delta, this`capped, this`detail, this`instances, this`licensed,
               this`ghosts, this`steps
      ensures Running(c) && delta == [] && next <= facts
      ensures SoundGrowth(c, old(facts), old(instances), facts, instances)
      ensures CapKept(old(detail), detail)
      ensures Complete() ==> AllDoneBeyond(c, facts, instances, settled, facts - next)
    {
      ApplyAll(c, latest);
      if Complete() {
        PassStep(c, old(facts), old(instances), facts, instances, settled, latest);
        assert facts - Elements(delta) == old(facts);
      }
      next := Elements(delta);
      delta := [];
    }

    /** Midway through a saturation that began with these tables: what was joined so far is
        recorded, up to the facts of the delta being joined next. */
    ghost predicate Saturating(c: Context, from: set<Atom>, fromInstances: set<GroundInstance>, settled: set<Atom>,
                               latest: set<Atom>)
      reads this
    {
      && Running(c) && delta == [] && latest <= facts
      && SoundGrowth(c, from, fromInstances, facts, instances)
      && (Complete() ==> AllDoneBeyond(c, facts, instances, settled, facts - latest))
    }

    /** The start of a saturation: the snapshot is taken and the delta with it. */
    method Begin() returns (ghost c: Context, latest: set<Atom>)
      requires Valid() && RulesOk(rules)
      modifies this`snap, this`delta
      ensures latest == Elements(old(delta)) && Saturating(c, facts, instances, facts - latest, latest)
      ensures c == Context(rules, facts, Snapshot(licensed, spans), events)
    {
      snap := Snapshot(licensed, spans);
      c := Context(rules, facts, snap, events);
      latest := Elements(delta);
      delta := [];
    }

    /** One more iteration is counted, unless the cap on them fires. */
    method Tick(ghost c: Context) returns (stop: bool)
      requires Running(c)
      modifies this`iterations, this`capped, this`detail
      ensures Running(c) && iterations == old(iterations) + 1
      ensures stop <==> iterations > maxIterations
      ensures if stop then capped else capped == old(capped)
      ensures CapKept(old(detail), detail)
    {
      ghost var used := Used();
      iterations := iterations + 1;
      CapStaysDue(detail, used, Used(), Limit());
      stop := iterations > maxIterations;
      if stop {
        RecordCap(IterationsCap);
      }
    }

    method SaturateOnce(ghost c: Context, latest: set<Atom>, ghost from: set<Atom>,
                        ghost fromInstances: set<GroundInstance>, ghost settled: set<Atom>)
      returns (next: set<Atom>, stop: bool)
      requires Saturating(c, from, fromInstances, settled, latest)
      modifies this
      ensures Saturating(c, from, fromInstances, settled, next) && events == old(events)
      ensures spans == old(spans) && log == old(log)
      ensures iterations == old(iterations) + 1 && (stop <==> iterations > maxIterations)
      ensures CapKept(old(detail), detail) && (stop ==> capped)
    {
      stop := Tick(c);
      if stop {
        return latest, true;
      }
      ghost var factsBefore, instancesBefore := facts, instances;
      next := Iterate(c, latest, settled);
      SoundGrowthComposes(c, from, fromInstances, factsBefore, instancesBefore, facts, instances);
    }

    /** `saturate`: iterate to fixpoint. Everything not already settled before the delta is done
        against the snapshot taken here, and nothing is added that rule application does not
        force. */
    method Saturate() returns (ghost c: Context)
      requires Valid() && RulesOk(rules)
      modifies this
      ensures Valid() && events == old(events) && spans == old(spans) && log == old(log)
      ensures c == Context(rules, old(facts), Snapshot(old(licensed), old(spans)), events)
      ensures SoundGrowth(c, old(facts), old(instances), facts, instances)
      ensures CapKept(old(detail), detail)
      ensures !capped ==> delta == []
      ensures Complete() ==> AllDoneBeyond(c, facts, instances, old(facts) - Elements(old(delta)), facts)
    {
      ghost var from, fromInstances := facts, instances;
      var latest;
      c, latest := Begin();
      ghost var settled := facts - latest;
      while latest != {}
        invariant Saturating(c, from, fromInstances, settled, latest)
        invariant CapKept(old(detail), detail) && events == old(events)
        invariant spans == old(spans) && log == old(log)
        decreases maxIterations - iterations
      {
        var stop;
        latest, stop := SaturateOnce(c, latest, from, fromInstances, settled);
        if stop {
          return;
        }
      }
      assert facts - latest == facts;
    }
  }

  // ---------------------------------------------------------------------------
  // The stage and its meaning
  // ---------------------------------------------------------------------------

  /** The least set that holds the seeded facts and is closed under every rule. */
  ghost predicate LeastFixpoint(c: Context, facts: set<Atom>)
    requires RulesOk(c.rules)
  {
    c.base <= facts && ClosedUnder(c, facts) && Forced(c, c.base, facts)
  }

  /** The instance table holds exactly the firings over the facts. */
  ghost predicate ExactInstances(c: Context, facts: set<Atom>, instances: set<GroundInstance>)
    requires RulesOk(c.rules)
  {
    forall i :: i in instances <==> IsFiring(c, facts, i)
  }

  /** A saturation that starts with everything in the delta ends in the least fixpoint, with
      exactly its firings recorded: the delta pivots lose nothing. */
  lemma SaturatedIsLeastFixpoint(c: Context, facts: set<Atom>, instances: set<GroundInstance>)
    requires RulesOk(c.rules) && Stratified(c.rules) && SoundGrowth(c, c.base, {}, facts, instances)
    requires AllDoneBeyond(c, facts, instances, {}, facts)
    ensures LeastFixpoint(c, facts) && ExactInstances(c, facts, instances)
  {
    forall r, chosen | 0 <= r < |c.rules| && Over(chosen, facts) && Firing(c, r, chosen).Some?
      ensures Done(c, facts, instances, r, chosen)
    {
      assert RuleOk(c.rules[r]) && |chosen| == |c.rules[r].body|;
      assert chosen[0] !in {};
      assert !Over(chosen, {});
    }
    forall i | IsFiring(c, facts, i) ensures i in instances {
      var r, chosen :| 0 <= r < |c.rules| && Over(chosen, facts) && Firing(c, r, chosen) == Some(i);
      assert Done(c, facts, instances, r, chosen);
    }
    forall r, chosen | 0 <= r < |c.rules| && Over(chosen, facts) && Firing(c, r, chosen).Some?
      ensures Firing(c, r, chosen).value.head in facts
    {
      assert Done(c, facts, instances, r, chosen);
    }
  }

  /** `ground`: seed, saturate. Uncapped and stratified, the result is the least fixpoint of the rules over
      the seeded facts. */
  method Ground(rules: seq<Rule>, order: Atom -> nat, maxFacts: nat, maxInstances: nat, maxIterations: nat,
                records: seq<(nat, Atom)>)
    returns (e: Engine, ghost c: Context)
    requires RulesOk(rules)
    ensures fresh(e) && e.Valid() && e.rules == rules && c.rules == rules
    ensures Recorded(records, c.events) && c.snap == Snapshot({}, map[])
    ensures c.events == e.events && e.detail != SilentCap && (!e.capped ==> e.delta == [])
    ensures e.log == {} && OrderedSpans(c.snap)
    ensures e.Complete() ==>
              c.base == c.events.Keys && LeastFixpoint(c, e.facts) && ExactInstances(c, e.facts, e.instances)
    ensures e.Complete() ==> MeantInstances(c, e.facts, e.instances)
  {
    e := new Engine(rules, order, maxFacts, maxInstances, maxIterations);
    e.Seed(records);
    ghost var settled := e.facts - Elements(e.delta);
    c := e.Saturate();
    if e.Complete() {
      assert settled == {};
      SaturatedIsLeastFixpoint(c, e.facts, e.instances);
      ExactIsMeant(c, e.facts, e.instances);
    }
  }

  /** The tuple over the facts fires as this instance, as a firing is meant. */
  ghost predicate MeantFiring(c: Context, facts: set<Atom>, i: GroundInstance)
    requires RulesOk(c.rules)
  {
    exists r, chosen, sigma, extra :: 0 <= r < |c.rules| && Over(chosen, facts)
      && FiresAs(c.rules[r], chosen, c.base, c.snap, c.events, i, sigma, extra)
  }

  ghost predicate MeantInstances(c: Context, facts: set<Atom>, instances: set<GroundInstance>)
    requires RulesOk(c.rules)
  {
    forall i :: i in instances <==> MeantFiring(c, facts, i)
  }

  lemma {:induction false} FiringIsMeant(c: Context, facts: set<Atom>, i: GroundInstance)
    requires RulesOk(c.rules) && OrderedSpans(c.snap)
    ensures IsFiring(c, facts, i) <==> MeantFiring(c, facts, i)
  {
    if IsFiring(c, facts, i) {
      var r, chosen :| 0 <= r < |c.rules| && Over(chosen, facts) && Firing(c, r, chosen) == Some(i);
      FiringMeans(c.rules[r], chosen, c.base, c.snap, c.events, i);
    }
    if MeantFiring(c, facts, i) {
      var r, chosen, sigma, extra :| 0 <= r < |c.rules| && Over(chosen, facts)
          && FiresAs(c.rules[r], chosen, c.base, c.snap, c.events, i, sigma, extra);
      FiringMeans(c.rules[r], chosen, c.base, c.snap, c.events, i);
      assert Firing(c, r, chosen) == Some(i);
    }
  }

  /** The instance table holds exactly the tuples over the facts that fire as a firing is meant. */
  lemma {:induction false} ExactIsMeant(c: Context, facts: set<Atom>, instances: set<GroundInstance>)
    requires RulesOk(c.rules) && OrderedSpans(c.snap) && ExactInstances(c, facts, instances)
    ensures MeantInstances(c, facts, instances)
  {
    forall i ensures i in instances <==> MeantFiring(c, facts, i) {
      FiringIsMeant(c, facts, i);
    }
  }

  ghost predicate SameRules(a: seq<Rule>, b: seq<Rule>) {
    (forall i :: 0 <= i < |a| ==> exists j :: 0 <= j < |b| && b[j] == a[i])
  }

  lemma ClosedUnderSame(a: Context, b: Context, facts: set<Atom>)
    requires RulesOk(a.rules) && RulesOk(b.rules) && SameRules(a.rules, b.rules)
    requires a.base == b.base && a.snap == b.snap && a.events == b.events
    requires ClosedUnder(b, facts)
    ensures ClosedUnder(a, facts)
  {
    forall r, chosen | 0 <= r < |a.rules| && Over(chosen, facts) && Firing(a, r, chosen).Some?
      ensures Firing(a, r, chosen).value.head in facts
    {
      var j :| 0 <= j < |b.rules| && b.rules[j] == a.rules[r];
      assert Firing(b, j, chosen) == Firing(a, r, chosen);
    }
  }

  lemma FiringSame(a: Context, b: Context, facts: set<Atom>, i: GroundInstance)
    requires RulesOk(a.rules) && RulesOk(b.rules) && SameRules(a.rules, b.rules)
    requires a.base == b.base && a.snap == b.snap && a.events == b.events
    requires IsFiring(a, facts, i)
    ensures IsFiring(b, facts, i)
  {
    var r, chosen :| 0 <= r < |a.rules| && Over(chosen, facts) && Firing(a, r, chosen) == Some(i);
    var j :| 0 <= j < |b.rules| && b.rules[j] == a.rules[r];
    assert Firing(b, j, chosen) == Some(i);
  }

  /** The facts and the instances do not depend on the order the rules are listed in. */
  lemma RuleOrderIrrelevant(a: Context, b: Context, fa: set<Atom>, ia: set<GroundInstance>, fb: set<Atom>,
                            ib: set<GroundInstance>)
    requires RulesOk(a.rules) && RulesOk(b.rules) && SameRules(a.rules, b.rules) && SameRules(b.rules, a.rules)
    requires a.base == b.base && a.snap == b.snap && a.events == b.events
    requires LeastFixpoint(a, fa) && ExactInstances(a, fa, ia)
    requires LeastFixpoint(b, fb) && ExactInstances(b, fb, ib)
    ensures fa == fb && ia == ib
  {
    ClosedUnderSame(a, b, fb);
    ClosedUnderSame(b, a, fa);
    assert fa <= fb && fb <= fa;
    forall i | i in ia ensures i in ib {
      FiringSame(a, b, fa, i);
    }
    forall i | i in ib ensures i in ia {
      FiringSame(b, a, fb, i);
    }
  }

  /** Why the scanned predicates must be underived: absence is not monotone. A rule that fires
      on a base can fall silent on a larger one. */
  lemma AbsenceIsNotMonotone()
    ensures exists r: Rule, chosen: seq<Atom>, small: set<Atom>, large: set<Atom>, events: Events ::
              RuleOk(r) && small <= large
              && Fires(r, chosen, small, Snapshot({}, map[]), events).Some?
              && Fires(r, chosen, large, Snapshot({}, map[]), events).None?
  {
    var on, off := Atom(0, [], 5), Atom(1, [], 3);
    var p, q := Pattern(0, [], 0), Pattern(1, [], 1);
    var r := Rule(0, [p], Pattern(2, [], 0), [], AbsenceOf(q, 0, 10), (chosen: seq<Atom>) => true,
                  (low: int, high: int) => true);
    var s := Snapshot({}, map[]);
    var events := map[on := {7}];
    assert UnifyAll([p], [on], map[]) == Some(map[0 := At(5)]) by {
      assert Unify(p, on, map[], false) == Some(map[0 := At(5)]);
    }
    assert (0, 7) in EvidenceFor(r, [on], {}, events);
    assert HeadAtom(r.head, map[0 := At(5)]) == Some(Atom(2, [], 5));
    assert Fires(r, [on], {on}, s, events).Some?;
    assert Unify(q, off, map[0 := At(5)], true).Some?;
    assert off in {on, off};
    assert Fires(r, [on], {on, off}, s, events).None?;
    assert {on} <= {on, off};
  }
}
