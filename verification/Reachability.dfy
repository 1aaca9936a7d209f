/** Reachability under a cut (reach.py): unit propagation over the AND/OR hypergraph of
    facts and rule instances, the witness tree over its derivation order, and the corridor
    a witness tree teaches.

    A 64-bit mask is the set of its one bits, and a fact is its content hash read as a number.
 */
module Reachability {
  import opened Wrappers

  type Fact = nat
  type Mask = set<nat>

  /** A grounded rule: it derives `head` from `body` unless the cut satisfies one of its
      blocker terms. */
  datatype Instance = Instance(id: nat, head: Fact, body: seq<Fact>, blockers: seq<Mask>)

  datatype Program = Program(instances: seq<Instance>, axioms: seq<Fact>, goal: Fact, goals: seq<Fact>)

  ghost predicate Ascending(s: seq<nat>) {
    forall i, j :: 0 <= i < j < |s| ==> s[i] < s[j]
  }

  /** What `ReachProgram.build` verifies: published orders, the representative goal, and
      single-literal blocker terms. */
  ghost predicate WellFormed(p: Program) {
    && (forall i, j :: 0 <= i < j < |p.instances| ==> p.instances[i].id < p.instances[j].id)
    && Ascending(p.axioms)
    && Ascending(p.goals)
    && p.goal in p.goals
    && forall i, k :: 0 <= i < |p.instances| && 0 <= k < |p.instances[i].blockers|
                      ==> |p.instances[i].blockers[k]| == 1
  }

  /** The general test: some term has every literal raised. */
  predicate Blocked(inst: Instance, cut: Mask) {
    exists k :: 0 <= k < |inst.blockers| && inst.blockers[k] <= cut
  }

  function Elements<T>(s: seq<T>): set<T> {
    set x | x in s
  }

  // ---------------------------------------------------------------------------
  // Meaning: derivation trees and closed sets
  // ---------------------------------------------------------------------------

  /** A derivation: an axiom leaf, or an instance (by its index) over derivations of its
      body in declared order. */
  datatype Tree = Leaf(head: Fact) | Node(head: Fact, inst: nat, children: seq<Tree>)

  ghost predicate ValidTree(p: Program, cut: Mask, t: Tree) {
    match t
    case Leaf(f) => f in p.axioms
    case Node(f, i, cs) =>
      && i < |p.instances|
      && p.instances[i].head == f
      && !Blocked(p.instances[i], cut)
      && |cs| == |p.instances[i].body|
      && forall k :: 0 <= k < |cs| ==> cs[k].head == p.instances[i].body[k] && ValidTree(p, cut, cs[k])
  }

  ghost predicate Derives(p: Program, cut: Mask, f: Fact, t: Tree) {
    t.head == f && ValidTree(p, cut, t)
  }

  ghost predicate Derivable(p: Program, cut: Mask, f: Fact) {
    exists t :: Derives(p, cut, f, t)
  }

  /** The goal is a set: a cut severs only when every member is underivable. */
  ghost predicate Severs(p: Program, cut: Mask) {
    forall g :: g in p.goals ==> !Derivable(p, cut, g)
  }

  /** Closed under the axioms and every enabled instance. */
  ghost predicate Closed(p: Program, cut: Mask, facts: set<Fact>) {
    && Elements(p.axioms) <= facts
    && forall i :: 0 <= i < |p.instances| && !Blocked(p.instances[i], cut)
                   && Elements(p.instances[i].body) <= facts
                   ==> p.instances[i].head in facts
  }

  lemma {:induction false} DerivationsStayInClosedSets(p: Program, cut: Mask, t: Tree, facts: set<Fact>)
    requires ValidTree(p, cut, t) && Closed(p, cut, facts)
    ensures t.head in facts
    decreases t
  {
    match t
    case Leaf(f) => assert f in Elements(p.axioms);
    case Node(f, i, cs) =>
      forall b | b in Elements(p.instances[i].body) ensures b in facts {
        var k :| 0 <= k < |cs| && p.instances[i].body[k] == b;
        DerivationsStayInClosedSets(p, cut, cs[k], facts);
      }
  }

  // ---------------------------------------------------------------------------
  // Derivation order
  // ---------------------------------------------------------------------------

  /** Instance `i` derives `f` from facts already in `earlier`. */
  predicate Supports(p: Program, cut: Mask, i: nat, f: Fact, earlier: set<Fact>) {
    && i < |p.instances|
    && p.instances[i].head == f
    && !Blocked(p.instances[i], cut)
    && Elements(p.instances[i].body) <= earlier
  }

  ghost predicate Grounded(p: Program, cut: Mask, f: Fact, earlier: set<Fact>) {
    f in p.axioms || exists i: nat :: Supports(p, cut, i, f, earlier)
  }

  /** Every fact of the order is an axiom or follows from strictly earlier facts, and no
      fact occurs twice. */
  ghost predicate DerivationOrder(p: Program, cut: Mask, order: seq<Fact>) {
    && (forall i, j :: 0 <= i < j < |order| ==> order[i] != order[j])
    && forall i :: 0 <= i < |order| ==> Grounded(p, cut, order[i], Elements(order[..i]))
  }

  /** The edges unit propagation touches: an enabled instance and a distinct body fact. */
  ghost function Edges(p: Program, cut: Mask, facts: set<Fact>): set<(nat, Fact)> {
    set i: nat, b | i < |p.instances| && b in p.instances[i].body && !Blocked(p.instances[i], cut)
        && b in facts :: (i, b)
  }

  // ---------------------------------------------------------------------------
  // The fixpoint
  // ---------------------------------------------------------------------------

  datatype ReachResult = ReachResult(derivable: bool, closure: set<Fact>, order: seq<Fact>, steps: nat)

  /** Indices below `n` of the instances naming `f` in their body, ascending. */
  function Dependents(p: Program, f: Fact, n: nat): (r: seq<nat>)
    requires n <= |p.instances|
    ensures Ascending(r)
    ensures forall i :: i in r <==> 0 <= i < n && f in p.instances[i].body
  {
    if n == 0 then []
    else
      var front := Dependents(p, f, n - 1);
      assert forall k :: 0 <= k < |front| ==> front[k] in front;
      if f in p.instances[n - 1].body then front + [n - 1] else front
  }

  // ---------------------------------------------------------------------------
  // The order of the queue
  // ---------------------------------------------------------------------------

  lemma ElementsAppend<T>(s: seq<T>, x: T)
    ensures Elements(s + [x]) == Elements(s) + {x}
  {
    assert forall y :: y in s + [x] <==> y in s || y == x;
  }

  /** The instance is enabled and every fact of its body has been seen. */
  predicate Fulfilled(p: Program, cut: Mask, i: nat, seen: set<Fact>) {
    i < |p.instances| && !Blocked(p.instances[i], cut) && Elements(p.instances[i].body) <= seen
  }

  /** The heads of those of the listed instances that are fulfilled, in the order listed. */
  function Heads(p: Program, cut: Mask, listed: seq<nat>, seen: set<Fact>): seq<Fact> {
    if listed == [] then []
    else
      var last := |listed| - 1;
      Heads(p, cut, listed[..last], seen)
      + if Fulfilled(p, cut, listed[last], seen) then [p.instances[listed[last]].head] else []
  }

  lemma {:induction false} HeadsOneMore(p: Program, cut: Mask, listed: seq<nat>, i: nat, seen: set<Fact>)
    ensures Heads(p, cut, listed + [i], seen)
         == Heads(p, cut, listed, seen) + if Fulfilled(p, cut, i, seen) then [p.instances[i].head] else []
  {
    assert (listed + [i])[..|listed|] == listed;
  }

  lemma {:induction false} HeadListed(p: Program, cut: Mask, listed: seq<nat>, i: nat, seen: set<Fact>)
    requires i in listed && Fulfilled(p, cut, i, seen)
    ensures p.instances[i].head in Heads(p, cut, listed, seen)
    decreases |listed|
  {
    var last := |listed| - 1;
    if listed[last] != i {
      assert i in listed[..last];
      HeadListed(p, cut, listed[..last], i, seen);
    }
  }

  lemma {:induction false} HeadsAreSupported(p: Program, cut: Mask, listed: seq<nat>, seen: set<Fact>)
    ensures forall f :: f in Heads(p, cut, listed, seen) ==> Grounded(p, cut, f, seen)
    decreases |listed|
  {
    if listed != [] {
      var last := |listed| - 1;
      HeadsAreSupported(p, cut, listed[..last], seen);
      if Fulfilled(p, cut, listed[last], seen) {
        assert Supports(p, cut, listed[last], p.instances[listed[last]].head, seen);
      }
    }
  }

  function UpTo(n: nat): (r: seq<nat>)
    ensures |r| == n && forall i :: i in r <==> 0 <= i < n
  {
    if n == 0 then [] else UpTo(n - 1) + [n - 1]
  }

  /** What the queue starts with: the axioms, then the heads of the enabled empty-body instances. */
  function Seeds(p: Program, cut: Mask): seq<Fact> {
    p.axioms + Heads(p, cut, UpTo(|p.instances|), {})
  }

  /** All that was ever queued once the first `n` facts of the order were expanded: the seeds, and after
      each fact the heads of the instances it completes. */
  ghost function Queued(p: Program, cut: Mask, order: seq<Fact>, n: nat): seq<Fact>
    requires n <= |order|
  {
    if n == 0 then Seeds(p, cut)
    else Queued(p, cut, order, n - 1)
         + Heads(p, cut, Dependents(p, order[n - 1], |p.instances|), Elements(order[..n]))
  }

  /** Each fact of the sequence once, where it first comes. */
  ghost function Firsts(s: seq<Fact>): (r: seq<Fact>)
    ensures forall f :: f in r <==> f in s
  {
    if s == [] then []
    else
      var last := |s| - 1;
      var front := Firsts(s[..last]);
      assert s == s[..last] + [s[last]];
      if s[last] in front then front else front + [s[last]]
  }

  /** First in, first out: the order is everything queued, each fact where it was first queued. */
  ghost predicate QueueOrder(p: Program, cut: Mask, order: seq<Fact>) {
    order == Firsts(Queued(p, cut, order, |order|))
  }

  lemma {:induction false} FirstsOneMore(s: seq<Fact>, f: Fact)
    ensures Firsts(s + [f]) == if f in Firsts(s) then Firsts(s) else Firsts(s) + [f]
  {
    assert (s + [f])[..|s|] == s;
  }

  lemma {:induction false} FirstsPrefix(s: seq<Fact>, t: seq<Fact>)
    ensures Firsts(s) <= Firsts(s + t)
    decreases |t|
  {
    if t == [] {
      assert s + t == s;
    } else {
      var last := |t| - 1;
      FirstsPrefix(s, t[..last]);
      assert s + t == (s + t[..last]) + [t[last]];
      FirstsOneMore(s + t[..last], t[last]);
    }
  }

  /** What was queued depends on the facts expanded alone. */
  lemma {:induction false} QueuedAgrees(p: Program, cut: Mask, a: seq<Fact>, b: seq<Fact>, n: nat)
    requires n <= |a| && n <= |b| && a[..n] == b[..n]
    ensures Queued(p, cut, a, n) == Queued(p, cut, b, n)
  {
    if n > 0 {
      assert a[..n - 1] == a[..n][..n - 1] && b[..n - 1] == b[..n][..n - 1];
      assert a[n - 1] == a[..n][n - 1] && b[n - 1] == b[..n][n - 1];
      QueuedAgrees(p, cut, a, b, n - 1);
    }
  }

  lemma {:induction false} QueuedPrefix(p: Program, cut: Mask, order: seq<Fact>, n: nat, m: nat)
    returns (rest: seq<Fact>)
    requires n <= m <= |order|
    ensures Queued(p, cut, order, m) == Queued(p, cut, order, n) + rest
    decreases m
  {
    rest := [];
    if n < m {
      rest := QueuedPrefix(p, cut, order, n, m - 1);
      rest := rest + Heads(p, cut, Dependents(p, order[m - 1], |p.instances|), Elements(order[..m]));
    }
  }

  /** A supported head has been queued once the last fact of the body is expanded. */
  lemma {:induction false} SupportedIsQueued(p: Program, cut: Mask, order: seq<Fact>, n: nat, i: nat)
    requires n <= |order| && Fulfilled(p, cut, i, Elements(order[..n]))
    ensures p.instances[i].head in Queued(p, cut, order, n)
  {
    if n == 0 {
      assert Elements(order[..0]) == {};
      HeadListed(p, cut, UpTo(|p.instances|), i, {});
    } else if Fulfilled(p, cut, i, Elements(order[..n - 1])) {
      SupportedIsQueued(p, cut, order, n - 1, i);
    } else {
      var b :| b in Elements(p.instances[i].body) && b !in Elements(order[..n - 1]);
      assert order[..n] == order[..n - 1] + [order[n - 1]];
      assert b == order[n - 1];
      HeadListed(p, cut, Dependents(p, order[n - 1], |p.instances|), i, Elements(order[..n]));
    }
  }

  /** Each fact of the order is the next to come of what had been queued by then. */
  lemma {:induction false} NextInOrder(p: Program, cut: Mask, order: seq<Fact>, k: nat)
    requires DerivationOrder(p, cut, order) && QueueOrder(p, cut, order) && k < |order|
    ensures k < |Firsts(Queued(p, cut, order, k))| && Firsts(Queued(p, cut, order, k))[k] == order[k]
  {
    var queued := Queued(p, cut, order, k);
    var rest := QueuedPrefix(p, cut, order, k, |order|);
    FirstsPrefix(queued, rest);
    if order[k] !in p.axioms {
      var i: nat :| Supports(p, cut, i, order[k], Elements(order[..k]));
      SupportedIsQueued(p, cut, order, k, i);
    } else {
      var since := QueuedPrefix(p, cut, order, 0, k);
    }
    assert order[k] in Firsts(queued);
    var j :| 0 <= j < |Firsts(queued)| && Firsts(queued)[j] == order[k];
    assert order[j] == order[k];
  }

  lemma OneMoreAgrees<T>(a: seq<T>, b: seq<T>, n: nat)
    requires n < |a| && n < |b| && a[..n] == b[..n] && a[n] == b[n]
    ensures a[..n + 1] == b[..n + 1]
  {
    assert a[..n + 1] == a[..n] + [a[n]] && b[..n + 1] == b[..n] + [b[n]];
  }

  lemma {:induction false} OrdersAgree(p: Program, cut: Mask, a: seq<Fact>, b: seq<Fact>, n: nat)
    requires DerivationOrder(p, cut, a) && QueueOrder(p, cut, a) && DerivationOrder(p, cut, b) && QueueOrder(p, cut, b)
    requires n <= |a| && n <= |b|
    ensures a[..n] == b[..n]
  {
    if n > 0 {
      OrdersAgree(p, cut, a, b, n - 1);
      QueuedAgrees(p, cut, a, b, n - 1);
      NextInOrder(p, cut, a, n - 1);
      NextInOrder(p, cut, b, n - 1);
      OneMoreAgrees(a, b, n - 1);
    }
  }

  /** The order is what the search promises of it, and nothing else is. */
  ghost predicate IsOrder(p: Program, cut: Mask, order: seq<Fact>) {
    DerivationOrder(p, cut, order) && QueueOrder(p, cut, order) && Closed(p, cut, Elements(order))
  }

  /** There is one order for a program and a cut. */
  lemma {:induction false} OrderIsDetermined(p: Program, cut: Mask, a: seq<Fact>, b: seq<Fact>)
    requires IsOrder(p, cut, a) && IsOrder(p, cut, b)
    ensures a == b
  {
    OrderIsClosure(p, cut, a);
    OrderIsClosure(p, cut, b);
    assert Elements(a) == Elements(b);
    DistinctSize(a);
    DistinctSize(b);
    OrdersAgree(p, cut, a, b, |a|);
    assert a[..|a|] == a && b[..|b|] == b;
  }

  lemma {:induction false} DistinctSize(s: seq<Fact>)
    requires forall i, j :: 0 <= i < j < |s| ==> s[i] != s[j]
    ensures |Elements(s)| == |s|
  {
    if s != [] {
      var last := |s| - 1;
      DistinctSize(s[..last]);
      assert Elements(s) == Elements(s[..last]) + {s[last]};
    }
  }

  ghost function Universe(p: Program): set<Fact> {
    Elements(p.axioms) + set i | 0 <= i < |p.instances| :: p.instances[i].head
  }

  ghost function Missing(p: Program, i: nat, seen: set<Fact>): nat
    requires i < |p.instances|
  {
    |Elements(p.instances[i].body) - seen|
  }

  /** Everything queued follows from what was seen, and everything that follows from what
      was seen is seen or queued. */
  ghost predicate QueueInvariant(p: Program, cut: Mask, seen: set<Fact>, queue: seq<Fact>) {
    && (forall q :: q in queue ==> Grounded(p, cut, q, seen))
    && (forall f :: f in p.axioms ==> f in seen || f in queue)
    && forall i: nat :: i < |p.instances| && Supports(p, cut, i, p.instances[i].head, seen)
                   ==> p.instances[i].head in seen || p.instances[i].head in queue
  }

  ghost predicate CountersInvariant(p: Program, cut: Mask, seen: set<Fact>, remaining: seq<nat>) {
    && |remaining| == |p.instances|
    && forall i :: 0 <= i < |remaining| && !Blocked(p.instances[i], cut)
                   ==> remaining[i] == Missing(p, i, seen)
  }

  lemma GroundedGrows(p: Program, cut: Mask, f: Fact, small: set<Fact>, large: set<Fact>)
    requires Grounded(p, cut, f, small) && small <= large
    ensures Grounded(p, cut, f, large)
  {
    if f !in p.axioms {
      var i: nat :| Supports(p, cut, i, f, small);
      assert Supports(p, cut, i, f, large);
    }
  }

  lemma {:induction false} SeedsAreQueued(p: Program, cut: Mask)
    ensures QueueInvariant(p, cut, {}, Seeds(p, cut))
  {
    HeadsAreSupported(p, cut, UpTo(|p.instances|), {});
    forall i: nat | i < |p.instances| && Supports(p, cut, i, p.instances[i].head, {})
      ensures p.instances[i].head in Seeds(p, cut)
    {
      HeadListed(p, cut, UpTo(|p.instances|), i, {});
    }
  }

  lemma SeedsOneMore(p: Program, cut: Mask, i: nat, queue: seq<Fact>)
    requires i < |p.instances| && queue == p.axioms + Heads(p, cut, UpTo(i), {})
    ensures p.axioms + Heads(p, cut, UpTo(i + 1), {})
         == queue + if Fulfilled(p, cut, i, {}) then [p.instances[i].head] else []
  {
    HeadsOneMore(p, cut, UpTo(i), i, {});
  }

  /** The queue seeded with the axioms and the heads of enabled empty-body instances. */
  method SeedQueue(p: Program, cut: Mask, remaining: seq<nat>) returns (queue: seq<Fact>)
    requires CountersInvariant(p, cut, {}, remaining)
    ensures QueueInvariant(p, cut, {}, queue) && queue == Seeds(p, cut)
  {
    queue := p.axioms;
    for i := 0 to |p.instances|
      invariant queue == p.axioms + Heads(p, cut, UpTo(i), {})
    {
      SeedsOneMore(p, cut, i, queue);
      NothingMissing(p, cut, i, {}, remaining[i]);
      if remaining[i] == 0 && !Blocked(p.instances[i], cut) {
        queue := queue + [p.instances[i].head];
      }
    }
    SeedsAreQueued(p, cut);
  }

  lemma NothingMissing(p: Program, cut: Mask, i: nat, seen: set<Fact>, count: nat)
    requires i < |p.instances| && (!Blocked(p.instances[i], cut) ==> count == Missing(p, i, seen))
    ensures Fulfilled(p, cut, i, seen) <==> count == 0 && !Blocked(p.instances[i], cut)
  {
    var body := Elements(p.instances[i].body);
    if body <= seen {
      assert body - seen == {};
    }
    forall b | b in body && body - seen == {} ensures b in seen {
      assert b !in body - seen;
    }
  }

  /** The enabled instances naming `f`: what expanding it touches. */
  ghost function Touched(p: Program, cut: Mask, deps: seq<nat>): set<nat> {
    set i | i in deps && i < |p.instances| && !Blocked(p.instances[i], cut)
  }

  lemma {:induction false} EdgesStep(p: Program, cut: Mask, before: set<Fact>, f: Fact)
    requires f !in before
    ensures |Edges(p, cut, before + {f})|
         == |Edges(p, cut, before)| + |Touched(p, cut, Dependents(p, f, |p.instances|))|
  {
    var deps := Dependents(p, f, |p.instances|);
    var touched := Touched(p, cut, deps);
    var added := Paired(touched, f);
    assert Edges(p, cut, before + {f}) == Edges(p, cut, before) + added;
    assert Edges(p, cut, before) !! added;
    PairingKeepsSize(touched, f);
  }

  ghost function Paired(s: set<nat>, f: Fact): set<(nat, Fact)> {
    set i | i in s :: (i, f)
  }

  lemma {:induction false} PairingKeepsSize(s: set<nat>, f: Fact)
    ensures |Paired(s, f)| == |s|
    decreases s
  {
    if s != {} {
      var x :| x in s;
      PairingKeepsSize(s - {x}, f);
      assert Paired(s, f) == Paired(s - {x}, f) + {(x, f)};
    }
  }

  /** Counters while `f` is being expanded: instances still in `pending` are untouched. */
  ghost predicate Expanding(p: Program, cut: Mask, before: set<Fact>, f: Fact, pending: seq<nat>, remaining: seq<nat>) {
    && |remaining| == |p.instances|
    && forall i :: 0 <= i < |p.instances| && !Blocked(p.instances[i], cut) ==>
         remaining[i] == Missing(p, i, if i in pending then before else before + {f})
  }

  ghost predicate QueueWhileExpanding(p: Program, cut: Mask, seen: set<Fact>, pending: seq<nat>, queue: seq<Fact>) {
    && (forall q :: q in queue ==> Grounded(p, cut, q, seen))
    && (forall f :: f in p.axioms ==> f in seen || f in queue)
    && forall i: nat :: i < |p.instances| && i !in pending && Supports(p, cut, i, p.instances[i].head, seen)
                   ==> p.instances[i].head in seen || p.instances[i].head in queue
  }

  lemma {:induction false} StartExpanding(p: Program, cut: Mask, before: set<Fact>, f: Fact, remaining: seq<nat>,
                                          queue: seq<Fact>)
    requires f !in before
    requires CountersInvariant(p, cut, before, remaining)
    requires QueueInvariant(p, cut, before, [f] + queue)
    ensures Expanding(p, cut, before, f, Dependents(p, f, |p.instances|), remaining)
    ensures QueueWhileExpanding(p, cut, before + {f}, Dependents(p, f, |p.instances|), queue)
  {
    var seen := before + {f};
    var deps := Dependents(p, f, |p.instances|);
    forall q | q in queue ensures Grounded(p, cut, q, seen) {
      assert q in [f] + queue;
      GroundedGrows(p, cut, q, before, seen);
    }
    forall i: nat | i < |p.instances| && i !in deps
      ensures Missing(p, i, seen) == Missing(p, i, before)
      ensures Supports(p, cut, i, p.instances[i].head, seen) ==> Supports(p, cut, i, p.instances[i].head, before)
    {
      assert f !in Elements(p.instances[i].body);
      assert Elements(p.instances[i].body) - seen == Elements(p.instances[i].body) - before;
    }
  }

  /** One dependent of the expanded fact: if enabled it loses one from its counter and joins
      the queue at zero. */
  method TouchOne(p: Program, cut: Mask, ghost before: set<Fact>, f: Fact, index: nat, ghost pending: seq<nat>,
                  remaining: seq<nat>, queue: seq<Fact>)
    returns (remaining': seq<nat>, queue': seq<Fact>, touched: nat)
    requires f !in before && index < |p.instances| && f in p.instances[index].body && index !in pending
    requires Expanding(p, cut, before, f, [index] + pending, remaining)
    requires QueueWhileExpanding(p, cut, before + {f}, [index] + pending, queue)
    ensures Expanding(p, cut, before, f, pending, remaining')
    ensures QueueWhileExpanding(p, cut, before + {f}, pending, queue')
    ensures touched == if Blocked(p.instances[index], cut) then 0 else 1
    ensures queue' == queue + if Fulfilled(p, cut, index, before + {f}) then [p.instances[index].head] else []
  {
    if Blocked(p.instances[index], cut) {
      QueueStep(p, cut, before + {f}, index, pending, queue, 0);
      return remaining, queue, 0;
    }
    CounterStep(p, cut, before, f, index, pending, remaining);
    remaining' := remaining[index := remaining[index] - 1];
    QueueStep(p, cut, before + {f}, index, pending, queue, remaining'[index]);
    NothingMissing(p, cut, index, before + {f}, remaining'[index]);
    queue' := if remaining'[index] == 0 then queue + [p.instances[index].head] else queue;
    touched := 1;
  }

  /** The queue has gained the heads that the first `n` of the listed instances fire. */
  ghost predicate Fired(p: Program, cut: Mask, listed: seq<nat>, n: nat, seen: set<Fact>, queue: seq<Fact>,
                        queue': seq<Fact>)
    requires n <= |listed|
  {
    queue' == queue + Heads(p, cut, listed[..n], seen)
  }

  lemma FiredOneMore(p: Program, cut: Mask, listed: seq<nat>, n: nat, seen: set<Fact>, queue: seq<Fact>,
                     was: seq<Fact>, queue': seq<Fact>)
    requires n < |listed| && listed[n] < |p.instances| && Fired(p, cut, listed, n, seen, queue, was)
    requires queue' == was + if Fulfilled(p, cut, listed[n], seen) then [p.instances[listed[n]].head] else []
    ensures Fired(p, cut, listed, n + 1, seen, queue, queue')
  {
    assert listed[..n + 1] == listed[..n] + [listed[n]];
    HeadsOneMore(p, cut, listed[..n], listed[n], seen);
  }

  /** Expanding `f`: every enabled dependent loses one from its counter and fires at zero. */
  method Expand(p: Program, cut: Mask, ghost before: set<Fact>, f: Fact, remaining: seq<nat>, queue: seq<Fact>)
    returns (remaining': seq<nat>, queue': seq<Fact>, touched: nat)
    requires f !in before
    requires CountersInvariant(p, cut, before, remaining)
    requires QueueInvariant(p, cut, before, [f] + queue)
    ensures CountersInvariant(p, cut, before + {f}, remaining')
    ensures QueueInvariant(p, cut, before + {f}, queue')
    ensures touched == |Touched(p, cut, Dependents(p, f, |p.instances|))|
    ensures queue' == queue + Heads(p, cut, Dependents(p, f, |p.instances|), before + {f})
  {
    var deps := Dependents(p, f, |p.instances|);
    StartExpanding(p, cut, before, f, remaining, queue);
    remaining', queue', touched := remaining, queue, 0;
    assert deps[0..] == deps;
    for j := 0 to |deps|
      invariant Expanding(p, cut, before, f, deps[j..], remaining')
      invariant QueueWhileExpanding(p, cut, before + {f}, deps[j..], queue')
      invariant touched == |Touched(p, cut, deps[..j])|
      invariant Fired(p, cut, deps, j, before + {f}, queue, queue')
    {
      var index := deps[j];
      NextDependent(p, f, deps, j);
      TouchedGrows(p, cut, deps, j);
      var one;
      ghost var was := queue';
      remaining', queue', one := TouchOne(p, cut, before, f, index, deps[j + 1..], remaining', queue');
      FiredOneMore(p, cut, deps, j, before + {f}, queue, was, queue');
      touched := touched + one;
    }
    assert deps[..|deps|] == deps;
    EndExpanding(p, cut, before, f, remaining', queue');
  }

  lemma {:induction false} NextDependent(p: Program, f: Fact, deps: seq<nat>, j: nat)
    requires deps == Dependents(p, f, |p.instances|) && j < |deps|
    ensures deps[j] < |p.instances| && f in p.instances[deps[j]].body
    ensures deps[j..] == [deps[j]] + deps[j + 1..] && deps[j] !in deps[j + 1..]
  {
    assert deps[j] in deps;
  }

  lemma EndExpanding(p: Program, cut: Mask, before: set<Fact>, f: Fact, remaining: seq<nat>, queue: seq<Fact>)
    requires Expanding(p, cut, before, f, [], remaining) && QueueWhileExpanding(p, cut, before + {f}, [], queue)
    ensures CountersInvariant(p, cut, before + {f}, remaining) && QueueInvariant(p, cut, before + {f}, queue)
  {
  }

  lemma TouchedGrows(p: Program, cut: Mask, deps: seq<nat>, j: nat)
    requires Ascending(deps) && j < |deps| && deps[j] < |p.instances|
    ensures |Touched(p, cut, deps[..j + 1])|
         == |Touched(p, cut, deps[..j])| + if Blocked(p.instances[deps[j]], cut) then 0 else 1
  {
    assert deps[..j + 1] == deps[..j] + [deps[j]];
    assert Touched(p, cut, deps[..j + 1])
        == Touched(p, cut, deps[..j]) + if Blocked(p.instances[deps[j]], cut) then {} else {deps[j]};
  }

  lemma CounterStep(p: Program, cut: Mask, before: set<Fact>, f: Fact, index: nat, pending: seq<nat>,
                    remaining: seq<nat>)
    requires Expanding(p, cut, before, f, [index] + pending, remaining)
    requires index < |p.instances| && index !in pending && !Blocked(p.instances[index], cut)
    requires f in p.instances[index].body && f !in before
    ensures remaining[index] > 0
    ensures Expanding(p, cut, before, f, pending, remaining[index := remaining[index] - 1])
  {
    var body := Elements(p.instances[index].body);
    assert index in [index] + pending;
    assert body - before == (body - (before + {f})) + {f};
  }

  /** Settling one dependent: it joins the queue exactly when nothing of its body is missing. */
  lemma QueueStep(p: Program, cut: Mask, seen: set<Fact>, index: nat, pending: seq<nat>, queue: seq<Fact>, missing: nat)
    requires index < |p.instances|
    requires !Blocked(p.instances[index], cut) ==> missing == Missing(p, index, seen)
    requires QueueWhileExpanding(p, cut, seen, [index] + pending, queue)
    ensures !Blocked(p.instances[index], cut) && missing == 0
            ==> QueueWhileExpanding(p, cut, seen, pending, queue + [p.instances[index].head])
    ensures Blocked(p.instances[index], cut) || missing != 0
            ==> QueueWhileExpanding(p, cut, seen, pending, queue)
  {
    var body := Elements(p.instances[index].body);
    assert forall b :: b in body && b !in seen ==> b in body - seen;
    if body <= seen {
      assert body - seen == {};
    }
    if !Blocked(p.instances[index], cut) && missing == 0 {
      assert Supports(p, cut, index, p.instances[index].head, seen);
    }
  }

  datatype Propagation = Propagation(remaining: seq<nat>, queue: seq<Fact>, seen: set<Fact>,
                                      order: seq<Fact>, steps: nat)

  /** The loop invariant of unit propagation. */
  ghost predicate Propagating(p: Program, cut: Mask, s: Propagation) {
    && CountersInvariant(p, cut, s.seen, s.remaining)
    && QueueInvariant(p, cut, s.seen, s.queue)
    && OrderInvariant(p, cut, s.seen, s.order, s.steps)
  }

  lemma SeenSkipped(p: Program, cut: Mask, seen: set<Fact>, queue: seq<Fact>, f: Fact, rest: seq<Fact>)
    requires QueueInvariant(p, cut, seen, queue) && queue == [f] + rest && f in seen
    ensures QueueInvariant(p, cut, seen, rest)
  {
  }

  /** First in, first out: what was popped and what is queued is all that was ever queued. */
  ghost predicate InTurn(p: Program, cut: Mask, popped: seq<Fact>, queue: seq<Fact>, order: seq<Fact>) {
    popped + queue == Queued(p, cut, order, |order|) && order == Firsts(popped)
  }

  lemma TurnSkipped(p: Program, cut: Mask, popped: seq<Fact>, f: Fact, rest: seq<Fact>, order: seq<Fact>)
    requires InTurn(p, cut, popped, [f] + rest, order) && f in order
    ensures InTurn(p, cut, popped + [f], rest, order)
  {
    FirstsOneMore(popped, f);
    Regroup(popped, f, rest, []);
    assert rest + [] == rest && (popped + ([f] + rest)) + [] == popped + ([f] + rest);
  }

  lemma {:induction false} QueuedNext(p: Program, cut: Mask, order: seq<Fact>, f: Fact, queued: seq<Fact>,
                                      heads: seq<Fact>)
    requires queued == Queued(p, cut, order, |order|)
    requires heads == Heads(p, cut, Dependents(p, f, |p.instances|), Elements(order) + {f})
    ensures Queued(p, cut, order + [f], |order| + 1) == queued + heads
  {
    var longer := order + [f];
    assert longer[..|order|] == order[..|order|] && longer[..|order| + 1] == longer;
    QueuedAgrees(p, cut, order, longer, |order|);
    ElementsAppend(order, f);
    assert longer[|order|] == f;
  }

  lemma {:induction false} TurnTaken(p: Program, cut: Mask, popped: seq<Fact>, f: Fact, rest: seq<Fact>,
                                     order: seq<Fact>, queue: seq<Fact>, heads: seq<Fact>)
    requires InTurn(p, cut, popped, [f] + rest, order) && f !in order && queue == rest + heads
    requires heads == Heads(p, cut, Dependents(p, f, |p.instances|), Elements(order) + {f})
    ensures InTurn(p, cut, popped + [f], queue, order + [f])
  {
    FirstsOneMore(popped, f);
    QueuedNext(p, cut, order, f, popped + ([f] + rest), heads);
    Regroup(popped, f, rest, heads);
  }

  lemma Regroup(popped: seq<Fact>, f: Fact, rest: seq<Fact>, heads: seq<Fact>)
    ensures (popped + [f]) + (rest + heads) == (popped + ([f] + rest)) + heads
  {
  }

  ghost predicate Going(p: Program, cut: Mask, s: Propagation, popped: seq<Fact>) {
    Propagating(p, cut, s) && InTurn(p, cut, popped, s.queue, s.order)
  }

  /** Pop one fact: skip it if seen, otherwise expand it. */
  method PopFact(p: Program, cut: Mask, s: Propagation, ghost popped: seq<Fact>)
    returns (s': Propagation, ghost popped': seq<Fact>)
    requires Going(p, cut, s, popped) && |s.queue| > 0
    ensures Going(p, cut, s', popped')
    ensures Universe(p) - s'.seen < Universe(p) - s.seen
         || (s'.seen == s.seen && |s'.queue| < |s.queue|)
  {
    var f, rest := s.queue[0], s.queue[1..];
    HeadAndRest(s.queue, f, rest);
    popped' := popped + [f];
    if f in s.seen {
      s' := SkipFact(p, cut, s, f, rest, popped);
    } else {
      s' := TakeFact(p, cut, s, f, rest, popped);
    }
  }

  lemma HeadAndRest(queue: seq<Fact>, f: Fact, rest: seq<Fact>)
    requires |queue| > 0 && f == queue[0] && rest == queue[1..]
    ensures queue == [f] + rest
  {
  }

  /** A fact seen before leaves the queue. */
  method SkipFact(p: Program, cut: Mask, s: Propagation, f: Fact, rest: seq<Fact>, ghost popped: seq<Fact>)
    returns (s': Propagation)
    requires Going(p, cut, s, popped) && s.queue == [f] + rest && f in s.seen
    ensures Going(p, cut, s', popped + [f])
    ensures s'.seen == s.seen && s'.queue == rest
  {
    SeenSkipped(p, cut, s.seen, s.queue, f, rest);
    TurnSkipped(p, cut, popped, f, rest, s.order);
    s' := s.(queue := rest);
  }

  /** A fact not seen before is expanded and joins the order. */
  method TakeFact(p: Program, cut: Mask, s: Propagation, f: Fact, rest: seq<Fact>, ghost popped: seq<Fact>)
    returns (s': Propagation)
    requires Going(p, cut, s, popped) && s.queue == [f] + rest && f !in s.seen
    ensures Going(p, cut, s', popped + [f])
    ensures Universe(p) - s'.seen < Universe(p) - s.seen
  {
    assert f in s.queue;
    OrderStep(p, cut, s.seen, s.order, s.steps, f);
    var remaining, queue, touched := Expand(p, cut, s.seen, f, s.remaining, rest);
    s' := Propagation(remaining, queue, s.seen + {f}, s.order + [f], s.steps + touched + 1);
    TurnTaken(p, cut, popped, f, rest, s.order, queue, Heads(p, cut, Dependents(p, f, |p.instances|), s.seen + {f}));
    assert f in Universe(p) - s.seen;
  }

  /** The least fixpoint of derivable facts under the cut. */
  method Reach(p: Program, cut: Mask) returns (r: ReachResult)
    ensures IsOrder(p, cut, r.order) && r.closure == Elements(r.order)
    ensures r.derivable <==> !Severs(p, cut)
    ensures r.derivable <==> exists g :: g in p.goals && g in r.order
    ensures r.steps == |r.closure| + |Edges(p, cut, r.closure)|
  {
    var remaining: seq<nat> := seq(|p.instances|, i requires 0 <= i < |p.instances| => |Elements(p.instances[i].body)|);
    InitialCounters(p, cut, remaining);
    var queue := SeedQueue(p, cut, remaining);
    var s := Propagation(remaining, queue, {}, [], 0);
    assert Edges(p, cut, {}) == {};
    ghost var popped: seq<Fact> := [];
    assert [] + queue == queue;
    while |s.queue| > 0
      invariant Going(p, cut, s, popped)
      decreases Universe(p) - s.seen, |s.queue|
    {
      s, popped := PopFact(p, cut, s, popped);
    }
    assert popped + [] == popped;
    EmptyQueueIsClosed(p, cut, s.seen);
    ReachVerdict(p, cut, s.order);
    var derivable := exists g :: g in p.goals && g in s.seen;
    r := ReachResult(derivable, s.seen, s.order, s.steps);
  }

  lemma InitialCounters(p: Program, cut: Mask, remaining: seq<nat>)
    requires |remaining| == |p.instances|
    requires forall i :: 0 <= i < |remaining| ==> remaining[i] == |Elements(p.instances[i].body)|
    ensures CountersInvariant(p, cut, {}, remaining)
  {
    forall i | 0 <= i < |p.instances| ensures Missing(p, i, {}) == remaining[i] {
      assert Elements(p.instances[i].body) - {} == Elements(p.instances[i].body);
    }
  }

  /** A goal is in the order iff the cut does not sever. */
  lemma ReachVerdict(p: Program, cut: Mask, order: seq<Fact>)
    requires DerivationOrder(p, cut, order) && Closed(p, cut, Elements(order))
    ensures (exists g :: g in p.goals && g in Elements(order)) <==> !Severs(p, cut)
  {
    OrderIsClosure(p, cut, order);
    assert forall g :: g in Elements(order) <==> g in order;
  }

  ghost predicate OrderInvariant(p: Program, cut: Mask, seen: set<Fact>, order: seq<Fact>, steps: nat) {
    && seen == Elements(order)
    && |seen| == |order|
    && seen <= Universe(p)
    && DerivationOrder(p, cut, order)
    && steps == |seen| + |Edges(p, cut, seen)|
  }

  lemma {:induction false} OrderStep(p: Program, cut: Mask, seen: set<Fact>, order: seq<Fact>, steps: nat, f: Fact)
    requires OrderInvariant(p, cut, seen, order, steps)
    requires f !in seen && Grounded(p, cut, f, seen)
    ensures f in Universe(p)
    ensures OrderInvariant(p, cut, seen + {f}, order + [f],
                           steps + |Touched(p, cut, Dependents(p, f, |p.instances|))| + 1)
  {
    ExtendOrder(p, cut, order, f);
    EdgesStep(p, cut, seen, f);
  }

  lemma EmptyQueueIsClosed(p: Program, cut: Mask, seen: set<Fact>)
    requires QueueInvariant(p, cut, seen, [])
    ensures Closed(p, cut, seen)
  {
    forall i | 0 <= i < |p.instances| && !Blocked(p.instances[i], cut) && Elements(p.instances[i].body) <= seen
      ensures p.instances[i].head in seen
    {
      assert Supports(p, cut, i, p.instances[i].head, seen);
    }
  }

  lemma ExtendOrder(p: Program, cut: Mask, order: seq<Fact>, f: Fact)
    requires DerivationOrder(p, cut, order) && f !in order && Grounded(p, cut, f, Elements(order))
    ensures DerivationOrder(p, cut, order + [f])
    ensures Elements(order + [f]) == Elements(order) + {f}
  {
    var longer := order + [f];
    forall i | 0 <= i < |longer| ensures Grounded(p, cut, longer[i], Elements(longer[..i])) {
      if i < |order| {
        assert longer[..i] == order[..i];
      } else {
        assert longer[..i] == order;
      }
    }
  }

  // ---------------------------------------------------------------------------
  // The witness tree
  // ---------------------------------------------------------------------------

  /** The lowest-numbered enabled support of `f` at or after `from` whose body was derived
      strictly earlier. */
  function FirstSupport(p: Program, cut: Mask, f: Fact, earlier: set<Fact>, from: nat): (r: Option<nat>)
    requires from <= |p.instances|
    ensures r.Some? ==> from <= r.value && Supports(p, cut, r.value, f, earlier)
    ensures forall i: nat :: from <= i && Supports(p, cut, i, f, earlier) ==> r.Some? && r.value <= i
    decreases |p.instances| - from
  {
    if from == |p.instances| then None
    else if Supports(p, cut, from, f, earlier) then Some(from)
    else FirstSupport(p, cut, f, earlier, from + 1)
  }

  function Position(order: seq<Fact>, f: Fact): (k: nat)
    requires f in order
    ensures k < |order| && order[k] == f
    ensures forall n :: 0 <= n <= |order| && f in order[..n] ==> k < n
  {
    if order[0] == f then 0
    else
      assert forall n :: 1 <= n <= |order| ==> order[..n] == [order[0]] + order[1..][..n - 1];
      1 + Position(order[1..], f)
  }

  /** A supporting body comes strictly earlier in the order. */
  lemma SupportedEarlier(p: Program, cut: Mask, order: seq<Fact>, at: nat, i: nat)
    requires at < |order| && i < |p.instances| && Supports(p, cut, i, order[at], Elements(order[..at]))
    ensures forall b :: b in p.instances[i].body ==> b in order[..at]
  {
    var body := p.instances[i].body;
    forall b | b in body ensures b in order[..at] {
      assert b in Elements(body);
    }
  }

  /** The tree at one position of the order: the chosen support over the trees of its body. */
  function Witness(p: Program, cut: Mask, order: seq<Fact>, at: nat): (t: Tree)
    requires at < |order|
    ensures t.head == order[at]
    decreases at
  {
    var earlier := Elements(order[..at]);
    match FirstSupport(p, cut, order[at], earlier, 0)
    case None => Leaf(order[at])
    case Some(i) =>
      var body := p.instances[i].body;
      SupportedEarlier(p, cut, order, at, i);
      Node(order[at], i, seq(|body|, k requires 0 <= k < |body| =>
        assert body[k] in body; Witness(p, cut, order, Position(order, body[k]))))
  }

  lemma {:induction false} WitnessIsDerivation(p: Program, cut: Mask, order: seq<Fact>, at: nat)
    requires DerivationOrder(p, cut, order) && at < |order|
    ensures Derives(p, cut, order[at], Witness(p, cut, order, at))
    decreases at
  {
    var earlier := Elements(order[..at]);
    match FirstSupport(p, cut, order[at], earlier, 0)
    case None => assert Grounded(p, cut, order[at], earlier);
    case Some(i) =>
      var body := p.instances[i].body;
      forall k | 0 <= k < |body|
        ensures body[k] in order[..at] && ValidTree(p, cut, Witness(p, cut, order, Position(order, body[k])))
      {
        assert body[k] in Elements(body);
        WitnessIsDerivation(p, cut, order, Position(order, body[k]));
      }
  }

  /** No instance supports itself: none comes twice on a path from the root. */
  predicate NeverRepeats(t: Tree, above: set<nat>) {
    match t
    case Leaf(_) => true
    case Node(_, i, cs) => i !in above && forall k :: 0 <= k < |cs| ==> NeverRepeats(cs[k], above + {i})
  }

  /** Bodies come strictly earlier in the order, so a witness tree passes the certificate's
      check for a derivation that supports itself. */
  lemma {:induction false} WitnessNeverRepeats(p: Program, cut: Mask, order: seq<Fact>, at: nat, above: set<nat>)
    requires DerivationOrder(p, cut, order) && at < |order|
    requires forall i :: i in above ==> i < |p.instances| && p.instances[i].head !in order[..at + 1]
    ensures NeverRepeats(Witness(p, cut, order, at), above)
    decreases at
  {
    var earlier := Elements(order[..at]);
    match FirstSupport(p, cut, order[at], earlier, 0)
    case None =>
    case Some(i) =>
      assert order[..at + 1][at] == order[at];
      var body := p.instances[i].body;
      forall k | 0 <= k < |body|
        ensures body[k] in order[..at] && NeverRepeats(Witness(p, cut, order, Position(order, body[k])), above + {i})
      {
        assert body[k] in Elements(body);
        var q := Position(order, body[k]);
        assert order[..q + 1] == order[..at + 1][..q + 1];
        WitnessNeverRepeats(p, cut, order, q, above + {i});
      }
  }

  /** The order lists exactly the derivable facts. */
  lemma OrderIsClosure(p: Program, cut: Mask, order: seq<Fact>)
    requires DerivationOrder(p, cut, order) && Closed(p, cut, Elements(order))
    ensures forall f :: f in order <==> Derivable(p, cut, f)
  {
    forall f | f in order ensures Derivable(p, cut, f) {
      WitnessIsDerivation(p, cut, order, Position(order, f));
    }
    forall f | Derivable(p, cut, f) ensures f in order {
      var t :| Derives(p, cut, f, t);
      DerivationsStayInClosedSets(p, cut, t, Elements(order));
    }
  }

  // ---------------------------------------------------------------------------
  // The memoised builder
  // ---------------------------------------------------------------------------

  ghost predicate MemoSound(p: Program, cut: Mask, order: seq<Fact>, memo: map<Fact, Tree>) {
    forall f :: f in memo ==> f in order && memo[f] == Witness(p, cut, order, Position(order, f))
  }

  /** `build` of `witness_tree`: recursion with a memo table, equal to the unshared tree. */
  method BuildNode(p: Program, cut: Mask, order: seq<Fact>, f: Fact, memo: map<Fact, Tree>)
    returns (t: Tree, memo': map<Fact, Tree>)
    requires f in order && MemoSound(p, cut, order, memo)
    ensures t == Witness(p, cut, order, Position(order, f))
    ensures MemoSound(p, cut, order, memo')
    decreases Position(order, f)
  {
    memo' := memo;
    if f in memo {
      return memo[f], memo;
    }
    var here := Position(order, f);
    match FirstSupport(p, cut, f, Elements(order[..here]), 0) {
      case None => t := Leaf(f);
      case Some(i) =>
        var body := p.instances[i].body;
        var children: seq<Tree> := [];
        assert forall k :: 0 <= k < |body| ==> body[k] in Elements(body);
        while |children| < |body|
          invariant |children| <= |body|
          invariant forall k :: 0 <= k < |body| ==> body[k] in order[..here]
          invariant forall k :: 0 <= k < |children| ==> children[k] == Witness(p, cut, order, Position(order, body[k]))
          invariant MemoSound(p, cut, order, memo')
        {
          assert body[|children|] in Elements(body);
          var child;
          child, memo' := BuildNode(p, cut, order, body[|children|], memo');
          children := children + [child];
        }
        t := Node(f, i, children);
    }
    memo' := memo'[f := t];
  }

  /** The first goal, in the library's ascending order, that was derived. */
  function FirstReached(goals: seq<Fact>, order: seq<Fact>): (r: Option<Fact>)
    ensures r.None? <==> forall g :: g in goals ==> g !in order
    ensures r.Some? ==> r.value in order
    ensures r.Some? ==> exists k :: 0 <= k < |goals| && goals[k] == r.value
                          && forall j :: 0 <= j < k ==> goals[j] !in order
  {
    if goals == [] then None
    else if goals[0] in order then Some(goals[0])
    else FirstReached(goals[1..], order)
  }

  /** The tree of the first derived goal: the lowest support derived strictly earlier, all the way down. */
  ghost predicate IsWitness(p: Program, cut: Mask, order: seq<Fact>, t: Tree) {
    FirstReached(p.goals, order) == Some(t.head) && t == Witness(p, cut, order, Position(order, t.head))
  }

  /** The tree is the witness of the goal that survives the cut. */
  ghost predicate Leaves(p: Program, cut: Mask, t: Tree) {
    exists order :: IsOrder(p, cut, order) && IsWitness(p, cut, order, t)
  }

  /** A cut leaves one witness. */
  lemma {:induction false} LeavesOne(p: Program, cut: Mask, a: Tree, b: Tree)
    requires Leaves(p, cut, a) && Leaves(p, cut, b)
    ensures a == b
  {
    var x :| IsOrder(p, cut, x) && IsWitness(p, cut, x, a);
    var y :| IsOrder(p, cut, y) && IsWitness(p, cut, y, b);
    OrderIsDetermined(p, cut, x, y);
  }

  /** `None` stands for the error raised on a fact outside the closure. */
  method WitnessTree(p: Program, cut: Mask, r: ReachResult) returns (t: Option<Tree>)
    requires DerivationOrder(p, cut, r.order)
    ensures t.None? <==> forall g :: g in p.goals ==> g !in r.order
    ensures t.Some? ==> IsWitness(p, cut, r.order, t.value) && t.value.head in p.goals
    ensures t.Some? ==> ValidTree(p, cut, t.value) && NeverRepeats(t.value, {})
  {
    match FirstReached(p.goals, r.order) {
      case None => t := None;
      case Some(g) =>
        var root, _ := BuildNode(p, cut, r.order, g, map[]);
        WitnessIsDerivation(p, cut, r.order, Position(r.order, g));
        WitnessNeverRepeats(p, cut, r.order, Position(r.order, g), {});
        t := Some(root);
    }
  }

  // ---------------------------------------------------------------------------
  // The corridor of a witness
  // ---------------------------------------------------------------------------

  ghost function Instances(t: Tree): set<nat>
    decreases t, 0
  {
    match t
    case Leaf(_) => {}
    case Node(_, i, cs) => {i} + InstancesAll(cs)
  }

  ghost function InstancesAll(ts: seq<Tree>): set<nat>
    decreases ts, 1
  {
    if ts == [] then {} else InstancesAll(ts[..|ts| - 1]) + Instances(ts[|ts| - 1])
  }

  lemma {:induction false} InstancesAllAppend(ts: seq<Tree>, us: seq<Tree>)
    ensures InstancesAll(ts + us) == InstancesAll(ts) + InstancesAll(us)
    decreases |us|
  {
    if us == [] {
      assert ts + us == ts;
    } else {
      assert (ts + us)[..|ts + us| - 1] == ts + us[..|us| - 1];
      InstancesAllAppend(ts, us[..|us| - 1]);
    }
  }

  lemma {:induction false} ChildInstances(ts: seq<Tree>, k: nat)
    requires k < |ts|
    ensures Instances(ts[k]) <= InstancesAll(ts)
    decreases |ts|
  {
    if k < |ts| - 1 {
      ChildInstances(ts[..|ts| - 1], k);
    }
  }

  ghost function Weight(t: Tree): nat
    decreases t, 0
  {
    match t
    case Leaf(_) => 1
    case Node(_, _, cs) => 1 + WeightAll(cs)
  }

  ghost function WeightAll(ts: seq<Tree>): nat
    decreases ts, 1
  {
    if ts == [] then 0 else WeightAll(ts[..|ts| - 1]) + Weight(ts[|ts| - 1])
  }

  lemma {:induction false} WeightAllAppend(ts: seq<Tree>, us: seq<Tree>)
    ensures WeightAll(ts + us) == WeightAll(ts) + WeightAll(us)
    decreases |us|
  {
    if us == [] {
      assert ts + us == ts;
    } else {
      assert (ts + us)[..|ts + us| - 1] == ts + us[..|us| - 1];
      WeightAllAppend(ts, us[..|us| - 1]);
    }
  }

  /** The instances of a tree, collected off an explicit stack. */
  method CollectInstances(t: Tree) returns (found: set<nat>)
    ensures found == Instances(t)
  {
    found := {};
    var stack := [t];
    assert stack[..0] == [];
    while |stack| > 0
      invariant found + InstancesAll(stack) == Instances(t)
      decreases WeightAll(stack)
    {
      var node := stack[|stack| - 1];
      ghost var weight := WeightAll(stack);
      stack := stack[..|stack| - 1];
      assert weight == WeightAll(stack) + Weight(node);
      if node.Node? {
        found := found + {node.inst};
        InstancesAllAppend(stack, node.children);
        WeightAllAppend(stack, node.children);
        stack := stack + node.children;
      }
    }
  }

  /** The literals of one instance's blocker terms. */
  ghost function BlockerBits(inst: Instance): Mask {
    set k, b | 0 <= k < |inst.blockers| && b in inst.blockers[k] :: b
  }

  ghost function Corridor(p: Program, used: set<nat>): Mask {
    set i, b | i in used && 0 <= i < |p.instances| && b in BlockerBits(p.instances[i]) :: b
  }

  method UnionTerms(inst: Instance) returns (mask: Mask)
    ensures mask == BlockerBits(inst)
  {
    mask := {};
    for k := 0 to |inst.blockers|
      invariant mask == set j, b | 0 <= j < k && b in inst.blockers[j] :: b
    {
      mask := mask + inst.blockers[k];
    }
  }

  /** The union of every blocker term of every instance in the tree. */
  method WitnessMask(p: Program, t: Tree) returns (mask: Mask)
    ensures mask == Corridor(p, Instances(t))
  {
    var used := CollectInstances(t);
    mask := {};
    for i := 0 to |p.instances|
      invariant mask == Corridor(p, set j | j in used && j < i)
    {
      if i in used {
        var terms := UnionTerms(p.instances[i]);
        mask := mask + terms;
      }
    }
    assert Corridor(p, set j | j in used && j < |p.instances|) == Corridor(p, used);
  }

  // ---------------------------------------------------------------------------
  // What a corridor means
  // ---------------------------------------------------------------------------

  /** Under single-literal terms a cut blocks an instance iff it meets its blocker bits. */
  lemma BlockedIsMeeting(p: Program, i: nat, cut: Mask)
    requires WellFormed(p) && i < |p.instances|
    ensures Blocked(p.instances[i], cut) <==> BlockerBits(p.instances[i]) * cut != {}
  {
    var inst := p.instances[i];
    if Blocked(inst, cut) {
      var k :| 0 <= k < |inst.blockers| && inst.blockers[k] <= cut;
      var b :| b in inst.blockers[k];
      assert b in BlockerBits(inst) * cut;
    }
    if BlockerBits(inst) * cut != {} {
      var b :| b in BlockerBits(inst) * cut;
      var k :| 0 <= k < |inst.blockers| && b in inst.blockers[k];
      assert |inst.blockers[k] - {b}| == 0;
      assert inst.blockers[k] == {b};
    }
  }

  lemma {:induction false} CorridorAvoidsCut(p: Program, cut: Mask, t: Tree)
    requires WellFormed(p) && ValidTree(p, cut, t)
    ensures Corridor(p, Instances(t)) * cut == {}
    decreases t, 0
  {
    match t
    case Leaf(_) =>
    case Node(_, i, cs) =>
      CorridorsAvoidCut(p, cut, cs);
      BlockedIsMeeting(p, i, cut);
      assert Corridor(p, Instances(t)) == BlockerBits(p.instances[i]) + Corridor(p, InstancesAll(cs));
  }

  lemma {:induction false} CorridorsAvoidCut(p: Program, cut: Mask, ts: seq<Tree>)
    requires WellFormed(p) && forall k :: 0 <= k < |ts| ==> ValidTree(p, cut, ts[k])
    ensures Corridor(p, InstancesAll(ts)) * cut == {}
    decreases ts, 1
  {
    if ts != [] {
      var last := ts[|ts| - 1];
      CorridorsAvoidCut(p, cut, ts[..|ts| - 1]);
      CorridorAvoidsCut(p, cut, last);
      assert Corridor(p, InstancesAll(ts)) == Corridor(p, InstancesAll(ts[..|ts| - 1])) + Corridor(p, Instances(last));
    }
  }

  /** A derivation survives every cut that misses its corridor. */
  lemma {:induction false} DerivationSurvives(p: Program, cut: Mask, other: Mask, t: Tree)
    requires WellFormed(p) && ValidTree(p, cut, t)
    requires Corridor(p, Instances(t)) * other == {}
    ensures ValidTree(p, other, t)
    decreases t
  {
    match t
    case Leaf(_) =>
    case Node(_, i, cs) =>
      BlockedIsMeeting(p, i, other);
      assert forall b :: b in BlockerBits(p.instances[i]) ==> b in Corridor(p, Instances(t));
      forall k | 0 <= k < |cs| ensures ValidTree(p, other, cs[k]) {
        ChildInstances(cs, k);
        assert Corridor(p, Instances(cs[k])) <= Corridor(p, Instances(t));
        DerivationSurvives(p, cut, other, cs[k]);
      }
  }

  /** The corridor of a goal's derivation: disjoint from the cut it was found under, met by
      every cut that severs the goal, and empty only when no cut severs it. */
  lemma {:induction false} CorridorTheorem(p: Program, cut: Mask, t: Tree)
    requires WellFormed(p) && ValidTree(p, cut, t) && t.head in p.goals
    ensures Corridor(p, Instances(t)) * cut == {}
    ensures forall other :: Severs(p, other) ==> Corridor(p, Instances(t)) * other != {}
  {
    CorridorAvoidsCut(p, cut, t);
    forall other | Severs(p, other) ensures Corridor(p, Instances(t)) * other != {} {
      if Corridor(p, Instances(t)) * other == {} {
        DerivationSurvives(p, cut, other, t);
        assert Derives(p, other, t.head, t);
      }
    }
  }

  /** Raising more literals derives less: severing is preserved by larger cuts. */
  lemma {:induction false} DerivationAntitone(p: Program, small: Mask, large: Mask, t: Tree)
    requires small <= large && ValidTree(p, large, t)
    ensures ValidTree(p, small, t)
    decreases t
  {
    match t
    case Leaf(_) =>
    case Node(_, i, cs) =>
      forall k | 0 <= k < |cs| ensures ValidTree(p, small, cs[k]) {
        DerivationAntitone(p, small, large, cs[k]);
      }
  }

  lemma SeversUpward(p: Program, small: Mask, large: Mask)
    requires small <= large && Severs(p, small)
    ensures Severs(p, large)
  {
    forall g | g in p.goals ensures !Derivable(p, large, g) {
      if Derivable(p, large, g) {
        var t :| Derives(p, large, g, t);
        DerivationAntitone(p, small, large, t);
        assert Derives(p, small, g, t);
      }
    }
  }
}
