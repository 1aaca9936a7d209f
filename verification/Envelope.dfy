/** The silent envelope (envelope.py): licensed silent instances and obligation-forced ghosts
    added to a saturated engine, and what that leaves true of the observed program inside it.
 */
module Envelope {
  import opened Arithmetic
  import opened Wrappers
  import opened Reachability
  import opened Licences
  import opened Grounding
  import opened Saturation
  import Liveness

  /** Nanoseconds per tick. */
  const TICK_NS := 1_000_000_000

  /** A detect rule that may be instantiated silently, with its producing sources. */
  datatype SilentRule = SilentRule(rule: Rule, sources: seq<nat>)

  type Binding = map<nat, nat>

  // ---------------------------------------------------------------------------
  // Windows and ticks
  // ---------------------------------------------------------------------------

  function TickOf(t: nat): nat { t / TICK_NS }

  /** The closed tick range of the unobserved step: the half-open window's first and last tick. */
  function SpanOf(w: Interval): Span
    requires w.t0 < w.t1
  {
    (TickOf(w.t0), Max(TickOf(w.t0), TickOf(w.t1 - 1)))
  }

  /** Every instant of the window falls on a tick of the span. */
  lemma WindowTicksInSpan(w: Interval, t: nat)
    requires w.Contains(t)
    ensures SpanOf(w).0 <= TickOf(t) <= SpanOf(w).1
  {
    DivMonotone(w.t0, t);
    DivMonotone(t, w.t1 - 1);
  }

  /** The ticks of the span are the ticks of the window's instants, and no others. */
  lemma SpanIsTicks(w: Interval, tick: int)
    requires w.t0 < w.t1
    ensures SpanOf(w).0 <= tick <= SpanOf(w).1 <==> exists t: nat :: w.Contains(t) && TickOf(t) == tick
  {
    DivMonotone(w.t0, w.t1 - 1);
    if SpanOf(w).0 <= tick <= SpanOf(w).1 {
      var t := if tick == TickOf(w.t0) then w.t0 else tick * TICK_NS;
      assert w.Contains(t) && TickOf(t) == tick;
    }
    if t: nat :| w.Contains(t) && TickOf(t) == tick {
      WindowTicksInSpan(w, t);
    }
  }

  lemma DivMonotone(a: int, b: int)
    requires a <= b
    ensures a / TICK_NS <= b / TICK_NS
  {
  }

  // ---------------------------------------------------------------------------
  // What a licensed instance is
  // ---------------------------------------------------------------------------

  /** The minted licences are permissions for time their source was non-LIVE. */
  ghost predicate Genuine(v: Liveness.View, minted: set<Licence>) {
    forall lc, t :: lc in minted && lc.span.Contains(t) ==> Liveness.NonLiveAt(Liveness.TimelineOf(v, lc.source), t)
  }

  /** The licence is one of those of a window on the sources. */
  ghost predicate LicenceOver(v: Liveness.View, sources: seq<nat>, w: Interval, lc: Licence) {
    exists licences :: lc in licences && Liveness.Licenses(v, sources, w, licences)
  }

  /** It is one of those of a maximal joint blind window of the rule. */
  ghost predicate RuleMints(v: Liveness.View, s: SilentRule, lc: Licence) {
    exists w :: Liveness.BlindWindow(v, s.sources, w) && LicenceOver(v, s.sources, w, lc)
  }

  ghost predicate RuleMinted(v: Liveness.View, s: SilentRule, a: set<Licence>, b: set<Licence>) {
    forall lc :: lc in b && lc !in a ==> RuleMints(v, s, lc)
  }

  function BoundArgs(vars: seq<nat>, b: Binding): (r: Option<seq<nat>>)
    ensures r.Some? ==> |r.value| == |vars|
  {
    if vars == [] then Some([])
    else if vars[0] !in b then None
    else
      match BoundArgs(vars[1..], b)
      case None => None
      case Some(rest) => Some([b[vars[0]]] + rest)
  }

  /** The fact a pattern names under a binding, at a tick. */
  function BoundAtom(p: Pattern, b: Binding, tick: nat): (r: Option<Atom>)
    ensures r.Some? ==> r.value.pred == p.pred && r.value.tick == tick
  {
    match BoundArgs(p.entityVars, b)
    case None => None
    case Some(args) => Some(Atom(p.pred, args, tick))
  }

  /** The body facts of a silent instance, or `None` when some argument is not drawable. */
  function BoundBody(patterns: seq<Pattern>, b: Binding, tick: nat): (r: Option<seq<Atom>>)
    ensures r.Some? ==> |r.value| == |patterns|
    ensures r.Some? ==> forall k :: 0 <= k < |r.value| ==> r.value[k].tick == tick
  {
    if patterns == [] then Some([])
    else
      match BoundAtom(patterns[0], b, tick)
      case None => None
      case Some(f) =>
        match BoundBody(patterns[1..], b, tick)
        case None => None
        case Some(rest) => Some([f] + rest)
  }

  /** The body facts that are not in the base. */
  function AbsentFrom(body: seq<Atom>, facts: set<Atom>): (r: seq<Atom>)
    ensures forall f :: f in r <==> f in body && f !in facts
  {
    if body == [] then []
    else
      var last := |body| - 1;
      assert body == body[..last] + [body[last]];
      var front := AbsentFrom(body[..last], facts);
      if body[last] in facts then front else front + [body[last]]
  }

  /** A ghost premise: a body fact nobody observed, with no body and no blockers. */
  function PremiseFor(s: SilentRule, f: Atom, licences: set<Licence>): GroundInstance {
    GroundInstance(s.rule.id, f, [], [], false, {}, licences, true)
  }

  /** The silent instance of a binding at the window's first tick, or `None` when some argument
      is not drawable. */
  function DetectFor(s: SilentRule, w: Interval, licences: set<Licence>, b: Binding): (r: Option<GroundInstance>)
    ensures r.Some? ==>
              |r.value.body| == |s.rule.body| && r.value.head.pred == s.rule.head.pred
              && r.value.head.tick == TickOf(w.t0)
    ensures r.Some? ==> forall k :: 0 <= k < |r.value.body| ==> r.value.body[k].tick == TickOf(w.t0)
  {
    match (BoundBody(s.rule.body, b, TickOf(w.t0)), BoundAtom(s.rule.head, b, TickOf(w.t0)))
    case (Some(body), Some(head)) =>
        Some(GroundInstance(s.rule.id, head, body, s.rule.blockers, false, {}, licences, false))
    case _ => None
  }

  /** The silent instance of a binding over the window, or the premise of one of its body facts. */
  predicate PartOf(s: SilentRule, w: Interval, b: Binding, i: GroundInstance) {
    var d := DetectFor(s, w, i.licences, b);
    d.Some? && (i == d.value || (i.head in d.value.body && i == PremiseFor(s, i.head, i.licences)))
  }

  /** Part of a silent instance over a window that its licences cover on every source. */
  ghost predicate SilentOver(v: Liveness.View, s: SilentRule, bindings: seq<Binding>, w: Interval, i: GroundInstance) {
    && Liveness.Licenses(v, s.sources, w, i.licences)
    && exists k :: 0 <= k < |bindings| && PartOf(s, w, bindings[k], i)
  }

  /** The same over a maximal joint blind window of the rule's sources. */
  ghost predicate SilentBy(v: Liveness.View, s: SilentRule, bindings: seq<Binding>, i: GroundInstance) {
    exists w :: Liveness.BlindWindow(v, s.sources, w) && SilentOver(v, s, bindings, w, i)
  }

  /** The binding's silent instance, its head and its body facts are in the tables. */
  ghost predicate Drawn(s: SilentRule, w: Interval, licences: set<Licence>, b: Binding, t: Tables) {
    var d := DetectFor(s, w, licences, b);
    d.Some? ==> d.value in t.instances && d.value.head in t.facts && forall f :: f in d.value.body ==> f in t.facts
  }

  ghost predicate AllDrawn(s: SilentRule, w: Interval, licences: set<Licence>, bindings: seq<Binding>, n: nat,
                           t: Tables)
    requires n <= |bindings|
  {
    forall k :: 0 <= k < n ==> Drawn(s, w, licences, bindings[k], t)
  }

  /** Every drawable binding is drawn over the window, under minted licences that cover it. */
  ghost predicate WindowDrawn(v: Liveness.View, s: SilentRule, bindings: seq<Binding>, w: Interval,
                              minted: set<Licence>, t: Tables)
  {
    exists licences :: licences <= minted && Liveness.Licenses(v, s.sources, w, licences)
      && AllDrawn(s, w, licences, bindings, |bindings|, t)
  }

  /** The fact is the head of the binding's silent instance over the window. */
  ghost predicate HeadOf(s: SilentRule, w: Interval, b: Binding, f: Atom) {
    var d := DetectFor(s, w, {}, b);
    d.Some? && f == d.value.head
  }

  /** The fact is in its body. */
  ghost predicate InBody(s: SilentRule, w: Interval, b: Binding, f: Atom) {
    var d := DetectFor(s, w, {}, b);
    d.Some? && f in d.value.body
  }

  /** One of the first `n` bindings draws the fact over the window. */
  ghost predicate Draws(s: SilentRule, w: Interval, bindings: seq<Binding>, n: nat, f: Atom)
    requires n <= |bindings|
  {
    exists k :: 0 <= k < n && (HeadOf(s, w, bindings[k], f) || InBody(s, w, bindings[k], f))
  }

  /** The window's span is given for the fact: always for a head, and for a body fact that is not
      known already. */
  ghost predicate GivesSpan(s: SilentRule, w: Interval, bindings: seq<Binding>, n: nat, f: Atom, known: bool)
    requires n <= |bindings|
  {
    exists k :: 0 <= k < n && (HeadOf(s, w, bindings[k], f) || (InBody(s, w, bindings[k], f) && !known))
  }

  /** The facts of the base, and the log of the spans given. */
  datatype Told = Told(facts: set<Atom>, log: set<(Atom, Span)>)

  ghost function ToldOf(e: Engine): Told
    reads e`facts, e`log
  {
    Told(e.facts, e.log)
  }

  /** The first `n` bindings were drawn over the window: the base has gained just the facts drawn, and
      the log the window's span for each it is given for. */
  ghost predicate WindowTold(s: SilentRule, w: Interval, bindings: seq<Binding>, n: nat, a: Told, b: Told)
    requires n <= |bindings| && w.t0 < w.t1
  {
    && (forall f :: f in b.facts <==> f in a.facts || Draws(s, w, bindings, n, f))
    && forall f, given: Span :: (f, given) in b.log <==>
         (f, given) in a.log || (given == SpanOf(w) && GivesSpan(s, w, bindings, n, f, f in a.facts))
  }

  /** Every span logged is the window's, for a fact it draws. */
  ghost predicate WindowSpans(s: SilentRule, w: Interval, bindings: seq<Binding>, a: set<(Atom, Span)>,
                              b: set<(Atom, Span)>)
    requires w.t0 < w.t1
  {
    forall f, given: Span :: (f, given) in b && (f, given) !in a ==>
      given == SpanOf(w) && Draws(s, w, bindings, |bindings|, f)
  }

  ghost predicate Drew(s: SilentRule, w: Interval, bindings: seq<Binding>, n: nat, a: Told, b: Told, uncapped: bool)
    requires n <= |bindings| && w.t0 < w.t1
  {
    (uncapped ==> WindowTold(s, w, bindings, n, a, b)) && WindowSpans(s, w, bindings, a.log, b.log)
  }

  /** Some maximal joint blind window of the rule draws the fact. */
  ghost predicate RuleDraws(v: Liveness.View, s: SilentRule, bindings: seq<Binding>, f: Atom) {
    exists w :: Liveness.BlindWindow(v, s.sources, w) && Draws(s, w, bindings, |bindings|, f)
  }

  /** An earlier window of the rule draws it. */
  ghost predicate DrawnEarlier(v: Liveness.View, s: SilentRule, bindings: seq<Binding>, w: Interval, f: Atom) {
    exists u :: Liveness.BlindWindow(v, s.sources, u) && u.t0 < w.t0 && Draws(s, u, bindings, |bindings|, f)
  }

  /** A maximal joint blind window of the rule gives the fact this span. */
  ghost predicate RuleGives(v: Liveness.View, s: SilentRule, bindings: seq<Binding>, f: Atom, given: Span, known: bool)
  {
    exists w :: GivenBy(v, s, bindings, w, f, given, known)
  }

  ghost predicate GivenBy(v: Liveness.View, s: SilentRule, bindings: seq<Binding>, w: Interval, f: Atom, given: Span,
                          known: bool)
  {
    && Liveness.BlindWindow(v, s.sources, w) && given == SpanOf(w)
    && GivesSpan(s, w, bindings, |bindings|, f, known || DrawnEarlier(v, s, bindings, w, f))
  }

  /** The rule was drawn over every maximal joint blind window of its sources: the base has gained just
      the facts drawn, and the log just the spans given. */
  ghost predicate RuleTold(v: Liveness.View, s: SilentRule, bindings: seq<Binding>, a: Told, b: Told) {
    && (forall f :: f in b.facts <==> f in a.facts || RuleDraws(v, s, bindings, f))
    && forall f, given: Span :: (f, given) in b.log <==>
         (f, given) in a.log || RuleGives(v, s, bindings, f, given, f in a.facts)
  }

  /** The span is that of a maximal joint blind window of the rule that draws the fact. */
  ghost predicate RuleSpan(v: Liveness.View, s: SilentRule, bindings: seq<Binding>, f: Atom, given: Span) {
    exists w :: Liveness.BlindWindow(v, s.sources, w) && given == SpanOf(w) && Draws(s, w, bindings, |bindings|, f)
  }

  ghost predicate RuleSpans(v: Liveness.View, s: SilentRule, bindings: seq<Binding>, a: set<(Atom, Span)>,
                            b: set<(Atom, Span)>)
  {
    forall f, given: Span :: (f, given) in b && (f, given) !in a ==> RuleSpan(v, s, bindings, f, given)
  }

  ghost predicate RuleDrew(v: Liveness.View, s: SilentRule, bindings: seq<Binding>, a: Told, b: Told, whole: bool) {
    (whole ==> RuleTold(v, s, bindings, a, b)) && RuleSpans(v, s, bindings, a.log, b.log)
  }

  /** The instant lies in a maximal joint blind window over which every drawable binding is drawn. */
  ghost predicate Represented(v: Liveness.View, s: SilentRule, bindings: seq<Binding>, minted: set<Licence>,
                              t: Tables, instant: int)
  {
    exists w :: Liveness.BlindWindow(v, s.sources, w) && w.Contains(instant)
      && WindowDrawn(v, s, bindings, w, minted, t)
  }

  /** Every instant at which all the rule's sources are blind is represented. */
  ghost predicate RuleRepresented(v: Liveness.View, s: SilentRule, bindings: seq<Binding>, minted: set<Licence>,
                                  t: Tables)
  {
    s.sources != [] ==> forall instant :: Liveness.AllBlindAt(v, s.sources, instant) ==>
      Represented(v, s, bindings, minted, t, instant)
  }

  /** The schema errors the stage can raise: a suppressed run without its witness has no licence,
      and a licensed instance without a licence is no instance. */
  datatype Fault = WitnessMissing | LicenceMissing

  /** Some maximal joint blind window of the rule has a run no licence can be made of. */
  ghost predicate SilentFaulty(v: Liveness.View, s: SilentRule) {
    exists w :: Liveness.BlindWindow(v, s.sources, w) && Liveness.WitnessMissing(v, s.sources, w)
  }

  // ---------------------------------------------------------------------------
  // The engine's tables while licensed instances are added
  // ---------------------------------------------------------------------------

  datatype Tables = Tables(facts: set<Atom>, instances: set<GroundInstance>, delta: seq<Atom>, cap: Cap)

  ghost function TablesOf(e: Engine): Tables
    reads e`facts, e`instances, e`delta, e`detail
  {
    Tables(e.facts, e.instances, e.delta, e.detail)
  }

  /** Nothing is retracted, a recorded cap stays, the delta lists what is new, and uncapped a new
      instance stands on facts of the base. */
  ghost predicate Extended(a: Tables, b: Tables) {
    && a.facts <= b.facts && a.instances <= b.instances
    && Lists(a.facts, a.delta, b.facts, b.delta)
    && (a.cap != NoCap ==> b.cap == a.cap)
    && (b.cap == NoCap ==> forall i, f :: i in b.instances && i !in a.instances && f in i.body ==> f in b.facts)
  }

  /** The counter counts the instances added, and the cap on silent instances is recorded only
      once the counter has reached it. */
  ghost predicate Charged(a: Tables, counter: nat, b: Tables, counter': nat, maxSilent: nat) {
    && |b.instances| - |a.instances| == counter' - counter && counter <= counter'
    && (b.cap == SilentCap ==> a.cap == SilentCap || counter' >= maxSilent)
  }

  ghost predicate Advances(a: Tables, counter: nat, b: Tables, counter': nat, maxSilent: nat) {
    Extended(a, b) && Charged(a, counter, b, counter', maxSilent)
  }

  lemma AdvancesComposes(a: Tables, n: nat, b: Tables, n': nat, c: Tables, n'': nat, maxSilent: nat)
    requires Advances(a, n, b, n', maxSilent) && Advances(b, n', c, n'', maxSilent)
    ensures Advances(a, n, c, n'', maxSilent)
  {
  }

  predicate Within(a: Tables, b: Tables) {
    a.facts <= b.facts && a.instances <= b.instances
  }

  lemma DrawnStays(s: SilentRule, w: Interval, licences: set<Licence>, bindings: seq<Binding>, n: nat, a: Tables,
                   b: Tables)
    requires n <= |bindings| && AllDrawn(s, w, licences, bindings, n, a) && Within(a, b)
    ensures AllDrawn(s, w, licences, bindings, n, b)
  {
    forall k | 0 <= k < n ensures Drawn(s, w, licences, bindings[k], b) {
      assert Drawn(s, w, licences, bindings[k], a);
    }
  }

  lemma DrawnOneMore(s: SilentRule, w: Interval, licences: set<Licence>, bindings: seq<Binding>, n: nat, a: Tables,
                     b: Tables)
    requires n < |bindings| && AllDrawn(s, w, licences, bindings, n, a) && Within(a, b)
    requires Drawn(s, w, licences, bindings[n], b)
    ensures AllDrawn(s, w, licences, bindings, n + 1, b)
  {
    DrawnStays(s, w, licences, bindings, n, a, b);
  }

  lemma WindowDrawnStays(v: Liveness.View, s: SilentRule, bindings: seq<Binding>, w: Interval, minted: set<Licence>,
                         a: Tables, minted': set<Licence>, b: Tables)
    requires WindowDrawn(v, s, bindings, w, minted, a) && minted <= minted' && Within(a, b)
    ensures WindowDrawn(v, s, bindings, w, minted', b)
  {
    var licences :| licences <= minted && Liveness.Licenses(v, s.sources, w, licences)
        && AllDrawn(s, w, licences, bindings, |bindings|, a);
    DrawnStays(s, w, licences, bindings, |bindings|, a, b);
  }

  ghost predicate WindowsDrawn(v: Liveness.View, s: SilentRule, bindings: seq<Binding>, windows: seq<Interval>,
                               n: nat, minted: set<Licence>, t: Tables)
    requires n <= |windows|
  {
    forall j :: 0 <= j < n ==> WindowDrawn(v, s, bindings, windows[j], minted, t)
  }

  lemma WindowsDrawnStay(v: Liveness.View, s: SilentRule, bindings: seq<Binding>, windows: seq<Interval>, n: nat,
                         minted: set<Licence>, a: Tables, minted': set<Licence>, b: Tables)
    requires n < |windows| && WindowsDrawn(v, s, bindings, windows, n, minted, a) && minted <= minted' && Within(a, b)
    requires WindowDrawn(v, s, bindings, windows[n], minted', b)
    ensures WindowsDrawn(v, s, bindings, windows, n + 1, minted', b)
  {
    forall j | 0 <= j < n ensures WindowDrawn(v, s, bindings, windows[j], minted', b) {
      WindowDrawnStays(v, s, bindings, windows[j], minted, a, minted', b);
    }
  }

  /** One forced instance of the envelope joins the tables; its head joins the base. */
  method Admit(e: Engine, i: GroundInstance, counter: nat, ghost maxSilent: nat) returns (counter': nat)
    requires e.Valid() && forall f :: f in i.body ==> f in e.facts || e.capped
    modifies e`facts, e`byPred, e`delta, e`capped, e`detail, e`instances, e`licensed, e`ghosts
    ensures e.Valid() && Advances(old(TablesOf(e)), counter, TablesOf(e), counter', maxSilent)
    ensures e.instances == old(e.instances) || e.instances == old(e.instances) + {i}
    ensures !e.capped ==> i in e.instances && i.head in e.facts
  {
    var added := e.Support(i);
    JoinedIsListed(i.head, old(e.facts), old(e.delta), e.facts, e.delta);
    counter' := if added then counter + 1 else counter;
  }

  /** One silent instance joins them, and the window's span is given for its head. */
  method AdmitOver(e: Engine, i: GroundInstance, span: Span, counter: nat, ghost maxSilent: nat)
    returns (counter': nat)
    requires e.Valid() && (forall f :: f in i.body ==> f in e.facts || e.capped) && !i.observed
    modifies e`facts, e`byPred, e`delta, e`capped, e`detail, e`instances, e`licensed, e`ghosts, e`spans, e`log
    ensures e.Valid() && Advances(old(TablesOf(e)), counter, TablesOf(e), counter', maxSilent)
    ensures e.instances == old(e.instances) || e.instances == old(e.instances) + {i}
    ensures !e.capped ==> i in e.instances && e.facts == old(e.facts) + {i.head}
    ensures e.log == old(e.log) + {(i.head, span)}
  {
    var added := e.AddInstance(i, Some(span));
    JoinedIsListed(i.head, old(e.facts), old(e.delta), e.facts, e.delta);
    if !e.capped {
      JoinedFacts(i.head, old(e.facts), old(e.delta), e.facts, e.delta);
    }
    counter' := if added then counter + 1 else counter;
  }

  /** The first `n` facts, each with the span. */
  function Tagged(fs: seq<Atom>, n: nat, span: Span): set<(Atom, Span)>
    requires n <= |fs|
  {
    set k: nat | k < n :: (fs[k], span)
  }

  /** The first `n` premises: each fact in the base, unless capped, and its span in the log. */
  ghost predicate PremisesTold(absent: seq<Atom>, n: nat, span: Span, a: Told, b: Told, uncapped: bool)
    requires n <= |absent|
  {
    (uncapped ==> b.facts == a.facts + Elements(absent[..n])) && b.log == a.log + Tagged(absent, n, span)
  }

  lemma PremisesOneMore(absent: seq<Atom>, n: nat, span: Span, a: Told, b: Told, c: Told, before: bool, after: bool)
    requires n < |absent| && PremisesTold(absent, n, span, a, b, before) && (after ==> before)
    requires (after ==> c.facts == b.facts + {absent[n]}) && c.log == b.log + {(absent[n], span)}
    ensures PremisesTold(absent, n + 1, span, a, c, after)
  {
    ElementsTake(absent, n);
    assert Tagged(absent, n + 1, span) == Tagged(absent, n, span) + {(absent[n], span)};
  }

  /** What one binding's premises and instance tell. */
  lemma OneTold(s: SilentRule, w: Interval, licences: set<Licence>, b: Binding, absent: seq<Atom>, a: Told, m: Told,
                c: Told, uncapped: bool)
    requires w.t0 < w.t1 && DetectFor(s, w, licences, b).Some?
    requires var d := DetectFor(s, w, licences, b).value;
             && (forall f :: f in absent <==> f in d.body && f !in a.facts)
             && PremisesTold(absent, |absent|, SpanOf(w), a, m, uncapped)
             && c.log == m.log + {(d.head, SpanOf(w))} && (uncapped ==> c.facts == m.facts + {d.head})
    ensures Drew(s, w, [b], 1, a, c, uncapped)
  {
    var d := DetectFor(s, w, licences, b).value;
    assert absent[..|absent|] == absent;
    forall f
      ensures Draws(s, w, [b], 1, f) <==> f == d.head || f in d.body
      ensures GivesSpan(s, w, [b], 1, f, f in a.facts) <==> f == d.head || f in absent
    {
      assert HeadOf(s, w, [b][0], f) <==> f == d.head;
      assert InBody(s, w, [b][0], f) <==> f in d.body;
    }
    forall f, given: Span
      ensures (f, given) in c.log <==> (f, given) in a.log || (given == SpanOf(w) && (f == d.head || f in absent))
    {
      if f in absent {
        var k: nat :| k < |absent| && absent[k] == f;
        assert (absent[k], SpanOf(w)) in Tagged(absent, |absent|, SpanOf(w));
      }
    }
  }

  /** Nothing is drawn by a binding that leaves an argument open. */
  lemma NoneTold(s: SilentRule, w: Interval, b: Binding, a: Told)
    requires w.t0 < w.t1 && DetectFor(s, w, {}, b).None?
    ensures Drew(s, w, [b], 1, a, a, true)
  {
    assert forall f :: !HeadOf(s, w, [b][0], f) && !InBody(s, w, [b][0], f);
  }

  /** One more binding over the window. A body fact that an earlier binding drew has the span already. */
  lemma {:induction false} ToldOneMore(s: SilentRule, w: Interval, bindings: seq<Binding>, n: nat, a: Told, b: Told,
                                       c: Told)
    requires n < |bindings| && w.t0 < w.t1
    requires WindowTold(s, w, bindings, n, a, b) && WindowTold(s, w, [bindings[n]], 1, b, c)
    ensures WindowTold(s, w, bindings, n + 1, a, c)
  {
    forall f
      ensures Draws(s, w, bindings, n + 1, f) <==> Draws(s, w, bindings, n, f) || Draws(s, w, [bindings[n]], 1, f)
      ensures GivesSpan(s, w, bindings, n + 1, f, f in a.facts)
         <==> GivesSpan(s, w, bindings, n, f, f in a.facts) || GivesSpan(s, w, [bindings[n]], 1, f, f in b.facts)
    {
      DrawsOneMore(s, w, bindings, n, f);
      GivesOneMore(s, w, bindings, n, f, f in a.facts, f in b.facts);
    }
  }

  lemma DrawsOneMore(s: SilentRule, w: Interval, bindings: seq<Binding>, n: nat, f: Atom)
    requires n < |bindings|
    ensures Draws(s, w, bindings, n + 1, f) <==> Draws(s, w, bindings, n, f) || Draws(s, w, [bindings[n]], 1, f)
  {
    assert [bindings[n]][0] == bindings[n];
  }

  lemma GivesOneMore(s: SilentRule, w: Interval, bindings: seq<Binding>, n: nat, f: Atom, known: bool, now: bool)
    requires n < |bindings| && (now <==> known || Draws(s, w, bindings, n, f))
    ensures GivesSpan(s, w, bindings, n + 1, f, known)
       <==> GivesSpan(s, w, bindings, n, f, known) || GivesSpan(s, w, [bindings[n]], 1, f, now)
  {
    assert [bindings[n]][0] == bindings[n];
    if !known && now {
      assert GivesSpan(s, w, bindings, n, f, known);
    }
  }

  lemma SpansOneMore(s: SilentRule, w: Interval, bindings: seq<Binding>, n: nat, a: set<(Atom, Span)>,
                     b: set<(Atom, Span)>, c: set<(Atom, Span)>)
    requires n < |bindings| && w.t0 < w.t1
    requires WindowSpans(s, w, bindings, a, b) && WindowSpans(s, w, [bindings[n]], b, c)
    ensures WindowSpans(s, w, bindings, a, c)
  {
    forall f | Draws(s, w, [bindings[n]], 1, f) ensures Draws(s, w, bindings, |bindings|, f) {
      assert HeadOf(s, w, bindings[n], f) || InBody(s, w, bindings[n], f);
    }
  }

  lemma DrewOneMore(s: SilentRule, w: Interval, bindings: seq<Binding>, n: nat, a: Told, b: Told, c: Told,
                    before: bool, after: bool)
    requires n < |bindings| && w.t0 < w.t1 && (after ==> before)
    requires Drew(s, w, bindings, n, a, b, before) && Drew(s, w, [bindings[n]], 1, b, c, after)
    ensures Drew(s, w, bindings, n + 1, a, c, after)
  {
    SpansOneMore(s, w, bindings, n, a.log, b.log, c.log);
    if after {
      ToldOneMore(s, w, bindings, n, a, b, c);
    }
  }

  // ---------------------------------------------------------------------------
  // From one window to the windows of a rule
  // ---------------------------------------------------------------------------

  ghost predicate ListDraws(s: SilentRule, bindings: seq<Binding>, windows: seq<Interval>, n: nat, f: Atom)
    requires n <= |windows|
  {
    exists j :: 0 <= j < n && Draws(s, windows[j], bindings, |bindings|, f)
  }

  ghost predicate ListGives(s: SilentRule, bindings: seq<Binding>, windows: seq<Interval>, n: nat, f: Atom,
                            given: Span, known: bool)
    requires n <= |windows| && Liveness.Separated(windows)
  {
    exists j :: 0 <= j < n && GivenAt(s, bindings, windows, j, f, given, known)
  }

  ghost predicate GivenAt(s: SilentRule, bindings: seq<Binding>, windows: seq<Interval>, j: nat, f: Atom, given: Span,
                          known: bool)
    requires j < |windows| && Liveness.Separated(windows)
  {
    && given == SpanOf(windows[j])
    && GivesSpan(s, windows[j], bindings, |bindings|, f, known || ListDraws(s, bindings, windows, j, f))
  }

  /** The first `n` windows of a list were drawn. */
  ghost predicate ListTold(s: SilentRule, bindings: seq<Binding>, windows: seq<Interval>, n: nat, a: Told, b: Told)
    requires n <= |windows| && Liveness.Separated(windows)
  {
    && (forall f :: f in b.facts <==> f in a.facts || ListDraws(s, bindings, windows, n, f))
    && forall f, given: Span :: (f, given) in b.log <==>
         (f, given) in a.log || ListGives(s, bindings, windows, n, f, given, f in a.facts)
  }

  lemma {:induction false} ListOneMore(s: SilentRule, bindings: seq<Binding>, windows: seq<Interval>, n: nat, a: Told,
                                       b: Told, c: Told)
    requires n < |windows| && Liveness.Separated(windows)
    requires ListTold(s, bindings, windows, n, a, b) && WindowTold(s, windows[n], bindings, |bindings|, b, c)
    ensures ListTold(s, bindings, windows, n + 1, a, c)
  {
    forall f
      ensures ListDraws(s, bindings, windows, n + 1, f)
         <==> ListDraws(s, bindings, windows, n, f) || Draws(s, windows[n], bindings, |bindings|, f)
    {
    }
    forall f, given: Span
      ensures ListGives(s, bindings, windows, n + 1, f, given, f in a.facts)
         <==> ListGives(s, bindings, windows, n, f, given, f in a.facts)
              || (given == SpanOf(windows[n]) && GivesSpan(s, windows[n], bindings, |bindings|, f, f in b.facts))
    {
      assert f in b.facts <==> f in a.facts || ListDraws(s, bindings, windows, n, f);
      ListGivesOneMore(s, bindings, windows, n, f, given, f in a.facts);
    }
  }

  lemma ListGivesOneMore(s: SilentRule, bindings: seq<Binding>, windows: seq<Interval>, n: nat, f: Atom, given: Span,
                         known: bool)
    requires n < |windows| && Liveness.Separated(windows)
    ensures ListGives(s, bindings, windows, n + 1, f, given, known)
       <==> ListGives(s, bindings, windows, n, f, given, known) || GivenAt(s, bindings, windows, n, f, given, known)
  {
  }

  /** Two maximal joint blind windows that share an instant are the same. */
  lemma BlindWindowsMeet(v: Liveness.View, sources: seq<nat>, a: Interval, b: Interval, t: int)
    requires Liveness.BlindWindow(v, sources, a) && Liveness.BlindWindow(v, sources, b)
    requires a.Contains(t) && b.Contains(t)
    ensures a == b
  {
    assert a.t0 - 1 < b.t0 ==> a.Contains(b.t0 - 1) || a.t0 == b.t0;
    assert b.t0 - 1 < a.t0 ==> b.Contains(a.t0 - 1) || a.t0 == b.t0;
    assert a.t1 < b.t1 ==> b.Contains(a.t1);
    assert b.t1 < a.t1 ==> a.Contains(b.t1);
  }

  /** The list holds exactly the maximal joint blind windows of the sources. */
  ghost predicate ListsWindows(v: Liveness.View, sources: seq<nat>, windows: seq<Interval>) {
    && Liveness.Separated(windows)
    && (forall j :: 0 <= j < |windows| ==> Liveness.BlindWindow(v, sources, windows[j]))
    && forall w :: Liveness.BlindWindow(v, sources, w) ==> exists j :: 0 <= j < |windows| && windows[j] == w
  }

  lemma {:induction false} JointWindowsAreListed(v: Liveness.View, sources: seq<nat>, windows: seq<Interval>)
    requires Liveness.Separated(windows)
    requires forall t :: Liveness.InWindow(windows, t) <==> sources != [] && Liveness.AllBlindAt(v, sources, t)
    ensures ListsWindows(v, sources, windows)
  {
    forall j | 0 <= j < |windows| ensures Liveness.BlindWindow(v, sources, windows[j]) {
      assert Liveness.InWindow(windows, windows[j].t0);
      Liveness.JointWindowIsMaximal(v, sources, windows, j);
    }
    forall w | Liveness.BlindWindow(v, sources, w) ensures exists j :: 0 <= j < |windows| && windows[j] == w {
      assert sources != [] && w.Contains(w.t0) && Liveness.InWindow(windows, w.t0);
      var j :| 0 <= j < |windows| && windows[j].Contains(w.t0);
      BlindWindowsMeet(v, sources, windows[j], w, w.t0);
    }
  }

  lemma ListedEarlier(v: Liveness.View, s: SilentRule, bindings: seq<Binding>, windows: seq<Interval>, j: nat, f: Atom)
    requires ListsWindows(v, s.sources, windows) && j < |windows|
    ensures ListDraws(s, bindings, windows, j, f) <==> DrawnEarlier(v, s, bindings, windows[j], f)
  {
    if ListDraws(s, bindings, windows, j, f) {
      var i :| 0 <= i < j && Draws(s, windows[i], bindings, |bindings|, f);
      EarlierInList(windows, i, j);
      EarlierDraws(v, s, bindings, windows[i], windows[j], f);
    }
    if DrawnEarlier(v, s, bindings, windows[j], f) {
      var u :| Liveness.BlindWindow(v, s.sources, u) && u.t0 < windows[j].t0 && Draws(s, u, bindings, |bindings|, f);
      var i :| 0 <= i < |windows| && windows[i] == u;
      EarlierInList(windows, i, j);
    }
  }

  lemma EarlierDraws(v: Liveness.View, s: SilentRule, bindings: seq<Binding>, u: Interval, w: Interval, f: Atom)
    requires Liveness.BlindWindow(v, s.sources, u) && u.t0 < w.t0 && Draws(s, u, bindings, |bindings|, f)
    ensures DrawnEarlier(v, s, bindings, w, f)
  {
  }

  lemma EarlierInList(windows: seq<Interval>, i: nat, j: nat)
    requires Liveness.Separated(windows) && i < |windows| && j < |windows|
    ensures i < j <==> windows[i].t0 < windows[j].t0
  {
  }

  lemma {:induction false} ListedIsRule(v: Liveness.View, s: SilentRule, bindings: seq<Binding>,
                                        windows: seq<Interval>, a: Told, b: Told)
    requires ListsWindows(v, s.sources, windows) && ListTold(s, bindings, windows, |windows|, a, b)
    ensures RuleTold(v, s, bindings, a, b)
  {
    forall f ensures ListDraws(s, bindings, windows, |windows|, f) <==> RuleDraws(v, s, bindings, f) {
    }
    forall f, given: Span
      ensures ListGives(s, bindings, windows, |windows|, f, given, f in a.facts)
         <==> RuleGives(v, s, bindings, f, given, f in a.facts)
    {
      ListedGives(v, s, bindings, windows, f, given, f in a.facts);
    }
  }

  lemma ListedGives(v: Liveness.View, s: SilentRule, bindings: seq<Binding>, windows: seq<Interval>, f: Atom,
                    given: Span, known: bool)
    requires ListsWindows(v, s.sources, windows)
    ensures ListGives(s, bindings, windows, |windows|, f, given, known) <==> RuleGives(v, s, bindings, f, given, known)
  {
    forall j: nat | j < |windows|
      ensures GivenAt(s, bindings, windows, j, f, given, known)
         <==> GivenBy(v, s, bindings, windows[j], f, given, known)
    {
      ListedEarlier(v, s, bindings, windows, j, f);
    }
    if RuleGives(v, s, bindings, f, given, known) {
      var w :| GivenBy(v, s, bindings, w, f, given, known);
      var j :| 0 <= j < |windows| && windows[j] == w;
      assert GivenAt(s, bindings, windows, j, f, given, known);
    }
  }

  ghost predicate ListDrew(v: Liveness.View, s: SilentRule, bindings: seq<Binding>, windows: seq<Interval>, n: nat,
                           a: Told, b: Told, whole: bool)
    requires n <= |windows| && Liveness.Separated(windows)
  {
    (whole ==> ListTold(s, bindings, windows, n, a, b)) && RuleSpans(v, s, bindings, a.log, b.log)
  }

  lemma ListDrewOneMore(v: Liveness.View, s: SilentRule, bindings: seq<Binding>, windows: seq<Interval>, n: nat,
                        a: Told, b: Told, c: Told, before: bool, after: bool)
    requires n < |windows| && ListsWindows(v, s.sources, windows) && (after ==> before)
    requires ListDrew(v, s, bindings, windows, n, a, b, before)
    requires Drew(s, windows[n], bindings, |bindings|, b, c, after)
    ensures ListDrew(v, s, bindings, windows, n + 1, a, c, after)
  {
    RuleSpansOneMore(v, s, bindings, windows[n], a.log, b.log, c.log);
    if after {
      ListOneMore(s, bindings, windows, n, a, b, c);
    }
  }

  lemma RuleSpansOneMore(v: Liveness.View, s: SilentRule, bindings: seq<Binding>, w: Interval, a: set<(Atom, Span)>,
                         b: set<(Atom, Span)>, c: set<(Atom, Span)>)
    requires Liveness.BlindWindow(v, s.sources, w)
    requires RuleSpans(v, s, bindings, a, b) && WindowSpans(s, w, bindings, b, c)
    ensures RuleSpans(v, s, bindings, a, c)
  {
  }

  // ---------------------------------------------------------------------------
  // Silent detect instances
  // ---------------------------------------------------------------------------

  /** What was added is the premise of an absent fact. */
  ghost predicate OnlyPremises(s: SilentRule, licences: set<Licence>, absent: seq<Atom>, a: set<GroundInstance>,
                               b: set<GroundInstance>)
  {
    forall i :: i in b && i !in a ==> i.head in absent && i == PremiseFor(s, i.head, licences)
  }

  /** What was added is part of some binding's silent instance. */
  ghost predicate OnlyParts(s: SilentRule, w: Interval, licences: set<Licence>, bindings: seq<Binding>,
                            a: set<GroundInstance>, b: set<GroundInstance>)
  {
    forall i :: i in b && i !in a ==>
      i.licences == licences && exists k :: 0 <= k < |bindings| && PartOf(s, w, bindings[k], i)
  }

  /** What was added is silent and licensed by minted licences. */
  ghost predicate OnlySilent(v: Liveness.View, s: SilentRule, bindings: seq<Binding>, minted: set<Licence>,
                             a: set<GroundInstance>, b: set<GroundInstance>)
  {
    forall i :: i in b && i !in a ==> SilentBy(v, s, bindings, i) && i.licences <= minted
  }

  lemma OnlyPremisesOneMore(s: SilentRule, licences: set<Licence>, absent: seq<Atom>, k: nat, a: set<GroundInstance>,
                            b: set<GroundInstance>, c: set<GroundInstance>)
    requires k < |absent| && OnlyPremises(s, licences, absent, a, b)
    requires c == b || c == b + {PremiseFor(s, absent[k], licences)}
    ensures OnlyPremises(s, licences, absent, a, c)
  {
  }

  lemma OnlyPartsComposes(s: SilentRule, w: Interval, licences: set<Licence>, bindings: seq<Binding>, k: nat,
                          a: set<GroundInstance>, b: set<GroundInstance>, c: set<GroundInstance>)
    requires k < |bindings| && OnlyParts(s, w, licences, bindings, a, b)
    requires OnlyParts(s, w, licences, [bindings[k]], b, c)
    ensures OnlyParts(s, w, licences, bindings, a, c)
  {
  }

  lemma OnlySilentComposes(v: Liveness.View, s: SilentRule, bindings: seq<Binding>, minted: set<Licence>,
                           minted': set<Licence>, a: set<GroundInstance>, b: set<GroundInstance>,
                           c: set<GroundInstance>)
    requires minted <= minted' && OnlySilent(v, s, bindings, minted, a, b) && OnlySilent(v, s, bindings, minted', b, c)
    ensures OnlySilent(v, s, bindings, minted', a, c)
  {
  }

  /** The premises, then the instance above them. */
  lemma PartsOfOne(s: SilentRule, w: Interval, licences: set<Licence>, b: Binding, absent: seq<Atom>,
                   from: set<GroundInstance>, between: set<GroundInstance>, to: set<GroundInstance>)
    requires OnlyPremises(s, licences, absent, from, between) && DetectFor(s, w, licences, b).Some?
    requires forall f :: f in absent ==> f in DetectFor(s, w, licences, b).value.body
    requires to == between || to == between + {DetectFor(s, w, licences, b).value}
    ensures OnlyParts(s, w, licences, [b], from, to)
  {
    forall i | i in to && i !in from ensures i.licences == licences && PartOf(s, w, [b][0], i) {
    }
  }

  lemma PartsAreSilent(v: Liveness.View, s: SilentRule, w: Interval, licences: set<Licence>, bindings: seq<Binding>,
                       minted: set<Licence>, a: set<GroundInstance>, b: set<GroundInstance>)
    requires OnlyParts(s, w, licences, bindings, a, b) && licences <= minted
    requires Liveness.BlindWindow(v, s.sources, w) && Liveness.Licenses(v, s.sources, w, licences)
    ensures OnlySilent(v, s, bindings, minted, a, b)
  {
    forall i | i in b && i !in a ensures SilentBy(v, s, bindings, i) {
      assert SilentOver(v, s, bindings, w, i);
    }
  }

  /** What the first `n` premises did to the tables. */
  ghost predicate Premised(s: SilentRule, licences: set<Licence>, absent: seq<Atom>, n: nat, span: Span, a: Tables,
                           counter: nat, told: Told, b: Tables, counter': nat, told': Told, maxSilent: nat)
    requires n <= |absent|
  {
    && Advances(a, counter, b, counter', maxSilent) && OnlyPremises(s, licences, absent, a.instances, b.instances)
    && PremisesTold(absent, n, span, told, told', b.cap == NoCap)
  }

  lemma PremisedOneMore(s: SilentRule, licences: set<Licence>, absent: seq<Atom>, n: nat, span: Span, a: Tables,
                        counter: nat, told: Told, b: Tables, counter': nat, told': Told, c: Tables, counter'': nat,
                        told'': Told, maxSilent: nat)
    requires n < |absent|
    requires Premised(s, licences, absent, n, span, a, counter, told, b, counter', told', maxSilent)
    requires Advances(b, counter', c, counter'', maxSilent)
    requires c.instances == b.instances || c.instances == b.instances + {PremiseFor(s, absent[n], licences)}
    requires told''.log == told'.log + {(absent[n], span)}
    requires c.cap == NoCap ==> b.cap == NoCap && told''.facts == told'.facts + {absent[n]}
    ensures Premised(s, licences, absent, n + 1, span, a, counter, told, c, counter'', told'', maxSilent)
  {
    PremisesOneMore(absent, n, span, told, told', told'', b.cap == NoCap, c.cap == NoCap);
    AdvancesComposes(a, counter, b, counter', c, counter'', maxSilent);
    OnlyPremisesOneMore(s, licences, absent, n, a.instances, b.instances, c.instances);
  }

  /** One ghost premise per absent slot. */
  method AddPremises(e: Engine, s: SilentRule, w: Interval, licences: set<Licence>, absent: seq<Atom>, counter: nat,
                     ghost maxSilent: nat)
    returns (counter': nat)
    requires e.Valid() && w.t0 < w.t1
    modifies e`facts, e`byPred, e`delta, e`capped, e`detail, e`instances, e`licensed, e`ghosts, e`spans, e`log
    ensures e.Valid()
    ensures Premised(s, licences, absent, |absent|, SpanOf(w), old(TablesOf(e)), counter, old(ToldOf(e)), TablesOf(e),
                     counter', ToldOf(e), maxSilent)
  {
    counter' := counter;
    ghost var from, told := TablesOf(e), ToldOf(e);
    assert absent[..0] == [] && Tagged(absent, 0, SpanOf(w)) == {};
    for k := 0 to |absent|
      invariant e.Valid()
      invariant Premised(s, licences, absent, k, SpanOf(w), from, counter, told, TablesOf(e), counter', ToldOf(e),
                         maxSilent)
    {
      ghost var before, n, toldBefore := TablesOf(e), counter', ToldOf(e);
      counter' := AdmitOver(e, PremiseFor(s, absent[k], licences), SpanOf(w), counter', maxSilent);
      PremisedOneMore(s, licences, absent, k, SpanOf(w), from, counter, told, before, n, toldBefore, TablesOf(e),
                      counter', ToldOf(e), maxSilent);
    }
  }

  /** The premises of the absent slots, then the detect instance above them. */
  method AddOneBinding(e: Engine, s: SilentRule, w: Interval, licences: set<Licence>, b: Binding, counter: nat,
                       ghost maxSilent: nat)
    returns (counter': nat)
    requires e.Valid() && w.t0 < w.t1
    modifies e`facts, e`byPred, e`delta, e`capped, e`detail, e`instances, e`licensed, e`ghosts, e`spans, e`log
    ensures e.Valid()
    ensures Progress(s, w, licences, [b], 1, old(TablesOf(e)), counter, old(ToldOf(e)), TablesOf(e), counter',
                     ToldOf(e), maxSilent)
  {
    var body := BoundBody(s.rule.body, b, TickOf(w.t0));
    var head := BoundAtom(s.rule.head, b, TickOf(w.t0));
    if body.None? || head.None? {
      NoneTold(s, w, b, ToldOf(e));
      return counter;
    }
    ghost var from, told := TablesOf(e), ToldOf(e);
    var absent := AbsentFrom(body.value, e.facts);
    counter' := AddPremises(e, s, w, licences, absent, counter, maxSilent);
    ghost var between, n, middle := TablesOf(e), counter', ToldOf(e);
    var instance := GroundInstance(s.rule.id, head.value, body.value, s.rule.blockers, false, {}, licences, false);
    counter' := AdmitOver(e, instance, SpanOf(w), counter', maxSilent);
    OneTold(s, w, licences, b, absent, told, middle, ToldOf(e), !e.capped);
    AdvancesComposes(from, counter, between, n, TablesOf(e), counter', maxSilent);
    PartsOfOne(s, w, licences, b, absent, from.instances, between.instances, e.instances);
  }

  /** What drawing the first `n` bindings over a window did to the tables. */
  ghost predicate Progress(s: SilentRule, w: Interval, licences: set<Licence>, bindings: seq<Binding>, n: nat,
                           a: Tables, counter: nat, told: Told, b: Tables, counter': nat, told': Told, maxSilent: nat)
    requires n <= |bindings| && w.t0 < w.t1
  {
    && Advances(a, counter, b, counter', maxSilent)
    && OnlyParts(s, w, licences, bindings, a.instances, b.instances)
    && (b.cap == NoCap ==> AllDrawn(s, w, licences, bindings, n, b))
    && Drew(s, w, bindings, n, told, told', b.cap == NoCap)
  }

  lemma ProgressOneMore(s: SilentRule, w: Interval, licences: set<Licence>, bindings: seq<Binding>, n: nat, a: Tables,
                        counter: nat, told: Told, b: Tables, counter': nat, told': Told, c: Tables, counter'': nat,
                        told'': Told, maxSilent: nat)
    requires n < |bindings| && w.t0 < w.t1
    requires Progress(s, w, licences, bindings, n, a, counter, told, b, counter', told', maxSilent)
    requires Progress(s, w, licences, [bindings[n]], 1, b, counter', told', c, counter'', told'', maxSilent)
    ensures Progress(s, w, licences, bindings, n + 1, a, counter, told, c, counter'', told'', maxSilent)
  {
    DrewOneMore(s, w, bindings, n, told, told', told'', b.cap == NoCap, c.cap == NoCap);
    AdvancesComposes(a, counter, b, counter', c, counter'', maxSilent);
    OnlyPartsComposes(s, w, licences, bindings, n, a.instances, b.instances, c.instances);
    if c.cap == NoCap {
      assert Drawn(s, w, licences, [bindings[n]][0], c);
      DrawnOneMore(s, w, licences, bindings, n, b, c);
    }
  }

  /** At the cap no more is promised. */
  lemma ProgressStops(s: SilentRule, w: Interval, licences: set<Licence>, bindings: seq<Binding>, n: nat, a: Tables,
                      counter: nat, told: Told, b: Tables, counter': nat, told': Told, c: Tables, maxSilent: nat)
    requires n <= |bindings| && w.t0 < w.t1 && counter' >= maxSilent
    requires Progress(s, w, licences, bindings, n, a, counter, told, b, counter', told', maxSilent)
    requires c.cap != NoCap && (b.cap != NoCap ==> c.cap == b.cap) && c == b.(cap := c.cap)
    ensures Progress(s, w, licences, bindings, |bindings|, a, counter, told, c, counter', told', maxSilent)
  {
  }

  /** Every binding over one window, until the cap on silent instances. */
  method AddWindow(e: Engine, s: SilentRule, w: Interval, licences: set<Licence>, bindings: seq<Binding>,
                   counter: nat, maxSilent: nat)
    returns (counter': nat, stop: bool)
    requires e.Valid() && w.t0 < w.t1
    modifies e`facts, e`byPred, e`delta, e`capped, e`detail, e`instances, e`licensed, e`ghosts, e`spans, e`log
    ensures e.Valid() && (stop ==> e.capped)
    ensures Progress(s, w, licences, bindings, |bindings|, old(TablesOf(e)), counter, old(ToldOf(e)), TablesOf(e),
                     counter', ToldOf(e), maxSilent)
  {
    counter', stop := counter, false;
    ghost var from, told := TablesOf(e), ToldOf(e);
    for k := 0 to |bindings|
      invariant e.Valid() && !stop
      invariant Progress(s, w, licences, bindings, k, from, counter, told, TablesOf(e), counter', ToldOf(e), maxSilent)
    {
      if counter' >= maxSilent {
        ghost var full := TablesOf(e);
        e.RecordCap(SilentCap);
        ProgressStops(s, w, licences, bindings, k, from, counter, told, full, counter', ToldOf(e), TablesOf(e),
                      maxSilent);
        return counter', true;
      }
      ghost var before, n, toldBefore := TablesOf(e), counter', ToldOf(e);
      counter' := AddOneBinding(e, s, w, licences, bindings[k], counter', maxSilent);
      ProgressOneMore(s, w, licences, bindings, k, from, counter, told, before, n, toldBefore, TablesOf(e), counter',
                      ToldOf(e), maxSilent);
    }
  }

  /** One joint blind window: its licences are minted and its bindings drawn. */
  method AddOverWindow(e: Engine, v: Liveness.View, s: SilentRule, w: Interval, bindings: seq<Binding>,
                       minted: set<Licence>, counter: nat, maxSilent: nat)
    returns (minted': set<Licence>, counter': nat, stop: bool, faulty: bool)
    requires e.Valid() && Liveness.ViewOrdered(v) && Liveness.BlindWindow(v, s.sources, w) && Genuine(v, minted)
    modifies e`facts, e`byPred, e`delta, e`capped, e`detail, e`instances, e`licensed, e`ghosts, e`spans, e`log
    ensures e.Valid() && Advances(old(TablesOf(e)), counter, TablesOf(e), counter', maxSilent)
    ensures minted <= minted' && Genuine(v, minted') && (stop ==> e.capped) && RuleMinted(v, s, minted, minted')
    ensures OnlySilent(v, s, bindings, minted', old(e.instances), e.instances)
    ensures faulty <==> Liveness.WitnessMissing(v, s.sources, w)
    ensures !e.capped && !faulty ==> WindowDrawn(v, s, bindings, w, minted', TablesOf(e))
    ensures Drew(s, w, bindings, |bindings|, old(ToldOf(e)), ToldOf(e), !e.capped && !faulty)
  {
    Liveness.JointWindowIsLicensable(v, s.sources, w);
    var lookup := Liveness.LicencesForWindow(v, s.sources, w);
    if !lookup.Found? {
      return minted, counter, false, lookup.NoWitness?;
    }
    minted' := minted + lookup.licences;
    assert forall lc :: lc in lookup.licences ==> LicenceOver(v, s.sources, w, lc);
    counter', stop := AddWindow(e, s, w, lookup.licences, bindings, counter, maxSilent);
    faulty := false;
    PartsAreSilent(v, s, w, lookup.licences, bindings, minted', old(e.instances), e.instances);
  }

  /** `_add_silent_detect`: the licensed silent instances of one rule, over every joint blind
      window of its sources. */
  method AddSilentDetect(e: Engine, v: Liveness.View, s: SilentRule, bindings: seq<Binding>, minted: set<Licence>,
                         counter: nat, maxSilent: nat)
    returns (minted': set<Licence>, counter': nat, faulty: bool)
    requires e.Valid() && Liveness.ViewOrdered(v) && Genuine(v, minted)
    modifies e`facts, e`byPred, e`delta, e`capped, e`detail, e`instances, e`licensed, e`ghosts, e`spans, e`log
    ensures e.Valid() && Advances(old(TablesOf(e)), counter, TablesOf(e), counter', maxSilent)
    ensures minted <= minted' && Genuine(v, minted') && RuleMinted(v, s, minted, minted')
    ensures OnlySilent(v, s, bindings, minted', old(e.instances), e.instances)
    ensures faulty ==> SilentFaulty(v, s)
    ensures !e.capped && !faulty ==> RuleRepresented(v, s, bindings, minted', TablesOf(e))
    ensures RuleDrew(v, s, bindings, old(ToldOf(e)), ToldOf(e), !e.capped && !faulty)
  {
    minted', counter', faulty := minted, counter, false;
    ghost var from, told := TablesOf(e), ToldOf(e);
    var windows := Liveness.JointBlindWindows(v, s.sources);
    JointWindowsAreListed(v, s.sources, windows);
    for k := 0 to |windows|
      invariant e.Valid() && Advances(from, counter, TablesOf(e), counter', maxSilent)
      invariant minted <= minted' && Genuine(v, minted') && !faulty && RuleMinted(v, s, minted, minted')
      invariant OnlySilent(v, s, bindings, minted', from.instances, e.instances)
      invariant !e.capped ==> WindowsDrawn(v, s, bindings, windows, k, minted', TablesOf(e))
      invariant ListDrew(v, s, bindings, windows, k, told, ToldOf(e), !e.capped)
    {
      ghost var before, n, mintedBefore := TablesOf(e), counter', minted';
      ghost var toldBefore, uncapped := ToldOf(e), !e.capped;
      var stop;
      minted', counter', stop, faulty := AddOverWindow(e, v, s, windows[k], bindings, minted', counter', maxSilent);
      AdvancesComposes(from, counter, before, n, TablesOf(e), counter', maxSilent);
      OnlySilentComposes(v, s, bindings, mintedBefore, minted', from.instances, before.instances, e.instances);
      ListDrewOneMore(v, s, bindings, windows, k, told, toldBefore, ToldOf(e), uncapped, !e.capped && !faulty);
      if stop || faulty {
        return;
      }
      if !e.capped {
        WindowsDrawnStay(v, s, bindings, windows, k, mintedBefore, before, minted', TablesOf(e));
      }
    }
    if !e.capped {
      ListedIsRule(v, s, bindings, windows, told, ToldOf(e));
      WindowsRepresent(v, s, bindings, windows, minted', TablesOf(e));
    }
  }

  lemma WindowsRepresent(v: Liveness.View, s: SilentRule, bindings: seq<Binding>, windows: seq<Interval>,
                         minted: set<Licence>, t: Tables)
    requires Liveness.Separated(windows)
    requires forall t :: Liveness.InWindow(windows, t) <==> s.sources != [] && Liveness.AllBlindAt(v, s.sources, t)
    requires WindowsDrawn(v, s, bindings, windows, |windows|, minted, t)
    ensures RuleRepresented(v, s, bindings, minted, t)
  {
    forall instant | s.sources != [] && Liveness.AllBlindAt(v, s.sources, instant)
      ensures Represented(v, s, bindings, minted, t, instant)
    {
      assert Liveness.InWindow(windows, instant);
      var j :| 0 <= j < |windows| && windows[j].Contains(instant);
      Liveness.JointWindowIsMaximal(v, s.sources, windows, j);
    }
  }

  // ---------------------------------------------------------------------------
  // Obligations
  // ---------------------------------------------------------------------------

  /** The licence is one of those of the lookback of a trigger whose head was absent from the base. */
  ghost predicate TriggerMints(v: Liveness.View, o: Obligation, f: Atom, before: set<Atom>, lc: Licence) {
    Obliges(o, f) && Obliged(o, f).value !in before && LicenceOver(v, o.sources, Lookback(o, f), lc)
  }

  ghost predicate ObligationMints(v: Liveness.View, o: Obligation, seen: set<Atom>, before: set<Atom>, lc: Licence) {
    exists f :: f in seen && TriggerMints(v, o, f, before, lc)
  }

  ghost predicate ObligationMinted(v: Liveness.View, o: Obligation, seen: set<Atom>, before: set<Atom>,
                                   a: set<Licence>, b: set<Licence>)
  {
    forall lc :: lc in b && lc !in a ==> ObligationMints(v, o, seen, before, lc)
  }

  /** An obligation rule: a trigger obliges a head over the lookback before it. */
  datatype Obligation = Obligation(id: nat, trigger: Pattern, head: Pattern, blockers: seq<Mask>,
                                     sources: seq<nat>, within: nat)

  datatype BlindSpot = BlindSpot(rule: nat, headPred: nat, window: Interval, sources: seq<nat>)

  function Zip(vars: seq<nat>, args: seq<nat>): Binding
    requires |vars| == |args|
  {
    if vars == [] then map[] else Zip(vars[..|vars| - 1], args[..|args| - 1])[vars[|vars| - 1] := args[|args| - 1]]
  }

  /** The obliged head of a trigger fact, or `None` when a head variable is unbound. */
  function Obliged(o: Obligation, f: Atom): (r: Option<Atom>)
    requires |f.args| == |o.trigger.entityVars|
    ensures r.Some? ==> r.value.tick == f.tick
  {
    BoundAtom(o.head, Zip(o.trigger.entityVars, f.args), f.tick)
  }

  function Lookback(o: Obligation, f: Atom): (w: Interval)
    ensures w.t0 <= w.t1
  {
    Interval(Max(0, f.tick - o.within) * TICK_NS, f.tick * TICK_NS)
  }

  function SpotFor(o: Obligation, f: Atom): BlindSpot {
    BlindSpot(o.id, o.head.pred, Lookback(o, f), o.sources)
  }

  predicate Triggers(o: Obligation, f: Atom) {
    f.pred == o.trigger.pred && |f.args| == |o.trigger.entityVars|
  }

  predicate Obliges(o: Obligation, f: Atom) {
    Triggers(o, f) && Obliged(o, f).Some?
  }

  /** A ghost head forced by a trigger, licensed over the whole lookback on every source. */
  ghost predicate GhostInstance(v: Liveness.View, o: Obligation, i: GroundInstance) {
    && |i.body| == 1 && Obliges(o, i.body[0])
    && i == GroundInstance(o.id, Obliged(o, i.body[0]).value, i.body, o.blockers, false, {}, i.licences, true)
    && Liveness.Licenses(v, o.sources, Lookback(o, i.body[0]), i.licences) && i.licences != {}
  }

  /** Somebody could have seen the step: the first source that stops the licence lookup was not
      blind over the whole lookback. */
  ghost predicate Unlicensable(v: Liveness.View, o: Obligation, f: Atom) {
    Liveness.Seen(v, o.sources, Lookback(o, f))
  }

  /** What became of one trigger: satisfied or forced, or a recorded blind spot. */
  ghost predicate Settled(v: Liveness.View, o: Obligation, f: Atom, facts: set<Atom>, spots: seq<BlindSpot>) {
    Obliges(o, f) ==> Obliged(o, f).value in facts || (SpotFor(o, f) in spots && Unlicensable(v, o, f))
  }

  ghost predicate AllSettled(v: Liveness.View, o: Obligation, from: set<Atom>, facts: set<Atom>,
                             spots: seq<BlindSpot>)
  {
    forall f :: f in from ==> Settled(v, o, f, facts, spots)
  }

  /** A reported blind spot is some trigger's, whose head was absent and could not be licensed. */
  ghost predicate SpotDue(v: Liveness.View, o: Obligation, seen: set<Atom>, before: set<Atom>, spot: BlindSpot) {
    exists f :: f in seen && Obliges(o, f) && Obliged(o, f).value !in before && Unlicensable(v, o, f)
      && spot == SpotFor(o, f)
  }

  /** What was added is a forced ghost licensed by minted licences. */
  ghost predicate OnlyGhosts(v: Liveness.View, o: Obligation, minted: set<Licence>, a: set<GroundInstance>,
                             b: set<GroundInstance>)
  {
    forall i :: i in b && i !in a ==> GhostInstance(v, o, i) && i.licences <= minted
  }

  lemma OnlyGhostsComposes(v: Liveness.View, o: Obligation, minted: set<Licence>, minted': set<Licence>,
                           a: set<GroundInstance>, b: set<GroundInstance>, c: set<GroundInstance>)
    requires minted <= minted' && OnlyGhosts(v, o, minted, a, b) && OnlyGhosts(v, o, minted', b, c)
    ensures OnlyGhosts(v, o, minted', a, c)
  {
  }

  /** The first `n` triggers are settled. */
  ghost predicate SettledUpTo(v: Liveness.View, o: Obligation, pool: seq<Atom>, n: nat, facts: set<Atom>,
                              spots: seq<BlindSpot>)
    requires n <= |pool|
  {
    forall m :: 0 <= m < n ==> Settled(v, o, pool[m], facts, spots)
  }

  ghost predicate OnlyDue(v: Liveness.View, o: Obligation, from: set<Atom>, spots: seq<BlindSpot>) {
    forall spot :: spot in spots ==> SpotDue(v, o, from, from, spot)
  }

  /** What one trigger adds to the list of blind spots, if anything. */
  ghost predicate Reported(v: Liveness.View, o: Obligation, f: Atom, facts: set<Atom>, spots: seq<BlindSpot>,
                           spots': seq<BlindSpot>)
  {
    || spots' == spots
    || (spots' == spots + [SpotFor(o, f)] && Obliges(o, f) && Unlicensable(v, o, f) && Obliged(o, f).value !in facts)
  }

  lemma SettledOneMore(v: Liveness.View, o: Obligation, pool: seq<Atom>, n: nat, a: set<Atom>, spots: seq<BlindSpot>,
                       b: set<Atom>, spots': seq<BlindSpot>)
    requires n < |pool| && SettledUpTo(v, o, pool, n, a, spots) && a <= b && Reported(v, o, pool[n], b, spots, spots')
    requires Settled(v, o, pool[n], b, spots')
    ensures SettledUpTo(v, o, pool, n + 1, b, spots')
  {
    forall m | 0 <= m < n ensures Settled(v, o, pool[m], b, spots') {
      assert Settled(v, o, pool[m], a, spots);
    }
  }

  lemma DueOneMore(v: Liveness.View, o: Obligation, f: Atom, from: set<Atom>, spots: seq<BlindSpot>, b: set<Atom>,
                   spots': seq<BlindSpot>)
    requires OnlyDue(v, o, from, spots) && f in from && from <= b && Reported(v, o, f, b, spots, spots')
    ensures OnlyDue(v, o, from, spots')
  {
    forall spot | spot in spots' ensures SpotDue(v, o, from, from, spot) {
      assert spot in spots || spot == SpotFor(o, f);
    }
  }

  lemma MintedOneMore(v: Liveness.View, o: Obligation, f: Atom, from: set<Atom>, now: set<Atom>, a: set<Licence>,
                      b: set<Licence>, c: set<Licence>)
    requires ObligationMinted(v, o, from, from, a, b) && f in from && from <= now
    requires forall lc :: lc in c && lc !in b ==> TriggerMints(v, o, f, now, lc)
    ensures ObligationMinted(v, o, from, from, a, c)
  {
    forall lc | lc in c && lc !in a ensures ObligationMints(v, o, from, from, lc) {
      if lc !in b {
        assert TriggerMints(v, o, f, from, lc);
      }
    }
  }

  /** Why a trigger can raise a schema error: its licence lookup meets a suppressed run without a
      witness, or the obligation names no source to license it. */
  ghost predicate FaultDue(v: Liveness.View, o: Obligation, f: Atom, fault: Fault) {
    Obliges(o, f) && match fault
                     case WitnessMissing => Liveness.WitnessMissing(v, o.sources, Lookback(o, f))
                     case LicenceMissing => o.sources == []
  }

  /** One trigger of one obligation. */
  method SettleTrigger(e: Engine, v: Liveness.View, o: Obligation, f: Atom, minted: set<Licence>, counter: nat,
                       maxSilent: nat, spots: seq<BlindSpot>)
    returns (minted': set<Licence>, counter': nat, spots': seq<BlindSpot>, stop: bool, fault: Option<Fault>)
    requires e.Valid() && Liveness.ViewOrdered(v) && Triggers(o, f) && f in e.facts && Genuine(v, minted)
    modifies e`facts, e`byPred, e`delta, e`capped, e`detail, e`instances, e`licensed, e`ghosts
    ensures e.Valid() && Advances(old(TablesOf(e)), counter, TablesOf(e), counter', maxSilent)
    ensures minted <= minted' && Genuine(v, minted') && (stop ==> e.capped)
    ensures forall lc :: lc in minted' && lc !in minted ==> TriggerMints(v, o, f, old(e.facts), lc)
    ensures OnlyGhosts(v, o, minted', old(e.instances), e.instances)
    ensures fault.Some? ==> FaultDue(v, o, f, fault.value)
    ensures !e.capped && fault.None? ==> Settled(v, o, f, e.facts, spots')
    ensures Reported(v, o, f, e.facts, spots, spots')
  {
    minted', counter', spots', stop, fault := minted, counter, spots, false, None;
    var head := Obliged(o, f);
    if head.None? || head.value in e.facts {
      return;
    }
    var lookup := Liveness.LicencesForWindow(v, o.sources, Lookback(o, f));
    if lookup.NoWitness? {
      fault := Some(WitnessMissing);
      return;
    }
    if lookup.SomeoneSaw? {
      spots' := spots + [SpotFor(o, f)];
      return;
    }
    minted' := minted + lookup.licences;
    assert forall lc :: lc in lookup.licences ==> LicenceOver(v, o.sources, Lookback(o, f), lc);
    if counter >= maxSilent {
      e.RecordCap(SilentCap);
      stop := true;
      return;
    }
    if lookup.licences == {} {
      fault := Some(LicenceMissing);
      return;
    }
    counter' := Force(e, v, o, f, minted', lookup.licences, counter, maxSilent);
  }

  /** The forced ghost of one trigger joins the tables. */
  method Force(e: Engine, ghost v: Liveness.View, o: Obligation, f: Atom, ghost minted: set<Licence>,
               licences: set<Licence>, counter: nat, ghost maxSilent: nat)
    returns (counter': nat)
    requires e.Valid() && Obliges(o, f) && f in e.facts && licences <= minted && licences != {}
    requires Liveness.Licenses(v, o.sources, Lookback(o, f), licences)
    modifies e`facts, e`byPred, e`delta, e`capped, e`detail, e`instances, e`licensed, e`ghosts
    ensures e.Valid() && Advances(old(TablesOf(e)), counter, TablesOf(e), counter', maxSilent)
    ensures OnlyGhosts(v, o, minted, old(e.instances), e.instances)
    ensures !e.capped ==> Obliged(o, f).value in e.facts
  {
    var instance := GroundInstance(o.id, Obliged(o, f).value, [f], o.blockers, false, {}, licences, true);
    assert GhostInstance(v, o, instance);
    counter' := Admit(e, instance, counter, maxSilent);
  }

  /** The triggers of one obligation in turn. */
  method SettleTriggers(e: Engine, v: Liveness.View, o: Obligation, pool: seq<Atom>, minted: set<Licence>,
                        counter: nat, maxSilent: nat)
    returns (minted': set<Licence>, counter': nat, spots: seq<BlindSpot>, fault: Option<Fault>)
    requires e.Valid() && Liveness.ViewOrdered(v) && Genuine(v, minted)
    requires forall j :: 0 <= j < |pool| ==> Triggers(o, pool[j]) && pool[j] in e.facts
    modifies e`facts, e`byPred, e`delta, e`capped, e`detail, e`instances, e`licensed, e`ghosts
    ensures e.Valid() && Advances(old(TablesOf(e)), counter, TablesOf(e), counter', maxSilent)
    ensures minted <= minted' && Genuine(v, minted')
    ensures ObligationMinted(v, o, old(e.facts), old(e.facts), minted, minted')
    ensures OnlyGhosts(v, o, minted', old(e.instances), e.instances)
    ensures fault.Some? ==> exists f :: f in pool && FaultDue(v, o, f, fault.value)
    ensures !e.capped && fault.None? ==> SettledUpTo(v, o, pool, |pool|, e.facts, spots)
    ensures OnlyDue(v, o, old(e.facts), spots)
  {
    minted', counter', spots, fault := minted, counter, [], None;
    ghost var from := TablesOf(e);
    for j := 0 to |pool|
      invariant e.Valid() && Advances(from, counter, TablesOf(e), counter', maxSilent)
      invariant minted <= minted' && Genuine(v, minted') && fault.None?
      invariant ObligationMinted(v, o, from.facts, from.facts, minted, minted')
      invariant OnlyGhosts(v, o, minted', from.instances, e.instances)
      invariant !e.capped ==> SettledUpTo(v, o, pool, j, e.facts, spots)
      invariant OnlyDue(v, o, from.facts, spots)
    {
      ghost var before, n, spotsBefore, mintedBefore := TablesOf(e), counter', spots, minted';
      var stop;
      minted', counter', spots, stop, fault :=
        SettleTrigger(e, v, o, pool[j], minted', counter', maxSilent, spots);
      AdvancesComposes(from, counter, before, n, TablesOf(e), counter', maxSilent);
      OnlyGhostsComposes(v, o, mintedBefore, minted', from.instances, before.instances, e.instances);
      MintedOneMore(v, o, pool[j], from.facts, before.facts, minted, mintedBefore, minted');
      DueOneMore(v, o, pool[j], from.facts, spotsBefore, e.facts, spots);
      if stop || fault.Some? {
        return;
      }
      if !e.capped {
        SettledOneMore(v, o, pool, j, before.facts, spotsBefore, e.facts, spots);
      }
    }
  }

  /** `_add_obligations`, one rule: every trigger in the base when the rule is reached. */
  method AddObligation(e: Engine, v: Liveness.View, o: Obligation, minted: set<Licence>, counter: nat, maxSilent: nat)
    returns (minted': set<Licence>, counter': nat, spots: seq<BlindSpot>, fault: Option<Fault>)
    requires e.Valid() && Liveness.ViewOrdered(v) && Genuine(v, minted)
    modifies e`facts, e`byPred, e`delta, e`capped, e`detail, e`instances, e`licensed, e`ghosts
    ensures e.Valid() && Advances(old(TablesOf(e)), counter, TablesOf(e), counter', maxSilent)
    ensures minted <= minted' && Genuine(v, minted')
    ensures ObligationMinted(v, o, old(e.facts), old(e.facts), minted, minted')
    ensures OnlyGhosts(v, o, minted', old(e.instances), e.instances)
    ensures fault.Some? ==> exists f :: f in old(e.facts) && FaultDue(v, o, f, fault.value)
    ensures !e.capped && fault.None? ==> AllSettled(v, o, old(e.facts), e.facts, spots)
    ensures OnlyDue(v, o, old(e.facts), spots)
  {
    var k := (o.trigger.pred, |o.trigger.entityVars|);
    var pool := FactsIn(e.byPred, k);
    ghost var from := e.facts;
    BucketListing(e.order, e.byPred, e.facts, k);
    assert forall j :: 0 <= j < |pool| ==> pool[j] in pool;
    minted', counter', spots, fault := SettleTriggers(e, v, o, pool, minted, counter, maxSilent);
    forall f | f in from && !e.capped && fault.None? ensures Settled(v, o, f, e.facts, spots) {
      if BucketOf(f) == k {
        assert f in Elements(pool[..|pool|]);
        var m :| 0 <= m < |pool| && pool[m] == f;
      }
    }
  }

  // ---------------------------------------------------------------------------
  // All rules and all obligations
  // ---------------------------------------------------------------------------

  ghost predicate FromSilent(v: Liveness.View, silent: seq<SilentRule>, bindings: seq<seq<Binding>>,
                             minted: set<Licence>, i: GroundInstance)
    requires |bindings| == |silent|
  {
    i.licences <= minted && exists k :: 0 <= k < |silent| && SilentBy(v, silent[k], bindings[k], i)
  }

  ghost predicate FromObligations(v: Liveness.View, obligations: seq<Obligation>, minted: set<Licence>,
                                  i: GroundInstance)
  {
    i.licences <= minted && exists k :: 0 <= k < |obligations| && GhostInstance(v, obligations[k], i)
  }

  ghost predicate AllFromSilent(v: Liveness.View, silent: seq<SilentRule>, bindings: seq<seq<Binding>>,
                                minted: set<Licence>, a: set<GroundInstance>, b: set<GroundInstance>)
    requires |bindings| == |silent|
  {
    forall i :: i in b && i !in a ==> FromSilent(v, silent, bindings, minted, i)
  }

  lemma FromSilentComposes(v: Liveness.View, silent: seq<SilentRule>, bindings: seq<seq<Binding>>,
                           minted: set<Licence>, minted': set<Licence>, k: nat, a: set<GroundInstance>,
                           b: set<GroundInstance>, c: set<GroundInstance>)
    requires |bindings| == |silent| && k < |silent| && minted <= minted'
    requires AllFromSilent(v, silent, bindings, minted, a, b) && OnlySilent(v, silent[k], bindings[k], minted', b, c)
    ensures AllFromSilent(v, silent, bindings, minted', a, c)
  {
    forall i | i in c && i !in a ensures FromSilent(v, silent, bindings, minted', i) {
      assert i in b ==> FromSilent(v, silent, bindings, minted, i);
    }
  }

  ghost predicate AllFromObligations(v: Liveness.View, obligations: seq<Obligation>, minted: set<Licence>,
                                     a: set<GroundInstance>, b: set<GroundInstance>)
  {
    forall i :: i in b && i !in a ==> FromObligations(v, obligations, minted, i)
  }

  lemma FromObligationsComposes(v: Liveness.View, obligations: seq<Obligation>, minted: set<Licence>,
                                minted': set<Licence>, k: nat, a: set<GroundInstance>, b: set<GroundInstance>,
                                c: set<GroundInstance>)
    requires k < |obligations| && minted <= minted'
    requires AllFromObligations(v, obligations, minted, a, b) && OnlyGhosts(v, obligations[k], minted', b, c)
    ensures AllFromObligations(v, obligations, minted', a, c)
  {
    forall i | i in c && i !in a ensures FromObligations(v, obligations, minted', i) {
      assert i in b ==> FromObligations(v, obligations, minted, i);
    }
  }

  /** Every licence is one of a maximal joint blind window of a silent rule. */
  ghost predicate SilentMinted(v: Liveness.View, silent: seq<SilentRule>, minted: set<Licence>) {
    forall lc :: lc in minted ==> exists k :: 0 <= k < |silent| && RuleMints(v, silent[k], lc)
  }

  lemma SilentMintedOneMore(v: Liveness.View, silent: seq<SilentRule>, k: nat, a: set<Licence>, b: set<Licence>)
    requires k < |silent| && SilentMinted(v, silent, a) && RuleMinted(v, silent[k], a, b)
    ensures SilentMinted(v, silent, b)
  {
  }

  ghost predicate AllRepresented(v: Liveness.View, silent: seq<SilentRule>, bindings: seq<seq<Binding>>,
                                 minted: set<Licence>, t: Tables, n: nat)
    requires |bindings| == |silent| && n <= |silent|
  {
    forall k :: 0 <= k < n ==> RuleRepresented(v, silent[k], bindings[k], minted, t)
  }

  lemma RuleRepresentedStays(v: Liveness.View, s: SilentRule, bindings: seq<Binding>, minted: set<Licence>, a: Tables,
                             minted': set<Licence>, b: Tables)
    requires RuleRepresented(v, s, bindings, minted, a) && minted <= minted' && Within(a, b)
    ensures RuleRepresented(v, s, bindings, minted', b)
  {
    forall instant | s.sources != [] && Liveness.AllBlindAt(v, s.sources, instant)
      ensures Represented(v, s, bindings, minted', b, instant)
    {
      assert Represented(v, s, bindings, minted, a, instant);
      var w :| Liveness.BlindWindow(v, s.sources, w) && w.Contains(instant)
          && WindowDrawn(v, s, bindings, w, minted, a);
      WindowDrawnStays(v, s, bindings, w, minted, a, minted', b);
    }
  }

  lemma RepresentedStays(v: Liveness.View, silent: seq<SilentRule>, bindings: seq<seq<Binding>>, minted: set<Licence>,
                         a: Tables, n: nat, minted': set<Licence>, b: Tables)
    requires |bindings| == |silent| && n <= |silent| && AllRepresented(v, silent, bindings, minted, a, n)
    requires minted <= minted' && Within(a, b)
    ensures AllRepresented(v, silent, bindings, minted', b, n)
  {
    forall k | 0 <= k < n ensures RuleRepresented(v, silent[k], bindings[k], minted', b) {
      RuleRepresentedStays(v, silent[k], bindings[k], minted, a, minted', b);
    }
  }

  lemma RepresentedOneMore(v: Liveness.View, silent: seq<SilentRule>, bindings: seq<seq<Binding>>,
                           minted: set<Licence>, a: Tables, n: nat, minted': set<Licence>, b: Tables)
    requires |bindings| == |silent| && n < |silent| && AllRepresented(v, silent, bindings, minted, a, n)
    requires minted <= minted' && Within(a, b) && RuleRepresented(v, silent[n], bindings[n], minted', b)
    ensures AllRepresented(v, silent, bindings, minted', b, n + 1)
  {
    RepresentedStays(v, silent, bindings, minted, a, n, minted', b);
  }

  /** One of the first `n` rules draws the fact. */
  ghost predicate AllDraw(v: Liveness.View, silent: seq<SilentRule>, bindings: seq<seq<Binding>>, n: nat, f: Atom)
    requires |bindings| == |silent| && n <= |silent|
  {
    exists k :: 0 <= k < n && RuleDraws(v, silent[k], bindings[k], f)
  }

  /** One of the first `n` rules gives the fact this span. */
  ghost predicate AllGive(v: Liveness.View, silent: seq<SilentRule>, bindings: seq<seq<Binding>>, n: nat, f: Atom,
                          given: Span, known: bool)
    requires |bindings| == |silent| && n <= |silent|
  {
    exists k :: 0 <= k < n
      && RuleGives(v, silent[k], bindings[k], f, given, known || AllDraw(v, silent, bindings, k, f))
  }

  /** The first `n` rules were drawn over every maximal joint blind window of their sources: the base has
      gained just the facts drawn, and the log just the spans given. */
  ghost predicate AllTold(v: Liveness.View, silent: seq<SilentRule>, bindings: seq<seq<Binding>>, n: nat, a: Told,
                          b: Told)
    requires |bindings| == |silent| && n <= |silent|
  {
    && (forall f :: f in b.facts <==> f in a.facts || AllDraw(v, silent, bindings, n, f))
    && forall f, given: Span :: (f, given) in b.log <==>
         (f, given) in a.log || AllGive(v, silent, bindings, n, f, given, f in a.facts)
  }

  lemma {:induction false} AllToldOneMore(v: Liveness.View, silent: seq<SilentRule>, bindings: seq<seq<Binding>>,
                                          n: nat, a: Told, b: Told, c: Told)
    requires |bindings| == |silent| && n < |silent|
    requires AllTold(v, silent, bindings, n, a, b) && RuleTold(v, silent[n], bindings[n], b, c)
    ensures AllTold(v, silent, bindings, n + 1, a, c)
  {
    forall f ensures f in c.facts <==> f in a.facts || AllDraw(v, silent, bindings, n + 1, f) {
      AllDrawOneMore(v, silent, bindings, n, f);
    }
    forall f, given: Span
      ensures (f, given) in c.log
         <==> (f, given) in a.log || AllGive(v, silent, bindings, n + 1, f, given, f in a.facts)
    {
      AllGiveOneMore(v, silent, bindings, n, f, given, f in a.facts);
      assert f in b.facts <==> f in a.facts || AllDraw(v, silent, bindings, n, f);
    }
  }

  lemma AllDrawOneMore(v: Liveness.View, silent: seq<SilentRule>, bindings: seq<seq<Binding>>, n: nat, f: Atom)
    requires |bindings| == |silent| && n < |silent|
    ensures AllDraw(v, silent, bindings, n + 1, f)
       <==> AllDraw(v, silent, bindings, n, f) || RuleDraws(v, silent[n], bindings[n], f)
  {
  }

  lemma AllGiveOneMore(v: Liveness.View, silent: seq<SilentRule>, bindings: seq<seq<Binding>>, n: nat, f: Atom,
                       given: Span, known: bool)
    requires |bindings| == |silent| && n < |silent|
    ensures AllGive(v, silent, bindings, n + 1, f, given, known)
       <==> AllGive(v, silent, bindings, n, f, given, known)
            || RuleGives(v, silent[n], bindings[n], f, given, known || AllDraw(v, silent, bindings, n, f))
  {
  }

  /** Every span logged is that of a maximal joint blind window of a rule that draws its fact. */
  ghost predicate SilentSpans(v: Liveness.View, silent: seq<SilentRule>, bindings: seq<seq<Binding>>,
                              log: set<(Atom, Span)>)
    requires |bindings| == |silent|
  {
    forall f, given: Span :: (f, given) in log ==>
      exists k :: 0 <= k < |silent| && RuleSpan(v, silent[k], bindings[k], f, given)
  }

  lemma SilentSpansOneMore(v: Liveness.View, silent: seq<SilentRule>, bindings: seq<seq<Binding>>, n: nat,
                           a: set<(Atom, Span)>, b: set<(Atom, Span)>)
    requires |bindings| == |silent| && n < |silent|
    requires SilentSpans(v, silent, bindings, a) && RuleSpans(v, silent[n], bindings[n], a, b)
    ensures SilentSpans(v, silent, bindings, b)
  {
  }

  method AddAllSilent(e: Engine, v: Liveness.View, silent: seq<SilentRule>, bindings: seq<seq<Binding>>, maxSilent: nat)
    returns (minted: set<Licence>, counter: nat, faulty: bool)
    requires e.Valid() && Liveness.ViewOrdered(v) && |bindings| == |silent| && e.log == {}
    modifies e`facts, e`byPred, e`delta, e`capped, e`detail, e`instances, e`licensed, e`ghosts, e`spans, e`log
    ensures e.Valid() && Advances(old(TablesOf(e)), 0, TablesOf(e), counter, maxSilent)
    ensures Genuine(v, minted) && SilentMinted(v, silent, minted)
    ensures AllFromSilent(v, silent, bindings, minted, old(e.instances), e.instances)
    ensures faulty ==> exists k :: 0 <= k < |silent| && SilentFaulty(v, silent[k])
    ensures !e.capped && !faulty ==> AllRepresented(v, silent, bindings, minted, TablesOf(e), |silent|)
    ensures !e.capped && !faulty ==> AllTold(v, silent, bindings, |silent|, old(ToldOf(e)), ToldOf(e))
    ensures SilentSpans(v, silent, bindings, e.log)
  {
    minted, counter, faulty := {}, 0, false;
    ghost var from, told := TablesOf(e), ToldOf(e);
    for k := 0 to |silent|
      invariant e.Valid() && Advances(from, 0, TablesOf(e), counter, maxSilent)
      invariant Genuine(v, minted) && !faulty && SilentMinted(v, silent, minted)
      invariant AllFromSilent(v, silent, bindings, minted, from.instances, e.instances)
      invariant !e.capped ==> AllRepresented(v, silent, bindings, minted, TablesOf(e), k)
      invariant !e.capped ==> AllTold(v, silent, bindings, k, told, ToldOf(e))
      invariant SilentSpans(v, silent, bindings, e.log)
    {
      ghost var before, n, mintedBefore, toldBefore := TablesOf(e), counter, minted, ToldOf(e);
      minted, counter, faulty := AddSilentDetect(e, v, silent[k], bindings[k], minted, counter, maxSilent);
      AdvancesComposes(from, 0, before, n, TablesOf(e), counter, maxSilent);
      FromSilentComposes(v, silent, bindings, mintedBefore, minted, k, from.instances, before.instances, e.instances);
      SilentSpansOneMore(v, silent, bindings, k, toldBefore.log, e.log);
      SilentMintedOneMore(v, silent, k, mintedBefore, minted);
      if faulty {
        return;
      }
      if !e.capped {
        RepresentedOneMore(v, silent, bindings, mintedBefore, before, k, minted, TablesOf(e));
        AllToldOneMore(v, silent, bindings, k, told, toldBefore, ToldOf(e));
      }
    }
  }

  /** Every obligation up to the `n`-th is settled for every fact of `from`. */
  ghost predicate ObligationsSettled(v: Liveness.View, obligations: seq<Obligation>, from: set<Atom>,
                                     facts: set<Atom>, spots: seq<BlindSpot>, n: nat)
    requires n <= |obligations|
  {
    forall k :: 0 <= k < n ==> AllSettled(v, obligations[k], from, facts, spots)
  }

  ghost predicate SpotsDue(v: Liveness.View, obligations: seq<Obligation>, seen: set<Atom>, before: set<Atom>,
                           spots: seq<BlindSpot>)
  {
    forall spot :: spot in spots ==>
      exists k :: 0 <= k < |obligations| && SpotDue(v, obligations[k], seen, before, spot)
  }

  lemma SettledStays(v: Liveness.View, obligations: seq<Obligation>, from: set<Atom>, a: set<Atom>,
                     spots: seq<BlindSpot>, n: nat, b: set<Atom>, more: seq<BlindSpot>, wider: set<Atom>)
    requires n < |obligations| && ObligationsSettled(v, obligations, from, a, spots, n) && a <= b && from <= wider
    requires AllSettled(v, obligations[n], wider, b, more)
    ensures ObligationsSettled(v, obligations, from, b, spots + more, n + 1)
  {
    forall k, f | 0 <= k < n + 1 && f in from ensures Settled(v, obligations[k], f, b, spots + more) {
      if k < n {
        assert AllSettled(v, obligations[k], from, a, spots);
        assert Settled(v, obligations[k], f, a, spots);
      } else {
        assert Settled(v, obligations[k], f, b, more);
      }
    }
  }

  lemma SpotsStayDue(v: Liveness.View, obligations: seq<Obligation>, seen: set<Atom>, before: set<Atom>,
                     spots: seq<BlindSpot>, n: nat, before': set<Atom>, more: seq<BlindSpot>, wider: set<Atom>)
    requires n < |obligations| && SpotsDue(v, obligations, seen, before, spots)
    requires OnlyDue(v, obligations[n], before', more)
    requires before <= before' <= wider && seen <= wider
    ensures SpotsDue(v, obligations, wider, before, spots + more)
  {
    forall spot | spot in spots + more
      ensures exists k :: 0 <= k < |obligations| && SpotDue(v, obligations[k], wider, before, spot)
    {
      if spot in spots {
        var k :| 0 <= k < |obligations| && SpotDue(v, obligations[k], seen, before, spot);
        assert SpotDue(v, obligations[k], wider, before, spot);
      } else {
        assert SpotDue(v, obligations[n], wider, before, spot);
      }
    }
  }

  /** Every further licence is one of the lookback of a trigger whose head was absent. */
  ghost predicate ObligationsMinted(v: Liveness.View, obligations: seq<Obligation>, seen: set<Atom>,
                                    before: set<Atom>, a: set<Licence>, b: set<Licence>)
  {
    forall lc :: lc in b && lc !in a ==>
      exists k :: 0 <= k < |obligations| && ObligationMints(v, obligations[k], seen, before, lc)
  }

  lemma ObligationsMintedMore(v: Liveness.View, obligations: seq<Obligation>, seen: set<Atom>, before: set<Atom>,
                              n: nat, now: set<Atom>, wider: set<Atom>, a: set<Licence>, b: set<Licence>,
                              c: set<Licence>)
    requires ObligationsMinted(v, obligations, seen, before, a, b) && n < |obligations|
    requires ObligationMinted(v, obligations[n], now, now, b, c) && before <= now <= wider && seen <= wider
    ensures ObligationsMinted(v, obligations, wider, before, a, c)
  {
    forall lc | lc in c && lc !in a
      ensures exists k :: 0 <= k < |obligations| && ObligationMints(v, obligations[k], wider, before, lc)
    {
      if lc in b {
        var k :| 0 <= k < |obligations| && ObligationMints(v, obligations[k], seen, before, lc);
        MintsSeenMore(v, obligations[k], seen, before, wider, before, lc);
      } else {
        MintsSeenMore(v, obligations[n], now, now, wider, before, lc);
      }
    }
  }

  lemma MintsSeenMore(v: Liveness.View, o: Obligation, seen: set<Atom>, now: set<Atom>, wider: set<Atom>,
                      before: set<Atom>, lc: Licence)
    requires ObligationMints(v, o, seen, now, lc) && seen <= wider && before <= now
    ensures ObligationMints(v, o, wider, before, lc)
  {
    var f :| f in seen && TriggerMints(v, o, f, now, lc);
    assert TriggerMints(v, o, f, before, lc);
  }

  ghost predicate ObligationFault(v: Liveness.View, obligations: seq<Obligation>, facts: set<Atom>, fault: Fault) {
    exists k, f :: 0 <= k < |obligations| && f in facts && FaultDue(v, obligations[k], f, fault)
  }

  method AddAllObligations(e: Engine, v: Liveness.View, obligations: seq<Obligation>, minted: set<Licence>,
                           counter: nat, maxSilent: nat)
    returns (minted': set<Licence>, counter': nat, spots: seq<BlindSpot>, fault: Option<Fault>)
    requires e.Valid() && Liveness.ViewOrdered(v) && Genuine(v, minted)
    modifies e`facts, e`byPred, e`delta, e`capped, e`detail, e`instances, e`licensed, e`ghosts
    ensures e.Valid() && Advances(old(TablesOf(e)), counter, TablesOf(e), counter', maxSilent)
    ensures minted <= minted' && Genuine(v, minted')
    ensures AllFromObligations(v, obligations, minted', old(e.instances), e.instances)
    ensures fault.Some? ==> ObligationFault(v, obligations, e.facts, fault.value)
    ensures !e.capped && fault.None? ==> ObligationsSettled(v, obligations, old(e.facts), e.facts, spots, |obligations|)
    ensures SpotsDue(v, obligations, e.facts, old(e.facts), spots)
    ensures ObligationsMinted(v, obligations, e.facts, old(e.facts), minted, minted')
  {
    minted', counter', spots, fault := minted, counter, [], None;
    ghost var from := TablesOf(e);
    for k := 0 to |obligations|
      invariant e.Valid() && Advances(from, counter, TablesOf(e), counter', maxSilent)
      invariant minted <= minted' && Genuine(v, minted') && fault.None?
      invariant AllFromObligations(v, obligations, minted', from.instances, e.instances)
      invariant !e.capped ==> ObligationsSettled(v, obligations, from.facts, e.facts, spots, k)
      invariant SpotsDue(v, obligations, e.facts, from.facts, spots)
      invariant ObligationsMinted(v, obligations, e.facts, from.facts, minted, minted')
    {
      ghost var before, n, mintedBefore := TablesOf(e), counter', minted';
      var more;
      minted', counter', more, fault := AddObligation(e, v, obligations[k], minted', counter', maxSilent);
      AdvancesComposes(from, counter, before, n, TablesOf(e), counter', maxSilent);
      FromObligationsComposes(v, obligations, mintedBefore, minted', k, from.instances, before.instances, e.instances);
      if !e.capped && fault.None? {
        SettledStays(v, obligations, from.facts, before.facts, spots, k, e.facts, more, before.facts);
      }
      SpotsStayDue(v, obligations, before.facts, from.facts, spots, k, before.facts, more, e.facts);
      ObligationsMintedMore(v, obligations, before.facts, from.facts, k, before.facts, e.facts, minted, mintedBefore,
                            minted');
      spots := spots + more;
      if fault.Some? {
        return;
      }
    }
  }

  // ---------------------------------------------------------------------------
  // The stage
  // ---------------------------------------------------------------------------

  /** What the later steps of the stage found: the contexts of the two further saturations, the tables
      between the steps and the log of the spans given. */
  datatype Stages = Stages(second: Context, third: Context, silent: Tables, middle: Tables, forced: Tables,
                           log: set<(Atom, Span)>)

  /** Where an instance of the upper program comes from beyond the lower one: it is silent, or
      forced, under minted licences, or the firing of a rule over the upper facts in one of the
      two further saturations. */
  ghost predicate Accounted(v: Liveness.View, silent: seq<SilentRule>, bindings: seq<seq<Binding>>,
                            obligations: seq<Obligation>, minted: set<Licence>, run: Stages, facts: set<Atom>,
                            i: GroundInstance)
    requires |bindings| == |silent| && RulesOk(run.second.rules) && RulesOk(run.third.rules)
  {
    || FromSilent(v, silent, bindings, minted, i)
    || FromObligations(v, obligations, minted, i)
    || (i.observed && i.licences == {}
          && (Stratified(run.second.rules) ==> IsFiring(run.second, facts, i) || IsFiring(run.third, facts, i)))
  }

  /** The four steps between the lower tables and the upper ones. */
  ghost predicate Staged(v: Liveness.View, silent: seq<SilentRule>, bindings: seq<seq<Binding>>,
                         obligations: seq<Obligation>, minted: set<Licence>, run: Stages, lower: Tables,
                         upper: Tables)
    requires |bindings| == |silent|
  {
    && RulesOk(run.second.rules) && run.second.rules == run.third.rules
    && Within(lower, run.silent) && AllFromSilent(v, silent, bindings, minted, lower.instances, run.silent.instances)
    && Resaturated(run.second, run.silent, run.middle) && Within(run.middle, run.forced)
    && AllFromObligations(v, obligations, minted, run.middle.instances, run.forced.instances)
    && Resaturated(run.third, run.forced, upper) && SpansSnapped(v, silent, bindings, run)
  }

  /** A further saturation, from one table to another. */
  ghost predicate Resaturated(c: Context, a: Tables, b: Tables)
    requires RulesOk(c.rules)
  {
    c.base == a.facts && TimeFree(c.snap.timeFree, a.instances)
    && SoundGrowth(c, a.facts, a.instances, b.facts, b.instances)
  }

  /** Both further saturations see the hull of the spans given for each fact, and those are the spans
      of blind windows that draw it. */
  ghost predicate SpansSnapped(v: Liveness.View, silent: seq<SilentRule>, bindings: seq<seq<Binding>>, run: Stages)
    requires |bindings| == |silent|
  {
    && Hulls(run.second.snap.spans, run.log) && Hulls(run.third.snap.spans, run.log)
    && SilentSpans(v, silent, bindings, run.log)
  }

  lemma FiringOverMore(c: Context, facts: set<Atom>, more: set<Atom>, i: GroundInstance)
    requires RulesOk(c.rules) && IsFiring(c, facts, i) && facts <= more
    ensures IsFiring(c, more, i)
  {
    var r, chosen :| 0 <= r < |c.rules| && Over(chosen, facts) && Firing(c, r, chosen) == Some(i);
    assert Over(chosen, more);
  }

  /** The upper program contains the lower one and every further instance is accounted for. */
  lemma StagedIsAccounted(v: Liveness.View, silent: seq<SilentRule>, bindings: seq<seq<Binding>>,
                          obligations: seq<Obligation>, minted: set<Licence>, run: Stages, lower: Tables,
                          upper: Tables)
    requires |bindings| == |silent| && Staged(v, silent, bindings, obligations, minted, run, lower, upper)
    ensures Within(lower, upper)
    ensures forall i :: i in upper.instances && i !in lower.instances ==>
              Accounted(v, silent, bindings, obligations, minted, run, upper.facts, i)
  {
    forall i | i in upper.instances && i !in lower.instances
      ensures Accounted(v, silent, bindings, obligations, minted, run, upper.facts, i)
    {
      if i in run.silent.instances {
        assert FromSilent(v, silent, bindings, minted, i);
      } else if i in run.middle.instances {
        if Stratified(run.second.rules) {
          FiringOverMore(run.second, run.middle.facts, upper.facts, i);
        }
      } else if i in run.forced.instances {
        assert FromObligations(v, obligations, minted, i);
      }
    }
  }

  /** Every tuple over the upper facts that is not wholly over the lower ones has been joined:
      over the facts the obligations found, by the second saturation, else by the third. */
  ghost predicate Joins(run: Stages, lower: Tables, upper: Tables)
    requires RulesOk(run.second.rules) && RulesOk(run.third.rules)
  {
    && AllDoneBeyond(run.second, upper.facts, upper.instances, lower.facts, run.middle.facts)
    && AllDoneBeyond(run.third, upper.facts, upper.instances, run.middle.facts, upper.facts)
  }

  lemma DoneBeyondStays(c: Context, a: Tables, b: Tables, settled: set<Atom>, from: set<Atom>)
    requires RulesOk(c.rules) && Within(a, b) && AllDoneBeyond(c, a.facts, a.instances, settled, from)
    ensures AllDoneBeyond(c, b.facts, b.instances, settled, from)
  {
    forall r, chosen | 0 <= r < |c.rules| && Over(chosen, from) && !Over(chosen, settled)
      ensures Done(c, b.facts, b.instances, r, chosen)
    {
      assert Done(c, a.facts, a.instances, r, chosen);
    }
  }

  /** A saturation after licensed additions: it joins what they brought. */
  method Resaturate(e: Engine, ghost settled: Tables) returns (ghost c: Context)
    requires e.Valid() && RulesOk(e.rules) && Extended(settled, TablesOf(e))
    requires settled.cap == NoCap ==> settled.delta == []
    modifies e
    ensures e.Valid() && e.events == old(e.events) && e.log == old(e.log)
    ensures c.rules == e.rules && c.base == old(e.facts) && c.events == e.events
    ensures Hulls(c.snap.spans, e.log)
    ensures Resaturated(c, old(TablesOf(e)), TablesOf(e))
    ensures CapKept(old(e.detail), e.detail) && (!e.capped ==> e.delta == [])
    ensures e.Complete() ==> AllDoneBeyond(c, e.facts, e.instances, settled.facts, e.facts)
  {
    ghost var brought := TablesOf(e);
    c := e.Saturate();
    if e.Complete() {
      assert brought.facts - Elements(brought.delta) == settled.facts;
    }
  }

  /** Every published licence is one of a silent rule's blind window or of an unmet trigger's lookback. */
  ghost predicate MintedFor(v: Liveness.View, silent: seq<SilentRule>, obligations: seq<Obligation>, seen: set<Atom>,
                            before: set<Atom>, minted: set<Licence>)
  {
    exists early :: early <= minted && SilentMinted(v, silent, early)
      && ObligationsMinted(v, obligations, seen, before, early, minted)
  }

  lemma MintedSeenMore(v: Liveness.View, silent: seq<SilentRule>, obligations: seq<Obligation>, seen: set<Atom>,
                       before: set<Atom>, early: set<Licence>, minted: set<Licence>, wider: set<Atom>)
    requires early <= minted && SilentMinted(v, silent, early) && seen <= wider
    requires ObligationsMinted(v, obligations, seen, before, early, minted)
    ensures MintedFor(v, silent, obligations, wider, before, minted)
  {
    forall lc | lc in minted && lc !in early
      ensures exists k :: 0 <= k < |obligations| && ObligationMints(v, obligations[k], wider, before, lc)
    {
      var k :| 0 <= k < |obligations| && ObligationMints(v, obligations[k], seen, before, lc);
      MintsSeenMore(v, obligations[k], seen, before, wider, before, lc);
    }
    assert ObligationsMinted(v, obligations, wider, before, early, minted);
  }

  /** What is published beside the program: licences for time their source was blind, each due to a blind
      window or an unmet trigger, and the blind spots that are due. */
  ghost predicate Announced(v: Liveness.View, silent: seq<SilentRule>, obligations: seq<Obligation>, seen: set<Atom>,
                            before: set<Atom>, minted: set<Licence>, spots: seq<BlindSpot>)
  {
    && Genuine(v, minted) && MintedFor(v, silent, obligations, seen, before, minted)
    && SpotsDue(v, obligations, seen, before, spots)
  }

  /** Why the stage can raise a schema error. */
  ghost predicate FaultExplained(v: Liveness.View, silent: seq<SilentRule>, obligations: seq<Obligation>,
                                 facts: set<Atom>, fault: Fault)
  {
    || (fault == WitnessMissing && exists k :: 0 <= k < |silent| && SilentFaulty(v, silent[k]))
    || ObligationFault(v, obligations, facts, fault)
  }

  /** Uncapped, every rule was drawn over every joint blind window, with just the spans that gives, and
      every obligation is settled for the facts before the obligations. */
  ghost predicate DrawnOut(v: Liveness.View, silent: seq<SilentRule>, bindings: seq<seq<Binding>>,
                           obligations: seq<Obligation>, minted: set<Licence>, run: Stages, lower: Tables,
                           upper: Tables, spots: seq<BlindSpot>)
    requires |bindings| == |silent|
  {
    && AllRepresented(v, silent, bindings, minted, upper, |silent|)
    && AllTold(v, silent, bindings, |silent|, Told(lower.facts, {}), Told(run.silent.facts, run.log))
    && ObligationsSettled(v, obligations, run.middle.facts, upper.facts, spots, |obligations|)
  }

  /** What holds after the silent instances were added and the engine saturated again. */
  ghost predicate Halfway(v: Liveness.View, silent: seq<SilentRule>, bindings: seq<seq<Binding>>,
                          early: set<Licence>, run: Stages, lower: Tables, count: nat, maxSilent: nat)
    requires |bindings| == |silent|
  {
    && RulesOk(run.second.rules) && Genuine(v, early) && SilentMinted(v, silent, early)
    && Within(lower, run.silent) && AllFromSilent(v, silent, bindings, early, lower.instances, run.silent.instances)
    && Resaturated(run.second, run.silent, run.middle)
    && Hulls(run.second.snap.spans, run.log) && SilentSpans(v, silent, bindings, run.log)
    && SilentPaid(lower, run, count, maxSilent) && (run.middle.cap == NoCap ==> run.middle.delta == [])
    && (run.middle.cap == NoCap ==> HalfDrawn(v, silent, bindings, early, run, lower))
    && (run.middle.cap == NoCap && Stratified(run.second.rules) ==>
          AllDoneBeyond(run.second, run.middle.facts, run.middle.instances, lower.facts, run.middle.facts))
  }

  ghost predicate HalfDrawn(v: Liveness.View, silent: seq<SilentRule>, bindings: seq<seq<Binding>>,
                            early: set<Licence>, run: Stages, lower: Tables)
    requires |bindings| == |silent|
  {
    && AllRepresented(v, silent, bindings, early, run.silent, |silent|)
    && AllTold(v, silent, bindings, |silent|, Told(lower.facts, {}), Told(run.silent.facts, run.log))
  }

  ghost predicate SilentPaid(lower: Tables, run: Stages, count: nat, maxSilent: nat) {
    && Advances(lower, 0, run.silent, count, maxSilent) && Within(run.silent, run.middle)
    && CapKept(run.silent.cap, run.middle.cap) && lower.cap != SilentCap
  }

  /** The stage as far as the second saturation. */
  method DrawSilent(e: Engine, v: Liveness.View, silent: seq<SilentRule>, bindings: seq<seq<Binding>>, maxSilent: nat)
    returns (early: set<Licence>, count: nat, faulty: bool, ghost run: Stages)
    requires e.Valid() && RulesOk(e.rules) && Liveness.ViewOrdered(v) && |bindings| == |silent| && e.log == {}
    requires e.detail != SilentCap && (!e.capped ==> e.delta == [])
    modifies e
    ensures e.Valid() && e.events == old(e.events) && Genuine(v, early) && SilentMinted(v, silent, early)
    ensures run.second.rules == run.third.rules == e.rules && run.second.events == run.third.events == e.events
    ensures run.middle == TablesOf(e) && run.log == e.log && (old(e.capped) ==> e.capped)
    ensures faulty ==> exists k :: 0 <= k < |silent| && SilentFaulty(v, silent[k])
    ensures faulty ==> e.detail == SilentCap ==> |e.instances| >= |old(e.instances)| + maxSilent
    ensures !faulty ==> Halfway(v, silent, bindings, early, run, old(TablesOf(e)), count, maxSilent)
  {
    ghost var lower := TablesOf(e);
    early, count, faulty := AddAllSilent(e, v, silent, bindings, maxSilent);
    ghost var drawn := TablesOf(e);
    if faulty {
      ghost var none := Context(e.rules, e.facts, Snapshot({}, map[]), e.events);
      run := Stages(none, none, drawn, drawn, drawn, e.log);
      return;
    }
    ghost var second := Resaturate(e, lower);
    run := Stages(second, second, drawn, TablesOf(e), TablesOf(e), e.log);
    assert SilentPaid(lower, run, count, maxSilent);
    assert run.middle.cap == NoCap ==> HalfDrawn(v, silent, bindings, early, run, lower);
  }

  lemma HalfIsStaged(v: Liveness.View, silent: seq<SilentRule>, bindings: seq<seq<Binding>>,
                     obligations: seq<Obligation>, early: set<Licence>, minted: set<Licence>, half: Stages,
                     run: Stages, lower: Tables, upper: Tables, count: nat, maxSilent: nat)
    requires |bindings| == |silent| && Halfway(v, silent, bindings, early, half, lower, count, maxSilent)
    requires run == half.(third := run.third, forced := run.forced) && early <= minted
    requires RulesOk(run.third.rules) && run.third.rules == half.second.rules && Within(half.middle, run.forced)
    requires AllFromObligations(v, obligations, minted, half.middle.instances, run.forced.instances)
    requires Resaturated(run.third, run.forced, upper)
    requires Hulls(run.third.snap.spans, run.log)
    ensures Staged(v, silent, bindings, obligations, minted, run, lower, upper)
  {
    FromSilentStays(v, silent, bindings, early, minted, lower.instances, half.silent.instances);
  }

  lemma HalfIsDrawnOut(v: Liveness.View, silent: seq<SilentRule>, bindings: seq<seq<Binding>>,
                       obligations: seq<Obligation>, early: set<Licence>, minted: set<Licence>, half: Stages,
                       run: Stages, lower: Tables, upper: Tables, spots: seq<BlindSpot>)
    requires |bindings| == |silent| && HalfDrawn(v, silent, bindings, early, half, lower) && early <= minted
    requires run == half.(third := run.third, forced := run.forced) && Within(half.silent, upper)
    requires ObligationsSettled(v, obligations, run.middle.facts, upper.facts, spots, |obligations|)
    ensures DrawnOut(v, silent, bindings, obligations, minted, run, lower, upper, spots)
  {
    RepresentedStays(v, silent, bindings, early, half.silent, |silent|, minted, upper);
  }

  /** The rest of the stage: the obligations, and the third saturation. */
  method ForceObligations(e: Engine, v: Liveness.View, silent: seq<SilentRule>, bindings: seq<seq<Binding>>,
                          obligations: seq<Obligation>, early: set<Licence>, count: nat, maxSilent: nat,
                          ghost lower: Tables, ghost half: Stages)
    returns (minted: set<Licence>, spots: seq<BlindSpot>, fault: Option<Fault>, ghost run: Stages)
    requires e.Valid() && RulesOk(e.rules) && Liveness.ViewOrdered(v) && |bindings| == |silent|
    requires half.middle == TablesOf(e) && half.log == e.log && half.second.rules == e.rules
    requires half.second.events == e.events
    requires Halfway(v, silent, bindings, early, half, lower, count, maxSilent)
    modifies e
    ensures e.Valid() && e.events == old(e.events)
    ensures run.third.rules == e.rules && run.third.events == e.events
    ensures run.second == half.second && run.middle == half.middle && (old(e.capped) ==> e.capped)
    ensures fault.Some? ==> ObligationFault(v, obligations, e.facts, fault.value)
    ensures fault.None? ==> Staged(v, silent, bindings, obligations, minted, run, lower, TablesOf(e))
    ensures Announced(v, silent, obligations, e.facts, run.middle.facts, minted, spots)
    ensures fault.None? && !e.capped ==>
              DrawnOut(v, silent, bindings, obligations, minted, run, lower, TablesOf(e), spots)
    ensures fault.None? && e.Complete() ==> Joins(run, lower, TablesOf(e))
    ensures e.detail == SilentCap ==> |e.instances| >= |lower.instances| + maxSilent
  {
    var total;
    minted, total, spots, fault := AddAllObligations(e, v, obligations, early, count, maxSilent);
    ghost var forced := TablesOf(e);
    if fault.Some? {
      run := Stages(half.second, half.second, half.silent, half.middle, forced, half.log);
      MintedSeenMore(v, silent, obligations, forced.facts, half.middle.facts, early, minted, forced.facts);
      SilentCapIsDue(lower, half.silent, half.middle, forced, forced, count, total, maxSilent);
      return;
    }
    ghost var third := Resaturate(e, half.middle);
    run := Stages(half.second, third, half.silent, half.middle, forced, half.log);
    HalfIsStaged(v, silent, bindings, obligations, early, minted, half, run, lower, TablesOf(e), count, maxSilent);
    SilentCapIsDue(lower, half.silent, half.middle, forced, TablesOf(e), count, total, maxSilent);
    SpotsSeenMore(v, obligations, forced.facts, half.middle.facts, spots, e.facts);
    MintedSeenMore(v, silent, obligations, forced.facts, half.middle.facts, early, minted, e.facts);
    if !e.capped {
      SettledMore(v, obligations, half.middle.facts, forced.facts, spots, e.facts);
      HalfIsDrawnOut(v, silent, bindings, obligations, early, minted, half, run, lower, TablesOf(e), spots);
    }
    if e.Complete() {
      DoneBeyondStays(half.second, half.middle, TablesOf(e), lower.facts, half.middle.facts);
    }
  }

  /** `envelope`: saturate the observed program, add the silent instances, saturate, add the
      obligations, saturate. What the first saturation held stays, every further instance is
      accounted for, and a cap is reported only where it is due. Uncapped, every jointly blind
      instant is represented and every obligation settled for the facts before the obligations;
      stratified too, the lower tables are the least fixpoint and every further tuple is joined. */
  method RunEnvelope(rules: seq<Rule>, order: Atom -> nat, maxFacts: nat, maxInstances: nat, maxIterations: nat,
                     records: seq<(nat, Atom)>, v: Liveness.View, silent: seq<SilentRule>,
                     bindings: seq<seq<Binding>>, obligations: seq<Obligation>, maxSilent: nat)
    returns (e: Engine, lower: Tables, minted: set<Licence>, spots: seq<BlindSpot>, fault: Option<Fault>,
             ghost c: Context, ghost run: Stages)
    requires RulesOk(rules) && Liveness.ViewOrdered(v) && |bindings| == |silent|
    ensures e.Valid() && e.rules == rules && c.rules == rules && run.second.rules == rules && run.third.rules == rules
    ensures fault.Some? ==> FaultExplained(v, silent, obligations, e.facts, fault.value)
    ensures run.second.events == c.events && run.third.events == c.events
    ensures fault.None? ==> Staged(v, silent, bindings, obligations, minted, run, lower, TablesOf(e))
    ensures fault.None? ==> Within(lower, TablesOf(e))
    ensures fault.None? ==> forall i :: i in e.instances && i !in lower.instances ==>
              Accounted(v, silent, bindings, obligations, minted, run, e.facts, i)
    ensures Announced(v, silent, obligations, e.facts, run.middle.facts, minted, spots)
    ensures fault.None? && !e.capped ==>
              DrawnOut(v, silent, bindings, obligations, minted, run, lower, TablesOf(e), spots)
    ensures Recorded(records, c.events) && c.snap == Snapshot({}, map[])
    ensures e.Complete() ==>
              c.base == c.events.Keys && LeastFixpoint(c, lower.facts)
              && ExactInstances(c, lower.facts, lower.instances)
    ensures fault.None? && e.Complete() ==> Joins(run, lower, TablesOf(e))
    ensures e.detail == SilentCap ==> |e.instances| >= |lower.instances| + maxSilent
  {
    e, c := Ground(rules, order, maxFacts, maxInstances, maxIterations, records);
    lower, spots, fault := Tables(e.facts, e.instances, e.delta, e.detail), [], None;
    var early, count, faulty;
    early, count, faulty, run := DrawSilent(e, v, silent, bindings, maxSilent);
    if faulty {
      minted, fault := early, Some(WitnessMissing);
      MintedSeenMore(v, silent, obligations, e.facts, e.facts, early, early, e.facts);
      return;
    }
    minted, spots, fault, run :=
      ForceObligations(e, v, silent, bindings, obligations, early, count, maxSilent, lower, run);
    if fault.None? {
      StagedIsAccounted(v, silent, bindings, obligations, minted, run, lower, TablesOf(e));
    }
  }

  lemma FromSilentStays(v: Liveness.View, silent: seq<SilentRule>, bindings: seq<seq<Binding>>, minted: set<Licence>,
                        minted': set<Licence>, a: set<GroundInstance>, b: set<GroundInstance>)
    requires |bindings| == |silent| && minted <= minted' && AllFromSilent(v, silent, bindings, minted, a, b)
    ensures AllFromSilent(v, silent, bindings, minted', a, b)
  {
    forall i | i in b && i !in a ensures FromSilent(v, silent, bindings, minted', i) {
      assert FromSilent(v, silent, bindings, minted, i);
    }
  }

  lemma SpotsSeenMore(v: Liveness.View, obligations: seq<Obligation>, seen: set<Atom>, before: set<Atom>,
                      spots: seq<BlindSpot>, wider: set<Atom>)
    requires SpotsDue(v, obligations, seen, before, spots) && seen <= wider
    ensures SpotsDue(v, obligations, wider, before, spots)
  {
    forall spot | spot in spots
      ensures exists k :: 0 <= k < |obligations| && SpotDue(v, obligations[k], wider, before, spot)
    {
      var k :| 0 <= k < |obligations| && SpotDue(v, obligations[k], seen, before, spot);
      assert SpotDue(v, obligations[k], wider, before, spot);
    }
  }

  lemma SettledMore(v: Liveness.View, obligations: seq<Obligation>, from: set<Atom>, a: set<Atom>,
                    spots: seq<BlindSpot>, b: set<Atom>)
    requires ObligationsSettled(v, obligations, from, a, spots, |obligations|) && a <= b
    ensures ObligationsSettled(v, obligations, from, b, spots, |obligations|)
  {
    forall k, f | 0 <= k < |obligations| && f in from ensures Settled(v, obligations[k], f, b, spots) {
      assert AllSettled(v, obligations[k], from, a, spots);
    }
  }

  /** The cap on silent instances is recorded only after that many were added. */
  lemma SilentCapIsDue(lower: Tables, drawn: Tables, middle: Tables, forced: Tables, upper: Tables, count: nat,
                       total: nat, maxSilent: nat)
    requires Advances(lower, 0, drawn, count, maxSilent) && Within(drawn, middle) && CapKept(drawn.cap, middle.cap)
    requires Advances(middle, count, forced, total, maxSilent) && Within(forced, upper)
    requires CapKept(forced.cap, upper.cap)
    requires lower.cap != SilentCap
    ensures upper.cap == SilentCap ==> |upper.instances| >= |lower.instances| + maxSilent
  {
    SubsetSize(drawn.instances, middle.instances);
    SubsetSize(forced.instances, upper.instances);
  }
}
