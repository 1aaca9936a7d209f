/** What the envelope's instances and spans mean, told apart from how they are computed: the facts a silent
    or a forced instance speaks of (envelope.py), and the ticks in which an unobserved step may have happened,
    which is what a sequence compares (ground.py, `seq_feasible` and `_tick_range`).
 */
module SilentMeaning {
  import opened Wrappers
  import opened Licences
  import opened Grounding
  import opened Firings
  import opened Saturation
  import opened Envelope
  import Liveness

  // ---------------------------------------------------------------------------
  // The facts an instance speaks of
  // ---------------------------------------------------------------------------

  ghost predicate NamesArgs(b: Binding, vars: seq<nat>, args: seq<nat>) {
    |vars| == |args| && forall k :: 0 <= k < |vars| ==> vars[k] in b && b[vars[k]] == args[k]
  }

  /** The pattern under the binding, at the tick, is the fact. */
  ghost predicate Names(b: Binding, p: Pattern, tick: nat, f: Atom) {
    f.pred == p.pred && f.tick == tick && NamesArgs(b, p.entityVars, f.args)
  }

  lemma {:induction false} BoundArgsMeans(vars: seq<nat>, b: Binding, args: seq<nat>)
    ensures BoundArgs(vars, b) == Some(args) <==> NamesArgs(b, vars, args)
    decreases |vars|
  {
    if vars != [] && args != [] {
      BoundArgsMeans(vars[1..], b, args[1..]);
      assert args == [args[0]] + args[1..];
      if |vars| == |args| && NamesArgs(b, vars[1..], args[1..]) && vars[0] in b && b[vars[0]] == args[0] {
        forall k | 0 <= k < |vars| ensures vars[k] in b && b[vars[k]] == args[k] {
          if k > 0 {
            assert vars[1..][k - 1] == vars[k] && args[1..][k - 1] == args[k];
          }
        }
      }
    }
  }

  lemma BoundAtomMeans(p: Pattern, b: Binding, tick: nat, f: Atom)
    ensures BoundAtom(p, b, tick) == Some(f) <==> Names(b, p, tick, f)
  {
    BoundArgsMeans(p.entityVars, b, f.args);
  }

  ghost predicate NamesAll(b: Binding, patterns: seq<Pattern>, tick: nat, facts: seq<Atom>) {
    |patterns| == |facts| && forall k :: 0 <= k < |patterns| ==> Names(b, patterns[k], tick, facts[k])
  }

  lemma {:induction false} BoundBodyMeans(patterns: seq<Pattern>, b: Binding, tick: nat, facts: seq<Atom>)
    ensures BoundBody(patterns, b, tick) == Some(facts) <==> NamesAll(b, patterns, tick, facts)
    decreases |patterns|
  {
    if patterns != [] && facts != [] {
      BoundAtomMeans(patterns[0], b, tick, facts[0]);
      BoundBodyMeans(patterns[1..], b, tick, facts[1..]);
      assert facts == [facts[0]] + facts[1..];
      if |patterns| == |facts| && Names(b, patterns[0], tick, facts[0])
         && NamesAll(b, patterns[1..], tick, facts[1..]) {
        forall k | 0 <= k < |patterns| ensures Names(b, patterns[k], tick, facts[k]) {
          if k > 0 {
            assert patterns[1..][k - 1] == patterns[k] && facts[1..][k - 1] == facts[k];
          }
        }
      }
    }
  }

  /** A silent instance is the rule under the binding at the window's first tick: every body pattern and
      the head pattern name their facts, and it is licensed and unobserved, with no evidence. */
  ghost predicate IsDetect(s: SilentRule, w: Interval, licences: set<Licence>, b: Binding, i: GroundInstance) {
    && NamesAll(b, s.rule.body, TickOf(w.t0), i.body) && Names(b, s.rule.head, TickOf(w.t0), i.head)
    && i == GroundInstance(s.rule.id, i.head, i.body, s.rule.blockers, false, {}, licences, false)
  }

  lemma {:induction false} DetectMeans(s: SilentRule, w: Interval, licences: set<Licence>, b: Binding,
                                       i: GroundInstance)
    ensures DetectFor(s, w, licences, b) == Some(i) <==> IsDetect(s, w, licences, b, i)
  {
    BoundBodyMeans(s.rule.body, b, TickOf(w.t0), i.body);
    BoundAtomMeans(s.rule.head, b, TickOf(w.t0), i.head);
  }

  /** The parts of a binding's silent instance: the instance itself, and a ghost premise, with no body
      and no blockers, for a body fact. */
  lemma {:induction false} PartMeans(s: SilentRule, w: Interval, b: Binding, i: GroundInstance)
    ensures PartOf(s, w, b, i) <==> exists d: GroundInstance ::
              IsDetect(s, w, i.licences, b, d)
              && (i == d
                  || (i.head in d.body && i == GroundInstance(s.rule.id, i.head, [], [], false, {}, i.licences, true)))
  {
    var drawn := DetectFor(s, w, i.licences, b);
    forall d ensures IsDetect(s, w, i.licences, b, d) <==> drawn == Some(d) {
      DetectMeans(s, w, i.licences, b, d);
    }
    if drawn.Some? {
      assert IsDetect(s, w, i.licences, b, drawn.value);
    }
  }

  /** The variable's value in the trigger: the argument at its last occurrence. */
  ghost predicate LastValue(vars: seq<nat>, args: seq<nat>, v: nat, value: nat)
    requires |vars| == |args|
  {
    exists k :: 0 <= k < |vars| && vars[k] == v && args[k] == value && forall j :: k < j < |vars| ==> vars[j] != v
  }

  lemma {:induction false} ZipMeans(vars: seq<nat>, args: seq<nat>, v: nat, value: nat)
    requires |vars| == |args|
    ensures v in Zip(vars, args) && Zip(vars, args)[v] == value <==> LastValue(vars, args, v, value)
    decreases |vars|
  {
    if vars != [] {
      var last := |vars| - 1;
      ZipMeans(vars[..last], args[..last], v, value);
      if vars[last] == v {
        if LastValue(vars, args, v, value) {
          var k :| 0 <= k < |vars| && vars[k] == v && args[k] == value && forall j :: k < j < |vars| ==> vars[j] != v;
          assert k == last;
        }
      } else {
        if LastValue(vars[..last], args[..last], v, value) {
          var k :| 0 <= k < last && vars[..last][k] == v && args[..last][k] == value
              && forall j :: k < j < last ==> vars[..last][j] != v;
          assert vars[k] == v && args[k] == value;
          forall j | k < j < |vars| ensures vars[j] != v {
            assert j < last ==> vars[..last][j] == vars[j];
          }
        }
        if LastValue(vars, args, v, value) {
          var k :| 0 <= k < |vars| && vars[k] == v && args[k] == value && forall j :: k < j < |vars| ==> vars[j] != v;
          assert vars[..last][k] == v && args[..last][k] == value;
        }
      }
    }
  }

  /** The head an obligation names for a trigger: its arguments are the trigger's, variable by variable,
      and its tick is the trigger's. */
  ghost predicate NamesObliged(o: Obligation, f: Atom, h: Atom)
    requires Triggers(o, f)
  {
    && h.pred == o.head.pred && h.tick == f.tick && |h.args| == |o.head.entityVars|
    && forall k :: 0 <= k < |h.args| ==> LastValue(o.trigger.entityVars, f.args, o.head.entityVars[k], h.args[k])
  }

  lemma {:induction false} ObligedMeans(o: Obligation, f: Atom, h: Atom)
    requires Triggers(o, f)
    ensures Obliged(o, f) == Some(h) <==> NamesObliged(o, f, h)
  {
    var b := Zip(o.trigger.entityVars, f.args);
    BoundAtomMeans(o.head, b, f.tick, h);
    if |h.args| == |o.head.entityVars| {
      forall k | 0 <= k < |h.args|
        ensures LastValue(o.trigger.entityVars, f.args, o.head.entityVars[k], h.args[k])
           <==> o.head.entityVars[k] in b && b[o.head.entityVars[k]] == h.args[k]
      {
        ZipMeans(o.trigger.entityVars, f.args, o.head.entityVars[k], h.args[k]);
      }
    }
  }

  /** The lookback of a trigger is the instants of the `within` ticks before its own. */
  lemma LookbackIsBefore(o: Obligation, f: Atom, t: nat)
    ensures Lookback(o, f).Contains(t) <==> f.tick - o.within <= TickOf(t) < f.tick
  {
    var low := Max(0, f.tick - o.within);
    assert TickOf(t) * TICK_NS <= t < (TickOf(t) + 1) * TICK_NS;
    TimesTick(low, t);
    TimesTick(f.tick, t);
  }

  lemma TimesTick(n: int, t: nat)
    ensures n * TICK_NS <= t <==> n <= TickOf(t)
  {
  }

  // ---------------------------------------------------------------------------
  // Spans
  // ---------------------------------------------------------------------------

  /** The inputs of the envelope stage that decide which silent facts it draws. */
  datatype Drawing = Drawing(v: Liveness.View, silent: seq<SilentRule>, bindings: seq<seq<Binding>>)

  ghost predicate DrawingOk(d: Drawing) {
    |d.bindings| == |d.silent|
  }

  /** The window is a maximal joint blind window of a rule that draws the fact over it. */
  ghost predicate DrawnOver(d: Drawing, f: Atom, w: Interval)
    requires DrawingOk(d)
  {
    exists k :: 0 <= k < |d.silent| && Liveness.BlindWindow(d.v, d.silent[k].sources, w)
      && Draws(d.silent[k], w, d.bindings[k], |d.bindings[k]|, f)
  }

  /** The window gave the fact its span. */
  ghost predicate GivenOver(d: Drawing, log: set<(Atom, Span)>, f: Atom, w: Interval)
    requires DrawingOk(d)
  {
    w.t0 < w.t1 && DrawnOver(d, f, w) && (f, SpanOf(w)) in log
  }

  lemma DrawnAtFirstTick(s: SilentRule, w: Interval, bindings: seq<Binding>, f: Atom)
    requires Draws(s, w, bindings, |bindings|, f)
    ensures f.tick == TickOf(w.t0)
  {
  }

  lemma {:induction false} EntryIsGiven(d: Drawing, log: set<(Atom, Span)>, f: Atom, given: Span) returns (w: Interval)
    requires DrawingOk(d) && SilentSpans(d.v, d.silent, d.bindings, log) && (f, given) in log
    ensures GivenOver(d, log, f, w) && given == SpanOf(w) && given.0 == f.tick <= given.1
  {
    var k :| 0 <= k < |d.silent| && RuleSpan(d.v, d.silent[k], d.bindings[k], f, given);
    w :| Liveness.BlindWindow(d.v, d.silent[k].sources, w) && given == SpanOf(w)
      && Draws(d.silent[k], w, d.bindings[k], |d.bindings[k]|, f);
    DrawnAtFirstTick(d.silent[k], w, d.bindings[k], f);
  }

  /** The hull of the spans given for a fact is one of them: they all start at the fact's own tick. */
  lemma {:induction false} HullIsOneWindow(d: Drawing, spans: map<Atom, Span>, log: set<(Atom, Span)>, f: Atom)
    returns (w: Interval)
    requires DrawingOk(d) && SilentSpans(d.v, d.silent, d.bindings, log) && Hulls(spans, log) && f in spans
    ensures GivenOver(d, log, f, w) && spans[f] == SpanOf(w)
  {
    var a: Span :| (f, a) in log && a.0 == spans[f].0;
    var b: Span :| (f, b) in log && b.1 == spans[f].1;
    var u := EntryIsGiven(d, log, f, a);
    w := EntryIsGiven(d, log, f, b);
    assert b == (b.0, b.1) == spans[f];
  }

  /** The span takes in every tick of every window that draws the fact. */
  ghost predicate Covers(d: Drawing, span: Span, f: Atom)
    requires DrawingOk(d)
  {
    forall w :: DrawnOver(d, f, w) ==> TakesIn(span, w)
  }

  ghost predicate TakesIn(span: Span, w: Interval) {
    forall t: nat :: w.Contains(t) ==> span.0 <= TickOf(t) <= span.1
  }

  /** A window that gave the fact its span ends in no earlier second than this one. */
  ghost predicate GivenAsLong(d: Drawing, log: set<(Atom, Span)>, f: Atom, w: Interval)
    requires DrawingOk(d) && w.t0 < w.t1
  {
    exists u :: GivenOver(d, log, f, u) && SpanOf(w).1 <= SpanOf(u).1
  }

  lemma {:induction false} TakesInIff(span: Span, w: Interval)
    requires w.t0 < w.t1 && span.0 == SpanOf(w).0
    ensures TakesIn(span, w) <==> SpanOf(w).1 <= span.1
  {
    LastTick(w);
    if SpanOf(w).1 <= span.1 {
      forall t: nat | w.Contains(t) ensures span.0 <= TickOf(t) <= span.1 {
        WindowTicksInSpan(w, t);
      }
    }
  }

  /** The recorded span takes in every window that draws the fact if and only if none of them ends in a
      later second than all that gave it their span. */
  lemma {:induction false} SpanCoversIff(d: Drawing, spans: map<Atom, Span>, log: set<(Atom, Span)>, f: Atom)
    requires DrawingOk(d) && SilentSpans(d.v, d.silent, d.bindings, log) && Hulls(spans, log) && f in spans
    ensures Covers(d, spans[f], f) <==> forall w :: DrawnOver(d, f, w) ==> w.t0 < w.t1 && GivenAsLong(d, log, f, w)
  {
    forall w | DrawnOver(d, f, w) ensures w.t0 < w.t1 && (TakesIn(spans[f], w) <==> GivenAsLong(d, log, f, w)) {
      TakenInIffGiven(d, spans, log, f, w);
    }
  }

  lemma {:induction false} TakenInIffGiven(d: Drawing, spans: map<Atom, Span>, log: set<(Atom, Span)>, f: Atom,
                                           w: Interval)
    requires DrawingOk(d) && SilentSpans(d.v, d.silent, d.bindings, log) && Hulls(spans, log) && f in spans
    requires DrawnOver(d, f, w)
    ensures w.t0 < w.t1 && (TakesIn(spans[f], w) <==> GivenAsLong(d, log, f, w))
  {
    var longest := HullIsOneWindow(d, spans, log, f);
    DrawnStarts(d, f, w);
    DrawnStarts(d, f, longest);
    TakesInIff(spans[f], w);
    if GivenAsLong(d, log, f, w) {
      var u :| GivenOver(d, log, f, u) && SpanOf(w).1 <= SpanOf(u).1;
      assert SpanOf(u).1 <= spans[f].1;
    }
  }

  lemma DrawnStarts(d: Drawing, f: Atom, w: Interval)
    requires DrawingOk(d) && DrawnOver(d, f, w)
    ensures w.t0 < w.t1 && SpanOf(w).0 == f.tick
  {
    var k :| 0 <= k < |d.silent| && Liveness.BlindWindow(d.v, d.silent[k].sources, w)
        && Draws(d.silent[k], w, d.bindings[k], |d.bindings[k]|, f);
    DrawnAtFirstTick(d.silent[k], w, d.bindings[k], f);
  }

  lemma LastTick(w: Interval)
    requires w.t0 < w.t1
    ensures w.Contains(w.t1 - 1) && SpanOf(w).1 == TickOf(w.t1 - 1)
  {
    DivMonotone(w.t0, w.t1 - 1);
  }

  /** Of two maximal joint blind windows the earlier ends before the later starts. */
  lemma {:induction false} EarlierEndsFirst(v: Liveness.View, sources: seq<nat>, a: Interval, b: Interval)
    requires Liveness.BlindWindow(v, sources, a) && Liveness.BlindWindow(v, sources, b) && a.t0 < b.t0
    ensures a.t1 <= b.t0 && SpanOf(a).1 <= SpanOf(b).0
  {
    if b.t0 < a.t1 {
      BlindWindowsMeet(v, sources, a, b, b.t0);
    }
    LastTick(a);
    DivMonotone(a.t1 - 1, b.t0);
  }

  /** Some window draws the fact first. */
  lemma {:induction false} FirstToDraw(v: Liveness.View, s: SilentRule, bindings: seq<Binding>, w: Interval, f: Atom)
    returns (first: Interval)
    requires Liveness.BlindWindow(v, s.sources, w) && Draws(s, w, bindings, |bindings|, f)
    ensures Liveness.BlindWindow(v, s.sources, first) && Draws(s, first, bindings, |bindings|, f)
    ensures first.t0 <= w.t0 && !DrawnEarlier(v, s, bindings, first, f)
    decreases w.t0
  {
    first := w;
    if u :| Liveness.BlindWindow(v, s.sources, u) && u.t0 < w.t0 && Draws(s, u, bindings, |bindings|, f) {
      first := FirstToDraw(v, s, bindings, u, f);
    }
  }

  /** Only the first window that draws a premise gives it its span. */
  lemma {:induction false} OnlyFirstGives(v: Liveness.View, s: SilentRule, bindings: seq<Binding>, f: Atom,
                                          first: Interval, given: Span)
    requires Liveness.BlindWindow(v, s.sources, first) && Draws(s, first, bindings, |bindings|, f)
    requires !DrawnEarlier(v, s, bindings, first, f)
    requires forall w: Interval, k :: 0 <= k < |bindings| ==> !HeadOf(s, w, bindings[k], f)
    ensures RuleGives(v, s, bindings, f, given, false) <==> given == SpanOf(first)
  {
    if RuleGives(v, s, bindings, f, given, false) {
      var w :| GivenBy(v, s, bindings, w, f, given, false);
      assert !DrawnEarlier(v, s, bindings, w, f);
      assert w.t0 <= first.t0 && first.t0 <= w.t0;
      BlindWindowsMeet(v, s.sources, w, first, w.t0);
    }
    var k :| 0 <= k < |bindings| && InBody(s, first, bindings[k], f);
    assert GivenBy(v, s, bindings, first, f, SpanOf(first), false);
  }

  /** A premise that a second window of its rule draws again, starting in the same second, keeps the span
      of the first: ticks of the second window in which the step may have happened are outside it. */
  lemma {:induction false} SecondWindowIsLost(v: Liveness.View, s: SilentRule, bindings: seq<Binding>,
                                              facts: set<Atom>, b: Told, spans: map<Atom, Span>, f: Atom, u: Interval,
                                              w: Interval)
    requires RuleTold(v, s, bindings, Told(facts, {}), b) && Hulls(spans, b.log) && f !in facts
    requires Liveness.BlindWindow(v, s.sources, u) && Liveness.BlindWindow(v, s.sources, w) && u.t0 < w.t0
    requires Draws(s, u, bindings, |bindings|, f) && Draws(s, w, bindings, |bindings|, f)
    requires forall x: Interval, k :: 0 <= k < |bindings| ==> !HeadOf(s, x, bindings[k], f)
    requires SpanOf(u).1 < SpanOf(w).1
    ensures f in spans && spans[f].1 < TickOf(w.t1 - 1)
  {
    var first := FirstToDraw(v, s, bindings, u, f);
    assert forall given: Span :: (f, given) in b.log <==> RuleGives(v, s, bindings, f, given, false);
    OnlyFirstGives(v, s, bindings, f, first, SpanOf(first));
    assert (f, SpanOf(first)) in b.log;
    var last: Span :| (f, last) in b.log && last.1 == spans[f].1;
    OnlyFirstGives(v, s, bindings, f, first, last);
    if first.t0 < u.t0 {
      EarlierEndsFirst(v, s.sources, first, u);
    } else {
      BlindWindowsMeet(v, s.sources, first, u, u.t0);
    }
    LastTick(w);
    DivMonotone(u.t0, u.t1 - 1);
  }

  /** A tenth of a second blind, then live, then blind from the middle of the same second on. */
  function BlindTwice(): Liveness.View {
    map[0 := [Liveness.Stretch(Interval(0, 100_000_000), Liveness.Blind, 0, {}),
              Liveness.Stretch(Interval(100_000_000, 500_000_000), Liveness.Live, 0, {}),
              Liveness.Stretch(Interval(500_000_000, 3_000_000_000), Liveness.Blind, 0, {})]]
  }

  lemma BlindTwiceAt(t: int)
    ensures Liveness.AllBlindAt(BlindTwice(), [0], t) <==> 0 <= t < 100_000_000 || 500_000_000 <= t < 3_000_000_000
  {
    var tl := Liveness.TimelineOf(BlindTwice(), 0);
    assert |tl| == 3 && [0][0] == 0;
    assert tl[0].span.Contains(t) || tl[2].span.Contains(t) <==> Liveness.NonLiveAt(tl, t);
  }

  /** One rule over one entity: the premise at tick 0 may have happened in tick 2 and is recorded as not. */
  lemma {:induction false} SecondWindowExample(s: SilentRule, facts: set<Atom>, b: Told, spans: map<Atom, Span>)
    requires s.sources == [0] && s.rule.body == [Pattern(0, [0], 1)] && s.rule.head == Pattern(1, [0], 1)
    requires var f := Atom(0, [7], 0);
             RuleTold(BlindTwice(), s, [map[0 := 7]], Told(facts, {}), b) && Hulls(spans, b.log) && f !in facts
    ensures var f, w := Atom(0, [7], 0), Interval(500_000_000, 3_000_000_000);
            && Liveness.BlindWindow(BlindTwice(), s.sources, w) && Draws(s, w, [map[0 := 7]], 1, f)
            && w.Contains(2_500_000_000) && TickOf(2_500_000_000) == 2
            && f in spans && spans[f].1 < 2
  {
    var bindings: seq<Binding>, f := [map[0 := 7]], Atom(0, [7], 0);
    var u, w := Interval(0, 100_000_000), Interval(500_000_000, 3_000_000_000);
    forall t ensures Liveness.AllBlindAt(BlindTwice(), [0], t) <==> u.Contains(t) || w.Contains(t) {
      BlindTwiceAt(t);
    }
    PremiseDrawn(s, u, f);
    PremiseDrawn(s, w, f);
    forall x: Interval, k | 0 <= k < |bindings| ensures !HeadOf(s, x, bindings[k], f) {
      assert f.pred != s.rule.head.pred;
    }
    SecondWindowIsLost(BlindTwice(), s, bindings, facts, b, spans, f, u, w);
  }

  lemma PremiseDrawn(s: SilentRule, w: Interval, f: Atom)
    requires s.rule.body == [Pattern(0, [0], 1)] && s.rule.head == Pattern(1, [0], 1)
    requires TickOf(w.t0) == 0 && f == Atom(0, [7], 0)
    ensures Draws(s, w, [map[0 := 7]], 1, f)
  {
    var b: Binding := map[0 := 7];
    var i := GroundInstance(s.rule.id, Atom(1, [7], 0), [f], s.rule.blockers, false, {}, {}, false);
    assert NamesAll(b, s.rule.body, 0, i.body) && Names(b, s.rule.head, 0, i.head);
    DetectMeans(s, w, {}, b, i);
    assert InBody(s, w, [b][0], f);
  }

  /** What the spans of both further saturations are: ordered, so that a firing is as it is meant. */
  lemma {:induction false} HullsAreOrdered(d: Drawing, s: Snapshot, log: set<(Atom, Span)>)
    requires DrawingOk(d) && SilentSpans(d.v, d.silent, d.bindings, log) && Hulls(s.spans, log)
    ensures OrderedSpans(s)
  {
    forall f | f in s.spans ensures s.spans[f].0 <= s.spans[f].1 {
      var w := HullIsOneWindow(d, s.spans, log, f);
    }
  }

  /** The step behind the fact may have happened in this tick: in its own when it was observed, in that
      of an instant of a window that gave it its span when it is silent. */
  ghost predicate MayBeAt(d: Drawing, s: Snapshot, log: set<(Atom, Span)>, f: Atom, tick: int)
    requires DrawingOk(d)
  {
    if f in s.timeFree then exists w, t: nat :: GivenOver(d, log, f, w) && w.Contains(t) && TickOf(t) == tick
    else tick == f.tick
  }

  /** The tick range of a fact is the ticks in which its step may have happened. */
  lemma {:induction false} RangeIsTicks(d: Drawing, s: Snapshot, log: set<(Atom, Span)>, f: Atom, tick: int)
    requires DrawingOk(d) && SilentSpans(d.v, d.silent, d.bindings, log) && Hulls(s.spans, log)
    requires f in s.timeFree ==> f in s.spans
    ensures TickRange(s, f).Some?
    ensures TickRange(s, f).value.0 <= tick <= TickRange(s, f).value.1 <==> MayBeAt(d, s, log, f, tick)
  {
    if f in s.timeFree {
      var w := HullIsOneWindow(d, s.spans, log, f);
      SpanIsTicks(w, tick);
      if s.spans[f].0 <= tick <= s.spans[f].1 {
        var t: nat :| w.Contains(t) && TickOf(t) == tick;
      }
      if MayBeAt(d, s, log, f, tick) {
        var u, t: nat :| GivenOver(d, log, f, u) && u.Contains(t) && TickOf(t) == tick;
        SpanIsTicks(u, tick);
      }
    }
  }

  /** Two ticks in which the steps may have happened, the second after the first and within the bound. */
  ghost predicate InTurn(d: Drawing, s: Snapshot, log: set<(Atom, Span)>, left: Atom, right: Atom, within: int, a: int,
                         b: int)
    requires DrawingOk(d)
  {
    MayBeAt(d, s, log, left, a) && MayBeAt(d, s, log, right, b) && a < b <= a + within
  }

  lemma {:induction false} PlacesIsInTurn(d: Drawing, s: Snapshot, log: set<(Atom, Span)>, left: Atom, right: Atom,
                                          within: int, l: Span, rr: Span, a: int, b: int)
    requires DrawingOk(d) && SilentSpans(d.v, d.silent, d.bindings, log) && Hulls(s.spans, log)
    requires TickRange(s, left) == Some(l) && TickRange(s, right) == Some(rr)
    ensures Places(l, rr, within, a, b) <==> InTurn(d, s, log, left, right, within, a, b)
  {
    RangeIsTicks(d, s, log, left, a);
    RangeIsTicks(d, s, log, right, b);
  }

  lemma {:induction false} FeasibleIsInTurn(d: Drawing, s: Snapshot, log: set<(Atom, Span)>, left: Atom, right: Atom,
                                            within: int, l: Span, rr: Span)
    requires DrawingOk(d) && SilentSpans(d.v, d.silent, d.bindings, log) && Hulls(s.spans, log)
    requires TickRange(s, left) == Some(l) && TickRange(s, right) == Some(rr) && l.0 <= l.1 && rr.0 <= rr.1
    ensures SeqFeasible(l, rr, within) <==> exists a, b :: InTurn(d, s, log, left, right, within, a, b)
  {
    SeqFeasibleIsPlacement(l, rr, within);
    if SomePlacement(l, rr, within) {
      var a, b :| Places(l, rr, within, a, b);
      PlacesIsInTurn(d, s, log, left, right, within, l, rr, a, b);
    }
    if a, b :| InTurn(d, s, log, left, right, within, a, b) {
      PlacesIsInTurn(d, s, log, left, right, within, l, rr, a, b);
    }
  }

  /** The facts in the two slots of a rule's sequence. */
  ghost predicate InSlots(r: Rule, chosen: seq<Atom>, left: Atom, right: Atom, within: int) {
    && RuleOk(r) && |chosen| == |r.body| && r.temporal.Sequence? && r.temporal.within == within
    && chosen[r.temporal.left] == left && chosen[r.temporal.right] == right
  }

  lemma SequenceCheck(r: Rule, chosen: seq<Atom>, env: Env, base: set<Atom>, s: Snapshot, left: Atom, right: Atom,
                      within: int)
    requires InSlots(r, chosen, left, right, within) && TickRange(s, left).Some? && TickRange(s, right).Some?
    ensures CheckTemporal(r, chosen, env, base, s).Some?
       <==> SeqFeasible(TickRange(s, left).value, TickRange(s, right).value, within)
  {
  }

  ghost predicate SpanKnown(s: Snapshot, f: Atom) {
    f in s.timeFree ==> f in s.spans
  }

  /** A sequence over observed facts and silent facts with spans passes if and only if their steps may
      have happened in turn: nothing possible is dropped, and nothing impossible is let through. */
  lemma {:induction false} SequencePassesIff(d: Drawing, s: Snapshot, log: set<(Atom, Span)>, r: Rule,
                                             chosen: seq<Atom>, env: Env, base: set<Atom>, left: Atom, right: Atom,
                                             within: int)
    requires DrawingOk(d) && SilentSpans(d.v, d.silent, d.bindings, log) && Hulls(s.spans, log)
    requires InSlots(r, chosen, left, right, within) && SpanKnown(s, left) && SpanKnown(s, right)
    ensures CheckTemporal(r, chosen, env, base, s).Some?
       <==> exists a, b :: InTurn(d, s, log, left, right, within, a, b)
  {
    RangeIsTicks(d, s, log, left, left.tick);
    RangeIsTicks(d, s, log, right, right.tick);
    HullsAreOrdered(d, s, log);
    SequenceCheck(r, chosen, env, base, s, left, right, within);
    FeasibleIsInTurn(d, s, log, left, right, within, TickRange(s, left).value, TickRange(s, right).value);
  }

  /** A sequence that fires in either further saturation over observed facts and silent facts with spans
      has a placement in their windows. */
  lemma {:induction false} FiredSequenceIsInTurn(d: Drawing, run: Stages, c: Context, r: nat, chosen: seq<Atom>,
                                                 left: Atom, right: Atom, within: int)
    requires DrawingOk(d) && SpansSnapped(d.v, d.silent, d.bindings, run) && (c == run.second || c == run.third)
    requires RulesOk(c.rules) && r < |c.rules| && Firing(c, r, chosen).Some?
    requires InSlots(c.rules[r], chosen, left, right, within) && SpanKnown(c.snap, left) && SpanKnown(c.snap, right)
    ensures exists a, b :: InTurn(d, c.snap, run.log, left, right, within, a, b)
  {
    var rule := c.rules[r];
    var env := UnifyAll(rule.body, chosen, map[]).value;
    SequencePassesIff(d, c.snap, run.log, rule, chosen, env, c.base, left, right, within);
  }

  /** Beyond the lower program, each instance of the upper one is silent, forced, or a tuple over the upper
      facts that fires as a firing is meant. */
  lemma {:induction false} FurtherFiringIsMeant(d: Drawing, run: Stages, c: Context, facts: set<Atom>,
                                                i: GroundInstance)
    requires DrawingOk(d) && SpansSnapped(d.v, d.silent, d.bindings, run) && (c == run.second || c == run.third)
    requires RulesOk(c.rules)
    ensures IsFiring(c, facts, i) <==> MeantFiring(c, facts, i)
  {
    HullsAreOrdered(d, c.snap, run.log);
    FiringIsMeant(c, facts, i);
  }
}
