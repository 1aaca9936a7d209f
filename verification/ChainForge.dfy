/** Forging records into a chained source (degrade.py, `chain_forge`): `count` fabricated
    records go in behind one record, and the later records of the source are renumbered.
 */
module ChainForge {
  import opened Arithmetic
  import opened Sorting
  import opened Degrade

  datatype Spec = Spec(source: nat, afterSeq: nat, count: nat, kind: nat, attrs: nat)

  datatype Reseal = Reseal(was: nat, now: nat)

  datatype Result =
    | Forged(raw: seq<RawEvent>, forged: seq<RawEvent>, resealed: seq<Reseal>)
    | NoRecord
    | NumberReused
    | OutsideVocabulary
    | NoHost
    | HostIsLast
    | GapTooNarrow

  /** The record an insertion turns an original record into. */
  function Shift(spec: Spec, r: RawEvent): RawEvent {
    if r.source != spec.source || r.seqNo <= spec.afterSeq then r else r.(seqNo := r.seqNo + spec.count)
  }

  function ShiftAll(spec: Spec, raw: seq<RawEvent>): (s: seq<RawEvent>)
    ensures |s| == |raw| && forall k :: 0 <= k < |s| ==> s[k] == Shift(spec, raw[k])
  {
    seq(|raw|, k requires 0 <= k < |raw| => Shift(spec, raw[k]))
  }

  /** Evenly spaced instants behind `from`. */
  function Instants(from: int, step: int, n: nat): (s: seq<int>)
    ensures |s| == n && forall k :: 0 <= k < n ==> s[k] == from + step * (k + 1)
  {
    seq(n, k => from + step * (k + 1))
  }

  /** One fabricated record for each instant. */
  function Fabricated(spec: Spec, times: seq<int>): (s: seq<RawEvent>)
    ensures |s| == |times|
    ensures forall k :: 0 <= k < |times| ==>
              s[k] == RawEvent(spec.source, spec.afterSeq + 1 + k, times[k], spec.kind, spec.attrs)
  {
    seq(|times|, k requires 0 <= k < |times| =>
        RawEvent(spec.source, spec.afterSeq + 1 + k, times[k], spec.kind, spec.attrs))
  }

  /** Rows the insertion made up: their numbers fall where no original number can. */
  predicate InForgedRange(spec: Spec, r: RawEvent) {
    r.source == spec.source && spec.afterSeq < r.seqNo <= spec.afterSeq + spec.count
  }

  lemma ShiftIsInjective(spec: Spec, r: RawEvent, s: RawEvent)
    ensures !InForgedRange(spec, Shift(spec, r))
    ensures Shift(spec, r) == Shift(spec, s) ==> r == s
  {
  }

  /** The host and its successor in the source. */
  ghost predicate Placed(raw: seq<RawEvent>, spec: Spec, host: RawEvent, next: RawEvent) {
    && host in raw && host.source == spec.source && host.seqNo == spec.afterSeq
    && next in raw && next.source == spec.source && next.seqNo > spec.afterSeq
    && forall r :: r in raw && r.source == spec.source && r.seqNo > spec.afterSeq ==> r.seqNo >= next.seqNo
  }

  /** The instants of the fabricated records. */
  function GapInstants(spec: Spec, host: RawEvent, next: RawEvent): (times: seq<int>)
    ensures |times| == spec.count
  {
    Instants(host.time, (next.time - host.time) / (spec.count + 1), spec.count)
  }

  /** The stream the operator returns, before it is put in order. */
  function Inserted(raw: seq<RawEvent>, spec: Spec, times: seq<int>): seq<RawEvent> {
    Fabricated(spec, times) + ShiftAll(spec, raw)
  }

  // ---------------------------------------------------------------------------
  // The operator
  // ---------------------------------------------------------------------------

  method Search(source: seq<RawEvent>, number: nat) returns (index: nat)
    ensures index <= |source|
    ensures index < |source| ==> source[index].seqNo == number
    ensures forall k :: 0 <= k < index ==> source[k].seqNo != number
  {
    index := 0;
    while index < |source| && source[index].seqNo != number
      invariant index <= |source| && forall k :: 0 <= k < index ==> source[k].seqNo != number
    {
      index := index + 1;
    }
  }

  method Reseals(raw: seq<RawEvent>, spec: Spec, fabricated: seq<RawEvent>)
    returns (out: seq<RawEvent>, resealed: seq<Reseal>)
    ensures out == fabricated + ShiftAll(spec, raw)
    ensures forall m :: m in resealed <==> WasResealed(raw, spec, m)
  {
    out, resealed := fabricated, [];
    for i := 0 to |raw|
      invariant out == fabricated + ShiftAll(spec, raw[..i])
      invariant forall m :: m in resealed <==> WasResealed(raw[..i], spec, m)
    {
      var record := raw[i];
      ghost var before := raw[..i];
      assert raw[..i + 1] == before + [record];
      assert ShiftAll(spec, raw[..i + 1]) == ShiftAll(spec, before) + [Shift(spec, record)];
      if record.source != spec.source || record.seqNo <= spec.afterSeq {
        out := out + [record];
        assert forall m :: !IsResealed(spec, record, m);
      } else {
        out := out + [record.(seqNo := record.seqNo + spec.count)];
        resealed := resealed + [Reseal(record.seqNo, record.seqNo + spec.count)];
      }
      assert forall m :: WasResealed(before + [record], spec, m) <==> WasResealed(before, spec, m) || IsResealed(spec,
                record, m);
    }
    assert raw[..|raw|] == raw;
  }

  ghost predicate WasResealed(raw: seq<RawEvent>, spec: Spec, m: Reseal) {
    exists r :: r in raw && IsResealed(spec, r, m)
  }

  /** A later record of the source is listed under both its numbers. */
  predicate IsResealed(spec: Spec, r: RawEvent, m: Reseal) {
    r.source == spec.source && r.seqNo > spec.afterSeq && m == Reseal(r.seqNo, r.seqNo + spec.count)
  }

  /** When each refusal is due. */
  ghost predicate Refused(raw: seq<RawEvent>, spec: Spec, r: Result) {
    var source := OfSource(raw, spec.source);
    match r
    case Forged(_, _, _) => false
    case NoRecord => source == []
    case NumberReused => !NumbersDistinct(raw)
    case OutsideVocabulary => !InVocabulary(raw, spec)
    case NoHost => forall e :: e in source ==> e.seqNo != spec.afterSeq
    case HostIsLast => exists e :: e in source && e.seqNo == spec.afterSeq
                              && forall f :: f in source ==> f.seqNo <= spec.afterSeq
    case GapTooNarrow => exists host, next :: host in source && next in source && host.seqNo == spec.afterSeq
                           && IsNext(source, host, next) && next.time - host.time < spec.count + 1
  }

  /** The source emitted a record of the forged kind. */
  ghost predicate InVocabulary(raw: seq<RawEvent>, spec: Spec) {
    exists e :: e in OfSource(raw, spec.source) && e.kind == spec.kind
  }

  function Vocabulary(source: seq<RawEvent>): set<nat> {
    set r | r in source :: r.kind
  }

  lemma {:induction false} VocabularyOf(raw: seq<RawEvent>, spec: Spec, source: seq<RawEvent>)
    requires forall e :: e in source <==> e in OfSource(raw, spec.source)
    ensures spec.kind in Vocabulary(source) <==> InVocabulary(raw, spec)
  {
  }

  /** No record of the source is numbered between the two. */
  ghost predicate IsNext(source: seq<RawEvent>, host: RawEvent, next: RawEvent) {
    host.seqNo < next.seqNo && forall e :: e in source && e.seqNo > host.seqNo ==> e.seqNo >= next.seqNo
  }

  /** In ascending order, the record behind the host is the next one. */
  lemma NextInOrder(source: seq<RawEvent>, i: nat)
    requires Ascending(StreamLess, source) && i < |source| && forall r :: r in source ==> r.source == source[i].source
    ensures i + 1 < |source| ==> IsNext(source, source[i], source[i + 1])
    ensures i + 1 == |source| ==> forall e :: e in source ==> e.seqNo <= source[i].seqNo
  {
    forall k | 0 <= k < |source| ensures k <= i ==> source[k].seqNo <= source[i].seqNo
                                 ensures i + 1 <= k ==> source[i + 1].seqNo <= source[k].seqNo
    {
      assert source[k].source == source[i].source;
      if k < i {
        assert StreamLess(source[k], source[i]);
      }
      if i + 1 < k {
        assert source[i + 1] in source;
        assert StreamLess(source[i + 1], source[k]);
      }
    }
    if i + 1 < |source| {
      assert source[i + 1] in source && StreamLess(source[i], source[i + 1]);
    }
  }

  /** The host in the ordered source, its successor, and whether the gap is wide enough. */
  method LocateGap(raw: seq<RawEvent>, spec: Spec, source: seq<RawEvent>)
    returns (refusal: seq<Result>, host: RawEvent, next: RawEvent)
    requires source != [] && Ascending(StreamLess, source)
    requires forall e :: e in source <==> e in OfSource(raw, spec.source)
    ensures |refusal| <= 1
    ensures refusal != [] ==> !refusal[0].Forged? && Refused(raw, spec, refusal[0])
    ensures refusal == [] ==> Placed(raw, spec, host, next) && next.time - host.time >= spec.count + 1
  {
    host, next := source[0], source[0];
    var i := Search(source, spec.afterSeq);
    if i == |source| {
      return [NoHost], host, next;
    }
    NextInOrder(source, i);
    host := source[i];
    assert host in OfSource(raw, spec.source);
    if i + 1 == |source| {
      return [HostIsLast], host, next;
    }
    next := source[i + 1];
    assert next in OfSource(raw, spec.source);
    if next.time - host.time < spec.count + 1 {
      assert IsNext(OfSource(raw, spec.source), host, next);
      return [GapTooNarrow], host, next;
    }
    refusal := [];
  }

  /** The refusals up to the gap, and the two records the gap lies between. */
  method Locate(raw: seq<RawEvent>, spec: Spec) returns (refusal: seq<Result>, host: RawEvent, next: RawEvent)
    ensures |refusal| <= 1
    ensures refusal != [] ==> !refusal[0].Forged? && Refused(raw, spec, refusal[0])
    ensures refusal == [] ==>
              Placed(raw, spec, host, next) && next.time - host.time >= spec.count + 1 && InVocabulary(raw, spec)
  {
    host := RawEvent(0, 0, 0, 0, 0);
    next := host;
    var records := OfSource(raw, spec.source);
    var source := Sort(StreamLess, records);
    SortLength(StreamLess, records);
    if |source| == 0 {
      return [NoRecord], host, next;
    }
    AscendIffDistinct(records);
    var ok := CheckStrictlyAscending(StreamLess, source);
    if !ok {
      SourceNotDistinct(raw, spec.source);
      return [Result.NumberReused], host, next;
    }
    if spec.kind !in Vocabulary(source) {
      VocabularyOf(raw, spec, source);
      return [OutsideVocabulary], host, next;
    }
    VocabularyOf(raw, spec, source);
    refusal, host, next := LocateGap(raw, spec, source);
  }

  /** The result of a forgery between two records: the fabricated records and, in stream order,
      the whole stream. */
  ghost predicate ForgedBetween(raw: seq<RawEvent>, spec: Spec, host: RawEvent, next: RawEvent, r: Result) {
    && r.Forged?
    && InVocabulary(raw, spec) && Placed(raw, spec, host, next) && next.time - host.time >= spec.count + 1
    && r.forged == Fabricated(spec, GapInstants(spec, host, next))
    && r.raw == Sort(StreamLess, Inserted(raw, spec, GapInstants(spec, host, next)))
  }

  /** `chain_forge`. */
  method Forge(raw: seq<RawEvent>, spec: Spec) returns (r: Result)
    requires spec.count > 0
    ensures !r.Forged? ==> Refused(raw, spec, r)
    ensures r.Forged? ==> NumbersDistinct(raw) && exists host, next :: ForgedBetween(raw, spec, host, next, r)
    ensures r.Forged? ==> forall m :: m in r.resealed <==> WasResealed(raw, spec, m)
  {
    var refusal, host, next := Locate(raw, spec);
    if refusal != [] {
      return refusal[0];
    }
    var step := (next.time - host.time) / (spec.count + 1);
    var fabricated := MakeFabricated(spec, host, step);
    var out, resealed := Reseals(raw, spec, fabricated);
    InsertedDistinct(raw, spec, GapInstants(spec, host, next));
    AscendIffDistinct(out);
    var ordered := CheckStrictlyAscending(StreamLess, Sort(StreamLess, out));
    if !ordered {
      return Result.NumberReused;
    }
    r := Forged(Sort(StreamLess, out), fabricated, resealed);
    assert ForgedBetween(raw, spec, host, next, r);
  }

  method MakeFabricated(spec: Spec, host: RawEvent, step: int) returns (s: seq<RawEvent>)
    ensures s == Fabricated(spec, Instants(host.time, step, spec.count))
  {
    s := [];
    for index := 0 to spec.count
      invariant s == Fabricated(spec, Instants(host.time, step, index))
    {
      assert Instants(host.time, step, index + 1)
             == Instants(host.time, step, index) + [host.time + step * (index + 1)];
      s := s + [RawEvent(spec.source, spec.afterSeq + 1 + index,
                          host.time + step * (index + 1), spec.kind, spec.attrs)];
    }
  }

  // ---------------------------------------------------------------------------
  // What the insertion does to each record
  // ---------------------------------------------------------------------------

  lemma {:induction false} ShiftCounts(spec: Spec, raw: seq<RawEvent>, r: RawEvent)
    ensures multiset(ShiftAll(spec, raw))[Shift(spec, r)] == multiset(raw)[r]
    decreases |raw|
  {
    if raw != [] {
      var front, last := raw[..|raw| - 1], raw[|raw| - 1];
      assert raw == front + [last];
      assert ShiftAll(spec, raw) == ShiftAll(spec, front) + [Shift(spec, last)];
      ShiftCounts(spec, front, r);
      ShiftIsInjective(spec, r, last);
    }
  }

  lemma InsertedMember(raw: seq<RawEvent>, spec: Spec, times: seq<int>, x: RawEvent)
    requires |times| == spec.count && x in Inserted(raw, spec, times)
    ensures InForgedRange(spec, x) ==> x == Fabricated(spec, times)[x.seqNo - spec.afterSeq - 1]
    ensures !InForgedRange(spec, x) ==> exists r :: r in raw && x == Shift(spec, r)
  {
    var fabricated, shifted := Fabricated(spec, times), ShiftAll(spec, raw);
    if x in fabricated {
      var k :| 0 <= k < |fabricated| && fabricated[k] == x;
    } else {
      var k :| 0 <= k < |shifted| && shifted[k] == x;
      assert x == Shift(spec, raw[k]);
      ShiftIsInjective(spec, raw[k], x);
    }
  }

  lemma InsertedCounts(raw: seq<RawEvent>, spec: Spec, times: seq<int>, r: RawEvent)
    requires |times| == spec.count
    ensures multiset(Inserted(raw, spec, times))[Shift(spec, r)] == multiset(raw)[r]
  {
    ShiftCounts(spec, raw, r);
    ShiftIsInjective(spec, r, r);
    var fabricated := Fabricated(spec, times);
    assert Shift(spec, r) !in fabricated;
    assert Shift(spec, r) !in multiset(fabricated);
  }

  lemma FabricatedOnce(raw: seq<RawEvent>, spec: Spec, times: seq<int>, k: nat)
    requires k < |times| == spec.count
    ensures multiset(Inserted(raw, spec, times))[Fabricated(spec, times)[k]] == 1
  {
    var all := Fabricated(spec, times);
    var x := all[k];
    assert all == all[..k] + [x] + all[k + 1..];
    assert x !in all[..k] && x !in all[k + 1..];
    assert x !in multiset(all[..k]) && x !in multiset(all[k + 1..]);
    assert multiset(all) == multiset(all[..k]) + multiset{x} + multiset(all[k + 1..]);
    assert forall j :: 0 <= j < |raw| ==> ShiftAll(spec, raw)[j] != x;
    assert x !in multiset(ShiftAll(spec, raw));
  }

  lemma InsertedOnce(raw: seq<RawEvent>, spec: Spec, times: seq<int>, x: RawEvent)
    requires |times| == spec.count && NumbersDistinct(raw) && x in Inserted(raw, spec, times)
    ensures multiset(Inserted(raw, spec, times))[x] == 1
  {
    InsertedMember(raw, spec, times, x);
    if InForgedRange(spec, x) {
      FabricatedOnce(raw, spec, times, x.seqNo - spec.afterSeq - 1);
    } else {
      var r :| r in raw && x == Shift(spec, r);
      InsertedCounts(raw, spec, times, r);
    }
  }

  lemma InsertedAtNumber(raw: seq<RawEvent>, spec: Spec, times: seq<int>, x: RawEvent, y: RawEvent)
    requires |times| == spec.count && NumbersDistinct(raw) && x in Inserted(raw, spec, times)
    requires y in Inserted(raw, spec, times)
    requires x.source == y.source && x.seqNo == y.seqNo
    ensures x == y
  {
    InsertedMember(raw, spec, times, x);
    InsertedMember(raw, spec, times, y);
    if !InForgedRange(spec, x) {
      var r :| r in raw && x == Shift(spec, r);
      var s :| s in raw && y == Shift(spec, s);
      ShiftAtNumber(spec, r, s);
    }
  }

  lemma ShiftAtNumber(spec: Spec, r: RawEvent, s: RawEvent)
    requires Shift(spec, r).source == Shift(spec, s).source && Shift(spec, r).seqNo == Shift(spec, s).seqNo
    ensures r.source == s.source && r.seqNo == s.seqNo
  {
  }

  lemma InsertionKeepsDistinct(raw: seq<RawEvent>, spec: Spec, times: seq<int>)
    requires |times| == spec.count && NumbersDistinct(raw)
    ensures NumbersDistinct(Inserted(raw, spec, times))
  {
    var out := Inserted(raw, spec, times);
    forall x | x in out ensures multiset(out)[x] == 1 {
      InsertedOnce(raw, spec, times, x);
    }
    forall x, y | x in out && y in out && x.source == y.source && x.seqNo == y.seqNo ensures x == y {
      InsertedAtNumber(raw, spec, times, x, y);
    }
  }

  lemma ReuseSurvivesInsertion(raw: seq<RawEvent>, spec: Spec, times: seq<int>)
    requires |times| == spec.count && NumbersDistinct(Inserted(raw, spec, times))
    ensures NumbersDistinct(raw)
  {
    var out := Inserted(raw, spec, times);
    forall r | r in raw ensures multiset(raw)[r] == 1 {
      InsertedCounts(raw, spec, times, r);
      assert r in multiset(raw);
      assert Shift(spec, r) in multiset(out);
    }
    forall r, s | r in raw && s in raw && r.source == s.source && r.seqNo == s.seqNo ensures r == s {
      ShiftedIn(raw, spec, times, r);
      ShiftedIn(raw, spec, times, s);
      ShiftIsInjective(spec, r, s);
    }
  }

  /** Numbers stay distinct, and a reused number stays reused: the last check of the operator
      repeats the first for the other sources. */
  lemma InsertedDistinct(raw: seq<RawEvent>, spec: Spec, times: seq<int>)
    requires |times| == spec.count
    ensures NumbersDistinct(Inserted(raw, spec, times)) <==> NumbersDistinct(raw)
  {
    if NumbersDistinct(raw) {
      InsertionKeepsDistinct(raw, spec, times);
    }
    if NumbersDistinct(Inserted(raw, spec, times)) {
      ReuseSurvivesInsertion(raw, spec, times);
    }
  }

  // ---------------------------------------------------------------------------
  // What the forgery keeps
  // ---------------------------------------------------------------------------

  /** Strictly ascending, strictly inside the gap. */
  ghost predicate FillsGap(times: seq<int>, low: int, high: int) {
    && (forall k :: 0 <= k < |times| ==> low < times[k] < high)
    && forall j, k :: 0 <= j < k < |times| ==> times[j] < times[k]
  }

  /** Fabricated instants fill the gap in order. */
  lemma InstantsFillGap(spec: Spec, host: RawEvent, next: RawEvent)
    requires next.time - host.time >= spec.count + 1
    ensures FillsGap(GapInstants(spec, host, next), host.time, next.time)
  {
    var gap, n := next.time - host.time, spec.count + 1;
    var step, times := gap / n, GapInstants(spec, host, next);
    FloorIsGreatest(gap, n, 1);
    FloorIsGreatest(gap, n, step);
    forall k | 0 <= k < |times| ensures host.time < times[k] < next.time {
      InstantInside(gap, n, step, k);
    }
    forall j, k | 0 <= j < k < |times| ensures times[j] < times[k] {
      InstantsApart(step, j, k);
    }
  }

  /** The instants are evenly spaced, by the greatest whole step that fits them in. */
  lemma {:induction false} InstantsAreEven(spec: Spec, host: RawEvent, next: RawEvent) returns (step: int)
    ensures forall k :: 0 <= k < spec.count ==> GapInstants(spec, host, next)[k] == host.time + step * (k + 1)
    ensures step * (spec.count + 1) <= next.time - host.time < (step + 1) * (spec.count + 1)
  {
    step := (next.time - host.time) / (spec.count + 1);
    EvenStep(next.time - host.time, spec.count + 1);
  }

  lemma EvenStep(gap: int, n: nat)
    requires n > 0
    ensures (gap / n) * n <= gap < (gap / n + 1) * n
  {
    assert (gap / n + 1) * n == (gap / n) * n + n;
  }

  lemma InstantInside(gap: int, n: nat, step: nat, k: nat)
    requires step >= 1 && step * n <= gap && k + 1 < n
    ensures 0 < step * (k + 1) < gap
  {
    InstantsApart(step, k, n - 1);
    TimesMonotone(1, k + 1, step);
  }

  lemma InstantsApart(step: nat, j: nat, k: nat)
    requires step >= 1 && j < k
    ensures step * (j + 1) < step * (k + 1)
  {
    TimesMonotone(j + 2, k + 1, step);
    assert step * (j + 2) == step * (j + 1) + step;
  }

  /** No number is missing between two of a source. */
  ghost predicate NoHoles(stream: seq<RawEvent>, name: nat) {
    forall r, s, q: nat :: Between(stream, name, r, q, s) ==> Numbered(stream, name, q)
  }

  ghost predicate Between(stream: seq<RawEvent>, name: nat, r: RawEvent, q: nat, s: RawEvent) {
    r in stream && s in stream && r.source == name == s.source && r.seqNo < q < s.seqNo
  }

  ghost predicate Numbered(stream: seq<RawEvent>, name: nat, q: nat) {
    exists t :: t in stream && t.source == name && t.seqNo == q
  }

  /** Times never go back as numbers go up. */
  ghost predicate TimesFollowNumbers(stream: seq<RawEvent>, name: nat) {
    forall r, s :: r in stream && s in stream && r.source == name == s.source && r.seqNo < s.seqNo ==> r.time <= s.time
  }

  lemma ShiftedIn(raw: seq<RawEvent>, spec: Spec, times: seq<int>, r: RawEvent)
    requires r in raw
    ensures Shift(spec, r) in Inserted(raw, spec, times)
  {
    var k :| 0 <= k < |raw| && raw[k] == r;
    assert ShiftAll(spec, raw)[k] == Shift(spec, r);
  }

  lemma OriginalIn(raw: seq<RawEvent>, spec: Spec, times: seq<int>, was: nat, now: nat)
    requires Numbered(raw, spec.source, was) && now == if was <= spec.afterSeq then was else was + spec.count
    ensures Numbered(Inserted(raw, spec, times), spec.source, now)
  {
    var t :| t in raw && t.source == spec.source && t.seqNo == was;
    ShiftedIn(raw, spec, times, t);
    assert Shift(spec, t).seqNo == now;
  }

  /** A forgery leaves no hole where there was none. */
  lemma ForgeryKeepsDense(raw: seq<RawEvent>, spec: Spec, host: RawEvent, next: RawEvent, times: seq<int>)
    requires Placed(raw, spec, host, next) && |times| == spec.count && NoHoles(raw, spec.source)
    ensures NoHoles(Inserted(raw, spec, times), spec.source)
  {
    var out, name := Inserted(raw, spec, times), spec.source;
    forall x, y, q: nat | Between(out, name, x, q, y) ensures Numbered(out, name, q) {
      InsertedMember(raw, spec, times, x);
      InsertedMember(raw, spec, times, y);
      if spec.afterSeq < q <= spec.afterSeq + spec.count {
        assert Fabricated(spec, times)[q - spec.afterSeq - 1] in out;
      } else if q <= spec.afterSeq {
        var r :| r in raw && x == Shift(spec, r);
        assert q < spec.afterSeq ==> Between(raw, name, r, q, host);
        OriginalIn(raw, spec, times, q, q);
      } else {
        var s :| s in raw && y == Shift(spec, s);
        assert Between(raw, name, host, q - spec.count, s);
        OriginalIn(raw, spec, times, q - spec.count, q);
      }
    }
  }

  /** Where a row of the forged source lies in time, against the gap. */
  lemma SidesOfGap(raw: seq<RawEvent>, spec: Spec, host: RawEvent, next: RawEvent, times: seq<int>, x: RawEvent)
    requires NumbersDistinct(raw) && Placed(raw, spec, host, next) && TimesFollowNumbers(raw, spec.source)
    requires |times| == spec.count && x in Inserted(raw, spec, times) && x.source == spec.source
    ensures x.seqNo <= spec.afterSeq ==> x in raw && x.time <= host.time
    ensures x.seqNo > spec.afterSeq + spec.count ==> x.time >= next.time && x.(seqNo := x.seqNo - spec.count) in raw
    ensures InForgedRange(spec, x) ==> x.time == times[x.seqNo - spec.afterSeq - 1]
  {
    InsertedMember(raw, spec, times, x);
    if !InForgedRange(spec, x) {
      var r :| r in raw && x == Shift(spec, r);
      if r.seqNo <= spec.afterSeq {
        assert r.seqNo == spec.afterSeq ==> r == host;
      } else {
        assert x.(seqNo := x.seqNo - spec.count) == r;
        assert r.seqNo == next.seqNo ==> r == next;
      }
    }
  }

  /** A forgery never makes time run against the numbering where it did not before. */
  lemma ForgeryKeepsTimeOrder(raw: seq<RawEvent>, spec: Spec, host: RawEvent, next: RawEvent, times: seq<int>)
    requires NumbersDistinct(raw) && Placed(raw, spec, host, next) && TimesFollowNumbers(raw, spec.source)
    requires |times| == spec.count && FillsGap(times, host.time, next.time)
    ensures TimesFollowNumbers(Inserted(raw, spec, times), spec.source)
  {
    var out := Inserted(raw, spec, times);
    forall x, y | x in out && y in out && x.source == spec.source == y.source && x.seqNo < y.seqNo
      ensures x.time <= y.time
    {
      SidesOfGap(raw, spec, host, next, times, x);
      SidesOfGap(raw, spec, host, next, times, y);
    }
  }

  // ---------------------------------------------------------------------------
  // Undoing the forgery
  // ---------------------------------------------------------------------------

  /** Drop a forged row; number a later one back. */
  function UndoOne(spec: Spec, x: RawEvent): seq<RawEvent> {
    if InForgedRange(spec, x) then []
    else if x.source == spec.source && x.seqNo > spec.afterSeq then [x.(seqNo := x.seqNo - spec.count)]
    else [x]
  }

  function Undo(spec: Spec, stream: seq<RawEvent>): seq<RawEvent> {
    if stream == [] then [] else UndoOne(spec, stream[0]) + Undo(spec, stream[1..])
  }

  lemma UndoOneCounts(spec: Spec, x: RawEvent, r: RawEvent)
    ensures multiset(UndoOne(spec, x))[r] == if x == Shift(spec, r) then 1 else 0
  {
  }

  lemma {:induction false} UndoCounts(spec: Spec, stream: seq<RawEvent>, r: RawEvent)
    ensures multiset(Undo(spec, stream))[r] == multiset(stream)[Shift(spec, r)]
    decreases |stream|
  {
    if stream != [] {
      assert stream == [stream[0]] + stream[1..];
      UndoCounts(spec, stream[1..], r);
      UndoOneCounts(spec, stream[0], r);
    }
  }

  lemma {:induction false} UndoMember(spec: Spec, stream: seq<RawEvent>, y: RawEvent)
    requires y in Undo(spec, stream)
    ensures exists x :: x in stream && UndoOne(spec, x) == [y]
    decreases |stream|
  {
    if y !in UndoOne(spec, stream[0]) {
      UndoMember(spec, stream[1..], y);
      var x :| x in stream[1..] && UndoOne(spec, x) == [y];
      assert x in stream;
    }
  }

  /** Numbering back keeps the rows that stay in order. */
  lemma UndoOneKeepsOrder(spec: Spec, x: RawEvent, x': RawEvent, y: RawEvent, y': RawEvent)
    requires StreamLess(x, y) && UndoOne(spec, x) == [x'] && UndoOne(spec, y) == [y']
    ensures StreamLess(x', y')
  {
  }

  lemma {:induction false} UndoKeepsOrder(spec: Spec, stream: seq<RawEvent>)
    requires Ascending(StreamLess, stream)
    ensures Ascending(StreamLess, Undo(spec, stream))
    decreases |stream|
  {
    if stream != [] {
      var first, rest := UndoOne(spec, stream[0]), Undo(spec, stream[1..]);
      UndoKeepsOrder(spec, stream[1..]);
      forall k | 0 <= k < |rest| && first != [] ensures StreamLess(first[0], rest[k]) {
        UndoMember(spec, stream[1..], rest[k]);
        var y :| y in stream[1..] && UndoOne(spec, y) == [rest[k]];
        UndoOneKeepsOrder(spec, stream[0], first[0], y, rest[k]);
      }
    }
  }

  /** A stream in order is its own sorted form. */
  lemma {:induction false} OrderedIsSorted(raw: seq<RawEvent>)
    requires Ascending(StreamLess, raw)
    ensures NumbersDistinct(raw) && Sort(StreamLess, raw) == raw
  {
    forall r | r in raw ensures multiset(raw)[r] == 1 {
      AscendingOnce(StreamLess, raw, r);
    }
    SortAscends(StreamLess, raw);
    AscendIffDistinct(raw);
    AscendingIsUnique(StreamLess, Sort(StreamLess, raw), raw);
  }

  /** Dropping the forged rows and undoing the renumbering gives the original stream back, in
      stream order: itself if it came in order. Records of other sources were never touched. */
  lemma {:induction false} ForgeryUndone(raw: seq<RawEvent>, spec: Spec, times: seq<int>, stream: seq<RawEvent>)
    requires |times| == spec.count && stream == Sort(StreamLess, Inserted(raw, spec, times))
    ensures multiset(Undo(spec, stream)) == multiset(raw)
    ensures NumbersDistinct(raw) ==> Undo(spec, stream) == Sort(StreamLess, raw)
    ensures Ascending(StreamLess, raw) ==> Undo(spec, stream) == raw
    ensures forall name :: name != spec.source ==> multiset(OfSource(stream, name)) == multiset(OfSource(raw, name))
  {
    UndoneCounts(raw, spec, times, stream);
    if Ascending(StreamLess, raw) {
      OrderedIsSorted(raw);
    }
    if NumbersDistinct(raw) {
      UndoneInOrder(raw, spec, times, stream);
    }
    OthersUntouched(raw, spec, times, stream);
  }

  lemma {:induction false} UndoneCounts(raw: seq<RawEvent>, spec: Spec, times: seq<int>, stream: seq<RawEvent>)
    requires |times| == spec.count && multiset(stream) == multiset(Inserted(raw, spec, times))
    ensures multiset(Undo(spec, stream)) == multiset(raw)
  {
    forall r ensures multiset(Undo(spec, stream))[r] == multiset(raw)[r] {
      UndoCounts(spec, stream, r);
      InsertedCounts(raw, spec, times, r);
    }
  }

  lemma {:induction false} OthersUntouched(raw: seq<RawEvent>, spec: Spec, times: seq<int>, stream: seq<RawEvent>)
    requires |times| == spec.count && multiset(stream) == multiset(Inserted(raw, spec, times))
    ensures forall name :: name != spec.source ==> multiset(OfSource(stream, name)) == multiset(OfSource(raw, name))
  {
    forall name, r | name != spec.source
      ensures multiset(OfSource(stream, name))[r] == multiset(OfSource(raw, name))[r]
    {
      OfSourceCounts(stream, name, r);
      OfSourceCounts(raw, name, r);
      InsertedCounts(raw, spec, times, r);
    }
  }

  lemma {:induction false} UndoneInOrder(raw: seq<RawEvent>, spec: Spec, times: seq<int>, stream: seq<RawEvent>)
    requires |times| == spec.count && stream == Sort(StreamLess, Inserted(raw, spec, times))
    requires NumbersDistinct(raw) && multiset(Undo(spec, stream)) == multiset(raw)
    ensures Undo(spec, stream) == Sort(StreamLess, raw)
  {
    InsertedDistinct(raw, spec, times);
    AscendIffDistinct(Inserted(raw, spec, times));
    AscendIffDistinct(raw);
    UndoKeepsOrder(spec, stream);
    AscendingIsUnique(StreamLess, Undo(spec, stream), Sort(StreamLess, raw));
  }
}
