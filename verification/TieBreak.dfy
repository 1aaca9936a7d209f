/** The documented tie-break of cuts (model.py, `Cut.compare_key`) against the order the
    selection really minimises.

    Both agree on the number of controls. The documented key then compares rank vectors, in
    which a higher level of an early control comes before any later control; the selection
    compares control vectors first and level vectors last.
 */
module TieBreak {
  import opened Reachability
  import opened HittingSets
  import opened Selection
  import opened AtomTables
  import opened Corridors

  /** How many levels each control has. */
  function Tops(q: Problem): (tops: seq<nat>)
    ensures |tops| == |q.perLevel| && forall c :: 0 <= c < |tops| ==> tops[c] == |q.perLevel[c]|
  {
    seq(|q.perLevel|, c requires 0 <= c < |q.perLevel| => |q.perLevel[c]|)
  }

  /** Ranks number the literals control by control, level by level. */
  function Base(tops: seq<nat>, c: nat): nat
    requires c <= |tops|
  {
    if c == 0 then 0 else Base(tops, c - 1) + tops[c - 1]
  }

  /** The literals a cut raises at one control. */
  function Block(base: nat, level: nat): (s: seq<nat>)
    ensures |s| == level
  {
    seq(level, l => base + l)
  }

  ghost predicate Within(tops: seq<nat>, w: Levels) {
    |w| == |tops| && forall c :: 0 <= c < |w| ==> w[c] <= tops[c]
  }

  /** The rank vector of a cut, from control `c` on. */
  function RankVector(tops: seq<nat>, w: Levels, c: nat): seq<nat>
    requires |w| == |tops| && c <= |tops|
    decreases |tops| - c
  {
    if c == |tops| then [] else Block(Base(tops, c), w[c]) + RankVector(tops, w, c + 1)
  }

  /** Tuple order: the first difference decides, and a proper prefix comes first. */
  ghost predicate TupleLess(a: seq<nat>, b: seq<nat>) {
    exists j :: 0 <= j <= |a| && j < |b| && a[..j] == b[..j] && (j == |a| || a[j] < b[j])
  }

  lemma TupleLessAsymmetric(a: seq<nat>, b: seq<nat>)
    requires TupleLess(a, b)
    ensures !TupleLess(b, a)
  {
    var j :| 0 <= j <= |a| && j < |b| && a[..j] == b[..j] && (j == |a| || a[j] < b[j]);
    forall i | 0 <= i <= |b| && i < |a| && b[..i] == a[..i] ensures !(i == |b| || b[i] < a[i]) {
      assert forall k :: 0 <= k < j ==> a[..j][k] == b[..j][k];
      assert forall k :: 0 <= k < i ==> b[..i][k] == a[..i][k];
    }
  }

  lemma TupleLessBehind(before: seq<nat>, a: seq<nat>, b: seq<nat>)
    requires TupleLess(a, b)
    ensures TupleLess(before + a, before + b)
  {
    var j :| 0 <= j <= |a| && j < |b| && a[..j] == b[..j] && (j == |a| || a[j] < b[j]);
    var k := |before| + j;
    assert (before + a)[..k] == before + a[..j];
    assert (before + b)[..k] == before + b[..j];
  }

  /** The documented order: fewer controls, then the rank vector. Equal rank vectors mean
      equal cuts, so the level vector never decides. */
  ghost predicate ComesBefore(tops: seq<nat>, v: Levels, w: Levels)
    requires |v| == |w| == |tops|
  {
    || |Raised(v)| < |Raised(w)|
    || (|Raised(v)| == |Raised(w)| && TupleLess(RankVector(tops, v, 0), RankVector(tops, w, 0)))
  }

  // ---------------------------------------------------------------------------
  // Which of two level vectors the rank order prefers
  // ---------------------------------------------------------------------------

  /** Some control from `c` on is raised. */
  predicate RaisedFrom(w: Levels, c: nat) {
    exists d :: c <= d < |w| && w[d] >= 1
  }

  lemma {:induction false} BaseMonotone(tops: seq<nat>, c: nat, d: nat)
    requires c <= d <= |tops|
    ensures Base(tops, c) <= Base(tops, d)
    decreases d
  {
    if c < d {
      BaseMonotone(tops, c, d - 1);
    }
  }

  /** Ranks of later controls are higher, and there are some exactly when one is raised. */
  lemma {:induction false} LaterRanks(tops: seq<nat>, w: Levels, c: nat)
    requires |w| == |tops| && c <= |tops|
    ensures RankVector(tops, w, c) != [] <==> RaisedFrom(w, c)
    ensures RankVector(tops, w, c) != [] ==> RankVector(tops, w, c)[0] >= Base(tops, c)
    decreases |tops| - c
  {
    if c < |tops| {
      LaterRanks(tops, w, c + 1);
      BaseMonotone(tops, c, c + 1);
      if d :| c <= d < |w| && w[d] >= 1 {
        assert d == c || RaisedFrom(w, c + 1);
      }
    }
  }

  lemma {:induction false} SharedRanks(tops: seq<nat>, v: Levels, w: Levels, from: nat, c: nat)
    returns (before: seq<nat>)
    requires |v| == |w| == |tops| && from <= c <= |tops| && v[from..c] == w[from..c]
    ensures RankVector(tops, v, from) == before + RankVector(tops, v, c)
    ensures RankVector(tops, w, from) == before + RankVector(tops, w, c)
    decreases c - from
  {
    if from == c {
      before := [];
    } else {
      assert v[from] == v[from..c][0] && w[from] == w[from..c][0];
      assert v[from + 1..c] == v[from..c][1..] && w[from + 1..c] == w[from..c][1..];
      var rest := SharedRanks(tops, v, w, from + 1, c);
      before := Block(Base(tops, from), v[from]) + rest;
    }
  }

  /** Where two cuts first differ, the lower level comes first only if the lower cut raises
      nothing after it; otherwise the higher level does. */
  lemma {:induction false} FirstDifferenceDecides(tops: seq<nat>, low: Levels, high: Levels, c: nat)
    requires Within(tops, low) && Within(tops, high) && c < |tops| && low[..c] == high[..c] && low[c] < high[c]
    ensures RaisedFrom(low, c + 1) ==> TupleLess(RankVector(tops, high, 0), RankVector(tops, low, 0))
    ensures !RaisedFrom(low, c + 1) ==> TupleLess(RankVector(tops, low, 0), RankVector(tops, high, 0))
  {
    assert low[0..c] == high[0..c];
    var before := SharedRanks(tops, low, high, 0, c);
    var base, lowTail, highTail := Base(tops, c), RankVector(tops, low, c + 1), RankVector(tops, high, c + 1);
    LaterRanks(tops, low, c + 1);
    var a, b := Block(base, low[c]) + lowTail, Block(base, high[c]) + highTail;
    var j := low[c];
    assert a[..j] == Block(base, j) && b[..j] == Block(base, j);
    assert b[j] == base + j;
    if RaisedFrom(low, c + 1) {
      assert a[j] == lowTail[0] >= base + tops[c];
      assert TupleLess(b, a);
      TupleLessBehind(before, b, a);
    } else {
      assert |a| == j;
      assert TupleLess(a, b);
      TupleLessBehind(before, a, b);
    }
  }

  // ---------------------------------------------------------------------------
  // When the two orders pick the same cut
  // ---------------------------------------------------------------------------

  /** Only the last control has several levels, or the last but one when the last has one. */
  predicate Shallow(tops: seq<nat>) {
    forall c :: 0 <= c && c + 1 < |tops| && tops[c] >= 2 ==> c + 2 == |tops| && tops[c + 1] == 1
  }

  /** A member of the family both orders choose from: a minimum, with no level to lower. */
  ghost predicate Candidate(q: Problem, w: Levels) {
    && HittingLevels(q, w)
    && LevelMinimal(q, Raised(w), w)
    && forall v :: HittingLevels(q, v) ==> |Raised(w)| <= |Raised(v)|
  }

  /** The selected cut comes first among all candidates in the documented order. */
  ghost predicate SelectsFirst(q: Problem, w: Levels) {
    forall v :: Candidate(q, v) && v != w ==> |v| == |w| && ComesBefore(Tops(q), w, v)
  }

  ghost predicate SelectionFollowsTieBreak(tops: seq<nat>) {
    forall q, k, w :: ValidProblem(q) && Tops(q) == tops && CanonicalAt(q, k, w) && Candidate(q, w) ==>
      SelectsFirst(q, w)
  }

  lemma {:induction false} RaisedSplit(w: Levels, c: nat)
    requires c <= |w|
    ensures Raised(w[..c]) <= Raised(w)
    ensures forall k :: |Raised(w[..c])| <= k < |Raised(w)| ==> Raised(w)[k] >= c
    decreases |w| - c
  {
    if c == |w| {
      assert w[..c] == w;
    } else {
      RaisedSplit(w, c + 1);
      assert w[..c + 1][..c] == w[..c];
    }
  }

  /** Raising the first control that differs, when as many are raised in all, comes first. */
  lemma {:induction false} EarlierRaisedPrecedes(v: Levels, w: Levels, c: nat)
    requires |v| == |w| && c < |v| && v[..c] == w[..c] && v[c] >= 1 && w[c] == 0 && |Raised(v)| == |Raised(w)|
    ensures LexLess(Raised(v), Raised(w)) && RaisedFrom(w, c + 1)
  {
    var shared := Raised(v[..c]);
    RaisedNext(v, c);
    RaisedNext(w, c);
    var k := |shared|;
    assert Raised(v)[..k] == shared && Raised(v)[k] == c;
    assert k < |Raised(w)| && Raised(w)[..k] == shared && Raised(w)[k] > c;
    assert Raised(w)[k] in Raised(w);
  }

  lemma RaisedNext(w: Levels, c: nat)
    requires c < |w|
    ensures Raised(w[..c]) <= Raised(w)
    ensures |Raised(w[..c + 1])| == |Raised(w[..c])| + if w[c] >= 1 then 1 else 0
    ensures w[c] >= 1 ==> |Raised(w[..c])| < |Raised(w)| && Raised(w)[|Raised(w[..c])|] == c
    ensures w[c] == 0 && |Raised(w[..c])| < |Raised(w)| ==> Raised(w)[|Raised(w[..c])|] > c
  {
    RaisedSplit(w, c);
    RaisedSplit(w, c + 1);
    assert w[..c + 1][..c] == w[..c];
  }

  /** Something is raised from `c` on exactly when more is raised than before `c`. */
  lemma {:induction false} RaisedFromCounts(w: Levels, c: nat)
    requires c <= |w|
    ensures RaisedFrom(w, c) <==> |Raised(w)| > |Raised(w[..c])|
  {
    RaisedSplit(w, c);
    var before := Raised(w[..c]);
    if |Raised(w)| > |before| {
      assert Raised(w)[|before|] in Raised(w);
    } else {
      assert Raised(w) == before;
      forall d | c <= d < |w| ensures w[d] == 0 {
        assert d !in before;
      }
    }
  }

  lemma {:induction false} SameControls(low: Levels, high: Levels)
    requires |low| == |high| && forall c :: 0 <= c < |low| ==> (low[c] >= 1 <==> high[c] >= 1)
    ensures Raised(low) == Raised(high)
  {
    forall d: nat ensures d in Raised(low) <==> d in Raised(high) {
    }
    AscendingUnique(Raised(low), Raised(high));
  }

  /** Levels are not minimal when one control alone can go down and still hit. */
  lemma NoSlack(q: Problem, raised: seq<nat>, low: Levels, high: Levels, c: nat)
    requires ValidProblem(q) && ValidLevels(q, low) && ValidLevels(q, high) && HitsEvery(q, raised, low)
    requires c in raised && c < |low| && 1 <= low[c] < high[c] && high == low[c := high[c]]
    ensures !LevelMinimal(q, raised, high)
  {
    HitsEveryMonotone(q, raised, low, raised, high[c := high[c] - 1]);
  }

  lemma {:induction false} FirstDifference(v: Levels, w: Levels) returns (c: nat)
    requires |v| == |w| && v != w
    ensures c < |v| && v[..c] == w[..c] && v[c] != w[c]
    decreases |v|
  {
    var n := |v| - 1;
    if v[..n] == w[..n] {
      assert v == v[..n] + [v[n]] && w == w[..n] + [w[n]];
      c := n;
    } else {
      c := FirstDifference(v[..n], w[..n]);
      assert v[..n][..c] == v[..c] && w[..n][..c] == w[..c];
    }
  }

  lemma UpTo(w: Levels, v: Levels, c: nat)
    requires |w| == |v| && c <= |w| && w[..c] == v[..c]
    ensures forall e :: 0 <= e < c ==> w[e] == v[e]
  {
    forall e | 0 <= e < c ensures w[e] == v[e] {
      assert w[..c][e] == v[..c][e];
    }
  }

  /** Two cuts that raise as many controls, agree up to `c` and both raise `c`: what they
      raise later is as much. */
  lemma {:induction false} LaterAlike(w: Levels, v: Levels, c: nat)
    requires |w| == |v| && c < |w| && w[..c] == v[..c] && w[c] >= 1 && v[c] >= 1 && |Raised(w)| == |Raised(v)|
    ensures RaisedFrom(w, c + 1) <==> RaisedFrom(v, c + 1)
  {
    RaisedNext(w, c);
    RaisedNext(v, c);
    RaisedFromCounts(w, c + 1);
    RaisedFromCounts(v, c + 1);
  }

  /** Under a shallow table the cuts then differ at `c` alone. */
  lemma {:induction false} DifferAlone(tops: seq<nat>, w: Levels, v: Levels, c: nat)
    requires Shallow(tops) && Within(tops, w) && Within(tops, v) && |Raised(w)| == |Raised(v)|
    requires c < |tops| && w[..c] == v[..c] && w[c] >= 1 && v[c] >= 1 && w[c] != v[c]
    ensures v == w[c := v[c]]
  {
    LaterAlike(w, v, c);
    UpTo(w, v, c);
    assert tops[c] >= 2;
    if c + 1 < |tops| {
      assert c + 2 == |tops| && tops[c + 1] == 1;
      assert RaisedFrom(w, c + 1) <==> w[c + 1] >= 1;
      assert RaisedFrom(v, c + 1) <==> v[c + 1] >= 1;
    }
  }

  /** Under a shallow table two candidates raise a control alike where they first differ. */
  lemma {:induction false} RaisedAlike(q: Problem, w: Levels, v: Levels, c: nat)
    requires ValidProblem(q) && Shallow(Tops(q)) && ValidLevels(q, w) && ValidLevels(q, v) && |Raised(w)| == |Raised(v)|
    requires HitsEvery(q, Raised(w), w) && LevelMinimal(q, Raised(w), w)
    requires HitsEvery(q, Raised(v), v) && LevelMinimal(q, Raised(v), v)
    requires c < |w| && w[..c] == v[..c] && w[c] >= 1 && v[c] >= 1
    ensures w[c] == v[c]
  {
    if w[c] != v[c] {
      DifferAlone(Tops(q), w, v, c);
      SameControls(w, v);
      NotLower(q, Raised(w), w, v, c);
      NotLower(q, Raised(w), v, w, c);
    }
  }

  lemma NotLower(q: Problem, raised: seq<nat>, low: Levels, high: Levels, c: nat)
    requires ValidProblem(q) && ValidLevels(q, low) && ValidLevels(q, high)
    requires c in raised && c < |low| && low[c] >= 1 && forall d :: 0 <= d < |low| && d != c ==> low[d] == high[d]
    requires HitsEvery(q, raised, low) && LevelMinimal(q, raised, high)
    ensures low[c] >= high[c]
  {
    if low[c] < high[c] {
      assert high == low[c := high[c]];
      NoSlack(q, raised, low, high, c);
    }
  }

  /** Under a shallow table the selected cut comes first. */
  lemma ShallowSelectsFirst(q: Problem, k: nat, w: Levels, v: Levels)
    requires ValidProblem(q) && Shallow(Tops(q)) && CanonicalAt(q, k, w) && Candidate(q, w) && Candidate(q, v) && v != w
    ensures ComesBefore(Tops(q), w, v)
  {
    assert |Raised(v)| == |Raised(w)|;
    var c := FirstDifference(w, v);
    if w[c] == 0 {
      assert Precedes(w, v);
      EarlierRaisedPrecedes(v, w, c);
      LexLessAsymmetric(Raised(v), Raised(w));
    } else if v[c] == 0 {
      EarlierRaisedPrecedes(w, v, c);
      FirstDifferenceDecides(Tops(q), v, w, c);
    } else {
      RaisedAlike(q, w, v, c);
    }
  }

  // ---------------------------------------------------------------------------
  // A table that is not shallow has a clause set on which the orders disagree
  // ---------------------------------------------------------------------------

  /** The clauses each control hits at level one, and those it adds at level two. */
  datatype Share = Share(first: set<nat>, more: set<nat>)

  function Shares(tops: seq<nat>, clauses: nat, shares: seq<Share>): (q: Problem)
    requires |shares| == |tops|
    ensures q.clauses == clauses && |q.perLevel| == |tops|
    ensures forall c :: 0 <= c < |tops| ==> |q.perLevel[c]| == tops[c]
    ensures forall c, l :: 0 <= c < |tops| && 0 <= l < tops[c]
                           ==> q.perLevel[c][l] == if l == 0 then shares[c].first else shares[c].first + shares[c].more
  {
    Problem(clauses, seq(|tops|, c requires 0 <= c < |tops| =>
      seq(tops[c], l requires 0 <= l < tops[c] => if l == 0 then shares[c].first
                                      else shares[c].first + shares[c].more)))
  }

  function TwoLevels(n: nat, i: nat, level: nat, j: nat, level': nat): (w: Levels)
    ensures |w| == n && forall c :: 0 <= c < n ==> w[c] == if c == i then level else if c == j then level' else 0
  {
    seq(n, c => if c == i then level else if c == j then level' else 0)
  }

  ghost predicate AllHaveLevels(tops: seq<nat>) {
    forall c :: 0 <= c < |tops| ==> tops[c] >= 1
  }

  lemma {:induction false} SharesValid(tops: seq<nat>, clauses: nat, shares: seq<Share>)
    requires AllHaveLevels(tops) && |shares| == |tops|
    requires forall c :: 0 <= c < |tops| ==> shares[c].first <= Range(clauses) && shares[c].more <= Range(clauses)
    ensures ValidProblem(Shares(tops, clauses, shares)) && Tops(Shares(tops, clauses, shares)) == tops
  {
  }

  /** Control `c` at its level hits clause `x`. */
  ghost predicate Has(shares: seq<Share>, w: Levels, c: nat, x: nat) {
    c < |w| && c < |shares| && w[c] >= 1 && (x in shares[c].first || (w[c] >= 2 && x in shares[c].more))
  }

  ghost predicate SomeHas(shares: seq<Share>, w: Levels, x: nat) {
    exists c :: Has(shares, w, c, x)
  }

  lemma SharesHit(tops: seq<nat>, clauses: nat, shares: seq<Share>, w: Levels)
    requires |shares| == |tops| && Within(tops, w)
    ensures HittingLevels(Shares(tops, clauses, shares), w) <==> forall x :: 0 <= x < clauses ==> SomeHas(shares, w, x)
  {
    var q := Shares(tops, clauses, shares);
    forall x | 0 <= x < clauses ensures ClauseHit(q, Raised(w), w, x) <==> SomeHas(shares, w, x) {
      if ClauseHit(q, Raised(w), w, x) {
        var c :| c in Raised(w) && LevelHit(q, w, c, x);
        assert Has(shares, w, c, x);
      }
      if SomeHas(shares, w, x) {
        var c :| Has(shares, w, c, x);
        assert c in Raised(w) && LevelHit(q, w, c, x);
      }
    }
  }

  /** Two adjacent controls with two levels each: the first clause needs the one, the second
      the other, and the third either at its second level. */
  function PairShares(n: nat, i: nat): (s: seq<Share>)
    ensures |s| == n
    ensures forall c :: 0 <= c < n ==>
              s[c] == if c == i then Share({0}, {2}) else if c == i + 1 then Share({1}, {2}) else Share({}, {})
  {
    seq(n, c => if c == i then Share({0}, {2}) else if c == i + 1 then Share({1}, {2}) else Share({}, {}))
  }

  function DeepPair(tops: seq<nat>, i: nat): Problem {
    Shares(tops, 3, PairShares(|tops|, i))
  }

  /** A control with two levels and two more after it: the first clause needs the one, the
      second its second level or the next control, the third either of the later two. */
  function TripleShares(n: nat, i: nat): (s: seq<Share>)
    ensures |s| == n
    ensures forall c :: 0 <= c < n ==>
              s[c] == if c == i then Share({0}, {1}) else if c == i + 1 then Share({1, 2}, {})
                   else if c == i + 2 then Share({2}, {})
                      else Share({}, {})
  {
    seq(n, c => if c == i then Share({0}, {1}) else if c == i + 1 then Share({1, 2}, {})
                else if c == i + 2 then Share({2}, {})
                else Share({}, {}))
  }

  function DeepTriple(tops: seq<nat>, i: nat): Problem {
    Shares(tops, 3, TripleShares(|tops|, i))
  }

  lemma DeepValid(tops: seq<nat>, i: nat)
    requires AllHaveLevels(tops)
    ensures ValidProblem(DeepPair(tops, i)) && Tops(DeepPair(tops, i)) == tops
    ensures ValidProblem(DeepTriple(tops, i)) && Tops(DeepTriple(tops, i)) == tops
  {
    assert 0 in Range(3) && 1 in Range(3) && 2 in Range(3);
    SharesValid(tops, 3, PairShares(|tops|, i));
    SharesValid(tops, 3, TripleShares(|tops|, i));
  }

  /** What it takes to hit the clauses of a deep pair. */
  lemma PairHits(tops: seq<nat>, i: nat, w: Levels)
    requires i + 1 < |tops| && Within(tops, w)
    ensures HittingLevels(DeepPair(tops, i), w) <==> w[i] >= 1 && w[i + 1] >= 1 && (w[i] >= 2 || w[i + 1] >= 2)
  {
    var shares := PairShares(|tops|, i);
    SharesHit(tops, 3, shares, w);
    assert SomeHas(shares, w, 0) <==> Has(shares, w, i, 0);
    assert SomeHas(shares, w, 1) <==> Has(shares, w, i + 1, 1);
    assert SomeHas(shares, w, 2) <==> Has(shares, w, i, 2) || Has(shares, w, i + 1, 2);
  }

  /** What it takes to hit the clauses of a deep triple. */
  lemma TripleHits(tops: seq<nat>, i: nat, w: Levels)
    requires i + 2 < |tops| && Within(tops, w)
    ensures HittingLevels(DeepTriple(tops, i), w)
       <==> w[i] >= 1 && (w[i] >= 2 || w[i + 1] >= 1) && (w[i + 1] >= 1 || w[i + 2] >= 1)
  {
    var shares := TripleShares(|tops|, i);
    SharesHit(tops, 3, shares, w);
    assert SomeHas(shares, w, 0) <==> Has(shares, w, i, 0);
    assert SomeHas(shares, w, 1) <==> Has(shares, w, i, 1) || Has(shares, w, i + 1, 1);
    assert SomeHas(shares, w, 2) <==> Has(shares, w, i + 1, 2) || Has(shares, w, i + 2, 2);
  }

  lemma {:induction false} OnlyTwoRaised(w: Levels, i: nat, j: nat)
    requires i < j < |w| && w[i] >= 1 && w[j] >= 1 && forall c :: 0 <= c < |w| && c != i && c != j ==> w[c] == 0
    ensures Raised(w) == [i, j]
  {
    AscendingUnique(Raised(w), [i, j]);
  }

  /** With one level above one, minimality of the levels is one test. */
  lemma {:induction false} OneToLower(q: Problem, w: Levels, c: nat)
    requires ValidLevels(q, w) && c < |w| && w[c] == 2 && forall d :: 0 <= d < |w| && d != c ==> w[d] <= 1
    requires !HittingLevels(q, w[c := 1])
    ensures LevelMinimal(q, Raised(w), w)
  {
    SameControls(w, w[c := 1]);
  }

  /** The documented order puts `v` before the cut the selection picks. */
  ghost predicate Overtaken(q: Problem, u: Levels, v: Levels) {
    ValidProblem(q) && Candidate(q, u) && Candidate(q, v) && CanonicalAt(q, |Raised(u)|, u)
    && !ComesBefore(Tops(q), u, v) && u != v
  }

  lemma {:induction false} HigherLevelOvertakes(q: Problem, u: Levels, v: Levels, c: nat)
    requires ValidProblem(q) && Candidate(q, u) && Candidate(q, v) && CanonicalAt(q, |Raised(u)|, u)
    requires c + 1 < |u| && (forall d :: 0 <= d < c ==> u[d] == v[d]) && u[c] < v[c] && u[c + 1] >= 1
    ensures Overtaken(q, u, v)
  {
    assert u[..c] == v[..c];
    assert RaisedFrom(u, c + 1);
    FirstDifferenceDecides(Tops(q), u, v, c);
    TupleLessAsymmetric(RankVector(Tops(q), v, 0), RankVector(Tops(q), u, 0));
  }

  lemma {:induction false} LexOfTwo(u: Levels, w: Levels, i: nat, j: nat)
    requires |u| == |w| && i < |u| && j < |u| && Raised(u) == Raised(w) == [i, j]
    requires u[i] < w[i] || (u[i] == w[i] && u[j] <= w[j])
    ensures Precedes(u, w)
  {
    var a, b := Project(u, [i, j]), Project(w, [i, j]);
    assert a == [u[i], u[j]] && b == [w[i], w[j]];
    if u[i] < w[i] {
      assert a[..0] == b[..0];
    } else if u[j] < w[j] {
      assert a[..1] == b[..1];
    }
  }

  /** Exactly two controls are raised, at the given levels. */
  ghost predicate RaisesTwo(n: nat, w: Levels, i: nat, level: nat, j: nat, level': nat) {
    && |w| == n && i < j < n && w[i] == level >= 1 && w[j] == level' >= 1
    && forall c :: 0 <= c < n && c != i && c != j ==> w[c] == 0
  }

  lemma {:induction false} PairLevelsMinimal(tops: seq<nat>, i: nat, w: Levels, c: nat)
    requires i + 1 < |tops| && Within(tops, w) && i <= c <= i + 1 && w[i] >= 1 && w[i + 1] >= 1
    requires w[c] == 2 && forall d :: 0 <= d < |w| && d != c ==> w[d] <= 1
    ensures HittingLevels(DeepPair(tops, i), w) && LevelMinimal(DeepPair(tops, i), Raised(w), w)
  {
    PairHits(tops, i, w);
    PairHits(tops, i, w[c := 1]);
    OneToLower(DeepPair(tops, i), w, c);
  }

  lemma {:induction false} FirstOfPair(u: Levels, w: Levels, i: nat)
    requires |u| == |w| && i + 1 < |u| && u[i] == 1 && u[i + 1] == 2 && Raised(u) == [i, i + 1]
    requires |Raised(w)| == 2 && w[i] >= 1 && w[i + 1] >= 1 && (w[i] >= 2 || w[i + 1] >= 2)
    ensures Precedes(u, w)
  {
    TwoRaised(w, i, i + 1);
    LexOfTwo(u, w, i, i + 1);
  }

  lemma {:induction false} PairCandidate(tops: seq<nat>, i: nat, w: Levels, c: nat)
    requires i + 1 < |tops| && i <= c <= i + 1 && tops[i] >= 2 && tops[i + 1] >= 2
    requires RaisesTwo(|tops|, w, i, if c == i then 2 else 1, i + 1, if c == i then 1 else 2)
    ensures Raised(w) == [i, i + 1] && Candidate(DeepPair(tops, i), w)
  {
    OnlyTwoRaised(w, i, i + 1);
    PairLevelsMinimal(tops, i, w, c);
    forall v | HittingLevels(DeepPair(tops, i), v) ensures |Raised(v)| >= 2 {
      PairHits(tops, i, v);
      TwoRaised(v, i, i + 1);
    }
  }

  lemma {:induction false} PairCanonical(tops: seq<nat>, i: nat, u: Levels)
    requires i + 1 < |tops| && Candidate(DeepPair(tops, i), u) && Raised(u) == [i, i + 1] && u[i] == 1 && u[i + 1] == 2
    ensures CanonicalAt(DeepPair(tops, i), 2, u)
  {
    forall w | HittingLevels(DeepPair(tops, i), w) && |Raised(w)| == 2 ensures Precedes(u, w) {
      PairHits(tops, i, w);
      FirstOfPair(u, w, i);
    }
  }

  lemma PairOvertakes(tops: seq<nat>, i: nat, u: Levels, v: Levels)
    requires AllHaveLevels(tops) && i + 1 < |tops| && tops[i] >= 2 && tops[i + 1] >= 2
    requires RaisesTwo(|tops|, u, i, 1, i + 1, 2) && RaisesTwo(|tops|, v, i, 2, i + 1, 1)
    ensures Overtaken(DeepPair(tops, i), u, v)
  {
    DeepValid(tops, i);
    PairCandidate(tops, i, u, i + 1);
    PairCandidate(tops, i, v, i);
    PairCanonical(tops, i, u);
    HigherLevelOvertakes(DeepPair(tops, i), u, v, i);
  }

  lemma TripleMinimum(tops: seq<nat>, i: nat)
    requires i + 2 < |tops|
    ensures forall w :: HittingLevels(DeepTriple(tops, i), w) ==> |Raised(w)| >= 2
  {
    forall w | HittingLevels(DeepTriple(tops, i), w) ensures |Raised(w)| >= 2 {
      TripleHits(tops, i, w);
      TwoRaised(w, i, if w[i + 1] >= 1 then i + 1 else i + 2);
    }
  }

  lemma {:induction false} TripleCandidates(tops: seq<nat>, i: nat, u: Levels, v: Levels)
    requires AllHaveLevels(tops) && i + 2 < |tops| && tops[i] >= 2
    requires RaisesTwo(|tops|, u, i, 1, i + 1, 1) && RaisesTwo(|tops|, v, i, 2, i + 2, 1)
    ensures Raised(u) == [i, i + 1] && Raised(v) == [i, i + 2]
    ensures Candidate(DeepTriple(tops, i), u) && Candidate(DeepTriple(tops, i), v)
  {
    TripleMinimum(tops, i);
    TripleHits(tops, i, u);
    TripleHits(tops, i, v);
    OnlyTwoRaised(u, i, i + 1);
    OnlyTwoRaised(v, i, i + 2);
    TripleHits(tops, i, v[i := 1]);
    OneToLower(DeepTriple(tops, i), v, i);
  }

  lemma {:induction false} FirstOfTriple(u: Levels, w: Levels, i: nat)
    requires |u| == |w| && i + 2 < |u| && u[i] == 1 && u[i + 1] == 1 && Raised(u) == [i, i + 1]
    requires |Raised(w)| == 2 && w[i] >= 1 && (w[i + 1] >= 1 || w[i + 2] >= 1)
    ensures Precedes(u, w)
  {
    if w[i + 1] >= 1 {
      TwoRaised(w, i, i + 1);
      LexOfTwo(u, w, i, i + 1);
    } else {
      TwoRaised(w, i, i + 2);
      assert [i, i + 1][..1] == [i, i + 2][..1];
    }
  }

  lemma {:induction false} TripleCanonical(tops: seq<nat>, i: nat, u: Levels)
    requires i + 2 < |tops| && Candidate(DeepTriple(tops, i), u) && Raised(u) == [i, i + 1] && u[i] == 1
    requires u[i + 1] == 1
    ensures CanonicalAt(DeepTriple(tops, i), 2, u)
  {
    forall w | HittingLevels(DeepTriple(tops, i), w) && |Raised(w)| == 2 ensures Precedes(u, w) {
      TripleHits(tops, i, w);
      FirstOfTriple(u, w, i);
    }
  }

  lemma TripleOvertakes(tops: seq<nat>, i: nat, u: Levels, v: Levels)
    requires AllHaveLevels(tops) && i + 2 < |tops| && tops[i] >= 2
    requires RaisesTwo(|tops|, u, i, 1, i + 1, 1) && RaisesTwo(|tops|, v, i, 2, i + 2, 1)
    ensures Overtaken(DeepTriple(tops, i), u, v)
  {
    DeepValid(tops, i);
    TripleCandidates(tops, i, u, v);
    TripleCanonical(tops, i, u);
    HigherLevelOvertakes(DeepTriple(tops, i), u, v, i);
  }

  /** The selection returns the first cut in the documented order, for every clause set over a
      table, exactly when the table is shallow. */
  lemma SelectionFollowsTieBreakIffShallow(tops: seq<nat>)
    requires AllHaveLevels(tops)
    ensures SelectionFollowsTieBreak(tops) <==> Shallow(tops)
  {
    if Shallow(tops) {
      forall q, k, w | ValidProblem(q) && Tops(q) == tops && CanonicalAt(q, k, w) && Candidate(q, w)
        ensures SelectsFirst(q, w)
      {
        forall v | Candidate(q, v) && v != w ensures |v| == |w| && ComesBefore(Tops(q), w, v) {
          ShallowSelectsFirst(q, k, w, v);
        }
      }
    } else {
      DeepTableOvertakes(tops);
    }
  }

  lemma DeepTableOvertakes(tops: seq<nat>)
    requires AllHaveLevels(tops) && !Shallow(tops)
    ensures !SelectionFollowsTieBreak(tops)
  {
    var i: nat :| i + 1 < |tops| && tops[i] >= 2 && !(i + 2 == |tops| && tops[i + 1] == 1);
    DeepValid(tops, i);
    if i + 2 < |tops| {
      var u, v := TwoLevels(|tops|, i, 1, i + 1, 1), TwoLevels(|tops|, i, 2, i + 2, 1);
      TripleOvertakes(tops, i, u, v);
      RefutedBy(tops, DeepTriple(tops, i), u, v);
    } else {
      var u, v := TwoLevels(|tops|, i, 1, i + 1, 2), TwoLevels(|tops|, i, 2, i + 1, 1);
      PairOvertakes(tops, i, u, v);
      RefutedBy(tops, DeepPair(tops, i), u, v);
    }
  }

  lemma RefutedBy(tops: seq<nat>, q: Problem, u: Levels, v: Levels)
    requires Tops(q) == tops && Overtaken(q, u, v)
    ensures !SelectionFollowsTieBreak(tops)
  {
    assert !SelectsFirst(q, u);
  }

  // ---------------------------------------------------------------------------
  // Every covering problem is some clause set's
  // ---------------------------------------------------------------------------

  /** The levels of a table's controls. */
  ghost predicate TopsOf(t: Table, tops: seq<nat>) {
    |tops| == |ControlsOf(t)| && forall c :: 0 <= c < |tops| ==> tops[c] == |LevelsOf(t, ControlsOf(t)[c])|
  }

  /** The literal of a rank is a level at which the problem hits the clause. */
  ghost predicate Marks(q: Problem, t: Table, i: nat, rank: nat)
    requires TopsOf(t, Tops(q))
  {
    exists k, l :: 0 <= k < |q.perLevel| && 0 <= l < |q.perLevel[k]| && LevelsOf(t, ControlsOf(t)[k])[l].rank == rank
      && i in q.perLevel[k][l]
  }

  ghost function MarkedClause(q: Problem, t: Table, i: nat): Clause
    requires TopsOf(t, Tops(q))
  {
    set rank: nat | rank < |t| && Marks(q, t, i, rank)
  }

  ghost function MarkedClauses(q: Problem, t: Table): (clauses: seq<Clause>)
    requires TopsOf(t, Tops(q))
    ensures |clauses| == q.clauses && forall i :: 0 <= i < q.clauses ==> clauses[i] == MarkedClause(q, t, i)
  {
    seq(q.clauses, i requires 0 <= i < q.clauses => MarkedClause(q, t, i))
  }

  /** A rank belongs to one level of one control. */
  lemma {:induction false} RankIsOneLevel(t: Table, k: nat, l: nat, m: nat, j: nat)
    requires WellFormedTable(t) && k < |ControlsOf(t)| && m < |ControlsOf(t)|
    requires l < |LevelsOf(t, ControlsOf(t)[k])| && j < |LevelsOf(t, ControlsOf(t)[m])|
    requires LevelsOf(t, ControlsOf(t)[k])[l].rank == LevelsOf(t, ControlsOf(t)[m])[j].rank
    ensures k == m && l == j
  {
    ControlsAscend(t);
    LevelsOfRank(t, ControlsOf(t)[k], l);
    LevelsOfRank(t, ControlsOf(t)[m], j);
  }

  lemma {:induction false} HitIsInReach(q: Problem, t: Table, k: nat, l: nat, i: nat)
    requires WellFormedTable(t) && TopsOf(t, Tops(q)) && k < |q.perLevel| && l < |q.perLevel[k]|
    requires i in q.perLevel[k][l]
    ensures InReach(LevelsOf(t, ControlsOf(t)[k]), l, MarkedClause(q, t, i))
  {
    var lits := LevelsOf(t, ControlsOf(t)[k]);
    assert Tops(q)[k] == |lits|;
    LevelsOfRank(t, ControlsOf(t)[k], l);
    assert Marks(q, t, i, lits[l].rank);
    assert lits[l].rank in MarkedClause(q, t, i);
  }

  lemma {:induction false} MarkIsOneLevel(q: Problem, t: Table, k: nat, j: nat, i: nat)
    requires WellFormedTable(t) && TopsOf(t, Tops(q)) && k < |q.perLevel| && j < |LevelsOf(t, ControlsOf(t)[k])|
    requires Marks(q, t, i, LevelsOf(t, ControlsOf(t)[k])[j].rank)
    ensures j < |q.perLevel[k]| && i in q.perLevel[k][j]
  {
    var m, n :| 0 <= m < |q.perLevel| && 0 <= n < |q.perLevel[m]| && i in q.perLevel[m][n]
                && LevelsOf(t, ControlsOf(t)[m])[n].rank == LevelsOf(t, ControlsOf(t)[k])[j].rank;
    assert Tops(q)[m] == |LevelsOf(t, ControlsOf(t)[m])|;
    RankIsOneLevel(t, m, n, k, j);
  }

  lemma {:induction false} InReachIsHit(q: Problem, t: Table, k: nat, l: nat, i: nat)
    requires WellFormedTable(t) && ValidProblem(q) && TopsOf(t, Tops(q)) && k < |q.perLevel| && l < |q.perLevel[k]|
    requires InReach(LevelsOf(t, ControlsOf(t)[k]), l, MarkedClause(q, t, i))
    ensures i in q.perLevel[k][l]
  {
    var lits := LevelsOf(t, ControlsOf(t)[k]);
    var j :| 0 <= j <= l && j < |lits| && lits[j].rank in MarkedClause(q, t, i);
    MarkIsOneLevel(q, t, k, j, i);
    assert q.perLevel[k][j] <= q.perLevel[k][l];
  }

  /** Any covering problem with a table's levels is the problem of some clauses over the table. */
  lemma {:induction false} EveryProblemArises(q: Problem, t: Table)
    requires WellFormedTable(t) && ValidProblem(q) && TopsOf(t, Tops(q))
    ensures ProblemOf(q, MarkedClauses(q, t), t)
    ensures forall i :: 0 <= i < q.clauses ==> MarkedClauses(q, t)[i] <= Range(|t|)
  {
    var clauses := MarkedClauses(q, t);
    forall k, l | 0 <= k < |q.perLevel| && 0 <= l < |q.perLevel[k]|
      ensures LevelRow(clauses, LevelsOf(t, ControlsOf(t)[k]), l, q.perLevel[k][l])
    {
      assert q.perLevel[k][l] <= Range(q.clauses);
      forall i: nat | i in q.perLevel[k][l] ensures InReach(LevelsOf(t, ControlsOf(t)[k]), l, clauses[i]) {
        HitIsInReach(q, t, k, l, i);
      }
      forall i: nat | i < |clauses| && InReach(LevelsOf(t, ControlsOf(t)[k]), l, clauses[i])
        ensures i in q.perLevel[k][l]
      {
        InReachIsHit(q, t, k, l, i);
      }
    }
  }

  /** For every clause set over the table, the selection is first in the documented order. */
  ghost predicate FollowsOver(t: Table) {
    forall clauses, q, k, w :: ProblemOf(q, clauses, t) && CanonicalAt(q, k, w) && Candidate(q, w) ==>
      SelectsFirst(q, w)
  }

  /** Over a table, the documented order is followed for every clause set exactly when the table
      is shallow. */
  lemma {:induction false} FollowsOverIffShallow(t: Table, tops: seq<nat>)
    requires WellFormedTable(t) && TopsOf(t, tops)
    ensures AllHaveLevels(tops) && (FollowsOver(t) <==> Shallow(tops))
  {
    forall c | 0 <= c < |tops| ensures tops[c] >= 1 {
      ControlHasLevel(t, c);
    }
    SelectionFollowsTieBreakIffShallow(tops);
    if Shallow(tops) {
      forall clauses, q, k, w | ProblemOf(q, clauses, t) && CanonicalAt(q, k, w) && Candidate(q, w)
        ensures SelectsFirst(q, w)
      {
        ProblemIsValid(q, clauses, t);
        assert Tops(q) == tops;
      }
    }
    if FollowsOver(t) {
      forall q, k, w | ValidProblem(q) && Tops(q) == tops && CanonicalAt(q, k, w) && Candidate(q, w)
        ensures SelectsFirst(q, w)
      {
        EveryProblemArises(q, t);
      }
    }
  }
}
