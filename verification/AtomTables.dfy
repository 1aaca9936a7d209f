/** The literal universe and the cuts over it (cut.py, `AtomTable`, `_control_hits`; model.py,
    `Cut`). A literal says that a control is raised at least to a level; `rank` is its place
    in canonical order and `bit` its place in a mask.
 */
module AtomTables {
  import opened Reachability
  import opened Selection

  datatype Literal = Literal(control: nat, level: nat, bit: nat, rank: nat)

  type Table = seq<Literal>

  /** The literals of one control, in canonical order. */
  function LevelsOf(t: Table, c: nat): seq<Literal> {
    if t == [] then []
    else
      var front := LevelsOf(t[..|t| - 1], c);
      if t[|t| - 1].control == c then front + [t[|t| - 1]] else front
  }

  lemma {:induction false} LevelsOfLists(t: Table, c: nat)
    ensures forall a :: a in LevelsOf(t, c) <==> a in t && a.control == c
    decreases |t|
  {
    if t != [] {
      LevelsOfLists(t[..|t| - 1], c);
      assert t == t[..|t| - 1] + [t[|t| - 1]];
    }
  }

  predicate Before(a: Literal, b: Literal) {
    a.control < b.control || (a.control == b.control && a.level < b.level)
  }

  predicate DenseLevels(s: seq<Literal>) {
    forall j :: 0 <= j < |s| ==> s[j].level == j + 1
  }

  /** What `AtomTable.build` verifies. */
  ghost predicate WellFormedTable(t: Table) {
    && |t| <= 64
    && (forall i, j :: 0 <= i < j < |t| ==> Before(t[i], t[j]))
    && (forall i :: 0 <= i < |t| ==> t[i].rank == i && t[i].bit < 64)
    && (forall i, j :: 0 <= i < j < |t| ==> t[i].bit != t[j].bit)
    && EachDense(t)
  }

  ghost predicate EachDense(t: Table) {
    forall c: nat :: DenseLevels(LevelsOf(t, c))
  }

  /** Distinct control ids in canonical order. */
  function ControlsOf(t: Table): (s: seq<nat>)
    ensures forall c :: c in s ==> exists i :: 0 <= i < |t| && t[i].control == c
    ensures t != [] ==> s != [] && s[|s| - 1] == t[|t| - 1].control
  {
    if t == [] then []
    else
      var front := ControlsOf(t[..|t| - 1]);
      if front == [] || front[|front| - 1] != t[|t| - 1].control then front + [t[|t| - 1].control] else front
  }

  /** The distinct controls of a table in order, ascending. */
  method ListControls(t: Table) returns (seen: seq<nat>)
    requires forall i, j :: 0 <= i < j < |t| ==> Before(t[i], t[j])
    ensures seen == ControlsOf(t) && Ascending(seen)
    ensures forall c :: c in seen <==> exists r :: 0 <= r < |t| && t[r].control == c
  {
    ControlsAscend(t);
    ListedControls(t);
    seen := [];
    for i := 0 to |t|
      invariant seen == ControlsOf(t[..i])
    {
      assert t[..i + 1][..i] == t[..i];
      if seen == [] || seen[|seen| - 1] != t[i].control {
        seen := seen + [t[i].control];
      }
    }
    assert t[..|t|] == t;
  }

  lemma {:induction false} ListedControls(t: Table)
    ensures forall c :: c in ControlsOf(t) ==> exists r :: 0 <= r < |t| && t[r].control == c
    decreases |t|
  {
    if t != [] {
      var front := t[..|t| - 1];
      ListedControls(front);
      forall c | c in ControlsOf(t) ensures exists r :: 0 <= r < |t| && t[r].control == c {
        if c in ControlsOf(front) {
          var r :| 0 <= r < |front| && front[r].control == c;
          assert t[r].control == c;
        } else {
          assert t[|t| - 1].control == c;
        }
      }
    }
  }

  lemma {:induction false} ControlsAscend(t: Table)
    requires forall i, j :: 0 <= i < j < |t| ==> Before(t[i], t[j])
    ensures Ascending(ControlsOf(t))
    ensures forall i :: 0 <= i < |t| ==> t[i].control in ControlsOf(t)
    decreases |t|
  {
    if t != [] {
      var front := t[..|t| - 1];
      var last := t[|t| - 1].control;
      ControlsAscend(front);
      var s := ControlsOf(front);
      forall i | 0 <= i < |s| ensures s[i] <= last {
        assert s[i] in s;
        var j :| 0 <= j < |front| && front[j].control == s[i];
        assert Before(t[j], t[|t| - 1]);
      }
      forall i | 0 <= i < |t| ensures t[i].control in ControlsOf(t) {
        if i < |t| - 1 {
          assert front[i].control in s;
        }
      }
    }
  }

  /** A level per control, in canonical order of controls. */
  ghost predicate Admissible(t: Table, w: Levels) {
    |w| == |ControlsOf(t)| && forall k :: 0 <= k < |w| ==> w[k] <= |LevelsOf(t, ControlsOf(t)[k])|
  }

  /** The level of a control by id, zero when the control is not listed. */
  function LevelFor(controls: seq<nat>, w: Levels, c: nat): nat
    requires |w| == |controls|
  {
    if c in controls then w[Position(controls, c)] else 0
  }

  predicate Asserts(controls: seq<nat>, w: Levels, a: Literal)
    requires |w| == |controls|
  {
    a.level <= LevelFor(controls, w, a.control)
  }

  /** The ranks of the literals a level vector asserts. */
  ghost function CutRanks(t: Table, w: Levels): set<nat>
    requires Admissible(t, w)
  {
    set r | 0 <= r < |t| && Asserts(ControlsOf(t), w, t[r])
  }

  ghost function BitsOf(t: Table, ranks: set<nat>): Mask {
    set r | r in ranks && r < |t| :: t[r].bit
  }

  ghost function CutMask(t: Table, w: Levels): Mask
    requires Admissible(t, w)
  {
    BitsOf(t, CutRanks(t, w))
  }

  /** `ranks_of_mask`: the ranks a mask selects. */
  function RanksOfMask(t: Table, mask: Mask): set<nat> {
    set r | 0 <= r < |t| && t[r].bit in mask
  }

  /** Mask intersection and rank intersection agree, because no two literals share a bit. */
  lemma MasksMeetAsRanks(t: Table, mask: Mask, ranks: set<nat>)
    requires WellFormedTable(t) && forall r :: r in ranks ==> r < |t|
    ensures mask * BitsOf(t, ranks) != {} <==> RanksOfMask(t, mask) * ranks != {}
    ensures RanksOfMask(t, BitsOf(t, ranks)) == ranks
    ensures BitsOf(t, RanksOfMask(t, mask)) <= mask
  {
    if b :| b in mask * BitsOf(t, ranks) {
      var r :| r in ranks && r < |t| && t[r].bit == b;
      assert r in RanksOfMask(t, mask) * ranks;
    }
    if r :| r in RanksOfMask(t, mask) * ranks {
      assert t[r].bit in mask * BitsOf(t, ranks);
    }
    forall r | r in RanksOfMask(t, BitsOf(t, ranks)) ensures r in ranks {
      var s :| s in ranks && s < |t| && t[s].bit == t[r].bit;
    }
  }

  /** Raising levels asserts more literals. */
  lemma CutMaskMonotone(t: Table, v: Levels, w: Levels)
    requires Admissible(t, v) && Admissible(t, w) && forall k :: 0 <= k < |v| ==> v[k] <= w[k]
    ensures CutRanks(t, v) <= CutRanks(t, w)
    ensures CutMask(t, v) <= CutMask(t, w)
  {
  }

  // ---------------------------------------------------------------------------
  // A minted cut
  // ---------------------------------------------------------------------------

  datatype Minimality = ExactPsiRelative | SubsetOnly | Unverified

  /** `cardinality` counts raised controls, never literals. */
  datatype Cut = Cut(atoms: seq<Literal>, cardinality: nat, mask: Mask, minimality: Minimality)

  /** The literals at or below their control's level are levels 1..L of that control. */
  ghost predicate UpwardClosed(t: Table, atoms: seq<Literal>) {
    forall a, b :: a in atoms && b in t && b.control == a.control && b.level <= a.level ==> b in atoms
  }

  /** In a well-formed table a literal sits at its own level among its control's literals. */
  lemma {:induction false} LiteralAt(t: Table, r: nat)
    requires WellFormedTable(t) && r < |t|
    ensures 1 <= t[r].level <= |LevelsOf(t, t[r].control)|
    ensures LevelsOf(t, t[r].control)[t[r].level - 1] == t[r]
    ensures t[r].control in ControlsOf(t)
  {
    var s := LevelsOf(t, t[r].control);
    LevelsOfLists(t, t[r].control);
    assert t[r] in s;
    assert DenseLevels(s);
    var j :| 0 <= j < |s| && s[j] == t[r];
    ControlsAscend(t);
  }

  lemma {:induction false} LevelsOfRank(t: Table, c: nat, l: nat)
    requires WellFormedTable(t) && l < |LevelsOf(t, c)|
    ensures LevelsOf(t, c)[l].rank < |t| && t[LevelsOf(t, c)[l].rank] == LevelsOf(t, c)[l]
    ensures LevelsOf(t, c)[l].level == l + 1 && LevelsOf(t, c)[l].control == c
  {
    var a := LevelsOf(t, c)[l];
    LevelsOfLists(t, c);
    assert a in LevelsOf(t, c);
    var r :| 0 <= r < |t| && t[r] == a;
    assert DenseLevels(LevelsOf(t, c));
  }

  lemma {:induction false} ControlHasLevel(t: Table, k: nat)
    requires WellFormedTable(t) && k < |ControlsOf(t)|
    ensures |LevelsOf(t, ControlsOf(t)[k])| >= 1
  {
    var c := ControlsOf(t)[k];
    assert c in ControlsOf(t);
    var i :| 0 <= i < |t| && t[i].control == c;
    LevelsOfLists(t, c);
    assert t[i] in LevelsOf(t, c);
  }

  lemma {:induction false} PositionOfEntry(s: seq<nat>, k: nat)
    requires Ascending(s) && k < |s|
    ensures Position(s, s[k]) == k
  {
    assert s[..k + 1][k] == s[k];
    assert s[k] in s[..k + 1];
  }

  lemma {:induction false} LevelForIndex(t: Table, w: Levels, k: nat)
    requires WellFormedTable(t) && Admissible(t, w) && k < |w|
    ensures LevelFor(ControlsOf(t), w, ControlsOf(t)[k]) == w[k]
  {
    ControlsAscend(t);
    PositionOfEntry(ControlsOf(t), k);
  }

  /** The asserted literals among the first `n`, in canonical order. */
  function Asserted(t: Table, controls: seq<nat>, w: Levels, n: nat): (atoms: seq<Literal>)
    requires |w| == |controls| && n <= |t|
    ensures forall a :: a in atoms <==> a in t[..n] && Asserts(controls, w, a)
  {
    if n == 0 then []
    else
      assert t[..n] == t[..n - 1] + [t[n - 1]];
      var front := Asserted(t, controls, w, n - 1);
      if Asserts(controls, w, t[n - 1]) then front + [t[n - 1]] else front
  }

  lemma {:induction false} AssertedAscends(t: Table, controls: seq<nat>, w: Levels, n: nat)
    requires |w| == |controls| && n <= |t| && forall i :: 0 <= i < |t| ==> t[i].rank == i
    ensures forall x, y :: 0 <= x < y < |Asserted(t, controls, w, n)|
              ==> Asserted(t, controls, w, n)[x].rank < Asserted(t, controls, w, n)[y].rank
    ensures forall a :: a in Asserted(t, controls, w, n) ==> a.rank < n
  {
    if n > 0 {
      AssertedAscends(t, controls, w, n - 1);
      var front := Asserted(t, controls, w, n - 1);
      assert forall x :: 0 <= x < |front| ==> front[x] in front;
    }
  }

  ghost function AtomBits(atoms: seq<Literal>): Mask {
    set a | a in atoms :: a.bit
  }

  ghost function AtomControls(atoms: seq<Literal>): set<nat> {
    set a | a in atoms :: a.control
  }

  lemma AtomsAppend(atoms: seq<Literal>, a: Literal)
    ensures AtomBits(atoms + [a]) == AtomBits(atoms) + {a.bit}
    ensures AtomControls(atoms + [a]) == AtomControls(atoms) + {a.control}
  {
    assert forall b :: b in atoms + [a] <==> b in atoms || b == a;
  }

  /** `cut_of_levels` and `Cut.mint`. */
  method CutOfLevels(t: Table, w: Levels, minimality: Minimality) returns (cut: Cut)
    requires WellFormedTable(t) && Admissible(t, w)
    ensures forall a :: a in cut.atoms <==> a in t && Asserts(ControlsOf(t), w, a)
    ensures forall i, j :: 0 <= i < j < |cut.atoms| ==> cut.atoms[i].rank < cut.atoms[j].rank
    ensures UpwardClosed(t, cut.atoms)
    ensures cut.mask == CutMask(t, w)
    ensures cut.cardinality == |Raised(w)|
    ensures cut.minimality == minimality
  {
    var controls := ListControls(t);
    var atoms: seq<Literal>, mask: Mask, raised: set<nat> := [], {}, {};
    for i := 0 to |t|
      invariant atoms == Asserted(t, controls, w, i)
      invariant mask == AtomBits(atoms)
      invariant raised == AtomControls(atoms)
    {
      if Asserts(controls, w, t[i]) {
        AtomsAppend(atoms, t[i]);
        atoms := atoms + [t[i]];
        mask := mask + {t[i].bit};
        raised := raised + {t[i].control};
      }
    }
    AssertedAscends(t, controls, w, |t|);
    assert t[..|t|] == t;
    AssertedMeaning(t, w, atoms, mask, raised);
    cut := Cut(atoms, |raised|, mask, minimality);
  }

  /** The bits, controls and closure of the asserted literals. */
  lemma {:induction false} AssertedMeaning(t: Table, w: Levels, atoms: seq<Literal>, mask: Mask, raised: set<nat>)
    requires WellFormedTable(t) && Admissible(t, w)
    requires forall a :: a in atoms <==> a in t && Asserts(ControlsOf(t), w, a)
    requires mask == AtomBits(atoms) && raised == AtomControls(atoms)
    ensures mask == CutMask(t, w)
    ensures |raised| == |Raised(w)|
    ensures UpwardClosed(t, atoms)
  {
    forall a | a in atoms ensures exists r :: r in CutRanks(t, w) && t[r] == a {
      var r :| 0 <= r < |t| && t[r] == a;
      assert r in CutRanks(t, w);
    }
    assert forall r :: r in CutRanks(t, w) ==> t[r] in atoms;
    assert raised == CutControls(t, w);
    RaisedCount(t, w);
  }

  ghost function CutControls(t: Table, w: Levels): set<nat>
    requires Admissible(t, w)
  {
    set r | r in CutRanks(t, w) :: t[r].control
  }

  ghost function RaisedIds(t: Table, w: Levels): (ids: seq<nat>)
    requires Admissible(t, w)
    ensures |ids| == |Raised(w)| && forall i :: 0 <= i < |ids| ==> ids[i] == ControlsOf(t)[Raised(w)[i]]
  {
    seq(|Raised(w)|, i requires 0 <= i < |Raised(w)| => ControlsOf(t)[Raised(w)[i]])
  }

  lemma CutControlIsRaised(t: Table, w: Levels, r: nat)
    requires WellFormedTable(t) && Admissible(t, w) && r in CutRanks(t, w)
    ensures t[r].control in RaisedIds(t, w)
  {
    LiteralAt(t, r);
    var k := Position(ControlsOf(t), t[r].control);
    assert k in Raised(w);
    var i :| 0 <= i < |Raised(w)| && Raised(w)[i] == k;
    assert RaisedIds(t, w)[i] == t[r].control;
  }

  lemma RaisedIsCutControl(t: Table, w: Levels, i: nat)
    requires WellFormedTable(t) && Admissible(t, w) && i < |RaisedIds(t, w)|
    ensures RaisedIds(t, w)[i] in CutControls(t, w)
  {
    var k := Raised(w)[i];
    assert k in Raised(w);
    LevelForIndex(t, w, k);
    LevelsOfRank(t, ControlsOf(t)[k], 0);
    assert LevelsOf(t, ControlsOf(t)[k])[0].rank in CutRanks(t, w);
  }

  /** The controls of the asserted literals are the raised ones. */
  lemma {:induction false} RaisedCount(t: Table, w: Levels)
    requires WellFormedTable(t) && Admissible(t, w)
    ensures |CutControls(t, w)| == |Raised(w)|
  {
    ControlsAscend(t);
    var ids := RaisedIds(t, w);
    forall c | c in CutControls(t, w) ensures c in ids {
      var r :| r in CutRanks(t, w) && t[r].control == c;
      CutControlIsRaised(t, w, r);
    }
    forall i | 0 <= i < |ids| ensures ids[i] in CutControls(t, w) {
      RaisedIsCutControl(t, w, i);
    }
    assert Elements(ids) == CutControls(t, w);
    ElementsSize(ids);
  }
}
