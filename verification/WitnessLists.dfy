/** Witness trees as published node lists: the printer (cert.py, `WitnessNode.flatten`) and
    the reader that checks a list and rebuilds the tree (witness.js).

    A tree is published in pre-order, each node naming its children by index.
 */
module WitnessLists {
  import opened Wrappers

  datatype Kind = Observed | Ghost | Licensed

  /** What a node says of its own step. */
  datatype Step = Step(instance: nat, head: nat, kind: Kind, evidence: seq<nat>)

  datatype WitnessNode = WitnessNode(step: Step, children: seq<WitnessNode>)

  /** A published node. A list read from outside may hold any integers as children. */
  datatype Member = Member(step: Step, children: seq<int>)

  // ---------------------------------------------------------------------------
  // The printer
  // ---------------------------------------------------------------------------

  function Size(t: WitnessNode): (n: nat)
    ensures n >= 1
    decreases t, 0
  {
    1 + SizeAll(t.children)
  }

  function SizeAll(ts: seq<WitnessNode>): nat
    decreases ts
  {
    if ts == [] then 0 else Size(ts[0]) + SizeAll(ts[1..])
  }

  /** Where the trees of a forest start when the first one starts at `base`. */
  function Starts(ts: seq<WitnessNode>, base: nat): (s: seq<int>)
    ensures |s| == |ts|
  {
    if ts == [] then [] else [base] + Starts(ts[1..], base + Size(ts[0]))
  }

  /** The list that puts a tree at index `base`. */
  function Layout(t: WitnessNode, base: nat): (ms: seq<Member>)
    ensures |ms| == Size(t)
    decreases t, 0
  {
    [Member(t.step, Starts(t.children, base + 1))] + LayoutAll(t.children, base + 1)
  }

  function LayoutAll(ts: seq<WitnessNode>, base: nat): (ms: seq<Member>)
    ensures |ms| == SizeAll(ts)
    decreases ts
  {
    if ts == [] then [] else Layout(ts[0], base) + LayoutAll(ts[1..], base + Size(ts[0]))
  }

  lemma FirstTree(forest: seq<WitnessNode>, t: WitnessNode, ts: seq<WitnessNode>, base: nat)
    requires forest == [t] + ts
    ensures SizeAll(forest) == Size(t) + SizeAll(ts)
    ensures Starts(forest, base) == [base] + Starts(ts, base + Size(t))
    ensures LayoutAll(forest, base) == Layout(t, base) + LayoutAll(ts, base + Size(t))
  {
    assert forest[0] == t && forest[1..] == ts;
  }

  /** The shared list `flatten` appends to. */
  class Placer {
    var nodes: seq<Member>

    constructor ()
      ensures nodes == []
    {
      nodes := [];
    }

    /** Append a node, place its children after it, then patch their indices in. */
    method Place(t: WitnessNode) returns (index: nat)
      modifies this
      ensures index == |old(nodes)|
      ensures nodes == old(nodes) + Layout(t, |old(nodes)|)
      decreases t, 0
    {
      index := |nodes|;
      nodes := nodes + [Member(t.step, [])];
      var indices := PlaceAll(t.children);
      nodes := nodes[index := nodes[index].(children := indices)];
    }

    method PlaceAll(ts: seq<WitnessNode>) returns (indices: seq<int>)
      modifies this
      ensures indices == Starts(ts, |old(nodes)|)
      ensures nodes == old(nodes) + LayoutAll(ts, |old(nodes)|)
      decreases ts
    {
      if ts == [] {
        return [];
      }
      FirstTree(ts, ts[0], ts[1..], |nodes|);
      var first := Place(ts[0]);
      var rest := PlaceAll(ts[1..]);
      indices := [first] + rest;
    }
  }

  /** `flatten`: the published list of a tree. */
  method Flatten(t: WitnessNode) returns (nodes: seq<Member>)
    ensures nodes == Layout(t, 0)
  {
    var placer := new Placer();
    var _ := placer.Place(t);
    nodes := placer.nodes;
  }

  // ---------------------------------------------------------------------------
  // The four rules of a node list
  // ---------------------------------------------------------------------------

  /** Every child index the list names, in the order a scan meets them. */
  function References(nodes: seq<Member>): seq<int> {
    if nodes == [] then [] else References(nodes[..|nodes| - 1]) + nodes[|nodes| - 1].children
  }

  lemma {:induction false} ReferencesConcat(a: seq<Member>, b: seq<Member>)
    ensures References(a + b) == References(a) + References(b)
  {
    if b == [] {
      assert a + b == a;
    } else {
      var init := b[..|b| - 1];
      assert (a + b)[..|a + b| - 1] == a + init;
      ReferencesConcat(a, init);
    }
  }

  /** A reference is to a later index of the list. */
  predicate PointsForward(nodes: seq<Member>, i: nat, c: int) {
    i < c < |nodes|
  }

  predicate Forward(nodes: seq<Member>) {
    forall i, k :: 0 <= i < |nodes| && 0 <= k < |nodes[i].children| ==> PointsForward(nodes, i, nodes[i].children[k])
  }

  /** Non-empty, forward edges, and every node but the root referenced exactly once. A
      forward edge never names the root. */
  predicate WellShaped(nodes: seq<Member>) {
    && nodes != []
    && Forward(nodes)
    && forall c :: 1 <= c < |nodes| ==> multiset(References(nodes))[c] == 1
  }

  datatype ShapeError =
    | Empty
    | RootReferenced(i: nat)
    | ChildRange(i: nat, c: int)
    | MultipleParents(c: int)
    | Unreachable(c: int)

  datatype Check = Parents(parent: seq<int>) | Rejected(error: ShapeError)

  /** The complaint about one reference, given those met before it. */
  function EdgeError(nodes: seq<Member>, i: nat, c: int, earlier: seq<int>): (r: seq<ShapeError>)
    ensures r == [] <==> PointsForward(nodes, i, c) && c !in earlier
  {
    if c == 0 then [RootReferenced(i)]
    else if c <= i || c >= |nodes| then [ChildRange(i, c)]
    else if c in earlier then [MultipleParents(c)]
    else []
  }

  /** The references before child `k` of node `i`. */
  function Before(nodes: seq<Member>, i: nat, k: nat): seq<int>
    requires i < |nodes| && k <= |nodes[i].children|
  {
    References(nodes[..i]) + nodes[i].children[..k]
  }

  /** No reference before child `k` of node `i` draws a complaint. */
  ghost predicate CleanBefore(nodes: seq<Member>, i: nat, k: nat)
    requires i < |nodes| && k <= |nodes[i].children|
  {
    && (forall j, m :: 0 <= j < i && 0 <= m < |nodes[j].children| ==>
          EdgeError(nodes, j, nodes[j].children[m], Before(nodes, j, m)) == [])
    && forall m :: 0 <= m < k ==> EdgeError(nodes, i, nodes[i].children[m], Before(nodes, i, m)) == []
  }

  ghost predicate Clean(nodes: seq<Member>) {
    forall j, m :: 0 <= j < |nodes| && 0 <= m < |nodes[j].children| ==>
      EdgeError(nodes, j, nodes[j].children[m], Before(nodes, j, m)) == []
  }

  /** `e` is the first rule the list breaks, in scanning order. */
  ghost predicate FirstError(nodes: seq<Member>, e: ShapeError) {
    || (nodes == [] && e == Empty)
    || (exists i, k :: 0 <= i < |nodes| && 0 <= k < |nodes[i].children| && CleanBefore(nodes, i, k)
                       && EdgeError(nodes, i, nodes[i].children[k], Before(nodes, i, k)) == [e])
    || (Clean(nodes) && exists c :: 1 <= c < |nodes| && c !in References(nodes) && e == Unreachable(c)
                                    && forall d :: 1 <= d < c ==> d in References(nodes))
  }

  /** Node `c` is named once, by its parent, and by nobody else. */
  ghost predicate ParentOf(nodes: seq<Member>, c: nat, p: int)
    requires c < |nodes|
  {
    && 0 <= p < c
    && multiset(nodes[p].children)[c] == 1
    && forall i :: 0 <= i < |nodes| && i != p ==> c !in nodes[i].children
  }

  ghost predicate ParentVector(nodes: seq<Member>, parent: seq<int>) {
    && |parent| == |nodes|
    && (nodes != [] ==> parent[0] == -1)
    && forall c :: 1 <= c < |nodes| ==> ParentOf(nodes, c, parent[c])
  }

  lemma {:induction false} ReferencesAround(nodes: seq<Member>, i: nat)
    requires i < |nodes|
    ensures References(nodes) == References(nodes[..i]) + nodes[i].children + References(nodes[i + 1..])
  {
    assert nodes == nodes[..i + 1] + nodes[i + 1..];
    ReferencesConcat(nodes[..i + 1], nodes[i + 1..]);
    ReferencesStep(nodes, i);
  }

  lemma ReferencesStep(nodes: seq<Member>, i: nat)
    requires i < |nodes|
    ensures References(nodes[..i + 1]) == References(nodes[..i]) + nodes[i].children
  {
    var longer := nodes[..i + 1];
    assert longer[..|longer| - 1] == nodes[..i];
    assert longer[|longer| - 1] == nodes[i];
  }

  /** In a list that keeps the rules, whoever names a node is its one parent. */
  lemma NamedByParent(nodes: seq<Member>, p: nat, k: nat)
    requires WellShaped(nodes) && p < |nodes| && k < |nodes[p].children|
    ensures 1 <= nodes[p].children[k] < |nodes| && ParentOf(nodes, nodes[p].children[k], p)
  {
    var c := nodes[p].children[k];
    assert PointsForward(nodes, p, c);
    ReferencesAround(nodes, p);
    assert c in multiset(nodes[p].children);
    var before, after := References(nodes[..p]), References(nodes[p + 1..]);
    assert multiset(References(nodes))[c] == multiset(before)[c] + multiset(nodes[p].children)[c] + multiset(after)[c];
    forall i | 0 <= i < |nodes| && i != p ensures c !in nodes[i].children {
      if i < p {
        ReferencesAround(nodes[..p], i);
        assert c in nodes[i].children ==> c in multiset(before);
      } else {
        ReferencesAround(nodes[p + 1..], i - p - 1);
        assert c in nodes[i].children ==> c in multiset(after);
      }
    }
  }

  /** The prefix scanned before a reference is a prefix of all references. */
  lemma {:induction false} BeforeIsPrefix(nodes: seq<Member>, i: nat, k: nat)
    requires i < |nodes| && k < |nodes[i].children|
    ensures exists rest :: References(nodes) == Before(nodes, i, k) + [nodes[i].children[k]] + rest
  {
    ReferencesAround(nodes, i);
    var children := nodes[i].children;
    assert children == children[..k] + [children[k]] + children[k + 1..];
    assert References(nodes) == Before(nodes, i, k) + [children[k]] + (children[k + 1..] + References(nodes[i + 1..]));
  }

  /** An edge that draws a complaint names no node, or a node already named. */
  lemma {:induction false} EdgeErrorBreaksRules(nodes: seq<Member>, i: nat, k: nat)
    requires i < |nodes| && k < |nodes[i].children|
    requires EdgeError(nodes, i, nodes[i].children[k], Before(nodes, i, k)) != []
    ensures !WellShaped(nodes)
  {
    var c, before := nodes[i].children[k], Before(nodes, i, k);
    if PointsForward(nodes, i, c) {
      BeforeIsPrefix(nodes, i, k);
      var rest :| References(nodes) == before + [c] + rest;
      assert c in multiset(before);
      assert multiset(References(nodes))[c] >= 2;
    }
  }

  lemma FirstErrorBreaksRules(nodes: seq<Member>, e: ShapeError)
    requires FirstError(nodes, e)
    ensures !WellShaped(nodes)
  {
    if nodes != [] && !Clean(nodes) {
      var i, k :| 0 <= i < |nodes| && 0 <= k < |nodes[i].children|
                  && EdgeError(nodes, i, nodes[i].children[k], Before(nodes, i, k)) == [e];
      EdgeErrorBreaksRules(nodes, i, k);
    } else if nodes != [] {
      var c :| 1 <= c < |nodes| && c !in References(nodes) && e == Unreachable(c);
      assert c !in multiset(References(nodes));
    }
  }

  /** What the two arrays hold once the references `refs` have been scanned. */
  ghost predicate Scanned(nodes: seq<Member>, refs: seq<int>, seen: seq<bool>, parent: seq<int>) {
    && |seen| == |parent| == |nodes|
    && (forall c :: 0 <= c < |nodes| ==> (seen[c] <==> c in refs))
    && (forall c :: c in refs ==> 1 <= c < |nodes| && multiset(refs)[c] == 1)
    && forall c :: 0 <= c < |nodes| ==> if seen[c]
         then 0 <= parent[c] < |nodes| && c in nodes[parent[c]].children else parent[c] == -1
  }

  /** Marking one reference that draws no complaint. */
  lemma MarkReference(nodes: seq<Member>, i: nat, k: nat, seen: seq<bool>, parent: seq<int>)
    requires i < |nodes| && k < |nodes[i].children|
    requires CleanBefore(nodes, i, k) && Scanned(nodes, Before(nodes, i, k), seen, parent)
    requires EdgeError(nodes, i, nodes[i].children[k], Before(nodes, i, k)) == []
    ensures CleanBefore(nodes, i, k + 1)
    ensures var c := nodes[i].children[k]; Scanned(nodes, Before(nodes, i, k + 1), seen[c := true], parent[c := i])
  {
    var refs, c := Before(nodes, i, k), nodes[i].children[k];
    assert nodes[i].children[..k + 1] == nodes[i].children[..k] + [c];
    ScannedMore(nodes, i, k, refs, Before(nodes, i, k + 1), seen, parent);
  }

  lemma ScannedMore(nodes: seq<Member>, i: nat, k: nat, refs: seq<int>, refs': seq<int>, seen: seq<bool>,
                    parent: seq<int>)
    requires i < |nodes| && k < |nodes[i].children| && Scanned(nodes, refs, seen, parent)
    requires var c := nodes[i].children[k]; PointsForward(nodes, i, c) && c !in refs && refs' == refs + [c]
    ensures var c := nodes[i].children[k]; Scanned(nodes, refs', seen[c := true], parent[c := i])
  {
    var c := nodes[i].children[k];
    assert c !in multiset(refs);
    assert multiset(refs') == multiset(refs) + multiset{c};
  }

  /** Moving on from node `i` to node `i + 1`. */
  lemma NextNode(nodes: seq<Member>, i: nat)
    requires i < |nodes| && CleanBefore(nodes, i, |nodes[i].children|)
    ensures Before(nodes, i, |nodes[i].children|) == References(nodes[..i + 1])
    ensures i + 1 < |nodes| ==> CleanBefore(nodes, i + 1, 0) && Before(nodes, i + 1, 0) == References(nodes[..i + 1])
    ensures i + 1 == |nodes| ==> Clean(nodes)
  {
    ReferencesStep(nodes, i);
    assert nodes[i].children[..|nodes[i].children|] == nodes[i].children;
  }

  /** The scan of one node's children. */
  method ScanChildren(nodes: seq<Member>, i: nat, seen: array<bool>, parent: array<int>)
    returns (error: seq<ShapeError>)
    requires i < |nodes| && seen.Length == parent.Length == |nodes|
    requires CleanBefore(nodes, i, 0) && Scanned(nodes, Before(nodes, i, 0), seen[..], parent[..])
    modifies seen, parent
    ensures |error| <= 1
    ensures error != [] ==> FirstError(nodes, error[0])
    ensures error == [] ==> CleanBefore(nodes, i, |nodes[i].children|)
    ensures error == [] ==> Scanned(nodes, Before(nodes, i, |nodes[i].children|), seen[..], parent[..])
  {
    var k := 0;
    while k < |nodes[i].children|
      invariant 0 <= k <= |nodes[i].children|
      invariant CleanBefore(nodes, i, k) && Scanned(nodes, Before(nodes, i, k), seen[..], parent[..])
    {
      var child := nodes[i].children[k];
      if child == 0 {
        return [RootReferenced(i)];
      }
      if child <= i || child >= |nodes| {
        return [ChildRange(i, child)];
      }
      if seen[child] {
        return [MultipleParents(child)];
      }
      MarkReference(nodes, i, k, seen[..], parent[..]);
      ghost var seen', parent' := seen[..], parent[..];
      seen[child] := true;
      parent[child] := i;
      assert seen[..] == seen'[child := true] && parent[..] == parent'[child := i];
      k := k + 1;
    }
    error := [];
  }

  /** The first loop of `checkNodeList`: every reference, in order. */
  method ScanReferences(nodes: seq<Member>, seen: array<bool>, parent: array<int>) returns (error: seq<ShapeError>)
    requires nodes != [] && seen.Length == parent.Length == |nodes|
    requires Scanned(nodes, [], seen[..], parent[..])
    modifies seen, parent
    ensures |error| <= 1
    ensures error != [] ==> FirstError(nodes, error[0])
    ensures error == [] ==> Clean(nodes) && Scanned(nodes, References(nodes), seen[..], parent[..])
  {
    var i := 0;
    assert Before(nodes, 0, 0) == [];
    while i < |nodes|
      invariant 0 <= i <= |nodes|
      invariant i < |nodes| ==> CleanBefore(nodes, i, 0) && Scanned(nodes, Before(nodes, i, 0), seen[..], parent[..])
      invariant i == |nodes| ==> Clean(nodes) && Scanned(nodes, References(nodes), seen[..], parent[..])
    {
      error := ScanChildren(nodes, i, seen, parent);
      if error != [] {
        return;
      }
      NextNode(nodes, i);
      assert i + 1 == |nodes| ==> nodes[..i + 1] == nodes;
      i := i + 1;
    }
    error := [];
  }

  /** The second loop of `checkNodeList`: the first node but the root that nobody named. */
  method FirstUnseen(seen: array<bool>) returns (c: nat)
    requires seen.Length > 0
    ensures 1 <= c <= seen.Length && (c < seen.Length ==> !seen[c])
    ensures forall d :: 1 <= d < c ==> seen[d]
  {
    c := 1;
    while c < seen.Length && seen[c]
      invariant 1 <= c <= seen.Length
      invariant forall d :: 1 <= d < c ==> seen[d]
    {
      c := c + 1;
    }
  }

  /** `checkNodeList`: the parents of a list that keeps the four rules, or the first rule the
      scan finds broken. */
  method CheckNodeList(nodes: seq<Member>) returns (r: Check)
    ensures r.Parents? <==> WellShaped(nodes)
    ensures r.Parents? ==> ParentVector(nodes, r.parent)
    ensures r.Rejected? ==> FirstError(nodes, r.error)
  {
    if |nodes| == 0 {
      return Rejected(Empty);
    }
    var parent := new int[|nodes|](_ => -1);
    var seen := new bool[|nodes|](_ => false);
    var error := ScanReferences(nodes, seen, parent);
    if error != [] {
      FirstErrorBreaksRules(nodes, error[0]);
      return Rejected(error[0]);
    }
    var c := FirstUnseen(seen);
    UnseenDecides(nodes, seen[..], parent[..], c);
    r := if c < |nodes| then Rejected(Unreachable(c)) else Parents(parent[..]);
  }

  /** After a scan without error, the first node never referred to decides. */
  lemma {:induction false} UnseenDecides(nodes: seq<Member>, seen: seq<bool>, parent: seq<int>, c: nat)
    requires nodes != [] && Clean(nodes) && Scanned(nodes, References(nodes), seen, parent) && 1 <= c <= |nodes|
    requires (c < |nodes| ==> !seen[c]) && forall d :: 1 <= d < c ==> seen[d]
    ensures c < |nodes| ==> FirstError(nodes, Unreachable(c)) && !WellShaped(nodes)
    ensures c == |nodes| ==> WellShaped(nodes) && ParentVector(nodes, parent)
  {
    if c < |nodes| {
      FirstErrorBreaksRules(nodes, Unreachable(c));
    } else {
      CleanKeepsRules(nodes, seen, parent);
    }
  }

  lemma {:induction false} CleanKeepsRules(nodes: seq<Member>, seen: seq<bool>, parent: seq<int>)
    requires nodes != [] && Clean(nodes) && Scanned(nodes, References(nodes), seen, parent)
    requires forall d :: 1 <= d < |nodes| ==> d in References(nodes)
    ensures WellShaped(nodes) && ParentVector(nodes, parent)
  {
    forall i, k | 0 <= i < |nodes| && 0 <= k < |nodes[i].children|
      ensures PointsForward(nodes, i, nodes[i].children[k])
    {
      assert EdgeError(nodes, i, nodes[i].children[k], Before(nodes, i, k)) == [];
    }
    forall c | 1 <= c < |nodes| ensures ParentOf(nodes, c, parent[c]) {
      var k :| 0 <= k < |nodes[parent[c]].children| && nodes[parent[c]].children[k] == c;
      NamedByParent(nodes, parent[c], k);
    }
  }

  // ---------------------------------------------------------------------------
  // The reader: depths, the rebuilt tree and its pre-order
  // ---------------------------------------------------------------------------

  ghost predicate DepthVector(nodes: seq<Member>, depth: seq<int>) {
    && |depth| == |nodes|
    && (nodes != [] ==> depth[0] == 0)
    && forall i, k :: 0 <= i < |nodes| && 0 <= k < |nodes[i].children| && PointsForward(nodes, i, nodes[i].children[k])
                      ==> depth[nodes[i].children[k]] == depth[i] + 1
  }

  /** Depths written from the nodes before `upTo`. */
  ghost predicate DepthsBelow(nodes: seq<Member>, upTo: nat, k: nat, depth: seq<int>) {
    && |depth| == |nodes|
    && (nodes != [] ==> depth[0] == 0)
    && forall i, m :: 0 <= i < |nodes| && 0 <= m < |nodes[i].children| && PointsForward(nodes, i, nodes[i].children[m])
                      && (i < upTo || (i == upTo && m < k))
                      ==> depth[nodes[i].children[m]] == depth[i] + 1
  }

  /** No other reference reads or writes the depth of a node once its parent has set it. */
  lemma SetDepth(nodes: seq<Member>, i: nat, k: nat, depth: seq<int>)
    requires WellShaped(nodes) && i < |nodes| && k < |nodes[i].children|
    requires DepthsBelow(nodes, i, k, depth)
    ensures PointsForward(nodes, i, nodes[i].children[k])
    ensures DepthsBelow(nodes, i, k + 1, depth[nodes[i].children[k] := depth[i] + 1])
  {
    var c := nodes[i].children[k];
    assert PointsForward(nodes, i, c);
    NamedByParent(nodes, i, k);
    forall j, m | 0 <= j < |nodes| && 0 <= m < |nodes[j].children| && j <= i && nodes[j].children[m] == c
      ensures j == i
    {
      assert c in nodes[j].children;
    }
  }

  /** `nodeDepths`: one forward sweep. */
  method NodeDepths(nodes: seq<Member>) returns (r: Option<seq<int>>)
    ensures r.Some? <==> WellShaped(nodes)
    ensures r.Some? ==> DepthVector(nodes, r.value)
  {
    var check := CheckNodeList(nodes);
    if check.Rejected? {
      return None;
    }
    var depth := new int[|nodes|](_ => 0);
    var i := 0;
    while i < |nodes|
      invariant 0 <= i <= |nodes|
      invariant DepthsBelow(nodes, i, 0, depth[..])
    {
      var k := 0;
      while k < |nodes[i].children|
        invariant 0 <= k <= |nodes[i].children|
        invariant DepthsBelow(nodes, i, k, depth[..])
      {
        SetDepth(nodes, i, k, depth[..]);
        var child := nodes[i].children[k];
        ghost var before := depth[..];
        depth[child] := depth[i] + 1;
        assert depth[..] == before[child := before[i] + 1];
        k := k + 1;
      }
      i := i + 1;
    }
    r := Some(depth[..]);
  }

  function Flat<T>(parts: seq<seq<T>>): seq<T> {
    if parts == [] then [] else parts[0] + Flat(parts[1..])
  }

  /** The tree a list encodes below index `i`. */
  function Rebuilt(nodes: seq<Member>, i: nat): WitnessNode
    requires Forward(nodes) && i < |nodes|
    decreases |nodes| - i
  {
    var cs := nodes[i].children;
    assert forall k :: 0 <= k < |cs| ==> PointsForward(nodes, i, cs[k]);
    WitnessNode(nodes[i].step, seq(|cs|, k requires 0 <= k < |cs| => Rebuilt(nodes, cs[k])))
  }

  /** The indices met in pre-order below index `i`. */
  function Walk(nodes: seq<Member>, i: nat): seq<int>
    requires Forward(nodes) && i < |nodes|
    decreases |nodes| - i
  {
    var cs := nodes[i].children;
    assert forall k :: 0 <= k < |cs| ==> PointsForward(nodes, i, cs[k]);
    [i] + Flat(seq(|cs|, k requires 0 <= k < |cs| => Walk(nodes, cs[k])))
  }

  ghost predicate Indexes(nodes: seq<Member>, floor: int, cs: seq<int>) {
    forall k :: 0 <= k < |cs| ==> 0 <= cs[k] && floor < cs[k] < |nodes|
  }

  ghost function WalkAll(nodes: seq<Member>, cs: seq<int>): seq<int>
    requires Forward(nodes) && Indexes(nodes, -1, cs)
  {
    Flat(seq(|cs|, k requires 0 <= k < |cs| => Walk(nodes, cs[k])))
  }

  ghost function RebuiltAll(nodes: seq<Member>, cs: seq<int>): (ts: seq<WitnessNode>)
    requires Forward(nodes) && Indexes(nodes, -1, cs)
    ensures |ts| == |cs|
  {
    seq(|cs|, k requires 0 <= k < |cs| => Rebuilt(nodes, cs[k]))
  }

  lemma {:induction false} ChildrenAreIndexes(nodes: seq<Member>, i: nat)
    requires Forward(nodes) && i < |nodes|
    ensures Indexes(nodes, i, nodes[i].children) && Indexes(nodes, -1, nodes[i].children)
    ensures Walk(nodes, i) == [i] + WalkAll(nodes, nodes[i].children)
    ensures Rebuilt(nodes, i) == WitnessNode(nodes[i].step, RebuiltAll(nodes, nodes[i].children))
  {
    var cs := nodes[i].children;
    forall k | 0 <= k < |cs| ensures i < cs[k] < |nodes| {
      assert PointsForward(nodes, i, cs[k]);
    }
  }

  lemma {:induction false} FirstOfAll(nodes: seq<Member>, cs: seq<int>)
    requires Forward(nodes) && Indexes(nodes, -1, cs) && cs != []
    ensures Indexes(nodes, -1, cs[1..])
    ensures WalkAll(nodes, cs) == Walk(nodes, cs[0]) + WalkAll(nodes, cs[1..])
    ensures RebuiltAll(nodes, cs) == [Rebuilt(nodes, cs[0])] + RebuiltAll(nodes, cs[1..])
  {
    var parts := seq(|cs|, k requires 0 <= k < |cs| => Walk(nodes, cs[k]));
    assert parts[1..] == seq(|cs[1..]|, k requires 0 <= k < |cs[1..]| => Walk(nodes, cs[1..][k]));
  }

  // ---------------------------------------------------------------------------
  // Every accepted list is one tree
  // ---------------------------------------------------------------------------

  lemma {:induction false} WalkStaysAbove(nodes: seq<Member>, i: nat, x: int)
    requires Forward(nodes) && i < |nodes| && x in Walk(nodes, i)
    ensures i <= x < |nodes|
    decreases |nodes| - i, 1, 0
  {
    ChildrenAreIndexes(nodes, i);
    if x != i {
      WalkAllStaysAbove(nodes, i, nodes[i].children, x);
    }
  }

  lemma {:induction false} WalkAllStaysAbove(nodes: seq<Member>, floor: nat, cs: seq<int>, x: int)
    requires Forward(nodes) && floor < |nodes| && Indexes(nodes, floor, cs) && Indexes(nodes, -1, cs)
    requires x in WalkAll(nodes, cs)
    ensures floor < x < |nodes|
    decreases |nodes| - floor, 0, |cs|
  {
    FirstOfAll(nodes, cs);
    if x in Walk(nodes, cs[0]) {
      WalkStaysAbove(nodes, cs[0], x);
    } else {
      WalkAllStaysAbove(nodes, floor, cs[1..], x);
    }
  }

  lemma CountFirst(all: seq<int>, first: seq<int>, rest: seq<int>, x: int)
    requires all == first + rest
    ensures multiset(all)[x] == multiset(first)[x] + multiset(rest)[x]
  {
  }

  lemma CountHead(s: seq<int>, x: int)
    requires s != []
    ensures multiset(s)[x] == (if s[0] == x then 1 else 0) + multiset(s[1..])[x]
  {
    CountFirst(s, [s[0]], s[1..], x);
  }

  /** A node is met once for each time its parent is, and once more where the walk starts. */
  lemma {:induction false} MetWithParent(nodes: seq<Member>, i: nat, c: nat, p: int)
    requires Forward(nodes) && i < |nodes| && c < |nodes| && ParentOf(nodes, c, p)
    ensures multiset(Walk(nodes, i))[c] == multiset(Walk(nodes, i))[p] + if i == c then 1 else 0
    decreases |nodes| - i, 1, 0
  {
    ChildrenAreIndexes(nodes, i);
    var cs := nodes[i].children;
    MetWithParentAll(nodes, i, cs, c, p);
    assert multiset(Walk(nodes, i)) == multiset{i} + multiset(WalkAll(nodes, cs));
    if i != p {
      assert c !in multiset(cs);
    }
  }

  lemma {:induction false} MetWithParentAll(nodes: seq<Member>, floor: nat, cs: seq<int>, c: nat, p: int)
    requires Forward(nodes) && floor < |nodes| && Indexes(nodes, floor, cs) && Indexes(nodes, -1, cs)
    requires c < |nodes| && ParentOf(nodes, c, p)
    ensures multiset(WalkAll(nodes, cs))[c] == multiset(WalkAll(nodes, cs))[p] + multiset(cs)[c]
    decreases |nodes| - floor, 0, |cs|
  {
    if cs != [] {
      FirstOfAll(nodes, cs);
      MetWithParent(nodes, cs[0], c, p);
      MetWithParentAll(nodes, floor, cs[1..], c, p);
      CountFirst(WalkAll(nodes, cs), Walk(nodes, cs[0]), WalkAll(nodes, cs[1..]), c);
      CountFirst(WalkAll(nodes, cs), Walk(nodes, cs[0]), WalkAll(nodes, cs[1..]), p);
      CountHead(cs, c);
    }
  }

  lemma HasParent(nodes: seq<Member>, c: nat) returns (p: nat)
    requires WellShaped(nodes) && 1 <= c < |nodes|
    ensures p < c && ParentOf(nodes, c, p)
  {
    assert c in multiset(References(nodes));
    var i, k := NamedBy(nodes, c);
    NamedByParent(nodes, i, k);
    p := i;
  }

  lemma {:induction false} NamedBy(nodes: seq<Member>, c: int) returns (i: nat, k: nat)
    requires c in References(nodes)
    ensures i < |nodes| && k < |nodes[i].children| && nodes[i].children[k] == c
  {
    var init, last := nodes[..|nodes| - 1], nodes[|nodes| - 1];
    if c in last.children {
      i := |nodes| - 1;
      k :| 0 <= k < |last.children| && last.children[k] == c;
    } else {
      i, k := NamedBy(init, c);
    }
  }

  /** The rebuilt tree holds every published node exactly once. */
  lemma {:induction false} MetExactlyOnce(nodes: seq<Member>, c: nat)
    requires WellShaped(nodes) && c < |nodes|
    ensures multiset(Walk(nodes, 0))[c] == 1
    decreases c
  {
    if c == 0 {
      ChildrenAreIndexes(nodes, 0);
      if 0 in WalkAll(nodes, nodes[0].children) {
        WalkAllStaysAbove(nodes, 0, nodes[0].children, 0);
      }
      assert multiset(Walk(nodes, 0)) == multiset{0} + multiset(WalkAll(nodes, nodes[0].children));
    } else {
      var p := HasParent(nodes, c);
      MetWithParent(nodes, 0, c, p);
      MetExactlyOnce(nodes, p);
    }
  }

  /** `n` consecutive indices. */
  function Consecutive(base: nat, n: nat): (s: seq<int>)
    ensures |s| == n
  {
    seq(n, k => base + k)
  }

  lemma {:induction false} CountConsecutive(base: nat, n: nat, x: int)
    ensures multiset(Consecutive(base, n))[x] == if base <= x < base + n then 1 else 0
  {
    if n > 0 {
      CountConsecutive(base, n - 1, x);
      assert Consecutive(base, n) == Consecutive(base, n - 1) + [base + n - 1];
    }
  }

  /** Pre-order over an accepted list visits each index exactly once. */
  lemma {:induction false} PreorderIsPermutation(nodes: seq<Member>)
    requires WellShaped(nodes)
    ensures multiset(Walk(nodes, 0)) == multiset(Consecutive(0, |nodes|))
    ensures |Walk(nodes, 0)| == |nodes|
  {
    forall x: int ensures multiset(Walk(nodes, 0))[x] == multiset(Consecutive(0, |nodes|))[x] {
      CountConsecutive(0, |nodes|, x);
      if 0 <= x < |nodes| {
        MetExactlyOnce(nodes, x);
      } else if x in Walk(nodes, 0) {
        WalkStaysAbove(nodes, 0, x);
      }
    }
    assert multiset(Walk(nodes, 0)) == multiset(Consecutive(0, |nodes|));
    assert |multiset(Walk(nodes, 0))| == |Walk(nodes, 0)|;
  }

  // ---------------------------------------------------------------------------
  // The rebuilt tree as linked entries
  // ---------------------------------------------------------------------------

  class Entry {
    const index: nat
    const depth: int
    const member: Member
    var children: seq<Entry>

    constructor (index: nat, depth: int, member: Member)
      ensures this.index == index && this.depth == depth && this.member == member && children == []
    {
      this.index, this.depth, this.member := index, depth, member;
      children := [];
    }
  }

  /** The entry's first `k` children are the entries its node names. */
  ghost predicate Linked(nodes: seq<Member>, built: seq<Entry>, i: nat, k: nat)
    requires i < |built| == |nodes|
    reads built[i]
  {
    && k <= |nodes[i].children|
    && |built[i].children| == k
    && forall m :: 0 <= m < k ==>
         PointsForward(nodes, i, nodes[i].children[m]) && built[i].children[m] == built[nodes[i].children[m]]
  }

  /** One entry per node, with the node's own index and member. */
  ghost predicate Entries(nodes: seq<Member>, depth: seq<int>, built: seq<Entry>) {
    && |built| == |depth| == |nodes|
    && forall i :: 0 <= i < |built| ==> built[i].index == i && built[i].depth == depth[i] && built[i].member == nodes[i]
  }

  ghost predicate AllLinked(nodes: seq<Member>, built: seq<Entry>)
    requires |built| == |nodes|
    reads built
  {
    forall i :: 0 <= i < |built| ==> Linked(nodes, built, i, |nodes[i].children|)
  }

  /** The linked entries below `e`, drawn from `pool`, spell out the tree `t`. */
  ghost predicate Spells(pool: seq<Entry>, e: Entry, t: WitnessNode)
    reads pool
    decreases t
  {
    && e in pool
    && e.member.step == t.step
    && |e.children| == |t.children|
    && forall k :: 0 <= k < |t.children| ==> Spells(pool, e.children[k], t.children[k])
  }

  lemma {:induction false} LinkedSpells(nodes: seq<Member>, depth: seq<int>, built: seq<Entry>, i: nat)
    requires Forward(nodes) && Entries(nodes, depth, built) && AllLinked(nodes, built) && i < |nodes|
    ensures Spells(built, built[i], Rebuilt(nodes, i))
    decreases |nodes| - i
  {
    ChildrenAreIndexes(nodes, i);
    var cs := nodes[i].children;
    assert Linked(nodes, built, i, |cs|);
    forall k | 0 <= k < |cs| ensures Spells(built, built[i].children[k], Rebuilt(nodes, i).children[k]) {
      LinkedSpells(nodes, depth, built, cs[k]);
    }
  }

  /** One entry per node, with no children yet. */
  method MakeEntries(nodes: seq<Member>, depth: seq<int>) returns (built: seq<Entry>)
    requires |depth| == |nodes|
    ensures Entries(nodes, depth, built)
    ensures forall i :: 0 <= i < |built| ==> fresh(built[i]) && built[i].children == []
  {
    built := [];
    while |built| < |nodes|
      invariant |built| <= |nodes|
      invariant Entries(nodes[..|built|], depth[..|built|], built)
      invariant forall i :: 0 <= i < |built| ==> fresh(built[i]) && built[i].children == []
    {
      var i := |built|;
      var entry := new Entry(i, depth[i], nodes[i]);
      built := built + [entry];
    }
    assert nodes[..|built|] == nodes && depth[..|built|] == depth;
  }

  /** Push the children of one entry. */
  method LinkChildren(nodes: seq<Member>, depth: seq<int>, built: seq<Entry>, i: nat)
    requires Forward(nodes) && Entries(nodes, depth, built) && i < |nodes| && built[i].children == []
    modifies built[i]
    ensures Linked(nodes, built, i, |nodes[i].children|)
  {
    var k := 0;
    while k < |nodes[i].children|
      invariant 0 <= k <= |nodes[i].children|
      invariant Linked(nodes, built, i, k)
    {
      var child := nodes[i].children[k];
      assert PointsForward(nodes, i, child);
      built[i].children := built[i].children + [built[child]];
      k := k + 1;
    }
  }

  /** `buildWitnessTree`: nothing for a list that breaks a rule; otherwise entries, one per
      node, linked into the tree the list encodes. */
  method BuildWitnessTree(nodes: seq<Member>) returns (r: Option<seq<Entry>>, ghost depth: seq<int>)
    ensures r.Some? <==> WellShaped(nodes)
    ensures r.Some? ==> DepthVector(nodes, depth) && Entries(nodes, depth, r.value)
    ensures r.Some? ==> fresh(r.value) && AllLinked(nodes, r.value) && Spells(r.value, r.value[0], Rebuilt(nodes, 0))
  {
    var depths := NodeDepths(nodes);
    if depths.None? {
      return None, [];
    }
    depth := depths.value;
    var built := MakeEntries(nodes, depths.value);
    var i := 0;
    while i < |nodes|
      invariant 0 <= i <= |nodes|
      invariant forall j :: 0 <= j < i ==> Linked(nodes, built, j, |nodes[j].children|)
      invariant forall j :: i <= j < |nodes| ==> built[j].children == []
    {
      LinkChildren(nodes, depths.value, built, i);
      i := i + 1;
    }
    LinkedSpells(nodes, depth, built, 0);
    r := Some(built);
  }

  /** One line of the pre-order. */
  datatype Line = Line(index: nat, depth: int, member: Member)

  ghost predicate TrueLines(nodes: seq<Member>, depth: seq<int>, out: seq<Line>) {
    |depth| == |nodes| && forall p :: 0 <= p < |out| ==> IsTrue(nodes, depth, out[p])
  }

  ghost predicate IsTrue(nodes: seq<Member>, depth: seq<int>, line: Line)
    requires |depth| == |nodes|
  {
    line.index < |nodes| && line.depth == depth[line.index] && line.member == nodes[line.index]
  }

  ghost function IndexesOf(out: seq<Line>): (s: seq<int>)
    ensures |s| == |out|
  {
    seq(|out|, p requires 0 <= p < |out| => out[p].index)
  }

  lemma IndexesOfConcat(a: seq<Line>, b: seq<Line>)
    ensures IndexesOf(a + b) == IndexesOf(a) + IndexesOf(b)
  {
  }

  /** Visit an entry, then its children in order. */
  method Visit(nodes: seq<Member>, ghost depth: seq<int>, ghost built: seq<Entry>, entry: Entry, out: seq<Line>)
    returns (out': seq<Line>)
    requires Forward(nodes) && Entries(nodes, depth, built) && AllLinked(nodes, built)
    requires entry.index < |nodes| && entry == built[entry.index] && TrueLines(nodes, depth, out)
    ensures IndexesOf(out') == IndexesOf(out) + Walk(nodes, entry.index) && TrueLines(nodes, depth, out')
    decreases |nodes| - entry.index
  {
    ghost var i, cs := entry.index, nodes[entry.index].children;
    assert Linked(nodes, built, i, |cs|);
    ChildrenAreIndexes(nodes, i);
    var line := Line(entry.index, entry.depth, entry.member);
    out' := out + [line];
    IndexesOfConcat(out, [line]);
    assert cs[0..] == cs;
    var k := 0;
    while k < |entry.children|
      invariant 0 <= k <= |entry.children| == |cs|
      invariant Indexes(nodes, -1, cs[k..])
      invariant IndexesOf(out') + WalkAll(nodes, cs[k..]) == IndexesOf(out) + Walk(nodes, i)
      invariant TrueLines(nodes, depth, out')
    {
      FirstOfAll(nodes, cs[k..]);
      assert cs[k..][1..] == cs[k + 1..];
      assert PointsForward(nodes, i, cs[k]) && entry.children[k] == built[cs[k]];
      out' := Visit(nodes, depth, built, entry.children[k], out');
      k := k + 1;
    }
    assert cs[k..] == [] && WalkAll(nodes, []) == [];
  }

  /** `preorder`: one line for each index of the walk, with its depth and its own node; an
      accepted list gives each index exactly one line. */
  method Preorder(nodes: seq<Member>) returns (r: Option<seq<Line>>, ghost depth: seq<int>)
    ensures r.Some? <==> WellShaped(nodes)
    ensures r.Some? ==>
              IndexesOf(r.value) == Walk(nodes, 0) && multiset(IndexesOf(r.value)) == multiset(Consecutive(0, |nodes|))
    ensures r.Some? ==> DepthVector(nodes, depth) && TrueLines(nodes, depth, r.value)
  {
    var built;
    built, depth := BuildWitnessTree(nodes);
    if built.None? {
      return None, [];
    }
    var out := Visit(nodes, depth, built.value, built.value[0], []);
    PreorderIsPermutation(nodes);
    r := Some(out);
  }

  // ---------------------------------------------------------------------------
  // Printing, then reading
  // ---------------------------------------------------------------------------

  /** Indices of a forest laid at `base` stay inside its span. */
  ghost predicate Inside(ms: seq<Member>, base: nat) {
    forall q, k :: 0 <= q < |ms| && 0 <= k < |ms[q].children| ==> base + q < ms[q].children[k] < base + |ms|
  }

  lemma {:induction false} StartsInside(ts: seq<WitnessNode>, base: nat)
    ensures forall k :: 0 <= k < |ts| ==> base <= Starts(ts, base)[k] < base + SizeAll(ts)
  {
    if ts != [] {
      StartsInside(ts[1..], base + Size(ts[0]));
    }
  }

  lemma {:induction false} LayoutInside(t: WitnessNode, base: nat)
    ensures Inside(Layout(t, base), base)
    decreases t, 0
  {
    LayoutAllInside(t.children, base + 1);
    StartsInside(t.children, base + 1);
    var rest := LayoutAll(t.children, base + 1);
    forall q, k | 0 <= q < |Layout(t, base)| && 0 <= k < |Layout(t, base)[q].children|
      ensures base + q < Layout(t, base)[q].children[k] < base + Size(t)
    {
      if q > 0 {
        assert Layout(t, base)[q] == rest[q - 1];
      }
    }
  }

  lemma {:induction false} LayoutAllInside(ts: seq<WitnessNode>, base: nat)
    ensures Inside(LayoutAll(ts, base), base)
    decreases ts
  {
    if ts != [] {
      var m, rest := Layout(ts[0], base), LayoutAll(ts[1..], base + Size(ts[0]));
      LayoutInside(ts[0], base);
      LayoutAllInside(ts[1..], base + Size(ts[0]));
      var all: seq<Member> := m + rest;
      forall q, k | 0 <= q < |all| && 0 <= k < |all[q].children| ensures base + q < all[q].children[k] < base + |all| {
        if q >= |m| {
          assert all[q] == rest[q - |m|];
        }
      }
    }
  }

  lemma ConsecutiveSplit(base: nat, a: nat, b: nat)
    ensures Consecutive(base, a + b) == Consecutive(base, a) + Consecutive(base + a, b)
  {
  }

  /** `ms` names each of the `n` indices from `base` once, save those in `starts`. */
  ghost predicate NamesOnce(ms: seq<Member>, starts: seq<int>, base: int, n: nat) {
    forall x: int :: multiset(References(ms))[x] + multiset(starts)[x] == if base <= x < base + n then 1 else 0
  }

  lemma TreesNameOnce(ms: seq<Member>, starts: seq<int>, size: nat, first: seq<Member>, n: nat, rest: seq<Member>,
                      m: nat, starts': seq<int>, base: int)
    requires ms == first + rest && starts == [base] + starts' && size == n + m
    requires NamesOnce(first, [base], base, n) && NamesOnce(rest, starts', base + n, m)
    ensures NamesOnce(ms, starts, base, size)
  {
    ReferencesConcat(first, rest);
  }

  lemma RootNamesOnce(root: Member, rest: seq<Member>, n: nat, base: int)
    requires NamesOnce(rest, root.children, base + 1, n)
    ensures NamesOnce([root] + rest, [base], base, n + 1)
  {
    ReferencesConcat([root], rest);
    ReferencesStep([root], 0);
    assert [root][..1] == [root];
  }

  /** A tree laid at `base` names each of its nodes once, save its root. */
  lemma {:induction false} LayoutNamesOnce(t: WitnessNode, base: nat)
    ensures NamesOnce(Layout(t, base), [base], base, Size(t))
    decreases t, 0
  {
    LayoutAllNamesOnce(t.children, base + 1);
    RootNamesOnce(Member(t.step, Starts(t.children, base + 1)), LayoutAll(t.children, base + 1), SizeAll(t.children),
                  base);
  }

  lemma {:induction false} LayoutAllNamesOnce(ts: seq<WitnessNode>, base: nat)
    ensures NamesOnce(LayoutAll(ts, base), Starts(ts, base), base, SizeAll(ts))
    decreases ts
  {
    if ts == [] {
      assert NamesOnce([], [], base, 0);
    } else {
      var next := base + Size(ts[0]);
      FirstTree(ts, ts[0], ts[1..], base);
      LayoutNamesOnce(ts[0], base);
      LayoutAllNamesOnce(ts[1..], next);
      TreesNameOnce(LayoutAll(ts, base), Starts(ts, base), SizeAll(ts),
                    Layout(ts[0], base), Size(ts[0]), LayoutAll(ts[1..], next), SizeAll(ts[1..]), Starts(ts[1..],
                              next), base);
    }
  }

  /** Every flattened tree keeps the four rules, so the reader accepts it. */
  lemma {:induction false} FlattenedIsWellShaped(t: WitnessNode)
    ensures WellShaped(Layout(t, 0))
  {
    var ms := Layout(t, 0);
    LayoutInside(t, 0);
    assert forall i, k :: 0 <= i < |ms| && 0 <= k < |ms[i].children| ==> 0 + i < ms[i].children[k] < |ms|;
    LayoutNamesOnce(t, 0);
    forall c | 1 <= c < |ms| ensures multiset(References(ms))[c] == 1 {
      assert multiset([0 as int])[c] == 0;
    }
  }

  /** The list holds the layout of `t` at `base`. */
  ghost predicate Laid(nodes: seq<Member>, t: WitnessNode, base: nat) {
    base + Size(t) <= |nodes| && nodes[base..base + Size(t)] == Layout(t, base)
  }

  ghost predicate LaidAll(nodes: seq<Member>, ts: seq<WitnessNode>, base: nat) {
    base + SizeAll(ts) <= |nodes| && nodes[base..base + SizeAll(ts)] == LayoutAll(ts, base)
  }

  lemma {:induction false} LaidHead(nodes: seq<Member>, t: WitnessNode, base: nat)
    requires Laid(nodes, t, base)
    ensures nodes[base] == Member(t.step, Starts(t.children, base + 1))
    ensures LaidAll(nodes, t.children, base + 1)
  {
    assert nodes[base] == nodes[base..base + Size(t)][0];
    assert nodes[base + 1..base + Size(t)] == nodes[base..base + Size(t)][1..];
  }

  lemma LaidFirst(nodes: seq<Member>, ts: seq<WitnessNode>, base: nat)
    requires LaidAll(nodes, ts, base) && ts != []
    ensures Laid(nodes, ts[0], base) && LaidAll(nodes, ts[1..], base + Size(ts[0]))
  {
    var whole, n := nodes[base..base + SizeAll(ts)], Size(ts[0]);
    assert nodes[base..base + n] == whole[..n];
    assert nodes[base + n..base + SizeAll(ts)] == whole[n..];
  }

  lemma LaidJoin(nodes: seq<Member>, ts: seq<WitnessNode>, base: nat)
    requires ts != [] && Laid(nodes, ts[0], base) && LaidAll(nodes, ts[1..], base + Size(ts[0]))
    ensures LaidAll(nodes, ts, base)
  {
    var next, end := base + Size(ts[0]), base + SizeAll(ts);
    assert nodes[base..end] == nodes[base..next] + nodes[next..end];
  }

  /** Rebuilding and walking a laid tree give it back, in the order it was laid. */
  lemma {:induction false} LaidReadsBack(nodes: seq<Member>, t: WitnessNode, base: nat)
    requires Forward(nodes) && Laid(nodes, t, base)
    ensures Rebuilt(nodes, base) == t && Walk(nodes, base) == Consecutive(base, Size(t))
    decreases t, 0
  {
    LaidHead(nodes, t, base);
    ChildrenAreIndexes(nodes, base);
    LaidAllReadsBack(nodes, t.children, base + 1);
    ConsecutiveSplit(base, 1, SizeAll(t.children));
    assert Consecutive(base, 1) == [base];
  }

  lemma {:induction false} LaidAllReadsBack(nodes: seq<Member>, ts: seq<WitnessNode>, base: nat)
    requires Forward(nodes) && LaidAll(nodes, ts, base)
    ensures Indexes(nodes, -1, Starts(ts, base))
    ensures RebuiltAll(nodes, Starts(ts, base)) == ts
    ensures WalkAll(nodes, Starts(ts, base)) == Consecutive(base, SizeAll(ts))
    decreases ts
  {
    StartsAreIndexes(nodes, ts, base);
    if ts != [] {
      var first, rest := ts[0], ts[1..];
      var next := base + Size(first);
      assert ts == [first] + rest;
      LaidFirst(nodes, ts, base);
      LaidReadsBack(nodes, first, base);
      LaidAllReadsBack(nodes, rest, next);
      FirstTree(ts, first, rest, base);
      ReadsBackJoin(nodes, first, rest, base, next, Starts(ts, base), Starts(rest, next));
    }
  }

  lemma {:induction false} StartsAreIndexes(nodes: seq<Member>, ts: seq<WitnessNode>, base: nat)
    requires base + SizeAll(ts) <= |nodes|
    ensures Indexes(nodes, -1, Starts(ts, base))
  {
    StartsInside(ts, base);
  }

  lemma {:induction false} ReadsBackJoin(nodes: seq<Member>, first: WitnessNode, rest: seq<WitnessNode>, base: nat,
                                         next: nat, starts: seq<int>, later: seq<int>)
    requires Forward(nodes) && Indexes(nodes, -1, starts) && starts == [base] + later && next == base + Size(first)
    requires base < |nodes| && Rebuilt(nodes, base) == first && Walk(nodes, base) == Consecutive(base, Size(first))
    requires Indexes(nodes, -1, later) && RebuiltAll(nodes, later) == rest
    requires WalkAll(nodes, later) == Consecutive(next, SizeAll(rest))
    ensures RebuiltAll(nodes, starts) == [first] + rest
    ensures WalkAll(nodes, starts) == Consecutive(base, Size(first) + SizeAll(rest))
  {
    assert starts[0] == base && starts[1..] == later;
    FirstOfAll(nodes, starts);
    ConsecutiveSplit(base, Size(first), SizeAll(rest));
  }

  /** Reading a flattened tree gives back that tree, and its pre-order is the published
      order. */
  lemma {:induction false} RoundTrip(t: WitnessNode)
    ensures WellShaped(Layout(t, 0))
    ensures Rebuilt(Layout(t, 0), 0) == t
    ensures Walk(Layout(t, 0), 0) == Consecutive(0, |Layout(t, 0)|)
  {
    FlattenedIsWellShaped(t);
    assert Layout(t, 0)[0..Size(t)] == Layout(t, 0);
    LaidReadsBack(Layout(t, 0), t, 0);
  }

  // ---------------------------------------------------------------------------
  // Reading, then printing
  // ---------------------------------------------------------------------------

  /** `m` is node `x` with its children renumbered by their place on the walk. */
  ghost predicate Matches(nodes: seq<Member>, walk: seq<int>, base: int, m: Member, x: int) {
    && 0 <= x < |nodes|
    && m.step == nodes[x].step
    && |m.children| == |nodes[x].children|
    && forall k :: 0 <= k < |m.children| ==> At(walk, base, m.children[k], nodes[x].children[k])
  }

  ghost predicate At(walk: seq<int>, base: int, place: int, x: int) {
    base <= place < base + |walk| && walk[place - base] == x
  }

  /** `ms`, laid at `base`, is the list renumbered along `walk`. */
  ghost predicate Renumbers(nodes: seq<Member>, walk: seq<int>, ms: seq<Member>, base: int) {
    |ms| == |walk| && forall p :: 0 <= p < |ms| ==> Matches(nodes, walk, base, ms[p], walk[p])
  }

  lemma MatchesWiden(nodes: seq<Member>, before: seq<int>, walk: seq<int>, after: seq<int>, base: int, m: Member,
                     x: int)
    requires Matches(nodes, walk, base, m, x)
    ensures Matches(nodes, before + walk + after, base - |before|, m, x)
  {
    forall k | 0 <= k < |m.children|
      ensures At(before + walk + after, base - |before|, m.children[k], nodes[x].children[k])
    {
      assert At(walk, base, m.children[k], nodes[x].children[k]);
    }
  }

  lemma RenumbersConcat(nodes: seq<Member>, all: seq<int>, ms: seq<Member>, base: int, walk: seq<int>,
                        first: seq<Member>, next: int, walk': seq<int>, rest: seq<Member>)
    requires all == walk + walk' && ms == first + rest && next == base + |first|
    requires Renumbers(nodes, walk, first, base) && Renumbers(nodes, walk', rest, next)
    ensures Renumbers(nodes, all, ms, base)
  {
    forall p | 0 <= p < |ms| ensures Matches(nodes, all, base, ms[p], all[p]) {
      if p < |first| {
        MatchesWiden(nodes, [], walk, walk', base, first[p], walk[p]);
        assert [] + walk + walk' == all;
      } else {
        MatchesWiden(nodes, walk, walk', [], next, rest[p - |first|], walk'[p - |first|]);
        assert walk + walk' + [] == all;
      }
    }
  }

  /** `ms` is the forest below `cs` renumbered along `walk`, its trees starting at `starts`. */
  ghost predicate Reprints(nodes: seq<Member>, cs: seq<int>, walk: seq<int>, ms: seq<Member>, starts: seq<int>,
                           base: int)
  {
    && Renumbers(nodes, walk, ms, base)
    && |starts| == |cs|
    && forall k :: 0 <= k < |cs| ==> At(walk, base, starts[k], cs[k])
  }

  lemma ReprintsJoin(nodes: seq<Member>, cs: seq<int>, all: seq<int>, ms: seq<Member>, starts: seq<int>, base: int,
                     walk: seq<int>, first: seq<Member>, cs': seq<int>, walk': seq<int>, rest: seq<Member>,
                     starts': seq<int>, next: int)
    requires cs != [] && cs' == cs[1..]
    requires all == walk + walk' && ms == first + rest && starts == [base] + starts' && next == base + |first|
    requires Renumbers(nodes, walk, first, base) && walk != [] && walk[0] == cs[0]
    requires Reprints(nodes, cs', walk', rest, starts', next)
    ensures Reprints(nodes, cs, all, ms, starts, base)
  {
    RenumbersConcat(nodes, all, ms, base, walk, first, next, walk', rest);
    forall k | 1 <= k < |cs| ensures At(all, base, starts[k], cs[k]) {
      assert At(walk', next, starts'[k - 1], cs'[k - 1]);
    }
  }

  /** Printing a rebuilt tree prints the list renumbered along its pre-order. */
  lemma {:induction false} ReprintRenumbers(nodes: seq<Member>, i: nat, base: nat)
    requires Forward(nodes) && i < |nodes|
    ensures Renumbers(nodes, Walk(nodes, i), Layout(Rebuilt(nodes, i), base), base)
    ensures Walk(nodes, i) != [] && Walk(nodes, i)[0] == i
    decreases |nodes| - i, 1, 0
  {
    ChildrenAreIndexes(nodes, i);
    var cs := nodes[i].children;
    var ts, walk := RebuiltAll(nodes, cs), WalkAll(nodes, cs);
    ReprintAllRenumbers(nodes, i, cs, base + 1);
    RootRenumbers(nodes, i, walk, Starts(ts, base + 1), LayoutAll(ts, base + 1), base);
  }

  lemma RootRenumbers(nodes: seq<Member>, i: nat, walk: seq<int>, starts: seq<int>, inner: seq<Member>, base: nat)
    requires i < |nodes| && Renumbers(nodes, walk, inner, base + 1) && |starts| == |nodes[i].children|
    requires forall k :: 0 <= k < |starts| ==> At(walk, base + 1, starts[k], nodes[i].children[k])
    ensures Renumbers(nodes, [i] + walk, [Member(nodes[i].step, starts)] + inner, base)
  {
    var root := Member(nodes[i].step, starts);
    forall p | 0 <= p < |inner| ensures Matches(nodes, [i] + walk, base, inner[p], walk[p]) {
      MatchesWiden(nodes, [i], walk, [], base + 1, inner[p], walk[p]);
      assert [i] + walk + [] == [i] + walk;
    }
    forall k | 0 <= k < |starts| ensures At([i] + walk, base, starts[k], nodes[i].children[k]) {
      assert At(walk, base + 1, starts[k], nodes[i].children[k]);
    }
    assert Matches(nodes, [i] + walk, base, root, i);
  }

  lemma {:induction false} ReprintAllRenumbers(nodes: seq<Member>, floor: nat, cs: seq<int>, base: nat)
    requires Forward(nodes) && floor < |nodes| && Indexes(nodes, floor, cs) && Indexes(nodes, -1, cs)
    ensures Reprints(nodes, cs, WalkAll(nodes, cs), LayoutAll(RebuiltAll(nodes, cs), base),
                     Starts(RebuiltAll(nodes, cs), base), base)
    decreases |nodes| - floor, 0, |cs|
  {
    if cs != [] {
      FirstOfAll(nodes, cs);
      var t, ts, forest := Rebuilt(nodes, cs[0]), RebuiltAll(nodes, cs[1..]), RebuiltAll(nodes, cs);
      var next := base + Size(t);
      assert forest == [t] + ts;
      FirstTree(forest, t, ts, base);
      ReprintRenumbers(nodes, cs[0], base);
      ReprintAllRenumbers(nodes, floor, cs[1..], next);
      assert |Layout(t, base)| == Size(t);
      ReprintsJoin(nodes, cs, WalkAll(nodes, cs), LayoutAll(forest, base), Starts(forest, base), base,
                   Walk(nodes, cs[0]), Layout(t, base), cs[1..], WalkAll(nodes, cs[1..]),
                   LayoutAll(ts, next), Starts(ts, next), next);
    }
  }

  /** Each node's children start one after the other, right behind it. */
  ghost predicate InPublishedOrder(nodes: seq<Member>)
    requires Forward(nodes)
  {
    forall i :: 0 <= i < |nodes| ==> nodes[i].children == Starts(Rebuilt(nodes, i).children, i + 1)
  }

  lemma {:induction false} OrderedIsLaid(nodes: seq<Member>, i: nat)
    requires Forward(nodes) && InPublishedOrder(nodes) && i < |nodes|
    ensures Laid(nodes, Rebuilt(nodes, i), i)
    decreases |nodes| - i, 1, 0
  {
    ChildrenAreIndexes(nodes, i);
    var cs := nodes[i].children;
    OrderedAllIsLaid(nodes, i, cs, i + 1);
    var t := Rebuilt(nodes, i);
    assert nodes[i..i + Size(t)] == [nodes[i]] + nodes[i + 1..i + Size(t)];
  }

  lemma {:induction false} OrderedAllIsLaid(nodes: seq<Member>, floor: nat, cs: seq<int>, base: nat)
    requires Forward(nodes) && InPublishedOrder(nodes) && floor < |nodes| && base <= |nodes|
    requires Indexes(nodes, floor, cs) && Indexes(nodes, -1, cs) && cs == Starts(RebuiltAll(nodes, cs), base)
    ensures LaidAll(nodes, RebuiltAll(nodes, cs), base)
    decreases |nodes| - floor, 0, |cs|
  {
    if cs != [] {
      var ts := RebuiltAll(nodes, cs);
      FirstOfAll(nodes, cs);
      assert ts[1..] == RebuiltAll(nodes, cs[1..]);
      var next := base + Size(ts[0]);
      assert cs[0] == base && cs[1..] == Starts(ts[1..], next);
      OrderedIsLaid(nodes, base);
      OrderedAllIsLaid(nodes, floor, cs[1..], next);
      LaidJoin(nodes, ts, base);
    }
  }

  lemma {:induction false} LaidIsOrdered(nodes: seq<Member>, t: WitnessNode, base: nat, q: nat)
    requires Forward(nodes) && Laid(nodes, t, base) && base <= q < base + Size(t)
    ensures nodes[q].children == Starts(Rebuilt(nodes, q).children, q + 1)
    decreases t, 0
  {
    LaidHead(nodes, t, base);
    if q == base {
      LaidReadsBack(nodes, t, base);
    } else {
      LaidAllIsOrdered(nodes, t.children, base + 1, q);
    }
  }

  lemma {:induction false} LaidAllIsOrdered(nodes: seq<Member>, ts: seq<WitnessNode>, base: nat, q: nat)
    requires Forward(nodes) && LaidAll(nodes, ts, base) && base <= q < base + SizeAll(ts)
    ensures nodes[q].children == Starts(Rebuilt(nodes, q).children, q + 1)
    decreases ts
  {
    LaidFirst(nodes, ts, base);
    if q < base + Size(ts[0]) {
      LaidIsOrdered(nodes, ts[0], base, q);
    } else {
      LaidAllIsOrdered(nodes, ts[1..], base + Size(ts[0]), q);
    }
  }

  /** A walk in published order prints the list back. */
  lemma {:induction false} WalkInOrderReprints(nodes: seq<Member>)
    requires WellShaped(nodes) && Walk(nodes, 0) == Consecutive(0, |nodes|)
    ensures Layout(Rebuilt(nodes, 0), 0) == nodes
  {
    var walk, ms := Walk(nodes, 0), Layout(Rebuilt(nodes, 0), 0);
    ReprintRenumbers(nodes, 0, 0);
    forall p | 0 <= p < |nodes| ensures ms[p] == nodes[p] {
      assert Matches(nodes, walk, 0, ms[p], walk[p]);
      forall k | 0 <= k < |nodes[p].children| ensures ms[p].children[k] == nodes[p].children[k] {
        assert At(walk, 0, ms[p].children[k], nodes[p].children[k]);
      }
      assert ms[p].children == nodes[p].children;
    }
  }

  /** Pre-order over an accepted list is the published order exactly when every node's
      children start one after the other right behind it; then, and only then, printing the
      rebuilt tree gives the list back. */
  lemma {:induction false} PublishedOrderIff(nodes: seq<Member>)
    requires WellShaped(nodes)
    ensures Walk(nodes, 0) == Consecutive(0, |nodes|) <==> InPublishedOrder(nodes)
    ensures Layout(Rebuilt(nodes, 0), 0) == nodes <==> InPublishedOrder(nodes)
  {
    var t := Rebuilt(nodes, 0);
    if InPublishedOrder(nodes) {
      PreorderIsPermutation(nodes);
      OrderedIsLaid(nodes, 0);
      LaidReadsBack(nodes, t, 0);
      assert |nodes| == Size(t);
      assert nodes[0..Size(t)] == nodes;
    }
    if Walk(nodes, 0) == Consecutive(0, |nodes|) {
      WalkInOrderReprints(nodes);
    }
    if Layout(t, 0) == nodes {
      assert nodes[0..Size(t)] == nodes;
      forall q | 0 <= q < |nodes| ensures nodes[q].children == Starts(Rebuilt(nodes, q).children, q + 1) {
        LaidIsOrdered(nodes, t, 0, q);
      }
    }
  }

  lemma {:induction false} ThreeReferences(nodes: seq<Member>)
    requires |nodes| == 3
    ensures References(nodes) == nodes[0].children + nodes[1].children + nodes[2].children
  {
    assert nodes[..0] == [] && nodes[..3] == nodes;
    ReferencesStep(nodes, 0);
    ReferencesStep(nodes, 1);
    ReferencesStep(nodes, 2);
  }

  /** The four rules alone do not fix the order: the reader accepts a list whose pre-order is
      not the order it was published in. */
  lemma {:induction false} AcceptedOutOfOrder(s: Step, nodes: seq<Member>)
    requires nodes == [Member(s, [2, 1]), Member(s, []), Member(s, [])]
    ensures WellShaped(nodes) && Walk(nodes, 0) != Consecutive(0, 3)
  {
    ThreeReferences(nodes);
    assert Forward(nodes);
    ChildrenAreIndexes(nodes, 0);
    FirstOfAll(nodes, [2, 1]);
    ChildrenAreIndexes(nodes, 2);
    assert Walk(nodes, 0)[1] == 2;
  }

  // ---------------------------------------------------------------------------
  // The witness class
  // ---------------------------------------------------------------------------

  /** `contains_silent`. */
  predicate ContainsSilent(t: WitnessNode) {
    !t.step.kind.Observed? || exists k :: 0 <= k < |t.children| && ContainsSilent(t.children[k])
  }

  /** `unobservedCount`. */
  function UnobservedCount(nodes: seq<Member>): nat {
    if nodes == [] then 0 else (if nodes[0].step.kind.Observed? then 0 else 1) + UnobservedCount(nodes[1..])
  }

  lemma {:induction false} UnobservedConcat(a: seq<Member>, b: seq<Member>)
    ensures UnobservedCount(a + b) == UnobservedCount(a) + UnobservedCount(b)
  {
    if a == [] {
      assert a + b == b;
    } else {
      assert (a + b)[1..] == a[1..] + b;
      UnobservedConcat(a[1..], b);
    }
  }

  /** Printer and reader agree on whether a witness rests on an unobserved step. */
  lemma {:induction false} SilentAgrees(t: WitnessNode, base: nat)
    ensures ContainsSilent(t) <==> UnobservedCount(Layout(t, base)) > 0
    decreases t, 0
  {
    SilentAgreesAll(t.children, base + 1);
    UnobservedConcat([Member(t.step, Starts(t.children, base + 1))], LayoutAll(t.children, base + 1));
  }

  lemma {:induction false} SilentAgreesAll(ts: seq<WitnessNode>, base: nat)
    ensures (exists k :: 0 <= k < |ts| && ContainsSilent(ts[k])) <==> UnobservedCount(LayoutAll(ts, base)) > 0
    decreases ts
  {
    if ts != [] {
      var next := base + Size(ts[0]);
      SilentAgrees(ts[0], base);
      SilentAgreesAll(ts[1..], next);
      UnobservedConcat(Layout(ts[0], base), LayoutAll(ts[1..], next));
      if k :| 0 <= k < |ts| && ContainsSilent(ts[k]) {
        assert k > 0 ==> ts[1..][k - 1] == ts[k];
      }
    }
  }
}
