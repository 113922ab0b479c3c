/**
  What the nodes of a fixture are, read off the element tree: one node for each walk from the root through supported
  children and resolvable references that ends in a geometry, in document order, with everything it carries determined
  by its walk.
*/
module GeometryWalks {
  import opened Prelude
  import opened GeometryTemplates
  import opened WalkOrder

  type Walk = seq<Stop<Element>>

  /** The walk may go on from an element to `next`. */
  predicate GoesTo(d: Definition, e: Element, next: Stop<Element>) {
    if e.isReference then
      e.target.Some? && e.target.value in d.roots && next == Stop(d.roots[e.target.value], 0)
    else next.at < |e.children| && next.e == e.children[next.at] && next.e.supported
  }

  ghost predicate IsWalk(d: Definition, w: Walk) {
    && w != [] && w[0] == Stop(d.root, 0)
    && forall k :: 0 <= k < |w| - 1 ==> GoesTo(d, w[k].e, w[k + 1])
  }

  predicate EndsInGeometry(w: Walk) {
    w != [] && !w[|w| - 1].e.isReference
  }

  // ----- what a walk says about its node -----

  /** The transforms of the references directly above the last element, outermost first. */
  function PlacedAt(w: Walk): Transform {
    if |w| <= 1 || !w[|w| - 2].e.isReference then [] else PlacedAt(w[..|w| - 1]) + w[|w| - 2].e.local
  }

  /** The model that the nearest of those references names, if any of them does. */
  function ModelFromAbove(w: Walk): Option<string> {
    if |w| <= 1 || !w[|w| - 2].e.isReference then None
    else if w[|w| - 2].e.model.Some? then w[|w| - 2].e.model
    else ModelFromAbove(w[..|w| - 1])
  }

  /** The names on the walk, references included, separated by slashes; empty names leave no trace. */
  function PathOf(w: Walk): string {
    if w == [] then "" else
      var above, name := PathOf(w[..|w| - 1]), w[|w| - 1].e.name;
      if above == "" then name else if name == "" then above else above + "/" + name
  }

  predicate LensOn(w: Walk) {
    exists k :: 0 <= k < |w| && !w[k].e.isReference && w[k].e.lensLike
  }

  /** How long the part of the walk is that ends in the last geometry above the final element; 0 without one. */
  function Above(w: Walk): (n: nat)
    ensures n < |w| || w == []
  {
    if |w| <= 1 then 0 else if !w[|w| - 2].e.isReference then |w| - 1 else Above(w[..|w| - 1])
  }

  /** The node of a walk, which is the one with this number: everything but its parent. */
  ghost predicate NodeFits(d: Definition, w: Walk, node: Node, fixture: string, number: nat) {
    && EndsInGeometry(w)
    && var e := w[|w| - 1].e;
       var model := if ModelFromAbove(w).Some? then ModelFromAbove(w) else e.model;
       && node.nodeId == fixture + "/" + e.name + "#" + Decimal(number) && node.name == e.name
       && node.fixtureUuid == fixture && node.path == PathOf(w)
       && node.key == (if fixture == "" then PathOf(w) else if PathOf(w) == "" then fixture else fixture + "/" + PathOf(w))
       && node.local == PlacedAt(w) + e.local
       && node.isLens == LensOn(w) && node.isEmitter == (e.emitterLike || LensOn(w)) && node.optics == e.optics
       && node.model == model
       && node.asset == (if model.Some? && model.value in d.assets then Some(d.assets[model.value]) else None)
  }

  // ----- the walks, enumerated -----

  /** The walks that go on from `p`, itself included, and end in a geometry. */
  ghost function WalksFrom(d: Definition, rank: map<string, nat>, r: nat, p: Walk): seq<Walk>
    requires Bounded(d, rank) && p != [] && Ranked(d, rank, p[|p| - 1].e, r)
    decreases r, p[|p| - 1].e, |p[|p| - 1].e.children| + 1
  {
    var e := p[|p| - 1].e;
    if !e.isReference then [p] + WalksBelow(d, rank, r, p, 0)
    else if e.target.None? || e.target.value !in d.roots then []
    else WalksFrom(d, rank, rank[e.target.value], p + [Stop(d.roots[e.target.value], 0)])
  }

  /** Those through the children from place `i` on. */
  ghost function WalksBelow(d: Definition, rank: map<string, nat>, r: nat, p: Walk, i: nat): seq<Walk>
    requires Bounded(d, rank) && p != [] && Ranked(d, rank, p[|p| - 1].e, r)
    requires !p[|p| - 1].e.isReference && i <= |p[|p| - 1].e.children|
    decreases r, p[|p| - 1].e, |p[|p| - 1].e.children| - i
  {
    var e := p[|p| - 1].e;
    if i == |e.children| then []
    else if !e.children[i].supported then WalksBelow(d, rank, r, p, i + 1)
    else WalksFrom(d, rank, r, p + [Stop(e.children[i], i)]) + WalksBelow(d, rank, r, p, i + 1)
  }

  lemma WalkGoesOn(d: Definition, p: Walk, next: Stop<Element>)
    requires IsWalk(d, p) && GoesTo(d, p[|p| - 1].e, next)
    ensures IsWalk(d, p + [next])
  {
    var w := p + [next];
    forall k | 0 <= k < |w| - 1 ensures GoesTo(d, w[k].e, w[k + 1]) {
      assert k < |p| - 1 ==> GoesTo(d, p[k].e, p[k + 1]);
    }
  }

  /** A finished walk that starts with `p` and goes through a child from place `i` on, if it goes on at all. */
  ghost predicate Continues(d: Definition, p: Walk, w: Walk) {
    IsWalk(d, w) && EndsInGeometry(w) && |p| <= |w| && w[..|p|] == p
  }

  ghost predicate ContinuesFrom(d: Definition, p: Walk, i: nat, w: Walk) {
    Continues(d, p, w) && |w| > |p| && w[|p|].at >= i
  }

  lemma LongerContinues(d: Definition, p: Walk, next: Stop<Element>, w: Walk)
    requires Continues(d, p + [next], w)
    ensures Continues(d, p, w) && |w| > |p| && w[|p|] == next && (p != [] ==> w[|p| - 1] == p[|p| - 1])
  {
    assert p != [] ==> w[|p| - 1] == w[..|p| + 1][|p| - 1];
    assert w[..|p|] == w[..|p| + 1][..|p|] == p;
    assert w[|p|] == w[..|p| + 1][|p|];
  }

  lemma ContinuesLonger(d: Definition, p: Walk, w: Walk)
    requires Continues(d, p, w) && |w| > |p| && p != []
    ensures GoesTo(d, p[|p| - 1].e, w[|p|]) && Continues(d, p + [w[|p|]], w)
  {
    var k := |p| - 1;
    assert w[k] == w[..|p|][k] == p[k];
    assert GoesTo(d, w[k].e, w[k + 1]);
    assert w[..|p| + 1] == p + [w[|p|]];
  }

  /** Exactly the finished walks are enumerated. */
  lemma {:induction false} WalksFromExact(d: Definition, rank: map<string, nat>, r: nat, p: Walk, w: Walk)
    requires Bounded(d, rank) && IsWalk(d, p) && Ranked(d, rank, p[|p| - 1].e, r)
    ensures w in WalksFrom(d, rank, r, p) <==> Continues(d, p, w)
    decreases r, p[|p| - 1].e, |p[|p| - 1].e.children| + 1
  {
    var e := p[|p| - 1].e;
    if !e.isReference {
      WalksBelowExact(d, rank, r, p, 0, w);
      if |w| == |p| && Continues(d, p, w) {
        assert w == w[..|p|];
      }
    } else {
      if Continues(d, p, w) {
        assert w[..|p|][|p| - 1] == p[|p| - 1];
        ContinuesLonger(d, p, w);
      }
      if e.target.Some? && e.target.value in d.roots {
        var next := Stop(d.roots[e.target.value], 0);
        WalkGoesOn(d, p, next);
        WalksFromExact(d, rank, rank[e.target.value], p + [next], w);
        if Continues(d, p + [next], w) {
          LongerContinues(d, p, next, w);
        }
      }
    }
  }

  lemma {:induction false} WalksBelowExact(d: Definition, rank: map<string, nat>, r: nat, p: Walk, i: nat, w: Walk)
    requires Bounded(d, rank) && IsWalk(d, p) && Ranked(d, rank, p[|p| - 1].e, r)
    requires !p[|p| - 1].e.isReference && i <= |p[|p| - 1].e.children|
    ensures w in WalksBelow(d, rank, r, p, i) <==> ContinuesFrom(d, p, i, w)
    decreases r, p[|p| - 1].e, |p[|p| - 1].e.children| - i
  {
    var e := p[|p| - 1].e;
    if Continues(d, p, w) && |w| > |p| {
      ContinuesLonger(d, p, w);
    }
    if i < |e.children| {
      WalksBelowExact(d, rank, r, p, i + 1, w);
      if e.children[i].supported {
        var next := Stop(e.children[i], i);
        WalkGoesOn(d, p, next);
        WalksFromExact(d, rank, r, p + [next], w);
        if Continues(d, p + [next], w) {
          LongerContinues(d, p, next, w);
        }
      }
    }
  }

  // ----- document order -----

  lemma BelowComesAfter(d: Definition, p: Walk, i: nat, w: Walk)
    requires p != [] && ContinuesFrom(d, p, i, w)
    ensures Precedes(p, w)
  {
    assert DivergesAt(p, w, |p|);
  }

  lemma EarlierChildFirst(d: Definition, p: Walk, next: Stop<Element>, a: Walk, b: Walk)
    requires p != [] && Continues(d, p + [next], a) && ContinuesFrom(d, p, next.at + 1, b)
    ensures Precedes(a, b)
  {
    LongerContinues(d, p, next, a);
    assert DivergesAt(a, b, |p|);
  }

  lemma {:induction false} WalksFromInOrder(d: Definition, rank: map<string, nat>, r: nat, p: Walk)
    requires Bounded(d, rank) && IsWalk(d, p) && Ranked(d, rank, p[|p| - 1].e, r)
    ensures InOrder(WalksFrom(d, rank, r, p))
    decreases r, p[|p| - 1].e, |p[|p| - 1].e.children| + 1
  {
    var e := p[|p| - 1].e;
    if !e.isReference {
      WalksBelowInOrder(d, rank, r, p, 0);
      var below := WalksBelow(d, rank, r, p, 0);
      forall j | 0 <= j < |below| ensures Precedes(p, below[j]) {
        WalksBelowExact(d, rank, r, p, 0, below[j]);
        BelowComesAfter(d, p, 0, below[j]);
      }
      InOrderConcat([p], below);
    } else if e.target.Some? && e.target.value in d.roots {
      var next := Stop(d.roots[e.target.value], 0);
      WalkGoesOn(d, p, next);
      WalksFromInOrder(d, rank, rank[e.target.value], p + [next]);
    }
  }

  lemma {:induction false} WalksBelowInOrder(d: Definition, rank: map<string, nat>, r: nat, p: Walk, i: nat)
    requires Bounded(d, rank) && IsWalk(d, p) && Ranked(d, rank, p[|p| - 1].e, r)
    requires !p[|p| - 1].e.isReference && i <= |p[|p| - 1].e.children|
    ensures InOrder(WalksBelow(d, rank, r, p, i))
    decreases r, p[|p| - 1].e, |p[|p| - 1].e.children| - i
  {
    var e := p[|p| - 1].e;
    if i < |e.children| {
      WalksBelowInOrder(d, rank, r, p, i + 1);
      if e.children[i].supported {
        var next := Stop(e.children[i], i);
        WalkGoesOn(d, p, next);
        WalksFromInOrder(d, rank, r, p + [next]);
        var here, rest := WalksFrom(d, rank, r, p + [next]), WalksBelow(d, rank, r, p, i + 1);
        forall a, b | 0 <= a < |here| && 0 <= b < |rest| ensures Precedes(here[a], rest[b]) {
          WalksFromExact(d, rank, r, p + [next], here[a]);
          WalksBelowExact(d, rank, r, p, i + 1, rest[b]);
          EarlierChildFirst(d, p, next, here[a], rest[b]);
        }
        InOrderConcat(here, rest);
      }
    }
  }

  // ----- the nodes carry what their walks say -----

  /** What the recursion hands down agrees with the walk so far. */
  ghost predicate ContextFits(p: Walk, c: Context) {
    && p != [] && c.prepend == PlacedAt(p) && c.overrideModel == ModelFromAbove(p)
    && c.parentPath == PathOf(p[..|p| - 1]) && c.parentIsLens == LensOn(p[..|p| - 1])
  }

  ghost predicate NodesFit(d: Definition, walks: seq<Walk>, nodes: seq<Node>, fixture: string, first: nat) {
    |nodes| == |walks| && forall i :: 0 <= i < |nodes| ==> NodeFits(d, walks[i], nodes[i], fixture, first + i)
  }

  lemma NodesFitConcat(d: Definition, a: seq<Walk>, b: seq<Walk>, m: seq<Node>, n: seq<Node>, fixture: string, first: nat)
    requires NodesFit(d, a, m, fixture, first) && NodesFit(d, b, n, fixture, first + |m|)
    ensures NodesFit(d, a + b, m + n, fixture, first)
  {
    forall i | 0 <= i < |m + n| ensures NodeFits(d, (a + b)[i], (m + n)[i], fixture, first + i) {
      if i >= |m| {
        assert NodeFits(d, b[i - |m|], n[i - |m|], fixture, first + |m| + (i - |m|));
      }
    }
  }

  lemma LensGrows(p: Walk)
    requires p != []
    ensures LensOn(p) <==> LensOn(p[..|p| - 1]) || (!p[|p| - 1].e.isReference && p[|p| - 1].e.lensLike)
  {
    var init := p[..|p| - 1];
    if LensOn(init) {
      var k :| 0 <= k < |init| && !init[k].e.isReference && init[k].e.lensLike;
      assert p[k] == init[k];
    }
    if LensOn(p) {
      var k :| 0 <= k < |p| && !p[k].e.isReference && p[k].e.lensLike;
      assert k < |init| ==> init[k] == p[k];
    }
  }

  lemma MadeNodeFits(d: Definition, p: Walk, c: Context, counter: nat)
    requires ContextFits(p, c) && EndsInGeometry(p)
    ensures NodeFits(d, p, MakeNode(d, p[|p| - 1].e, c, counter), c.fixture, counter)
  {
    LensGrows(p);
    var e := p[|p| - 1].e;
    assert c.fixture + ("/" + e.name + "#" + Decimal(counter)) == c.fixture + "/" + e.name + "#" + Decimal(counter);
  }

  /** The context fits every step down from the walk. */
  ghost predicate FitsBelow(p: Walk, c: Context) {
    forall next: Stop<Element> :: ContextFits(p + [next], c)
  }

  lemma ChildContextFits(d: Definition, p: Walk, c: Context, counter: nat)
    requires ContextFits(p, c) && EndsInGeometry(p)
    ensures FitsBelow(p, ChildContext(p[|p| - 1].e, c, MakeNode(d, p[|p| - 1].e, c, counter)))
  {
    LensGrows(p);
    forall next: Stop<Element>
      ensures ContextFits(p + [next], ChildContext(p[|p| - 1].e, c, MakeNode(d, p[|p| - 1].e, c, counter)))
    {
      assert (p + [next])[..|p|] == p;
    }
  }

  lemma ReferenceContextFits(p: Walk, c: Context, next: Stop<Element>)
    requires ContextFits(p, c) && p[|p| - 1].e.isReference
    ensures ContextFits(p + [next], ReferenceContext(p[|p| - 1].e, c))
  {
    LensGrows(p);
    assert (p + [next])[..|p|] == p;
  }

  /** The nodes of an expansion are those of the walks that go on from it, one each and in their order. */
  lemma {:induction false} ExpansionFits(d: Definition, rank: map<string, nat>, r: nat, p: Walk, c: Context, counter: nat)
    requires Bounded(d, rank) && ContextFits(p, c) && Ranked(d, rank, p[|p| - 1].e, r)
    ensures NodesFit(d, WalksFrom(d, rank, r, p), Expand(d, rank, r, p[|p| - 1].e, c, counter).0, c.fixture, counter)
    decreases r, p[|p| - 1].e, |p[|p| - 1].e.children| + 1
  {
    var e := p[|p| - 1].e;
    if !e.isReference {
      var node := MakeNode(d, e, c, counter);
      MadeNodeFits(d, p, c, counter);
      assert e.children[0..] == e.children;
      ChildContextFits(d, p, c, counter);
      ExpansionsFit(d, rank, r, p, 0, ChildContext(e, c, node), counter + 1);
      NodesFitConcat(d, [p], WalksBelow(d, rank, r, p, 0), [node],
        ExpandAll(d, rank, r, e.children, ChildContext(e, c, node), counter + 1).0, c.fixture, counter);
    } else if e.target.Some? && e.target.value in d.roots {
      var next := Stop(d.roots[e.target.value], 0);
      ReferenceContextFits(p, c, next);
      ExpansionFits(d, rank, rank[e.target.value], p + [next], ReferenceContext(e, c), counter);
    }
  }

  lemma {:induction false} ExpansionsFit(d: Definition, rank: map<string, nat>, r: nat, p: Walk, i: nat, c: Context,
                                         counter: nat)
    requires Bounded(d, rank) && EndsInGeometry(p) && FitsBelow(p, c) && Ranked(d, rank, p[|p| - 1].e, r)
    requires i <= |p[|p| - 1].e.children|
    ensures NodesFit(d, WalksBelow(d, rank, r, p, i), ExpandAll(d, rank, r, p[|p| - 1].e.children[i..], c, counter).0,
              c.fixture, counter)
    decreases r, p[|p| - 1].e, |p[|p| - 1].e.children| - i
  {
    var e := p[|p| - 1].e;
    if i < |e.children| {
      NextChild(d, rank, r, e.children, i, c, counter);
      if e.children[i].supported {
        var next := Stop(e.children[i], i);
        ExpansionFits(d, rank, r, p + [next], c, counter);
        ExpansionIsNumbered(d, rank, r, next.e, c, counter);
        var first := Expand(d, rank, r, next.e, c, counter);
        ExpansionsFit(d, rank, r, p, i + 1, c, first.1);
        NodesFitConcat(d, WalksFrom(d, rank, r, p + [next]), WalksBelow(d, rank, r, p, i + 1), first.0,
          ExpandAll(d, rank, r, e.children[i + 1..], c, first.1).0, c.fixture, counter);
      } else {
        ExpansionsFit(d, rank, r, p, i + 1, c, counter);
      }
    }
  }

  // ----- parents -----

  ghost predicate HangsUnder(walks: seq<Walk>, nodes: seq<Node>, i: nat, above: Walk) {
    exists j :: 0 <= j < i && j < |walks| && j < |nodes| && i < |nodes| && walks[j] == above &&
      nodes[i].parentId == nodes[j].nodeId
  }

  /** Each node hangs under the node of the last geometry above it, or under `parentId` if that is not below `bound`. */
  ghost predicate Parented(walks: seq<Walk>, nodes: seq<Node>, bound: nat, parentId: string) {
    |walks| == |nodes| && forall i :: 0 <= i < |walks| ==> ParentOk(walks, nodes, i, bound, parentId)
  }

  ghost predicate ParentOk(walks: seq<Walk>, nodes: seq<Node>, i: nat, bound: nat, parentId: string)
    requires i < |walks| == |nodes|
  {
    && walks[i] != []
    && if Above(walks[i]) >= bound then HangsUnder(walks, nodes, i, walks[i][..Above(walks[i])])
       else nodes[i].parentId == parentId
  }

  lemma {:induction false} AboveIsTheLastGeometry(w: Walk, k: nat)
    requires k + 1 < |w| && !w[k].e.isReference
    ensures Above(w) > k
  {
    if w[|w| - 2].e.isReference {
      AboveIsTheLastGeometry(w[..|w| - 1], k);
    }
  }

  lemma {:induction false} AboveIsAGeometry(w: Walk)
    requires Above(w) > 0
    ensures Above(w) < |w| && !w[Above(w) - 1].e.isReference
  {
    if w[|w| - 2].e.isReference {
      AboveIsAGeometry(w[..|w| - 1]);
    }
  }

  lemma ParentedConcat(a: seq<Walk>, b: seq<Walk>, m: seq<Node>, n: seq<Node>, bound: nat, parentId: string)
    requires Parented(a, m, bound, parentId) && Parented(b, n, bound, parentId)
    ensures Parented(a + b, m + n, bound, parentId)
  {
    forall i | 0 <= i < |a + b| ensures ParentOk(a + b, m + n, i, bound, parentId) {
      if i < |a| {
        assert ParentOk(a, m, i, bound, parentId);
        if Above(a[i]) >= bound {
          var j :| 0 <= j < i && a[j] == a[i][..Above(a[i])] && m[i].parentId == m[j].nodeId;
          assert (a + b)[j] == a[j] && (m + n)[j] == m[j];
        }
      } else {
        var x := i - |a|;
        assert ParentOk(b, n, x, bound, parentId);
        if Above(b[x]) >= bound {
          var j :| 0 <= j < x && b[j] == b[x][..Above(b[x])] && n[x].parentId == n[j].nodeId;
          assert (a + b)[|a| + j] == b[j] && (m + n)[|a| + j] == n[j];
        }
      }
    }
  }

  lemma AboveReaches(d: Definition, p: Walk, w: Walk)
    requires EndsInGeometry(p) && ContinuesFrom(d, p, 0, w)
    ensures Above(w) >= |p| && (Above(w) == |p| ==> w[..Above(w)] == p)
  {
    assert w[..|p|][|p| - 1] == w[|p| - 1];
    AboveIsTheLastGeometry(w, |p| - 1);
  }

  lemma OneUnder(d: Definition, p: Walk, node: Node, below: seq<Walk>, nodes: seq<Node>, x: nat)
    requires EndsInGeometry(p) && Parented(below, nodes, |p| + 1, node.nodeId)
    requires x < |below| && ContinuesFrom(d, p, 0, below[x])
    ensures ParentOk([p] + below, [node] + nodes, x + 1, |p|, node.parentId)
  {
    var walks, all, w := [p] + below, [node] + nodes, below[x];
    assert ParentOk(below, nodes, x, |p| + 1, node.nodeId);
    assert walks[x + 1] == w && all[x + 1] == nodes[x];
    AboveReaches(d, p, w);
    if Above(w) >= |p| + 1 {
      var j :| 0 <= j < x && below[j] == w[..Above(w)] && nodes[x].parentId == nodes[j].nodeId;
      assert walks[j + 1] == below[j] && all[j + 1] == nodes[j];
    } else {
      assert walks[0] == w[..Above(w)];
    }
  }

  /** What lies below a geometry hangs under its node or under nodes further down. */
  lemma ParentedUnder(d: Definition, p: Walk, node: Node, below: seq<Walk>, nodes: seq<Node>)
    requires EndsInGeometry(p) && Parented(below, nodes, |p| + 1, node.nodeId)
    requires forall i :: 0 <= i < |below| ==> ContinuesFrom(d, p, 0, below[i])
    ensures Parented([p] + below, [node] + nodes, |p|, node.parentId)
  {
    forall i | 0 <= i < |[p] + below| ensures ParentOk([p] + below, [node] + nodes, i, |p|, node.parentId) {
      if i > 0 {
        OneUnder(d, p, node, below, nodes, i - 1);
      }
    }
  }

  /** A reference is no parent: what lies below it hangs where the reference does. */
  lemma ParentedThrough(d: Definition, p: Walk, next: Stop<Element>, walks: seq<Walk>, nodes: seq<Node>, parentId: string)
    requires p != [] && p[|p| - 1].e.isReference && Parented(walks, nodes, |p| + 1, parentId)
    requires forall i :: 0 <= i < |walks| ==> Continues(d, p + [next], walks[i])
    ensures Parented(walks, nodes, |p|, parentId)
  {
    forall i | 0 <= i < |walks| ensures ParentOk(walks, nodes, i, |p|, parentId) {
      assert ParentOk(walks, nodes, i, |p| + 1, parentId) && Continues(d, p + [next], walks[i]);
      LongerContinues(d, p, next, walks[i]);
      if Above(walks[i]) > 0 {
        AboveIsAGeometry(walks[i]);
      }
    }
  }

  lemma {:induction false} ExpansionIsParented(d: Definition, rank: map<string, nat>, r: nat, p: Walk, c: Context, counter: nat)
    requires Bounded(d, rank) && IsWalk(d, p) && Ranked(d, rank, p[|p| - 1].e, r)
    ensures Parented(WalksFrom(d, rank, r, p), Expand(d, rank, r, p[|p| - 1].e, c, counter).0, |p|, c.parentId)
    decreases r, p[|p| - 1].e, |p[|p| - 1].e.children| + 1
  {
    var e := p[|p| - 1].e;
    if !e.isReference {
      var node, below := MakeNode(d, e, c, counter), WalksBelow(d, rank, r, p, 0);
      assert e.children[0..] == e.children;
      ExpansionsAreParented(d, rank, r, p, 0, ChildContext(e, c, node), counter + 1);
      forall i | 0 <= i < |below| ensures ContinuesFrom(d, p, 0, below[i]) {
        WalksBelowExact(d, rank, r, p, 0, below[i]);
      }
      ParentedUnder(d, p, node, below, ExpandAll(d, rank, r, e.children, ChildContext(e, c, node), counter + 1).0);
    } else if e.target.Some? && e.target.value in d.roots {
      var next, inner := Stop(d.roots[e.target.value], 0), rank[e.target.value];
      WalkGoesOn(d, p, next);
      ExpansionIsParented(d, rank, inner, p + [next], ReferenceContext(e, c), counter);
      var walks := WalksFrom(d, rank, inner, p + [next]);
      forall i | 0 <= i < |walks| ensures Continues(d, p + [next], walks[i]) {
        WalksFromExact(d, rank, inner, p + [next], walks[i]);
      }
      ParentedThrough(d, p, next, walks, Expand(d, rank, inner, next.e, ReferenceContext(e, c), counter).0, c.parentId);
    }
  }

  lemma {:induction false} ExpansionsAreParented(d: Definition, rank: map<string, nat>, r: nat, p: Walk, i: nat, c: Context,
                                                 counter: nat)
    requires Bounded(d, rank) && IsWalk(d, p) && Ranked(d, rank, p[|p| - 1].e, r)
    requires EndsInGeometry(p) && i <= |p[|p| - 1].e.children|
    ensures Parented(WalksBelow(d, rank, r, p, i),
              ExpandAll(d, rank, r, p[|p| - 1].e.children[i..], c, counter).0, |p| + 1, c.parentId)
    decreases r, p[|p| - 1].e, |p[|p| - 1].e.children| - i
  {
    var e := p[|p| - 1].e;
    if i < |e.children| {
      NextChild(d, rank, r, e.children, i, c, counter);
      if e.children[i].supported {
        var next := Stop(e.children[i], i);
        WalkGoesOn(d, p, next);
        ExpansionIsParented(d, rank, r, p + [next], c, counter);
        var first := Expand(d, rank, r, next.e, c, counter);
        ExpansionsAreParented(d, rank, r, p, i + 1, c, first.1);
        ParentedConcat(WalksFrom(d, rank, r, p + [next]), WalksBelow(d, rank, r, p, i + 1), first.0,
          ExpandAll(d, rank, r, e.children[i + 1..], c, first.1).0, |p| + 1, c.parentId);
      } else {
        ExpansionsAreParented(d, rank, r, p, i + 1, c, counter);
      }
    }
  }

  // ----- what a build is -----

  /**
    The nodes stand for the walks, one each: the walks are all those that end in a geometry, in document order; a node
    carries what its walk says, is numbered by its place, and hangs under the node of the last geometry above it.
  */
  ghost predicate Depicts(d: Definition, walks: seq<Walk>, nodes: seq<Node>, fixture: string, parentId: string) {
    && (forall w :: w in walks <==> IsWalk(d, w) && EndsInGeometry(w)) && InOrder(walks)
    && NodesFit(d, walks, nodes, fixture, 0) && Parented(walks, nodes, 1, parentId)
  }

  lemma BuildDepicts(d: Definition, rank: map<string, nat>, r: nat, fixture: string, parentId: string,
                     parentWorld: Transform) returns (walks: seq<Walk>)
    requires Bounded(d, rank) && Ranked(d, rank, d.root, r)
    ensures Depicts(d, walks, Build(d, rank, r, fixture, parentId, parentWorld), fixture, parentId)
  {
    var p, c := [Stop(d.root, 0)], RootContext(fixture, parentId, parentWorld);
    walks := WalksFrom(d, rank, r, p);
    forall w ensures w in walks <==> IsWalk(d, w) && EndsInGeometry(w) {
      WalksFromExact(d, rank, r, p, w);
      if IsWalk(d, w) {
        assert w[..1] == p;
      }
    }
    WalksFromInOrder(d, rank, r, p);
    assert p[..0] == [];
    ExpansionFits(d, rank, r, p, c, 0);
    ExpansionIsParented(d, rank, r, p, c, 0);
  }

  /** Whether it comes from the cache or not, what a fixture is given depicts its geometry tree. */
  method InstantiateDepicted(templates: FixtureGeometryTemplates, library: Library, key: Key, fixture: string,
                             parentId: string) returns (nodes: seq<Node>, ghost walks: seq<Walk>)
    requires templates.Valid(library) && Sound(library, key)
    modifies templates
    ensures templates.Valid(library)
    ensures Depicts(library.definition(key), walks, nodes, fixture, parentId)
  {
    nodes := templates.Instantiate(library, key, fixture, parentId);
    walks := BuildDepicts(library.definition(key), library.rank(key), library.depth(key), fixture, parentId, []);
  }
}
