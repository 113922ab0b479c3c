/**
  What the routes of an expansion are, read off the arena: one for each walk from the origin through named children and
  reference targets that ends in a geometry, in document order, with everything a route carries determined by its walk.
*/
module RouteWalks {
  import opened Prelude
  import opened GeometryIdentity
  import opened GeometryRoutes
  import opened WalkOrder

  type Trail = seq<Stop<nat>>

  predicate GoesTo(f: Forest, n: nat, next: Stop<nat>)
    requires n < |f.nodes|
  {
    var e := f.nodes[n];
    if e.reference then e.geometry in f.roots && next == Stop(f.roots[e.geometry], 0)
    else next.at < |e.children| && next.e == e.children[next.at]
  }

  ghost predicate InArena(f: Forest, w: Trail) {
    forall k :: 0 <= k < |w| ==> w[k].e < |f.nodes|
  }

  /** A walk from the origin; all its elements but perhaps the last are named. */
  ghost predicate IsTrail(f: Forest, origin: nat, w: Trail) {
    && w != [] && w[0] == Stop(origin, 0) && InArena(f, w)
    && forall k :: 0 <= k < |w| - 1 ==> Named(f.nodes[w[k].e]) && GoesTo(f, w[k].e, w[k + 1])
  }

  ghost predicate Finished(f: Forest, origin: nat, w: Trail) {
    IsTrail(f, origin, w) && Named(f.nodes[w[|w| - 1].e]) && !f.nodes[w[|w| - 1].e].reference
  }

  // ----- what a walk says about its route -----

  /** The names on the walk, references included, separated by slashes. */
  ghost function PathOf(f: Forest, w: Trail): string
    requires InArena(f, w)
  {
    if w == [] then "" else
      var name := f.nodes[w[|w| - 1].e].name;
      (if |w| == 1 then "" else PathOf(f, w[..|w| - 1]) + "/") + (if name.Some? then name.value else "")
  }

  ghost predicate ReferenceAt(f: Forest, w: Trail, k: nat)
    requires InArena(f, w)
  {
    k < |w| && f.nodes[w[k].e].reference
  }

  /** The last reference on the walk is at place `k`. */
  ghost predicate InnermostAt(f: Forest, w: Trail, k: nat)
    requires InArena(f, w)
  {
    ReferenceAt(f, w, k) && forall j :: k < j < |w| ==> !ReferenceAt(f, w, j)
  }

  ghost function References(f: Forest, w: Trail): nat
    requires InArena(f, w)
  {
    if w == [] then 0 else References(f, w[..|w| - 1]) + if f.nodes[w[|w| - 1].e].reference then 1 else 0
  }

  /** The reference is the innermost on the walk, the context its own path, the depth how many there are. */
  ghost predicate ReferenceFits(f: Forest, w: Trail, context: string, reference: Option<nat>, depth: nat)
    requires InArena(f, w)
  {
    && depth == References(f, w)
    && (forall k: nat :: InnermostAt(f, w, k) ==> reference == Some(w[k].e) && context == PathOf(f, w[..k + 1]))
    && ((forall k: nat :: !ReferenceAt(f, w, k)) ==> reference == None && context == "")
  }

  ghost predicate RouteFits(f: Forest, w: Trail, route: Route)
    requires InArena(f, w)
  {
    && w != [] && route.node == w[|w| - 1].e && f.nodes[route.node].name == Some(route.name)
    && route.path == PathOf(f, w) && ReferenceFits(f, w, route.context, route.reference, route.depth)
  }

  // ----- walks that go on from a given one -----

  ghost predicate Continues(f: Forest, origin: nat, p: Trail, w: Trail) {
    Finished(f, origin, w) && |p| <= |w| && w[..|p|] == p
  }

  /** Through one of the first `k` children of its last element. */
  ghost predicate ContinuesBelow(f: Forest, origin: nat, p: Trail, k: nat, w: Trail) {
    Continues(f, origin, p, w) && |w| > |p| && w[|p|].at < k
  }

  /** The routes stand for the walks, one each and in their order. */
  ghost predicate StandsFor(f: Forest, origin: nat, walks: seq<Trail>, routes: seq<Route>) {
    && |walks| == |routes| && InOrder(walks)
    && forall i :: 0 <= i < |walks| ==> IsTrail(f, origin, walks[i]) && RouteFits(f, walks[i], routes[i])
  }

  lemma StandsForBoth(f: Forest, origin: nat, a: seq<Trail>, b: seq<Trail>, m: seq<Route>, n: seq<Route>)
    requires StandsFor(f, origin, a, m) && StandsFor(f, origin, b, n)
    requires forall i, j :: 0 <= i < |a| && 0 <= j < |b| ==> Precedes(a[i], b[j])
    ensures StandsFor(f, origin, a + b, m + n)
  {
    InOrderConcat(a, b);
    forall i | 0 <= i < |a + b| ensures IsTrail(f, origin, (a + b)[i]) && RouteFits(f, (a + b)[i], (m + n)[i]) {
      if i < |a| {
        assert (a + b)[i] == a[i] && (m + n)[i] == m[i];
      } else {
        assert (a + b)[i] == b[i - |a|] && (m + n)[i] == n[i - |a|];
      }
    }
  }

  lemma GoesOn(f: Forest, origin: nat, p: Trail, next: Stop<nat>)
    requires IsTrail(f, origin, p) && next.e < |f.nodes|
    requires Named(f.nodes[p[|p| - 1].e]) && GoesTo(f, p[|p| - 1].e, next)
    ensures IsTrail(f, origin, p + [next])
  {
    var w := p + [next];
    forall k | 0 <= k < |w| - 1 ensures Named(f.nodes[w[k].e]) && GoesTo(f, w[k].e, w[k + 1]) {
      assert k < |p| - 1 ==> Named(f.nodes[p[k].e]) && GoesTo(f, p[k].e, p[k + 1]);
    }
  }

  lemma LongerContinues(f: Forest, origin: nat, p: Trail, next: Stop<nat>, w: Trail)
    ensures Continues(f, origin, p + [next], w) <==> Continues(f, origin, p, w) && |w| > |p| && w[|p|] == next
  {
    if |w| > |p| {
      assert w[..|p| + 1] == w[..|p|] + [w[|p|]];
      if w[..|p| + 1] == p + [next] {
        assert w[..|p|] == w[..|p| + 1][..|p|] == p && w[|p|] == w[..|p| + 1][|p|];
      }
    }
  }

  lemma ContinuesLonger(f: Forest, origin: nat, p: Trail, w: Trail)
    requires Continues(f, origin, p, w) && p != []
    ensures w[|p| - 1] == p[|p| - 1] && w[|p| - 1].e < |f.nodes| && Named(f.nodes[w[|p| - 1].e])
    ensures |w| > |p| ==> GoesTo(f, p[|p| - 1].e, w[|p|])
    ensures |w| == |p| ==> w == p
  {
    var k := |p| - 1;
    assert w[k] == w[..|p|][k];
    assert |w| > |p| ==> Named(f.nodes[w[k].e]) && GoesTo(f, w[k].e, w[k + 1]);
    assert |w| == |p| ==> w == w[..|p|];
  }

  // ----- what the expansion hands down agrees with the walk so far -----

  ghost predicate ContextFits(f: Forest, p: Trail, parent: string, context: string, reference: Option<nat>, depth: nat)
    requires InArena(f, p)
  {
    && p != [] && parent == PathOf(f, p[..|p| - 1]) && (|p| > 1 ==> parent != "")
    && ReferenceFits(f, p[..|p| - 1], context, reference, depth)
  }

  lemma PathGrows(f: Forest, p: Trail, parent: string, context: string, reference: Option<nat>, depth: nat)
    requires InArena(f, p) && ContextFits(f, p, parent, context, reference, depth) && Named(f.nodes[p[|p| - 1].e])
    ensures AppendPath(parent, f.nodes[p[|p| - 1].e].name.value) == PathOf(f, p) != ""
  {
  }

  lemma GeometryKeepsReference(f: Forest, p: Trail, context: string, reference: Option<nat>, depth: nat)
    requires InArena(f, p) && p != [] && !f.nodes[p[|p| - 1].e].reference
    requires ReferenceFits(f, p[..|p| - 1], context, reference, depth)
    ensures ReferenceFits(f, p, context, reference, depth)
  {
    var init := p[..|p| - 1];
    forall k: nat ensures ReferenceAt(f, p, k) <==> ReferenceAt(f, init, k) {
    }
    forall k: nat | InnermostAt(f, p, k) ensures reference == Some(p[k].e) && context == PathOf(f, p[..k + 1]) {
      assert InnermostAt(f, init, k) && init[..k + 1] == p[..k + 1];
    }
  }

  lemma ReferenceIsInnermost(f: Forest, p: Trail, depth: nat)
    requires InArena(f, p) && p != [] && f.nodes[p[|p| - 1].e].reference && depth == References(f, p[..|p| - 1])
    ensures ReferenceFits(f, p, PathOf(f, p), Some(p[|p| - 1].e), depth + 1)
  {
    assert ReferenceAt(f, p, |p| - 1);
    assert p[..|p|] == p;
    assert forall k: nat :: InnermostAt(f, p, k) ==> k == |p| - 1;
  }

  lemma HandedDown(f: Forest, p: Trail, next: Stop<nat>, path: string, context: string, reference: Option<nat>, depth: nat)
    requires InArena(f, p) && next.e < |f.nodes| && p != [] && path == PathOf(f, p) != ""
    requires ReferenceFits(f, p, context, reference, depth)
    ensures InArena(f, p + [next]) && ContextFits(f, p + [next], path, context, reference, depth)
  {
    assert (p + [next])[..|p|] == p;
  }

  // ----- the routes stand for the walks -----

  /** An expansion lists the finished walks that go on from `p`, no more and no fewer. */
  ghost predicate Lists(f: Forest, origin: nat, p: Trail, walks: seq<Trail>) {
    forall w :: w in walks <==> Continues(f, origin, p, w)
  }

  ghost predicate ListsBelow(f: Forest, origin: nat, p: Trail, k: nat, walks: seq<Trail>) {
    forall w :: w in walks <==> ContinuesBelow(f, origin, p, k, w)
  }

  lemma {:induction false} ExpansionStandsFor(f: Forest, origin: nat, p: Trail, parent: string, context: string,
                                              reference: Option<nat>, depth: nat, stack: set<nat>)
    returns (walks: seq<Trail>)
    requires f.Valid() && IsTrail(f, origin, p) && ContextFits(f, p, parent, context, reference, depth)
    requires Expand(f, p[|p| - 1].e, parent, context, reference, depth, stack).Some?
    ensures Lists(f, origin, p, walks)
    ensures StandsFor(f, origin, walks, Expand(f, p[|p| - 1].e, parent, context, reference, depth, stack).value)
    decreases Free(f, stack), 1, 1
  {
    var e := f.nodes[p[|p| - 1].e];
    if !Named(e) {
      walks := [];
      NothingUnnamed(f, origin, p);
    } else if e.reference {
      walks := TargetStandsFor(f, origin, p, parent, context, reference, depth, stack);
    } else {
      walks := GeometryStandsForWalks(f, origin, p, parent, context, reference, depth, stack);
    }
  }

  lemma NothingUnnamed(f: Forest, origin: nat, p: Trail)
    requires IsTrail(f, origin, p) && !Named(f.nodes[p[|p| - 1].e])
    ensures Lists(f, origin, p, [])
  {
    forall w ensures !Continues(f, origin, p, w) {
      if Continues(f, origin, p, w) {
        ContinuesLonger(f, origin, p, w);
      }
    }
  }

  lemma {:induction false} TargetStandsFor(f: Forest, origin: nat, p: Trail, parent: string, context: string,
                                           reference: Option<nat>, depth: nat, stack: set<nat>)
    returns (walks: seq<Trail>)
    requires f.Valid() && IsTrail(f, origin, p) && ContextFits(f, p, parent, context, reference, depth)
    requires Named(f.nodes[p[|p| - 1].e]) && f.nodes[p[|p| - 1].e].reference
    requires Expand(f, p[|p| - 1].e, parent, context, reference, depth, stack).Some?
    ensures Lists(f, origin, p, walks)
    ensures StandsFor(f, origin, walks, Expand(f, p[|p| - 1].e, parent, context, reference, depth, stack).value)
    decreases Free(f, stack), 1, 0
  {
    var node := p[|p| - 1].e;
    var path, next := AppendPath(parent, f.nodes[node].name.value), Stop(f.roots[f.nodes[node].geometry], 0);
    assert node in Free(f, stack) && node !in Free(f, stack + {node});
    PathGrows(f, p, parent, context, reference, depth);
    GoesOn(f, origin, p, next);
    ReferenceIsInnermost(f, p, depth);
    HandedDown(f, p, next, path, path, Some(node), depth + 1);
    assert (p + [next])[|p|] == next;
    walks := ExpansionStandsFor(f, origin, p + [next], path, path, Some(node), depth + 1, stack + {node});
    ReferenceLists(f, origin, p, next, walks);
  }

  lemma {:induction false} GeometryStandsForWalks(f: Forest, origin: nat, p: Trail, parent: string, context: string,
                                                  reference: Option<nat>, depth: nat, stack: set<nat>)
    returns (walks: seq<Trail>)
    requires f.Valid() && IsTrail(f, origin, p) && ContextFits(f, p, parent, context, reference, depth)
    requires Finished(f, origin, p)
    requires Expand(f, p[|p| - 1].e, parent, context, reference, depth, stack).Some?
    ensures Lists(f, origin, p, walks)
    ensures StandsFor(f, origin, walks, Expand(f, p[|p| - 1].e, parent, context, reference, depth, stack).value)
    decreases Free(f, stack), 1, 0
  {
    var node := p[|p| - 1].e;
    var e := f.nodes[node];
    var path := AppendPath(parent, e.name.value);
    assert node in Free(f, stack) && node !in Free(f, stack + {node});
    PathGrows(f, p, parent, context, reference, depth);
    GeometryKeepsReference(f, p, context, reference, depth);
    assert e.children[..|e.children|] == e.children;
    var below := ChildrenStandFor(f, origin, p, |e.children|, path, context, reference, depth, stack + {node});
    var routes := ExpandAll(f, e.children, path, context, reference, depth, stack + {node}).value;
    walks := [p] + below;
    GeometryLists(f, origin, p, below);
    GeometryStandsFor(f, origin, p, below, Route(e.name.value, path, context, reference, depth, node), routes);
  }

  lemma ReferenceLists(f: Forest, origin: nat, p: Trail, next: Stop<nat>, walks: seq<Trail>)
    requires IsTrail(f, origin, p) && Lists(f, origin, p + [next], walks)
    requires f.nodes[p[|p| - 1].e].reference && GoesTo(f, p[|p| - 1].e, next)
    ensures Lists(f, origin, p, walks)
  {
    forall w ensures w in walks <==> Continues(f, origin, p, w) {
      LongerContinues(f, origin, p, next, w);
      if Continues(f, origin, p, w) {
        ContinuesLonger(f, origin, p, w);
      }
    }
  }

  lemma GeometryLists(f: Forest, origin: nat, p: Trail, below: seq<Trail>)
    requires Finished(f, origin, p) && ListsBelow(f, origin, p, |f.nodes[p[|p| - 1].e].children|, below)
    ensures Lists(f, origin, p, [p] + below)
  {
    assert p[..|p|] == p;
    forall w ensures w in [p] + below <==> Continues(f, origin, p, w) {
      if Continues(f, origin, p, w) {
        ContinuesLonger(f, origin, p, w);
      }
    }
  }

  lemma GeometryStandsFor(f: Forest, origin: nat, p: Trail, below: seq<Trail>, route: Route, routes: seq<Route>)
    requires Finished(f, origin, p) && ListsBelow(f, origin, p, |f.nodes[p[|p| - 1].e].children|, below)
    requires RouteFits(f, p, route) && StandsFor(f, origin, below, routes)
    ensures StandsFor(f, origin, [p] + below, [route] + routes)
  {
    forall j | 0 <= j < |below| ensures Precedes(p, below[j]) {
      assert below[j] in below;
      assert DivergesAt(p, below[j], |p|);
    }
    StandsForBoth(f, origin, [p], below, [route], routes);
  }

  lemma ListsOneMore(f: Forest, origin: nat, p: Trail, k: nat, earlier: seq<Trail>, here: seq<Trail>)
    requires IsTrail(f, origin, p) && !f.nodes[p[|p| - 1].e].reference && k < |f.nodes[p[|p| - 1].e].children|
    requires ListsBelow(f, origin, p, k, earlier)
    requires Lists(f, origin, p + [Stop(f.nodes[p[|p| - 1].e].children[k], k)], here)
    ensures ListsBelow(f, origin, p, k + 1, earlier + here)
    ensures forall i, j :: 0 <= i < |earlier| && 0 <= j < |here| ==> Precedes(earlier[i], here[j])
  {
    var next := Stop(f.nodes[p[|p| - 1].e].children[k], k);
    forall w ensures w in earlier + here <==> ContinuesBelow(f, origin, p, k + 1, w) {
      LongerContinues(f, origin, p, next, w);
      if ContinuesBelow(f, origin, p, k + 1, w) {
        ContinuesLonger(f, origin, p, w);
      }
    }
    forall i, j | 0 <= i < |earlier| && 0 <= j < |here| ensures Precedes(earlier[i], here[j]) {
      assert earlier[i] in earlier && here[j] in here;
      LongerContinues(f, origin, p, next, here[j]);
      assert DivergesAt(earlier[i], here[j], |p|);
    }
  }

  lemma OneChildStandsFor(f: Forest, origin: nat, p: Trail, k: nat, earlier: seq<Trail>, here: seq<Trail>, m: seq<Route>,
                          n: seq<Route>)
    requires IsTrail(f, origin, p) && !f.nodes[p[|p| - 1].e].reference && k < |f.nodes[p[|p| - 1].e].children|
    requires ListsBelow(f, origin, p, k, earlier) && StandsFor(f, origin, earlier, m)
    requires Lists(f, origin, p + [Stop(f.nodes[p[|p| - 1].e].children[k], k)], here) && StandsFor(f, origin, here, n)
    ensures ListsBelow(f, origin, p, k + 1, earlier + here) && StandsFor(f, origin, earlier + here, m + n)
  {
    ListsOneMore(f, origin, p, k, earlier, here);
    StandsForBoth(f, origin, earlier, here, m, n);
  }

  lemma {:induction false} ChildrenStandFor(f: Forest, origin: nat, p: Trail, k: nat, path: string, context: string,
                                            reference: Option<nat>, depth: nat, stack: set<nat>)
    returns (walks: seq<Trail>)
    requires f.Valid() && IsTrail(f, origin, p) && Named(f.nodes[p[|p| - 1].e]) && !f.nodes[p[|p| - 1].e].reference
    requires k <= |f.nodes[p[|p| - 1].e].children|
    requires path == PathOf(f, p) != "" && ReferenceFits(f, p, context, reference, depth)
    requires ExpandAll(f, f.nodes[p[|p| - 1].e].children[..k], path, context, reference, depth, stack).Some?
    ensures ListsBelow(f, origin, p, k, walks)
    ensures StandsFor(f, origin, walks,
              ExpandAll(f, f.nodes[p[|p| - 1].e].children[..k], path, context, reference, depth, stack).value)
    decreases Free(f, stack), 2, k
  {
    walks := [];
    if k > 0 {
      var children := f.nodes[p[|p| - 1].e].children;
      OneChildMore(f, children, k - 1, path, context, reference, depth, stack);
      var earlier := ChildrenStandFor(f, origin, p, k - 1, path, context, reference, depth, stack);
      var next := Stop(children[k - 1], k - 1);
      GoesOn(f, origin, p, next);
      HandedDown(f, p, next, path, context, reference, depth);
      var here := ExpansionStandsFor(f, origin, p + [next], path, context, reference, depth, stack);
      walks := earlier + here;
      OneChildStandsFor(f, origin, p, k - 1, earlier, here,
        ExpandAll(f, children[..k - 1], path, context, reference, depth, stack).value,
        Expand(f, next.e, path, context, reference, depth, stack).value);
    }
  }

  /** The routes are those of all finished walks from the origin, one each and in document order. */
  ghost predicate RoutesOfWalks(f: Forest, origin: nat, walks: seq<Trail>, routes: seq<Route>) {
    (forall w :: w in walks <==> Finished(f, origin, w)) && StandsFor(f, origin, walks, routes)
  }

  lemma RoutesAreWalks(f: Forest, origin: nat) returns (walks: seq<Trail>)
    requires f.Valid() && origin < |f.nodes| && Expand(f, origin, "", "", None, 0, {}).Some?
    ensures RoutesOfWalks(f, origin, walks, Expand(f, origin, "", "", None, 0, {}).value)
  {
    var p := [Stop(origin, 0)];
    assert p[..0] == [];
    walks := ExpansionStandsFor(f, origin, p, "", "", None, 0, {});
    forall w ensures w in walks <==> Finished(f, origin, w) {
      if Finished(f, origin, w) {
        assert w[..1] == p;
      }
    }
  }
}
