/** The walk that expands geometry references into addressed routes, over an arena of XML elements. */
module GeometryRoutes {
  import opened AsciiText
  import opened GeometryIdentity
  import opened Prelude

  /** A numeric attribute: missing, a complete decimal number, or anything else. */
  datatype Field = Missing | Number(value: int) | Malformed
  datatype Break = Break(dmxBreak: Field, dmxOffset: Field)

  /** An element: its Name and Geometry attributes, whether it is a reference, its child elements and Break children. */
  datatype Node = Node(name: Option<string>, reference: bool, geometry: string, children: seq<nat>, breaks: seq<Break>)

  /** One expanded geometry; `reference` is the innermost reference it came through and `node` its own element. */
  datatype Route = Route(name: string, path: string, context: string, reference: Option<nat>, depth: nat, node: nat)

  predicate Named(node: Node) {
    node.name.Some? && !Blank(node.name.value)
  }

  /** The arena and the table of top-level geometries by name. */
  datatype Forest = Forest(nodes: seq<Node>, roots: map<string, nat>) {
    ghost predicate Valid() {
      && (forall n, k :: 0 <= n < |nodes| && 0 <= k < |nodes[n].children| ==> nodes[n].children[k] < |nodes|)
      && forall name :: name in roots ==> roots[name] < |nodes|
    }
  }

  ghost predicate ListOk(f: Forest, list: seq<nat>) {
    forall k :: 0 <= k < |list| ==> list[k] < |f.nodes|
  }

  function Free(f: Forest, stack: set<nat>): set<nat> {
    Below(|f.nodes|) - stack
  }

  // ----- the expansion as a function -----

  /** The routes below `node`, or nothing when an element re-enters itself or a reference has no target. */
  ghost function Expand(f: Forest, node: nat, parent: string, context: string, reference: Option<nat>, depth: nat,
                        stack: set<nat>): Option<seq<Route>>
    requires f.Valid() && node < |f.nodes|
    decreases Free(f, stack), 1, 0
  {
    var e := f.nodes[node];
    if !Named(e) then Some([])
    else if node in stack then None
    else
      var path := AppendPath(parent, e.name.value);
      assert node in Free(f, stack) && node !in Free(f, stack + {node});
      if e.reference then
        if e.geometry !in f.roots then None
        else Expand(f, f.roots[e.geometry], path, path, Some(node), depth + 1, stack + {node})
      else
        var below := ExpandAll(f, e.children, path, context, reference, depth, stack + {node});
        if below.None? then None
        else Some([Route(e.name.value, path, context, reference, depth, node)] + below.value)
  }

  ghost function ExpandAll(f: Forest, list: seq<nat>, parent: string, context: string, reference: Option<nat>,
                           depth: nat, stack: set<nat>): Option<seq<Route>>
    requires f.Valid() && ListOk(f, list)
    decreases Free(f, stack), 2, |list|
  {
    if list == [] then Some([]) else
      var last := |list| - 1;
      var earlier := ExpandAll(f, list[..last], parent, context, reference, depth, stack);
      var final := Expand(f, list[last], parent, context, reference, depth, stack);
      if earlier.None? || final.None? then None else Some(earlier.value + final.value)
  }

  ghost predicate DistinctPaths(routes: seq<Route>) {
    forall i, j :: 0 <= i < j < |routes| ==> routes[i].path != routes[j].path
  }

  /** A geometry name always means the same element. */
  ghost predicate OneMeaning(routes: seq<Route>) {
    forall i, j :: 0 <= i < j < |routes| && routes[i].name == routes[j].name ==> routes[i].node == routes[j].node
  }

  ghost predicate Unambiguous(routes: seq<Route>) {
    DistinctPaths(routes) && OneMeaning(routes)
  }

  ghost predicate HasPath(routes: seq<Route>, path: string) {
    exists k :: 0 <= k < |routes| && routes[k].path == path
  }

  ghost predicate HasName(routes: seq<Route>, name: string) {
    exists k :: 0 <= k < |routes| && routes[k].name == name
  }

  lemma RecordedTables(routes: seq<Route>, route: Route)
    ensures forall path :: HasPath(routes + [route], path) <==> HasPath(routes, path) || path == route.path
    ensures forall name :: HasName(routes + [route], name) <==> HasName(routes, name) || name == route.name
  {
    var more := routes + [route];
    assert more[|routes|] == route && forall k :: 0 <= k < |routes| ==> more[k] == routes[k];
  }

  lemma Clash(routes: seq<Route>, route: Route, k: nat)
    requires k < |routes|
    requires routes[k].path == route.path || (routes[k].name == route.name && routes[k].node != route.node)
    ensures !Unambiguous(routes + [route])
  {
    var more := routes + [route];
    assert more[k] == routes[k] && more[|routes|] == route;
  }

  lemma PrefixIsUnambiguous(a: seq<Route>, b: seq<Route>)
    requires Unambiguous(a + b)
    ensures Unambiguous(a)
  {
    var all := a + b;
    assert forall i :: 0 <= i < |a| ==> all[i] == a[i];
  }

  /** The result of one visit: the routes so far and what the visited part adds, if all of it is acceptable. */
  ghost predicate Succeeds(before: seq<Route>, part: Option<seq<Route>>) {
    part.Some? && Unambiguous(before + part.value)
  }

  /** Two parts visited one after the other. */
  ghost function Both(part: Option<seq<Route>>, more: Option<seq<Route>>): Option<seq<Route>> {
    if part.None? || more.None? then None else Some(part.value + more.value)
  }

  lemma BothSucceed(before: seq<Route>, part: Option<seq<Route>>, more: Option<seq<Route>>)
    ensures Succeeds(before, Both(part, more)) <==>
              Succeeds(before, part) && Succeeds(before + part.value, more)
    ensures part.Some? && more.Some? ==> before + (part.value + more.value) == (before + part.value) + more.value
  {
    if part.Some? && more.Some? {
      assert before + (part.value + more.value) == (before + part.value) + more.value;
      if Unambiguous(before + (part.value + more.value)) {
        PrefixIsUnambiguous(before + part.value, more.value);
      }
    }
  }

  lemma OneChildMore(f: Forest, list: seq<nat>, k: nat, parent: string, context: string, reference: Option<nat>,
                     depth: nat, stack: set<nat>)
    requires f.Valid() && ListOk(f, list) && k < |list|
    ensures ExpandAll(f, list[..k + 1], parent, context, reference, depth, stack) ==
              Both(ExpandAll(f, list[..k], parent, context, reference, depth, stack),
                   Expand(f, list[k], parent, context, reference, depth, stack))
  {
    assert list[..k + 1][..k] == list[..k];
  }

  // ----- the walk with its mutable stack, path and definition tables -----

  class GeometryWalk {
    const forest: Forest
    var stack: set<nat>
    var paths: set<string>
    var definitions: map<string, nat>
    var routes: seq<Route>
    var failed: bool

    /** The tables mirror the routes. */
    ghost predicate Valid()
      reads this
    {
      && forest.Valid() && Unambiguous(routes)
      && (forall path :: path in paths <==> HasPath(routes, path))
      && (forall k :: 0 <= k < |routes| ==>
            routes[k].name in definitions && definitions[routes[k].name] == routes[k].node)
      && (forall name :: name in definitions ==> HasName(routes, name))
    }

    constructor (forest: Forest)
      requires forest.Valid()
      ensures Valid() && !failed && routes == [] && stack == {} && this.forest == forest
    {
      this.forest := forest;
      stack, paths, definitions, routes, failed := {}, {}, map[], [], false;
    }

    /** Records one geometry unless its path is taken or its name already means another element. */
    method Record(route: Route) returns (ok: bool)
      requires Valid()
      modifies this`paths, this`definitions, this`routes
      ensures ok <==> Unambiguous(old(routes) + [route])
      ensures ok ==> Valid() && routes == old(routes) + [route]
    {
      RecordedTables(routes, route);
      if route.path in paths {
        ghost var k :| 0 <= k < |routes| && routes[k].path == route.path;
        Clash(routes, route, k);
        return false;
      }
      paths := paths + {route.path};
      if route.name in definitions && definitions[route.name] != route.node {
        ghost var k :| 0 <= k < |routes| && routes[k].name == route.name;
        Clash(routes, route, k);
        return false;
      }
      definitions := definitions[route.name := route.node];
      routes := routes + [route];
      return true;
    }

    /**
      Visits one element. It fails exactly when the expansion re-enters an element, misses a target, or repeats a path
      or a name; otherwise it appends the expansion. It terminates on every arena, cyclic ones included.
    */
    method Visit(node: nat, parent: string, context: string, reference: Option<nat>, depth: nat)
      requires node < |forest.nodes| && forest.Valid() && (!failed ==> Valid())
      modifies this
      ensures old(failed) ==> failed && stack == old(stack)
      ensures old(stack) <= stack
      ensures !old(failed) ==>
                var part := Expand(forest, node, parent, context, reference, depth, old(stack));
                && (!failed <==> Succeeds(old(routes), part))
                && (!failed ==> Valid() && stack == old(stack) && routes == old(routes) + part.value)
      decreases Free(forest, stack), 1, 0
    {
      if failed {
        return;
      }
      var e := forest.nodes[node];
      if e.name.None? || Blank(e.name.value) {
        assert routes + [] == routes;
        return;
      }
      if node in stack {
        failed := true;
        return;
      }
      assert node in Free(forest, stack) && node !in Free(forest, stack + {node});
      ghost var entry := stack;
      stack := stack + {node};
      var path := AppendPath(parent, e.name.value);
      if e.reference {
        if e.geometry !in forest.roots {
          failed := true;
          return;
        }
        Visit(forest.roots[e.geometry], path, path, Some(node), depth + 1);
      } else {
        var recorded := VisitGeometry(node, path, context, reference, depth);
        if !recorded {
          return;
        }
      }
      stack := stack - {node};
    }

    method VisitGeometry(node: nat, path: string, context: string, reference: Option<nat>, depth: nat)
      returns (recorded: bool)
      requires !failed && Valid() && node < |forest.nodes| && node in stack && Named(forest.nodes[node])
      modifies this
      ensures old(stack) <= stack && (!recorded ==> failed)
      ensures var e := forest.nodes[node];
              var head := [Route(e.name.value, path, context, reference, depth, node)];
              var below := ExpandAll(forest, e.children, path, context, reference, depth, old(stack));
              && (!failed <==> below.Some? && Unambiguous(old(routes) + (head + below.value)))
              && (!failed ==> Valid() && stack == old(stack) && routes == old(routes) + (head + below.value))
      decreases Free(forest, stack), 3
    {
      var e := forest.nodes[node];
      var route := Route(e.name.value, path, context, reference, depth, node);
      ghost var before := routes;
      ghost var below := ExpandAll(forest, e.children, path, context, reference, depth, stack);
      recorded := Record(route);
      if below.Some? {
        assert before + ([route] + below.value) == (before + [route]) + below.value;
        if Unambiguous(before + ([route] + below.value)) {
          PrefixIsUnambiguous(before + [route], below.value);
        }
      }
      if !recorded {
        failed := true;
        return;
      }
      VisitChildren(e.children, path, context, reference, depth);
    }

    method VisitChildren(list: seq<nat>, parent: string, context: string, reference: Option<nat>, depth: nat)
      requires !failed && Valid() && ListOk(forest, list)
      modifies this
      ensures old(stack) <= stack
      ensures var part := ExpandAll(forest, list, parent, context, reference, depth, old(stack));
              && (!failed <==> Succeeds(old(routes), part))
              && (!failed ==> Valid() && stack == old(stack) && routes == old(routes) + part.value)
      decreases Free(forest, stack), 2
    {
      ghost var entry, before := stack, routes;
      assert before + [] == before;
      for k := 0 to |list|
        invariant entry <= stack
        invariant var part := ExpandAll(forest, list[..k], parent, context, reference, depth, entry);
                  && (!failed <==> Succeeds(before, part))
                  && (!failed ==> Valid() && stack == entry && routes == before + part.value)
      {
        ghost var part := ExpandAll(forest, list[..k], parent, context, reference, depth, entry);
        ghost var more := Expand(forest, list[k], parent, context, reference, depth, entry);
        OneChildMore(forest, list, k, parent, context, reference, depth, entry);
        BothSucceed(before, part, more);
        Visit(list[k], parent, context, reference, depth);
      }
      assert list[..|list|] == list;
    }
  }

  // ----- when an expansion exists -----

  /** An element whose expansion visits `b` next. */
  predicate Edge(f: Forest, a: nat, b: nat)
    requires a < |f.nodes|
  {
    var e := f.nodes[a];
    if e.reference then e.geometry in f.roots && b == f.roots[e.geometry] else b in e.children
  }

  predicate Dangling(f: Forest, n: nat)
    requires n < |f.nodes|
  {
    f.nodes[n].reference && f.nodes[n].geometry !in f.roots
  }

  /** A path of named elements from parent to child and from reference to target. */
  ghost predicate Walk(f: Forest, w: seq<nat>) {
    && w != [] && (forall k :: 0 <= k < |w| ==> w[k] < |f.nodes| && Named(f.nodes[w[k]]))
    && forall k :: 0 <= k < |w| - 1 ==> Edge(f, w[k], w[k + 1])
  }

  ghost predicate Tidy(f: Forest, w: seq<nat>)
    requires Walk(f, w)
  {
    Distinct(w) && !Dangling(f, w[|w| - 1])
  }

  lemma {:induction false} EachChildExpands(f: Forest, list: seq<nat>, parent: string, context: string,
                                            reference: Option<nat>, depth: nat, stack: set<nat>, k: nat)
    requires f.Valid() && ListOk(f, list) && k < |list|
    requires ExpandAll(f, list, parent, context, reference, depth, stack).Some?
    ensures Expand(f, list[k], parent, context, reference, depth, stack).Some?
  {
    if k < |list| - 1 {
      EachChildExpands(f, list[..|list| - 1], parent, context, reference, depth, stack, k);
    }
  }

  lemma {:induction false} SomeChildFails(f: Forest, list: seq<nat>, parent: string, context: string,
                                          reference: Option<nat>, depth: nat, stack: set<nat>) returns (k: nat)
    requires f.Valid() && ListOk(f, list)
    requires ExpandAll(f, list, parent, context, reference, depth, stack).None?
    ensures k < |list| && Expand(f, list[k], parent, context, reference, depth, stack).None?
  {
    k := |list| - 1;
    if Expand(f, list[k], parent, context, reference, depth, stack).Some? {
      k := SomeChildFails(f, list[..k], parent, context, reference, depth, stack);
    }
  }

  lemma {:induction false} ExpansionMeansTidy(f: Forest, parent: string, context: string, reference: Option<nat>,
                                              depth: nat, stack: set<nat>, w: seq<nat>)
    requires f.Valid() && Walk(f, w)
    requires Expand(f, w[0], parent, context, reference, depth, stack).Some?
    ensures Tidy(f, w) && forall k :: 0 <= k < |w| ==> w[k] !in stack
    decreases |w|
  {
    if |w| > 1 {
      var e, rest := f.nodes[w[0]], w[1..];
      var path := AppendPath(parent, e.name.value);
      assert Edge(f, w[0], w[0 + 1]);
      assert Walk(f, rest) by {
        forall k | 0 <= k < |rest| - 1 ensures Edge(f, rest[k], rest[k + 1]) {
          assert Edge(f, w[k + 1], w[k + 1 + 1]);
        }
      }
      if e.reference {
        ExpansionMeansTidy(f, path, path, Some(w[0]), depth + 1, stack + {w[0]}, rest);
      } else {
        var k :| 0 <= k < |e.children| && e.children[k] == w[1];
        EachChildExpands(f, e.children, path, context, reference, depth, stack + {w[0]}, k);
        ExpansionMeansTidy(f, path, context, reference, depth, stack + {w[0]}, rest);
      }
      assert w == [w[0]] + rest;
      assert forall k :: 0 < k < |w| ==> w[k] == rest[k - 1];
    }
  }

  /** A failed expansion exhibits a path that re-enters itself or ends in a dangling reference. */
  lemma {:induction false} FailureHasWalk(f: Forest, node: nat, parent: string, context: string,
                                          reference: Option<nat>, depth: nat, stack: set<nat>) returns (w: seq<nat>)
    requires f.Valid() && node < |f.nodes|
    requires Expand(f, node, parent, context, reference, depth, stack).None?
    ensures Walk(f, w) && w[0] == node
    ensures var end := w[|w| - 1];
            end in stack || end in w[..|w| - 1] || Dangling(f, end)
    decreases Free(f, stack)
  {
    var e := f.nodes[node];
    w := [node];
    if node !in stack && !Dangling(f, node) {
      assert node in Free(f, stack) && node !in Free(f, stack + {node});
      var path := AppendPath(parent, e.name.value);
      var rest: seq<nat>;
      if e.reference {
        rest := FailureHasWalk(f, f.roots[e.geometry], path, path, Some(node), depth + 1, stack + {node});
      } else {
        var k := SomeChildFails(f, e.children, path, context, reference, depth, stack + {node});
        rest := FailureHasWalk(f, e.children[k], path, context, reference, depth, stack + {node});
      }
      w := [node] + rest;
      forall k | 0 <= k < |w| - 1 ensures Edge(f, w[k], w[k + 1]) {
        if k > 0 {
          assert Edge(f, rest[k - 1], rest[k - 1 + 1]);
        }
      }
      assert w[..|w| - 1] == [node] + rest[..|rest| - 1];
    }
  }

  /**
    The walk's structural checks are exact: an expansion exists if and only if no path of elements and references
    from the origin comes back to an element it is still inside, and none ends in a reference without target.
  */
  lemma ExpandsExactlyTheTidy(f: Forest, origin: nat)
    requires f.Valid() && origin < |f.nodes|
    ensures Expand(f, origin, "", "", None, 0, {}).Some? <==>
              forall w :: Walk(f, w) && w[0] == origin ==> Tidy(f, w)
  {
    if Expand(f, origin, "", "", None, 0, {}).Some? {
      forall w | Walk(f, w) && w[0] == origin ensures Tidy(f, w) {
        ExpansionMeansTidy(f, "", "", None, 0, {}, w);
      }
    } else {
      var w := FailureHasWalk(f, origin, "", "", None, 0, {});
      assert !Tidy(f, w) by {
        var end := |w| - 1;
        if w[end] in w[..end] {
          var k :| 0 <= k < end && w[k] == w[end];
        }
      }
    }
  }

  // ----- what every route looks like -----

  /** Outside references the context is empty and the depth zero; inside, the context is the reference's own path. */
  predicate RouteOk(f: Forest, r: Route) {
    && r.node < |f.nodes| && Named(f.nodes[r.node]) && f.nodes[r.node].name.value == r.name && r.path != ""
    && ContextOk(f, r.context, r.reference, r.depth)
  }

  predicate ContextOk(f: Forest, context: string, reference: Option<nat>, depth: nat) {
    if reference.None? then depth == 0 && context == ""
    else depth > 0 && context != "" && reference.value < |f.nodes| && f.nodes[reference.value].reference
  }

  ghost predicate RoutesOk(f: Forest, routes: seq<Route>) {
    forall k :: 0 <= k < |routes| ==> RouteOk(f, routes[k])
  }

  lemma {:induction false} ExpansionIsOk(f: Forest, node: nat, parent: string, context: string,
                                         reference: Option<nat>, depth: nat, stack: set<nat>)
    requires f.Valid() && node < |f.nodes| && ContextOk(f, context, reference, depth)
    ensures var part := Expand(f, node, parent, context, reference, depth, stack);
            part.Some? ==> RoutesOk(f, part.value)
    decreases Free(f, stack), 1, 0
  {
    var e := f.nodes[node];
    if Named(e) && node !in stack {
      assert node in Free(f, stack) && node !in Free(f, stack + {node});
      var path := AppendPath(parent, e.name.value);
      assert path != "";
      if e.reference {
        if e.geometry in f.roots {
          ExpansionIsOk(f, f.roots[e.geometry], path, path, Some(node), depth + 1, stack + {node});
        }
      } else {
        ChildrenAreOk(f, e.children, path, context, reference, depth, stack + {node});
      }
    }
  }

  lemma {:induction false} ChildrenAreOk(f: Forest, list: seq<nat>, parent: string, context: string,
                                         reference: Option<nat>, depth: nat, stack: set<nat>)
    requires f.Valid() && ListOk(f, list) && ContextOk(f, context, reference, depth)
    ensures var part := ExpandAll(f, list, parent, context, reference, depth, stack);
            part.Some? ==> RoutesOk(f, part.value)
    decreases Free(f, stack), 2, |list|
  {
    if list != [] {
      var last := |list| - 1;
      ChildrenAreOk(f, list[..last], parent, context, reference, depth, stack);
      ExpansionIsOk(f, list[last], parent, context, reference, depth, stack);
    }
  }
}
