/**
  Fixture geometry: expanding a tree with references into a node list, and reusing one expansion for many fixtures.
  References point at top-level geometries by name; a rank bounds how deep they nest, since the expander has no
  cycle check of its own. Matrices appear as the products of authored transforms they stand for.
*/
module GeometryTemplates {
  import opened GeometryIdentity
  import opened Prelude

  /** A product of authored transforms, leftmost first; `+` is matrix multiplication. */
  type Transform = seq<int>

  /**
    One XML element under Geometries. `lensLike` and `emitterLike` are the classifiers of its tag and name, `optics`
    the beam attributes, `supported` whether the importer knows its tag.
  */
  datatype Element = Element(
    isReference: bool, supported: bool, name: string, target: Option<string>, model: Option<string>,
    local: Transform, lensLike: bool, emitterLike: bool, optics: int, children: seq<Element>)

  /** A selected mode of one archive: its top-level geometries, root element, and the asset behind each model name. */
  datatype Definition = Definition(roots: map<string, Element>, root: Element, assets: map<string, int>)

  datatype Node = Node(
    nodeId: string, parentId: string, name: string, key: string, path: string, fixtureUuid: string,
    local: Transform, isLens: bool, isEmitter: bool, model: Option<string>, asset: Option<int>, optics: int)

  /** What the recursion hands down. */
  datatype Context = Context(
    fixture: string, parentId: string, parentWorld: Transform, overrideModel: Option<string>, prepend: Transform,
    parentIsLens: bool, parentPath: string)

  function Digit(d: nat): char
    requires d < 10
  {
    "0123456789"[d]
  }

  function Decimal(n: nat): (r: string)
    ensures r != [] && '#' !in r
  {
    if n < 10 then [Digit(n)] else Decimal(n / 10) + [Digit(n % 10)]
  }

  function LocalId(name: string, counter: nat): (r: string)
    ensures r != ""
  {
    "/" + name + "#" + Decimal(counter)
  }

  // ----- references nest to a bounded depth -----

  ghost predicate Ranked(d: Definition, rank: map<string, nat>, e: Element, r: nat)
    decreases e
  {
    if e.isReference then
      e.target.Some? && e.target.value in d.roots ==> e.target.value in rank && rank[e.target.value] < r
    else forall c :: c in e.children ==> Ranked(d, rank, c, r)
  }

  /** Every top-level geometry only refers to geometries of smaller rank. */
  ghost predicate Bounded(d: Definition, rank: map<string, nat>) {
    forall name :: name in d.roots ==> name in rank && Ranked(d, rank, d.roots[name], rank[name])
  }

  ghost predicate AllRanked(d: Definition, rank: map<string, nat>, es: seq<Element>, r: nat) {
    forall c :: c in es ==> Ranked(d, rank, c, r)
  }

  // ----- the expansion -----

  function MakeNode(d: Definition, e: Element, c: Context, counter: nat): Node {
    var path := AppendPath(c.parentPath, e.name);
    var isLens := c.parentIsLens || e.lensLike;
    var model := if c.overrideModel.Some? then c.overrideModel else e.model;
    Node(c.fixture + LocalId(e.name, counter), c.parentId, e.name, GeometryKey(c.fixture, path), path, c.fixture,
         c.prepend + e.local, isLens, e.emitterLike || isLens, model,
         if model.Some? && model.value in d.assets then Some(d.assets[model.value]) else None, e.optics)
  }

  /** The reference's own transform is prepended to its target's, and its model, if any, overrides the target's. */
  function ReferenceContext(e: Element, c: Context): Context {
    c.(overrideModel := if e.model.Some? then e.model else c.overrideModel, prepend := c.prepend + e.local,
       parentPath := AppendPath(c.parentPath, e.name))
  }

  function ChildContext(e: Element, c: Context, node: Node): Context {
    Context(c.fixture, node.nodeId, c.parentWorld + node.local, None, [], node.isLens, node.path)
  }

  ghost function Expand(d: Definition, rank: map<string, nat>, r: nat, e: Element, c: Context, counter: nat)
    : (result: (seq<Node>, nat))
    requires Bounded(d, rank) && Ranked(d, rank, e, r)
    decreases r, e, 1
  {
    if e.isReference then
      if e.target.None? || e.target.value !in d.roots then ([], counter)
      else Expand(d, rank, rank[e.target.value], d.roots[e.target.value], ReferenceContext(e, c), counter)
    else
      var node := MakeNode(d, e, c, counter);
      var (nodes, next) := ExpandAll(d, rank, r, e.children, ChildContext(e, c, node), counter + 1);
      ([node] + nodes, next)
  }

  ghost function ExpandAll(d: Definition, rank: map<string, nat>, r: nat, es: seq<Element>, c: Context, counter: nat)
    : (result: (seq<Node>, nat))
    requires Bounded(d, rank) && AllRanked(d, rank, es, r)
    decreases r, es, 0
  {
    if es == [] then ([], counter)
    else if !es[0].supported then ExpandAll(d, rank, r, es[1..], c, counter)
    else
      var (first, middle) := Expand(d, rank, r, es[0], c, counter);
      var (rest, next) := ExpandAll(d, rank, r, es[1..], c, middle);
      (first + rest, next)
  }

  /** What is appended so far and what is still to come make up the whole. */
  ghost predicate Continues(whole: seq<Node>, next: nat, nodes: seq<Node>, rest: (seq<Node>, nat)) {
    whole == nodes + rest.0 && next == rest.1
  }

  lemma NextChild(d: Definition, rank: map<string, nat>, r: nat, es: seq<Element>, i: nat, c: Context, counter: nat)
    requires Bounded(d, rank) && AllRanked(d, rank, es, r) && i < |es|
    ensures AllRanked(d, rank, es[i..], r) && AllRanked(d, rank, es[i + 1..], r)
    ensures ExpandAll(d, rank, r, es[i..], c, counter) ==
              if !es[i].supported then ExpandAll(d, rank, r, es[i + 1..], c, counter) else
                var first := Expand(d, rank, r, es[i], c, counter);
                var rest := ExpandAll(d, rank, r, es[i + 1..], c, first.1);
                (first.0 + rest.0, rest.1)
  {
    assert es[i..][0] == es[i] && es[i..][1..] == es[i + 1..];
  }

  function RootContext(fixture: string, parentId: string, parentWorld: Transform): Context {
    Context(fixture, parentId, parentWorld, None, [], false, "")
  }

  /** The node list of a direct build for one fixture. */
  ghost function Build(d: Definition, rank: map<string, nat>, r: nat, fixture: string, parentId: string,
                       parentWorld: Transform): seq<Node>
    requires Bounded(d, rank) && Ranked(d, rank, d.root, r)
  {
    Expand(d, rank, r, d.root, RootContext(fixture, parentId, parentWorld), 0).0
  }

  class GeometryBuilder {
    var nodes: seq<Node>
    var localCounter: nat

    constructor ()
      ensures nodes == [] && localCounter == 0
    {
      nodes, localCounter := [], 0;
    }

    method AppendGeometry(d: Definition, ghost rank: map<string, nat>, ghost r: nat, e: Element, c: Context)
      requires Bounded(d, rank) && Ranked(d, rank, e, r)
      modifies this
      ensures nodes == old(nodes) + Expand(d, rank, r, e, c, old(localCounter)).0
      ensures localCounter == Expand(d, rank, r, e, c, old(localCounter)).1
      decreases r, e
    {
      if e.isReference {
        if e.target.None? || e.target.value !in d.roots {
          assert nodes + [] == nodes;
          return;
        }
        AppendGeometry(d, rank, rank[e.target.value], d.roots[e.target.value], ReferenceContext(e, c));
        return;
      }
      var node := MakeNode(d, e, c, localCounter);
      localCounter := localCounter + 1;
      nodes := nodes + [node];
      AppendChildren(d, rank, r, e.children, ChildContext(e, c, node));
      ghost var below := ExpandAll(d, rank, r, e.children, ChildContext(e, c, node), old(localCounter) + 1);
      assert (old(nodes) + [node]) + below.0 == old(nodes) + ([node] + below.0);
    }

    /** The loop over the child elements, in document order. */
    method AppendChildren(d: Definition, ghost rank: map<string, nat>, ghost r: nat, es: seq<Element>, c: Context)
      requires Bounded(d, rank) && AllRanked(d, rank, es, r)
      modifies this
      ensures nodes == old(nodes) + ExpandAll(d, rank, r, es, c, old(localCounter)).0
      ensures localCounter == ExpandAll(d, rank, r, es, c, old(localCounter)).1
      decreases r, es
    {
      ghost var all := ExpandAll(d, rank, r, es, c, localCounter);
      assert es[0..] == es;
      for i := 0 to |es|
        invariant Continues(old(nodes) + all.0, all.1, nodes, ExpandAll(d, rank, r, es[i..], c, localCounter))
      {
        NextChild(d, rank, r, es, i, c, localCounter);
        if !es[i].supported {
          continue;
        }
        ghost var before, first := nodes, Expand(d, rank, r, es[i], c, localCounter);
        AppendGeometry(d, rank, r, es[i], c);
        ghost var rest := ExpandAll(d, rank, r, es[i + 1..], c, localCounter);
        assert (before + first.0) + rest.0 == before + (first.0 + rest.0);
      }
      assert es[|es|..] == [] && nodes + [] == nodes;
    }
  }

  method BuildFixtureGeometryNodes(d: Definition, ghost rank: map<string, nat>, ghost r: nat, fixture: string,
                                   parentId: string, parentWorld: Transform) returns (nodes: seq<Node>)
    requires Bounded(d, rank) && Ranked(d, rank, d.root, r)
    ensures nodes == Build(d, rank, r, fixture, parentId, parentWorld)
  {
    var builder := new GeometryBuilder();
    builder.AppendGeometry(d, rank, r, d.root, RootContext(fixture, parentId, parentWorld));
    return builder.nodes;
  }

  // ----- binding a template to a fixture -----

  function Bind(node: Node, fixture: string, parentId: string): Node {
    node.(nodeId := fixture + node.nodeId,
          parentId := if node.parentId == "" then parentId else fixture + node.parentId,
          fixtureUuid := fixture, key := GeometryKey(fixture, node.path))
  }

  function BindAll(nodes: seq<Node>, fixture: string, parentId: string): (r: seq<Node>)
    ensures |r| == |nodes| && forall i :: 0 <= i < |nodes| ==> r[i] == Bind(nodes[i], fixture, parentId)
  {
    seq(|nodes|, i requires 0 <= i < |nodes| => Bind(nodes[i], fixture, parentId))
  }

  lemma BindAppends(a: seq<Node>, b: seq<Node>, fixture: string, parentId: string)
    ensures BindAll(a + b, fixture, parentId) == BindAll(a, fixture, parentId) + BindAll(b, fixture, parentId)
  {
  }

  /** The template's context and the fixture's agree except for identity and placement. */
  predicate Corresponds(template: Context, direct: Context, fixture: string, parentId: string) {
    && template.fixture == "" && direct.fixture == fixture
    && direct.parentId == (if template.parentId == "" then parentId else fixture + template.parentId)
    && direct.overrideModel == template.overrideModel && direct.prepend == template.prepend
    && direct.parentIsLens == template.parentIsLens && direct.parentPath == template.parentPath
  }

  lemma NodeBinds(d: Definition, e: Element, t: Context, c: Context, counter: nat, fixture: string, parentId: string)
    requires Corresponds(t, c, fixture, parentId)
    ensures MakeNode(d, e, c, counter) == Bind(MakeNode(d, e, t, counter), fixture, parentId)
    ensures Corresponds(ChildContext(e, t, MakeNode(d, e, t, counter)), ChildContext(e, c, MakeNode(d, e, c, counter)),
              fixture, parentId)
  {
    assert "" + LocalId(e.name, counter) == LocalId(e.name, counter);
  }

  /** Expanding once with no identity and renaming is expanding for the fixture, whatever its placement. */
  lemma {:induction false} ExpansionBinds(d: Definition, rank: map<string, nat>, r: nat, e: Element, t: Context, c: Context,
                                          counter: nat, fixture: string, parentId: string)
    requires Bounded(d, rank) && Ranked(d, rank, e, r) && Corresponds(t, c, fixture, parentId)
    ensures Expand(d, rank, r, e, c, counter).0 == BindAll(Expand(d, rank, r, e, t, counter).0, fixture, parentId)
    ensures Expand(d, rank, r, e, c, counter).1 == Expand(d, rank, r, e, t, counter).1
    decreases r, e, 1
  {
    if e.isReference {
      if e.target.Some? && e.target.value in d.roots {
        ExpansionBinds(d, rank, rank[e.target.value], d.roots[e.target.value], ReferenceContext(e, t),
          ReferenceContext(e, c), counter, fixture, parentId);
      }
    } else {
      NodeBinds(d, e, t, c, counter, fixture, parentId);
      var nodeT, nodeC := MakeNode(d, e, t, counter), MakeNode(d, e, c, counter);
      ExpansionsBind(d, rank, r, e.children, ChildContext(e, t, nodeT), ChildContext(e, c, nodeC), counter + 1,
        fixture, parentId);
      BindAppends([nodeT], ExpandAll(d, rank, r, e.children, ChildContext(e, t, nodeT), counter + 1).0, fixture, parentId);
      assert BindAll([nodeT], fixture, parentId) == [nodeC];
    }
  }

  lemma {:induction false} ExpansionsBind(d: Definition, rank: map<string, nat>, r: nat, es: seq<Element>, t: Context,
                                          c: Context, counter: nat, fixture: string, parentId: string)
    requires Bounded(d, rank) && AllRanked(d, rank, es, r) && Corresponds(t, c, fixture, parentId)
    ensures ExpandAll(d, rank, r, es, c, counter).0 == BindAll(ExpandAll(d, rank, r, es, t, counter).0, fixture, parentId)
    ensures ExpandAll(d, rank, r, es, c, counter).1 == ExpandAll(d, rank, r, es, t, counter).1
    decreases r, es, 0
  {
    if es != [] {
      if es[0].supported {
        ExpansionBinds(d, rank, r, es[0], t, c, counter, fixture, parentId);
        var next := Expand(d, rank, r, es[0], t, counter).1;
        ExpansionsBind(d, rank, r, es[1..], t, c, next, fixture, parentId);
        BindAppends(Expand(d, rank, r, es[0], t, counter).0, ExpandAll(d, rank, r, es[1..], t, next).0, fixture, parentId);
      } else {
        ExpansionsBind(d, rank, r, es[1..], t, c, counter, fixture, parentId);
      }
    }
  }

  /** A template bound to a fixture is the direct build for it: same nodes in the same order, field by field. */
  lemma TemplateEqualsDirectBuild(d: Definition, rank: map<string, nat>, r: nat, fixture: string, parentId: string,
                                  parentWorld: Transform)
    requires Bounded(d, rank) && Ranked(d, rank, d.root, r)
    ensures BindAll(Build(d, rank, r, "", "", []), fixture, parentId) ==
              Build(d, rank, r, fixture, parentId, parentWorld)
  {
    ExpansionBinds(d, rank, r, d.root, RootContext("", "", []), RootContext(fixture, parentId, parentWorld), 0,
      fixture, parentId);
  }

  /** Archive path, mode, file revision, file size and model detail. */
  datatype Key = Key(path: string, mode: string, revision: int, size: nat, detail: int)

  /** The archives on disk: what each key denotes, and the rank that bounds its references. */
  datatype Library = Library(definition: Key -> Definition, rank: Key -> map<string, nat>, depth: Key -> nat)

  ghost predicate Sound(library: Library, key: Key) {
    && Bounded(library.definition(key), library.rank(key))
    && Ranked(library.definition(key), library.rank(key), library.definition(key).root, library.depth(key))
  }

  class FixtureGeometryTemplates {
    var templates: map<Key, seq<Node>>
    var hits: nat

    /** Every cached template is the expansion of its definition without identity. */
    ghost predicate Valid(library: Library)
      reads this
    {
      forall key :: key in templates ==>
        && Sound(library, key)
        && templates[key] == Build(library.definition(key), library.rank(key), library.depth(key), "", "", [])
    }

    constructor ()
      ensures templates == map[] && hits == 0
    {
      templates, hits := map[], 0;
    }

    method Instantiate(library: Library, key: Key, fixture: string, parentId: string) returns (nodes: seq<Node>)
      requires Valid(library) && Sound(library, key)
      modifies this
      ensures Valid(library)
      ensures forall world :: nodes ==
                Build(library.definition(key), library.rank(key), library.depth(key), fixture, parentId, world)
      ensures templates.Keys == old(templates.Keys) + {key}
      ensures forall k :: k in old(templates) ==> templates[k] == old(templates)[k]
      ensures hits == old(hits) + (if key in old(templates) then 1 else 0)
    {
      if key !in templates {
        var template := BuildFixtureGeometryNodes(library.definition(key), library.rank(key), library.depth(key), "", "", []);
        templates := templates[key := template];
      } else {
        hits := hits + 1;
      }
      nodes := templates[key];
      ghost var template := nodes;
      for i := 0 to |nodes|
        invariant |nodes| == |template|
        invariant forall k :: 0 <= k < i ==> nodes[k] == Bind(template[k], fixture, parentId)
        invariant forall k :: i <= k < |nodes| ==> nodes[k] == template[k]
      {
        nodes := nodes[i := Bind(nodes[i], fixture, parentId)];
      }
      assert nodes == BindAll(template, fixture, parentId);
      forall world
        ensures nodes ==
          Build(library.definition(key), library.rank(key), library.depth(key), fixture, parentId, world)
      {
        TemplateEqualsDirectBuild(library.definition(key), library.rank(key), library.depth(key), fixture, parentId, world);
      }
    }
  }

  // ----- identities within one build -----

  lemma {:induction false} DecimalIsInjective(a: nat, b: nat)
    requires Decimal(a) == Decimal(b)
    ensures a == b
  {
    var s, t := Decimal(a), Decimal(b);
    assert s[|s| - 1] == t[|t| - 1];
    assert s[|s| - 1] == Digit(a % 10) && t[|t| - 1] == Digit(b % 10);
    if a >= 10 && b >= 10 {
      assert s[..|s| - 1] == Decimal(a / 10) && t[..|t| - 1] == Decimal(b / 10);
      DecimalIsInjective(a / 10, b / 10);
    }
  }

  /** The counter alone separates ids, whatever the geometry names contain. */
  lemma LocalIdsDiffer(name: string, a: nat, other: string, b: nat)
    requires LocalId(name, a) == LocalId(other, b)
    ensures a == b
  {
    var s, da, db := LocalId(name, a), Decimal(a), Decimal(b);
    assert s[|s| - |da| - 1] == '#' && s[|s| - |db| - 1] == '#';
    assert s[|s| - |da|..] == da && s[|s| - |db|..] == db;
    forall k | |s| - |da| <= k < |s| ensures s[k] != '#' {
      assert s[k] == da[k - (|s| - |da|)];
    }
    forall k | |s| - |db| <= k < |s| ensures s[k] != '#' {
      assert s[k] == db[k - (|s| - |db|)];
    }
    DecimalIsInjective(a, b);
  }

  /** Node `i` of an expansion carries counter value `counter + i`. */
  ghost predicate Numbered(nodes: seq<Node>, fixture: string, counter: nat) {
    forall i :: 0 <= i < |nodes| ==> nodes[i].nodeId == fixture + LocalId(nodes[i].name, counter + i)
  }

  lemma {:induction false} ExpansionIsNumbered(d: Definition, rank: map<string, nat>, r: nat, e: Element, c: Context,
                                               counter: nat)
    requires Bounded(d, rank) && Ranked(d, rank, e, r)
    ensures var (nodes, next) := Expand(d, rank, r, e, c, counter);
            next == counter + |nodes| && Numbered(nodes, c.fixture, counter)
    decreases r, e, 1
  {
    if e.isReference {
      if e.target.Some? && e.target.value in d.roots {
        ExpansionIsNumbered(d, rank, rank[e.target.value], d.roots[e.target.value], ReferenceContext(e, c), counter);
      }
    } else {
      ExpansionsAreNumbered(d, rank, r, e.children, ChildContext(e, c, MakeNode(d, e, c, counter)), counter + 1);
    }
  }

  lemma {:induction false} ExpansionsAreNumbered(d: Definition, rank: map<string, nat>, r: nat, es: seq<Element>,
                                                 c: Context, counter: nat)
    requires Bounded(d, rank) && AllRanked(d, rank, es, r)
    ensures var (nodes, next) := ExpandAll(d, rank, r, es, c, counter);
            next == counter + |nodes| && Numbered(nodes, c.fixture, counter)
    decreases r, es, 0
  {
    if es != [] {
      if es[0].supported {
        ExpansionIsNumbered(d, rank, r, es[0], c, counter);
        ExpansionsAreNumbered(d, rank, r, es[1..], c, Expand(d, rank, r, es[0], c, counter).1);
      } else {
        ExpansionsAreNumbered(d, rank, r, es[1..], c, counter);
      }
    }
  }

  /** Node ids of one fixture are pairwise distinct, even when a geometry is referenced many times. */
  lemma NodeIdsAreDistinct(d: Definition, rank: map<string, nat>, r: nat, fixture: string, parentId: string,
                           world: Transform, i: nat, j: nat)
    requires Bounded(d, rank) && Ranked(d, rank, d.root, r)
    requires i < j < |Build(d, rank, r, fixture, parentId, world)|
    ensures Build(d, rank, r, fixture, parentId, world)[i].nodeId != Build(d, rank, r, fixture, parentId, world)[j].nodeId
  {
    var nodes := Build(d, rank, r, fixture, parentId, world);
    ExpansionIsNumbered(d, rank, r, d.root, RootContext(fixture, parentId, world), 0);
    if nodes[i].nodeId == nodes[j].nodeId {
      assert nodes[i].nodeId[|fixture|..] == LocalId(nodes[i].name, i);
      assert nodes[j].nodeId[|fixture|..] == LocalId(nodes[j].name, j);
      LocalIdsDiffer(nodes[i].name, i, nodes[j].name, j);
    }
  }

  /** Each node hangs under the given parent or under a node that comes before it. */
  ghost predicate ParentsFirst(nodes: seq<Node>, parentId: string) {
    forall i :: 0 <= i < |nodes| ==> nodes[i].parentId == parentId || HasEarlier(nodes, i, nodes[i].parentId)
  }

  ghost predicate HasEarlier(nodes: seq<Node>, i: nat, id: string) {
    exists j :: 0 <= j < i && j < |nodes| && nodes[j].nodeId == id
  }

  lemma ParentsFirstUnder(node: Node, nodes: seq<Node>, parentId: string)
    requires node.parentId == parentId && ParentsFirst(nodes, node.nodeId)
    ensures ParentsFirst([node] + nodes, parentId)
  {
    var all := [node] + nodes;
    forall i | 0 <= i < |all| ensures all[i].parentId == parentId || HasEarlier(all, i, all[i].parentId) {
      if i > 0 {
        assert all[0].nodeId == node.nodeId;
        if HasEarlier(nodes, i - 1, nodes[i - 1].parentId) {
          var j :| 0 <= j < i - 1 && nodes[j].nodeId == nodes[i - 1].parentId;
          assert all[j + 1].nodeId == all[i].parentId;
        }
      }
    }
  }

  lemma ParentsFirstAppend(a: seq<Node>, b: seq<Node>, parentId: string)
    requires ParentsFirst(a, parentId) && ParentsFirst(b, parentId)
    ensures ParentsFirst(a + b, parentId)
  {
    var all := a + b;
    forall i | 0 <= i < |all| ensures all[i].parentId == parentId || HasEarlier(all, i, all[i].parentId) {
      if all[i].parentId != parentId {
        if i < |a| {
          var j :| 0 <= j < i && a[j].nodeId == a[i].parentId;
          assert all[j].nodeId == all[i].parentId;
        } else {
          var j :| 0 <= j < i - |a| && b[j].nodeId == b[i - |a|].parentId;
          assert all[|a| + j].nodeId == all[i].parentId;
        }
      }
    }
  }

  lemma {:induction false} ExpansionIsOrdered(d: Definition, rank: map<string, nat>, r: nat, e: Element, c: Context,
                                              counter: nat)
    requires Bounded(d, rank) && Ranked(d, rank, e, r)
    ensures ParentsFirst(Expand(d, rank, r, e, c, counter).0, c.parentId)
    decreases r, e, 1
  {
    if e.isReference {
      if e.target.Some? && e.target.value in d.roots {
        ExpansionIsOrdered(d, rank, rank[e.target.value], d.roots[e.target.value], ReferenceContext(e, c), counter);
      }
    } else {
      var node := MakeNode(d, e, c, counter);
      ExpansionsAreOrdered(d, rank, r, e.children, ChildContext(e, c, node), counter + 1);
      ParentsFirstUnder(node, ExpandAll(d, rank, r, e.children, ChildContext(e, c, node), counter + 1).0, c.parentId);
    }
  }

  /** Parents precede their children in every expansion. */
  lemma {:induction false} ExpansionsAreOrdered(d: Definition, rank: map<string, nat>, r: nat, es: seq<Element>,
                                                c: Context, counter: nat)
    requires Bounded(d, rank) && AllRanked(d, rank, es, r)
    ensures ParentsFirst(ExpandAll(d, rank, r, es, c, counter).0, c.parentId)
    decreases r, es, 0
  {
    if es != [] {
      if es[0].supported {
        ExpansionIsOrdered(d, rank, r, es[0], c, counter);
        ExpansionsAreOrdered(d, rank, r, es[1..], c, Expand(d, rank, r, es[0], c, counter).1);
        ParentsFirstAppend(Expand(d, rank, r, es[0], c, counter).0,
          ExpandAll(d, rank, r, es[1..], c, Expand(d, rank, r, es[0], c, counter).1).0, c.parentId);
      } else {
        ExpansionsAreOrdered(d, rank, r, es[1..], c, counter);
      }
    }
  }
}
