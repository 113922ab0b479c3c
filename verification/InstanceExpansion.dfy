/** The whole expansion step: the router with its tables, relinking, and when a mode of a fixture is accepted. */
module InstanceExpansion {
  import opened Prelude
  import opened ModeMasterGraph
  import opened GeometryRoutes
  import opened RouteWalks
  import opened InstanceRouting
  import opened InstanceTables
  import opened InstanceLinks

  ghost predicate CopyOk(f: Forest, x: Fixture, routes: seq<Route>, p: nat, r: nat)
    requires Parsed(x) && RoutesOk(f, routes) && p < |x.programs| && r < |routes|
  {
    OnGeometry(x, p, routes[r].name) ==> Copy(f, x, routes, p, r).Some?
  }

  /** The copies of one program along the first `upTo` routes all exist. */
  ghost predicate CopiesExist(f: Forest, x: Fixture, routes: seq<Route>, p: nat, upTo: nat)
    requires Parsed(x) && RoutesOk(f, routes) && p < |x.programs| && upTo <= |routes|
  {
    upTo == 0 || (CopiesExist(f, x, routes, p, upTo - 1) && CopyOk(f, x, routes, p, upTo - 1))
  }

  /** The copies of program `p` along the first `upTo` routes were added to `before`. */
  ghost predicate Reached(f: Forest, x: Fixture, routes: seq<Route>, p: nat, upTo: nat, before: seq<(nat, nat)>,
                          placed: seq<(nat, nat)>, matched: bool)
    requires Parsed(x) && RoutesOk(f, routes) && p < |x.programs| && upTo <= |routes|
  {
    && placed == before + RoutesOf(x, routes, p, upTo) && CopiesExist(f, x, routes, p, upTo)
    && (matched <==> RoutesOf(x, routes, p, upTo) != [])
  }

  lemma ReachedStep(f: Forest, x: Fixture, routes: seq<Route>, p: nat, r: nat, before: seq<(nat, nat)>,
                    placed: seq<(nat, nat)>, matched: bool)
    requires Parsed(x) && RoutesOk(f, routes) && p < |x.programs| && r < |routes| && CopyOk(f, x, routes, p, r)
    requires Reached(f, x, routes, p, r, before, placed, matched)
    ensures var hit := OnGeometry(x, p, routes[r].name);
            Reached(f, x, routes, p, r + 1, before, placed + (if hit then [(p, r)] else []), matched || hit)
  {
  }

  lemma {:induction false} FailureIsFinal(f: Forest, x: Fixture, routes: seq<Route>, p: nat, r: nat, upTo: nat)
    requires Parsed(x) && RoutesOk(f, routes) && p < |x.programs| && r < upTo <= |routes|
    requires !CopyOk(f, x, routes, p, r)
    ensures !CopiesExist(f, x, routes, p, upTo)
  {
    if r < upTo - 1 {
      FailureIsFinal(f, x, routes, p, r, upTo - 1);
    }
  }

  class InstanceRouter {
    const forest: Forest
    const original: Fixture
    const routes: seq<Route>
    const numbered: map<nat, set<int>>
    const overwritten: set<nat>
    var geometries: seq<Geometry>
    var components: seq<Component>
    var programs: seq<Program>
    var channels: seq<Channel>
    var instances: seq<Instance>
    var geometryIds: map<string, nat>
    var componentIds: map<(string, int), nat>
    var channelIds: map<(string, int), nat>
    ghost var placed: seq<(nat, nat)>

    ghost predicate InputsOk() {
      && forest.Valid() && Parsed(original) && RoutesOk(forest, routes)
      && (forall n: nat :: Get(numbered, n) == Numbered(original, routes, n))
      && (forall n: nat :: n in overwritten <==> Overwritten(original, routes, n))
    }

    ghost function State(): Tables
      reads this
    {
      Tables(Fixture(geometries, components, programs, channels), instances, Ids(geometryIds, componentIds, channelIds))
    }

    ghost predicate Valid()
      reads this
    {
      InputsOk() && State() == TablesOf(forest, original, routes, placed)
    }

    constructor (forest: Forest, original: Fixture, routes: seq<Route>, numbered: map<nat, set<int>>, overwritten: set<nat>)
      requires forest.Valid() && Parsed(original) && RoutesOk(forest, routes)
      requires forall n: nat :: Get(numbered, n) == Numbered(original, routes, n)
      requires forall n: nat :: n in overwritten <==> Overwritten(original, routes, n)
      ensures Valid() && placed == []
      ensures this.forest == forest && this.original == original && this.routes == routes
    {
      this.forest, this.original, this.routes, this.numbered, this.overwritten :=
        forest, original, routes, numbered, overwritten;
      geometries, components, programs, channels, instances := [], [], [], [], [];
      geometryIds, componentIds, channelIds := map[], map[], map[];
      placed := [];
    }

    /** The copy of one program along one route. */
    method CopyAlong(p: nat, r: nat) returns (copy: Option<Program>)
      requires InputsOk() && p < |original.programs| && r < |routes|
      requires OnGeometry(original, p, routes[r].name)
      ensures copy == Copy(forest, original, routes, p, r)
    {
      var program, route := original.programs[p], routes[r];
      if route.depth > 1 {
        return None;
      }
      if route.reference.None? {
        return if program.dmxBreak == 0 then None else Some(program);
      }
      assert RouteOk(forest, route);
      var n := route.reference.value;
      RouteIsCollected(original, routes, p, r);
      copy := Adjust(program, forest.nodes[n].breaks, Get(numbered, n), n in overwritten);
    }

    method GeometryId(path: string, source: Geometry) returns (id: nat)
      modifies this`geometries, this`geometryIds
      ensures State() == GeometryAdded(old(State()), path, source)
      ensures path in geometryIds && geometryIds[path] == id
    {
      if path !in geometryIds {
        var next := |geometries| + 1;
        geometryIds := geometryIds[path := next];
        geometries := geometries + [source.(id := next, path := path)];
      }
      id := geometryIds[path];
    }

    method ComponentId(path: string, component: int, geometryId: nat, source: Component) returns (id: nat)
      modifies this`components, this`componentIds
      ensures State() == ComponentAdded(old(State()), path, component, geometryId, source)
      ensures (path, component) in componentIds && componentIds[(path, component)] == id
    {
      if (path, component) !in componentIds {
        var next := |components| + 1;
        componentIds := componentIds[(path, component) := next];
        components := components + [source.(id := next, geometryId := geometryId, renderTargetId := next)];
      }
      id := componentIds[(path, component)];
    }

    method ChannelId(context: string, channel: int, source: Channel, offsets: seq<int>) returns (id: nat)
      requires IdsFit(channelIds, |channels|)
      modifies this`channels, this`channelIds
      ensures State() == ChannelAdded(old(State()), context, channel, source, offsets)
      ensures (context, channel) in channelIds && channelIds[(context, channel)] == id && 1 <= id <= |channels|
    {
      if (context, channel) !in channelIds {
        var next := |channels| + 1;
        channelIds := channelIds[(context, channel) := next];
        channels := channels + [source.(id := next, sourceProgramId := 0, offsets := offsets)];
      }
      id := channelIds[(context, channel)];
    }

    /** The first program of a channel becomes its source program. */
    method ClaimChannel(channel: nat, program: int)
      requires 1 <= channel <= |channels|
      modifies this`channels
      ensures channels == Claim(old(channels), channel, program)
    {
      if channels[channel - 1].sourceProgramId == 0 {
        channels := channels[channel - 1 := channels[channel - 1].(sourceProgramId := program)];
      }
    }

    /** Rows and ids for one copy; ids already given are kept. */
    method AssignIds(route: Route, program: Program, offsets: seq<int>) returns (gid: nat, cid: nat, channel: nat)
      requires IdsFit(channelIds, |channels|) && ParsedProgram(original, program)
      modifies this`geometries, this`geometryIds, this`components, this`componentIds, this`channels, this`channelIds
      ensures State() == RowsAdded(original, old(State()), program, route, offsets)
      ensures route.path in geometryIds && geometryIds[route.path] == gid
      ensures (route.path, program.componentId) in componentIds && componentIds[(route.path, program.componentId)] == cid
      ensures (route.context, program.channelId) in channelIds && channelIds[(route.context, program.channelId)] == channel
      ensures 1 <= channel <= |channels|
    {
      gid := GeometryId(route.path, original.geometries[program.geometryId - 1]);
      cid := ComponentId(route.path, program.componentId, gid, original.components[program.componentId - 1]);
      channel := ChannelId(route.context, program.channelId, original.channels[program.channelId - 1], offsets);
    }

    /** Adds one copy under fresh or already assigned ids. */
    method Place(p: nat, r: nat, adjusted: Program)
      requires IdsFit(channelIds, |channels|) && p < |original.programs| && r < |routes|
      requires ParsedProgram(original, original.programs[p])
      modifies this
      ensures State() == CopyAdded(original, old(State()), original.programs[p], routes[r], adjusted)
      ensures placed == old(placed) + [(p, r)]
    {
      var program, route := original.programs[p], routes[r];
      var gid, cid, channel := AssignIds(route, program, adjusted.offsets);
      var copy := adjusted.(id := |programs| + 1, geometryId := gid, componentId := cid, channelId := channel);
      ClaimChannel(channel, copy.id);
      programs := programs + [copy];
      instances := instances + [Instance(program.id, route.context)];
      placed := placed + [(p, r)];
    }

    /** The copy of one program along one route, if the route has its geometry. */
    method PlaceAlong(p: nat, r: nat) returns (ok: bool, matched: bool)
      requires Valid() && p < |original.programs| && r < |routes|
      modifies this
      ensures matched <==> OnGeometry(original, p, routes[r].name)
      ensures ok <==> CopyOk(forest, original, routes, p, r)
      ensures ok ==> Valid() && placed == old(placed) + (if matched then [(p, r)] else [])
    {
      assert ParsedProgram(original, original.programs[p]);
      matched := original.geometries[original.programs[p].geometryId - 1].name == routes[r].name;
      if !matched {
        return true, false;
      }
      var copy := CopyAlong(p, r);
      if copy.None? {
        return false, true;
      }
      ChannelsFit(forest, original, routes, placed);
      TablesOfStep(forest, original, routes, placed, (p, r));
      Place(p, r, copy.value);
      return true, true;
    }

    /** The next route of a program whose copies along the earlier routes were added to `before`. */
    method PlaceNext(p: nat, r: nat, ghost before: seq<(nat, nat)>, matched: bool) returns (ok: bool, now: bool)
      requires Valid() && p < |original.programs| && r < |routes|
      requires Reached(forest, original, routes, p, r, before, placed, matched)
      modifies this
      ensures ok ==> Valid() && Reached(forest, original, routes, p, r + 1, before, placed, now)
      ensures !ok ==> !CopiesExist(forest, original, routes, p, |routes|)
    {
      ghost var earlier := placed;
      var hit: bool;
      ok, hit := PlaceAlong(p, r);
      if ok {
        ReachedStep(forest, original, routes, p, r, before, earlier, matched);
      } else {
        FailureIsFinal(forest, original, routes, p, r, |routes|);
      }
      now := matched || hit;
    }

    /** All copies of one program; it needs at least one route. */
    method PlaceProgram(p: nat) returns (ok: bool)
      requires Valid() && p < |original.programs|
      modifies this
      ensures ok <==> Served(forest, original, routes, p)
      ensures ok ==> Valid() && placed == old(placed) + RoutesOf(original, routes, p, |routes|)
    {
      var matched := false;
      for r := 0 to |routes|
        invariant Valid() && Reached(forest, original, routes, p, r, old(placed), placed, matched)
      {
        ok, matched := PlaceNext(p, r, old(placed), matched);
        if !ok {
          return false;
        }
      }
      return matched;
    }

    /** Replaces the parsed tables by one copy per program and route, or reports that some copy cannot exist. */
    method Rebuild() returns (ok: bool)
      requires Valid() && placed == []
      modifies this
      ensures ok <==> AllServed(forest, original, routes, |original.programs|)
      ensures ok ==> Valid() && placed == Placements(original, routes, |original.programs|)
    {
      for p := 0 to |original.programs|
        invariant Valid() && placed == Placements(original, routes, p)
        invariant AllServed(forest, original, routes, p)
      {
        ok := PlaceProgram(p);
        if !ok {
          NotAllServed(forest, original, routes, p);
          return false;
        }
      }
      return true;
    }

    /** The last instance of a program in a context. */
    method FindInstance(id: int, context: string) returns (found: Option<nat>)
      ensures found == LastInstance(instances, id, context, |instances|)
    {
      found := None;
      for j := 0 to |instances|
        invariant found == LastInstance(instances, id, context, j)
      {
        if instances[j].originalId == id && instances[j].context == context {
          found := Some(j);
        }
      }
    }

    /** Points every condition at the copy of its master that shares its reference, or at the one outside references. */
    method Relink() returns (ok: bool)
      requires |instances| == |programs|
      modifies this`programs
      ensures |programs| == |old(programs)|
      ensures ok <==> MastersFound(old(programs), instances)
      ensures ok ==> forall k :: 0 <= k < |programs| ==> programs[k] == Relinked(old(programs), instances, k)
    {
      for i := 0 to |programs|
        invariant |programs| == |old(programs)| == |instances|
        invariant forall k :: 0 <= k < i && Conditional(old(programs)[k]) ==> MasterOf(old(programs), instances, k).Some?
        invariant forall k :: 0 <= k < i ==> programs[k] == Relinked(old(programs), instances, k)
        invariant forall k :: i <= k < |programs| ==> programs[k] == old(programs)[k]
      {
        var program := programs[i];
        if program.master.kind.NoMaster? || !program.master.valid {
          continue;
        }
        var target := FindInstance(program.master.masterProgramId, instances[i].context);
        if target.None? {
          target := FindInstance(program.master.masterProgramId, "");
        }
        if target.None? {
          return false;
        }
        var master := programs[target.value];
        assert master.id == old(programs)[target.value].id && master.channelId == old(programs)[target.value].channelId;
        programs := programs[i := Linked(program, master)];
      }
      return true;
    }
  }

  /** A program can be expanded: it lies on some route, and each of its copies exists. */
  ghost predicate Served(f: Forest, x: Fixture, routes: seq<Route>, p: nat)
    requires Parsed(x) && RoutesOk(f, routes) && p < |x.programs|
  {
    RoutesOf(x, routes, p, |routes|) != [] && CopiesExist(f, x, routes, p, |routes|)
  }

  /** The first `upTo` programs can be expanded. */
  ghost predicate AllServed(f: Forest, x: Fixture, routes: seq<Route>, upTo: nat)
    requires Parsed(x) && RoutesOk(f, routes) && upTo <= |x.programs|
  {
    upTo == 0 || (AllServed(f, x, routes, upTo - 1) && Served(f, x, routes, upTo - 1))
  }

  lemma {:induction false} EachOneServed(f: Forest, x: Fixture, routes: seq<Route>, p: nat, upTo: nat)
    requires Parsed(x) && RoutesOk(f, routes) && p < upTo <= |x.programs| && AllServed(f, x, routes, upTo)
    ensures Served(f, x, routes, p)
  {
    if p < upTo - 1 {
      EachOneServed(f, x, routes, p, upTo - 1);
    }
  }

  lemma NotAllServed(f: Forest, x: Fixture, routes: seq<Route>, p: nat)
    requires Parsed(x) && RoutesOk(f, routes) && p < |x.programs| && !Served(f, x, routes, p)
    ensures !AllServed(f, x, routes, |x.programs|)
  {
    if AllServed(f, x, routes, |x.programs|) {
      EachOneServed(f, x, routes, p, |x.programs|);
    }
  }

  /** Every program of an expanded fixture lies on a route, and each of its copies exists. */
  lemma EachIsServed(f: Forest, x: Fixture, routes: seq<Route>, p: nat, r: nat)
    requires Parsed(x) && RoutesOk(f, routes) && p < |x.programs| && r < |routes|
    requires AllServed(f, x, routes, |x.programs|)
    ensures RoutesOf(x, routes, p, |routes|) != [] && CopyOk(f, x, routes, p, r)
  {
    EachOneServed(f, x, routes, p, |x.programs|);
    if !CopyOk(f, x, routes, p, r) {
      FailureIsFinal(f, x, routes, p, r, |routes|);
    }
  }

  // ----- the whole expansion -----

  ghost predicate TopLevelOk(nodes: seq<Node>, topLevel: seq<nat>) {
    forall k :: 0 <= k < |topLevel| ==> topLevel[k] < |nodes|
  }

  /** No two of the first `upTo` top-level geometries share a name. */
  ghost predicate UniqueNames(nodes: seq<Node>, topLevel: seq<nat>, upTo: nat)
    requires TopLevelOk(nodes, topLevel) && upTo <= |topLevel|
  {
    forall i, j :: 0 <= i < j < upTo && nodes[topLevel[i]].name.Some? ==>
      nodes[topLevel[i]].name != nodes[topLevel[j]].name
  }

  /** Geometries by name; one without a Name is passed over. */
  ghost function RootsOf(nodes: seq<Node>, topLevel: seq<nat>, upTo: nat): (roots: map<string, nat>)
    requires TopLevelOk(nodes, topLevel) && upTo <= |topLevel|
    ensures forall name :: name in roots ==> roots[name] < |nodes|
  {
    if upTo == 0 then map[] else
      var earlier, name := RootsOf(nodes, topLevel, upTo - 1), nodes[topLevel[upTo - 1]].name;
      if name.None? then earlier else earlier[name.value := topLevel[upTo - 1]]
  }

  ghost predicate IsNamed(nodes: seq<Node>, topLevel: seq<nat>, upTo: nat, name: string)
    requires TopLevelOk(nodes, topLevel) && upTo <= |topLevel|
  {
    exists k :: 0 <= k < upTo && nodes[topLevel[k]].name == Some(name)
  }

  /** The table holds exactly the names, and finds each geometry by its own name when no name is repeated. */
  lemma {:induction false} RootsExact(nodes: seq<Node>, topLevel: seq<nat>, upTo: nat, name: string)
    requires TopLevelOk(nodes, topLevel) && upTo <= |topLevel|
    ensures name in RootsOf(nodes, topLevel, upTo) <==> IsNamed(nodes, topLevel, upTo, name)
    ensures UniqueNames(nodes, topLevel, upTo) ==>
              forall k :: 0 <= k < upTo && nodes[topLevel[k]].name == Some(name) ==>
                RootsOf(nodes, topLevel, upTo)[name] == topLevel[k]
  {
    if upTo > 0 {
      RootsExact(nodes, topLevel, upTo - 1, name);
    }
  }

  lemma UniqueStep(nodes: seq<Node>, topLevel: seq<nat>, k: nat)
    requires TopLevelOk(nodes, topLevel) && k < |topLevel| && UniqueNames(nodes, topLevel, k)
    ensures var name := nodes[topLevel[k]].name;
            UniqueNames(nodes, topLevel, k + 1) <==> name.None? || !IsNamed(nodes, topLevel, k, name.value)
  {
  }

  lemma RepetitionIsFinal(nodes: seq<Node>, topLevel: seq<nat>, k: nat)
    requires TopLevelOk(nodes, topLevel) && k < |topLevel| && !UniqueNames(nodes, topLevel, k + 1)
    ensures !UniqueNames(nodes, topLevel, |topLevel|)
  {
  }

  /** Tabulates the top-level geometries; a repeated name is an error. */
  method BuildRoots(nodes: seq<Node>, topLevel: seq<nat>) returns (ok: bool, roots: map<string, nat>)
    requires TopLevelOk(nodes, topLevel)
    ensures ok <==> UniqueNames(nodes, topLevel, |topLevel|)
    ensures ok ==> roots == RootsOf(nodes, topLevel, |topLevel|)
  {
    roots := map[];
    for k := 0 to |topLevel|
      invariant UniqueNames(nodes, topLevel, k) && roots == RootsOf(nodes, topLevel, k)
    {
      var name := nodes[topLevel[k]].name;
      UniqueStep(nodes, topLevel, k);
      if name.Some? {
        RootsExact(nodes, topLevel, k, name.value);
        if name.value in roots {
          RepetitionIsFinal(nodes, topLevel, k);
          return false, roots;
        }
        roots := roots[name.value := topLevel[k]];
      }
    }
    return true, roots;
  }

  /** The compiled program keeps the declared bytes of program `p`, all moved by the same amount, under a real break. */
  ghost predicate DerivesFrom(x: Fixture, program: Program, p: nat) {
    && p < |x.programs| && program.dmxBreak >= 1
    && (x.programs[p].dmxBreak != 0 ==> program.dmxBreak == x.programs[p].dmxBreak)
    && (exists shift :: 0 <= shift < 512 && program.offsets == Shifted(x.programs[p].offsets, shift))
    && (Addressable(x.programs[p].offsets) ==> Addressable(program.offsets))
  }

  ghost predicate Derives(x: Fixture, program: Program) {
    exists p :: DerivesFrom(x, program, p)
  }

  lemma CopiesDerive(f: Forest, x: Fixture, routes: seq<Route>, placed: seq<(nat, nat)>, programs: seq<Program>,
                     instances: seq<Instance>, ids: Ids, k: nat)
    requires Parsed(x) && RoutesOk(f, routes) && AllPlaced(f, x, routes, placed, programs, instances, ids)
    requires k < |programs|
    ensures Derives(x, Relinked(programs, instances, k))
  {
    assert Placed(f, x, routes, placed[k], k, programs[k], ids);
    var p, r := placed[k].0, placed[k].1;
    CopyMoves(f, x, routes, p, r);
    assert DerivesFrom(x, Relinked(programs, instances, k), p);
  }

  ghost predicate ArenaOk(nodes: seq<Node>, topLevel: seq<nat>) {
    && TopLevelOk(nodes, topLevel)
    && forall n, k :: 0 <= n < |nodes| && 0 <= k < |nodes[n].children| ==> nodes[n].children[k] < |nodes|
  }

  datatype Geometries = NoGeometries | Ambiguous | Routed(forest: Forest, routes: seq<Route>)

  ghost function RoutesFrom(f: Forest, selected: string): Option<seq<Route>>
    requires f.Valid() && selected in f.roots
  {
    Expand(f, f.roots[selected], "", "", None, 0, {})
  }

  /** What a geometry tree amounts to: nothing, an error, or the routes of the selected geometry. */
  ghost function GeometriesOf(nodes: seq<Node>, topLevel: seq<nat>, selected: string): (g: Geometries)
    requires ArenaOk(nodes, topLevel)
    ensures g.Routed? ==> g.forest.Valid() && RoutesOk(g.forest, g.routes) && Unambiguous(g.routes)
  {
    var forest := Forest(nodes, RootsOf(nodes, topLevel, |topLevel|));
    if !UniqueNames(nodes, topLevel, |topLevel|) then Ambiguous
    else if selected !in forest.roots then if forest.roots == map[] then NoGeometries else Ambiguous
    else
      var routes := RoutesFrom(forest, selected);
      if !Succeeds([], routes) then Ambiguous else
        ExpansionIsOk(forest, forest.roots[selected], "", "", None, 0, {});
        assert [] + routes.value == routes.value;
        Routed(forest, routes.value)
  }

  /** The forest knows each top-level geometry by its name, and no other names. */
  ghost predicate KnowsTopLevel(f: Forest, topLevel: seq<nat>)
    requires TopLevelOk(f.nodes, topLevel)
  {
    && (forall name :: name in f.roots ==> IsNamed(f.nodes, topLevel, |topLevel|, name))
    && forall i :: 0 <= i < |topLevel| && f.nodes[topLevel[i]].name.Some? ==>
         f.nodes[topLevel[i]].name.value in f.roots && f.roots[f.nodes[topLevel[i]].name.value] == topLevel[i]
  }

  ghost predicate IsTop(nodes: seq<Node>, topLevel: seq<nat>, selected: string, k: nat)
    requires TopLevelOk(nodes, topLevel)
  {
    k < |topLevel| && nodes[topLevel[k]].name == Some(selected)
  }

  lemma RootsKnowTopLevel(nodes: seq<Node>, topLevel: seq<nat>)
    requires ArenaOk(nodes, topLevel) && UniqueNames(nodes, topLevel, |topLevel|)
    ensures KnowsTopLevel(Forest(nodes, RootsOf(nodes, topLevel, |topLevel|)), topLevel)
  {
    forall name: string
      ensures name in RootsOf(nodes, topLevel, |topLevel|) <==> IsNamed(nodes, topLevel, |topLevel|, name)
      ensures forall k :: 0 <= k < |topLevel| && nodes[topLevel[k]].name == Some(name) ==>
                RootsOf(nodes, topLevel, |topLevel|)[name] == topLevel[k]
    {
      RootsExact(nodes, topLevel, |topLevel|, name);
    }
  }

  /** No walk from the origin comes back to an element or ends in a dangling reference, and the routes are unambiguous. */
  ghost predicate WellRouted(f: Forest, origin: nat)
    requires f.Valid() && origin < |f.nodes|
  {
    && (forall w :: GeometryRoutes.Walk(f, w) && w[0] == origin ==> Tidy(f, w))
    && Expand(f, origin, "", "", None, 0, {}).Some? && Unambiguous(Expand(f, origin, "", "", None, 0, {}).value)
  }

  lemma SucceedsIsWellRouted(f: Forest, origin: nat)
    requires f.Valid() && origin < |f.nodes|
    ensures Succeeds([], Expand(f, origin, "", "", None, 0, {})) <==> WellRouted(f, origin)
  {
    var routes := Expand(f, origin, "", "", None, 0, {});
    ExpandsExactlyTheTidy(f, origin);
    assert routes.Some? ==> [] + routes.value == routes.value;
  }

  /** There are no geometries exactly if no top-level one is named. */
  lemma NoGeometriesExactly(nodes: seq<Node>, topLevel: seq<nat>, selected: string)
    requires ArenaOk(nodes, topLevel)
    ensures GeometriesOf(nodes, topLevel, selected).NoGeometries? <==>
              forall k :: 0 <= k < |topLevel| ==> nodes[topLevel[k]].name.None?
  {
    var roots := RootsOf(nodes, topLevel, |topLevel|);
    forall name: string ensures name in roots <==> IsNamed(nodes, topLevel, |topLevel|, name) {
      RootsExact(nodes, topLevel, |topLevel|, name);
    }
    forall k | 0 <= k < |topLevel| && nodes[topLevel[k]].name.Some? ensures nodes[topLevel[k]].name.value in roots {
    }
  }

  /** There are routes exactly if the selected geometry is among the top-level ones, names are unique, and it is well routed. */
  lemma RoutedExactly(nodes: seq<Node>, topLevel: seq<nat>, selected: string, k: nat)
    requires ArenaOk(nodes, topLevel) && IsTop(nodes, topLevel, selected, k)
    ensures var g, f := GeometriesOf(nodes, topLevel, selected), Forest(nodes, RootsOf(nodes, topLevel, |topLevel|));
            && (g.Routed? <==> UniqueNames(nodes, topLevel, |topLevel|) && WellRouted(f, topLevel[k]))
            && (g.Routed? ==> KnowsTopLevel(f, topLevel) && Expand(f, topLevel[k], "", "", None, 0, {}).Some?)
            && (g.Routed? ==> g == Routed(f, Expand(f, topLevel[k], "", "", None, 0, {}).value))
  {
    RootsExact(nodes, topLevel, |topLevel|, selected);
    if UniqueNames(nodes, topLevel, |topLevel|) {
      RootsKnowTopLevel(nodes, topLevel);
      SucceedsIsWellRouted(Forest(nodes, RootsOf(nodes, topLevel, |topLevel|)), topLevel[k]);
    }
  }

  /** The routes of a fixture are those of the walks from its selected geometry. */
  lemma RoutedByWalks(nodes: seq<Node>, topLevel: seq<nat>, selected: string) returns (k: nat, walks: seq<Trail>)
    requires ArenaOk(nodes, topLevel) && GeometriesOf(nodes, topLevel, selected).Routed?
    ensures var g := GeometriesOf(nodes, topLevel, selected);
            && IsTop(nodes, topLevel, selected, k) && g.forest.nodes == nodes && KnowsTopLevel(g.forest, topLevel)
            && RoutesOfWalks(g.forest, topLevel[k], walks, g.routes)
  {
    var g := GeometriesOf(nodes, topLevel, selected);
    RootsExact(nodes, topLevel, |topLevel|, selected);
    var i :| 0 <= i < |topLevel| && nodes[topLevel[i]].name == Some(selected);
    k := i;
    RoutedExactly(nodes, topLevel, selected, k);
    walks := RoutesAreWalks(g.forest, topLevel[k]);
  }

  method ExpandGeometries(nodes: seq<Node>, topLevel: seq<nat>, selected: string) returns (result: Geometries)
    requires ArenaOk(nodes, topLevel)
    ensures result == GeometriesOf(nodes, topLevel, selected)
  {
    var ok, roots := BuildRoots(nodes, topLevel);
    if !ok {
      return Ambiguous;
    }
    if selected !in roots {
      return if roots == map[] then NoGeometries else Ambiguous;
    }
    var walk := new GeometryWalk(Forest(nodes, roots));
    walk.Visit(roots[selected], "", "", None, 0);
    if walk.failed {
      return Ambiguous;
    }
    assert [] + walk.routes == walk.routes;
    return Routed(walk.forest, walk.routes);
  }

  ghost predicate MasterIn(x: Fixture, routes: seq<Route>, placed: seq<(nat, nat)>, id: int, context: string)
    requires InBounds(x, routes, placed)
  {
    exists j :: 0 <= j < |placed| && x.programs[placed[j].0].id == id && routes[placed[j].1].context == context
  }

  /** The copy at `placed[k]` is unconditional, or its master is copied under its reference or outside references. */
  ghost predicate MasterPlaced(x: Fixture, routes: seq<Route>, placed: seq<(nat, nat)>, k: nat)
    requires InBounds(x, routes, placed) && k < |placed|
  {
    var p, context := x.programs[placed[k].0], routes[placed[k].1].context;
    !p.master.kind.NoMaster? && p.master.valid ==>
      MasterIn(x, routes, placed, p.master.masterProgramId, context) ||
      MasterIn(x, routes, placed, p.master.masterProgramId, "")
  }

  ghost predicate MastersPlaced(x: Fixture, routes: seq<Route>, placed: seq<(nat, nat)>)
    requires InBounds(x, routes, placed)
  {
    forall k :: 0 <= k < |placed| ==> MasterPlaced(x, routes, placed, k)
  }

  lemma MasterIsFound(x: Fixture, routes: seq<Route>, placed: seq<(nat, nat)>, programs: seq<Program>,
                      instances: seq<Instance>, k: nat)
    requires InBounds(x, routes, placed) && AllKept(x, routes, placed, programs, instances) && k < |programs|
    ensures (Conditional(programs[k]) ==> MasterOf(programs, instances, k).Some?) <==> MasterPlaced(x, routes, placed, k)
  {
    assert Kept(x, routes, placed[k], k, programs[k], instances[k]);
    forall j | 0 <= j < |placed|
      ensures instances[j] == Instance(x.programs[placed[j].0].id, routes[placed[j].1].context)
    {
      assert Kept(x, routes, placed[j], j, programs[j], instances[j]);
    }
    var found := MasterOf(programs, instances, k);
    if found.Some? {
      assert instances[found.value].originalId == programs[k].master.masterProgramId;
    }
  }

  ghost function PlacementsOf(x: Fixture, routes: seq<Route>): seq<(nat, nat)>
    requires Parsed(x)
  {
    Placements(x, routes, |x.programs|)
  }

  /** Every program of the fixture has its copies, and every conditional copy a master. */
  ghost predicate Expandable(f: Forest, x: Fixture, routes: seq<Route>)
    requires Parsed(x) && RoutesOk(f, routes)
  {
    && AllServed(f, x, routes, |x.programs|)
    && InBounds(x, routes, PlacementsOf(x, routes)) && MastersPlaced(x, routes, PlacementsOf(x, routes))
  }

  /** The expanded fixture: one copy per program and route, with its tables, and every condition relinked. */
  ghost function ExpansionOf(f: Forest, x: Fixture, routes: seq<Route>): Fixture
    requires Parsed(x) && RoutesOk(f, routes)
  {
    var t := TablesOf(f, x, routes, PlacementsOf(x, routes));
    t.fixture.(programs := RelinkedAll(t.fixture.programs, t.instances))
  }

  ghost function RelinkedAll(programs: seq<Program>, instances: seq<Instance>): seq<Program> {
    seq(|programs|, k requires 0 <= k < |programs| =>
      if |instances| == |programs| then Relinked(programs, instances, k) else programs[k])
  }

  lemma PlacementsInBounds(x: Fixture, routes: seq<Route>)
    requires Parsed(x)
    ensures InBounds(x, routes, PlacementsOf(x, routes))
  {
    var placed := PlacementsOf(x, routes);
    forall k | 0 <= k < |placed| ensures placed[k].0 < |x.programs| && placed[k].1 < |routes| {
      assert (placed[k].0, placed[k].1) in placed;
      PlacementsExact(x, routes, |x.programs|, placed[k].0, placed[k].1);
    }
  }

  lemma PlacementIsPlaceable(f: Forest, x: Fixture, routes: seq<Route>, k: nat)
    requires Parsed(x) && RoutesOk(f, routes) && AllServed(f, x, routes, |x.programs|)
    requires k < |PlacementsOf(x, routes)|
    ensures Placeable(f, x, routes, PlacementsOf(x, routes)[k])
  {
    var pair := PlacementsOf(x, routes)[k];
    assert (pair.0, pair.1) in PlacementsOf(x, routes);
    PlacementsExact(x, routes, |x.programs|, pair.0, pair.1);
    EachIsServed(f, x, routes, pair.0, pair.1);
  }

  lemma {:induction false} ServedIsPlaceable(f: Forest, x: Fixture, routes: seq<Route>, upTo: nat)
    requires Parsed(x) && RoutesOk(f, routes) && AllServed(f, x, routes, |x.programs|)
    requires upTo <= |PlacementsOf(x, routes)|
    ensures AllPlaceable(f, x, routes, PlacementsOf(x, routes)[..upTo])
  {
    if upTo > 0 {
      var placed := PlacementsOf(x, routes);
      var pair := placed[upTo - 1];
      assert placed[..upTo][..upTo - 1] == placed[..upTo - 1] && placed[..upTo][upTo - 1] == pair;
      ServedIsPlaceable(f, x, routes, upTo - 1);
      PlacementIsPlaceable(f, x, routes, upTo - 1);
    }
  }

  lemma RelinkingKeepsClaims(channels: seq<Channel>, programs: seq<Program>, instances: seq<Instance>)
    requires Claims(channels, programs)
    ensures Claims(channels, RelinkedAll(programs, instances))
  {
    ClaimsSurvive(channels, programs, RelinkedAll(programs, instances));
  }

  lemma ExpandedTablesHold(f: Forest, x: Fixture, routes: seq<Route>)
    requires Parsed(x) && RoutesOk(f, routes) && AllServed(f, x, routes, |x.programs|)
    ensures TablesHold(f, x, routes, PlacementsOf(x, routes), TablesOf(f, x, routes, PlacementsOf(x, routes)))
  {
    var placed := PlacementsOf(x, routes);
    assert placed[..|placed|] == placed;
    ServedIsPlaceable(f, x, routes, |placed|);
    TablesAlwaysHold(f, x, routes, placed);
  }

  /** The tables are those of the copies, and programs differ from the copies in relinked conditions only. */
  ghost predicate Completes(y: Fixture, t: Tables) {
    && y.geometries == t.fixture.geometries && y.components == t.fixture.components && y.channels == t.fixture.channels
    && Claims(y.channels, y.programs) && |y.programs| == |t.fixture.programs| == |t.instances|
    && forall k :: 0 <= k < |y.programs| ==> y.programs[k] == Relinked(t.fixture.programs, t.instances, k)
  }

  /**
    What an expanded fixture holds: the copies of all programs along all their routes, each once and in this order;
    tables with one row per path, component and channel in use; channels claimed by their first copy; and programs that
    differ from the copies in their relinked conditions only.
  */
  lemma ExpansionHolds(f: Forest, x: Fixture, routes: seq<Route>)
    requires Parsed(x) && RoutesOk(f, routes) && AllServed(f, x, routes, |x.programs|)
    ensures Distinct(PlacementsOf(x, routes))
    ensures TablesHold(f, x, routes, PlacementsOf(x, routes), TablesOf(f, x, routes, PlacementsOf(x, routes)))
    ensures Completes(ExpansionOf(f, x, routes), TablesOf(f, x, routes, PlacementsOf(x, routes)))
  {
    var t := TablesOf(f, x, routes, PlacementsOf(x, routes));
    PlacementsOnce(x, routes, |x.programs|);
    ExpandedTablesHold(f, x, routes);
    RelinkingKeepsClaims(t.fixture.channels, t.fixture.programs, t.instances);
  }

  /** Every program of an expanded fixture derives from a parsed one. */
  lemma ExpansionDerives(f: Forest, x: Fixture, routes: seq<Route>, k: nat)
    requires Parsed(x) && RoutesOk(f, routes) && AllServed(f, x, routes, |x.programs|)
    requires k < |ExpansionOf(f, x, routes).programs|
    ensures Derives(x, ExpansionOf(f, x, routes).programs[k])
  {
    var placed := PlacementsOf(x, routes);
    var t := TablesOf(f, x, routes, placed);
    ExpansionHolds(f, x, routes);
    CopiesDerive(f, x, routes, placed, t.fixture.programs, t.instances, t.ids, k);
  }

  /** A mode of a fixture is accepted exactly when its names, references, breaks, offsets and masters fit. */
  ghost predicate Accepts(nodes: seq<Node>, topLevel: seq<nat>, selected: string, x: Fixture)
    requires Parsed(x) && ArenaOk(nodes, topLevel)
  {
    match GeometriesOf(nodes, topLevel, selected)
    case Ambiguous => false
    case NoGeometries => forall p :: 0 <= p < |x.programs| ==> x.programs[p].dmxBreak >= 1
    case Routed(f, routes) => Expandable(f, x, routes)
  }

  datatype Outcome = Expanded(fixture: Fixture) | Rejected

  /**
    The whole step. It accepts exactly the acceptable modes; without geometries the fixture is kept as parsed, otherwise
    it becomes the expansion along the routes of the selected geometry.
  */
  method ExpandInstanceRoutes(nodes: seq<Node>, topLevel: seq<nat>, selected: string, x: Fixture)
    returns (outcome: Outcome)
    requires Parsed(x) && ArenaOk(nodes, topLevel)
    ensures outcome.Expanded? <==> Accepts(nodes, topLevel, selected, x)
    ensures outcome.Expanded? ==>
              match GeometriesOf(nodes, topLevel, selected)
              case Ambiguous => false
              case NoGeometries => outcome.fixture == x
              case Routed(f, routes) => outcome.fixture == ExpansionOf(f, x, routes)
    ensures outcome.Expanded? ==>
              forall k :: 0 <= k < |outcome.fixture.programs| ==> Derives(x, outcome.fixture.programs[k])
  {
    var geometries := ExpandGeometries(nodes, topLevel, selected);
    match geometries
    case Ambiguous => outcome := Rejected;
    case NoGeometries => outcome := KeepAsParsed(x);
    case Routed(forest, routes) => outcome := RebuildAlong(forest, x, routes);
  }

  /** Fixtures without a geometry tree keep their parsed programs, which must all name their break. */
  method KeepAsParsed(x: Fixture) returns (outcome: Outcome)
    ensures outcome.Expanded? <==> forall p :: 0 <= p < |x.programs| ==> x.programs[p].dmxBreak >= 1
    ensures outcome.Expanded? ==> outcome.fixture == x
    ensures outcome.Expanded? ==> forall p :: 0 <= p < |x.programs| ==> Derives(x, x.programs[p])
  {
    for p := 0 to |x.programs|
      invariant forall q :: 0 <= q < p ==> x.programs[q].dmxBreak >= 1
    {
      if x.programs[p].dmxBreak < 1 {
        return Rejected;
      }
    }
    forall p | 0 <= p < |x.programs| ensures Derives(x, x.programs[p]) {
      assert x.programs[p].offsets == Shifted(x.programs[p].offsets, 0);
      assert DerivesFrom(x, x.programs[p], p);
    }
    return Expanded(x);
  }

  method RebuildAlong(forest: Forest, x: Fixture, routes: seq<Route>) returns (outcome: Outcome)
    requires forest.Valid() && Parsed(x) && RoutesOk(forest, routes)
    ensures outcome.Expanded? <==> Expandable(forest, x, routes)
    ensures outcome.Expanded? ==> outcome.fixture == ExpansionOf(forest, x, routes)
    ensures outcome.Expanded? ==>
              forall k :: 0 <= k < |outcome.fixture.programs| ==> Derives(x, outcome.fixture.programs[k])
  {
    var numbered, overwritten := CollectBreaks(x, routes);
    var router := new InstanceRouter(forest, x, routes, numbered, overwritten);
    var ok := router.Rebuild();
    if !ok {
      return Rejected;
    }
    ghost var t := router.State();
    LinksDecide(forest, x, routes, t);
    ok := router.Relink();
    if !ok {
      return Rejected;
    }
    assert router.programs == RelinkedAll(t.fixture.programs, t.instances);
    forall k | 0 <= k < |router.programs| ensures Derives(x, router.programs[k]) {
      ExpansionDerives(forest, x, routes, k);
    }
    return Expanded(Fixture(router.geometries, router.components, router.programs, router.channels));
  }

  /** Once all programs are copied, the masters alone decide. */
  lemma LinksDecide(f: Forest, x: Fixture, routes: seq<Route>, t: Tables)
    requires Parsed(x) && RoutesOk(f, routes) && AllServed(f, x, routes, |x.programs|)
    requires t == TablesOf(f, x, routes, PlacementsOf(x, routes))
    ensures |t.instances| == |t.fixture.programs|
    ensures Expandable(f, x, routes) <==> MastersFound(t.fixture.programs, t.instances)
  {
    var placed := PlacementsOf(x, routes);
    ExpansionHolds(f, x, routes);
    CopiesAreKept(f, x, routes, placed, t.fixture.programs, t.instances, t.ids);
    PlacementsInBounds(x, routes);
    forall k | 0 <= k < |placed|
      ensures MasterPlaced(x, routes, placed, k) <==>
                (Conditional(t.fixture.programs[k]) ==> MasterOf(t.fixture.programs, t.instances, k).Some?)
    {
      MasterIsFound(x, routes, placed, t.fixture.programs, t.instances, k);
    }
  }
}
