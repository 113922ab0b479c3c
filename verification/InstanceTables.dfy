/**
  The tables of an expanded fixture: the rows that each copy adds or shares, the ids that stand for them, and what the
  tables hold after any series of copies.
*/
module InstanceTables {
  import opened Prelude
  import opened GeometryRoutes
  import opened InstanceRouting

  datatype Instance = Instance(originalId: int, context: string)


  ghost function With<K>(keys: seq<K>, key: K): seq<K> {
    if key in keys then keys else keys + [key]
  }

  /** One-based ids into a table whose rows are `keys`: every row has its id, and equal ids mean equal keys. */
  ghost predicate Indexes<K(!new)>(ids: map<K, nat>, keys: seq<K>) {
    && (forall key :: key in ids ==> IdOf(ids[key], keys, key))
    && forall key :: key in keys ==> key in ids
  }

  ghost predicate IdOf<K>(id: nat, keys: seq<K>, key: K) {
    1 <= id <= |keys| && keys[id - 1] == key
  }

  ghost predicate Extends<K>(before: map<K, nat>, after: map<K, nat>) {
    forall key :: key in before ==> key in after && after[key] == before[key]
  }

  lemma IndexesStep<K(!new)>(ids: map<K, nat>, keys: seq<K>, key: K)
    requires Indexes(ids, keys) && key !in ids
    ensures Indexes(ids[key := |keys| + 1], keys + [key]) && Extends(ids, ids[key := |keys| + 1])
    ensures With(keys, key) == keys + [key]
  {
    var after, more := ids[key := |keys| + 1], keys + [key];
    forall k | k in after ensures IdOf(after[k], more, k) {
      if k != key {
        assert IdOf(ids[k], keys, k);
      }
    }
  }

  ghost predicate OnRoute(path: string, name: string, routes: seq<Route>) {
    exists r :: 0 <= r < |routes| && routes[r].path == path && routes[r].name == name
  }

  /** The row of a geometry that some route reaches under its own path. */
  ghost predicate GeometryOk(g: Geometry, i: nat, path: string, routes: seq<Route>) {
    g.id == i + 1 && g.path == path && OnRoute(path, g.name, routes)
  }

  ghost predicate GeometriesOk(geometries: seq<Geometry>, ids: map<string, nat>, keys: seq<string>, routes: seq<Route>) {
    && Indexes(ids, keys) && |keys| == |geometries|
    && forall i :: 0 <= i < |geometries| ==> GeometryOk(geometries[i], i, keys[i], routes)
  }

  predicate ComponentOk(c: Component, i: nat, path: string, geometryIds: map<string, nat>) {
    c.id == c.renderTargetId == i + 1 && path in geometryIds && c.geometryId == geometryIds[path]
  }

  ghost predicate ComponentsOk(components: seq<Component>, ids: map<(string, int), nat>, keys: seq<(string, int)>,
                               geometryIds: map<string, nat>) {
    && Indexes(ids, keys) && |keys| == |components|
    && forall i :: 0 <= i < |components| ==> ComponentOk(components[i], i, keys[i].0, geometryIds)
  }

  lemma ComponentsExtend(components: seq<Component>, ids: map<(string, int), nat>, keys: seq<(string, int)>,
                         before: map<string, nat>, after: map<string, nat>)
    requires ComponentsOk(components, ids, keys, before) && Extends(before, after)
    ensures ComponentsOk(components, ids, keys, after)
  {
    forall i | 0 <= i < |components| ensures ComponentOk(components[i], i, keys[i].0, after) {
      assert ComponentOk(components[i], i, keys[i].0, before);
    }
  }

  ghost predicate ChannelsOk(channels: seq<Channel>, ids: map<(string, int), nat>, keys: seq<(string, int)>) {
    && Indexes(ids, keys) && |keys| == |channels|
    && forall i :: 0 <= i < |channels| ==> channels[i].id == i + 1
  }

  /** A channel keeps the bytes of the first copy that uses it, and names that copy as its source. */
  ghost predicate ClaimedBy(channel: Channel, c: nat, programs: seq<Program>, k: nat) {
    && k < |programs| && programs[k].channelId == c + 1
    && channel.sourceProgramId == k + 1 && channel.offsets == programs[k].offsets
    && forall j :: 0 <= j < k ==> programs[j].channelId != c + 1
  }

  ghost predicate Claimed(channel: Channel, c: nat, programs: seq<Program>) {
    exists k: nat :: ClaimedBy(channel, c, programs, k)
  }

  ghost predicate Claims(channels: seq<Channel>, programs: seq<Program>) {
    && (forall c :: 0 <= c < |channels| ==> Claimed(channels[c], c, programs))
    && forall k :: 0 <= k < |programs| ==> 1 <= programs[k].channelId <= |channels|
  }

  function Opened(channels: seq<Channel>, channel: int, offsets: seq<int>): seq<Channel> {
    if channel <= |channels| then channels else channels + [Channel(channel, offsets, 0)]
  }

  function Claim(channels: seq<Channel>, channel: int, program: int): seq<Channel> {
    if !(1 <= channel <= |channels|) || channels[channel - 1].sourceProgramId != 0 then channels
    else channels[channel - 1 := channels[channel - 1].(sourceProgramId := program)]
  }

  lemma ClaimsStep(channels: seq<Channel>, programs: seq<Program>, copy: Program)
    requires Claims(channels, programs) && copy.id == |programs| + 1 && 1 <= copy.channelId <= |channels| + 1
    ensures Claims(Claim(Opened(channels, copy.channelId, copy.offsets), copy.channelId, copy.id), programs + [copy])
  {
    var channel, more := copy.channelId, programs + [copy];
    var after := Claim(Opened(channels, channel, copy.offsets), channel, copy.id);
    forall c | 0 <= c < |after| ensures Claimed(after[c], c, more) {
      if c < |channels| {
        var k: nat :| ClaimedBy(channels[c], c, programs, k);
        assert after[c] == channels[c] && ClaimedBy(after[c], c, more, k);
      } else {
        assert ClaimedBy(after[c], c, more, |programs|);
      }
    }
  }

  /** The conditions of copies play no part in who claims a channel. */
  lemma ClaimsSurvive(channels: seq<Channel>, before: seq<Program>, after: seq<Program>)
    requires Claims(channels, before) && |before| == |after|
    requires forall k :: 0 <= k < |before| ==> after[k].channelId == before[k].channelId && after[k].offsets == before[k].offsets
    ensures Claims(channels, after)
  {
    forall c | 0 <= c < |channels| ensures Claimed(channels[c], c, after) {
      var k: nat :| ClaimedBy(channels[c], c, before, k);
      assert ClaimedBy(channels[c], c, after, k);
    }
  }

  datatype Ids = Ids(geometry: map<string, nat>, component: map<(string, int), nat>, channel: map<(string, int), nat>)

  datatype Keys = Keys(geometry: seq<string>, component: seq<(string, int)>, channel: seq<(string, int)>)

  ghost predicate InBounds(x: Fixture, routes: seq<Route>, placed: seq<(nat, nat)>) {
    forall k :: 0 <= k < |placed| ==> placed[k].0 < |x.programs| && placed[k].1 < |routes|
  }

  ghost function KeysWith(keys: Keys, route: Route, program: Program): Keys {
    Keys(With(keys.geometry, route.path), With(keys.component, (route.path, program.componentId)),
      With(keys.channel, (route.context, program.channelId)))
  }

  /** The rows of the tables: paths, components on a path, channels in a context, each at its first use. */
  ghost function KeysOf(x: Fixture, routes: seq<Route>, placed: seq<(nat, nat)>): Keys
    requires InBounds(x, routes, placed)
  {
    if placed == [] then Keys([], [], []) else
      var init, pair := placed[..|placed| - 1], placed[|placed| - 1];
      KeysWith(KeysOf(x, routes, init), routes[pair.1], x.programs[pair.0])
  }

  lemma KeysStep(x: Fixture, routes: seq<Route>, placed: seq<(nat, nat)>, pair: (nat, nat))
    requires InBounds(x, routes, placed) && pair.0 < |x.programs| && pair.1 < |routes|
    ensures InBounds(x, routes, placed + [pair])
    ensures KeysOf(x, routes, placed + [pair]) == KeysWith(KeysOf(x, routes, placed), routes[pair.1], x.programs[pair.0])
  {
    assert (placed + [pair])[..|placed|] == placed;
  }

  datatype Tables = Tables(fixture: Fixture, instances: seq<Instance>, ids: Ids)

  const EMPTY := Tables(Fixture([], [], [], []), [], Ids(map[], map[], map[]))

  function GeometryAdded(t: Tables, path: string, source: Geometry): Tables {
    if path in t.ids.geometry then t else
      var next := |t.fixture.geometries| + 1;
      t.(fixture := t.fixture.(geometries := t.fixture.geometries + [source.(id := next, path := path)]),
         ids := t.ids.(geometry := t.ids.geometry[path := next]))
  }

  function ComponentAdded(t: Tables, path: string, component: int, geometryId: nat, source: Component): Tables {
    if (path, component) in t.ids.component then t else
      var next := |t.fixture.components| + 1;
      var row := source.(id := next, geometryId := geometryId, renderTargetId := next);
      t.(fixture := t.fixture.(components := t.fixture.components + [row]),
         ids := t.ids.(component := t.ids.component[(path, component) := next]))
  }

  function ChannelAdded(t: Tables, context: string, channel: int, source: Channel, offsets: seq<int>): Tables {
    if (context, channel) in t.ids.channel then t else
      var next := |t.fixture.channels| + 1;
      t.(fixture := t.fixture.(channels := t.fixture.channels + [source.(id := next, sourceProgramId := 0, offsets := offsets)]),
         ids := t.ids.(channel := t.ids.channel[(context, channel) := next]))
  }

  /** The tables after rows for one copy of `source` exist. */
  function RowsAdded(x: Fixture, t: Tables, source: Program, route: Route, offsets: seq<int>): (r: Tables)
    requires ParsedProgram(x, source)
    ensures route.path in r.ids.geometry && (route.path, source.componentId) in r.ids.component
    ensures (route.context, source.channelId) in r.ids.channel
  {
    var t1 := GeometryAdded(t, route.path, x.geometries[source.geometryId - 1]);
    var t2 := ComponentAdded(t1, route.path, source.componentId, t1.ids.geometry[route.path],
      x.components[source.componentId - 1]);
    ChannelAdded(t2, route.context, source.channelId, x.channels[source.channelId - 1], offsets)
  }

  /** A copy under the ids that its path, component and channel have. */
  function WithIds(ids: Ids, source: Program, route: Route, adjusted: Program, k: nat): Program
    requires route.path in ids.geometry && (route.path, source.componentId) in ids.component
    requires (route.context, source.channelId) in ids.channel
  {
    adjusted.(id := k + 1, geometryId := ids.geometry[route.path],
      componentId := ids.component[(route.path, source.componentId)],
      channelId := ids.channel[(route.context, source.channelId)])
  }

  function CopyAdded(x: Fixture, t: Tables, source: Program, route: Route, adjusted: Program): Tables
    requires ParsedProgram(x, source)
  {
    var rows := RowsAdded(x, t, source, route, adjusted.offsets);
    var copy := WithIds(rows.ids, source, route, adjusted, |rows.fixture.programs|);
    var channels := Claim(rows.fixture.channels, copy.channelId, copy.id);
    rows.(fixture := rows.fixture.(channels := channels, programs := rows.fixture.programs + [copy]),
          instances := rows.instances + [Instance(source.id, route.context)])
  }

  /** The tables after the copies `placed`, in this order; pairs without a copy add nothing. */
  ghost function TablesOf(f: Forest, x: Fixture, routes: seq<Route>, placed: seq<(nat, nat)>): Tables
    requires Parsed(x) && RoutesOk(f, routes)
  {
    if placed == [] then EMPTY else
      var last := |placed| - 1;
      PairAdded(f, x, routes, TablesOf(f, x, routes, placed[..last]), placed[last])
  }

  ghost predicate Placeable(f: Forest, x: Fixture, routes: seq<Route>, pair: (nat, nat))
    requires Parsed(x) && RoutesOk(f, routes)
  {
    && pair.0 < |x.programs| && pair.1 < |routes| && OnGeometry(x, pair.0, routes[pair.1].name)
    && Copy(f, x, routes, pair.0, pair.1).Some?
  }

  ghost function PairAdded(f: Forest, x: Fixture, routes: seq<Route>, t: Tables, pair: (nat, nat)): Tables
    requires Parsed(x) && RoutesOk(f, routes)
  {
    if !Placeable(f, x, routes, pair) then t else
      assert ParsedProgram(x, x.programs[pair.0]);
      CopyAdded(x, t, x.programs[pair.0], routes[pair.1], Copy(f, x, routes, pair.0, pair.1).value)
  }

  lemma TablesOfStep(f: Forest, x: Fixture, routes: seq<Route>, placed: seq<(nat, nat)>, pair: (nat, nat))
    requires Parsed(x) && RoutesOk(f, routes)
    ensures TablesOf(f, x, routes, placed + [pair]) == PairAdded(f, x, routes, TablesOf(f, x, routes, placed), pair)
  {
    assert (placed + [pair])[..|placed|] == placed;
  }

  ghost predicate IdsFit(ids: map<(string, int), nat>, rows: nat) {
    forall key :: key in ids ==> 1 <= ids[key] <= rows
  }

  lemma ChannelPart(x: Fixture, t: Tables, route: Route, source: Program, offsets: seq<int>)
    requires ParsedProgram(x, source)
    ensures var rows := RowsAdded(x, t, source, route, offsets);
            var alone := ChannelAdded(t, route.context, source.channelId, x.channels[source.channelId - 1], offsets);
            rows.fixture.channels == alone.fixture.channels && rows.ids.channel == alone.ids.channel
  {
  }

  lemma PairKeepsFit(f: Forest, x: Fixture, routes: seq<Route>, t: Tables, pair: (nat, nat))
    requires Parsed(x) && RoutesOk(f, routes) && IdsFit(t.ids.channel, |t.fixture.channels|)
    ensures var after := PairAdded(f, x, routes, t, pair); IdsFit(after.ids.channel, |after.fixture.channels|)
  {
    if Placeable(f, x, routes, pair) {
      assert ParsedProgram(x, x.programs[pair.0]);
      var adjusted := Copy(f, x, routes, pair.0, pair.1).value;
      ChannelPart(x, t, routes[pair.1], x.programs[pair.0], adjusted.offsets);
    }
  }

  lemma {:induction false} ChannelsFit(f: Forest, x: Fixture, routes: seq<Route>, placed: seq<(nat, nat)>)
    requires Parsed(x) && RoutesOk(f, routes)
    ensures var t := TablesOf(f, x, routes, placed); IdsFit(t.ids.channel, |t.fixture.channels|)
  {
    if placed != [] {
      var init, pair := placed[..|placed| - 1], placed[|placed| - 1];
      ChannelsFit(f, x, routes, init);
      PairKeepsFit(f, x, routes, TablesOf(f, x, routes, init), pair);
    }
  }

  ghost predicate IdsExtend(before: Ids, after: Ids) {
    && Extends(before.geometry, after.geometry) && Extends(before.component, after.component)
    && Extends(before.channel, after.channel)
  }

  /** The compiled copy `k`: a renumbered copy whose ids stand for its path, its component and its channel. */
  ghost predicate Placed(f: Forest, x: Fixture, routes: seq<Route>, pair: (nat, nat), k: nat, program: Program, ids: Ids)
    requires Parsed(x) && RoutesOk(f, routes)
  {
    && pair.0 < |x.programs| && pair.1 < |routes| && Copy(f, x, routes, pair.0, pair.1).Some?
    && Renumbered(x.programs[pair.0], routes[pair.1], Copy(f, x, routes, pair.0, pair.1).value, k, program, ids)
  }

  predicate Renumbered(source: Program, route: Route, copy: Program, k: nat, program: Program, ids: Ids) {
    && route.path in ids.geometry
    && (route.path, source.componentId) in ids.component
    && (route.context, source.channelId) in ids.channel
    && program == WithIds(ids, source, route, copy, k)
  }

  ghost predicate AllPlaced(f: Forest, x: Fixture, routes: seq<Route>, placed: seq<(nat, nat)>, programs: seq<Program>,
                            instances: seq<Instance>, ids: Ids)
    requires Parsed(x) && RoutesOk(f, routes)
  {
    && |programs| == |instances| == |placed|
    && (forall k :: 0 <= k < |programs| ==> Placed(f, x, routes, placed[k], k, programs[k], ids))
    && (forall k :: 0 <= k < |programs| ==> InstanceOk(x, routes, placed[k], instances[k]))
  }

  predicate InstanceOk(x: Fixture, routes: seq<Route>, pair: (nat, nat), instance: Instance) {
    && pair.0 < |x.programs| && pair.1 < |routes|
    && instance == Instance(x.programs[pair.0].id, routes[pair.1].context)
  }

  lemma PlacedStep(f: Forest, x: Fixture, routes: seq<Route>, placed: seq<(nat, nat)>, programs: seq<Program>,
                   instances: seq<Instance>, before: Ids, after: Ids, pair: (nat, nat), copy: Program, program: Program,
                   instance: Instance)
    requires Parsed(x) && RoutesOk(f, routes) && AllPlaced(f, x, routes, placed, programs, instances, before)
    requires IdsExtend(before, after) && InstanceOk(x, routes, pair, instance)
    requires Copy(f, x, routes, pair.0, pair.1) == Some(copy)
    requires Renumbered(x.programs[pair.0], routes[pair.1], copy, |programs|, program, after)
    ensures AllPlaced(f, x, routes, placed + [pair], programs + [program], instances + [instance], after)
  {
    forall k | 0 <= k < |programs| ensures Placed(f, x, routes, placed[k], k, programs[k], after) {
      assert Placed(f, x, routes, placed[k], k, programs[k], before);
    }
  }

  // ----- what the tables hold -----

  ghost predicate TablesOk(t: Tables, keys: Keys, routes: seq<Route>) {
    && GeometriesOk(t.fixture.geometries, t.ids.geometry, keys.geometry, routes)
    && ComponentsOk(t.fixture.components, t.ids.component, keys.component, t.ids.geometry)
    && ChannelsOk(t.fixture.channels, t.ids.channel, keys.channel)
  }

  lemma GeometryPart(x: Fixture, t: Tables, route: Route, source: Program, offsets: seq<int>)
    requires ParsedProgram(x, source)
    ensures var rows := RowsAdded(x, t, source, route, offsets);
            var alone := GeometryAdded(t, route.path, x.geometries[source.geometryId - 1]);
            rows.fixture.geometries == alone.fixture.geometries && rows.ids.geometry == alone.ids.geometry
  {
  }

  lemma GeometryAddedOk(t: Tables, keys: seq<string>, routes: seq<Route>, r: nat, source: Geometry)
    requires GeometriesOk(t.fixture.geometries, t.ids.geometry, keys, routes)
    requires r < |routes| && routes[r].name == source.name
    ensures var path, after := routes[r].path, GeometryAdded(t, routes[r].path, source);
            && GeometriesOk(after.fixture.geometries, after.ids.geometry, With(keys, path), routes)
            && Extends(t.ids.geometry, after.ids.geometry)
  {
    if routes[r].path !in t.ids.geometry {
      IndexesStep(t.ids.geometry, keys, routes[r].path);
      assert OnRoute(routes[r].path, source.name, routes);
    }
  }

  lemma GeometryRowOk(x: Fixture, t: Tables, keys: seq<string>, routes: seq<Route>, r: nat, source: Program,
                      offsets: seq<int>)
    requires GeometriesOk(t.fixture.geometries, t.ids.geometry, keys, routes) && ParsedProgram(x, source)
    requires r < |routes| && x.geometries[source.geometryId - 1].name == routes[r].name
    ensures var rows := RowsAdded(x, t, source, routes[r], offsets);
            && GeometriesOk(rows.fixture.geometries, rows.ids.geometry, With(keys, routes[r].path), routes)
            && Extends(t.ids.geometry, rows.ids.geometry)
  {
    GeometryPart(x, t, routes[r], source, offsets);
    GeometryAddedOk(t, keys, routes, r, x.geometries[source.geometryId - 1]);
  }

  lemma ComponentPart(x: Fixture, t: Tables, route: Route, source: Program, offsets: seq<int>)
    requires ParsedProgram(x, source)
    ensures var rows := RowsAdded(x, t, source, route, offsets);
            var alone := ComponentAdded(t, route.path, source.componentId, rows.ids.geometry[route.path],
              x.components[source.componentId - 1]);
            rows.fixture.components == alone.fixture.components && rows.ids.component == alone.ids.component
  {
  }

  lemma ComponentAddedOk(t: Tables, keys: seq<(string, int)>, geometryIds: map<string, nat>, path: string,
                         component: int, source: Component)
    requires ComponentsOk(t.fixture.components, t.ids.component, keys, geometryIds) && path in geometryIds
    ensures var after := ComponentAdded(t, path, component, geometryIds[path], source);
            && ComponentsOk(after.fixture.components, after.ids.component, With(keys, (path, component)), geometryIds)
            && Extends(t.ids.component, after.ids.component)
  {
    if (path, component) !in t.ids.component {
      IndexesStep(t.ids.component, keys, (path, component));
    }
  }

  lemma ComponentRowOk(x: Fixture, t: Tables, keys: seq<(string, int)>, route: Route, source: Program, offsets: seq<int>)
    requires ComponentsOk(t.fixture.components, t.ids.component, keys, t.ids.geometry) && ParsedProgram(x, source)
    requires Extends(t.ids.geometry, RowsAdded(x, t, source, route, offsets).ids.geometry)
    ensures var rows, key := RowsAdded(x, t, source, route, offsets), (route.path, source.componentId);
            && ComponentsOk(rows.fixture.components, rows.ids.component, With(keys, key), rows.ids.geometry)
            && Extends(t.ids.component, rows.ids.component)
  {
    var geometryIds := RowsAdded(x, t, source, route, offsets).ids.geometry;
    ComponentPart(x, t, route, source, offsets);
    ComponentsExtend(t.fixture.components, t.ids.component, keys, t.ids.geometry, geometryIds);
    ComponentAddedOk(t, keys, geometryIds, route.path, source.componentId, x.components[source.componentId - 1]);
  }

  lemma ChannelIsOpened(x: Fixture, t: Tables, keys: seq<(string, int)>, route: Route, source: Program, offsets: seq<int>)
    requires ChannelsOk(t.fixture.channels, t.ids.channel, keys) && ParsedProgram(x, source)
    ensures var rows, key := RowsAdded(x, t, source, route, offsets), (route.context, source.channelId);
            && 1 <= rows.ids.channel[key] <= |t.fixture.channels| + 1
            && rows.fixture.channels == Opened(t.fixture.channels, rows.ids.channel[key], offsets)
  {
    var key := (route.context, source.channelId);
    if key in t.ids.channel {
      assert IdOf(t.ids.channel[key], keys, key);
    }
  }

  lemma ChannelAddedOk(t: Tables, keys: seq<(string, int)>, context: string, channel: int, source: Channel, offsets: seq<int>)
    requires ChannelsOk(t.fixture.channels, t.ids.channel, keys)
    ensures var after := ChannelAdded(t, context, channel, source, offsets);
            && ChannelsOk(after.fixture.channels, after.ids.channel, With(keys, (context, channel)))
            && Extends(t.ids.channel, after.ids.channel)
  {
    if (context, channel) !in t.ids.channel {
      IndexesStep(t.ids.channel, keys, (context, channel));
    }
  }

  lemma ChannelRowOk(x: Fixture, t: Tables, keys: seq<(string, int)>, route: Route, source: Program, offsets: seq<int>)
    requires ChannelsOk(t.fixture.channels, t.ids.channel, keys) && ParsedProgram(x, source)
    ensures var rows, key := RowsAdded(x, t, source, route, offsets), (route.context, source.channelId);
            ChannelsOk(rows.fixture.channels, rows.ids.channel, With(keys, key)) && Extends(t.ids.channel, rows.ids.channel)
  {
    ChannelPart(x, t, route, source, offsets);
    ChannelAddedOk(t, keys, route.context, source.channelId, x.channels[source.channelId - 1], offsets);
  }

  lemma RowsAddedOk(x: Fixture, t: Tables, keys: Keys, routes: seq<Route>, r: nat, source: Program, offsets: seq<int>)
    requires TablesOk(t, keys, routes) && ParsedProgram(x, source) && r < |routes|
    requires x.geometries[source.geometryId - 1].name == routes[r].name
    ensures var rows := RowsAdded(x, t, source, routes[r], offsets);
            TablesOk(rows, KeysWith(keys, routes[r], source), routes) && IdsExtend(t.ids, rows.ids)
  {
    GeometryRowOk(x, t, keys.geometry, routes, r, source, offsets);
    ComponentRowOk(x, t, keys.component, routes[r], source, offsets);
    ChannelRowOk(x, t, keys.channel, routes[r], source, offsets);
  }

  lemma ClaimKeepsRows(channels: seq<Channel>, ids: map<(string, int), nat>, keys: seq<(string, int)>, channel: int, program: int)
    requires ChannelsOk(channels, ids, keys)
    ensures ChannelsOk(Claim(channels, channel, program), ids, keys)
  {
  }

  ghost predicate RowsHold(x: Fixture, routes: seq<Route>, placed: seq<(nat, nat)>, t: Tables) {
    match t
    case Tables(fixture, _, _) =>
      && InBounds(x, routes, placed) && TablesOk(t, KeysOf(x, routes, placed), routes)
      && Claims(fixture.channels, fixture.programs)
  }

  /** The rows, the ids and the channel claims of an expansion are those of the copies `placed`, and so are the copies. */
  ghost predicate TablesHold(f: Forest, x: Fixture, routes: seq<Route>, placed: seq<(nat, nat)>, t: Tables)
    requires Parsed(x) && RoutesOk(f, routes)
  {
    match t
    case Tables(fixture, instances, ids) =>
      RowsHold(x, routes, placed, t) && AllPlaced(f, x, routes, placed, fixture.programs, instances, ids)
  }

  /** The new copy has rows of its own or shares them, and claims its channel if it is the first to use it. */
  lemma CopyKeepsRows(x: Fixture, routes: seq<Route>, t: Tables, keys: Keys, source: Program, r: nat, adjusted: Program)
    requires TablesOk(t, keys, routes) && Claims(t.fixture.channels, t.fixture.programs)
    requires ParsedProgram(x, source) && r < |routes| && x.geometries[source.geometryId - 1].name == routes[r].name
    ensures var after := CopyAdded(x, t, source, routes[r], adjusted);
            && TablesOk(after, KeysWith(keys, routes[r], source), routes)
            && Claims(after.fixture.channels, after.fixture.programs) && IdsExtend(t.ids, after.ids)
  {
    var rows := RowsAdded(x, t, source, routes[r], adjusted.offsets);
    var copy := WithIds(rows.ids, source, routes[r], adjusted, |rows.fixture.programs|);
    RowsAddedOk(x, t, keys, routes, r, source, adjusted.offsets);
    ChannelIsOpened(x, t, keys.channel, routes[r], source, adjusted.offsets);
    ClaimsStep(t.fixture.channels, t.fixture.programs, copy);
    ClaimKeepsRows(rows.fixture.channels, rows.ids.channel, KeysWith(keys, routes[r], source).channel, copy.channelId, copy.id);
  }

  lemma PairKeepsRows(f: Forest, x: Fixture, routes: seq<Route>, placed: seq<(nat, nat)>, t: Tables, pair: (nat, nat))
    requires Parsed(x) && RoutesOk(f, routes) && RowsHold(x, routes, placed, t) && Placeable(f, x, routes, pair)
    ensures RowsHold(x, routes, placed + [pair], PairAdded(f, x, routes, t, pair))
    ensures IdsExtend(t.ids, PairAdded(f, x, routes, t, pair).ids)
  {
    assert ParsedProgram(x, x.programs[pair.0]);
    var adjusted := Copy(f, x, routes, pair.0, pair.1).value;
    CopyKeepsRows(x, routes, t, KeysOf(x, routes, placed), x.programs[pair.0], pair.1, adjusted);
    KeysStep(x, routes, placed, pair);
  }

  lemma PairKeepsCopies(f: Forest, x: Fixture, routes: seq<Route>, placed: seq<(nat, nat)>, t: Tables, pair: (nat, nat))
    requires Parsed(x) && RoutesOk(f, routes) && Placeable(f, x, routes, pair)
    requires AllPlaced(f, x, routes, placed, t.fixture.programs, t.instances, t.ids)
    requires IdsExtend(t.ids, PairAdded(f, x, routes, t, pair).ids)
    ensures var after := PairAdded(f, x, routes, t, pair);
            AllPlaced(f, x, routes, placed + [pair], after.fixture.programs, after.instances, after.ids)
  {
    assert ParsedProgram(x, x.programs[pair.0]);
    var source, adjusted, after := x.programs[pair.0], Copy(f, x, routes, pair.0, pair.1).value, PairAdded(f, x, routes, t, pair);
    var copy := after.fixture.programs[|t.fixture.programs|];
    PlacedStep(f, x, routes, placed, t.fixture.programs, t.instances, t.ids, after.ids, pair, adjusted, copy,
      Instance(source.id, routes[pair.1].context));
  }

  ghost predicate AllPlaceable(f: Forest, x: Fixture, routes: seq<Route>, placed: seq<(nat, nat)>)
    requires Parsed(x) && RoutesOk(f, routes)
  {
    placed == [] || (
      AllPlaceable(f, x, routes, placed[..|placed| - 1]) && Placeable(f, x, routes, placed[|placed| - 1]))
  }

  lemma NothingPlaced(f: Forest, x: Fixture, routes: seq<Route>)
    requires Parsed(x) && RoutesOk(f, routes)
    ensures RowsHold(x, routes, [], TablesOf(f, x, routes, []))
  {
  }

  lemma RowsStep(f: Forest, x: Fixture, routes: seq<Route>, init: seq<(nat, nat)>, pair: (nat, nat))
    requires Parsed(x) && RoutesOk(f, routes) && Placeable(f, x, routes, pair)
    requires RowsHold(x, routes, init, TablesOf(f, x, routes, init))
    ensures RowsHold(x, routes, init + [pair], TablesOf(f, x, routes, init + [pair]))
  {
    TablesOfStep(f, x, routes, init, pair);
    PairKeepsRows(f, x, routes, init, TablesOf(f, x, routes, init), pair);
  }

  lemma {:induction false} RowsAlwaysHold(f: Forest, x: Fixture, routes: seq<Route>, placed: seq<(nat, nat)>)
    requires Parsed(x) && RoutesOk(f, routes) && AllPlaceable(f, x, routes, placed)
    ensures RowsHold(x, routes, placed, TablesOf(f, x, routes, placed))
  {
    if placed != [] {
      var init, pair := placed[..|placed| - 1], placed[|placed| - 1];
      assert placed == init + [pair];
      RowsAlwaysHold(f, x, routes, init);
      RowsStep(f, x, routes, init, pair);
    } else {
      NothingPlaced(f, x, routes);
    }
  }

  lemma CopiesStep(f: Forest, x: Fixture, routes: seq<Route>, init: seq<(nat, nat)>, pair: (nat, nat))
    requires Parsed(x) && RoutesOk(f, routes) && Placeable(f, x, routes, pair)
    requires RowsHold(x, routes, init, TablesOf(f, x, routes, init))
    requires var t := TablesOf(f, x, routes, init); AllPlaced(f, x, routes, init, t.fixture.programs, t.instances, t.ids)
    ensures var t := TablesOf(f, x, routes, init + [pair]);
            AllPlaced(f, x, routes, init + [pair], t.fixture.programs, t.instances, t.ids)
  {
    TablesOfStep(f, x, routes, init, pair);
    PairKeepsRows(f, x, routes, init, TablesOf(f, x, routes, init), pair);
    PairKeepsCopies(f, x, routes, init, TablesOf(f, x, routes, init), pair);
  }

  lemma {:induction false} CopiesAlwaysHold(f: Forest, x: Fixture, routes: seq<Route>, placed: seq<(nat, nat)>)
    requires Parsed(x) && RoutesOk(f, routes) && AllPlaceable(f, x, routes, placed)
    ensures var t := TablesOf(f, x, routes, placed);
            AllPlaced(f, x, routes, placed, t.fixture.programs, t.instances, t.ids)
  {
    if placed != [] {
      var init, pair := placed[..|placed| - 1], placed[|placed| - 1];
      assert placed == init + [pair];
      CopiesAlwaysHold(f, x, routes, init);
      RowsAlwaysHold(f, x, routes, init);
      CopiesStep(f, x, routes, init, pair);
    }
  }

  /** Whatever copies are made, in whatever order, every table entry is accounted for. */
  lemma TablesAlwaysHold(f: Forest, x: Fixture, routes: seq<Route>, placed: seq<(nat, nat)>)
    requires Parsed(x) && RoutesOk(f, routes) && AllPlaceable(f, x, routes, placed)
    ensures TablesHold(f, x, routes, placed, TablesOf(f, x, routes, placed))
  {
    RowsAlwaysHold(f, x, routes, placed);
    CopiesAlwaysHold(f, x, routes, placed);
  }

  ghost predicate PathUsed(routes: seq<Route>, placed: seq<(nat, nat)>, path: string) {
    exists k :: 0 <= k < |placed| && placed[k].1 < |routes| && routes[placed[k].1].path == path
  }

  ghost predicate ComponentUsed(x: Fixture, routes: seq<Route>, placed: seq<(nat, nat)>, key: (string, int)) {
    exists k :: 0 <= k < |placed| && placed[k].0 < |x.programs| && placed[k].1 < |routes| &&
      key == (routes[placed[k].1].path, x.programs[placed[k].0].componentId)
  }

  ghost predicate ChannelUsed(x: Fixture, routes: seq<Route>, placed: seq<(nat, nat)>, key: (string, int)) {
    exists k :: 0 <= k < |placed| && placed[k].0 < |x.programs| && placed[k].1 < |routes| &&
      key == (routes[placed[k].1].context, x.programs[placed[k].0].channelId)
  }

  lemma UsedGrows(x: Fixture, routes: seq<Route>, init: seq<(nat, nat)>, pair: (nat, nat))
    requires pair.0 < |x.programs| && pair.1 < |routes|
    ensures var placed, route, program := init + [pair], routes[pair.1], x.programs[pair.0];
            && (forall path :: PathUsed(routes, placed, path) <==> PathUsed(routes, init, path) || path == route.path)
            && (forall key :: ComponentUsed(x, routes, placed, key) <==>
                  ComponentUsed(x, routes, init, key) || key == (route.path, program.componentId))
            && (forall key :: ChannelUsed(x, routes, placed, key) <==>
                  ChannelUsed(x, routes, init, key) || key == (route.context, program.channelId))
  {
    var placed := init + [pair];
    assert placed[|init|] == pair && forall k :: 0 <= k < |init| ==> placed[k] == init[k];
  }

  /** Each table has one row per key, for exactly the keys in use: paths, components on a path, channels in a context. */
  lemma {:induction false} KeysExact(x: Fixture, routes: seq<Route>, placed: seq<(nat, nat)>)
    requires InBounds(x, routes, placed)
    ensures var keys := KeysOf(x, routes, placed);
            && Distinct(keys.geometry) && Distinct(keys.component) && Distinct(keys.channel)
            && (forall path :: path in keys.geometry <==> PathUsed(routes, placed, path))
            && (forall key :: key in keys.component <==> ComponentUsed(x, routes, placed, key))
            && (forall key :: key in keys.channel <==> ChannelUsed(x, routes, placed, key))
  {
    if placed != [] {
      var init, pair := placed[..|placed| - 1], placed[|placed| - 1];
      assert placed == init + [pair];
      KeysExact(x, routes, init);
      UsedGrows(x, routes, init, pair);
    }
  }
}
