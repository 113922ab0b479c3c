/** What ids and master references of the copies mean: which copies share a row, and which copy a condition names. */
module InstanceLinks {
  import opened Prelude
  import opened ModeMasterGraph
  import opened GeometryRoutes
  import opened InstanceRouting
  import opened InstanceTables

  predicate Conditional(p: Program) {
    !p.master.kind.NoMaster? && p.master.valid
  }

  function LastInstance(instances: seq<Instance>, id: int, context: string, upTo: nat): (r: Option<nat>)
    requires upTo <= |instances|
    ensures r.Some? ==> r.value < upTo && instances[r.value] == Instance(id, context)
    ensures r.Some? ==> forall j :: r.value < j < upTo ==> instances[j] != Instance(id, context)
    ensures r.None? ==> forall j :: 0 <= j < upTo ==> instances[j] != Instance(id, context)
  {
    if upTo == 0 then None
    else if instances[upTo - 1] == Instance(id, context) then Some(upTo - 1)
    else LastInstance(instances, id, context, upTo - 1)
  }

  function MasterOf(programs: seq<Program>, instances: seq<Instance>, k: nat): (r: Option<nat>)
    requires k < |programs| == |instances|
    ensures r.Some? ==> r.value < |programs|
  {
    var id := programs[k].master.masterProgramId;
    var near := LastInstance(instances, id, instances[k].context, |instances|);
    if near.Some? then near else LastInstance(instances, id, "", |instances|)
  }

  ghost predicate MastersFound(programs: seq<Program>, instances: seq<Instance>)
    requires |programs| == |instances|
  {
    forall k :: 0 <= k < |programs| && Conditional(programs[k]) ==> MasterOf(programs, instances, k).Some?
  }

  function Linked(p: Program, master: Program): Program {
    p.(master := p.master.(masterProgramId := master.id,
         targetId := if p.master.kind.DmxChannel? then master.channelId else master.id),
       masterChannelId := master.channelId)
  }

  function Relinked(programs: seq<Program>, instances: seq<Instance>, k: nat): Program
    requires k < |programs| == |instances|
  {
    if Conditional(programs[k]) && MasterOf(programs, instances, k).Some?
    then Linked(programs[k], programs[MasterOf(programs, instances, k).value]) else programs[k]
  }

  /** What a copy keeps of its program, and what the linker knows of it. */
  ghost predicate Kept(x: Fixture, routes: seq<Route>, pair: (nat, nat), k: nat, program: Program, instance: Instance) {
    && pair.0 < |x.programs| && pair.1 < |routes| && program.id == k + 1
    && program.master == x.programs[pair.0].master
    && instance == Instance(x.programs[pair.0].id, routes[pair.1].context)
  }

  ghost predicate AllKept(x: Fixture, routes: seq<Route>, placed: seq<(nat, nat)>, programs: seq<Program>,
                          instances: seq<Instance>) {
    && |programs| == |instances| == |placed|
    && forall k :: 0 <= k < |programs| ==> Kept(x, routes, placed[k], k, programs[k], instances[k])
  }

  lemma CopiesAreKept(f: Forest, x: Fixture, routes: seq<Route>, placed: seq<(nat, nat)>, programs: seq<Program>,
                      instances: seq<Instance>, ids: Ids)
    requires Parsed(x) && RoutesOk(f, routes) && AllPlaced(f, x, routes, placed, programs, instances, ids)
    ensures AllKept(x, routes, placed, programs, instances)
  {
    forall k | 0 <= k < |programs| ensures Kept(x, routes, placed[k], k, programs[k], instances[k]) {
      assert Placed(f, x, routes, placed[k], k, programs[k], ids) && InstanceOk(x, routes, placed[k], instances[k]);
      CopyMoves(f, x, routes, placed[k].0, placed[k].1);
    }
  }

  /** `found` is the wanted instance in the context, or the one outside references when the context has none. */
  ghost predicate NearestMaster(instances: seq<Instance>, found: Instance, id: int, context: string) {
    || found == Instance(id, context)
    || (found == Instance(id, "") && forall j :: 0 <= j < |instances| ==> instances[j] != Instance(id, context))
  }

  lemma MasterIsNearest(programs: seq<Program>, instances: seq<Instance>, k: nat)
    requires k < |programs| == |instances| && MasterOf(programs, instances, k).Some?
    ensures NearestMaster(instances, instances[MasterOf(programs, instances, k).value],
              programs[k].master.masterProgramId, instances[k].context)
  {
  }

  /**
    A relinked condition names, by its new id, a copy of the very master it named before: the copy under the same
    reference, or the one outside references when there is none under this one, and the last of several. It names that
    copy's channel too and points at the channel or the copy as its kind demands; nothing else changes.
  */
  lemma LinksStayInContext(x: Fixture, routes: seq<Route>, placed: seq<(nat, nat)>, programs: seq<Program>,
                           instances: seq<Instance>, k: nat)
    requires AllKept(x, routes, placed, programs, instances)
    requires k < |programs| && !programs[k].master.kind.NoMaster? && programs[k].master.valid
    requires MasterOf(programs, instances, k).Some?
    ensures placed[k].0 < |x.programs| && placed[k].1 < |routes|
    ensures var linked := Relinked(programs, instances, k);
            var t := linked.master.masterProgramId - 1;
            && 0 <= t < |programs| && programs[t].id == t + 1 && linked.masterChannelId == programs[t].channelId
            && linked.master.targetId == (if linked.master.kind.DmxChannel? then programs[t].channelId else t + 1)
            && linked.master == programs[k].master.(masterProgramId := t + 1, targetId := linked.master.targetId)
            && linked == programs[k].(master := linked.master, masterChannelId := linked.masterChannelId)
            && (forall j :: t < j < |instances| ==> instances[j] != instances[t])
            && placed[t].0 < |x.programs| && placed[t].1 < |routes|
            && NearestMaster(instances, Instance(x.programs[placed[t].0].id, routes[placed[t].1].context),
                 x.programs[placed[k].0].master.masterProgramId, routes[placed[k].1].context)
  {
    var t := MasterOf(programs, instances, k).value;
    MasterIsNearest(programs, instances, k);
    assert Kept(x, routes, placed[k], k, programs[k], instances[k]);
    assert Kept(x, routes, placed[t], t, programs[t], instances[t]);
  }

  /** A copy without a condition, or with an invalid one, stays as it is. */
  lemma UnconditionalStays(programs: seq<Program>, instances: seq<Instance>, k: nat)
    requires k < |programs| == |instances| && (programs[k].master.kind.NoMaster? || !programs[k].master.valid)
    ensures Relinked(programs, instances, k) == programs[k]
  {
  }

  /** The id of a key, and the row that it stands for. */
  ghost predicate HasId<K(!new)>(id: int, ids: map<K, nat>, keys: seq<K>, key: K) {
    key in ids && id == ids[key] && IdOf(ids[key], keys, key)
  }

  lemma SameIdSameKey<K(!new)>(a: int, b: int, ids: map<K, nat>, keys: seq<K>, key: K, other: K)
    requires HasId(a, ids, keys, key) && HasId(b, ids, keys, other)
    ensures a == b <==> key == other
  {
  }

  lemma CopyHasIds(f: Forest, x: Fixture, routes: seq<Route>, placed: seq<(nat, nat)>, programs: seq<Program>,
                   instances: seq<Instance>, ids: Ids, geometryKeys: seq<string>, componentKeys: seq<(string, int)>,
                   channelKeys: seq<(string, int)>, a: nat)
    requires Parsed(x) && RoutesOk(f, routes) && AllPlaced(f, x, routes, placed, programs, instances, ids)
    requires Indexes(ids.geometry, geometryKeys) && Indexes(ids.component, componentKeys)
    requires Indexes(ids.channel, channelKeys) && a < |programs|
    ensures placed[a].0 < |x.programs| && placed[a].1 < |routes|
    ensures HasId(programs[a].geometryId, ids.geometry, geometryKeys, routes[placed[a].1].path)
    ensures HasId(programs[a].componentId, ids.component, componentKeys,
              (routes[placed[a].1].path, x.programs[placed[a].0].componentId))
    ensures HasId(programs[a].channelId, ids.channel, channelKeys,
              (routes[placed[a].1].context, x.programs[placed[a].0].channelId))
  {
    assert Placed(f, x, routes, placed[a], a, programs[a], ids);
  }

  /** Copies share an id exactly when they stand for the same thing: path, component on a path, channel in a context. */
  lemma IdsIdentify(f: Forest, x: Fixture, routes: seq<Route>, placed: seq<(nat, nat)>, programs: seq<Program>,
                    instances: seq<Instance>, ids: Ids, geometryKeys: seq<string>, componentKeys: seq<(string, int)>,
                    channelKeys: seq<(string, int)>, a: nat, b: nat)
    requires Parsed(x) && RoutesOk(f, routes) && AllPlaced(f, x, routes, placed, programs, instances, ids)
    requires Indexes(ids.geometry, geometryKeys) && Indexes(ids.component, componentKeys)
    requires Indexes(ids.channel, channelKeys) && a < |programs| && b < |programs|
    ensures placed[a].0 < |x.programs| && placed[b].0 < |x.programs|
    ensures placed[a].1 < |routes| && placed[b].1 < |routes|
    ensures var pa, pb, ra, rb := x.programs[placed[a].0], x.programs[placed[b].0], routes[placed[a].1], routes[placed[b].1];
            && (programs[a].geometryId == programs[b].geometryId <==> ra.path == rb.path)
            && (programs[a].componentId == programs[b].componentId <==> ra.path == rb.path && pa.componentId == pb.componentId)
            && (programs[a].channelId == programs[b].channelId <==> ra.context == rb.context && pa.channelId == pb.channelId)
  {
    CopyHasIds(f, x, routes, placed, programs, instances, ids, geometryKeys, componentKeys, channelKeys, a);
    CopyHasIds(f, x, routes, placed, programs, instances, ids, geometryKeys, componentKeys, channelKeys, b);
    var pa, pb, ra, rb := x.programs[placed[a].0], x.programs[placed[b].0], routes[placed[a].1], routes[placed[b].1];
    SameIdSameKey(programs[a].geometryId, programs[b].geometryId, ids.geometry, geometryKeys, ra.path, rb.path);
    SameIdSameKey(programs[a].componentId, programs[b].componentId, ids.component, componentKeys,
      (ra.path, pa.componentId), (rb.path, pb.componentId));
    SameIdSameKey(programs[a].channelId, programs[b].channelId, ids.channel, channelKeys,
      (ra.context, pa.channelId), (rb.context, pb.channelId));
  }
}
