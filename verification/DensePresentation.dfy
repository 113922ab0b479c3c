/** The dense presentation state as the object the renderer pipeline updates in place. */
module DensePresentation {
  import opened Prelude
  import opened DenseModel

  datatype OutputRequest = OutputRequest(canonicalId: int, scale: Float)
  datatype TargetBinding = TargetBinding(section: int, targetId: int, outputIndex: nat)

  ghost predicate OutputsOk(outputs: seq<OutputRequest>) {
    && (forall i :: 0 <= i < |outputs| ==>
          outputs[i].canonicalId > 0 && outputs[i].scale.Finite? && outputs[i].scale.value >= 0.0)
    && (forall i, j :: 0 <= i < j < |outputs| ==> outputs[i].canonicalId != outputs[j].canonicalId)
  }

  predicate TargetOk(target: TargetBinding, outputs: nat) {
    target.outputIndex < outputs && target.targetId > 0 && IsSection(target.section)
  }

  /** The outputs bound to a section and target. */
  ghost predicate Routed(targets: seq<TargetBinding>, key: (int, int), index: nat) {
    exists k :: 0 <= k < |targets| && (targets[k].section, targets[k].targetId) == key && targets[k].outputIndex == index
  }

  ghost predicate Bound(routes: Routes, key: (int, int), index: nat) {
    key in routes && index in routes[key]
  }

  ghost predicate RoutesMatch(routes: Routes, targets: seq<TargetBinding>) {
    forall key: (int, int), index: nat :: Bound(routes, key, index) <==> Routed(targets, key, index)
  }

  lemma RoutedStep(targets: seq<TargetBinding>, k: nat, key: (int, int), index: nat)
    requires k < |targets|
    ensures Routed(targets[..k + 1], key, index) <==>
              (Routed(targets[..k], key, index) ||
               ((targets[k].section, targets[k].targetId) == key && targets[k].outputIndex == index))
  {
    var longer, shorter := targets[..k + 1], targets[..k];
    if Routed(shorter, key, index) {
      var i :| 0 <= i < k && (shorter[i].section, shorter[i].targetId) == key && shorter[i].outputIndex == index;
      assert (longer[i].section, longer[i].targetId) == key && longer[i].outputIndex == index;
    }
    if (targets[k].section, targets[k].targetId) == key && targets[k].outputIndex == index {
      assert (longer[k].section, longer[k].targetId) == key && longer[k].outputIndex == index;
    }
  }

  lemma RouteAdded(targets: seq<TargetBinding>, k: nat, before: Routes, after: Routes)
    requires k < |targets| && RoutesMatch(before, targets[..k])
    requires var key := (targets[k].section, targets[k].targetId);
             var indices := if key in before then before[key] else [];
             after == before[key := if targets[k].outputIndex in indices then indices
                                    else indices + [targets[k].outputIndex]]
    ensures RoutesMatch(after, targets[..k + 1])
  {
    forall key: (int, int), index: nat
      ensures Bound(after, key, index) <==> Routed(targets[..k + 1], key, index)
    {
      RoutedStep(targets, k, key, index);
      assert Bound(before, key, index) <==> Routed(targets[..k], key, index);
      if key == (targets[k].section, targets[k].targetId) {
        var indices := if key in before then before[key] else [];
        assert index in after[key] <==> index in indices || index == targets[k].outputIndex;
      }
    }
  }

  predicate AllFinite(values: seq<Float>) {
    forall k :: 0 <= k < |values| ==> values[k].Finite?
  }

  function Reals(values: seq<Float>): (r: seq<real>)
    requires AllFinite(values)
    ensures |r| == |values| && forall k :: 0 <= k < |values| ==> r[k] == values[k].value
  {
    seq(|values|, k requires 0 <= k < |values| => values[k].value)
  }

  /** The set bits of a mask stored in a 32-bit signed column. */
  function Bits(x: int): Mask {
    set b | 0 <= b < 32 && x / Power2(b) % 2 == 1
  }

  // ----- section frames -----

  /** A block of five descriptor integers (section, rows, first integer, first float, unused) stays in its columns. */
  ghost predicate BlockFits(d: seq<int>, b: nat, integers: seq<int>, values: seq<Float>)
    requires b + 5 <= |d|
  {
    IsSection(d[b]) ==>
      && d[b + 1] >= 0 && d[b + 2] >= 0 && d[b + 3] >= 0
      && d[b + 2] + d[b + 1] * 3 <= |integers| && d[b + 3] + d[b + 1] * Stride(d[b]) <= |values|
      && AllFinite(values[d[b + 3]..d[b + 3] + d[b + 1] * Stride(d[b])])
  }

  ghost predicate FrameFits(d: seq<int>, integers: seq<int>, values: seq<Float>, upTo: nat) {
    upTo <= |d| && upTo % 5 == 0 && forall k: nat :: 5 * k + 5 <= upTo ==> BlockFits(d, 5 * k, integers, values)
  }

  lemma RowBounds(first: int, row: int, rows: int, stride: int, limit: int)
    requires first >= 0 && 0 <= row < rows && stride >= 0 && first + rows * stride <= limit
    ensures 0 <= first + row * stride && first + row * stride + stride <= first + rows * stride <= limit
  {
    assert row * stride + stride == (row + 1) * stride <= rows * stride;
    assert row * stride >= 0;
  }

  /** Row `row` of the block at `b`. */
  ghost function BlockRow(d: seq<int>, b: nat, integers: seq<int>, values: seq<Float>, row: nat): (r: Row)
    requires b + 5 <= |d| && IsSection(d[b]) && BlockFits(d, b, integers, values) && row < d[b + 1]
    ensures RowOk(r)
  {
    RowBounds(d[b + 2], row, d[b + 1], 3, |integers|);
    RowBounds(d[b + 3], row, d[b + 1], Stride(d[b]), |values|);
    var ib, vb := d[b + 2] + row * 3, d[b + 3] + row * Stride(d[b]);
    RowFinite(d, b, integers, values, row);
    Row(d[b], integers[ib + 1], Bits(integers[ib + 2]), Reals(values[vb..vb + Stride(d[b])]))
  }

  lemma RowFinite(d: seq<int>, b: nat, integers: seq<int>, values: seq<Float>, row: nat)
    requires b + 5 <= |d| && IsSection(d[b]) && BlockFits(d, b, integers, values) && row < d[b + 1]
    ensures var vb := d[b + 3] + row * Stride(d[b]);
            0 <= vb && vb + Stride(d[b]) <= |values| && AllFinite(values[vb..vb + Stride(d[b])])
  {
    RowBounds(d[b + 3], row, d[b + 1], Stride(d[b]), |values|);
    var vb := d[b + 3] + row * Stride(d[b]);
    var block := values[d[b + 3]..d[b + 3] + d[b + 1] * Stride(d[b])];
    var row := values[vb..vb + Stride(d[b])];
    forall k | 0 <= k < |row| ensures row[k].Finite? {
      assert row[k] == block[vb - d[b + 3] + k];
    }
  }

  ghost function BlockRowList(d: seq<int>, b: nat, integers: seq<int>, values: seq<Float>, upTo: nat): (rows: seq<Row>)
    requires b + 5 <= |d| && IsSection(d[b]) && BlockFits(d, b, integers, values) && upTo <= d[b + 1]
    ensures forall k :: 0 <= k < |rows| ==> RowOk(rows[k])
    decreases upTo
  {
    if upTo == 0 then [] else
      BlockRowList(d, b, integers, values, upTo - 1) + [BlockRow(d, b, integers, values, upTo - 1)]
  }

  /** The rows of all supported blocks of a frame, in order. */
  ghost function FrameRows(d: seq<int>, integers: seq<int>, values: seq<Float>, upTo: nat): (rows: seq<Row>)
    requires FrameFits(d, integers, values, upTo)
    ensures forall k :: 0 <= k < |rows| ==> RowOk(rows[k])
    decreases upTo
  {
    if upTo == 0 then [] else
      var b := upTo - 5;
      assert 5 * (b / 5) == b && BlockFits(d, 5 * (b / 5), integers, values);
      FrameRows(d, integers, values, b) +
      (if IsSection(d[b]) then BlockRowList(d, b, integers, values, d[b + 1]) else [])
  }

  lemma NextBlock(d: seq<int>, integers: seq<int>, values: seq<Float>, b: nat)
    requires FrameFits(d, integers, values, |d|) && b < |d| && b % 5 == 0
    ensures b + 5 <= |d| && BlockFits(d, b, integers, values) && FrameFits(d, integers, values, b)
    ensures FrameFits(d, integers, values, b + 5)
    ensures IsSection(d[b]) ==>
              FrameRows(d, integers, values, b + 5) ==
              FrameRows(d, integers, values, b) + BlockRowList(d, b, integers, values, d[b + 1])
    ensures !IsSection(d[b]) ==> FrameRows(d, integers, values, b + 5) == FrameRows(d, integers, values, b)
  {
    assert 5 * (b / 5) == b && BlockFits(d, 5 * (b / 5), integers, values);
  }

  ghost predicate RowsOk(rows: seq<Row>) {
    forall k :: 0 <= k < |rows| ==> RowOk(rows[k])
  }

  /** Applying `rows` to `start` has led to `now`, leaving `unresolved` of them without a route. */
  ghost predicate Progress(start: Held, routes: Routes, rows: seq<Row>, now: Held, unresolved: nat) {
    && RowsOk(rows) && RoutesOk(routes, |start.states|)
    && now == ApplyRows(start, routes, rows) && unresolved == Unresolved(routes, rows)
  }

  lemma ProgressStep(start: Held, routes: Routes, rows: seq<Row>, now: Held, unresolved: nat, row: Row)
    requires Progress(start, routes, rows, now, unresolved) && RowOk(row)
    ensures (row.section, row.target) in routes ==> RouteOk(routes[(row.section, row.target)], |now.states|)
    ensures Progress(start, routes, rows + [row], ApplyRow(now, routes, row),
              unresolved + (if (row.section, row.target) in routes then 0 else 1))
  {
    assert (rows + [row])[..|rows|] == rows;
  }

  class DensePresentationState {
    var generation: nat
    var bindings: seq<OutputBinding>
    var states: seq<OutputState>
    var dirty: seq<nat>
    var prepared: seq<PreparedOutput>
    var routes: Routes
    var representatives: seq<int>
    var groupMasks: seq<Mask>
    var preparedGroups: seq<PreparedOutput>
    var unresolvedRows: nat
    const visualGain: real -> real

    ghost function HeldState(): Held
      reads this`states, this`dirty
    {
      Held(states, dirty)
    }

    ghost function Configuration(): Setup
      reads this`bindings, this`representatives
    {
      Setup(bindings, representatives, visualGain)
    }

    /** Books balance, groups are well formed, and no group bit is left over between snapshots. */
    ghost predicate Valid()
      reads this`states, this`dirty, this`bindings, this`routes, this`representatives, this`groupMasks
    {
      && |bindings| == |states| && Bookkept(HeldState()) && RoutesOk(routes, |states|)
      && SetupOk(Configuration()) && |groupMasks| == |representatives|
      && forall r :: 0 <= r < |groupMasks| ==> groupMasks[r] == {}
    }

    constructor (visualGain: real -> real)
      ensures Valid() && states == [] && generation == 0 && this.visualGain == visualGain
    {
      this.visualGain := visualGain;
      generation, bindings, states, dirty, prepared, routes := 0, [], [], [], [], map[];
      representatives, groupMasks, preparedGroups, unresolvedRows := [], [], [], 0;
    }

    /** `token` is the next process-unique generation. */
    method Clear(token: nat)
      modifies this
      ensures Valid() && generation == token && states == [] && bindings == [] && routes == map[]
      ensures representatives == [] && groupMasks == [] && dirty == [] && prepared == [] && preparedGroups == []
      ensures unresolvedRows == 0
    {
      generation, bindings, states, dirty, prepared, routes := token, [], [], [], [], map[];
      representatives, groupMasks, preparedGroups, unresolvedRows := [], [], [], 0;
    }

    static method CheckOutputs(outputs: seq<OutputRequest>) returns (ok: bool)
      ensures ok <==> OutputsOk(outputs)
    {
      var ids: set<int> := {};
      for k := 0 to |outputs|
        invariant forall i :: 0 <= i < k ==>
                    outputs[i].canonicalId > 0 && outputs[i].scale.Finite? && outputs[i].scale.value >= 0.0
        invariant forall i, j :: 0 <= i < j < k ==> outputs[i].canonicalId != outputs[j].canonicalId
        invariant forall id :: id in ids <==> exists i :: 0 <= i < k && outputs[i].canonicalId == id
      {
        var output := outputs[k];
        if output.canonicalId <= 0 || output.canonicalId in ids || output.scale.NonFinite? || output.scale.value < 0.0 {
          return false;
        }
        ids := ids + {output.canonicalId};
      }
      return true;
    }

    static method BuildRoutes(targets: seq<TargetBinding>, outputs: nat) returns (ok: bool, routes: Routes)
      ensures ok <==> forall k :: 0 <= k < |targets| ==> TargetOk(targets[k], outputs)
      ensures ok ==> RoutesOk(routes, outputs)
      ensures ok ==> RoutesMatch(routes, targets)
    {
      routes := map[];
      for k := 0 to |targets|
        invariant forall i :: 0 <= i < k ==> TargetOk(targets[i], outputs)
        invariant RoutesOk(routes, outputs)
        invariant RoutesMatch(routes, targets[..k])
      {
        var target := targets[k];
        if target.outputIndex >= outputs || target.targetId <= 0 ||
           (target.section != 2 && target.section != 3 && target.section != 4) {
          return false, routes;
        }
        ghost var before := routes;
        var key := (target.section, target.targetId);
        var indices := if key in routes then routes[key] else [];
        if target.outputIndex !in indices {
          indices := indices + [target.outputIndex];
        }
        routes := routes[key := indices];
        RouteAdded(targets, k, before, routes);
      }
      assert targets[..|targets|] == targets;
      return true, routes;
    }

    /** Validates everything before touching anything; a rejected installation changes nothing. */
    method Install(outputs: seq<OutputRequest>, targets: seq<TargetBinding>, token: nat) returns (ok: bool)
      modifies this
      ensures ok <==> OutputsOk(outputs) && forall k :: 0 <= k < |targets| ==> TargetOk(targets[k], |outputs|)
      ensures !ok ==> unchanged(this)
      ensures ok ==> Valid() && generation == token && |states| == |outputs| && dirty == [] && representatives == []
      ensures ok ==> forall i :: 0 <= i < |outputs| ==>
                bindings[i] == OutputBinding(outputs[i].canonicalId, outputs[i].scale.value) && states[i] == InitialState()
      ensures ok ==> RoutesMatch(routes, targets)
    {
      ok := CheckOutputs(outputs);
      if !ok {
        return false;
      }
      var table: Routes;
      ok, table := BuildRoutes(targets, |outputs|);
      if !ok {
        return false;
      }
      Clear(token);
      bindings := seq(|outputs|, i requires 0 <= i < |outputs| => OutputBinding(outputs[i].canonicalId, outputs[i].scale.value));
      states := seq(|outputs|, _ => InitialState());
      routes := table;
    }

    method InstallGroups(groups: seq<int>) returns (ok: bool)
      requires Valid()
      modifies this
      ensures Valid()
      ensures ok <==> GroupsOk(old(bindings), groups)
      ensures !ok ==> unchanged(this)
      ensures ok ==> representatives == groups && bindings == old(bindings) && routes == old(routes)
      ensures ok ==> Invalidated(old(states), states)
    {
      if |groups| != |states| {
        return false;
      }
      for i := 0 to |groups|
        invariant forall j :: 0 <= j < i ==> MemberOk(bindings, groups, j)
      {
        var r := groups[i];
        if r < -1 || r >= |states| || (r >= 0 && (groups[r] != r || bindings[i].scale != bindings[r].scale)) {
          assert !MemberOk(bindings, groups, i);
          return false;
        }
      }
      representatives := groups;
      groupMasks := seq(|states|, _ => {});
      InvalidateRenderer();
      return true;
    }

    /** Replays every output to a new renderer, whatever was already pending. */
    method InvalidateRenderer()
      requires Valid()
      modifies this`states, this`dirty
      ensures Valid() && Invalidated(old(states), states)
    {
      for index := 0 to |states|
        invariant |states| == |old(states)| && Bookkept(HeldState())
        invariant forall i :: 0 <= i < index ==> states[i] == InvalidatedOne(old(states)[i])
        invariant forall i :: index <= i < |states| ==> states[i] == old(states)[i]
      {
        TouchKeepsBooks(HeldState(), index, {BEAM_TOPOLOGY});
        ghost var touched := Touch(HeldState(), index, {BEAM_TOPOLOGY});
        if states[index].mask == {} {
          dirty := dirty + [index];
        }
        states := states[index := states[index].(mask := states[index].mask + {BEAM_TOPOLOGY}, committed := false)];
        assert forall i :: 0 <= i < |states| ==> states[i].mask == touched.states[i].mask;
        assert dirty == touched.dirty;
      }
    }

    /** One output, one section: latest state wins, and a zero input mask still carries its section. */
    method Update(gen: nat, index: nat, section: int, mask: Mask, values: seq<Float>) returns (ok: bool)
      requires Valid() && (IsSection(section) ==> |values| == Stride(section))
      modifies this`states, this`dirty
      ensures Valid()
      ensures ok <==> gen == generation && index < |old(states)| && IsSection(section) && AllFinite(values)
      ensures !ok ==> states == old(states) && dirty == old(dirty)
      ensures ok ==> HeldState() == UpdateOne(old(HeldState()), index, section, mask, Reals(values))
    {
      if gen != generation || index >= |states| || !IsSection(section) {
        return false;
      }
      for i := 0 to Stride(section)
        invariant forall k :: 0 <= k < i ==> values[k].Finite?
      {
        if values[i].NonFinite? {
          return false;
        }
      }
      var v := Reals(values);
      UpdateKeepsBooks(HeldState(), index, section, mask, v);
      var s := states[index];
      if s.mask == {} {
        dirty := dirty + [index];
      }
      states := states[index := s.(raw := WithValues(s.raw, section, v), mask := s.mask + (mask + {SectionBit(section)}))];
      return true;
    }

    /**
      Every output that the target routes to; all of them accept the row or none does. An unbound target, a section that
      is not supported and a value that is not finite are reported and change nothing.
    */
    method UpdateTarget(gen: nat, section: int, target: int, mask: Mask, values: seq<Float>) returns (ok: bool)
      requires Valid() && (IsSection(section) ==> |values| == Stride(section))
      modifies this`states, this`dirty
      ensures Valid()
      ensures ok <==> gen == generation && (section, target) in routes &&
                      (routes[(section, target)] == [] || (IsSection(section) && AllFinite(values)))
      ensures gen == generation && IsSection(section) && AllFinite(values) ==>
                HeldState() == ApplyRow(old(HeldState()), routes, Row(section, target, mask, Reals(values)))
      ensures gen != generation || !IsSection(section) || !AllFinite(values) ==>
                states == old(states) && dirty == old(dirty)
    {
      if gen != generation || (section, target) !in routes {
        return false;
      }
      var route := routes[(section, target)];
      ghost var usable := IsSection(section) && AllFinite(values);
      ok := true;
      for k := 0 to |route|
        invariant Valid() && |states| == |old(states)| && RouteOk(route[..k], |old(states)|)
        invariant ok <==> usable || k == 0
        invariant usable ==> HeldState() == UpdateRoute(old(HeldState()), route[..k], Row(section, target, mask, Reals(values)))
        invariant !usable ==> states == old(states) && dirty == old(dirty)
      {
        assert route[..k + 1][..k] == route[..k];
        var done := Update(gen, route[k], section, mask, values);
        ok := done && ok;
      }
      assert route[..|route|] == route;
    }

    /** Checks one block of a frame before anything is applied. */
    static method CheckBlock(d: seq<int>, b: nat, integers: seq<int>, values: seq<Float>) returns (ok: bool)
      requires b + 5 <= |d|
      ensures ok <==> BlockFits(d, b, integers, values)
    {
      var section := d[b];
      if !IsSection(section) {
        return true;
      }
      var stride := Stride(section);
      if d[b + 1] < 0 || d[b + 2] < 0 || d[b + 3] < 0 || d[b + 2] + d[b + 1] * 3 > |integers| ||
         d[b + 3] + d[b + 1] * stride > |values| {
        return false;
      }
      var first, end := d[b + 3], d[b + 3] + d[b + 1] * stride;
      RowSpan(d[b + 1], stride);
      ghost var block := values[first..end];
      var i := first;
      while i < end
        invariant first <= i <= end
        invariant forall k :: first <= k < i ==> values[k].Finite?
      {
        if values[i].NonFinite? {
          assert block[i - first] == values[i] && !AllFinite(block);
          return false;
        }
        i := i + 1;
      }
      assert forall k :: 0 <= k < end - first ==> block[k] == values[first + k];
      assert AllFinite(block);
      return true;
    }

    method CheckFrame(d: seq<int>, integers: seq<int>, values: seq<Float>) returns (ok: bool)
      requires |d| % 5 == 0
      ensures ok <==> FrameFits(d, integers, values, |d|)
    {
      var b := 0;
      while b < |d|
        invariant b <= |d| && b % 5 == 0 && FrameFits(d, integers, values, b)
      {
        assert b + 5 <= |d|;
        ok := CheckBlock(d, b, integers, values);
        if !ok {
          assert 5 * (b / 5) == b;
          return false;
        }
        b := b + 5;
      }
      return true;
    }

    static method ReadRow(d: seq<int>, b: nat, integers: seq<int>, values: seq<Float>, row: nat)
      returns (target: int, mask: Mask, rowValues: seq<Float>)
      requires b + 5 <= |d| && IsSection(d[b]) && BlockFits(d, b, integers, values) && row < d[b + 1]
      ensures |rowValues| == Stride(d[b]) && AllFinite(rowValues)
      ensures Row(d[b], target, mask, Reals(rowValues)) == BlockRow(d, b, integers, values, row)
    {
      RowBounds(d[b + 2], row, d[b + 1], 3, |integers|);
      RowFinite(d, b, integers, values, row);
      var stride := Stride(d[b]);
      var ib, vb := d[b + 2] + row * 3, d[b + 3] + row * stride;
      return integers[ib + 1], Bits(integers[ib + 2]), values[vb..vb + stride];
    }

    /** One row of a block; an unresolved target is counted and skipped. */
    method ApplyCounted(gen: nat, section: int, target: int, mask: Mask, values: seq<Float>,
                        ghost start: Held, ghost before: seq<Row>)
      requires Valid() && gen == generation && IsSection(section) && |values| == Stride(section) && AllFinite(values)
      requires Progress(start, routes, before, HeldState(), unresolvedRows)
      modifies this`states, this`dirty, this`unresolvedRows
      ensures Valid()
      ensures Progress(start, routes, before + [Row(section, target, mask, Reals(values))], HeldState(), unresolvedRows)
    {
      ProgressStep(start, routes, before, HeldState(), unresolvedRows, Row(section, target, mask, Reals(values)));
      var ok := UpdateTarget(gen, section, target, mask, values);
      if !ok {
        unresolvedRows := unresolvedRows + 1;
      }
    }

    method ApplyBlock(gen: nat, d: seq<int>, b: nat, integers: seq<int>, values: seq<Float>, ghost start: Held,
                      ghost before: seq<Row>)
      requires Valid() && gen == generation && b + 5 <= |d| && IsSection(d[b]) && BlockFits(d, b, integers, values)
      requires Progress(start, routes, before, HeldState(), unresolvedRows)
      modifies this`states, this`dirty, this`unresolvedRows
      ensures Valid()
      ensures Progress(start, routes, before + BlockRowList(d, b, integers, values, d[b + 1]), HeldState(), unresolvedRows)
    {
      ghost var rows := before;
      assert before + [] == before;
      for row := 0 to d[b + 1]
        invariant rows == before + BlockRowList(d, b, integers, values, row)
        invariant Valid() && Progress(start, routes, rows, HeldState(), unresolvedRows)
      {
        var target, mask, rowValues := ReadRow(d, b, integers, values, row);
        ApplyCounted(gen, d[b], target, mask, rowValues, start, rows);
        rows := rows + [BlockRow(d, b, integers, values, row)];
      }
    }

    /** A block of an unsupported section is passed over. */
    method ApplySupported(gen: nat, d: seq<int>, b: nat, integers: seq<int>, values: seq<Float>, ghost start: Held)
      requires Valid() && gen == generation && FrameFits(d, integers, values, |d|) && b < |d| && b % 5 == 0
      requires FrameFits(d, integers, values, b)
      requires Progress(start, routes, FrameRows(d, integers, values, b), HeldState(), unresolvedRows)
      modifies this`states, this`dirty, this`unresolvedRows
      ensures Valid() && b + 5 <= |d| && FrameFits(d, integers, values, b + 5)
      ensures Progress(start, routes, FrameRows(d, integers, values, b + 5), HeldState(), unresolvedRows)
    {
      NextBlock(d, integers, values, b);
      if IsSection(d[b]) {
        ApplyBlock(gen, d, b, integers, values, start, FrameRows(d, integers, values, b));
      }
    }

    method ApplyFrame(gen: nat, d: seq<int>, integers: seq<int>, values: seq<Float>)
      requires Valid() && gen == generation && FrameFits(d, integers, values, |d|)
      modifies this`states, this`dirty, this`unresolvedRows
      ensures Valid()
      ensures Progress(old(HeldState()), routes, FrameRows(d, integers, values, |d|), HeldState(), unresolvedRows)
    {
      unresolvedRows := 0;
      ghost var start := HeldState();
      var b := 0;
      while b < |d|
        invariant b <= |d| && b % 5 == 0 && FrameFits(d, integers, values, b)
        invariant Valid() && Progress(start, routes, FrameRows(d, integers, values, b), HeldState(), unresolvedRows)
      {
        ApplySupported(gen, d, b, integers, values, start);
        b := b + 5;
      }
    }

    /** Validates the whole frame first: a rejected frame changes nothing, an accepted one applies all its rows. */
    method ComposeSections(gen: nat, d: seq<int>, integers: seq<int>, values: seq<Float>) returns (ok: bool)
      requires Valid()
      modifies this`states, this`dirty, this`unresolvedRows
      ensures Valid()
      ensures ok <==> gen == generation && |d| % 5 == 0 && FrameFits(d, integers, values, |d|)
      ensures !ok ==> unchanged(this)
      ensures ok ==> HeldState() == ApplyRows(old(HeldState()), routes, FrameRows(d, integers, values, |d|))
      ensures ok ==> unresolvedRows == Unresolved(routes, FrameRows(d, integers, values, |d|))
    {
      if gen != generation || |d| % 5 != 0 {
        return false;
      }
      ok := CheckFrame(d, integers, values);
      if !ok {
        return false;
      }
      ApplyFrame(gen, d, integers, values);
      return true;
    }

    /** Filters one output against its committed signature; what is sent becomes the new signature. */
    method EffectiveMask(index: nat, v: RenderValues) returns (mask: Mask)
      requires index < |states|
      modifies this`states
      ensures mask == Effective(old(states)[index], v)
      ensures states == old(states)[index := Committed(old(states)[index], Composed(mask, v))]
    {
      var s := states[index];
      var p := s.previous;
      mask := {};
      if !s.committed || BEAM_TOPOLOGY in s.mask {
        mask := s.mask + {DIMMER, COLOR, MATERIAL};
      } else {
        if DIMMER in s.mask && DimmerChanged(p, v) {
          mask := mask + {DIMMER};
        }
        if COLOR in s.mask && ColorChanged(p, v) {
          mask := mask + {COLOR};
        }
        if MATERIAL in s.mask {
          mask := mask + {MATERIAL};
        }
        if ZOOM in s.mask && (p.halfAngle != v.halfAngle || p.fullAngle != v.fullAngle) {
          mask := mask + {ZOOM};
        }
      }
      if mask != {} {
        states := states[index := s.(previous := v, committed := true)];
      }
    }

    /** Composes one output and commits what it sends as the signature of later comparisons. */
    method ComposeOne(index: nat) returns (part: Composed)
      requires index < |states| == |bindings|
      modifies this`states
      ensures part == Compose(old(states)[index], bindings[index].scale, visualGain)
      ensures states == old(states)[index := Committed(old(states)[index], part)]
    {
      var values := Render(states[index].raw, bindings[index].scale, visualGain);
      var mask := EffectiveMask(index, values);
      return Composed(mask, values);
    }

    /** Splits the bits of one output between its own row and its group. */
    method CollectOne(index: nat, part: Composed)
      requires |representatives| == 0 || index < |representatives|
      requires |groupMasks| == |representatives|
      requires forall i :: 0 <= i < |representatives| ==> representatives[i] < |representatives|
      modifies this`prepared, this`groupMasks
      ensures prepared == old(prepared) + OwnRow(representatives, index, part)
      ensures groupMasks == Collect(representatives, old(groupMasks), index, part.mask * Dynamic())
    {
      var mask := part.mask;
      if representatives != [] && representatives[index] >= 0 {
        var representative := representatives[index];
        if mask * Dynamic() != {} {
          groupMasks := groupMasks[representative := groupMasks[representative] + mask * Dynamic()];
        } else {
          assert groupMasks[representative] + mask * Dynamic() == groupMasks[representative];
        }
        mask := mask - Dynamic();
      }
      if mask != {} {
        prepared := prepared + [PreparedOutput(index, mask, part.values)];
      }
    }

    /** Emits the group row of one dirty output, unless an earlier member already did. */
    method EmitOne(index: nat)
      requires index < |states| == |bindings| && SetupOk(Configuration()) && |groupMasks| == |representatives|
      modifies this`preparedGroups, this`groupMasks
      ensures groupMasks == Emitted(representatives, old(groupMasks), index)
      ensures Grouped(representatives, index) ==>
                && representatives[index] < |states|
                && preparedGroups == old(preparedGroups) + GroupRow(representatives, old(groupMasks), index,
                     Render(states[representatives[index]].raw, bindings[representatives[index]].scale, visualGain))
      ensures !Grouped(representatives, index) ==> preparedGroups == old(preparedGroups)
    {
      if representatives == [] || representatives[index] < 0 {
        return;
      }
      assert MemberOk(bindings, representatives, index);
      var representative := representatives[index];
      var mask := groupMasks[representative];
      if mask != {} {
        preparedGroups := preparedGroups + [PreparedOutput(representative, mask,
          Render(states[representative].raw, bindings[representative].scale, visualGain))];
        groupMasks := groupMasks[representative := {}];
      }
    }

    ghost predicate Collecting(parts: seq<Composed>, was: seq<OutputState>, done: nat)
      requires |was| == |parts| && Routable(representatives, parts, dirty) && done <= |dirty|
      reads this
    {
      && states == CommittedAll(parts, was, dirty[..done])
      && prepared == IndividualRows(representatives, parts, dirty[..done])
      && groupMasks == GroupMasks(representatives, parts, dirty[..done])
    }

    /** The first pass: every dirty output is composed, committed and split. */
    method CollectDirty(ghost parts: seq<Composed>)
      requires |bindings| == |states| && Distinct(dirty) && parts == Parts(Configuration(), states)
      requires Routable(representatives, parts, dirty) && prepared == [] && |groupMasks| == |representatives|
      requires forall r :: 0 <= r < |groupMasks| ==> groupMasks[r] == {}
      modifies this`states, this`prepared, this`groupMasks
      ensures Collecting(parts, old(states), |dirty|)
    {
      ghost var was := states;
      for k := 0 to |dirty|
        invariant Collecting(parts, was, k)
      {
        CommitOneMore(parts, was, dirty, k);
        CollectOneMore(representatives, parts, dirty, k);
        var part := ComposeOne(dirty[k]);
        CollectOne(dirty[k], part);
      }
    }

    /** The second pass: one row for each group that collected bits. */
    method EmitGroups(ghost parts: seq<Composed>)
      requires |bindings| == |states| && SetupOk(Configuration()) && Routable(representatives, parts, dirty)
      requires |parts| == |states| && preparedGroups == [] && groupMasks == GroupMasks(representatives, parts, dirty)
      requires forall i :: 0 <= i < |states| ==>
                 parts[i].values == Render(states[i].raw, bindings[i].scale, visualGain)
      modifies this`preparedGroups, this`groupMasks
      ensures preparedGroups == GroupRows(representatives, parts, dirty, |dirty|)
      ensures |groupMasks| == |representatives| && forall r :: 0 <= r < |groupMasks| ==> groupMasks[r] == {}
    {
      EmissionEnds(representatives, parts, dirty);
      for k := 0 to |dirty|
        invariant preparedGroups == GroupRows(representatives, parts, dirty, k)
        invariant groupMasks == Unemitted(representatives, parts, dirty, k)
      {
        EmitOneMore(representatives, parts, dirty, k);
        EmitOne(dirty[k]);
      }
    }

    /** Sends every pending change: one pass for the outputs, one for the groups they touched. */
    method PrepareSnapshot()
      requires Valid()
      modifies this`states, this`prepared, this`groupMasks, this`preparedGroups
      ensures Valid()
      ensures var parts := Parts(Configuration(), old(states));
              && Routable(representatives, parts, dirty)
              && states == CommittedAll(parts, old(states), dirty)
              && prepared == IndividualRows(representatives, parts, dirty)
              && preparedGroups == GroupRows(representatives, parts, dirty, |dirty|)
    {
      ghost var parts, was := Parts(Configuration(), states), states;
      SetupIsRoutable(Configuration(), parts, dirty);
      prepared, preparedGroups := [], [];
      CollectDirty(parts);
      assert dirty[..|dirty|] == dirty;
      EmitGroups(parts);
      CommitKeepsBooks(parts, Held(was, dirty), dirty);
    }

    /** Clears exactly the listed masks; a stale generation changes nothing. */
    method FinishSnapshot(gen: nat)
      requires Valid()
      modifies this`states, this`dirty, this`prepared, this`preparedGroups
      ensures Valid()
      ensures gen != generation ==> unchanged(this)
      ensures gen == generation ==> dirty == [] && prepared == [] && preparedGroups == [] && |states| == |old(states)|
      ensures gen == generation ==> forall i :: 0 <= i < |states| ==> states[i] == old(states)[i].(mask := {})
    {
      if gen != generation {
        return;
      }
      ghost var list := dirty;
      for k := 0 to |dirty|
        invariant dirty == list && |states| == |old(states)|
        invariant forall i: nat :: i < |states| ==>
                    states[i] == if i in dirty[..k] then old(states)[i].(mask := {}) else old(states)[i]
      {
        assert dirty[..k + 1] == dirty[..k] + [dirty[k]];
        states := states[dirty[k] := states[dirty[k]].(mask := {})];
      }
      assert dirty[..|dirty|] == dirty;
      forall i: nat | i < |states| ensures states[i] == old(states)[i].(mask := {}) {
        assert i in old(dirty) <==> old(states)[i].mask != {};
      }
      dirty, prepared, preparedGroups := [], [], [];
    }
  }

  lemma RowSpan(rows: int, stride: int)
    requires rows >= 0 && stride >= 0
    ensures rows * stride >= 0
  {
  }

  lemma SetupIsRoutable(c: Setup, parts: seq<Composed>, dirty: seq<nat>)
    requires SetupOk(c) && |parts| == |c.bindings| && forall k :: 0 <= k < |dirty| ==> dirty[k] < |parts|
    ensures Routable(c.representatives, parts, dirty)
  {
    forall i | 0 <= i < |c.representatives| ensures c.representatives[i] < |parts| {
      assert MemberOk(c.bindings, c.representatives, i);
    }
  }
}
