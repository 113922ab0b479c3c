/** Values behind the dense presentation state: masks, per-output state, updates, filtering and snapshot rows. */
module DenseModel {
  import opened Prelude

  /** The set bits of a change mask. */
  type Mask = set<nat>
  const DIMMER: nat := 1
  const COLOR: nat := 2
  const ZOOM: nat := 3
  const MATERIAL: nat := 8
  const BEAM_TOPOLOGY: nat := 9

  function Dynamic(): Mask {
    {DIMMER, COLOR, MATERIAL}
  }

  datatype Float = Finite(value: real) | NonFinite

  datatype Raw = Raw(
    dimmer: real, beamEnergy: real, spotEnergy: real, beamIntensity: real, materialEnergy: real,
    red: real, green: real, blue: real, gain: real, halfAngle: real, fullAngle: real)

  datatype RenderValues = RenderValues(
    dimmer: real, red: real, green: real, blue: real, beamEnergy: real, spotEnergy: real, beamIntensity: real,
    materialEnergy: real, halfAngle: real, fullAngle: real, colorGain: real, visible: real)

  datatype OutputState = OutputState(raw: Raw, mask: Mask, committed: bool, previous: RenderValues)
  datatype OutputBinding = OutputBinding(canonicalId: int, scale: real)
  datatype PreparedOutput = PreparedOutput(index: nat, mask: Mask, values: RenderValues)

  /** Everything fixed by a binding generation; `visualGain` is the perceptual attenuation curve. */
  datatype Setup = Setup(bindings: seq<OutputBinding>, representatives: seq<int>, visualGain: real -> real)

  function InitialState(): OutputState {
    OutputState(Raw(0.0, 0.0, 0.0, 0.0, 0.0, 1.0, 1.0, 1.0, 1.0, 12.5, 25.0), {}, false,
      RenderValues(0.0, 0.0, 0.0, 0.0, 0.0, 0.0, 0.0, 0.0, 0.0, 0.0, 0.0, 0.0))
  }

  predicate IsSection(section: int) {
    section == 2 || section == 3 || section == 4
  }

  /** Floats per row of a section. */
  function Stride(section: int): nat {
    if section == 2 then 5 else if section == 3 then 4 else 3
  }

  function SectionBit(section: int): nat {
    if section == 2 then DIMMER else if section == 3 then COLOR else ZOOM
  }

  function WithValues(raw: Raw, section: int, v: seq<real>): Raw
    requires IsSection(section) && |v| >= Stride(section)
  {
    if section == 2 then
      raw.(dimmer := v[0], beamEnergy := v[1], spotEnergy := v[2], beamIntensity := v[3], materialEnergy := v[4])
    else if section == 3 then
      raw.(red := v[0], green := v[1], blue := v[2], gain := if v[3] < 0.0 then 0.0 else v[3])
    else raw.(halfAngle := v[0], fullAngle := v[1])
  }

  /** How many fields a section holds; the third float of a beam row is not stored. */
  function FieldCount(section: int): nat {
    if section == 2 then 5 else if section == 3 then 4 else 2
  }

  /** The fields of a section in the order of its row. */
  function Fields(raw: Raw, section: int): (fields: seq<real>)
    requires IsSection(section)
    ensures |fields| == FieldCount(section)
  {
    if section == 2 then [raw.dimmer, raw.beamEnergy, raw.spotEnergy, raw.beamIntensity, raw.materialEnergy]
    else if section == 3 then [raw.red, raw.green, raw.blue, raw.gain]
    else [raw.halfAngle, raw.fullAngle]
  }

  /** A row is read back as written, with a negative color gain as zero, and no other section changes. */
  lemma WriteThenRead(raw: Raw, section: int, v: seq<real>, other: int)
    requires IsSection(section) && IsSection(other) && |v| >= Stride(section)
    ensures var after := Fields(WithValues(raw, section, v), other);
            if other != section then after == Fields(raw, other)
            else if section == 3 then after == v[..3] + [MaxReal(v[3], 0.0)]
            else after == v[..FieldCount(section)]
    ensures var r := WithValues(raw, section, v);
            && (section == 2 ==> (r.dimmer, r.beamEnergy, r.spotEnergy, r.beamIntensity, r.materialEnergy) ==
                                   (v[0], v[1], v[2], v[3], v[4]))
            && (section == 3 ==> (r.red, r.green, r.blue) == (v[0], v[1], v[2]))
            && (section == 4 ==> (r.halfAngle, r.fullAngle) == (v[0], v[1]))
  {
    if other == section {
      assert v[..FieldCount(section)] == seq(FieldCount(section), k requires 0 <= k < FieldCount(section) => v[k]);
    }
  }

  // ----- the dirty list -----

  datatype Held = Held(states: seq<OutputState>, dirty: seq<nat>)

  /** An output is listed exactly once when its mask is nonzero, and not at all otherwise. */
  ghost predicate Bookkept(h: Held) {
    && Distinct(h.dirty)
    && (forall k :: 0 <= k < |h.dirty| ==> h.dirty[k] < |h.states|)
    && (forall i: nat :: i < |h.states| ==> (i in h.dirty <==> h.states[i].mask != {}))
  }

  /** Marks an output, listing it if nothing was pending for it. */
  function Touch(h: Held, i: nat, bits: Mask): (r: Held)
    requires i < |h.states|
  {
    Held(h.states[i := h.states[i].(mask := h.states[i].mask + bits)],
         if h.states[i].mask == {} then h.dirty + [i] else h.dirty)
  }

  lemma TouchKeepsBooks(h: Held, i: nat, bits: Mask)
    requires Bookkept(h) && i < |h.states| && bits != {}
    ensures Bookkept(Touch(h, i, bits))
  {
    var r := Touch(h, i, bits);
    var b :| b in bits;
    assert b in r.states[i].mask;
    if h.states[i].mask == {} {
      assert r.dirty[|h.dirty|] == i;
      forall x: nat | x < |r.states| ensures x in r.dirty <==> r.states[x].mask != {} {
        assert x in r.dirty <==> x in h.dirty || x == i;
      }
    }
  }

  function UpdateOne(h: Held, i: nat, section: int, mask: Mask, v: seq<real>): (r: Held)
    requires i < |h.states| && IsSection(section) && |v| >= Stride(section)
  {
    var touched := Touch(h, i, mask + {SectionBit(section)});
    touched.(states := touched.states[i := touched.states[i].(raw := WithValues(h.states[i].raw, section, v))])
  }

  lemma UpdateKeepsBooks(h: Held, i: nat, section: int, mask: Mask, v: seq<real>)
    requires Bookkept(h) && i < |h.states| && IsSection(section) && |v| >= Stride(section)
    ensures Bookkept(UpdateOne(h, i, section, mask, v))
  {
    assert SectionBit(section) in mask + {SectionBit(section)};
    TouchKeepsBooks(h, i, mask + {SectionBit(section)});
    var touched := Touch(h, i, mask + {SectionBit(section)});
    var r := UpdateOne(h, i, section, mask, v);
    assert r.dirty == touched.dirty;
    assert forall x :: 0 <= x < |r.states| ==> r.states[x].mask == touched.states[x].mask;
  }

  function InvalidatedOne(s: OutputState): OutputState {
    s.(mask := s.mask + {BEAM_TOPOLOGY}, committed := false)
  }

  ghost predicate Invalidated(before: seq<OutputState>, after: seq<OutputState>) {
    |after| == |before| && forall i :: 0 <= i < |after| ==> after[i] == InvalidatedOne(before[i])
  }

  /** One semantic row and the outputs its target routes to. */
  datatype Row = Row(section: int, target: int, mask: Mask, values: seq<real>)

  predicate RowOk(row: Row) {
    IsSection(row.section) && |row.values| == Stride(row.section)
  }

  predicate RouteOk(route: seq<nat>, outputs: nat) {
    forall k :: 0 <= k < |route| ==> route[k] < outputs
  }

  function UpdateRoute(h: Held, route: seq<nat>, row: Row): (r: Held)
    requires RouteOk(route, |h.states|) && RowOk(row)
    ensures |r.states| == |h.states|
  {
    if route == [] then h else
      var last := |route| - 1;
      UpdateOne(UpdateRoute(h, route[..last], row), route[last], row.section, row.mask, row.values)
  }

  lemma {:induction false} RouteKeepsBooks(h: Held, route: seq<nat>, row: Row)
    requires RouteOk(route, |h.states|) && RowOk(row) && Bookkept(h)
    ensures Bookkept(UpdateRoute(h, route, row))
  {
    if route != [] {
      var last := |route| - 1;
      RouteKeepsBooks(h, route[..last], row);
      UpdateKeepsBooks(UpdateRoute(h, route[..last], row), route[last], row.section, row.mask, row.values);
    }
  }

  type Routes = map<(int, int), seq<nat>>

  ghost predicate RoutesOk(routes: Routes, outputs: nat) {
    forall key :: key in routes ==> RouteOk(routes[key], outputs) && Distinct(routes[key])
  }

  predicate Reaches(routes: Routes, row: Row, i: nat) {
    (row.section, row.target) in routes && i in routes[(row.section, row.target)]
  }

  function ApplyRow(h: Held, routes: Routes, row: Row): (r: Held)
    requires RowOk(row) && ((row.section, row.target) in routes ==> RouteOk(routes[(row.section, row.target)], |h.states|))
    ensures |r.states| == |h.states|
  {
    if (row.section, row.target) in routes then UpdateRoute(h, routes[(row.section, row.target)], row) else h
  }

  /** Applies rows in order; later rows win. */
  ghost function ApplyRows(h: Held, routes: Routes, rows: seq<Row>): (r: Held)
    requires RoutesOk(routes, |h.states|) && forall k :: 0 <= k < |rows| ==> RowOk(rows[k])
    ensures |r.states| == |h.states|
  {
    if rows == [] then h else
      var last := |rows| - 1;
      ApplyRow(ApplyRows(h, routes, rows[..last]), routes, rows[last])
  }

  ghost function Unresolved(routes: Routes, rows: seq<Row>): nat {
    if rows == [] then 0 else
      var row := rows[|rows| - 1];
      Unresolved(routes, rows[..|rows| - 1]) + (if (row.section, row.target) in routes then 0 else 1)
  }

  lemma {:induction false} RowsKeepBooks(h: Held, routes: Routes, rows: seq<Row>)
    requires RoutesOk(routes, |h.states|) && (forall k :: 0 <= k < |rows| ==> RowOk(rows[k])) && Bookkept(h)
    ensures Bookkept(ApplyRows(h, routes, rows))
  {
    if rows != [] {
      var last := |rows| - 1;
      RowsKeepBooks(h, routes, rows[..last]);
      var row := rows[last];
      if (row.section, row.target) in routes {
        RouteKeepsBooks(ApplyRows(h, routes, rows[..last]), routes[(row.section, row.target)], row);
      }
    }
  }

  predicate SameSection(a: Raw, b: Raw, section: int)
    requires IsSection(section)
  {
    Fields(a, section) == Fields(b, section)
  }

  lemma {:induction false} RouteEffect(h: Held, route: seq<nat>, row: Row, i: nat, section: int)
    requires RouteOk(route, |h.states|) && RowOk(row) && i < |h.states| && IsSection(section)
    ensures var r := UpdateRoute(h, route, row);
            if i in route && section == row.section
            then SameSection(r.states[i].raw, WithValues(h.states[i].raw, section, row.values), section)
            else SameSection(r.states[i].raw, h.states[i].raw, section)
    ensures h.states[i].mask <= UpdateRoute(h, route, row).states[i].mask
    ensures i in route ==> row.mask + {SectionBit(row.section)} <= UpdateRoute(h, route, row).states[i].mask
  {
    if route != [] {
      var last := |route| - 1;
      RouteEffect(h, route[..last], row, i, section);
      assert route == route[..last] + [route[last]];
    }
  }

  /** The last of the rows of a section that reaches output `i`. */
  ghost function LastReaching(routes: Routes, rows: seq<Row>, i: nat, section: int): Option<Row> {
    if rows == [] then None
    else if rows[|rows| - 1].section == section && Reaches(routes, rows[|rows| - 1], i) then Some(rows[|rows| - 1])
    else LastReaching(routes, rows[..|rows| - 1], i, section)
  }

  lemma {:induction false} LastReachingIsOk(routes: Routes, rows: seq<Row>, i: nat, section: int)
    requires forall k :: 0 <= k < |rows| ==> RowOk(rows[k])
    ensures LastReaching(routes, rows, i, section).Some? ==>
              RowOk(LastReaching(routes, rows, i, section).value) &&
              LastReaching(routes, rows, i, section).value.section == section
  {
    if rows != [] {
      LastReachingIsOk(routes, rows[..|rows| - 1], i, section);
    }
  }

  /** Latest state wins: each section of each output shows the last row that reached it, or what it held before. */
  lemma {:induction false} LatestRowWins(h: Held, routes: Routes, rows: seq<Row>, i: nat, section: int)
    requires RoutesOk(routes, |h.states|) && (forall k :: 0 <= k < |rows| ==> RowOk(rows[k]))
    requires i < |h.states| && IsSection(section)
    ensures var r, last := ApplyRows(h, routes, rows).states[i], LastReaching(routes, rows, i, section);
            if last.Some?
            then last.value.section == section && RowOk(last.value) &&
                 SameSection(r.raw, WithValues(h.states[i].raw, section, last.value.values), section) &&
                 SectionBit(section) in r.mask
            else SameSection(r.raw, h.states[i].raw, section)
  {
    LastReachingIsOk(routes, rows, i, section);
    if rows != [] {
      var end := |rows| - 1;
      var row := rows[end];
      LatestRowWins(h, routes, rows[..end], i, section);
      if (row.section, row.target) in routes {
        RouteEffect(ApplyRows(h, routes, rows[..end]), routes[(row.section, row.target)], row, i, section);
      }
    }
  }

  lemma {:induction false} RouteMarks(h: Held, route: seq<nat>, row: Row, i: nat)
    requires RouteOk(route, |h.states|) && RowOk(row) && i < |h.states|
    ensures var s, r := h.states[i], UpdateRoute(h, route, row).states[i];
            && r.mask == s.mask + (if i in route then row.mask + {SectionBit(row.section)} else {})
            && r.committed == s.committed && r.previous == s.previous
  {
    if route != [] {
      var last := |route| - 1;
      RouteMarks(h, route[..last], row, i);
      assert route == route[..last] + [route[last]];
    }
  }

  /** The row reaches the output and carries the bit, or the bit is that of what it changes. */
  predicate Marks(routes: Routes, row: Row, i: nat, b: nat) {
    Reaches(routes, row, i) &&
    (b in row.mask || (row.section == 2 && b == DIMMER) || (row.section == 3 && b == COLOR) || (row.section == 4 && b == ZOOM))
  }

  /** A frame marks an output with the bits of the rows that reach it and with theirs only; it commits nothing. */
  lemma {:induction false} FrameMarksExactly(h: Held, routes: Routes, rows: seq<Row>, i: nat, b: nat)
    requires RoutesOk(routes, |h.states|) && (forall k :: 0 <= k < |rows| ==> RowOk(rows[k])) && i < |h.states|
    ensures var s, r := h.states[i], ApplyRows(h, routes, rows).states[i];
            && (b in r.mask <==> b in s.mask || exists k :: 0 <= k < |rows| && Marks(routes, rows[k], i, b))
            && r.committed == s.committed && r.previous == s.previous
  {
    if rows != [] {
      var end := |rows| - 1;
      var row := rows[end];
      FrameMarksExactly(h, routes, rows[..end], i, b);
      if (row.section, row.target) in routes {
        RouteMarks(ApplyRows(h, routes, rows[..end]), routes[(row.section, row.target)], row, i);
      }
      assert forall k :: 0 <= k < end ==> rows[..end][k] == rows[k];
    }
  }

  // ----- composition and filtering -----

  function Clamp(x: real, low: real, high: real): real {
    if x < low then low else if x > high then high else x
  }

  predicate Approximately(a: real, b: real) {
    a == b || AbsReal(a - b) < MaxReal(0.00001, 0.00001 * AbsReal(a))
  }

  function Render(s: Raw, scale: real, visualGain: real -> real): RenderValues {
    var lit := Clamp(s.beamIntensity * visualGain(s.gain), 0.0, 50.0);
    RenderValues(s.dimmer, s.red, s.green, s.blue, s.beamEnergy * s.gain * scale, s.spotEnergy * s.gain * scale,
      Clamp(lit * scale, 0.0, 50.0), s.materialEnergy * s.gain, s.halfAngle, s.fullAngle, s.gain,
      if s.dimmer > 0.0001 && scale > 0.0 && lit > 0.000001 then 1.0 else 0.0)
  }

  /** Composed intensity is bounded; an output without projection or color gain shows and emits no beam. */
  lemma RenderWithin(s: Raw, scale: real, visualGain: real -> real)
    ensures var v := Render(s, scale, visualGain);
            && 0.0 <= v.beamIntensity <= 50.0 && (v.visible == 0.0 || v.visible == 1.0)
            && (v.visible == 1.0 ==> s.dimmer > 0.0 && scale > 0.0)
            && (scale == 0.0 || (s.gain == 0.0 && visualGain(0.0) == 0.0) ==>
                  v.beamEnergy == 0.0 && v.spotEnergy == 0.0 && v.beamIntensity == 0.0 && v.visible == 0.0)
            && (s.gain == 0.0 ==> v.materialEnergy == 0.0)
  {
    if s.gain == 0.0 {
      assert s.beamEnergy * s.gain == 0.0 && s.spotEnergy * s.gain == 0.0;
    }
  }

  predicate DimmerChanged(p: RenderValues, v: RenderValues) {
    || !Approximately(p.dimmer, v.dimmer) || !Approximately(p.beamIntensity, v.beamIntensity)
    || p.beamEnergy != v.beamEnergy || p.spotEnergy != v.spotEnergy || p.materialEnergy != v.materialEnergy
  }

  predicate ColorChanged(p: RenderValues, v: RenderValues) {
    p.red != v.red || p.green != v.green || p.blue != v.blue || !Approximately(p.colorGain, v.colorGain)
  }

  function Keep(bit: nat, condition: bool): Mask {
    if condition then {bit} else {}
  }

  /** The bits worth sending: everything after a renderer replacement, otherwise only visible changes. */
  function Effective(s: OutputState, v: RenderValues): Mask {
    if !s.committed || BEAM_TOPOLOGY in s.mask then s.mask + Dynamic()
    else
      Keep(DIMMER, DIMMER in s.mask && DimmerChanged(s.previous, v)) +
      Keep(COLOR, COLOR in s.mask && ColorChanged(s.previous, v)) +
      Keep(MATERIAL, MATERIAL in s.mask) +
      Keep(ZOOM, ZOOM in s.mask && (s.previous.halfAngle != v.halfAngle || s.previous.fullAngle != v.fullAngle))
  }

  /** Within a hundred-thousandth of the held value, or of one if that is smaller. */
  predicate Near(p: real, v: real) {
    var slack := if -1.0 <= p <= 1.0 then 0.00001 else if p > 0.0 then 0.00001 * p else -0.00001 * p;
    p == v || -slack < p - v < slack
  }

  lemma NearIsApproximate(p: real, v: real)
    ensures Near(p, v) <==> Approximately(p, v)
  {
  }

  /**
    Everything is sent to a renderer that has nothing yet or was replaced. Otherwise a pending bit is held back exactly if
    nothing visible changed under it: dimmer and intensity nearly, energies, color and angles exactly the same.
  */
  lemma FilterExactly(s: OutputState, v: RenderValues)
    ensures !s.committed || BEAM_TOPOLOGY in s.mask ==> Effective(s, v) == s.mask + {DIMMER, COLOR, MATERIAL}
    ensures s.committed && BEAM_TOPOLOGY !in s.mask ==>
              var p, sent := s.previous, Effective(s, v);
              && sent <= s.mask * {DIMMER, COLOR, MATERIAL, ZOOM} && (MATERIAL in sent <==> MATERIAL in s.mask)
              && (DIMMER in s.mask ==>
                    (DIMMER !in sent <==>
                       && Near(p.dimmer, v.dimmer) && Near(p.beamIntensity, v.beamIntensity)
                       && p.beamEnergy == v.beamEnergy && p.spotEnergy == v.spotEnergy && p.materialEnergy == v.materialEnergy))
              && (COLOR in s.mask ==>
                    (COLOR !in sent <==>
                       p.red == v.red && p.green == v.green && p.blue == v.blue && Near(p.colorGain, v.colorGain)))
              && (ZOOM in s.mask ==> (ZOOM !in sent <==> p.halfAngle == v.halfAngle && p.fullAngle == v.fullAngle))
  {
    NearIsApproximate(s.previous.dimmer, v.dimmer);
    NearIsApproximate(s.previous.beamIntensity, v.beamIntensity);
    NearIsApproximate(s.previous.colorGain, v.colorGain);
  }

  /** A replaced renderer is sent everything, whatever was pending. */
  lemma InvalidatedIsResent(s: OutputState, v: RenderValues)
    ensures Effective(InvalidatedOne(s), v) == s.mask + {DIMMER, COLOR, MATERIAL, BEAM_TOPOLOGY}
    ensures InvalidatedOne(s).raw == s.raw
  {
  }

  // ----- what a snapshot sends -----

  /** Output `i` is alone (-1), or belongs to a group whose representative leads it and projects alike. */
  predicate MemberOk(bindings: seq<OutputBinding>, representatives: seq<int>, i: nat)
    requires |representatives| == |bindings| && i < |bindings|
  {
    var r := representatives[i];
    -1 <= r < |representatives| && (r >= 0 ==> representatives[r] == r && bindings[i].scale == bindings[r].scale)
  }

  ghost predicate GroupsOk(bindings: seq<OutputBinding>, representatives: seq<int>) {
    && |representatives| == |bindings|
    && forall i :: 0 <= i < |bindings| ==> MemberOk(bindings, representatives, i)
  }

  ghost predicate SetupOk(c: Setup) {
    |c.representatives| == 0 || GroupsOk(c.bindings, c.representatives)
  }

  /** What one output contributes: the bits worth sending and the values to send. */
  datatype Composed = Composed(mask: Mask, values: RenderValues)

  function Compose(s: OutputState, scale: real, visualGain: real -> real): Composed {
    var v := Render(s.raw, scale, visualGain);
    Composed(Effective(s, v), v)
  }

  function Committed(s: OutputState, part: Composed): OutputState {
    if part.mask != {} then s.(previous := part.values, committed := true) else s
  }

  /** Composing again right after has nothing to send but a pending material bit. */
  lemma ComposingAgainIsQuiet(s: OutputState, scale: real, visualGain: real -> real)
    requires BEAM_TOPOLOGY !in s.mask
    ensures var part := Compose(s, scale, visualGain);
            var r := Committed(s, part);
            && Compose(r, scale, visualGain).mask <= {MATERIAL} && r.raw == s.raw && r.mask == s.mask
            && (part.mask != {} ==> r.committed && r.previous == part.values) && (part.mask == {} ==> r == s)
  {
    var r := Committed(s, Compose(s, scale, visualGain));
    FilterExactly(s, Render(s.raw, scale, visualGain));
    FilterExactly(r, Render(r.raw, scale, visualGain));
    assert DIMMER in s.mask + {DIMMER, COLOR, MATERIAL};
  }

  ghost function Parts(c: Setup, states: seq<OutputState>): (parts: seq<Composed>)
    requires |states| == |c.bindings|
    ensures |parts| == |states|
  {
    seq(|states|, i requires 0 <= i < |states| => Compose(states[i], c.bindings[i].scale, c.visualGain))
  }

  /** Every listed output exists, and group numbers name outputs. */
  ghost predicate Routable(groups: seq<int>, parts: seq<Composed>, dirty: seq<nat>) {
    && (forall k :: 0 <= k < |dirty| ==> dirty[k] < |parts|)
    && (|groups| == 0 || |groups| == |parts|)
    && forall i :: 0 <= i < |groups| ==> groups[i] < |parts|
  }

  predicate Grouped(groups: seq<int>, i: nat) {
    i < |groups| && groups[i] >= 0
  }

  predicate InGroup(groups: seq<int>, i: nat, r: nat) {
    i < |groups| && groups[i] == r
  }

  /** The bits an output keeps for its own row. */
  function Own(groups: seq<int>, i: nat, part: Composed): Mask {
    if Grouped(groups, i) then part.mask - Dynamic() else part.mask
  }

  function OwnRow(groups: seq<int>, i: nat, part: Composed): seq<PreparedOutput> {
    if Own(groups, i, part) != {} then [PreparedOutput(i, Own(groups, i, part), part.values)] else []
  }

  /** One row per dirty output that has bits of its own to send. */
  ghost function IndividualRows(groups: seq<int>, parts: seq<Composed>, dirty: seq<nat>): seq<PreparedOutput>
    requires Routable(groups, parts, dirty)
  {
    if dirty == [] then [] else
      var last := |dirty| - 1;
      IndividualRows(groups, parts, dirty[..last]) + OwnRow(groups, dirty[last], parts[dirty[last]])
  }

  /** The dynamic bits of all dirty members of one group. */
  ghost function GroupMask(groups: seq<int>, parts: seq<Composed>, dirty: seq<nat>, r: nat): Mask
    requires Routable(groups, parts, dirty)
  {
    if dirty == [] then {} else
      var last := |dirty| - 1;
      GroupMask(groups, parts, dirty[..last], r) +
      (if InGroup(groups, dirty[last], r) then parts[dirty[last]].mask * Dynamic() else {})
  }

  ghost predicate Visited(groups: seq<int>, dirty: seq<nat>, r: nat) {
    exists k :: 0 <= k < |dirty| && InGroup(groups, dirty[k], r)
  }

  /** One row per group with bits, at the place of its first dirty member, with the representative's own values. */
  ghost function GroupRows(groups: seq<int>, parts: seq<Composed>, dirty: seq<nat>, upTo: nat): seq<PreparedOutput>
    requires Routable(groups, parts, dirty) && upTo <= |dirty|
    decreases upTo
  {
    if upTo == 0 then [] else
      var i := dirty[upTo - 1];
      var earlier := GroupRows(groups, parts, dirty, upTo - 1);
      if !Grouped(groups, i) || Visited(groups, dirty[..upTo - 1], groups[i]) then earlier else
        var mask := GroupMask(groups, parts, dirty, groups[i]);
        if mask == {} then earlier else earlier + [PreparedOutput(groups[i], mask, parts[groups[i]].values)]
  }

  ghost predicate HasRow(rows: seq<PreparedOutput>, i: nat) {
    exists k :: 0 <= k < |rows| && rows[k].index == i
  }

  ghost predicate OneRowEach(rows: seq<PreparedOutput>) {
    forall a, b :: 0 <= a < b < |rows| ==> rows[a].index != rows[b].index
  }

  /** A bit is sent for an output when some row of that output carries it. */
  ghost predicate Sent(rows: seq<PreparedOutput>, i: nat, bit: nat) {
    exists k :: 0 <= k < |rows| && rows[k].index == i && bit in rows[k].mask
  }

  predicate OwnRowOk(groups: seq<int>, parts: seq<Composed>, dirty: seq<nat>, row: PreparedOutput) {
    && row.index in dirty && row.index < |parts| && row.values == parts[row.index].values
    && row.mask == Own(groups, row.index, parts[row.index])
  }

  ghost predicate OwnRowsOk(groups: seq<int>, parts: seq<Composed>, dirty: seq<nat>, rows: seq<PreparedOutput>) {
    forall k :: 0 <= k < |rows| ==> OwnRowOk(groups, parts, dirty, rows[k])
  }

  lemma {:induction false} IndividualRowsOk(groups: seq<int>, parts: seq<Composed>, dirty: seq<nat>)
    requires Routable(groups, parts, dirty)
    ensures OwnRowsOk(groups, parts, dirty, IndividualRows(groups, parts, dirty))
  {
    if dirty != [] {
      var last := |dirty| - 1;
      IndividualRowsOk(groups, parts, dirty[..last]);
      var earlier, rows := IndividualRows(groups, parts, dirty[..last]), IndividualRows(groups, parts, dirty);
      forall k | 0 <= k < |rows| ensures OwnRowOk(groups, parts, dirty, rows[k]) {
        if k < |earlier| {
          assert OwnRowOk(groups, parts, dirty[..last], earlier[k]);
        }
      }
    }
  }

  lemma {:induction false} IndividualRowsAreDistinct(groups: seq<int>, parts: seq<Composed>, dirty: seq<nat>)
    requires Routable(groups, parts, dirty) && Distinct(dirty)
    ensures OneRowEach(IndividualRows(groups, parts, dirty))
  {
    if dirty != [] {
      var last := |dirty| - 1;
      IndividualRowsAreDistinct(groups, parts, dirty[..last]);
      IndividualRowsOk(groups, parts, dirty[..last]);
      var earlier := IndividualRows(groups, parts, dirty[..last]);
      forall k | 0 <= k < |earlier| ensures earlier[k].index != dirty[last] {
        assert OwnRowOk(groups, parts, dirty[..last], earlier[k]);
      }
    }
  }

  lemma {:induction false} IndividualRowsComplete(groups: seq<int>, parts: seq<Composed>, dirty: seq<nat>, i: nat)
    requires Routable(groups, parts, dirty) && i in dirty && Own(groups, i, parts[i]) != {}
    ensures HasRow(IndividualRows(groups, parts, dirty), i)
  {
    var last := |dirty| - 1;
    var earlier, rows := IndividualRows(groups, parts, dirty[..last]), IndividualRows(groups, parts, dirty);
    if dirty[last] == i {
      assert rows[|earlier|].index == i;
    } else {
      assert i in dirty[..last];
      IndividualRowsComplete(groups, parts, dirty[..last], i);
      var k :| 0 <= k < |earlier| && earlier[k].index == i;
      assert rows[k].index == i;
    }
  }

  ghost predicate Contributed(groups: seq<int>, parts: seq<Composed>, dirty: seq<nat>, r: nat, bit: nat) {
    exists k :: 0 <= k < |dirty| && InGroup(groups, dirty[k], r) && dirty[k] < |parts| &&
      bit in parts[dirty[k]].mask && bit in Dynamic()
  }

  lemma {:induction false} GroupMaskExact(groups: seq<int>, parts: seq<Composed>, dirty: seq<nat>, r: nat, bit: nat)
    requires Routable(groups, parts, dirty)
    ensures bit in GroupMask(groups, parts, dirty, r) <==> Contributed(groups, parts, dirty, r, bit)
  {
    if dirty != [] {
      var last := |dirty| - 1;
      GroupMaskExact(groups, parts, dirty[..last], r, bit);
      assert forall k :: 0 <= k < last ==> dirty[..last][k] == dirty[k];
      if Contributed(groups, parts, dirty[..last], r, bit) {
        var k :| 0 <= k < last && InGroup(groups, dirty[..last][k], r) && dirty[..last][k] < |parts| &&
          bit in parts[dirty[..last][k]].mask;
        assert InGroup(groups, dirty[k], r);
      }
    }
  }

  lemma MaskNeedsVisit(groups: seq<int>, parts: seq<Composed>, dirty: seq<nat>, r: nat)
    requires Routable(groups, parts, dirty)
    ensures GroupMask(groups, parts, dirty, r) != {} ==> Visited(groups, dirty, r)
  {
    if bit :| bit in GroupMask(groups, parts, dirty, r) {
      GroupMaskExact(groups, parts, dirty, r, bit);
    }
  }

  lemma VisitedStep(groups: seq<int>, dirty: seq<nat>, k: nat, r: nat)
    requires k < |dirty|
    ensures Visited(groups, dirty[..k + 1], r) <==> Visited(groups, dirty[..k], r) || InGroup(groups, dirty[k], r)
  {
    var a, b := dirty[..k + 1], dirty[..k];
    assert a[k] == dirty[k];
    if Visited(groups, b, r) {
      var j :| 0 <= j < |b| && InGroup(groups, b[j], r);
      assert InGroup(groups, a[j], r);
    }
    if Visited(groups, a, r) {
      var j :| 0 <= j < |a| && InGroup(groups, a[j], r);
      assert j < k ==> InGroup(groups, b[j], r);
    }
  }

  ghost predicate GroupRowOk(groups: seq<int>, parts: seq<Composed>, dirty: seq<nat>, upTo: nat, row: PreparedOutput)
    requires Routable(groups, parts, dirty) && upTo <= |dirty|
  {
    && Visited(groups, dirty[..upTo], row.index) && row.index < |parts| && row.values == parts[row.index].values
    && row.mask == GroupMask(groups, parts, dirty, row.index)
  }

  ghost predicate GroupRowsOk(groups: seq<int>, parts: seq<Composed>, dirty: seq<nat>, upTo: nat, rows: seq<PreparedOutput>)
    requires Routable(groups, parts, dirty) && upTo <= |dirty|
  {
    && OneRowEach(rows)
    && (forall k :: 0 <= k < |rows| ==> GroupRowOk(groups, parts, dirty, upTo, rows[k]))
    && (forall r: nat :: Visited(groups, dirty[..upTo], r) && GroupMask(groups, parts, dirty, r) != {} ==> HasRow(rows, r))
  }

  lemma NextGroupRow(groups: seq<int>, parts: seq<Composed>, dirty: seq<nat>, upTo: nat)
    requires Routable(groups, parts, dirty) && 0 < upTo <= |dirty|
    requires GroupRowsOk(groups, parts, dirty, upTo - 1, GroupRows(groups, parts, dirty, upTo - 1))
    ensures forall k :: 0 <= k < |GroupRows(groups, parts, dirty, upTo)| ==>
              GroupRowOk(groups, parts, dirty, upTo, GroupRows(groups, parts, dirty, upTo)[k])
    ensures OneRowEach(GroupRows(groups, parts, dirty, upTo))
  {
    var earlier, rows := GroupRows(groups, parts, dirty, upTo - 1), GroupRows(groups, parts, dirty, upTo);
    forall k | 0 <= k < |rows| ensures GroupRowOk(groups, parts, dirty, upTo, rows[k]) {
      VisitedStep(groups, dirty, upTo - 1, rows[k].index);
      if k < |earlier| {
        assert GroupRowOk(groups, parts, dirty, upTo - 1, earlier[k]);
      }
    }
  }

  lemma NoGroupIsMissed(groups: seq<int>, parts: seq<Composed>, dirty: seq<nat>, upTo: nat, r: nat)
    requires Routable(groups, parts, dirty) && 0 < upTo <= |dirty|
    requires GroupRowsOk(groups, parts, dirty, upTo - 1, GroupRows(groups, parts, dirty, upTo - 1))
    requires Visited(groups, dirty[..upTo], r) && GroupMask(groups, parts, dirty, r) != {}
    ensures HasRow(GroupRows(groups, parts, dirty, upTo), r)
  {
    var earlier, rows := GroupRows(groups, parts, dirty, upTo - 1), GroupRows(groups, parts, dirty, upTo);
    VisitedStep(groups, dirty, upTo - 1, r);
    if Visited(groups, dirty[..upTo - 1], r) {
      var k :| 0 <= k < |earlier| && earlier[k].index == r;
      assert rows[k].index == r;
    } else {
      assert rows[|earlier|].index == r;
    }
  }

  lemma {:induction false} GroupRowsExact(groups: seq<int>, parts: seq<Composed>, dirty: seq<nat>, upTo: nat)
    requires Routable(groups, parts, dirty) && upTo <= |dirty|
    ensures GroupRowsOk(groups, parts, dirty, upTo, GroupRows(groups, parts, dirty, upTo))
    decreases upTo
  {
    if upTo > 0 {
      GroupRowsExact(groups, parts, dirty, upTo - 1);
      NextGroupRow(groups, parts, dirty, upTo);
      forall r: nat | Visited(groups, dirty[..upTo], r) && GroupMask(groups, parts, dirty, r) != {}
        ensures HasRow(GroupRows(groups, parts, dirty, upTo), r)
      {
        NoGroupIsMissed(groups, parts, dirty, upTo, r);
      }
    }
  }

  /**
    Routing of bits is exact: a dynamic bit of a grouped output is sent for its representative, every other bit for
    the output itself, once each; and nothing is sent that no dirty output contributed.
  */
  lemma EveryBitIsSentOnce(groups: seq<int>, parts: seq<Composed>, dirty: seq<nat>, i: nat, bit: nat)
    requires Routable(groups, parts, dirty) && Distinct(dirty) && i < |parts|
    ensures var own, shared := IndividualRows(groups, parts, dirty), GroupRows(groups, parts, dirty, |dirty|);
            && OneRowEach(own) && OneRowEach(shared)
            && (Sent(own, i, bit) <==>
                  i in dirty && bit in parts[i].mask && !(Grouped(groups, i) && bit in Dynamic()))
            && (Sent(shared, i, bit) <==> Contributed(groups, parts, dirty, i, bit))
  {
    var own, shared := IndividualRows(groups, parts, dirty), GroupRows(groups, parts, dirty, |dirty|);
    IndividualRowsOk(groups, parts, dirty);
    IndividualRowsAreDistinct(groups, parts, dirty);
    GroupRowsExact(groups, parts, dirty, |dirty|);
    GroupMaskExact(groups, parts, dirty, i, bit);
    MaskNeedsVisit(groups, parts, dirty, i);
    assert dirty[..|dirty|] == dirty;
    if Sent(own, i, bit) {
      var k :| 0 <= k < |own| && own[k].index == i && bit in own[k].mask;
      assert OwnRowOk(groups, parts, dirty, own[k]);
    }
    if i in dirty && bit in Own(groups, i, parts[i]) {
      IndividualRowsComplete(groups, parts, dirty, i);
    }
    if Sent(shared, i, bit) {
      var k :| 0 <= k < |shared| && shared[k].index == i && bit in shared[k].mask;
      assert GroupRowOk(groups, parts, dirty, |dirty|, shared[k]);
    }
    if bit in GroupMask(groups, parts, dirty, i) {
      assert HasRow(shared, i);
    }
  }

  // ----- snapshot steps -----

  /** The states after the outputs in `done` have been composed and their signatures committed. */
  ghost function CommittedAll(parts: seq<Composed>, states: seq<OutputState>, done: seq<nat>): (r: seq<OutputState>)
    requires |states| == |parts|
    ensures |r| == |states|
  {
    seq(|states|, i requires 0 <= i < |states| =>
      if i in done then Committed(states[i], parts[i]) else states[i])
  }

  ghost function GroupMasks(groups: seq<int>, parts: seq<Composed>, dirty: seq<nat>): (r: seq<Mask>)
    requires Routable(groups, parts, dirty)
    ensures |r| == |groups|
  {
    seq(|groups|, r requires 0 <= r < |groups| => GroupMask(groups, parts, dirty, r))
  }

  /** The group masks once the rows of the outputs before `upTo` have been emitted. */
  ghost function Unemitted(groups: seq<int>, parts: seq<Composed>, dirty: seq<nat>, upTo: nat): (r: seq<Mask>)
    requires Routable(groups, parts, dirty) && upTo <= |dirty|
    ensures |r| == |groups|
  {
    seq(|groups|, r requires 0 <= r < |groups| =>
      if Visited(groups, dirty[..upTo], r) then {} else GroupMask(groups, parts, dirty, r))
  }

  /** `bits` added to the group of output `i`, if it has one. */
  function Collect(groups: seq<int>, masks: seq<Mask>, i: nat, bits: Mask): seq<Mask> {
    if Grouped(groups, i) && groups[i] < |masks| then masks[groups[i] := masks[groups[i]] + bits] else masks
  }

  function Emitted(groups: seq<int>, masks: seq<Mask>, i: nat): seq<Mask> {
    if Grouped(groups, i) && groups[i] < |masks| then masks[groups[i] := {}] else masks
  }

  function GroupRow(groups: seq<int>, masks: seq<Mask>, i: nat, values: RenderValues): seq<PreparedOutput> {
    if Grouped(groups, i) && groups[i] < |masks| && masks[groups[i]] != {}
    then [PreparedOutput(groups[i], masks[groups[i]], values)] else []
  }

  lemma CommitOneMore(parts: seq<Composed>, states: seq<OutputState>, dirty: seq<nat>, k: nat)
    requires |states| == |parts| && Distinct(dirty) && k < |dirty| && dirty[k] < |states|
    ensures var done := CommittedAll(parts, states, dirty[..k]);
            && done[dirty[k]] == states[dirty[k]]
            && CommittedAll(parts, states, dirty[..k + 1]) ==
               done[dirty[k] := Committed(states[dirty[k]], parts[dirty[k]])]
  {
    assert dirty[..k + 1] == dirty[..k] + [dirty[k]];
    assert dirty[k] !in dirty[..k];
  }

  lemma CollectOneMore(groups: seq<int>, parts: seq<Composed>, dirty: seq<nat>, k: nat)
    requires Routable(groups, parts, dirty) && k < |dirty|
    ensures GroupMasks(groups, parts, dirty[..k + 1]) ==
            Collect(groups, GroupMasks(groups, parts, dirty[..k]), dirty[k], parts[dirty[k]].mask * Dynamic())
    ensures IndividualRows(groups, parts, dirty[..k + 1]) ==
            IndividualRows(groups, parts, dirty[..k]) + OwnRow(groups, dirty[k], parts[dirty[k]])
  {
    assert dirty[..k + 1][..k] == dirty[..k];
    var next, masks := GroupMasks(groups, parts, dirty[..k + 1]), GroupMasks(groups, parts, dirty[..k]);
    forall r: nat | r < |groups|
      ensures next[r] == Collect(groups, masks, dirty[k], parts[dirty[k]].mask * Dynamic())[r]
    {
      assert next[r] == GroupMask(groups, parts, dirty[..k + 1], r);
    }
  }

  lemma EmitOneMore(groups: seq<int>, parts: seq<Composed>, dirty: seq<nat>, k: nat)
    requires Routable(groups, parts, dirty) && k < |dirty|
    ensures var masks, i := Unemitted(groups, parts, dirty, k), dirty[k];
            && Unemitted(groups, parts, dirty, k + 1) == Emitted(groups, masks, i)
            && (Grouped(groups, i) ==>
                  GroupRows(groups, parts, dirty, k + 1) ==
                  GroupRows(groups, parts, dirty, k) + GroupRow(groups, masks, i, parts[groups[i]].values))
            && (!Grouped(groups, i) ==> GroupRows(groups, parts, dirty, k + 1) == GroupRows(groups, parts, dirty, k))
  {
    var next, masks := Unemitted(groups, parts, dirty, k + 1), Unemitted(groups, parts, dirty, k);
    forall r: nat | r < |groups| ensures next[r] == Emitted(groups, masks, dirty[k])[r] {
      VisitedStep(groups, dirty, k, r);
    }
    if Grouped(groups, dirty[k]) {
      var r: nat := groups[dirty[k]];
      assert masks[r] == if Visited(groups, dirty[..k], r) then {} else GroupMask(groups, parts, dirty, r);
    }
  }

  lemma EmissionEnds(groups: seq<int>, parts: seq<Composed>, dirty: seq<nat>)
    requires Routable(groups, parts, dirty)
    ensures Unemitted(groups, parts, dirty, 0) == GroupMasks(groups, parts, dirty)
    ensures forall r :: 0 <= r < |groups| ==> Unemitted(groups, parts, dirty, |dirty|)[r] == {}
  {
    assert dirty[..|dirty|] == dirty;
    forall r: nat | r < |groups| ensures Unemitted(groups, parts, dirty, |dirty|)[r] == {} {
      MaskNeedsVisit(groups, parts, dirty, r);
    }
  }

  lemma CommitKeepsBooks(parts: seq<Composed>, h: Held, done: seq<nat>)
    requires |h.states| == |parts| && Bookkept(h)
    ensures Bookkept(Held(CommittedAll(parts, h.states, done), h.dirty))
  {
    var after := CommittedAll(parts, h.states, done);
    assert forall i :: 0 <= i < |after| ==> after[i].mask == h.states[i].mask;
  }
}
