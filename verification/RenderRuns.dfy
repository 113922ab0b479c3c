/**
  Every run of the physical state with its renderer rows: frames are composed, rows prepared and applied, pending
  bits cleared, renderers replaced. A consumer keeps the last value array it received for each row; the angles of a
  row it takes only from rows marked with a zoom or topology bit.
*/
module RenderRuns {
  import opened Prelude
  import opened DenseModel
  import opened RenderProjection

  /** Fixed by one installation: outputs and gain curve, semantic routes, the row of each output. */
  datatype Stage = Stage(setup: Setup, routes: Routes, rowOf: seq<nat>, curves: Curves)

  type Angles = (real, real)

  /** `settled` while nothing changed since the last preparation. */
  datatype World = World(
    held: Held, members: seq<Member>, rows: seq<RenderRow>, shown: seq<Option<RenderValues>>,
    angled: seq<Option<Angles>>, settled: bool)

  datatype Event =
    | Compose(frame: seq<Row>)
    | ReplayState
    | ReplayAll
    | PrepareRows
    | Finish

  function AnglesOf(v: RenderValues): Angles {
    (v.halfAngle, v.fullAngle)
  }

  predicate Turns(mask: Mask) {
    ZOOM in mask || BEAM_TOPOLOGY in mask
  }

  // ----- what the consumer keeps -----

  ghost function Receive(shown: seq<Option<RenderValues>>, sent: seq<PreparedOutput>): (r: seq<Option<RenderValues>>)
    ensures |r| == |shown|
  {
    if sent == [] then shown else
      var last := sent[|sent| - 1];
      var earlier := Receive(shown, sent[..|sent| - 1]);
      if last.index < |shown| then earlier[last.index := Some(last.values)] else earlier
  }

  ghost function Turn(angled: seq<Option<Angles>>, sent: seq<PreparedOutput>): (r: seq<Option<Angles>>)
    ensures |r| == |angled|
  {
    if sent == [] then angled else
      var last := sent[|sent| - 1];
      var earlier := Turn(angled, sent[..|sent| - 1]);
      if last.index < |angled| && Turns(last.mask) then earlier[last.index := Some(AnglesOf(last.values))] else earlier
  }

  lemma {:induction false} NotReceived(shown: seq<Option<RenderValues>>, angled: seq<Option<Angles>>,
                                       sent: seq<PreparedOutput>, r: nat)
    requires r < |shown| == |angled| && !HasRow(sent, r)
    ensures Receive(shown, sent)[r] == shown[r] && Turn(angled, sent)[r] == angled[r]
  {
    if sent != [] {
      var init := sent[..|sent| - 1];
      forall k | 0 <= k < |init| ensures init[k].index != r {
        assert sent[k].index != r;
      }
      NotReceived(shown, angled, init, r);
      assert sent[|sent| - 1].index != r;
    }
  }

  lemma {:induction false} Received(shown: seq<Option<RenderValues>>, angled: seq<Option<Angles>>,
                                    sent: seq<PreparedOutput>, k: nat)
    requires k < |sent| && OneRowEach(sent) && sent[k].index < |shown| == |angled|
    ensures Receive(shown, sent)[sent[k].index] == Some(sent[k].values)
    ensures Turn(angled, sent)[sent[k].index] ==
              if Turns(sent[k].mask) then Some(AnglesOf(sent[k].values)) else angled[sent[k].index]
  {
    var init, last := sent[..|sent| - 1], sent[|sent| - 1];
    if k < |init| {
      Received(shown, angled, init, k);
    } else {
      forall j | 0 <= j < |init| ensures init[j].index != last.index {
        assert sent[j].index != sent[k].index;
      }
      NotReceived(shown, angled, init, last.index);
    }
  }

  // ----- runs -----

  ghost predicate Shape(g: Stage, w: World) {
    && |w.held.states| == |g.setup.bindings| == |g.rowOf| == |w.members| && Bookkept(w.held)
    && RoutesOk(g.routes, |w.held.states|) && Mapped(g.rowOf, Begun(w.members, w.rows)) && Clean(w.rows)
    && |w.shown| == |w.angled| == |w.rows|
    && forall r :: 0 <= r < |w.rows| ==> LeadsOwnRow(g, w.rows[r], r)
  }

  predicate LeadsOwnRow(g: Stage, row: RenderRow, r: nat) {
    row.representative < |g.rowOf| && g.rowOf[row.representative] == r
  }

  lemma ShapeIsPreparable(g: Stage, w: World)
    requires Shape(g, w)
    ensures Preparable(g.rowOf, w.members, w.rows, Readings(g.setup, w.held.states), w.held.dirty)
  {
    forall r | 0 <= r < |w.rows| ensures w.rows[r].representative < |w.held.states| {
      assert LeadsOwnRow(g, w.rows[r], r);
    }
  }

  ghost function Outcome(g: Stage, w: World): Prepared
    requires Shape(g, w)
  {
    ShapeIsPreparable(g, w);
    Prepare(g.rowOf, w.members, w.rows, Readings(g.setup, w.held.states), w.held.dirty, g.curves)
  }

  function Retired(rows: seq<RenderRow>): (r: seq<RenderRow>)
    ensures |r| == |rows| && forall k :: 0 <= k < |rows| ==> r[k] == rows[k].(committed := false)
  {
    seq(|rows|, k requires 0 <= k < |rows| => rows[k].(committed := false))
  }

  ghost predicate Replayed(before: Held, after: Held) {
    Bookkept(after) && Invalidated(before.states, after.states)
  }

  ghost predicate Cleared(before: Held, after: Held) {
    && after.dirty == [] && |after.states| == |before.states|
    && forall i :: 0 <= i < |after.states| ==> after.states[i] == before.states[i].(mask := {})
  }

  ghost predicate FrameOk(frame: seq<Row>) {
    forall k :: 0 <= k < |frame| ==> RowOk(frame[k])
  }

  /** One call leads from `w` to `next`; pending bits are only cleared after the preparation that read them. */
  ghost predicate Follows(g: Stage, w: World, e: Event, next: World)
    requires Shape(g, w)
  {
    match e
    case Compose(frame) =>
      FrameOk(frame) && next == w.(held := ApplyRows(w.held, g.routes, frame), settled := false)
    case ReplayState =>
      Replayed(w.held, next.held) && next == w.(held := next.held, settled := false)
    case ReplayAll =>
      && Replayed(w.held, next.held)
      && next == World(next.held, w.members, Retired(w.rows), seq(|w.rows|, _ => None), seq(|w.rows|, _ => None), false)
    case PrepareRows =>
      var p := Outcome(g, w);
      next == World(w.held, p.members, p.rows, Receive(w.shown, p.sent), Turn(w.angled, p.sent), true)
    case Finish =>
      w.settled && Cleared(w.held, next.held) && next == w.(held := next.held)
  }

  /** A fresh installation: nothing accumulated, nothing shown, everything pending. */
  ghost predicate Initial(g: Stage, w: World) {
    && Shape(g, w) && !w.settled
    && (forall i :: 0 <= i < |w.members| ==> !w.members[i].valid && w.members[i].sum == ZERO)
    && (forall r :: 0 <= r < |w.rows| ==>
          w.rows[r].sum == ZERO && !w.rows[r].committed && w.shown[r].None? && w.angled[r].None?)
    && forall i: nat :: i < |w.held.states| ==> i in w.held.dirty
  }

  ghost predicate IsRun(g: Stage, ws: seq<World>, es: seq<Event>) {
    && |ws| == |es| + 1 && Initial(g, ws[0])
    && forall k :: 0 <= k < |es| ==> (Shape(g, ws[k]) ==> Follows(g, ws[k], es[k], ws[k + 1]))
  }

  // ----- the invariant -----

  predicate Current(g: Stage, states: seq<OutputState>, member: Member, i: nat)
    requires i < |states| == |g.setup.bindings|
  {
    member.valid && member.values == ValuesOf(g.setup, states, i)
  }

  predicate MemberInv(g: Stage, w: World, i: nat)
    requires i < |w.members| == |w.held.states| == |g.setup.bindings|
  {
    var m, s := w.members[i], w.held.states[i];
    && m.sum == (if m.valid then Contribution(m.values, g.curves) else ZERO)
    && (s.mask == {} ==> Current(g, w.held.states, m, i))
    && (m.valid ==> Turns(s.mask) || AnglesOf(m.values) == (s.raw.halfAngle, s.raw.fullAngle))
  }

  predicate RowInv(g: Stage, w: World, r: nat)
    requires r < |w.rows| == |w.shown| == |w.angled|
  {
    var row := w.rows[r];
    && row.representative < |w.members| == |w.held.states|
    && (row.committed ==>
          && row.previous == RowValues(row, w.members[row.representative].values, g.curves)
          && w.shown[r] == Some(row.previous) && w.angled[r] == Some(AnglesOf(row.previous)))
    && (!row.committed ==> w.shown[r].None? && w.held.states[row.representative].mask != {})
  }

  predicate ValidIn(g: Stage, w: World, i: nat)
    requires i < |w.members| && i < |g.rowOf| && g.rowOf[i] < |w.rows|
  {
    w.rows[g.rowOf[i]].committed ==> w.members[i].valid
  }

  ghost predicate Inv(g: Stage, w: World) {
    && Shape(g, w) && SumsOk(g.rowOf, w.members, w.rows)
    && (forall i :: 0 <= i < |w.members| ==> MemberInv(g, w, i) && ValidIn(g, w, i))
    && (forall r :: 0 <= r < |w.rows| ==> RowInv(g, w, r))
    && (w.settled ==> AllShown(g, w))
  }

  /** All members are current and all rows shown. */
  ghost predicate AllShown(g: Stage, w: World)
    requires Shape(g, w)
  {
    && (forall i :: 0 <= i < |w.members| ==> Current(g, w.held.states, w.members[i], i))
    && forall r :: 0 <= r < |w.rows| ==> w.rows[r].committed
  }

  lemma InitialInv(g: Stage, w: World)
    requires Initial(g, w)
    ensures Inv(g, w)
  {
    forall r | 0 <= r < |w.rows| ensures w.rows[r].sum == Total(g.rowOf, w.members, r, |w.members|) && RowInv(g, w, r) {
      NothingAccumulated(g.rowOf, w.members, r, |w.members|);
      assert LeadsOwnRow(g, w.rows[r], r);
      assert w.rows[r].representative in w.held.dirty;
    }
    forall i: nat | i < |w.members| ensures MemberInv(g, w, i) {
      assert i in w.held.dirty;
    }
  }

  lemma {:induction false} NothingAccumulated(rowOf: seq<nat>, members: seq<Member>, r: nat, upTo: nat)
    requires |rowOf| == |members| && upTo <= |members|
    requires forall i :: 0 <= i < |members| ==> members[i].sum == ZERO
    ensures Total(rowOf, members, r, upTo) == ZERO
  {
    if upTo > 0 {
      NothingAccumulated(rowOf, members, r, upTo - 1);
    }
  }

  // ----- composing a frame -----

  lemma {:induction false} RowsGrowMasks(h: Held, routes: Routes, frame: seq<Row>, i: nat)
    requires RoutesOk(routes, |h.states|) && FrameOk(frame) && i < |h.states|
    ensures h.states[i].mask <= ApplyRows(h, routes, frame).states[i].mask
  {
    if frame != [] {
      var last := |frame| - 1;
      var row := frame[last];
      RowsGrowMasks(h, routes, frame[..last], i);
      if (row.section, row.target) in routes {
        RouteEffect(ApplyRows(h, routes, frame[..last]), routes[(row.section, row.target)], row, i, 2);
      }
    }
  }

  /** Whatever a frame changes it marks, each section with its own bit. */
  lemma FrameMarks(h: Held, routes: Routes, frame: seq<Row>, i: nat)
    requires RoutesOk(routes, |h.states|) && FrameOk(frame) && i < |h.states|
    ensures var s, r := h.states[i], ApplyRows(h, routes, frame).states[i];
            && s.mask <= r.mask
            && (r.mask == {} ==> r.raw == s.raw)
            && (DIMMER !in r.mask ==> Fields(r.raw, 2) == Fields(s.raw, 2))
            && (COLOR !in r.mask ==> Fields(r.raw, 3) == Fields(s.raw, 3))
            && (ZOOM !in r.mask ==> r.raw.halfAngle == s.raw.halfAngle && r.raw.fullAngle == s.raw.fullAngle)
  {
    RowsGrowMasks(h, routes, frame, i);
    LatestRowWins(h, routes, frame, i, 2);
    LatestRowWins(h, routes, frame, i, 3);
    LatestRowWins(h, routes, frame, i, 4);
    var s, r := h.states[i].raw, ApplyRows(h, routes, frame).states[i].raw;
    assert SameSection(r, s, 4) ==> Fields(r, 4)[0] == Fields(s, 4)[0] && Fields(r, 4)[1] == Fields(s, 4)[1];
    if ApplyRows(h, routes, frame).states[i].mask == {} {
      assert SameSection(r, s, 2) && SameSection(r, s, 3) && SameSection(r, s, 4);
      AllSectionsAreAll(r, s);
    }
  }

  lemma AllSectionsAreAll(a: Raw, b: Raw)
    requires SameSection(a, b, 2) && SameSection(a, b, 3) && SameSection(a, b, 4)
    ensures a == b
  {
    assert Fields(a, 2)[0] == Fields(b, 2)[0] && Fields(a, 2)[1] == Fields(b, 2)[1] && Fields(a, 2)[2] == Fields(b, 2)[2];
    assert Fields(a, 2)[3] == Fields(b, 2)[3] && Fields(a, 2)[4] == Fields(b, 2)[4];
    assert Fields(a, 3)[0] == Fields(b, 3)[0] && Fields(a, 3)[1] == Fields(b, 3)[1];
    assert Fields(a, 3)[2] == Fields(b, 3)[2] && Fields(a, 3)[3] == Fields(b, 3)[3];
    assert Fields(a, 4)[0] == Fields(b, 4)[0] && Fields(a, 4)[1] == Fields(b, 4)[1];
  }

  /** How one output may change without its row being prepared. */
  predicate Drifts(s: OutputState, r: OutputState) {
    && (r.mask == {} ==> s.mask == {} && r.raw == s.raw)
    && (Turns(s.mask) ==> Turns(r.mask))
    && (!Turns(r.mask) ==> r.raw.halfAngle == s.raw.halfAngle && r.raw.fullAngle == s.raw.fullAngle)
  }

  lemma DriftKeepsMember(g: Stage, w: World, next: World, i: nat)
    requires i < |w.members| == |w.held.states| == |g.setup.bindings| == |next.held.states|
    requires next.members == w.members && MemberInv(g, w, i) && Drifts(w.held.states[i], next.held.states[i])
    ensures MemberInv(g, next, i)
  {
  }

  /** Changing the physical state alone keeps the invariant. */
  lemma DriftKeepsInv(g: Stage, w: World, next: World)
    requires Inv(g, w) && Shape(g, next) && next == w.(held := next.held, settled := false)
    requires forall i :: 0 <= i < |w.members| ==> Drifts(w.held.states[i], next.held.states[i])
    ensures Inv(g, next)
  {
    forall i | 0 <= i < |w.members| ensures MemberInv(g, next, i) && ValidIn(g, next, i) {
      assert MemberInv(g, w, i) && ValidIn(g, w, i);
      DriftKeepsMember(g, w, next, i);
    }
    forall r | 0 <= r < |w.rows| ensures RowInv(g, next, r) {
      assert RowInv(g, w, r) && LeadsOwnRow(g, w.rows[r], r);
      assert Drifts(w.held.states[w.rows[r].representative], next.held.states[w.rows[r].representative]);
    }
  }

  lemma ComposeKeepsInv(g: Stage, w: World, frame: seq<Row>)
    requires Inv(g, w) && FrameOk(frame)
    ensures Inv(g, w.(held := ApplyRows(w.held, g.routes, frame), settled := false))
  {
    var next := w.(held := ApplyRows(w.held, g.routes, frame), settled := false);
    RowsKeepBooks(w.held, g.routes, frame);
    forall i | 0 <= i < |w.members| ensures Drifts(w.held.states[i], next.held.states[i]) {
      FrameMarks(w.held, g.routes, frame, i);
    }
    forall r | 0 <= r < |next.rows| ensures LeadsOwnRow(g, next.rows[r], r) {
      assert LeadsOwnRow(g, w.rows[r], r);
    }
    DriftKeepsInv(g, w, next);
  }

  lemma ReplayStateKeepsInv(g: Stage, w: World, held: Held)
    requires Inv(g, w) && Replayed(w.held, held)
    ensures Inv(g, w.(held := held, settled := false))
  {
    var next := w.(held := held, settled := false);
    forall i | 0 <= i < |w.members| ensures Drifts(w.held.states[i], held.states[i]) {
      assert held.states[i] == InvalidatedOne(w.held.states[i]);
    }
    forall r | 0 <= r < |next.rows| ensures LeadsOwnRow(g, next.rows[r], r) {
      assert LeadsOwnRow(g, w.rows[r], r);
    }
    DriftKeepsInv(g, w, next);
  }

  lemma ReplayAllKeepsInv(g: Stage, w: World, next: World)
    requires Inv(g, w) && Follows(g, w, ReplayAll, next)
    ensures Inv(g, next)
  {
    forall r | 0 <= r < |next.rows| ensures LeadsOwnRow(g, next.rows[r], r) && RowInv(g, next, r) {
      assert LeadsOwnRow(g, w.rows[r], r);
      assert next.held.states[w.rows[r].representative] == InvalidatedOne(w.held.states[w.rows[r].representative]);
      assert BEAM_TOPOLOGY in next.held.states[w.rows[r].representative].mask;
    }
    forall i | 0 <= i < |w.members| ensures MemberInv(g, next, i) && ValidIn(g, next, i) {
      assert MemberInv(g, w, i) && next.held.states[i] == InvalidatedOne(w.held.states[i]);
      assert BEAM_TOPOLOGY in next.held.states[i].mask;
    }
    forall r | 0 <= r < |next.rows| && next.rows[r].kind.Aggregated?
      ensures next.rows[r].sum == Total(g.rowOf, next.members, r, |next.members|)
    {
      assert next.rows[r].sum == w.rows[r].sum;
    }
  }

  lemma FinishKeepsInv(g: Stage, w: World, next: World)
    requires Inv(g, w) && Follows(g, w, Finish, next)
    ensures Inv(g, next)
  {
    forall i | 0 <= i < |w.members| ensures MemberInv(g, next, i) && ValidIn(g, next, i) && Current(g, next.held.states, next.members[i], i) {
      assert MemberInv(g, w, i) && ValidIn(g, w, i) && Current(g, w.held.states, w.members[i], i);
    }
    forall r | 0 <= r < |w.rows| ensures LeadsOwnRow(g, next.rows[r], r) && RowInv(g, next, r) {
      assert LeadsOwnRow(g, w.rows[r], r) && RowInv(g, w, r);
    }
  }

  // ----- preparing the rows -----

  ghost function Absorbed(g: Stage, w: World): Work
    requires Shape(g, w)
  {
    ShapeIsPreparable(g, w);
    AbsorbAll(g.rowOf, Begun(w.members, w.rows), Readings(g.setup, w.held.states), w.held.dirty, g.curves)
  }

  ghost predicate ChangedNow(g: Stage, w: World, i: nat)
    requires Shape(g, w)
  {
    Changed(g.rowOf, Begun(w.members, w.rows), Readings(g.setup, w.held.states), w.held.dirty, i)
  }

  /** After the first pass every member is current. */
  lemma MembersBecomeCurrent(g: Stage, w: World)
    requires Inv(g, w)
    ensures var a := Absorbed(g, w);
            && SameHistory(w.rows, a.rows) && SumsOk(g.rowOf, a.members, a.rows) && Listed(a)
            && forall i :: 0 <= i < |w.members| ==>
                 Current(g, w.held.states, a.members[i], i) && a.members[i].sum == Contribution(a.members[i].values, g.curves)
  {
    var readings, begun := Readings(g.setup, w.held.states), Begun(w.members, w.rows);
    AbsorbedMembers(g.rowOf, begun, readings, w.held.dirty, g.curves);
    AbsorbAllKeepsSums(g.rowOf, begun, readings, w.held.dirty, g.curves);
    AbsorbAllKeepsList(g.rowOf, begun, readings, w.held.dirty, g.curves);
    var a := Absorbed(g, w);
    forall i: nat | i < |w.members|
      ensures Current(g, w.held.states, a.members[i], i) && a.members[i].sum == Contribution(a.members[i].values, g.curves)
    {
      assert MemberInv(g, w, i) && (i in w.held.dirty <==> w.held.states[i].mask != {});
    }
  }

  lemma MaskHas(g: Stage, w: World, r: nat, bit: nat)
    requires Inv(g, w) && r < |w.rows|
    ensures bit in Absorbed(g, w).rows[r].mask <==>
              Marked(g.rowOf, Begun(w.members, w.rows), Readings(g.setup, w.held.states), w.held.dirty, r, bit)
  {
    ShapeIsPreparable(g, w);
    AbsorbedMask(g.rowOf, Begun(w.members, w.rows), Readings(g.setup, w.held.states), w.held.dirty, g.curves, r, bit);
  }

  /** A changed member marks its row with everything it had pending. */
  lemma ChangeMarks(g: Stage, w: World, i: nat, bit: nat)
    requires Inv(g, w) && ChangedNow(g, w, i)
    requires bit == DIMMER || bit in w.held.states[i].mask || (bit == BEAM_TOPOLOGY && !w.rows[g.rowOf[i]].committed)
    ensures bit in Absorbed(g, w).rows[g.rowOf[i]].mask
  {
    var r := g.rowOf[i];
    assert MarkedBy(g.rowOf, Begun(w.members, w.rows), Readings(g.setup, w.held.states), w.held.dirty, r, bit, i);
    MaskHas(g, w, r, bit);
  }

  /** An uncommitted row is touched, and as a full refresh. */
  lemma UncommittedIsTouched(g: Stage, w: World, r: nat)
    requires Inv(g, w) && r < |w.rows| && !w.rows[r].committed
    ensures BEAM_TOPOLOGY in Absorbed(g, w).rows[r].mask
  {
    assert RowInv(g, w, r) && LeadsOwnRow(g, w.rows[r], r);
    var i := w.rows[r].representative;
    assert i in w.held.dirty <==> w.held.states[i].mask != {};
    assert ChangedNow(g, w, i);
    ChangeMarks(g, w, i, BEAM_TOPOLOGY);
  }

  /** A row that shows other angles than its representative holds is marked for turning. */
  lemma TurnedIsMarked(g: Stage, w: World, r: nat)
    requires Inv(g, w) && r < |w.rows| && w.rows[r].committed
    requires var i := w.rows[r].representative;
             i < |w.held.states| && AnglesOf(w.rows[r].previous) != AnglesOf(ValuesOf(g.setup, w.held.states, i))
    ensures Turns(Absorbed(g, w).rows[r].mask)
  {
    var i := w.rows[r].representative;
    assert RowInv(g, w, r) && LeadsOwnRow(g, w.rows[r], r) && MemberInv(g, w, i) && ValidIn(g, w, i);
    assert AnglesOf(w.rows[r].previous) == AnglesOf(w.members[i].values);
    assert i in w.held.dirty <==> w.held.states[i].mask != {};
    assert ChangedNow(g, w, i);
    if ZOOM in w.held.states[i].mask {
      ChangeMarks(g, w, i, ZOOM);
    } else {
      ChangeMarks(g, w, i, BEAM_TOPOLOGY);
    }
  }

  lemma RowValuesStay(row: RenderRow, x: RenderValues, curves: Curves)
    ensures var v := RowValues(row, x, curves);
            RowValues(row.(previous := v, committed := true, mask := {}), x, curves) == v
    ensures AnglesOf(RowValues(row, x, curves)) == AnglesOf(x)
  {
  }

  ghost predicate RowPrepared(g: Stage, w: World, r: nat)
    requires Shape(g, w) && r < |w.rows|
  {
    var p := Outcome(g, w);
    && r < |p.rows| && p.rows[r].committed && p.rows[r].mask == {}
    && p.rows[r].representative == w.rows[r].representative < |w.held.states|
    && p.rows[r].previous == RowValues(p.rows[r], ValuesOf(g.setup, w.held.states, w.rows[r].representative), g.curves)
    && Receive(w.shown, p.sent)[r] == Some(p.rows[r].previous)
    && Turn(w.angled, p.sent)[r] == Some(AnglesOf(p.rows[r].previous))
  }

  /** Rows sent are exactly those the second pass found different. */
  lemma SentExactly(g: Stage, w: World, r: nat)
    requires Inv(g, w) && r < |w.rows|
    ensures var p, a, i := Outcome(g, w), Absorbed(g, w), w.rows[r].representative;
            && OneRowEach(p.sent) && i < |w.held.states| && a.rows[r].representative == i
            && (HasRow(p.sent, r) <==>
                  a.rows[r].mask != {} && Sends(a.rows[r], RowValues(a.rows[r], ValuesOf(g.setup, w.held.states, i), g.curves)))
            && (forall k :: 0 <= k < |p.sent| && p.sent[k].index == r ==>
                  p.sent[k].mask == a.rows[r].mask &&
                  p.sent[k].values == RowValues(a.rows[r], ValuesOf(g.setup, w.held.states, i), g.curves))
  {
    MembersBecomeCurrent(g, w);
    ShapeIsPreparable(g, w);
    var a, readings := Absorbed(g, w), Readings(g.setup, w.held.states);
    TouchedIsWithin(a);
    assert LeadsOwnRow(g, w.rows[r], r);
    SentRowsAreOk(a.rows, readings, a.touched, g.curves);
    SentRowsAreDistinct(a.rows, readings, a.touched, g.curves);
    var p := Outcome(g, w);
    if HasRow(p.sent, r) {
      var k :| 0 <= k < |p.sent| && p.sent[k].index == r;
      assert SentOk(a.rows, readings, a.touched, g.curves, p.sent[k]);
    }
    if r in a.touched && Sends(a.rows[r], NewValues(a.rows[r], readings, g.curves)) {
      SentRowsAreComplete(a.rows, readings, a.touched, g.curves, r);
    }
    forall k | 0 <= k < |p.sent| && p.sent[k].index == r ensures SentOk(a.rows, readings, a.touched, g.curves, p.sent[k]) {
    }
  }

  lemma UntouchedIsPrepared(g: Stage, w: World, r: nat)
    requires Inv(g, w) && r < |w.rows| && Absorbed(g, w).rows[r].mask == {}
    ensures RowPrepared(g, w, r)
    ensures Absorbed(g, w).rows[r] == w.rows[r]
    ensures w.rows[r].representative < |w.members| &&
            w.members[w.rows[r].representative].values == ValuesOf(g.setup, w.held.states, w.rows[r].representative)
  {
    ShapeIsPreparable(g, w);
    MembersBecomeCurrent(g, w);
    assert RowInv(g, w, r) && LeadsOwnRow(g, w.rows[r], r);
    Untouched(g.rowOf, Begun(w.members, w.rows), Readings(g.setup, w.held.states), w.held.dirty, g.curves, r);
    if !w.rows[r].committed {
      UncommittedIsTouched(g, w, r);
    }
    SentExactly(g, w, r);
    NotReceived(w.shown, w.angled, Outcome(g, w).sent, r);
    assert Current(g, w.held.states, Absorbed(g, w).members[w.rows[r].representative], w.rows[r].representative);
  }

  lemma UnsentIsPrepared(g: Stage, w: World, r: nat)
    requires Inv(g, w) && r < |w.rows| && Absorbed(g, w).rows[r].mask != {} && !HasRow(Outcome(g, w).sent, r)
    ensures RowPrepared(g, w, r)
  {
    MembersBecomeCurrent(g, w);
    assert RowInv(g, w, r) && LeadsOwnRow(g, w.rows[r], r);
    SentExactly(g, w, r);
    NotReceived(w.shown, w.angled, Outcome(g, w).sent, r);
  }

  lemma SentIsPrepared(g: Stage, w: World, r: nat)
    requires Inv(g, w) && r < |w.rows| && HasRow(Outcome(g, w).sent, r)
    ensures RowPrepared(g, w, r)
  {
    MembersBecomeCurrent(g, w);
    assert RowInv(g, w, r) && LeadsOwnRow(g, w.rows[r], r);
    SentExactly(g, w, r);
    var p, a := Outcome(g, w), Absorbed(g, w);
    var k :| 0 <= k < |p.sent| && p.sent[k].index == r;
    Received(w.shown, w.angled, p.sent, k);
    var x := ValuesOf(g.setup, w.held.states, w.rows[r].representative);
    RowValuesStay(a.rows[r], x, g.curves);
    if !Turns(a.rows[r].mask) {
      if !w.rows[r].committed {
        UncommittedIsTouched(g, w, r);
      } else if AnglesOf(w.rows[r].previous) != AnglesOf(x) {
        TurnedIsMarked(g, w, r);
      }
    }
  }

  lemma PrepareKeepsInv(g: Stage, w: World, next: World)
    requires Inv(g, w) && Follows(g, w, PrepareRows, next)
    ensures Inv(g, next)
  {
    MembersBecomeCurrent(g, w);
    var a, p := Absorbed(g, w), Outcome(g, w);
    forall r | 0 <= r < |w.rows| ensures RowPrepared(g, w, r) {
      if a.rows[r].mask == {} {
        UntouchedIsPrepared(g, w, r);
      } else if HasRow(p.sent, r) {
        SentIsPrepared(g, w, r);
      } else {
        UnsentIsPrepared(g, w, r);
      }
    }
    PreparedInv(g, w, next);
  }

  lemma PreparedInv(g: Stage, w: World, next: World)
    requires Inv(g, w) && Follows(g, w, PrepareRows, next)
    requires forall r :: 0 <= r < |w.rows| ==> RowPrepared(g, w, r)
    ensures Inv(g, next)
  {
    MembersBecomeCurrent(g, w);
    var a := Absorbed(g, w);
    forall r | 0 <= r < |next.rows| ensures LeadsOwnRow(g, next.rows[r], r) && RowInv(g, next, r) && next.rows[r].mask == {} {
      assert RowPrepared(g, w, r) && LeadsOwnRow(g, w.rows[r], r);
      assert Current(g, w.held.states, next.members[next.rows[r].representative], next.rows[r].representative);
    }
    forall i | 0 <= i < |next.members| ensures MemberInv(g, next, i) && Current(g, next.held.states, next.members[i], i) {
      assert Current(g, w.held.states, a.members[i], i);
    }
    forall i | 0 <= i < |next.members| ensures ValidIn(g, next, i) {
      assert Current(g, w.held.states, a.members[i], i);
    }
    forall r | 0 <= r < |next.rows| && next.rows[r].kind.Aggregated?
      ensures next.rows[r].sum == Total(g.rowOf, next.members, r, |next.members|)
    {
      assert next.rows[r].sum == a.rows[r].sum && a.rows[r].kind.Aggregated?;
    }
    forall r | 0 <= r < |next.rows| ensures next.rows[r].committed {
      assert RowPrepared(g, w, r);
    }
  }

  lemma StepKeepsInv(g: Stage, w: World, e: Event, next: World)
    requires Inv(g, w) && Follows(g, w, e, next)
    ensures Inv(g, next)
  {
    match e
    case Compose(frame) => ComposeKeepsInv(g, w, frame);
    case ReplayState => ReplayStateKeepsInv(g, w, next.held);
    case ReplayAll => ReplayAllKeepsInv(g, w, next);
    case PrepareRows => PrepareKeepsInv(g, w, next);
    case Finish => FinishKeepsInv(g, w, next);
  }

  lemma {:induction false} RunsKeepInv(g: Stage, ws: seq<World>, es: seq<Event>, k: nat)
    requires IsRun(g, ws, es) && k < |ws|
    ensures Inv(g, ws[k])
  {
    if k == 0 {
      InitialInv(g, ws[0]);
    } else {
      RunsKeepInv(g, ws, es, k - 1);
      StepKeepsInv(g, ws[k - 1], es[k - 1], ws[k]);
    }
  }

  // ----- what every run guarantees -----

  /** The sum of the contributions of the outputs of a row, from the physical state alone. */
  ghost function PhysicalTotal(g: Stage, states: seq<OutputState>, r: nat, upTo: nat): Sum
    requires |states| == |g.setup.bindings| == |g.rowOf| && upTo <= |states|
  {
    if upTo == 0 then ZERO else
      var rest := PhysicalTotal(g, states, r, upTo - 1);
      if g.rowOf[upTo - 1] == r then Plus(rest, Contribution(ValuesOf(g.setup, states, upTo - 1), g.curves)) else rest
  }

  lemma {:induction false} TotalIsPhysical(g: Stage, states: seq<OutputState>, members: seq<Member>, r: nat, upTo: nat)
    requires |states| == |g.setup.bindings| == |g.rowOf| == |members| && upTo <= |states|
    requires forall i :: 0 <= i < |members| ==>
               Current(g, states, members[i], i) && members[i].sum == Contribution(members[i].values, g.curves)
    ensures Total(g.rowOf, members, r, upTo) == PhysicalTotal(g, states, r, upTo)
  {
    if upTo > 0 {
      TotalIsPhysical(g, states, members, r, upTo - 1);
      assert Current(g, states, members[upTo - 1], upTo - 1);
    }
  }

  /** The values a row stands for, from the physical state and the row's last color for the case that it is dark. */
  ghost function Composite(g: Stage, states: seq<OutputState>, row: RenderRow, r: nat): RenderValues
    requires |states| == |g.setup.bindings| == |g.rowOf| && row.representative < |states|
  {
    RowValues(row.(sum := PhysicalTotal(g, states, r, |states|)), ValuesOf(g.setup, states, row.representative), g.curves)
  }

  lemma AbsorbedIsComposite(g: Stage, w: World, r: nat)
    requires Inv(g, w) && r < |w.rows|
    ensures w.rows[r].representative < |w.held.states|
    ensures var i := w.rows[r].representative;
            RowValues(Absorbed(g, w).rows[r], ValuesOf(g.setup, w.held.states, i), g.curves) ==
            Composite(g, w.held.states, w.rows[r], r)
  {
    MembersBecomeCurrent(g, w);
    assert LeadsOwnRow(g, w.rows[r], r);
    TotalIsPhysical(g, w.held.states, Absorbed(g, w).members, r, |w.members|);
  }

  /**
    After every preparation of every run each row shows exactly what the physical outputs of the row stand for, as if
    all contributions were added afresh, and its angles were last taken from a row marked for turning.
  */
  lemma RowsShowThePhysicalState(g: Stage, ws: seq<World>, es: seq<Event>, k: nat, r: nat)
    requires IsRun(g, ws, es) && k < |es| && es[k].PrepareRows? && r < |ws[k].rows|
    ensures Shape(g, ws[k]) && Shape(g, ws[k + 1]) && |ws[k + 1].rows| == |ws[k].rows|
    ensures ws[k].rows[r].representative < |ws[k].held.states|
    ensures var v := Composite(g, ws[k].held.states, ws[k].rows[r], r);
            ws[k + 1].shown[r] == Some(v) && ws[k + 1].angled[r] == Some(AnglesOf(v))
  {
    RunsKeepInv(g, ws, es, k);
    RunsKeepInv(g, ws, es, k + 1);
    var w, next := ws[k], ws[k + 1];
    assert Follows(g, w, es[k], next);
    ShownIsComposite(g, w, next, r);
  }

  lemma ShownIsComposite(g: Stage, w: World, next: World, r: nat)
    requires Inv(g, w) && Inv(g, next) && Follows(g, w, PrepareRows, next) && r < |w.rows|
    ensures |next.rows| == |w.rows| && w.rows[r].representative < |w.held.states|
    ensures var v := Composite(g, w.held.states, w.rows[r], r);
            next.shown[r] == Some(v) && next.angled[r] == Some(AnglesOf(v))
  {
    MembersBecomeCurrent(g, w);
    AbsorbedIsComposite(g, w, r);
    SentExactly(g, w, r);
    assert LeadsOwnRow(g, w.rows[r], r) && RowInv(g, w, r) && RowInv(g, next, r);
    var p := Outcome(g, w);
    if HasRow(p.sent, r) {
      var k :| 0 <= k < |p.sent| && p.sent[k].index == r;
      Received(w.shown, w.angled, p.sent, k);
    } else {
      NotReceived(w.shown, w.angled, p.sent, r);
      if Absorbed(g, w).rows[r].mask == {} {
        UntouchedIsPrepared(g, w, r);
      }
    }
  }

  /**
    A preparation sends each row at most once, and sends it if and only if it does not show its composite yet or some
    output of the row waits for a replay.
  */
  lemma RowsAreSentWhenNeeded(g: Stage, ws: seq<World>, es: seq<Event>, k: nat, r: nat)
    requires IsRun(g, ws, es) && k < |ws| && r < |ws[k].rows|
    ensures Shape(g, ws[k]) && ws[k].rows[r].representative < |ws[k].held.states|
    ensures OneRowEach(Outcome(g, ws[k]).sent)
    ensures HasRow(Outcome(g, ws[k]).sent, r) <==>
              || ws[k].shown[r] != Some(Composite(g, ws[k].held.states, ws[k].rows[r], r))
              || AwaitsReplay(g, ws[k], r)
  {
    RunsKeepInv(g, ws, es, k);
    SentIffNeeded(g, ws[k], r);
  }

  ghost predicate AwaitsReplay(g: Stage, w: World, r: nat) {
    exists i: nat :: i < |w.held.states| && i < |g.rowOf| && g.rowOf[i] == r && BEAM_TOPOLOGY in w.held.states[i].mask
  }

  lemma SentIffNeeded(g: Stage, w: World, r: nat)
    requires Inv(g, w) && r < |w.rows|
    ensures w.rows[r].representative < |w.held.states| && OneRowEach(Outcome(g, w).sent)
    ensures HasRow(Outcome(g, w).sent, r) <==>
              w.shown[r] != Some(Composite(g, w.held.states, w.rows[r], r)) || AwaitsReplay(g, w, r)
  {
    MembersBecomeCurrent(g, w);
    AbsorbedIsComposite(g, w, r);
    SentExactly(g, w, r);
    assert LeadsOwnRow(g, w.rows[r], r) && RowInv(g, w, r);
    if w.rows[r].committed {
      ReplayMarks(g, w, r);
      if Absorbed(g, w).rows[r].mask == {} {
        UntouchedIsPrepared(g, w, r);
      }
    } else {
      UncommittedIsTouched(g, w, r);
    }
  }

  lemma ReplayMarks(g: Stage, w: World, r: nat)
    requires Inv(g, w) && r < |w.rows| && w.rows[r].committed
    ensures BEAM_TOPOLOGY in Absorbed(g, w).rows[r].mask <==> AwaitsReplay(g, w, r)
  {
    MaskHas(g, w, r, BEAM_TOPOLOGY);
    var begun, readings := Begun(w.members, w.rows), Readings(g.setup, w.held.states);
    if Marked(g.rowOf, begun, readings, w.held.dirty, r, BEAM_TOPOLOGY) {
      var i :| MarkedBy(g.rowOf, begun, readings, w.held.dirty, r, BEAM_TOPOLOGY, i);
      assert ValidIn(g, w, i);
    }
    if AwaitsReplay(g, w, r) {
      var i: nat :| i < |w.held.states| && g.rowOf[i] == r && BEAM_TOPOLOGY in w.held.states[i].mask;
      assert i in w.held.dirty <==> w.held.states[i].mask != {};
      assert MarkedBy(g.rowOf, begun, readings, w.held.dirty, r, BEAM_TOPOLOGY, i);
    }
  }
}
