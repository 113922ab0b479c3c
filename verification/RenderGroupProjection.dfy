/** The projection onto renderer rows as the object that is updated in place beside the physical state. */
module RenderGroupProjection {
  import opened Prelude
  import opened DenseModel
  import opened DensePresentation
  import opened RenderProjection
  import opened RenderRuns

  /** How many of the first `upTo` outputs belong to row `r`. */
  function CountOf(mapping: seq<nat>, r: nat, upTo: nat): nat
    requires upTo <= |mapping|
  {
    if upTo == 0 then 0 else CountOf(mapping, r, upTo - 1) + (if mapping[upTo - 1] == r then 1 else 0)
  }

  /** Row `r` has a supported class and members, and exactly one if it is individual. */
  predicate RowAccepted(mapping: seq<nat>, kinds: seq<RowKind>, r: nat)
    requires r < |kinds|
  {
    && !kinds[r].Instanced? && CountOf(mapping, r, |mapping|) > 0
    && (kinds[r].Individual? ==> CountOf(mapping, r, |mapping|) == 1)
  }

  ghost predicate Accepted(mapping: seq<nat>, kinds: seq<RowKind>) {
    && (forall i :: 0 <= i < |mapping| ==> mapping[i] < |kinds|)
    && forall r :: 0 <= r < |kinds| ==> RowAccepted(mapping, kinds, r)
  }

  const NO_VALUES := RenderValues(0.0, 0.0, 0.0, 0.0, 0.0, 0.0, 0.0, 0.0, 0.0, 0.0, 0.0, 0.0)

  function FreshRow(kind: RowKind, representative: nat): RenderRow {
    RenderRow(ZERO, representative, {}, kind, NO_VALUES, false)
  }

  /** The lowest output of each row leads it. */
  predicate Leads(mapping: seq<nat>, i: nat, r: nat) {
    i < |mapping| && mapping[i] == r && forall j :: 0 <= j < i ==> mapping[j] != r
  }

  lemma {:induction false} NoneCounted(mapping: seq<nat>, r: nat, upTo: nat)
    requires upTo <= |mapping| && forall j :: 0 <= j < upTo ==> mapping[j] != r
    ensures CountOf(mapping, r, upTo) == 0
  {
    if upTo > 0 {
      NoneCounted(mapping, r, upTo - 1);
    }
  }

  class RenderGroupProjection {
    const curves: Curves
    var rowOf: seq<nat>
    var members: seq<Member>
    var rows: seq<RenderRow>
    var dirtyRows: seq<nat>
    var prepared: seq<PreparedOutput>

    /** Outputs have rows, rows are led by outputs, and no bit is left over between preparations. */
    ghost predicate Valid()
      reads this`rowOf, this`members, this`rows
    {
      && Mapped(rowOf, Begun(members, rows)) && Clean(rows)
      && forall r :: 0 <= r < |rows| ==> rows[r].representative < |rowOf| && rowOf[rows[r].representative] == r
    }

    constructor (curves: Curves)
      ensures Valid() && rows == [] && members == [] && this.curves == curves
    {
      this.curves := curves;
      rowOf, members, rows, dirtyRows, prepared := [], [], [], [], [];
    }

    method Clear()
      modifies this
      ensures Valid() && rowOf == [] && members == [] && rows == [] && dirtyRows == [] && prepared == []
    {
      rowOf, members, rows, dirtyRows, prepared := [], [], [], [], [];
    }

    static method CountRows(mapping: seq<nat>, rowCount: nat) returns (ok: bool, counts: seq<nat>)
      ensures ok <==> forall i :: 0 <= i < |mapping| ==> mapping[i] < rowCount
      ensures ok ==> |counts| == rowCount && forall r :: 0 <= r < rowCount ==> counts[r] == CountOf(mapping, r, |mapping|)
    {
      counts := seq(rowCount, _ => 0);
      for i := 0 to |mapping|
        invariant |counts| == rowCount
        invariant forall j :: 0 <= j < i ==> mapping[j] < rowCount
        invariant forall r :: 0 <= r < rowCount ==> counts[r] == CountOf(mapping, r, i)
      {
        if mapping[i] >= rowCount {
          return false, counts;
        }
        counts := counts[mapping[i] := counts[mapping[i]] + 1];
      }
      return true, counts;
    }

    static method CheckRows(mapping: seq<nat>, kinds: seq<RowKind>) returns (ok: bool)
      ensures ok <==> Accepted(mapping, kinds)
    {
      var counts: seq<nat>;
      ok, counts := CountRows(mapping, |kinds|);
      if !ok {
        return false;
      }
      for r := 0 to |kinds|
        invariant forall q :: 0 <= q < r ==> RowAccepted(mapping, kinds, q)
      {
        if counts[r] == 0 || (!kinds[r].Individual? && !kinds[r].Aggregated?) || (kinds[r].Individual? && counts[r] != 1) {
          assert !RowAccepted(mapping, kinds, r);
          return false;
        }
      }
      return true;
    }

    /** Replaces the membership after complete validation; a rejected one changes nothing. */
    method Install(mapping: seq<nat>, kinds: seq<RowKind>) returns (ok: bool)
      modifies this
      ensures ok <==> Accepted(mapping, kinds)
      ensures !ok ==> unchanged(this)
      ensures ok ==> Valid() && rowOf == mapping && |members| == |mapping| && |rows| == |kinds|
      ensures ok ==> forall i :: 0 <= i < |members| ==> members[i] == Member(NO_VALUES, ZERO, false)
      ensures ok ==> forall r :: 0 <= r < |rows| ==>
                Leads(mapping, rows[r].representative, r) && rows[r] == FreshRow(kinds[r], rows[r].representative)
    {
      ok := CheckRows(mapping, kinds);
      if !ok {
        return false;
      }
      Clear();
      rowOf := mapping;
      members := seq(|mapping|, _ => Member(NO_VALUES, ZERO, false));
      rows := LeadRows(mapping, kinds);
    }

    /** Walking the outputs from the last to the first leaves the lowest one as the representative of its row. */
    static method LeadRows(mapping: seq<nat>, kinds: seq<RowKind>) returns (rows: seq<RenderRow>)
      requires Accepted(mapping, kinds)
      ensures |rows| == |kinds|
      ensures forall r :: 0 <= r < |rows| ==>
                Leads(mapping, rows[r].representative, r) && rows[r] == FreshRow(kinds[r], rows[r].representative)
    {
      rows := seq(|kinds|, r requires 0 <= r < |kinds| => FreshRow(kinds[r], 0));
      var i: nat := |mapping|;
      while i > 0
        invariant 0 <= i <= |mapping| && |rows| == |kinds|
        invariant forall r :: 0 <= r < |rows| ==> rows[r] == FreshRow(kinds[r], rows[r].representative)
        invariant forall r: nat :: r < |rows| ==> LeadsFrom(mapping, rows[r].representative, r, i)
      {
        i := i - 1;
        rows := rows[mapping[i] := rows[mapping[i]].(representative := i)];
      }
      forall r: nat | r < |rows| ensures Leads(mapping, rows[r].representative, r) {
        assert LeadsFrom(mapping, rows[r].representative, r, 0) && RowAccepted(mapping, kinds, r);
        if forall j :: 0 <= j < |mapping| ==> mapping[j] != r {
          NoneCounted(mapping, r, |mapping|);
        }
      }
    }

    /** Renderer replacement replays held values; membership and sums stay. */
    method Invalidate()
      requires Valid()
      modifies this`rows
      ensures Valid() && rows == Retired(old(rows))
    {
      for r := 0 to |rows|
        invariant |rows| == |old(rows)|
        invariant forall k :: 0 <= k < r ==> rows[k] == old(rows)[k].(committed := false)
        invariant forall k :: r <= k < |rows| ==> rows[k] == old(rows)[k]
      {
        rows := rows[r := rows[r].(committed := false)];
      }
    }

    /** Accounts for one dirty output: its old contribution leaves the row's sum, its new one enters. */
    method AbsorbOne(index: nat, reading: Reading)
      requires |rowOf| == |members| && (index < |rowOf| ==> rowOf[index] < |rows|)
      modifies this`members, this`rows, this`dirtyRows
      ensures Work(members, rows, dirtyRows) == Absorb(rowOf, Work(old(members), old(rows), old(dirtyRows)), index, reading, curves)
    {
      if index >= |members| {
        return;
      }
      var was, row := members[index], rows[rowOf[index]];
      if was.valid && was.values == reading.values && row.committed && BEAM_TOPOLOGY !in reading.pending {
        return;
      }
      if row.mask == {} {
        dirtyRows := dirtyRows + [rowOf[index]];
      }
      var mask := row.mask + (reading.pending + {DIMMER, COLOR, MATERIAL});
      if !was.valid || !row.committed {
        mask := mask + {BEAM_TOPOLOGY, ZOOM};
      }
      assert mask == row.mask + NewBits(was, row, reading);
      var next := MemberOf(reading.values, curves);
      var sum := row.sum;
      if row.kind.Aggregated? {
        sum := Sum(sum.energy + (next.sum.energy - was.sum.energy), sum.red + (next.sum.red - was.sum.red),
          sum.green + (next.sum.green - was.sum.green), sum.blue + (next.sum.blue - was.sum.blue),
          sum.intensity + (next.sum.intensity - was.sum.intensity));
      }
      rows := rows[rowOf[index] := row.(mask := mask, sum := sum)];
      members := members[index := next];
    }

    /** Sends one touched row if it shows something new, and clears its bits. */
    method SettleOne(r: nat, v: RenderValues)
      requires r < |rows|
      modifies this`rows, this`prepared
      ensures rows == old(rows)[r := Settled(old(rows)[r], RowValues(old(rows)[r], v, curves))]
      ensures prepared == old(prepared) + SentIf(r, old(rows)[r], RowValues(old(rows)[r], v, curves))
    {
      var row := rows[r];
      var values := RowValues(row, v, curves);
      if !row.committed || row.previous != values || BEAM_TOPOLOGY in row.mask {
        prepared := prepared + [PreparedOutput(r, row.mask, values)];
        row := row.(previous := values, committed := true);
      }
      rows := rows[r := row.(mask := {})];
    }

    ghost predicate Ready(physical: DensePresentationState)
      reads this`rowOf, this`members, this`rows, physical
    {
      && Valid() && physical.Valid()
      && forall r :: 0 <= r < |rows| ==> rows[r].representative < |physical.states|
    }

    /** Reduces every dirty output to its row and sends each touched row that changed. */
    method Prepare(physical: DensePresentationState)
      requires Ready(physical)
      modifies this`members, this`rows, this`dirtyRows, this`prepared
      ensures Ready(physical)
      ensures var readings := Readings(physical.Configuration(), physical.states);
              && Preparable(rowOf, old(members), old(rows), readings, physical.dirty)
              && Prepared(members, rows, prepared) ==
                 RenderProjection.Prepare(rowOf, old(members), old(rows), readings, physical.dirty, curves)
    {
      ghost var readings, begun := Readings(physical.Configuration(), physical.states), Begun(members, rows);
      prepared, dirtyRows := [], [];
      AbsorbDirty(physical, readings);
      AbsorbedMembers(rowOf, begun, readings, physical.dirty, curves);
      AbsorbAllKeepsList(rowOf, begun, readings, physical.dirty, curves);
      TouchedIsWithin(Work(members, rows, dirtyRows));
      SettlingCleans(Work(members, rows, dirtyRows), readings, curves);
      SettleTouched(physical, readings);
    }

    method AbsorbDirty(physical: DensePresentationState, ghost readings: seq<Reading>)
      requires Mapped(rowOf, Begun(members, rows)) && physical.Valid() && dirtyRows == []
      requires readings == Readings(physical.Configuration(), physical.states)
      modifies this`members, this`rows, this`dirtyRows
      ensures Readable(readings, physical.dirty)
      ensures Work(members, rows, dirtyRows) ==
              AbsorbAll(rowOf, Begun(old(members), old(rows)), readings, physical.dirty, curves)
    {
      ghost var begun := Begun(members, rows);
      for k := 0 to |physical.dirty|
        invariant Work(members, rows, dirtyRows) == AbsorbAll(rowOf, begun, readings, physical.dirty[..k], curves)
      {
        assert physical.dirty[..k + 1][..k] == physical.dirty[..k];
        var index := physical.dirty[k];
        var s := physical.states[index];
        AbsorbOne(index, Reading(Render(s.raw, physical.bindings[index].scale, physical.visualGain), s.mask));
      }
      assert physical.dirty[..|physical.dirty|] == physical.dirty;
    }

    method SettleTouched(physical: DensePresentationState, ghost readings: seq<Reading>)
      requires physical.Valid() && readings == Readings(physical.Configuration(), physical.states)
      requires Represented(rows, readings) && Distinct(dirtyRows) && Within(dirtyRows, rows) && prepared == []
      modifies this`rows, this`prepared
      ensures rows == SettleAll(old(rows), readings, dirtyRows, curves)
      ensures prepared == SentRows(old(rows), readings, dirtyRows, curves)
    {
      ghost var absorbed := rows;
      for k := 0 to |dirtyRows|
        invariant rows == SettleAll(absorbed, readings, dirtyRows[..k], curves)
        invariant prepared == SentRows(absorbed, readings, dirtyRows[..k], curves)
      {
        SettleOneMore(absorbed, readings, dirtyRows, k, curves);
        var lead := rows[dirtyRows[k]].representative;
        SettleOne(dirtyRows[k], Render(physical.states[lead].raw, physical.bindings[lead].scale, physical.visualGain));
      }
      assert dirtyRows[..|dirtyRows|] == dirtyRows;
    }
  }

  /** From the output `i` on, `lead` is the lowest of row `r`, if there is one. */
  predicate LeadsFrom(mapping: seq<nat>, lead: nat, r: nat, i: nat) {
    && (forall j :: i <= j < |mapping| && mapping[j] == r ==> i <= lead < |mapping| && mapping[lead] == r && lead <= j)
  }

  /** One serial transaction: a frame is composed into the physical state and its rows are prepared, or nothing happens. */
  method Consume(state: DensePresentationState, projection: RenderGroupProjection, generation: nat, d: seq<int>,
                 integers: seq<int>, values: seq<Float>) returns (ok: bool)
    requires state.Valid() && projection.Valid()
    modifies state, projection
    ensures state.Valid() && projection.Valid()
    ensures ok <==>
              && generation == old(state.generation) && |old(projection.members)| == |old(state.bindings)|
              && |d| % 5 == 0 && FrameFits(d, integers, values, |d|)
    ensures !ok ==> state.HeldState() == old(state.HeldState()) && projection.rows == old(projection.rows)
    ensures ok ==>
              var readings := Readings(state.Configuration(), state.states);
              && FrameFits(d, integers, values, |d|)
              && state.HeldState() == ApplyRows(old(state.HeldState()), old(state.routes), FrameRows(d, integers, values, |d|))
              && state.Configuration() == old(state.Configuration()) && projection.rowOf == old(projection.rowOf)
              && Preparable(projection.rowOf, old(projection.members), old(projection.rows), readings, state.dirty)
              && Prepared(projection.members, projection.rows, projection.prepared) ==
                 Prepare(projection.rowOf, old(projection.members), old(projection.rows), readings, state.dirty, projection.curves)
  {
    if generation != state.generation || |projection.members| != |state.bindings| {
      return false;
    }
    ok := state.ComposeSections(generation, d, integers, values);
    if ok {
      projection.Prepare(state);
    }
  }

  /** A fresh installation with every output pending is where the runs begin. */
  lemma InstallationIsInitial(g: Stage, held: Held, members: seq<Member>, rows: seq<RenderRow>, kinds: seq<RowKind>)
    requires Accepted(g.rowOf, kinds) && |members| == |g.rowOf| && |rows| == |kinds|
    requires forall i :: 0 <= i < |members| ==> members[i] == Member(NO_VALUES, ZERO, false)
    requires forall r :: 0 <= r < |rows| ==>
               Leads(g.rowOf, rows[r].representative, r) && rows[r] == FreshRow(kinds[r], rows[r].representative)
    requires |held.states| == |g.setup.bindings| == |g.rowOf| && Bookkept(held) && RoutesOk(g.routes, |held.states|)
    requires forall i :: 0 <= i < |held.states| ==> BEAM_TOPOLOGY in held.states[i].mask
    ensures Initial(g, World(held, members, rows, seq(|rows|, _ => None), seq(|rows|, _ => None), false))
  {
    forall r | 0 <= r < |rows| ensures LeadsOwnRow(g, rows[r], r) {
      assert Leads(g.rowOf, rows[r].representative, r);
    }
    forall i: nat | i < |held.states| ensures i in held.dirty {
      assert held.states[i].mask != {};
    }
  }
}
