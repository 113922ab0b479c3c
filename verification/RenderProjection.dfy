/**
  Reduction of physical outputs to renderer rows. Each output belongs to one row; an aggregated row adds up the
  contributions of its members, which are updated incrementally, and a row is sent when its values changed.
*/
module RenderProjection {
  import opened Prelude
  import opened DenseModel

  datatype RowKind = Individual | Aggregated | Instanced

  /** Chromaticity decoding and encoding at the renderer boundary. */
  datatype Curves = Curves(linear: real -> real, encoded: real -> real)

  /** Additive quantities of a member or of a whole row. */
  datatype Sum = Sum(energy: real, red: real, green: real, blue: real, intensity: real)

  const ZERO := Sum(0.0, 0.0, 0.0, 0.0, 0.0)
  const DARK := 0.000000000001

  datatype Member = Member(values: RenderValues, sum: Sum, valid: bool)
  datatype RenderRow = RenderRow(
    sum: Sum, representative: nat, mask: Mask, kind: RowKind, previous: RenderValues, committed: bool)

  /** What the physical state shows of one output: its composed values and its pending bits. */
  datatype Reading = Reading(values: RenderValues, pending: Mask)

  /** The composed values of output `i`. */
  function ValuesOf(c: Setup, states: seq<OutputState>, i: nat): RenderValues
    requires i < |states| == |c.bindings|
  {
    Render(states[i].raw, c.bindings[i].scale, c.visualGain)
  }

  ghost function Readings(c: Setup, states: seq<OutputState>): (r: seq<Reading>)
    requires |states| == |c.bindings|
    ensures |r| == |states|
    ensures forall i: nat :: i < |states| ==> r[i] == Reading(ValuesOf(c, states, i), states[i].mask)
  {
    seq(|states|, i requires 0 <= i < |states| => Reading(ValuesOf(c, states, i), states[i].mask))
  }

  function Plus(a: Sum, b: Sum): Sum {
    Sum(a.energy + b.energy, a.red + b.red, a.green + b.green, a.blue + b.blue, a.intensity + b.intensity)
  }

  function Minus(a: Sum, b: Sum): Sum {
    Sum(a.energy - b.energy, a.red - b.red, a.green - b.green, a.blue - b.blue, a.intensity - b.intensity)
  }

  function Contribution(v: RenderValues, curves: Curves): Sum {
    var energy := MaxReal(0.0, v.beamEnergy);
    Sum(energy, curves.linear(v.red) * energy, curves.linear(v.green) * energy, curves.linear(v.blue) * energy,
        MaxReal(0.0, v.beamIntensity))
  }

  function MemberOf(v: RenderValues, curves: Curves): Member {
    Member(v, Contribution(v, curves), true)
  }

  // ----- the first pass: changed members -----

  /** Members, rows, and the rows touched so far in order of their first change. */
  datatype Work = Work(members: seq<Member>, rows: seq<RenderRow>, touched: seq<nat>)

  /** Every output has a row. */
  ghost predicate Mapped(rowOf: seq<nat>, w: Work) {
    |rowOf| == |w.members| && forall i :: 0 <= i < |rowOf| ==> rowOf[i] < |w.rows|
  }

  /** A listed output whose row already accounts for exactly these values is passed over. */
  predicate Skipped(was: Member, row: RenderRow, reading: Reading) {
    was.valid && was.values == reading.values && row.committed && BEAM_TOPOLOGY !in reading.pending
  }

  function NewBits(was: Member, row: RenderRow, reading: Reading): Mask {
    reading.pending + Dynamic() + (if !was.valid || !row.committed then {BEAM_TOPOLOGY, ZOOM} else {})
  }

  function Absorb(rowOf: seq<nat>, w: Work, i: nat, reading: Reading, curves: Curves): (r: Work)
    requires |rowOf| == |w.members| && (i < |rowOf| ==> rowOf[i] < |w.rows|)
    ensures |r.members| == |w.members| && |r.rows| == |w.rows|
  {
    if i >= |w.members| || Skipped(w.members[i], w.rows[rowOf[i]], reading) then w else
      var was, row := w.members[i], w.rows[rowOf[i]];
      var next := MemberOf(reading.values, curves);
      var sum := if row.kind.Aggregated? then Plus(row.sum, Minus(next.sum, was.sum)) else row.sum;
      Work(w.members[i := next], w.rows[rowOf[i] := row.(mask := row.mask + NewBits(was, row, reading), sum := sum)],
           if row.mask == {} then w.touched + [rowOf[i]] else w.touched)
  }

  ghost predicate Readable(readings: seq<Reading>, dirty: seq<nat>) {
    forall k :: 0 <= k < |dirty| ==> dirty[k] < |readings|
  }

  ghost function AbsorbAll(rowOf: seq<nat>, w: Work, readings: seq<Reading>, dirty: seq<nat>, curves: Curves): (r: Work)
    requires Mapped(rowOf, w) && Readable(readings, dirty)
    ensures |r.members| == |w.members| && |r.rows| == |w.rows|
  {
    if dirty == [] then w else
      var last := |dirty| - 1;
      Absorb(rowOf, AbsorbAll(rowOf, w, readings, dirty[..last], curves), dirty[last], readings[dirty[last]], curves)
  }

  /** The sum of the contributions of the first `upTo` outputs that belong to row `r`. */
  ghost function Total(rowOf: seq<nat>, members: seq<Member>, r: nat, upTo: nat): Sum
    requires |rowOf| == |members| && upTo <= |members|
  {
    if upTo == 0 then ZERO else
      var rest := Total(rowOf, members, r, upTo - 1);
      if rowOf[upTo - 1] == r then Plus(rest, members[upTo - 1].sum) else rest
  }

  lemma {:induction false} TotalAfterChange(rowOf: seq<nat>, members: seq<Member>, r: nat, upTo: nat, i: nat, next: Member)
    requires |rowOf| == |members| && upTo <= |members| && i < |members|
    ensures Total(rowOf, members[i := next], r, upTo) ==
            if i < upTo && rowOf[i] == r
            then Plus(Total(rowOf, members, r, upTo), Minus(next.sum, members[i].sum))
            else Total(rowOf, members, r, upTo)
  {
    if upTo > 0 {
      TotalAfterChange(rowOf, members, r, upTo - 1, i, next);
    }
  }

  /** Each aggregated row carries the sum of its members. */
  ghost predicate SumsOk(rowOf: seq<nat>, members: seq<Member>, rows: seq<RenderRow>)
    requires |rowOf| == |members|
  {
    forall r :: 0 <= r < |rows| && rows[r].kind.Aggregated? ==> rows[r].sum == Total(rowOf, members, r, |members|)
  }

  /** Incremental accumulation is accumulation: subtracting the old and adding the new keeps every row's sum exact. */
  lemma AbsorbKeepsSums(rowOf: seq<nat>, w: Work, i: nat, reading: Reading, curves: Curves)
    requires Mapped(rowOf, w) && SumsOk(rowOf, w.members, w.rows)
    ensures var a := Absorb(rowOf, w, i, reading, curves); SumsOk(rowOf, a.members, a.rows)
  {
    if i < |w.members| {
      forall r: nat | r < |w.rows| {
        TotalAfterChange(rowOf, w.members, r, |w.members|, i, MemberOf(reading.values, curves));
      }
    }
  }

  lemma {:induction false} AbsorbAllKeepsSums(rowOf: seq<nat>, w: Work, readings: seq<Reading>, dirty: seq<nat>, curves: Curves)
    requires Mapped(rowOf, w) && Readable(readings, dirty) && SumsOk(rowOf, w.members, w.rows)
    ensures var a := AbsorbAll(rowOf, w, readings, dirty, curves); SumsOk(rowOf, a.members, a.rows)
  {
    if dirty != [] {
      var last := |dirty| - 1;
      AbsorbAllKeepsSums(rowOf, w, readings, dirty[..last], curves);
      AbsorbKeepsSums(rowOf, AbsorbAll(rowOf, w, readings, dirty[..last], curves), dirty[last], readings[dirty[last]], curves);
    }
  }

  /** The pass leaves a row's history alone. */
  ghost predicate SameHistory(a: seq<RenderRow>, b: seq<RenderRow>) {
    |a| == |b| && forall r :: 0 <= r < |a| ==>
      && a[r].previous == b[r].previous && a[r].committed == b[r].committed && a[r].kind == b[r].kind
      && a[r].representative == b[r].representative
  }

  /** Output `i` is listed, and not passed over. */
  predicate Changed(rowOf: seq<nat>, w: Work, readings: seq<Reading>, dirty: seq<nat>, i: nat) {
    && i in dirty && i < |w.members| && i < |readings| && i < |rowOf| && rowOf[i] < |w.rows|
    && !Skipped(w.members[i], w.rows[rowOf[i]], readings[i])
  }

  lemma {:induction false} AbsorbedMembers(rowOf: seq<nat>, w: Work, readings: seq<Reading>, dirty: seq<nat>, curves: Curves)
    requires Mapped(rowOf, w) && Readable(readings, dirty) && Distinct(dirty)
    ensures var a := AbsorbAll(rowOf, w, readings, dirty, curves);
            && SameHistory(w.rows, a.rows)
            && forall i :: 0 <= i < |w.members| ==>
                 a.members[i] == if Changed(rowOf, w, readings, dirty, i) then MemberOf(readings[i].values, curves)
                                 else w.members[i]
  {
    if dirty != [] {
      var last := |dirty| - 1;
      assert dirty == dirty[..last] + [dirty[last]] && dirty[last] !in dirty[..last];
      AbsorbedMembers(rowOf, w, readings, dirty[..last], curves);
    }
  }

  /** A bit reaches a row exactly from the changed members of that row. */
  ghost predicate Marked(rowOf: seq<nat>, w: Work, readings: seq<Reading>, dirty: seq<nat>, r: nat, bit: nat) {
    exists i :: MarkedBy(rowOf, w, readings, dirty, r, bit, i)
  }

  predicate MarkedBy(rowOf: seq<nat>, w: Work, readings: seq<Reading>, dirty: seq<nat>, r: nat, bit: nat, i: nat) {
    Changed(rowOf, w, readings, dirty, i) && rowOf[i] == r && bit in NewBits(w.members[i], w.rows[r], readings[i])
  }

  lemma MarkedByOneMore(rowOf: seq<nat>, w: Work, readings: seq<Reading>, init: seq<nat>, i: nat, r: nat, bit: nat)
    requires Mapped(rowOf, w) && i < |readings| && Readable(readings, init) && i !in init && r < |w.rows|
    ensures Readable(readings, init + [i])
    ensures Marked(rowOf, w, readings, init + [i], r, bit) <==>
              Marked(rowOf, w, readings, init, r, bit) || MarkedBy(rowOf, w, readings, [i], r, bit, i)
  {
    var dirty := init + [i];
    if Marked(rowOf, w, readings, init, r, bit) {
      var j :| MarkedBy(rowOf, w, readings, init, r, bit, j);
      assert MarkedBy(rowOf, w, readings, dirty, r, bit, j);
    }
    if MarkedBy(rowOf, w, readings, [i], r, bit, i) {
      assert MarkedBy(rowOf, w, readings, dirty, r, bit, i);
    }
    if Marked(rowOf, w, readings, dirty, r, bit) {
      var j :| MarkedBy(rowOf, w, readings, dirty, r, bit, j);
      assert j != i ==> MarkedBy(rowOf, w, readings, init, r, bit, j);
    }
  }

  lemma {:induction false} AbsorbedMask(rowOf: seq<nat>, w: Work, readings: seq<Reading>, dirty: seq<nat>, curves: Curves,
                                        r: nat, bit: nat)
    requires Mapped(rowOf, w) && Readable(readings, dirty) && Distinct(dirty) && r < |w.rows|
    ensures bit in AbsorbAll(rowOf, w, readings, dirty, curves).rows[r].mask <==>
              bit in w.rows[r].mask || Marked(rowOf, w, readings, dirty, r, bit)
  {
    if dirty != [] {
      var last := |dirty| - 1;
      var init, i := dirty[..last], dirty[last];
      assert dirty == init + [i] && i !in init;
      AbsorbedMask(rowOf, w, readings, init, curves, r, bit);
      AbsorbedMembers(rowOf, w, readings, init, curves);
      assert !Changed(rowOf, w, readings, init, i);
      MarkedByOneMore(rowOf, w, readings, init, i, r, bit);
    }
  }

  /** A row is listed once exactly when it has bits to send. */
  ghost predicate Listed(w: Work) {
    Distinct(w.touched) && forall r: nat :: r in w.touched <==> r < |w.rows| && w.rows[r].mask != {}
  }

  lemma AbsorbKeepsList(rowOf: seq<nat>, w: Work, i: nat, reading: Reading, curves: Curves)
    requires Mapped(rowOf, w) && Listed(w)
    ensures Listed(Absorb(rowOf, w, i, reading, curves))
  {
    var a := Absorb(rowOf, w, i, reading, curves);
    if i < |w.members| && !Skipped(w.members[i], w.rows[rowOf[i]], reading) {
      assert DIMMER in a.rows[rowOf[i]].mask;
      if w.rows[rowOf[i]].mask == {} {
        assert rowOf[i] !in w.touched;
        assert forall r: nat :: r in a.touched <==> r in w.touched || r == rowOf[i];
      }
    }
  }

  lemma {:induction false} AbsorbAllKeepsList(rowOf: seq<nat>, w: Work, readings: seq<Reading>, dirty: seq<nat>, curves: Curves)
    requires Mapped(rowOf, w) && Readable(readings, dirty) && Listed(w)
    ensures Listed(AbsorbAll(rowOf, w, readings, dirty, curves))
  {
    if dirty != [] {
      var last := |dirty| - 1;
      AbsorbAllKeepsList(rowOf, w, readings, dirty[..last], curves);
      AbsorbKeepsList(rowOf, AbsorbAll(rowOf, w, readings, dirty[..last], curves), dirty[last], readings[dirty[last]], curves);
    }
  }

  /** A row without bits is as it was, and so are its members. */
  lemma {:induction false} Untouched(rowOf: seq<nat>, w: Work, readings: seq<Reading>, dirty: seq<nat>, curves: Curves, r: nat)
    requires Mapped(rowOf, w) && Readable(readings, dirty) && r < |w.rows|
    ensures var a := AbsorbAll(rowOf, w, readings, dirty, curves);
            a.rows[r].mask == {} ==>
              a.rows[r] == w.rows[r] && forall i :: 0 <= i < |rowOf| && rowOf[i] == r ==> a.members[i] == w.members[i]
  {
    if dirty != [] {
      var last := |dirty| - 1;
      Untouched(rowOf, w, readings, dirty[..last], curves, r);
      var before, i := AbsorbAll(rowOf, w, readings, dirty[..last], curves), dirty[last];
      var a := Absorb(rowOf, before, i, readings[i], curves);
      if i < |before.members| && rowOf[i] == r && !Skipped(before.members[i], before.rows[r], readings[i]) {
        assert DIMMER in a.rows[r].mask;
      }
    }
  }

  // ----- the second pass: touched rows -----

  /** What a row shows, from its sum, its representative's values, and what it showed before. */
  function RowValues(row: RenderRow, representative: RenderValues, curves: Curves): RenderValues {
    if !row.kind.Aggregated? then representative else
      var energy := MaxReal(row.sum.energy, 0.0);
      var held := if row.committed then (row.previous.red, row.previous.green, row.previous.blue) else (1.0, 1.0, 1.0);
      var color := if energy > DARK
        then (curves.encoded(row.sum.red / energy), curves.encoded(row.sum.green / energy), curves.encoded(row.sum.blue / energy))
        else held;
      var intensity := Clamp(row.sum.intensity, 0.0, 50.0);
      var lit := if intensity > 0.000001 then 1.0 else 0.0;
      representative.(red := color.0, green := color.1, blue := color.2, beamEnergy := energy, spotEnergy := energy,
        beamIntensity := intensity, dimmer := lit, visible := lit, materialEnergy := 0.0, colorGain := 1.0)
  }

  predicate Sends(row: RenderRow, v: RenderValues) {
    !row.committed || row.previous != v || BEAM_TOPOLOGY in row.mask
  }

  function Settled(row: RenderRow, v: RenderValues): RenderRow {
    if Sends(row, v) then row.(previous := v, committed := true, mask := {}) else row.(mask := {})
  }

  function SentIf(r: nat, row: RenderRow, v: RenderValues): seq<PreparedOutput> {
    if Sends(row, v) then [PreparedOutput(r, row.mask, v)] else []
  }

  /** Representatives are outputs. */
  ghost predicate Represented(rows: seq<RenderRow>, readings: seq<Reading>) {
    forall r :: 0 <= r < |rows| ==> rows[r].representative < |readings|
  }

  function NewValues(row: RenderRow, readings: seq<Reading>, curves: Curves): RenderValues
    requires row.representative < |readings|
  {
    RowValues(row, readings[row.representative].values, curves)
  }

  ghost predicate Within(touched: seq<nat>, rows: seq<RenderRow>) {
    forall k :: 0 <= k < |touched| ==> touched[k] < |rows|
  }

  /** The rows after the listed ones were settled. */
  ghost function SettleAll(rows: seq<RenderRow>, readings: seq<Reading>, touched: seq<nat>, curves: Curves): (r: seq<RenderRow>)
    requires Represented(rows, readings)
    ensures |r| == |rows|
  {
    seq(|rows|, r requires 0 <= r < |rows| =>
      if r in touched then Settled(rows[r], NewValues(rows[r], readings, curves)) else rows[r])
  }

  ghost function SentRows(rows: seq<RenderRow>, readings: seq<Reading>, touched: seq<nat>, curves: Curves): seq<PreparedOutput>
    requires Represented(rows, readings) && Within(touched, rows)
  {
    if touched == [] then [] else
      var last := |touched| - 1;
      var r := touched[last];
      SentRows(rows, readings, touched[..last], curves) + SentIf(r, rows[r], NewValues(rows[r], readings, curves))
  }

  lemma SettleOneMore(rows: seq<RenderRow>, readings: seq<Reading>, touched: seq<nat>, k: nat, curves: Curves)
    requires Represented(rows, readings) && Within(touched, rows) && Distinct(touched) && k < |touched|
    ensures Within(touched[..k], rows) && Within(touched[..k + 1], rows)
    ensures var r, before := touched[k], SettleAll(rows, readings, touched[..k], curves);
            var v := NewValues(rows[r], readings, curves);
            && before[r] == rows[r]
            && SettleAll(rows, readings, touched[..k + 1], curves) == before[r := Settled(rows[r], v)]
            && SentRows(rows, readings, touched[..k + 1], curves) ==
               SentRows(rows, readings, touched[..k], curves) + SentIf(r, rows[r], v)
  {
    assert touched[..k + 1] == touched[..k] + [touched[k]] && touched[..k + 1][..k] == touched[..k];
    assert touched[k] !in touched[..k];
  }

  ghost predicate SentOk(rows: seq<RenderRow>, readings: seq<Reading>, touched: seq<nat>, curves: Curves, p: PreparedOutput)
    requires Represented(rows, readings)
  {
    && p.index in touched && p.index < |rows| && p.mask == rows[p.index].mask
    && p.values == NewValues(rows[p.index], readings, curves) && Sends(rows[p.index], p.values)
  }

  ghost predicate AllSentOk(rows: seq<RenderRow>, readings: seq<Reading>, touched: seq<nat>, curves: Curves,
                            sent: seq<PreparedOutput>)
    requires Represented(rows, readings)
  {
    forall k :: 0 <= k < |sent| ==> SentOk(rows, readings, touched, curves, sent[k])
  }

  lemma {:induction false} SentRowsAreOk(rows: seq<RenderRow>, readings: seq<Reading>, touched: seq<nat>, curves: Curves)
    requires Represented(rows, readings) && Within(touched, rows)
    ensures AllSentOk(rows, readings, touched, curves, SentRows(rows, readings, touched, curves))
  {
    if touched != [] {
      var last := |touched| - 1;
      SentRowsAreOk(rows, readings, touched[..last], curves);
      var earlier, all := SentRows(rows, readings, touched[..last], curves), SentRows(rows, readings, touched, curves);
      forall k | 0 <= k < |all| ensures SentOk(rows, readings, touched, curves, all[k]) {
        if k < |earlier| {
          assert SentOk(rows, readings, touched[..last], curves, earlier[k]);
        }
      }
    }
  }

  lemma {:induction false} SentRowsAreDistinct(rows: seq<RenderRow>, readings: seq<Reading>, touched: seq<nat>, curves: Curves)
    requires Represented(rows, readings) && Within(touched, rows) && Distinct(touched)
    ensures OneRowEach(SentRows(rows, readings, touched, curves))
  {
    if touched != [] {
      var last := |touched| - 1;
      SentRowsAreDistinct(rows, readings, touched[..last], curves);
      SentRowsAreOk(rows, readings, touched[..last], curves);
      var earlier := SentRows(rows, readings, touched[..last], curves);
      forall k | 0 <= k < |earlier| ensures earlier[k].index != touched[last] {
        assert SentOk(rows, readings, touched[..last], curves, earlier[k]);
      }
    }
  }

  lemma {:induction false} SentRowsAreComplete(rows: seq<RenderRow>, readings: seq<Reading>, touched: seq<nat>, curves: Curves,
                                               r: nat)
    requires Represented(rows, readings) && Within(touched, rows) && r in touched
    requires Sends(rows[r], NewValues(rows[r], readings, curves))
    ensures HasRow(SentRows(rows, readings, touched, curves), r)
  {
    var last := |touched| - 1;
    var earlier, all := SentRows(rows, readings, touched[..last], curves), SentRows(rows, readings, touched, curves);
    if touched[last] == r {
      assert all[|earlier|].index == r;
    } else {
      assert r in touched[..last];
      SentRowsAreComplete(rows, readings, touched[..last], curves, r);
      var k :| 0 <= k < |earlier| && earlier[k].index == r;
      assert all[k].index == r;
    }
  }

  // ----- one whole preparation -----

  function Begun(members: seq<Member>, rows: seq<RenderRow>): Work {
    Work(members, rows, [])
  }

  datatype Prepared = Prepared(members: seq<Member>, rows: seq<RenderRow>, sent: seq<PreparedOutput>)

  ghost predicate Preparable(rowOf: seq<nat>, members: seq<Member>, rows: seq<RenderRow>, readings: seq<Reading>, dirty: seq<nat>) {
    Mapped(rowOf, Begun(members, rows)) && Readable(readings, dirty) && Represented(rows, readings)
  }

  ghost predicate Clean(rows: seq<RenderRow>) {
    forall r :: 0 <= r < |rows| ==> rows[r].mask == {}
  }

  ghost function Prepare(rowOf: seq<nat>, members: seq<Member>, rows: seq<RenderRow>, readings: seq<Reading>, dirty: seq<nat>,
                         curves: Curves): (p: Prepared)
    requires Preparable(rowOf, members, rows, readings, dirty) && Distinct(dirty) && Clean(rows)
  {
    var a := AbsorbAll(rowOf, Begun(members, rows), readings, dirty, curves);
    AbsorbedMembers(rowOf, Begun(members, rows), readings, dirty, curves);
    AbsorbAllKeepsList(rowOf, Begun(members, rows), readings, dirty, curves);
    assert Represented(a.rows, readings);
    TouchedIsWithin(a);
    Prepared(a.members, SettleAll(a.rows, readings, a.touched, curves), SentRows(a.rows, readings, a.touched, curves))
  }

  /** Settling the listed rows leaves no bit behind. */
  lemma SettlingCleans(w: Work, readings: seq<Reading>, curves: Curves)
    requires Listed(w) && Represented(w.rows, readings)
    ensures forall r :: 0 <= r < |w.rows| ==> SettleAll(w.rows, readings, w.touched, curves)[r].mask == {}
  {
    forall r: nat | r < |w.rows| ensures SettleAll(w.rows, readings, w.touched, curves)[r].mask == {} {
      assert r in w.touched <==> w.rows[r].mask != {};
    }
  }

  lemma TouchedIsWithin(w: Work)
    requires Listed(w)
    ensures Within(w.touched, w.rows)
  {
    forall k | 0 <= k < |w.touched| ensures w.touched[k] < |w.rows| {
      assert w.touched[k] in w.touched;
    }
  }
}
