/**
  What the renderer rows mean: the values a row shows, as sums and averages over the physical outputs of the row, read
  off the raw values that the outputs hold.
*/
module RenderComposite {
  import opened Prelude
  import opened DenseModel
  import opened RenderProjection
  import opened RenderRuns

  /** Beam intensity lies between black and fifty. */
  function Bounded(x: real): real {
    if x <= 0.0 then 0.0 else if x >= 50.0 then 50.0 else x
  }

  function Positive(x: real): real {
    if x > 0.0 then x else 0.0
  }

  /** An output shows its own raw values: energies scaled by gain and projection, the intensity bounded twice. */
  ghost predicate OutputShows(s: Raw, scale: real, visualGain: real -> real, v: RenderValues) {
    var lit := Bounded(s.beamIntensity * visualGain(s.gain));
    && v.dimmer == s.dimmer && v.red == s.red && v.green == s.green && v.blue == s.blue
    && v.beamEnergy == s.beamEnergy * s.gain * scale && v.spotEnergy == s.spotEnergy * s.gain * scale
    && v.beamIntensity == Bounded(lit * scale) && v.materialEnergy == s.materialEnergy * s.gain
    && v.halfAngle == s.halfAngle && v.fullAngle == s.fullAngle && v.colorGain == s.gain
    && (v.visible == 1.0 <==> s.dimmer > 0.0001 && scale > 0.0 && lit > 0.000001) && (v.visible != 1.0 ==> v.visible == 0.0)
  }

  lemma RenderShowsTheOutput(s: Raw, scale: real, visualGain: real -> real)
    ensures OutputShows(s, scale, visualGain, Render(s, scale, visualGain))
  {
  }

  /** The sum of the terms of the first `upTo` outputs that belong to row `r`. */
  ghost function RowSum(rowOf: seq<nat>, terms: seq<real>, r: nat, upTo: nat): real
    requires |terms| == |rowOf| && upTo <= |rowOf|
  {
    if upTo == 0 then 0.0 else
      RowSum(rowOf, terms, r, upTo - 1) + (if rowOf[upTo - 1] == r then terms[upTo - 1] else 0.0)
  }

  /** The beam energy that an output contributes; a negative one contributes nothing. */
  function OutputEnergy(s: Raw, scale: real): real {
    Positive(s.beamEnergy * s.gain * scale)
  }

  function OutputIntensity(s: Raw, scale: real, visualGain: real -> real): real {
    Bounded(Bounded(s.beamIntensity * visualGain(s.gain)) * scale)
  }

  ghost function Energies(c: Setup, states: seq<OutputState>): (e: seq<real>)
    requires |states| == |c.bindings|
    ensures |e| == |states|
    ensures forall i :: 0 <= i < |e| ==> e[i] == OutputEnergy(states[i].raw, c.bindings[i].scale)
  {
    seq(|states|, i requires 0 <= i < |states| => OutputEnergy(states[i].raw, c.bindings[i].scale))
  }

  ghost function Intensities(c: Setup, states: seq<OutputState>): (e: seq<real>)
    requires |states| == |c.bindings|
    ensures |e| == |states|
    ensures forall i :: 0 <= i < |e| ==> e[i] == OutputIntensity(states[i].raw, c.bindings[i].scale, c.visualGain)
  {
    seq(|states|, i requires 0 <= i < |states| => OutputIntensity(states[i].raw, c.bindings[i].scale, c.visualGain))
  }

  /** The energies weighted by one linear color channel of each output. */
  ghost function Weighted(energies: seq<real>, channel: seq<real>, linear: real -> real): (e: seq<real>)
    requires |energies| == |channel|
    ensures |e| == |energies| && forall i :: 0 <= i < |e| ==> e[i] == linear(channel[i]) * energies[i]
  {
    seq(|energies|, i requires 0 <= i < |energies| => linear(channel[i]) * energies[i])
  }

  ghost function Reds(states: seq<OutputState>): (c: seq<real>)
    ensures |c| == |states| && forall i :: 0 <= i < |c| ==> c[i] == states[i].raw.red
  {
    seq(|states|, i requires 0 <= i < |states| => states[i].raw.red)
  }

  ghost function Greens(states: seq<OutputState>): (c: seq<real>)
    ensures |c| == |states| && forall i :: 0 <= i < |c| ==> c[i] == states[i].raw.green
  {
    seq(|states|, i requires 0 <= i < |states| => states[i].raw.green)
  }

  ghost function Blues(states: seq<OutputState>): (c: seq<real>)
    ensures |c| == |states| && forall i :: 0 <= i < |c| ==> c[i] == states[i].raw.blue
  {
    seq(|states|, i requires 0 <= i < |states| => states[i].raw.blue)
  }

  /** The energy-weighted mean of one linear channel over the outputs of a row, encoded again. */
  ghost function Mixed(g: Stage, states: seq<OutputState>, channel: seq<real>, r: nat): real
    requires |states| == |g.setup.bindings| == |g.rowOf| == |channel|
    requires RowSum(g.rowOf, Energies(g.setup, states), r, |g.rowOf|) != 0.0
  {
    var energies := Energies(g.setup, states);
    g.curves.encoded(RowSum(g.rowOf, Weighted(energies, channel, g.curves.linear), r, |g.rowOf|) /
      RowSum(g.rowOf, energies, r, |g.rowOf|))
  }

  /** The color shown before, white when nothing was. */
  function LastColor(shown: Option<RenderValues>): (real, real, real) {
    if shown.Some? then (shown.value.red, shown.value.green, shown.value.blue) else (1.0, 1.0, 1.0)
  }

  /**
    An aggregated row shows the summed energy and the bounded summed intensity of its outputs, their energy-weighted mean
    color or the last color when they are dark, and the angles of its representative.
  */
  ghost predicate RowShowsItsOutputs(g: Stage, states: seq<OutputState>, r: nat, lead: nat, before: Option<RenderValues>,
                                     v: RenderValues)
    requires |states| == |g.setup.bindings| == |g.rowOf| && lead < |states|
  {
    var energy := RowSum(g.rowOf, Energies(g.setup, states), r, |g.rowOf|);
    && v.beamEnergy == energy && v.spotEnergy == energy
    && v.beamIntensity == Bounded(RowSum(g.rowOf, Intensities(g.setup, states), r, |g.rowOf|))
    && (energy > 0.000000000001 ==>
          && v.red == Mixed(g, states, Reds(states), r) && v.green == Mixed(g, states, Greens(states), r)
          && v.blue == Mixed(g, states, Blues(states), r))
    && (energy <= 0.000000000001 ==> (v.red, v.green, v.blue) == LastColor(before))
    && v.dimmer == v.visible == (if v.beamIntensity > 0.000001 then 1.0 else 0.0)
    && v.materialEnergy == 0.0 && v.colorGain == 1.0
    && v.halfAngle == states[lead].raw.halfAngle && v.fullAngle == states[lead].raw.fullAngle
  }

  /** What an output contributes to its row, from its raw values. */
  ghost predicate ContributesAs(t: Sum, s: Raw, energy: real, intensity: real, linear: real -> real) {
    && t.energy == energy && t.intensity == intensity
    && t.red == linear(s.red) * energy && t.green == linear(s.green) * energy && t.blue == linear(s.blue) * energy
  }

  lemma ContributionOfOutput(s: Raw, scale: real, visualGain: real -> real, curves: Curves)
    ensures ContributesAs(Contribution(Render(s, scale, visualGain), curves), s, OutputEnergy(s, scale),
              OutputIntensity(s, scale, visualGain), curves.linear)
  {
    RenderShowsTheOutput(s, scale, visualGain);
  }

  /** The totals are those sums. */
  ghost predicate SumsUp(g: Stage, states: seq<OutputState>, total: Sum, r: nat, upTo: nat)
    requires |states| == |g.setup.bindings| == |g.rowOf| && upTo <= |states|
  {
    var energies := Energies(g.setup, states);
    && total.energy == RowSum(g.rowOf, energies, r, upTo)
    && total.intensity == RowSum(g.rowOf, Intensities(g.setup, states), r, upTo)
    && total.red == RowSum(g.rowOf, Weighted(energies, Reds(states), g.curves.linear), r, upTo)
    && total.green == RowSum(g.rowOf, Weighted(energies, Greens(states), g.curves.linear), r, upTo)
    && total.blue == RowSum(g.rowOf, Weighted(energies, Blues(states), g.curves.linear), r, upTo)
  }

  lemma OneTermMore(g: Stage, states: seq<OutputState>, total: Sum, t: Sum, r: nat, i: nat)
    requires |states| == |g.setup.bindings| == |g.rowOf| && i < |states| && SumsUp(g, states, total, r, i)
    requires var s, scale := states[i].raw, g.setup.bindings[i].scale;
             ContributesAs(t, s, OutputEnergy(s, scale), OutputIntensity(s, scale, g.setup.visualGain), g.curves.linear)
    ensures SumsUp(g, states, if g.rowOf[i] == r then Plus(total, t) else total, r, i + 1)
  {
  }

  lemma {:induction false} TotalsAreSums(g: Stage, states: seq<OutputState>, r: nat, upTo: nat)
    requires |states| == |g.setup.bindings| == |g.rowOf| && upTo <= |states|
    ensures SumsUp(g, states, PhysicalTotal(g, states, r, upTo), r, upTo)
  {
    if upTo > 0 {
      var i := upTo - 1;
      TotalsAreSums(g, states, r, i);
      ContributionOfOutput(states[i].raw, g.setup.bindings[i].scale, g.setup.visualGain, g.curves);
      OneTermMore(g, states, PhysicalTotal(g, states, r, i), Contribution(ValuesOf(g.setup, states, i), g.curves), r, i);
    }
  }

  lemma {:induction false} EnergyIsPositive(rowOf: seq<nat>, terms: seq<real>, r: nat, upTo: nat)
    requires |terms| == |rowOf| && upTo <= |rowOf| && forall i :: 0 <= i < |terms| ==> terms[i] >= 0.0
    ensures RowSum(rowOf, terms, r, upTo) >= 0.0
  {
    if upTo > 0 {
      EnergyIsPositive(rowOf, terms, r, upTo - 1);
    }
  }

  lemma CompositeShowsOutputs(g: Stage, states: seq<OutputState>, row: RenderRow, r: nat, before: Option<RenderValues>)
    requires |states| == |g.setup.bindings| == |g.rowOf| && row.representative < |states| && row.kind.Aggregated?
    requires if row.committed then before == Some(row.previous) else before.None?
    ensures RowShowsItsOutputs(g, states, r, row.representative, before, Composite(g, states, row, r))
  {
    TotalsAreSums(g, states, r, |states|);
    EnergyIsPositive(g.rowOf, Energies(g.setup, states), r, |states|);
  }

  /**
    After every preparation of every run: an aggregated row shows the sums and means over its physical outputs, any
    other row its one output, and the angles were taken from a row marked for turning.
  */
  lemma RowsShowTheirOutputs(g: Stage, ws: seq<World>, es: seq<Event>, k: nat, r: nat)
    requires IsRun(g, ws, es) && k < |es| && es[k].PrepareRows? && r < |ws[k].rows|
    ensures Shape(g, ws[k]) && Shape(g, ws[k + 1]) && |ws[k + 1].rows| == |ws[k].rows|
    ensures ws[k + 1].held == ws[k].held && ws[k + 1].shown[r].Some?
    ensures ws[k + 1].angled[r] == Some(AnglesOf(ws[k + 1].shown[r].value))
    ensures var row, states, v := ws[k].rows[r], ws[k].held.states, ws[k + 1].shown[r].value;
            && row.representative < |states| && g.rowOf[row.representative] == r
            && if row.kind.Aggregated? then RowShowsItsOutputs(g, states, r, row.representative, ws[k].shown[r], v)
               else OutputShows(states[row.representative].raw, g.setup.bindings[row.representative].scale,
                      g.setup.visualGain, v)
  {
    RowsShowThePhysicalState(g, ws, es, k, r);
    RunsKeepInv(g, ws, es, k);
    assert Follows(g, ws[k], es[k], ws[k + 1]);
    var row, states := ws[k].rows[r], ws[k].held.states;
    assert RowInv(g, ws[k], r) && LeadsOwnRow(g, row, r);
    if row.kind.Aggregated? {
      CompositeShowsOutputs(g, states, row, r, ws[k].shown[r]);
    } else {
      RenderShowsTheOutput(states[row.representative].raw, g.setup.bindings[row.representative].scale, g.setup.visualGain);
    }
  }
}
