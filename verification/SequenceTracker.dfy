/** Ordering of ArtDmx packets by their wrapping sequence field (Art-Net 4, ArtDmx packet, Sequence). */
module SequenceTracker {
  import opened Prelude

  datatype Endpoint = Endpoint(ipv4: nat, port: nat)
  datatype State = State(endpoint: Endpoint, sequence: byte, ordered: bool)
  datatype Decision = Decision(accepted: bool, sourceChanged: bool)
  datatype Packet = Packet(universe: nat, sequence: byte, endpoint: Endpoint)

  type States = map<nat, State>

  /** Steps from `previous` forward to `incoming` around the cycle 1, 2, …, 255, 1. */
  function Forward(previous: byte, incoming: byte): nat {
    (incoming - previous + 255) % 255
  }

  function Decide(state: Option<State>, sequence: byte, endpoint: Endpoint): Decision {
    if state.None? then Decision(true, false)
    else if state.value.endpoint != endpoint then Decision(true, true)
    else if sequence == 0 || !state.value.ordered then Decision(true, false)
    else Decision(0 < Forward(state.value.sequence, sequence) <= 127, false)
  }

  function Advance(state: Option<State>, sequence: byte, endpoint: Endpoint): State {
    if state.Some? && !Decide(state, sequence, endpoint).accepted then state.value
    else State(endpoint, sequence, sequence != 0)
  }

  function Lookup(states: States, universe: nat): Option<State> {
    if universe in states then Some(states[universe]) else None
  }

  class ArtNetSequenceTracker {
    var states: States

    constructor ()
      ensures states == map[]
    {
      states := map[];
    }

    /** Decides one packet; only the state of its own universe may change, and a rejected packet changes nothing. */
    method Accept(universe: nat, sequence: byte, endpoint: Endpoint) returns (decision: Decision)
      modifies this
      ensures decision == Decide(Lookup(old(states), universe), sequence, endpoint)
      ensures states == old(states)[universe := Advance(Lookup(old(states), universe), sequence, endpoint)]
      ensures !decision.accepted ==> states == old(states)
    {
      var known := universe in states;
      var sourceChanged := known && states[universe].endpoint != endpoint;
      if !known || sourceChanged {
        states := states[universe := State(endpoint, sequence, sequence != 0)];
        return Decision(true, sourceChanged);
      }
      var state := states[universe];
      if sequence == 0 {
        states := states[universe := state.(ordered := false, sequence := 0)];
        return Decision(true, false);
      }
      if !state.ordered {
        states := states[universe := state.(sequence := sequence, ordered := true)];
        return Decision(true, false);
      }
      var previous, incoming := state.sequence - 1, sequence - 1;
      var forward := (incoming - previous + 255) % 255;
      assert incoming - previous == sequence - state.sequence;
      if forward == 0 || forward > 127 {
        assert states[universe := state] == states;
        return Decision(false, false);
      }
      states := states[universe := state.(sequence := sequence)];
      return Decision(true, false);
    }

    method Reset()
      modifies this
      ensures states == map[]
    {
      states := map[];
    }
  }

  // ----- refinement of an unbounded counter -----

  /** The states after a run of packets, as `Accept` leaves them. */
  ghost function Run(packets: seq<Packet>): States {
    if packets == [] then map[] else
      var before, p := Run(packets[..|packets| - 1]), packets[|packets| - 1];
      before[p.universe := Advance(Lookup(before, p.universe), p.sequence, p.endpoint)]
  }

  ghost predicate Accepted(packets: seq<Packet>, k: nat)
    requires k < |packets|
  {
    var p := packets[k];
    Decide(Lookup(Run(packets[..k]), p.universe), p.sequence, p.endpoint).accepted
  }

  /** A sender numbering its packets 0, 1, 2, … puts this into the sequence field. */
  function Sent(index: nat): byte {
    index % 255 + 1
  }

  /** The highest packet number of the universe so far. */
  ghost function Newest(packets: seq<Packet>, numbers: seq<nat>, universe: nat): Option<nat>
    requires |numbers| == |packets|
  {
    if packets == [] then None else
      var last := |packets| - 1;
      var earlier := Newest(packets[..last], numbers[..last], universe);
      if packets[last].universe != universe then earlier
      else if earlier.Some? && earlier.value >= numbers[last] then earlier
      else Some(numbers[last])
  }

  /** Every packet of the universe comes from one endpoint, numbered as given. */
  ghost predicate SingleSource(packets: seq<Packet>, numbers: seq<nat>, universe: nat, source: Endpoint)
    requires |numbers| == |packets|
  {
    forall k :: 0 <= k < |packets| && packets[k].universe == universe ==>
      packets[k].endpoint == source && packets[k].sequence == Sent(numbers[k])
  }

  /** No packet of the universe is more than 127 away from the newest before it. */
  ghost predicate WithinWindow(packets: seq<Packet>, numbers: seq<nat>, universe: nat)
    requires |numbers| == |packets|
  {
    forall k :: 0 <= k < |packets| && packets[k].universe == universe ==>
      Near(Newest(packets[..k], numbers[..k], universe), numbers[k])
  }

  predicate Near(newest: Option<nat>, number: nat) {
    newest.Some? ==> newest.value - 127 <= number <= newest.value + 127
  }

  lemma ForwardOfSent(newest: nat, number: nat)
    ensures Forward(Sent(newest), Sent(number)) == (number - newest) % 255
  {
    var a, b := newest / 255, number / 255;
    assert newest == 255 * a + newest % 255 && number == 255 * b + number % 255;
    var d := number % 255 - newest % 255;
    assert number - newest == 255 * (b - a) + d;
    ModPlus(d, b - a);
    ModPlus(d, 1);
  }

  lemma ModPlus(d: int, k: int)
    ensures (255 * k + d) % 255 == d % 255
  {
    var q := d / 255;
    assert 255 * k + d == 255 * (k + q) + d % 255;
  }

  /** Inside the window the wrapped comparison is the plain one; the window cannot be widened on either side. */
  lemma WindowIsExact(newest: nat, number: nat)
    ensures newest - 127 <= number <= newest + 127 ==>
              (0 < Forward(Sent(newest), Sent(number)) <= 127 <==> number > newest)
    ensures number == newest + 128 ==> !(0 < Forward(Sent(newest), Sent(number)) <= 127)
    ensures number == newest - 128 ==> 0 < Forward(Sent(newest), Sent(number)) <= 127
  {
    ForwardOfSent(newest, number);
    if newest - 128 <= number < newest {
      ModPlus(number - newest, 1);
    }
  }

  /** The tracker's state stands for the newest number, modulo the cycle. */
  lemma {:induction false} StateIsTheNewest(packets: seq<Packet>, numbers: seq<nat>, universe: nat, source: Endpoint)
    requires |numbers| == |packets| && SingleSource(packets, numbers, universe, source)
    requires WithinWindow(packets, numbers, universe)
    ensures var newest := Newest(packets, numbers, universe);
            Lookup(Run(packets), universe) ==
            if newest.None? then None else Some(State(source, Sent(newest.value), true))
  {
    if packets != [] {
      var last := |packets| - 1;
      var p, n := packets[..last], numbers[..last];
      forall k | 0 <= k < last && p[k].universe == universe ensures Near(Newest(p[..k], n[..k], universe), n[k]) {
        assert p[..k] == packets[..k] && n[..k] == numbers[..k];
        assert packets[k].universe == universe;
      }
      StateIsTheNewest(p, n, universe, source);
      var newest := Newest(p, n, universe);
      if packets[last].universe == universe && newest.Some? {
        assert Near(newest, numbers[last]);
        WindowIsExact(newest.value, numbers[last]);
      }
    }
  }

  /**
    The tracker refines an unbounded counter: through any number of wraps, and whatever other universes carry, a
    packet is accepted exactly when it is strictly newer than every packet before it.
  */
  lemma AcceptsExactlyTheNewer(packets: seq<Packet>, numbers: seq<nat>, universe: nat, source: Endpoint, k: nat)
    requires |numbers| == |packets| && SingleSource(packets, numbers, universe, source)
    requires WithinWindow(packets, numbers, universe)
    requires k < |packets| && packets[k].universe == universe
    ensures var newest := Newest(packets[..k], numbers[..k], universe);
            Accepted(packets, k) <==> newest.None? || numbers[k] > newest.value
  {
    var p, n := packets[..k], numbers[..k];
    forall j | 0 <= j < k && p[j].universe == universe ensures Near(Newest(p[..j], n[..j], universe), n[j]) {
      assert p[..j] == packets[..j] && n[..j] == numbers[..j];
      assert packets[j].universe == universe;
    }
    StateIsTheNewest(p, n, universe, source);
    var newest := Newest(p, n, universe);
    if newest.Some? {
      assert Near(newest, numbers[k]);
      WindowIsExact(newest.value, numbers[k]);
    }
  }

  /** A restarted or replaced sender is always heard: its first packet is accepted and reported, whatever its number. */
  lemma NewSourceIsHeard(packets: seq<Packet>, k: nat)
    requires k < |packets|
    requires var known := Lookup(Run(packets[..k]), packets[k].universe);
             known.None? || known.value.endpoint != packets[k].endpoint
    ensures Accepted(packets, k)
    ensures Lookup(Run(packets[..k + 1]), packets[k].universe) ==
              Some(State(packets[k].endpoint, packets[k].sequence, packets[k].sequence != 0))
  {
    assert packets[..k + 1][..k] == packets[..k];
  }
}
