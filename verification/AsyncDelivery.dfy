/** What the core is handed: rising sequence numbers, whole generations, and after stop() the latest of everything. */
module AsyncDelivery {
  import opened Prelude
  import opened AsyncProtocol
  import opened AsyncInput

  /** The last value handed to the core for a universe. */
  function LastFor(sink: seq<Delivery>, u: nat): Option<Input> {
    if sink == [] then None
    else if sink[|sink| - 1].universe == u then Some(sink[|sink| - 1].value)
    else LastFor(sink[..|sink| - 1], u)
  }

  lemma LastForAppend(sink: seq<Delivery>, d: Delivery)
    ensures forall u :: LastFor(sink + [d], u) == if u == d.universe then Some(d.value) else LastFor(sink, u)
  {
    assert (sink + [d])[..|sink|] == sink;
  }

  ghost predicate Rising(sink: seq<Delivery>) {
    forall a, b :: 0 <= a < b < |sink| && sink[a].universe == sink[b].universe ==>
      sink[a].value.sequence < sink[b].value.sequence
  }

  lemma {:induction false} LastForIsNewest(sink: seq<Delivery>, a: nat)
    requires Rising(sink) && a < |sink|
    ensures LastFor(sink, sink[a].universe).Some?
    ensures sink[a].value.sequence <= LastFor(sink, sink[a].universe).value.sequence
  {
    var last := |sink| - 1;
    if sink[last].universe != sink[a].universe {
      LastForIsNewest(sink[..last], a);
    }
  }

  /** The consumed sequence number of a universe is that of its last delivery. */
  predicate Settled(i: InputSide, u: nat)
    requires u < |i.consumed|
  {
    match LastFor(i.sink, u)
    case None => i.consumed[u] == 1
    case Some(v) => v.sequence == i.consumed[u] > 1
  }

  /** The core has the producer's latest value, if the universe was ever submitted. */
  predicate Caught(i: InputSide, u: nat)
    requires u < |i.latest|
  {
    i.latest[u].sequence > 1 ==> LastFor(i.sink, u) == Some(i.latest[u])
  }

  /** A delivery for one universe says nothing about the others. */
  lemma DeliveryElsewhere(i: InputSide, r: InputSide, universe: nat)
    requires |i.consumed| == |r.consumed| && |i.latest| == |r.latest| && |i.latest| == |i.consumed|
    requires r.sink == i.sink || exists v :: r.sink == i.sink + [Delivery(universe, v)]
    requires forall u :: 0 <= u < |i.latest| && u != universe ==>
               r.consumed[u] == i.consumed[u] && r.latest[u] == i.latest[u]
    ensures forall u :: 0 <= u < |i.latest| && u != universe && Settled(i, u) ==> Settled(r, u)
    ensures forall u :: 0 <= u < |i.latest| && u != universe && Caught(i, u) ==> Caught(r, u)
  {
    if r.sink != i.sink {
      var v :| r.sink == i.sink + [Delivery(universe, v)];
      LastForAppend(i.sink, Delivery(universe, v));
    }
  }

  /** How many universes stop() has already checked against the core. */
  function Restored(s: State): nat {
    if s.main.Restore? then s.main.done
    else if (s.main.Finish? || s.main.Retired?) && s.flags.restored then |s.input.latest|
    else 0
  }

  function NewestTaken(i: InputSide, u: nat): nat {
    var g := LastTaken(i);
    if 2 <= g <= |i.flushed| + 1 && u < |i.flushed[g - 2]| then i.flushed[g - 2][u].sequence else 1
  }

  ghost predicate ConsumedBounded(s: State) {
    var i, c := s.input, s.coordinator;
    && (forall u :: 0 <= u < |i.consumed| ==> 1 <= i.consumed[u] <= NewestTaken(i, u))
    && (c.Read? ==> forall u :: 0 <= u < c.done && u < |i.consumed| ==> i.consumed[u] == NewestTaken(i, u))
  }

  ghost predicate SinkGenuine(i: InputSide) {
    forall a :: 0 <= a < |i.sink| ==>
      && i.sink[a].universe < |i.latest| && i.sink[a].value.sequence > 1
      && Genuine(i.history, i.sink[a].universe, i.sink[a].value)
  }

  ghost predicate Delivered(s: State) {
    var i := s.input;
    && |i.consumed| == |i.latest| && Restored(s) <= |i.latest|
    && Rising(i.sink) && SinkGenuine(i)
    && (forall u :: 0 <= u < Restored(s) ==> Caught(i, u))
    && (forall u :: Restored(s) <= u < |i.latest| ==> Settled(i, u))
    && (s.flags.restored ==> s.main.Restore? || s.main.Finish? || s.main.Retired?)
    && (s.main.Restore? ==> s.flags.restored)
  }

  ghost predicate InputInv(s: State) {
    Ownership(s) && Generations(s.input) && Order(s) && ConsumedBounded(s) && Delivered(s)
  }

  lemma MainEffect(s: State)
    requires Typed(s) && Enabled(s, MainAdvance)
    ensures var i, r := s.input, MainStep(s);
            && r.coordinator == s.coordinator && r.input.taken == i.taken && r.input.consumed == i.consumed
            && i.flushed <= r.input.flushed
  {
  }

  lemma MainKeepsBounded(s: State)
    requires Typed(s) && Order(s) && ConsumedBounded(s) && Enabled(s, MainAdvance)
    ensures ConsumedBounded(MainStep(s))
  {
    LastTakenIsTaken(s);
    MainEffect(s);
  }

  lemma MarkKeepsBounded(s: State)
    requires Typed(s) && InputInv(s) && s.coordinator.Mark?
    ensures ConsumedBounded(CoordinatorStep(s))
  {
    var i, r := s.input, CoordinatorStep(s).input;
    LastTakenIsTaken(s);
    var g, h := LastTaken(i), LastTaken(r);
    assert h == i.banks[s.coordinator.bank].generation;
    if g > 1 {
      assert g in i.taken;
      assert NotNewer(i.flushed[g - 2], i.flushed[h - 2]);
    }
    assert GenuineAll(i, i.flushed[h - 2]);
  }

  lemma ReadKeepsBounded(s: State)
    requires Typed(s) && InputInv(s) && s.coordinator.Read?
    ensures ConsumedBounded(CoordinatorStep(s))
  {
    var i, b, done := s.input, s.coordinator.bank, s.coordinator.done;
    var g := LastTaken(i);
    assert i.banks[b].frames == i.flushed[g - 2];
    if done < |i.latest| {
      assert GenuineAll(i, i.flushed[g - 2]);
      assert Genuine(i.history, done, i.flushed[g - 2][done]);
      assert NewestTaken(i, done) == i.banks[b].frames[done].sequence;
    }
  }

  lemma StepKeepsBounded(s: State, e: Event)
    requires Typed(s) && InputInv(s) && Enabled(s, e)
    ensures ConsumedBounded(Step(s, e))
  {
    if e.MainAdvance? {
      MainKeepsBounded(s);
    } else if CoordinatorMoves(e) {
      if !Consuming(s, e) {
        CoordinatorElsewhere(s, e);
      } else if s.coordinator.Mark? {
        MarkKeepsBounded(s);
      } else if s.coordinator.Read? {
        ReadKeepsBounded(s);
      }
    }
  }

  /** Handing over a value newer than the consumed one keeps deliveries rising and genuine. */
  lemma DeliveryRises(i: InputSide, u: nat, v: Input)
    requires |i.consumed| == |i.latest| && u < |i.latest| && Rising(i.sink) && SinkGenuine(i) && Settled(i, u)
    requires v.sequence > i.consumed[u] >= 1 && Genuine(i.history, u, v)
    ensures var r := i.(sink := i.sink + [Delivery(u, v)]); Rising(r.sink) && SinkGenuine(r)
  {
    forall a | 0 <= a < |i.sink| && i.sink[a].universe == u ensures i.sink[a].value.sequence < v.sequence {
      LastForIsNewest(i.sink, a);
    }
  }

  lemma RestoreKeepsDelivered(s: State)
    requires Typed(s) && InputInv(s) && s.main.Restore? && s.main.done < |s.input.latest|
    ensures Delivered(MainStep(s))
  {
    var i, u := s.input, s.main.done;
    var v := i.latest[u];
    assert GenuineAll(i, i.latest) && Genuine(i.history, u, v);
    ConsumedNotAhead(s, u);
    assert Settled(i, u);
    var r := MainStep(s).input;
    DeliveryElsewhere(i, r, u);
    if Fresh(v, i.consumed[u]) {
      DeliveryRises(i, u, v);
      LastForAppend(i.sink, Delivery(u, v));
    } else if v.sequence > 1 {
      LastForIsGenuine(i, u);
    }
    assert Caught(r, u);
  }

  lemma {:induction false} LastForFound(sink: seq<Delivery>, u: nat) returns (a: nat)
    requires LastFor(sink, u).Some?
    ensures a < |sink| && sink[a] == Delivery(u, LastFor(sink, u).value)
  {
    if sink[|sink| - 1].universe == u {
      a := |sink| - 1;
    } else {
      a := LastForFound(sink[..|sink| - 1], u);
    }
  }

  lemma LastForIsGenuine(i: InputSide, u: nat)
    requires SinkGenuine(i) && LastFor(i.sink, u).Some?
    ensures Genuine(i.history, u, LastFor(i.sink, u).value)
  {
    var a := LastForFound(i.sink, u);
  }

  lemma ConsumedNotAhead(s: State, u: nat)
    requires Typed(s) && Generations(s.input) && Order(s) && ConsumedBounded(s) && u < |s.input.latest|
    ensures 1 <= s.input.consumed[u] <= s.input.latest[u].sequence
  {
    var i := s.input;
    LastTakenIsTaken(s);
    assert Genuine(i.history, u, i.latest[u]);
    if LastTaken(i) > 1 {
      assert LastTaken(i) in i.taken;
      assert NotNewer(i.flushed[LastTaken(i) - 2], i.latest);
    }
  }

  lemma ReadKeepsDelivered(s: State)
    requires Typed(s) && InputInv(s) && s.coordinator.Read? && s.coordinator.done < |s.input.latest|
    ensures Delivered(CoordinatorStep(s))
  {
    var i, b, u := s.input, s.coordinator.bank, s.coordinator.done;
    var v := i.banks[b].frames[u];
    var g := LastTaken(i);
    assert GenuineAll(i, i.flushed[g - 2]) && Genuine(i.history, u, v);
    assert NewestTaken(i, u) == v.sequence;
    assert Restored(s) == 0 && Settled(i, u);
    var r := CoordinatorStep(s).input;
    DeliveryElsewhere(i, r, u);
    if Fresh(v, i.consumed[u]) {
      DeliveryRises(i, u, v);
      LastForAppend(i.sink, Delivery(u, v));
    }
    assert Settled(r, u);
  }

  lemma SubmitKeepsDelivered(s: State, e: Event)
    requires Typed(s) && InputInv(s) && Enabled(s, e) && e.Submit?
    ensures Delivered(Step(s, e))
  {
    var i, r := s.input, Step(s, e).input;
    assert forall u, v :: Genuine(i.history, u, v) ==> Genuine(r.history, u, v);
    DeliveryElsewhere(i, r, e.universe);
    assert Restored(s) == 0 && Settled(i, e.universe);
    assert Settled(r, e.universe);
  }

  lemma MainKeepsDelivered(s: State)
    requires Typed(s) && InputInv(s) && Enabled(s, MainAdvance)
    ensures Delivered(Step(s, MainAdvance))
  {
    if s.main.Restore? && s.main.done < |s.input.latest| {
      RestoreKeepsDelivered(s);
    } else {
      var i, r := s.input, Step(s, MainAdvance).input;
      MainDeliversElsewhere(s);
      DeliveryElsewhere(i, r, |i.latest|);
    }
  }

  lemma MainDeliversElsewhere(s: State)
    requires Typed(s) && Enabled(s, MainAdvance) && !(s.main.Restore? && s.main.done < |s.input.latest|)
    ensures var i, r := s.input, MainStep(s).input;
            r.sink == i.sink && r.history == i.history && r.consumed == i.consumed && r.latest == i.latest
  {
  }

  lemma StepKeepsDelivered(s: State, e: Event)
    requires Typed(s) && InputInv(s) && Enabled(s, e)
    ensures Delivered(Step(s, e))
  {
    var i, r := s.input, Step(s, e).input;
    if e.MainAdvance? {
      MainKeepsDelivered(s);
    } else if e.Submit? {
      SubmitKeepsDelivered(s, e);
    } else if CoordinatorMoves(e) && !Consuming(s, e) {
      CoordinatorElsewhere(s, e);
    } else if e.CoordinatorAdvance? && s.coordinator.Read? && s.coordinator.done < |i.latest| {
      ReadKeepsDelivered(s);
    } else {
      assert r.sink == i.sink && r.history == i.history && r.consumed == i.consumed && r.latest == i.latest;
      DeliveryElsewhere(i, r, |i.latest|);
    }
  }

  lemma StepKeepsInputInv(s: State, e: Event)
    requires Typed(s) && InputInv(s) && Enabled(s, e)
    ensures InputInv(Step(s, e))
  {
    StepKeepsOwnership(s, e);
    StepKeepsGenerations(s, e);
    StepKeepsOrder(s, e);
    StepKeepsBounded(s, e);
    StepKeepsDelivered(s, e);
  }

  lemma InitialInputInv(s: State, held: seq<seq<byte>>)
    requires Initial(s, held)
    ensures Typed(s) && InputInv(s)
  {
  }

  lemma {:induction false} RunsKeepInputInv(held: seq<seq<byte>>, states: seq<State>, events: seq<Event>, k: nat)
    requires IsRun(held, states, events) && k < |states|
    ensures Typed(states[k]) && InputInv(states[k])
  {
    if k == 0 {
      InitialInputInv(states[0], held);
    } else {
      RunsKeepInputInv(held, states, events, k - 1);
      StepKeepsInputTyped(states[k - 1], events[k - 1]);
      StepKeepsOutputTyped(states[k - 1], events[k - 1]);
      StepKeepsInputInv(states[k - 1], events[k - 1]);
    }
  }

  lemma ReachableInput(s: State)
    requires Reachable(s)
    ensures Typed(s) && InputInv(s)
  {
    var held: seq<seq<byte>>, states: seq<State>, events: seq<Event> :| IsRun(held, states, events) && s in states;
    var k :| 0 <= k < |states| && states[k] == s;
    RunsKeepInputInv(held, states, events, k);
  }

  // ----- what every run guarantees -----

  /** A flush that began always finds a free bank: the scan never runs past the last one. */
  lemma FlushFindsABank(s: State)
    requires Reachable(s) && s.main.Scan?
    ensures s.main.bank < INPUT_BANKS
    ensures exists b :: s.main.bank <= b < |s.input.banks| && s.input.banks[b].status == Free
  {
    ReachableInput(s);
    var f: nat :| s.main.bank <= f < |s.input.banks| && s.input.banks[f].status == Free;
  }

  /** No step of one thread changes the contents of a bank the other thread holds or the slot offers. */
  lemma InputBanksAreNotShared(s: State, e: Event, b: nat)
    requires Reachable(s) && Enabled(s, e) && Typed(s) && b < INPUT_BANKS
    requires Step(s, e).input.banks[b].frames != s.input.banks[b].frames ||
             Step(s, e).input.banks[b].generation != s.input.banks[b].generation
    ensures e.MainAdvance? && s.main.Copy? && s.main.bank == b && s.input.banks[b].status == Writing
    ensures CoordinatorInput(s.coordinator) != Some(b) && s.input.queued != Some(b)
  {
    ReachableInput(s);
    OnlyCopyingWrites(s, e, b);
  }

  lemma OnlyCopyingWrites(s: State, e: Event, b: nat)
    requires Typed(s) && Enabled(s, e) && b < INPUT_BANKS
    requires Step(s, e).input.banks[b].frames != s.input.banks[b].frames ||
             Step(s, e).input.banks[b].generation != s.input.banks[b].generation
    ensures e.MainAdvance? && s.main.Copy? && s.main.bank == b
  {
    if CoordinatorMoves(e) && !Consuming(s, e) {
      CoordinatorElsewhere(s, e);
    }
  }

  /** What the coordinator reads element by element is one whole flushed generation, the youngest it ever took. */
  lemma ReadsAreNotTorn(s: State)
    requires Reachable(s) && s.coordinator.Read?
    ensures Typed(s) && 2 <= LastTaken(s.input) <= |s.input.flushed| + 1
    ensures s.input.banks[s.coordinator.bank].frames == s.input.flushed[LastTaken(s.input) - 2]
    ensures s.coordinator.done == |s.input.latest| ==>
              forall u :: 0 <= u < |s.input.latest| && s.input.banks[s.coordinator.bank].frames[u].sequence > 1 ==>
                LastFor(s.input.sink, u) == Some(s.input.banks[s.coordinator.bank].frames[u])
  {
    ReachableInput(s);
    var i := s.input;
    var frames := i.banks[s.coordinator.bank].frames;
    if s.coordinator.done == |i.latest| {
      forall u | 0 <= u < |i.latest| && frames[u].sequence > 1 ensures LastFor(i.sink, u) == Some(frames[u]) {
        assert i.consumed[u] == NewestTaken(i, u) == frames[u].sequence;
        assert Restored(s) == 0 && Settled(i, u);
        LastForIsGenuine(i, u);
        assert GenuineAll(i, i.flushed[LastTaken(i) - 2]);
        assert Genuine(i.history, u, frames[u]);
      }
    }
  }

  /** Generations are taken in strictly ascending order, and each universe's values reach the core in submit order. */
  lemma DeliveriesRise(s: State)
    requires Reachable(s)
    ensures StrictlyIncreasing(s.input.taken)
    ensures Rising(s.input.sink)
    ensures forall a :: 0 <= a < |s.input.sink| ==>
              var d := s.input.sink[a];
              2 <= d.value.sequence <= |s.input.history| + 1 && s.input.history[d.value.sequence - 2] == d
  {
    ReachableInput(s);
  }

  ghost predicate LatestTracksHistory(i: InputSide) {
    forall u: nat ::
      (LastFor(i.history, u).Some? ==> u < |i.latest| && i.latest[u] == LastFor(i.history, u).value &&
                                       i.latest[u].sequence > 1)
  }

  lemma {:induction false} RunsTrackHistory(held: seq<seq<byte>>, states: seq<State>, events: seq<Event>, k: nat)
    requires IsRun(held, states, events) && k < |states|
    ensures LatestTracksHistory(states[k].input)
  {
    if k > 0 {
      RunsTrackHistory(held, states, events, k - 1);
      RunsKeepInputInv(held, states, events, k - 1);
      var s, e := states[k - 1], events[k - 1];
      var i, r := s.input, Step(s, e).input;
      if e.Submit? {
        LastForAppend(i.history, r.history[|i.history|]);
      } else {
        HistoryChangesOnSubmitOnly(s, e);
      }
    }
  }

  lemma HistoryChangesOnSubmitOnly(s: State, e: Event)
    requires Typed(s) && Enabled(s, e) && !e.Submit?
    ensures Step(s, e).input.history == s.input.history && Step(s, e).input.latest == s.input.latest
  {
  }
}
