/**
  Liveness-free guarantees of the flush: the youngest flushed generation stays on offer until it is taken, and when
  nothing is left to flush, offer or read, the core has every producer's last value.
*/
module AsyncFlush {
  import opened Prelude
  import opened AsyncProtocol
  import opened AsyncInput
  import opened AsyncDelivery

  predicate Stamped(m: Main) {
    m.Announce? || m.Swap?
  }

  predicate InFlush(m: Main) {
    m.Scan? || m.Copy? || m.Discard? || Stamped(m)
  }

  /** The youngest generation that was ever put into the slot; a stamped bank is still on its way there. */
  function YoungestOffered(s: State): int {
    if Stamped(s.main) then |s.input.flushed| else |s.input.flushed| + 1
  }

  /** The youngest generation offered is waiting in the slot, or being taken, or the last one taken. */
  ghost predicate OnOffer(s: State)
    requires Typed(s)
  {
    var i, c := s.input, s.coordinator;
    if i.queued.Some? then i.banks[i.queued.value].generation == YoungestOffered(s)
    else if c.Mark? then i.banks[c.bank].generation == YoungestOffered(s)
    else LastTaken(i) == YoungestOffered(s)
  }

  /** The producer's values are those of the youngest flushed generation, or still the initial ones. */
  ghost predicate UpToDate(i: InputSide) {
    if i.flushed == [] then forall u :: 0 <= u < |i.latest| ==> i.latest[u].sequence == 1
    else i.latest == i.flushed[|i.flushed| - 1]
  }

  /** Values that are not flushed yet keep the producer dirty. */
  ghost predicate DirtyIfNewer(s: State) {
    && (s.main.Scan? || s.main.Copy? ==> s.input.dirty)
    && (Stamped(s.main) || s.main.Discard? || (!InFlush(s.main) && !s.input.dirty) ==> UpToDate(s.input))
  }

  /** A coordinator that is not reading has handed over everything of the last generation it took. */
  ghost predicate ReadThrough(s: State) {
    CoordinatorInput(s.coordinator).None? || s.coordinator.Mark? ==>
      forall u :: 0 <= u < |s.input.consumed| ==> s.input.consumed[u] == NewestTaken(s.input, u)
  }

  ghost predicate FlushInv(s: State) {
    Typed(s) && InputInv(s) && OnOffer(s) && DirtyIfNewer(s) && ReadThrough(s)
  }

  lemma InitialFlushInv(s: State, held: seq<seq<byte>>)
    requires Initial(s, held)
    ensures FlushInv(s)
  {
    InitialInputInv(s, held);
  }

  lemma StampKeepsOffer(s: State)
    requires Typed(s) && Ownership(s) && OnOffer(s) && s.main.Copy? && Typed(MainStep(s))
    ensures OnOffer(MainStep(s))
  {
  }

  lemma SwapKeepsOffer(s: State)
    requires Typed(s) && Ownership(s) && OnOffer(s) && s.main.Swap? && Typed(MainStep(s))
    requires s.main.bank < |s.input.banks| && s.input.banks[s.main.bank].generation == |s.input.flushed| + 1
    ensures OnOffer(MainStep(s))
  {
  }

  lemma MainKeepsOffer(s: State)
    requires Typed(s) && Ownership(s) && Order(s) && OnOffer(s) && Enabled(s, MainAdvance) && Typed(MainStep(s))
    ensures OnOffer(MainStep(s))
  {
    if s.main.Copy? {
      StampKeepsOffer(s);
    } else if s.main.Swap? {
      SwapKeepsOffer(s);
    } else {
      assert SameContents(s.input, MainStep(s).input) && MainStep(s).input.queued == s.input.queued;
    }
  }

  lemma ConsumerKeepsOffer(s: State)
    requires Typed(s) && OnOffer(s) && Enabled(s, CoordinatorAdvance) && Consuming(s, CoordinatorAdvance)
    requires Typed(CoordinatorStep(s))
    ensures OnOffer(CoordinatorStep(s))
  {
  }

  lemma StepKeepsOffer(s: State, e: Event)
    requires Typed(s) && Ownership(s) && Order(s) && OnOffer(s) && Enabled(s, e) && Typed(Step(s, e))
    ensures OnOffer(Step(s, e))
  {
    if e.MainAdvance? {
      MainKeepsOffer(s);
    } else if CoordinatorMoves(e) {
      if Consuming(s, e) {
        ConsumerKeepsOffer(s);
      } else {
        CoordinatorElsewhere(s, e);
      }
    }
  }

  lemma StampMirrors(s: State)
    requires Typed(s) && ProducerBank(s.input, s.main) && DirtyIfNewer(s)
    requires s.main.Copy? && s.main.done == |s.input.latest|
    ensures DirtyIfNewer(MainStep(s))
  {
    assert s.input.banks[s.main.bank].frames == s.input.latest;
  }

  lemma MainKeepsDirty(s: State)
    requires Typed(s) && Ownership(s) && ProducerBank(s.input, s.main) && DirtyIfNewer(s) && Enabled(s, MainAdvance)
    ensures DirtyIfNewer(MainStep(s))
  {
    if s.main.Copy? && s.main.done == |s.input.latest| {
      StampMirrors(s);
    } else {
      assert MainStep(s).input.flushed == s.input.flushed && MainStep(s).input.latest == s.input.latest;
    }
  }

  /** The coordinator neither submits nor flushes. */
  lemma CoordinatorFlushesNothing(s: State, e: Event)
    requires Typed(s) && Enabled(s, e) && CoordinatorMoves(e)
    ensures var i, r := s.input, Step(s, e).input;
            Step(s, e).main == s.main && r.flushed == i.flushed && r.latest == i.latest && r.dirty == i.dirty
  {
    if !Consuming(s, e) {
      CoordinatorElsewhere(s, e);
    }
  }

  lemma StepKeepsDirty(s: State, e: Event)
    requires Typed(s) && Ownership(s) && ProducerBank(s.input, s.main) && DirtyIfNewer(s) && Enabled(s, e)
    ensures DirtyIfNewer(Step(s, e))
  {
    if e.MainAdvance? {
      MainKeepsDirty(s);
    } else if CoordinatorMoves(e) {
      CoordinatorFlushesNothing(s, e);
    } else {
      assert Step(s, e).input.flushed == s.input.flushed;
    }
  }

  lemma SameNewestTaken(i: InputSide, r: InputSide)
    requires r.taken == i.taken && i.flushed <= r.flushed && LastTaken(i) <= |i.flushed| + 1
    ensures forall u: nat :: NewestTaken(r, u) == NewestTaken(i, u)
  {
  }

  lemma ConsumerKeepsReadThrough(s: State)
    requires Typed(s) && Order(s) && ConsumedBounded(s) && ReadThrough(s)
    requires Enabled(s, CoordinatorAdvance) && Consuming(s, CoordinatorAdvance)
    ensures ReadThrough(CoordinatorStep(s))
  {
    LastTakenIsTaken(s);
    var r := CoordinatorStep(s);
    if !s.coordinator.Mark? {
      SameNewestTaken(s.input, r.input);
    }
  }

  lemma StepKeepsReadThrough(s: State, e: Event)
    requires Typed(s) && Order(s) && ConsumedBounded(s) && ReadThrough(s) && Enabled(s, e)
    ensures ReadThrough(Step(s, e))
  {
    LastTakenIsTaken(s);
    if CoordinatorMoves(e) {
      if Consuming(s, e) {
        ConsumerKeepsReadThrough(s);
      } else {
        CoordinatorElsewhere(s, e);
      }
    } else {
      ProducerConsumesNothing(s, e);
      SameNewestTaken(s.input, Step(s, e).input);
    }
  }

  /** The main thread takes no generation and consumes nothing. */
  lemma ProducerConsumesNothing(s: State, e: Event)
    requires Typed(s) && Enabled(s, e) && !CoordinatorMoves(e)
    ensures var i, r := s.input, Step(s, e).input;
            && Step(s, e).coordinator == s.coordinator && r.taken == i.taken && r.consumed == i.consumed
            && i.flushed <= r.flushed
  {
    if e.MainAdvance? {
      MainEffect(s);
    }
  }

  lemma StepKeepsFlushInv(s: State, e: Event)
    requires FlushInv(s) && Enabled(s, e) && Typed(Step(s, e)) && InputInv(Step(s, e))
    ensures FlushInv(Step(s, e))
  {
    StepKeepsOffer(s, e);
    StepKeepsDirty(s, e);
    StepKeepsReadThrough(s, e);
  }

  lemma {:induction false} RunsKeepFlushInv(held: seq<seq<byte>>, states: seq<State>, events: seq<Event>, k: nat)
    requires IsRun(held, states, events) && k < |states|
    ensures FlushInv(states[k])
  {
    if k == 0 {
      InitialFlushInv(states[0], held);
    } else {
      RunsKeepFlushInv(held, states, events, k - 1);
      RunsKeepInputInv(held, states, events, k);
      assert states[k] == Step(states[k - 1], events[k - 1]);
      StepKeepsFlushInv(states[k - 1], events[k - 1]);
    }
  }

  lemma ReachableFlush(s: State)
    requires Reachable(s)
    ensures FlushInv(s) && LatestTracksHistory(s.input)
  {
    var held: seq<seq<byte>>, states: seq<State>, events: seq<Event> :| IsRun(held, states, events) && s in states;
    var k :| 0 <= k < |states| && states[k] == s;
    RunsKeepFlushInv(held, states, events, k);
    RunsTrackHistory(held, states, events, k);
  }

  /**
    Between flushes the bank on offer is the youngest flushed generation, whole: a later flush replaces an unread one
    and never the other way round.
  */
  lemma OfferIsTheYoungest(s: State)
    requires Reachable(s) && s.input.queued.Some? && !s.main.Announce? && !s.main.Swap?
    ensures s.input.queued.value < |s.input.banks| && s.input.flushed != []
    ensures var bank := s.input.banks[s.input.queued.value];
            bank.generation == |s.input.flushed| + 1 && bank.frames == s.input.flushed[|s.input.flushed| - 1]
  {
    ReachableFlush(s);
  }

  /**
    When the producer has nothing unflushed, the slot is empty and the coordinator holds no input bank, then the core
    has received the last accepted value of every universe.
  */
  lemma QuietMeansDelivered(s: State, u: nat)
    requires Reachable(s) && s.main.Idle? && !s.input.dirty
    requires s.input.queued.None? && CoordinatorInput(s.coordinator).None?
    requires LastFor(s.input.history, u).Some?
    ensures LastFor(s.input.sink, u) == LastFor(s.input.history, u)
  {
    ReachableFlush(s);
    var i := s.input;
    assert u < |i.latest| && i.latest[u] == LastFor(i.history, u).value && i.latest[u].sequence > 1;
    assert i.consumed[u] == NewestTaken(i, u) == i.latest[u].sequence;
    assert Restored(s) == 0 && Settled(i, u);
    LastForIsGenuine(i, u);
    assert GenuineAll(i, i.latest) && Genuine(i.history, u, i.latest[u]);
  }

  // ----- stop() -----

  predicate Stopped(m: Main) {
    m.Restore? || m.Finish? || m.Retired?
  }

  lemma DecisionStays(s: State, e: Event)
    requires Typed(s) && Ownership(s) && Enabled(s, e) && Stopped(s.main)
    ensures var r := Step(s, e);
            && Stopped(r.main) && r.flags.restored == s.flags.restored && (r.main.Restore? ==> s.main.Restore?)
            && (!s.main.Restore? ==> r.input.sink == s.input.sink)
  {
  }

  lemma {:induction false} StopStaysDecided(held: seq<seq<byte>>, states: seq<State>, events: seq<Event>, j: nat, k: nat)
    requires IsRun(held, states, events) && j < k < |states| && events[j].Joined?
    ensures Stopped(states[k].main) && states[k].flags.restored == events[j].sameSchema
    ensures !events[j].sameSchema ==> !states[k].main.Restore? && states[k].input.sink == states[j].input.sink
    decreases k
  {
    RunsKeepInputInv(held, states, events, k - 1);
    if k > j + 1 {
      StopStaysDecided(held, states, events, j, k - 1);
      DecisionStays(states[k - 1], events[k - 1]);
    }
  }

  /**
    Once a run has joined with an unchanged schema and retired, the last value that the core received for every
    universe with an accepted submit is the last accepted one, whatever the coordinator was doing when it was stopped.
  */
  lemma StopLosesNothing(held: seq<seq<byte>>, states: seq<State>, events: seq<Event>, j: nat, k: nat, u: nat)
    requires IsRun(held, states, events) && j < k < |states| && events[j] == Joined(true) && states[k].main.Retired?
    requires LastFor(states[k].input.history, u).Some?
    ensures LastFor(states[k].input.sink, u) == LastFor(states[k].input.history, u)
  {
    StopStaysDecided(held, states, events, j, k);
    RunsKeepInputInv(held, states, events, k);
    RunsTrackHistory(held, states, events, k);
    assert Caught(states[k].input, u);
  }

  /** With another schema the core receives nothing more. */
  lemma ForeignSchemaGetsNothing(held: seq<seq<byte>>, states: seq<State>, events: seq<Event>, j: nat, k: nat)
    requires IsRun(held, states, events) && j < k < |states| && events[j] == Joined(false)
    ensures states[k].input.sink == states[j].input.sink
  {
    StopStaysDecided(held, states, events, j, k);
  }

  /** An accepted submit is recorded with the next sequence number and the first 512 of its bytes. */
  lemma SubmitIsRecorded(s: State, universe: nat, data: seq<byte>)
    requires Typed(s) && Enabled(s, Submit(universe, data))
    ensures var i, r := s.input, Step(s, Submit(universe, data)).input;
            && |r.history| == |i.history| + 1 && r.history[..|i.history|] == i.history && r.dirty
            && var d := r.history[|i.history|];
               && d.universe == universe && d.value.sequence == |i.history| + 2
               && |d.value.data| == (if |data| < 512 then |data| else 512)
               && (forall b :: 0 <= b < |d.value.data| ==> d.value.data[b] == data[b])
               && r.latest == i.latest[universe := d.value]
  {
  }
}
