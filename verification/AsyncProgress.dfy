/**
  What one thread achieves when it is left alone: a flush that begins ends with its generation on offer, a round of the
  coordinator delivers what is on offer, and a finished result is offered and acquired.
*/
module AsyncProgress {
  import opened Prelude
  import opened AsyncProtocol
  import opened AsyncInput
  import opened AsyncDelivery
  import opened AsyncFlush

  lemma ReachableStep(s: State, e: Event)
    requires Reachable(s) && Typed(s) && Enabled(s, e)
    ensures Reachable(Step(s, e))
  {
    var held: seq<seq<byte>>, states: seq<State>, events: seq<Event> :| IsRun(held, states, events) && s in states;
    var k :| 0 <= k < |states| && states[k] == s;
    RunGrows(held, states, events, k, e);
  }

  lemma RunGrows(held: seq<seq<byte>>, states: seq<State>, events: seq<Event>, k: nat, e: Event)
    requires IsRun(held, states, events) && k < |states| && Typed(states[k]) && Enabled(states[k], e)
    ensures Reachable(Step(states[k], e))
  {
    var more, es := states[..k + 1] + [Step(states[k], e)], events[..k] + [e];
    assert IsRun(held, more, es) by {
      forall j | 0 <= j < |es| ensures Enabled(more[j], es[j]) && (Typed(more[j]) ==> more[j + 1] == Step(more[j], es[j])) {
        if j < k {
          assert Enabled(states[j], events[j]) && more[j] == states[j] && more[j + 1] == states[j + 1] && es[j] == events[j];
        }
      }
    }
    assert more[k + 1] in more;
  }

  // ----- a flush -----

  /** The state after `n` steps of the main thread alone. */
  ghost predicate MainReaches(s: State, n: nat, r: State)
    requires Typed(s)
    decreases n
  {
    if n == 0 then r == s else
      Enabled(s, MainAdvance) && Typed(MainStep(s)) && MainReaches(MainStep(s), n - 1, r)
  }

  lemma MainGoesOn(s: State)
    requires Typed(s) && Enabled(s, MainAdvance)
    ensures Typed(MainStep(s))
  {
    StepKeepsInputTyped(s, MainAdvance);
    StepKeepsOutputTyped(s, MainAdvance);
  }

  /** What a flush leaves as it was, and what it achieves: the values of `i` are the youngest generation, on offer. */
  ghost predicate Flushed(i: InputSide, r: State) {
    && r.main.Idle? && !r.input.dirty && r.input.queued.Some? && r.input.queued.value < |r.input.banks|
    && r.input.banks[r.input.queued.value].frames == i.latest && r.input.flushed == i.flushed + [i.latest]
    && r.input.latest == i.latest && r.input.history == i.history && r.input.sink == i.sink
  }

  lemma SwapEnds(s: State) returns (n: nat, r: State)
    requires Typed(s) && s.main.Announce? && s.input.banks[s.main.bank].frames == s.input.latest
    requires s.input.flushed != [] && s.input.flushed[|s.input.flushed| - 1] == s.input.latest
    requires Apart(Some(s.main.bank), s.input.queued)
    ensures MainReaches(s, n, r) && r.coordinator == s.coordinator
    ensures Flushed(s.input.(flushed := s.input.flushed[..|s.input.flushed| - 1]), r)
  {
    MainGoesOn(s);
    var s1 := MainStep(s);
    MainGoesOn(s1);
    var s2 := MainStep(s1);
    if s2.main.Idle? {
      n, r := 2, s2;
      assert MainReaches(s2, 0, r) && MainReaches(s1, 1, r);
    } else {
      MainGoesOn(s2);
      n, r := 3, MainStep(s2);
      assert MainReaches(r, 0, r) && MainReaches(s2, 1, r) && MainReaches(s1, 2, r);
    }
    assert s.input.flushed == s.input.flushed[..|s.input.flushed| - 1] + [s.input.latest];
  }

  lemma {:induction false} CopyEnds(s: State) returns (n: nat, r: State)
    requires Typed(s) && Ownership(s) && Order(s) && s.main.Copy?
    ensures MainReaches(s, n, r) && r.coordinator == s.coordinator && Flushed(s.input, r)
    decreases |s.input.latest| - s.main.done
  {
    MainGoesOn(s);
    MainKeepsOwnership(s);
    var next := MainStep(s);
    if s.main.done < |s.input.latest| {
      CopyKeepsOrder(s);
      n, r := CopyEnds(next);
    } else {
      assert s.input.banks[s.main.bank].frames == s.input.latest;
      assert next.input.flushed[..|next.input.flushed| - 1] == s.input.flushed;
      n, r := SwapEnds(next);
    }
    n := n + 1;
  }

  lemma {:induction false} ScanEnds(s: State) returns (n: nat, r: State)
    requires Typed(s) && Ownership(s) && Order(s) && s.main.Scan?
    ensures MainReaches(s, n, r) && r.coordinator == s.coordinator && Flushed(s.input, r)
    decreases INPUT_BANKS - s.main.bank
  {
    var f: nat :| s.main.bank <= f < |s.input.banks| && s.input.banks[f].status == Free;
    MainGoesOn(s);
    MainKeepsOwnership(s);
    ScanKeepsOrder(s);
    if s.input.banks[s.main.bank].status == Free {
      n, r := CopyEnds(MainStep(s));
    } else {
      n, r := ScanEnds(MainStep(s));
    }
    n := n + 1;
  }

  /** A flush that begins ends: the producer is clean again, and its values are the youngest generation, on offer. */
  lemma FlushCompletes(s: State) returns (n: nat, r: State)
    requires Reachable(s) && Enabled(s, BeginFlush)
    ensures Typed(s) && Typed(Step(s, BeginFlush))
    ensures MainReaches(Step(s, BeginFlush), n, r) && r.coordinator == s.coordinator && Flushed(s.input, r)
  {
    ReachableFlush(s);
    var begun := Step(s, BeginFlush);
    StepKeepsInputTyped(s, BeginFlush);
    StepKeepsOwnership(s, BeginFlush);
    StepKeepsOrder(s, BeginFlush);
    n, r := ScanEnds(begun);
  }

  // ----- a round of the coordinator -----

  /** The state after `n` steps of the coordinator alone. */
  ghost predicate CoordinatorReaches(s: State, n: nat, r: State)
    requires Typed(s)
    decreases n
  {
    if n == 0 then r == s else
      && Enabled(s, CoordinatorAdvance) && Typed(CoordinatorStep(s))
      && CoordinatorReaches(CoordinatorStep(s), n - 1, r)
  }

  lemma CoordinatorGoesOn(s: State)
    requires Reachable(s) && Typed(s) && Enabled(s, CoordinatorAdvance)
    ensures Typed(CoordinatorStep(s)) && Reachable(CoordinatorStep(s))
  {
    StepKeepsInputTyped(s, CoordinatorAdvance);
    StepKeepsOutputTyped(s, CoordinatorAdvance);
    ReachableStep(s, CoordinatorAdvance);
  }

  /** The coordinator, left alone, gets from `s` to `r`. */
  ghost predicate Alone(s: State, r: State)
    requires Typed(s)
  {
    exists n: nat :: CoordinatorReaches(s, n, r)
  }

  ghost predicate LeadsTo(s: State, next: State)
    requires Typed(s) && Typed(next)
  {
    forall r: State :: Alone(next, r) ==> Alone(s, r)
  }

  lemma AStepLeads(s: State)
    requires Typed(s) && Enabled(s, CoordinatorAdvance) && Typed(CoordinatorStep(s))
    ensures Alone(s, CoordinatorStep(s)) && LeadsTo(s, CoordinatorStep(s))
  {
    var next := CoordinatorStep(s);
    assert CoordinatorReaches(next, 0, next) && CoordinatorReaches(s, 1, next);
    forall r: State | Alone(next, r) ensures Alone(s, r) {
      var n: nat :| CoordinatorReaches(next, n, r);
      assert CoordinatorReaches(s, n + 1, r);
    }
  }

  /** On the way from the top of the loop, with a bank on offer, to the end of reading it. */
  predicate InRound(s: State) {
    if s.coordinator.Top? || s.coordinator.Take? then s.input.queued.Some? && (s.coordinator.Top? ==> !s.flags.stopping)
    else (s.coordinator.Mark? || s.coordinator.Read?) && s.input.queued.None?
  }

  function StepsLeft(s: State): int {
    if s.coordinator.Top? then |s.input.latest| + 3
    else if s.coordinator.Take? then |s.input.latest| + 2
    else if s.coordinator.Read? then |s.input.latest| - s.coordinator.done
    else |s.input.latest| + 1
  }

  lemma RoundStep(s: State)
    requires Typed(s) && InRound(s)
    ensures Enabled(s, CoordinatorAdvance)
    ensures var r := CoordinatorStep(s);
            && r.main == s.main && r.input.dirty == s.input.dirty && r.input.history == s.input.history
            && (if s.coordinator.Read? && s.coordinator.done == |s.input.latest|
                then r.coordinator == Claim(0) && r.input.queued.None?
                else InRound(r) && StepsLeft(r) < StepsLeft(s))
  {
  }

  lemma RoundGoesOn(s: State) returns (next: State)
    requires Reachable(s) && Typed(s) && InRound(s)
    ensures Reachable(next) && Typed(next) && Alone(s, next) && LeadsTo(s, next)
    ensures next.main == s.main && next.input.dirty == s.input.dirty && next.input.history == s.input.history
    ensures (next.coordinator == Claim(0) && next.input.queued.None?) || (InRound(next) && StepsLeft(next) < StepsLeft(s))
  {
    RoundStep(s);
    CoordinatorGoesOn(s);
    AStepLeads(s);
    next := CoordinatorStep(s);
  }

  lemma {:induction false} RoundEnds(s: State) returns (r: State)
    requires Reachable(s) && Typed(s) && InRound(s)
    ensures Alone(s, r) && Reachable(r) && r.coordinator == Claim(0) && r.input.queued.None?
    ensures r.main == s.main && r.input.dirty == s.input.dirty && r.input.history == s.input.history
    decreases StepsLeft(s)
  {
    var next := RoundGoesOn(s);
    r := next;
    if next.coordinator != Claim(0) {
      r := RoundEnds(next);
    }
  }

  /**
    One round of the coordinator, left alone, takes what is on offer and hands it over whole: if the producer is clean
    and idle the core then has the last accepted value of every universe.
  */
  lemma RoundDelivers(s: State) returns (r: State)
    requires Reachable(s) && Typed(s) && s.coordinator.Top? && s.input.queued.Some? && !s.flags.stopping
    ensures Alone(s, r) && Reachable(r) && r.coordinator == Claim(0) && r.input.queued.None?
    ensures r.main == s.main && r.input.history == s.input.history
    ensures s.main.Idle? && !s.input.dirty ==>
              forall u: nat :: LastFor(s.input.history, u).Some? ==> LastFor(r.input.sink, u) == LastFor(s.input.history, u)
  {
    r := RoundEnds(s);
    if s.main.Idle? && !s.input.dirty {
      forall u: nat | LastFor(s.input.history, u).Some? ensures LastFor(r.input.sink, u) == LastFor(s.input.history, u) {
        QuietMeansDelivered(r, u);
      }
    }
  }

  // ----- no result without input -----

  predicate BetweenResults(c: Coordinator) {
    !c.Read? && !c.Claim? && !c.Claimed? && !c.Fill?
  }

  /** Outside the first round a result is only begun for a generation that was taken. */
  ghost predicate OneEach(s: State) {
    && |s.output.produced| <= |s.input.taken| + (if BetweenResults(s.coordinator) then 1 else 0)
    && (s.flags.initialBatch ==>
          s.output.produced == [] && !s.coordinator.Claim? && !s.coordinator.Claimed? && !s.coordinator.Fill?)
    && (s.coordinator.Take? && !s.flags.initialBatch ==> s.input.queued.Some?)
  }

  lemma MainKeepsOneEach(s: State)
    requires Typed(s) && Enabled(s, MainAdvance) && OneEach(s)
    ensures OneEach(MainStep(s))
  {
  }

  lemma CoordinatorKeepsOneEach(s: State)
    requires Typed(s) && Enabled(s, CoordinatorAdvance) && OneEach(s)
    ensures OneEach(CoordinatorStep(s))
  {
  }

  lemma StepKeepsOneEach(s: State, e: Event)
    requires Typed(s) && Enabled(s, e) && OneEach(s)
    ensures OneEach(Step(s, e))
  {
    if e.MainAdvance? {
      MainKeepsOneEach(s);
    } else if e.CoordinatorAdvance? {
      CoordinatorKeepsOneEach(s);
    }
  }

  /** There is at most one result per generation taken, and the one of the first round. */
  lemma {:induction false} ResultsNeedInput(held: seq<seq<byte>>, states: seq<State>, events: seq<Event>, k: nat)
    requires IsRun(held, states, events) && k < |states|
    ensures OneEach(states[k]) && |states[k].output.produced| <= |states[k].input.taken| + 1
  {
    if k > 0 {
      ResultsNeedInput(held, states, events, k - 1);
      RunsKeepInputInv(held, states, events, k - 1);
      StepKeepsOneEach(states[k - 1], events[k - 1]);
    }
  }

  // ----- results -----

  /** A finished result is offered as soon as the slot is empty, and the coordinator starts its next round. */
  lemma FinishedIsOffered(s: State)
    requires Reachable(s) && Typed(s) && s.coordinator.Publish? && s.output.ready.None?
    ensures Typed(CoordinatorStep(s)) && Enabled(CoordinatorStep(s), CoordinatorAdvance)
    ensures var r := CoordinatorStep(CoordinatorStep(s));
            && r.coordinator.Top? && r.output.ready == Some(s.coordinator.bank)
            && forall b :: 0 <= b < |s.output.banks| ==> r.output.banks[b].snapshot == s.output.banks[b].snapshot
  {
    CoordinatorGoesOn(s);
  }

  /** Acquiring takes the offered result and leases its bank. */
  lemma OfferedIsAcquired(s: State)
    requires Typed(s) && Enabled(s, Acquire) && s.output.ready.Some?
    ensures Typed(Step(s, Acquire)) && Enabled(Step(s, Acquire), MainAdvance)
    ensures var r, b := MainStep(Step(s, Acquire)), s.output.ready.value;
            && r.main.Idle? && r.output.ready.None? && b < |s.output.banks|
            && r.output.acquired == s.output.acquired + [s.output.banks[b].snapshot]
            && b in r.output.leases && r.output.leases[b] == s.output.banks[b].snapshot
  {
    StepKeepsInputTyped(s, Acquire);
    StepKeepsOutputTyped(s, Acquire);
  }

  /** A free result bank is found by a coordinator that looks for one, wherever in its scan it is. */
  lemma {:induction false} ClaimSucceeds(s: State, free: nat) returns (r: State)
    requires Reachable(s) && Typed(s) && s.coordinator.Claim? && free < |s.output.banks|
    requires s.output.banks[free].status == Status.Free
    ensures Typed(s) && Alone(s, r) && r.coordinator.Claimed? && r.main == s.main && r.input == s.input
    decreases if s.coordinator.next <= free then free - s.coordinator.next else OUTPUT_BANKS + 1 - s.coordinator.next + free
  {
    CoordinatorGoesOn(s);
    AStepLeads(s);
    r := CoordinatorStep(s);
    if !r.coordinator.Claimed? {
      r := ClaimSucceeds(r, free);
    }
  }
}
