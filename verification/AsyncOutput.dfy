/** The output half of the hand-off: results reach the main thread once each, in order, and untouched while leased. */
module AsyncOutput {
  import opened Prelude
  import opened AsyncProtocol

  function CoordinatorStatus(c: Coordinator): Status {
    if c.Offer? || (c.Exited? && c.complete) then Queued else Writing
  }

  /** The status a result bank must show, given who holds it. */
  function HolderStatus(o: OutputSide, m: Main, c: Coordinator, b: nat): Status {
    if b in o.leases then Reading
    else if MainOutput(m) == Some(b) then Queued
    else if CoordinatorOutput(c) == Some(b) then CoordinatorStatus(c)
    else if o.ready == Some(b) then Queued
    else Free
  }

  predicate Holds(b: Option<nat>, leases: map<nat, int>) {
    b.Some? && b.value in leases
  }

  /** Leases, the bank being acquired, the coordinator's bank and the ready slot are four disjoint holders. */
  ghost predicate OutputOwnership(o: OutputSide, m: Main, c: Coordinator) {
    && !Holds(MainOutput(m), o.leases) && !Holds(CoordinatorOutput(c), o.leases) && !Holds(o.ready, o.leases)
    && (MainOutput(m).Some? ==> MainOutput(m) != CoordinatorOutput(c) && MainOutput(m) != o.ready)
    && (CoordinatorOutput(c).Some? && !m.Retired? ==> CoordinatorOutput(c) != o.ready)
    && (forall b: nat :: b < |o.banks| && !m.Retired? ==> o.banks[b].status == HolderStatus(o, m, c, b))
    && (forall b :: b in o.leases ==> b < |o.banks| && o.banks[b].snapshot == o.leases[b])
    && (m.Restore? || m.Finish? || m.Retired? ==> c.Exited?)
  }

  function Content(o: OutputSide, b: Option<nat>): (r: seq<int>) {
    if b.Some? && b.value < |o.banks| then [o.banks[b.value].snapshot] else []
  }

  /** A finished result the coordinator has not offered yet, or was still offering when it left. */
  function Unoffered(c: Coordinator): Option<nat> {
    match c
    case Publish(b) => Some(b)
    case Offer(b) => Some(b)
    case Exited(_, o, complete) => if complete then o else None
    case _ => None
  }

  /** Finished results the main thread has not been given: being acquired, ready, and unoffered, in this order. */
  function Waiting(o: OutputSide, m: Main, c: Coordinator): (r: seq<int>) {
    Content(o, MainOutput(m)) + Content(o, o.ready) + Content(o, Unoffered(c))
  }

  ghost predicate Fifo(o: OutputSide, m: Main, c: Coordinator) {
    && (!m.Retired? ==> o.produced == o.acquired + Waiting(o, m, c) && |Waiting(o, m, c)| <= OUTPUT_BANKS)
    && (m.Retired? ==> o.acquired <= o.produced && |o.produced| <= |o.acquired| + OUTPUT_BANKS)
  }

  ghost predicate OutputInv(s: State) {
    OutputOwnership(s.output, s.main, s.coordinator) && Fifo(s.output, s.main, s.coordinator)
  }

  lemma InitialOutputInv(s: State, held: seq<seq<byte>>)
    requires Initial(s, held)
    ensures OutputInv(s)
  {
  }

  /** Two banks cannot be in three places, so at most two finished results wait. */
  lemma AtMostTwoWait(s: State)
    requires Typed(s) && OutputOwnership(s.output, s.main, s.coordinator) && !s.main.Retired?
    ensures |Waiting(s.output, s.main, s.coordinator)| <= OUTPUT_BANKS
  {
  }

  lemma LeaseKeepsOutput(s: State)
    requires Typed(s) && OutputInv(s) && s.main.Lease?
    ensures OutputInv(MainStep(s))
  {
    var r := MainStep(s);
    assert r.output.acquired + Waiting(r.output, r.main, r.coordinator) ==
        s.output.acquired + Waiting(s.output, s.main, s.coordinator);
  }

  lemma FinishKeepsOutput(s: State)
    requires Typed(s) && OutputInv(s) && s.main.Finish?
    ensures OutputInv(MainStep(s))
  {
  }

  /** Steps that move neither a result bank nor the program counter of a bank's holder. */
  lemma ElsewhereKeepsOutput(s: State, r: State)
    requires OutputInv(s) && r.output == s.output && r.coordinator == s.coordinator
    requires MainOutput(r.main) == MainOutput(s.main) && r.main.Retired? == s.main.Retired?
    requires r.main.Restore? || r.main.Finish? || r.main.Retired? ==> s.coordinator.Exited?
    ensures OutputInv(r)
  {
  }

  lemma MainElsewhere(s: State)
    requires Typed(s) && OutputInv(s) && Enabled(s, MainAdvance) && !s.main.Lease? && !s.main.Finish?
    ensures var r := MainStep(s);
            && r.output == s.output && r.coordinator == s.coordinator && !r.main.Retired?
            && MainOutput(r.main) == MainOutput(s.main)
            && (r.main.Restore? || r.main.Finish? || r.main.Retired? ==> s.coordinator.Exited?)
  {
  }

  lemma AcquireKeepsOutput(s: State)
    requires Typed(s) && OutputInv(s) && Enabled(s, Acquire)
    ensures OutputInv(Step(s, Acquire))
  {
    var r := Step(s, Acquire);
    assert Waiting(r.output, r.main, r.coordinator) == Waiting(s.output, s.main, s.coordinator);
  }

  lemma ReleaseKeepsOutput(s: State, b: nat)
    requires Typed(s) && OutputInv(s) && Enabled(s, Release(b))
    ensures OutputInv(Step(s, Release(b)))
  {
    var r := Step(s, Release(b));
    assert Waiting(r.output, r.main, r.coordinator) == Waiting(s.output, s.main, s.coordinator);
  }

  lemma ClaimKeepsOutput(s: State)
    requires Typed(s) && OutputInv(s) && s.coordinator.Claim?
    ensures OutputInv(CoordinatorStep(s))
  {
    var r := CoordinatorStep(s);
    assert Waiting(r.output, r.main, r.coordinator) == Waiting(s.output, s.main, s.coordinator);
  }

  lemma OfferKeepsOutput(s: State)
    requires Typed(s) && OutputInv(s) && s.coordinator.Offer?
    ensures OutputInv(CoordinatorStep(s))
  {
    var r := CoordinatorStep(s);
    assert Waiting(r.output, r.main, r.coordinator) == Waiting(s.output, s.main, s.coordinator);
  }

  lemma PublishKeepsOutput(s: State)
    requires Typed(s) && OutputInv(s) && s.coordinator.Publish?
    ensures OutputInv(CoordinatorStep(s))
  {
    var r := CoordinatorStep(s);
    assert Waiting(r.output, r.main, r.coordinator) == Waiting(s.output, s.main, s.coordinator);
  }

  /** Coordinator steps on the input side. */
  lemma CoordinatorElsewhereKeepsOutput(s: State)
    requires Typed(s) && OutputInv(s) && Enabled(s, CoordinatorAdvance)
    requires !(s.coordinator.Claim? || s.coordinator.Offer? || s.coordinator.Publish?)
    ensures OutputInv(CoordinatorStep(s))
  {
    var r := CoordinatorStep(s);
    assert r.output == s.output && r.main == s.main;
    assert Waiting(r.output, r.main, r.coordinator) == Waiting(s.output, s.main, s.coordinator);
  }

  lemma QuitKeepsOutput(s: State)
    requires Typed(s) && OutputInv(s) && Enabled(s, CoordinatorSeesStop)
    ensures OutputInv(QuitStep(s))
  {
    var r := QuitStep(s);
    assert Waiting(r.output, r.main, r.coordinator) == Waiting(s.output, s.main, s.coordinator);
  }

  lemma ThrowKeepsOutput(s: State)
    requires Typed(s) && OutputInv(s) && Enabled(s, CoordinatorThrows)
    ensures OutputInv(ThrowStep(s))
  {
    var r := ThrowStep(s);
    assert Waiting(r.output, r.main, r.coordinator) == Waiting(s.output, s.main, s.coordinator);
  }

  lemma ScribbleKeepsOutput(s: State, content: int)
    requires Typed(s) && OutputInv(s) && s.coordinator.Fill?
    ensures OutputInv(Step(s, Scribble(content)))
  {
    var r := Step(s, Scribble(content));
    assert Waiting(r.output, r.main, r.coordinator) == Waiting(s.output, s.main, s.coordinator);
  }

  lemma CompleteKeepsOwnership(s: State, content: int)
    requires Typed(s) && OutputInv(s) && s.coordinator.Fill?
    ensures var r := Step(s, Complete(content)); OutputOwnership(r.output, r.main, r.coordinator) && !r.main.Retired?
  {
  }

  lemma CompleteAddsOne(s: State, content: int)
    requires Typed(s) && OutputInv(s) && s.coordinator.Fill?
    ensures var r := Step(s, Complete(content));
            && r.output.acquired == s.output.acquired && r.output.produced == s.output.produced + [content]
            && Waiting(r.output, r.main, r.coordinator) == Waiting(s.output, s.main, s.coordinator) + [content]
  {
  }

  lemma CompleteKeepsOutput(s: State, content: int)
    requires Typed(s) && OutputInv(s) && s.coordinator.Fill?
    ensures OutputInv(Step(s, Complete(content)))
  {
    var r := Step(s, Complete(content));
    CompleteKeepsOwnership(s, content);
    CompleteAddsOne(s, content);
    StepKeepsInputTyped(s, Complete(content));
    StepKeepsOutputTyped(s, Complete(content));
    AtMostTwoWait(r);
  }

  lemma StepKeepsOutput(s: State, e: Event)
    requires Typed(s) && OutputInv(s) && Enabled(s, e)
    ensures OutputInv(Step(s, e))
  {
    match e
    case MainAdvance =>
      if s.main.Lease? {
        LeaseKeepsOutput(s);
      } else if s.main.Finish? {
        FinishKeepsOutput(s);
      } else {
        MainElsewhere(s);
        ElsewhereKeepsOutput(s, MainStep(s));
      }
    case Acquire => AcquireKeepsOutput(s);
    case Release(b) => ReleaseKeepsOutput(s, b);
    case CoordinatorAdvance =>
      if s.coordinator.Claim? {
        ClaimKeepsOutput(s);
      } else if s.coordinator.Offer? {
        OfferKeepsOutput(s);
      } else if s.coordinator.Publish? {
        PublishKeepsOutput(s);
      } else {
        CoordinatorElsewhereKeepsOutput(s);
      }
    case CoordinatorSeesStop => QuitKeepsOutput(s);
    case CoordinatorThrows => ThrowKeepsOutput(s);
    case Scribble(content) => ScribbleKeepsOutput(s, content);
    case Complete(content) => CompleteKeepsOutput(s, content);
    case _ => ElsewhereKeepsOutput(s, Step(s, e));
  }

  lemma {:induction false} RunsKeepOutputInv(held: seq<seq<byte>>, states: seq<State>, events: seq<Event>, k: nat)
    requires IsRun(held, states, events) && k < |states|
    ensures Typed(states[k]) && OutputInv(states[k])
  {
    if k == 0 {
      InitialOutputInv(states[0], held);
    } else {
      RunsKeepOutputInv(held, states, events, k - 1);
      StepKeepsInputTyped(states[k - 1], events[k - 1]);
      StepKeepsOutputTyped(states[k - 1], events[k - 1]);
      StepKeepsOutput(states[k - 1], events[k - 1]);
    }
  }

  lemma ReachableOutput(s: State)
    requires Reachable(s)
    ensures Typed(s) && OutputInv(s)
  {
    var held: seq<seq<byte>>, states: seq<State>, events: seq<Event> :| IsRun(held, states, events) && s in states;
    var k :| 0 <= k < |states| && states[k] == s;
    RunsKeepOutputInv(held, states, events, k);
  }

  // ----- what every run guarantees -----

  /** Results are acquired in production order, none skipped or repeated, and at most two are ever left behind. */
  lemma ResultsAreFifo(s: State)
    requires Reachable(s)
    ensures s.output.acquired <= s.output.produced
    ensures |s.output.produced| <= |s.output.acquired| + OUTPUT_BANKS
    ensures !s.main.Retired? ==> s.output.produced == s.output.acquired + Waiting(s.output, s.main, s.coordinator)
  {
    ReachableOutput(s);
  }

  /** A leased result keeps the content it was acquired with until it is released. */
  lemma LeasesAreStable(s: State, e: Event, b: nat)
    requires Reachable(s) && Typed(s) && Enabled(s, e) && b in s.output.leases
    ensures s.output.banks[b].snapshot == s.output.leases[b]
    ensures e != Release(b) ==>
              b in Step(s, e).output.leases && Step(s, e).output.leases[b] == s.output.leases[b] &&
              Step(s, e).output.banks[b].snapshot == s.output.banks[b].snapshot
  {
    ReachableOutput(s);
    if e.MainAdvance? && !s.main.Lease? && !s.main.Finish? {
      MainElsewhere(s);
    }
  }

  /** No finished result is overwritten before it is acquired: only the unfinished bank being filled changes. */
  lemma WaitingResultsAreStable(s: State, e: Event, b: nat)
    requires Reachable(s) && Typed(s) && Enabled(s, e) && b < OUTPUT_BANKS
    requires Step(s, e).output.banks[b].snapshot != s.output.banks[b].snapshot
    ensures s.coordinator == Fill(b) && b !in s.output.leases && MainOutput(s.main) != Some(b)
    ensures s.output.ready != Some(b)
  {
    ReachableOutput(s);
    if e.MainAdvance? && !s.main.Lease? && !s.main.Finish? {
      MainElsewhere(s);
    }
  }
}
