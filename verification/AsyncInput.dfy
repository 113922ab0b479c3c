/** The input half of the hand-off: banks are never shared, never torn, never missing, and no update is lost. */
module AsyncInput {
  import opened Prelude
  import opened AsyncProtocol

  // ----- who holds which bank -----

  function MainStatus(m: Main): Status {
    if m.Copy? || m.Announce? then Writing else Queued
  }

  function CoordinatorStatus(c: Coordinator): Status {
    if c.Mark? then Queued else Reading
  }

  /** The status a bank must show, given who holds it. */
  function HolderStatus(i: InputSide, m: Main, c: Coordinator, b: nat): Status {
    if MainInput(m) == Some(b) then MainStatus(m)
    else if CoordinatorInput(c) == Some(b) then CoordinatorStatus(c)
    else if i.queued == Some(b) then Queued
    else Free
  }

  predicate Apart(a: Option<nat>, b: Option<nat>) {
    a.Some? ==> a != b
  }

  predicate HasFree(i: InputSide, from: nat) {
    exists f :: from <= f < |i.banks| && i.banks[f].status == Free
  }

  /** Main thread, coordinator and exchange slot hold different banks, and the statuses say who holds what. */
  ghost predicate Ownership(s: State) {
    var i, m, c := s.input, s.main, s.coordinator;
    && Apart(MainInput(m), CoordinatorInput(c)) && Apart(MainInput(m), i.queued) && Apart(CoordinatorInput(c), i.queued)
    && (forall b: nat :: b < |i.banks| ==> i.banks[b].status == HolderStatus(i, m, c, b))
    && (m.Scan? ==> HasFree(i, m.bank))
    && (m.Restore? || m.Finish? || m.Retired? ==> c.Exited?)
  }

  /** Two holders besides the scanning producer leave one of three banks free. */
  lemma ThreeBanksSuffice(s: State)
    requires Typed(s) && Ownership(s) && MainInput(s.main).None?
    ensures HasFree(s.input, 0)
  {
    var waiting, reading := s.input.queued, CoordinatorInput(s.coordinator);
    var f: nat := if waiting != Some(0) && reading != Some(0) then 0
      else if waiting != Some(1) && reading != Some(1) then 1 else 2;
    assert s.input.banks[f].status == Free;
  }

  lemma ScanKeepsOwnership(s: State)
    requires Typed(s) && Ownership(s) && Enabled(s, MainAdvance) && s.main.Scan?
    ensures Ownership(MainStep(s))
  {
    var f: nat :| s.main.bank <= f < |s.input.banks| && s.input.banks[f].status == Free;
    var r := MainStep(s);
    if r.main.Scan? {
      assert r.main.bank <= f && r.input.banks[f].status == Free;
    }
  }

  lemma FillingKeepsOwnership(s: State)
    requires Typed(s) && Ownership(s) && Enabled(s, MainAdvance) && (s.main.Copy? || s.main.Announce?)
    ensures Ownership(MainStep(s))
  {
  }

  lemma ExchangeKeepsOwnership(s: State)
    requires Typed(s) && Ownership(s) && Enabled(s, MainAdvance) && (s.main.Swap? || s.main.Discard?)
    ensures Ownership(MainStep(s))
  {
  }

  lemma MainKeepsOwnership(s: State)
    requires Typed(s) && Ownership(s) && Enabled(s, MainAdvance)
    ensures Ownership(MainStep(s))
  {
    match s.main
    case Scan(_) => ScanKeepsOwnership(s);
    case Copy(_, _) => FillingKeepsOwnership(s);
    case Announce(_) => FillingKeepsOwnership(s);
    case Swap(_) => ExchangeKeepsOwnership(s);
    case Discard(_) => ExchangeKeepsOwnership(s);
    case _ =>
  }

  /** The coordinator's steps that touch the input side. */
  predicate Consuming(s: State, e: Event) {
    e.CoordinatorAdvance? && (s.coordinator.Take? || s.coordinator.Mark? || s.coordinator.Read?)
  }

  predicate CoordinatorMoves(e: Event) {
    e.CoordinatorAdvance? || e.CoordinatorThrows? || e.CoordinatorSeesStop? || e.Scribble? || e.Complete?
  }

  lemma FreeStays(i: InputSide, r: InputSide, from: nat)
    requires HasFree(i, from) && |r.banks| == |i.banks|
    requires forall b :: 0 <= b < |i.banks| && i.banks[b].status == Free ==> r.banks[b].status == Free
    ensures HasFree(r, from)
  {
    var f: nat :| from <= f < |i.banks| && i.banks[f].status == Free;
    assert r.banks[f].status == Free;
  }

  lemma TakeKeepsOwnership(s: State)
    requires Typed(s) && Ownership(s) && Enabled(s, CoordinatorAdvance) && s.coordinator.Take?
    ensures Ownership(CoordinatorStep(s))
  {
    if s.main.Scan? {
      FreeStays(s.input, CoordinatorStep(s).input, s.main.bank);
    }
  }

  lemma MarkKeepsOwnership(s: State)
    requires Typed(s) && Ownership(s) && Enabled(s, CoordinatorAdvance) && s.coordinator.Mark?
    ensures Ownership(CoordinatorStep(s))
  {
    if s.main.Scan? {
      FreeStays(s.input, CoordinatorStep(s).input, s.main.bank);
    }
  }

  lemma ReadKeepsOwnership(s: State)
    requires Typed(s) && Ownership(s) && Enabled(s, CoordinatorAdvance) && s.coordinator.Read?
    ensures Ownership(CoordinatorStep(s))
  {
    if s.main.Scan? {
      FreeStays(s.input, CoordinatorStep(s).input, s.main.bank);
    }
  }

  lemma ConsumingKeepsOwnership(s: State, e: Event)
    requires Typed(s) && Ownership(s) && Enabled(s, e) && Consuming(s, e)
    ensures Ownership(Step(s, e))
  {
    match s.coordinator
    case Take => TakeKeepsOwnership(s);
    case Mark(_) => MarkKeepsOwnership(s);
    case Read(_, _) => ReadKeepsOwnership(s);
  }

  /** Every other coordinator step leaves the input side and the bank it holds there alone. */
  lemma CoordinatorElsewhere(s: State, e: Event)
    requires Typed(s) && Enabled(s, e) && CoordinatorMoves(e) && !Consuming(s, e)
    ensures var r := Step(s, e);
            && r.input == s.input && r.main == s.main && !r.coordinator.Mark? && !r.coordinator.Read?
            && (!s.coordinator.Mark? ==> CoordinatorInput(r.coordinator) == CoordinatorInput(s.coordinator))
            && !s.coordinator.Mark? && !s.coordinator.Exited? && r.flags.restored == s.flags.restored
  {
  }

  lemma CoordinatorKeepsOwnership(s: State, e: Event)
    requires Typed(s) && Ownership(s) && Enabled(s, e) && CoordinatorMoves(e)
    ensures Ownership(Step(s, e))
  {
    if Consuming(s, e) {
      ConsumingKeepsOwnership(s, e);
    } else {
      CoordinatorElsewhere(s, e);
    }
  }

  lemma StepKeepsOwnership(s: State, e: Event)
    requires Typed(s) && Ownership(s) && Enabled(s, e)
    ensures Ownership(Step(s, e))
  {
    if CoordinatorMoves(e) {
      CoordinatorKeepsOwnership(s, e);
    } else if e.MainAdvance? {
      MainKeepsOwnership(s);
    } else if e.BeginFlush? {
      ThreeBanksSuffice(s);
    }
  }

  // ----- what the banks contain -----

  /** A value is the session's initial one, or the very submit its sequence number names. */
  predicate Genuine(history: seq<Delivery>, u: nat, v: Input) {
    && 1 <= v.sequence <= |history| + 1
    && (v.sequence > 1 ==> history[v.sequence - 2] == Delivery(u, v) && |v.data| > 0)
  }

  ghost predicate GenuineAll(i: InputSide, values: seq<Input>) {
    |values| == |i.latest| && forall u :: 0 <= u < |values| ==> Genuine(i.history, u, values[u])
  }

  ghost predicate NotNewer(a: seq<Input>, b: seq<Input>) {
    |a| == |b| && forall u :: 0 <= u < |a| ==> a[u].sequence <= b[u].sequence
  }

  /** The last generation the coordinator took; 1 stands for the initial values. */
  function LastTaken(i: InputSide): nat {
    if i.taken == [] then 1 else i.taken[|i.taken| - 1]
  }

  /** A bank that carries one flushed generation, whole. */
  ghost predicate Sealed(i: InputSide, b: nat) {
    && b < |i.banks| && 2 <= i.banks[b].generation <= |i.flushed| + 1
    && i.banks[b].frames == i.flushed[i.banks[b].generation - 2]
  }

  /** Flushed generations are copies of the producer's values, each at least as new as the one before. */
  ghost predicate Generations(i: InputSide) {
    && GenuineAll(i, i.latest)
    && (forall g :: 0 <= g < |i.flushed| ==> GenuineAll(i, i.flushed[g]) && NotNewer(i.flushed[g], i.latest))
    && (forall g, h :: 0 <= g <= h < |i.flushed| ==> NotNewer(i.flushed[g], i.flushed[h]))
  }

  ghost predicate TakenOrder(i: InputSide) {
    StrictlyIncreasing(i.taken) && forall t :: t in i.taken ==> 2 <= t <= |i.flushed| + 1
  }

  /** While copying, the elements done are the producer's; once stamped, the bank is the youngest generation. */
  ghost predicate ProducerBank(i: InputSide, m: Main) {
    && (m.Copy? ==> m.bank < |i.banks| && m.done <= |i.latest| && |i.banks[m.bank].frames| == |i.latest| &&
                    i.banks[m.bank].frames[..m.done] == i.latest[..m.done])
    && (m.Announce? || m.Swap? ==>
          Sealed(i, m.bank) && i.banks[m.bank].generation == |i.flushed| + 1 && LastTaken(i) < |i.flushed| + 1)
  }

  ghost predicate WaitingBank(i: InputSide, m: Main) {
    i.queued.Some? ==>
      && Sealed(i, i.queued.value) && LastTaken(i) < i.banks[i.queued.value].generation
      && (m.Announce? || m.Swap? ==> i.banks[i.queued.value].generation < |i.flushed| + 1)
  }

  ghost predicate ConsumerBank(i: InputSide, m: Main, c: Coordinator) {
    && (c.Mark? ==>
          && Sealed(i, c.bank) && LastTaken(i) < i.banks[c.bank].generation
          && (i.queued.Some? && i.queued.value < |i.banks| ==>
                i.banks[c.bank].generation < i.banks[i.queued.value].generation)
          && (m.Announce? || m.Swap? ==> i.banks[c.bank].generation < |i.flushed| + 1))
    && (c.Read? ==> Sealed(i, c.bank) && i.taken != [] && LastTaken(i) == i.banks[c.bank].generation)
  }

  /** Taken, held by the coordinator, waiting in the slot, held by the producer: generations in ascending order. */
  ghost predicate Order(s: State) {
    && TakenOrder(s.input) && ProducerBank(s.input, s.main) && WaitingBank(s.input, s.main)
    && ConsumerBank(s.input, s.main, s.coordinator)
  }

  lemma MainKeepsGenerations(s: State)
    requires Typed(s) && Ownership(s) && Generations(s.input) && Order(s) && Enabled(s, MainAdvance)
    ensures Generations(MainStep(s).input)
  {
    if s.main.Copy? && s.main.done == |s.input.latest| {
      assert s.input.banks[s.main.bank].frames == s.input.latest;
    }
  }

  lemma CoordinatorKeepsGenerations(s: State)
    requires Typed(s) && Ownership(s) && Generations(s.input) && Order(s) && Enabled(s, CoordinatorAdvance)
    ensures Generations(CoordinatorStep(s).input)
  {
  }

  lemma StepKeepsGenerations(s: State, e: Event)
    requires Typed(s) && Ownership(s) && Generations(s.input) && Order(s) && Enabled(s, e)
    ensures Generations(Step(s, e).input)
  {
    match e
    case Submit(_, _) =>
      assert forall u, v :: Genuine(s.input.history, u, v) ==> Genuine(Step(s, e).input.history, u, v);
    case MainAdvance => MainKeepsGenerations(s);
    case CoordinatorAdvance => CoordinatorKeepsGenerations(s);
    case _ =>
  }

  lemma LastTakenIsTaken(s: State)
    requires Order(s)
    ensures LastTaken(s.input) <= |s.input.flushed| + 1
  {
    if s.input.taken != [] {
      assert LastTaken(s.input) in s.input.taken;
    }
  }

  lemma CopyKeepsOrder(s: State)
    requires Typed(s) && Ownership(s) && Order(s) && s.main.Copy? && s.main.done < |s.input.latest|
    ensures Order(MainStep(s))
  {
    var i, r, b, k := s.input, MainStep(s).input, s.main.bank, s.main.done;
    assert i.latest[..k + 1] == i.latest[..k] + [i.latest[k]];
    assert r.banks[b].frames[..k + 1] == i.banks[b].frames[..k] + [i.latest[k]];
    assert forall x :: 0 <= x < |i.banks| && x != b ==> r.banks[x] == i.banks[x];
  }

  lemma StampKeepsOrder(s: State)
    requires Typed(s) && Ownership(s) && Order(s) && s.main.Copy? && s.main.done == |s.input.latest|
    ensures Order(MainStep(s))
  {
    var i, r, b := s.input, MainStep(s).input, s.main.bank;
    LastTakenIsTaken(s);
    assert forall x :: 0 <= x < |i.banks| && x != b ==> r.banks[x] == i.banks[x];
    assert forall x: nat :: x != b && Sealed(i, x) ==> Sealed(r, x);
    assert Sealed(r, b);
  }

  /** Two input sides with the same bank contents, generations and taken list. */
  predicate SameContents(i: InputSide, r: InputSide) {
    && r.flushed == i.flushed && r.taken == i.taken && r.latest == i.latest && |r.banks| == |i.banks|
    && forall x :: 0 <= x < |i.banks| ==>
         r.banks[x].frames == i.banks[x].frames && r.banks[x].generation == i.banks[x].generation
  }

  lemma AnnounceKeepsOrder(s: State)
    requires Typed(s) && Ownership(s) && Order(s) && (s.main.Announce? || s.main.Discard?)
    ensures Order(MainStep(s))
  {
    assert SameContents(s.input, MainStep(s).input);
  }

  lemma SwapKeepsOrder(s: State)
    requires Typed(s) && Ownership(s) && Order(s) && s.main.Swap?
    ensures Order(MainStep(s))
  {
    assert SameContents(s.input, MainStep(s).input);
  }

  lemma ScanKeepsOrder(s: State)
    requires Typed(s) && Ownership(s) && Order(s) && Enabled(s, MainAdvance) && s.main.Scan?
    ensures Order(MainStep(s))
  {
    assert SameContents(s.input, MainStep(s).input);
  }

  lemma OtherMainKeepsOrder(s: State)
    requires Typed(s) && Ownership(s) && Order(s) && Enabled(s, MainAdvance)
    requires s.main.Lease? || s.main.Restore? || s.main.Finish?
    ensures Order(MainStep(s))
  {
    assert SameContents(s.input, MainStep(s).input);
  }

  lemma MainKeepsOrder(s: State)
    requires Typed(s) && Ownership(s) && Order(s) && Enabled(s, MainAdvance)
    ensures Order(Step(s, MainAdvance))
  {
    match s.main
    case Scan(_) => ScanKeepsOrder(s);
    case Copy(_, done) =>
      if done < |s.input.latest| {
        CopyKeepsOrder(s);
      } else {
        StampKeepsOrder(s);
      }
    case Announce(_) => AnnounceKeepsOrder(s);
    case Discard(_) => AnnounceKeepsOrder(s);
    case Swap(_) => SwapKeepsOrder(s);
    case _ => OtherMainKeepsOrder(s);
  }

  lemma MarkKeepsOrder(s: State)
    requires Typed(s) && Ownership(s) && Order(s) && s.coordinator.Mark?
    ensures Order(CoordinatorStep(s))
  {
    var i, b, r := s.input, s.coordinator.bank, CoordinatorStep(s).input;
    assert r.taken == i.taken + [i.banks[b].generation];
    forall t | t in r.taken ensures 2 <= t <= |r.flushed| + 1 {
      assert t in i.taken || t == i.banks[b].generation;
    }
    forall x, y | 0 <= x < y < |r.taken| ensures r.taken[x] < r.taken[y] {
      if y == |i.taken| && x < |i.taken| - 1 {
        assert i.taken[x] < i.taken[|i.taken| - 1];
      }
    }
    assert forall x: nat :: Sealed(i, x) ==> Sealed(r, x);
  }

  lemma TakeKeepsOrder(s: State)
    requires Typed(s) && Ownership(s) && Order(s) && s.coordinator.Take?
    ensures Order(CoordinatorStep(s))
  {
    assert SameContents(s.input, CoordinatorStep(s).input);
  }

  lemma ReadKeepsOrder(s: State)
    requires Typed(s) && Ownership(s) && Order(s) && s.coordinator.Read? && s.coordinator.done < |s.input.latest|
    ensures Order(CoordinatorStep(s))
  {
    assert SameContents(s.input, CoordinatorStep(s).input);
  }

  lemma ReturnKeepsOrder(s: State)
    requires Typed(s) && Ownership(s) && Order(s) && s.coordinator.Read? && s.coordinator.done == |s.input.latest|
    ensures Order(CoordinatorStep(s))
  {
    assert SameContents(s.input, CoordinatorStep(s).input);
  }

  lemma ConsumingKeepsOrder(s: State, e: Event)
    requires Typed(s) && Ownership(s) && Order(s) && Enabled(s, e) && Consuming(s, e)
    ensures Order(Step(s, e))
  {
    match s.coordinator
    case Mark(_) => MarkKeepsOrder(s);
    case Take => TakeKeepsOrder(s);
    case Read(_, done) =>
      if done < |s.input.latest| {
        ReadKeepsOrder(s);
      } else {
        ReturnKeepsOrder(s);
      }
  }

  lemma StepKeepsOrder(s: State, e: Event)
    requires Typed(s) && Ownership(s) && Generations(s.input) && Order(s) && Enabled(s, e)
    ensures Order(Step(s, e))
  {
    if e.MainAdvance? {
      MainKeepsOrder(s);
    } else if CoordinatorMoves(e) {
      if Consuming(s, e) {
        ConsumingKeepsOrder(s, e);
      } else {
        CoordinatorElsewhere(s, e);
      }
    }
  }
}
