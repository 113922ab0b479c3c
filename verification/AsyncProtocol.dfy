/**
  The asynchronous presentation hand-off as a protocol of atomic steps.
  The main thread publishes input generations into three banks and leases results from two; the coordinator
  consumes the former and fills the latter. The threads share the bank statuses, the exchange slots `queued` and
  `ready`, and the flags `stopping` and `failed`; every load, store, exchange or compare-exchange of one of these,
  and every copy of one element of a bank, is one step. Steps interleave arbitrarily.
*/
module AsyncProtocol {
  import opened Prelude

  const INPUT_BANKS := 3
  const OUTPUT_BANKS := 2
  const MAX_LENGTH := 512

  datatype Status = Free | Writing | Queued | Reading

  /** One universe's value: the producer's sequence number and the bytes it stands for. */
  datatype Input = Input(sequence: nat, data: seq<byte>)
  datatype InputBank = InputBank(status: Status, frames: seq<Input>, generation: nat)
  datatype OutputBank = OutputBank(status: Status, snapshot: int)
  datatype Delivery = Delivery(universe: nat, value: Input)

  /** Where the main thread is: idle, inside flush_input, inside try_acquire, or inside stop. */
  datatype Main =
    | Idle
    | Scan(bank: nat)
    | Copy(bank: nat, done: nat)
    | Announce(bank: nat)
    | Swap(bank: nat)
    | Discard(bank: nat)
    | Lease(bank: nat)
    | Join
    | Restore(done: nat)
    | Finish
    | Retired

  /** Where the coordinator is; `input` and `output` are banks it still holds when it leaves its loop. */
  datatype Coordinator =
    | Top
    | Take
    | Mark(bank: nat)
    | Read(bank: nat, done: nat)
    | Claim(next: nat)
    | Claimed(bank: nat)
    | Fill(bank: nat)
    | Publish(bank: nat)
    | Offer(bank: nat)
    | Failing(input: Option<nat>, output: Option<nat>)
    | Exited(input: Option<nat>, output: Option<nat>, complete: bool)

  /**
    The producer's values, the input banks and the slot between them. The lists from `history` on record the run:
    accepted submits, flushed generations, generations taken, and what the core has been handed.
    Sequence and generation counters start at 1, so they are one more than the number of accepted submits and flushes.
  */
  datatype InputSide = InputSide(
    banks: seq<InputBank>, queued: Option<nat>, latest: seq<Input>, dirty: bool, consumed: seq<nat>,
    history: seq<Delivery>, flushed: seq<seq<Input>>, taken: seq<nat>, sink: seq<Delivery>)

  /** The result banks and their slot; `leases` is what each leased bank held when it was acquired. */
  datatype OutputSide = OutputSide(
    banks: seq<OutputBank>, ready: Option<nat>, leases: map<nat, int>, produced: seq<int>, acquired: seq<int>)

  datatype Flags = Flags(stopping: bool, failed: bool, initialBatch: bool, restored: bool)

  datatype State = State(main: Main, coordinator: Coordinator, input: InputSide, output: OutputSide, flags: Flags) {
    predicate Active() {
      !flags.stopping && !flags.failed
    }
  }

  datatype Event =
    | Submit(universe: nat, data: seq<byte>)
    | BeginFlush
    | MainAdvance
    | Acquire
    | Release(bank: nat)
    | Stop
    | Joined(sameSchema: bool)
    | CoordinatorAdvance
    | CoordinatorSeesStop
    | CoordinatorThrows
    | Scribble(content: int)
    | Complete(content: int)

  /** `held` is what the core held when the session began; its values carry sequence number 1. */
  ghost predicate Initial(s: State, held: seq<seq<byte>>) {
    && s.main == Idle && s.coordinator == Top && s.flags == Flags(false, false, true, false)
    && InitialInput(s.input, held)
    && |s.output.banks| == OUTPUT_BANKS
    && (forall b :: 0 <= b < OUTPUT_BANKS ==> s.output.banks[b].status == Free)
    && s.output.ready == None && s.output.leases == map[] && s.output.produced == [] && s.output.acquired == []
  }

  ghost predicate InitialInput(i: InputSide, held: seq<seq<byte>>) {
    && |i.latest| == |i.consumed| == |held|
    && (forall u :: 0 <= u < |held| ==> i.latest[u] == Input(1, held[u]) && i.consumed[u] == 1)
    && |i.banks| == INPUT_BANKS
    && (forall b :: 0 <= b < INPUT_BANKS ==> i.banks[b].status == Free && |i.banks[b].frames| == |held|)
    && i.queued == None && !i.dirty && i.history == [] && i.flushed == [] && i.taken == [] && i.sink == []
  }

  /** The input bank a thread's program counter names, if any; a coordinator that threw keeps its bank for ever. */
  function MainInput(m: Main): Option<nat> {
    match m
    case Copy(b, _) => Some(b)
    case Announce(b) => Some(b)
    case Swap(b) => Some(b)
    case Discard(b) => Some(b)
    case _ => None
  }

  function CoordinatorInput(c: Coordinator): Option<nat> {
    match c
    case Mark(b) => Some(b)
    case Read(b, _) => Some(b)
    case Failing(i, _) => i
    case Exited(i, _, _) => i
    case _ => None
  }

  function MainOutput(m: Main): Option<nat> {
    if m.Lease? then Some(m.bank) else None
  }

  function CoordinatorOutput(c: Coordinator): Option<nat> {
    match c
    case Claimed(b) => Some(b)
    case Fill(b) => Some(b)
    case Publish(b) => Some(b)
    case Offer(b) => Some(b)
    case Failing(_, o) => o
    case Exited(_, o, _) => o
    case _ => None
  }

  predicate Within(b: Option<nat>, banks: nat) {
    b.Some? ==> b.value < banks
  }

  ghost predicate TypedInput(i: InputSide, m: Main, c: Coordinator) {
    && |i.banks| == INPUT_BANKS && |i.consumed| == |i.latest|
    && (forall b :: 0 <= b < INPUT_BANKS ==> |i.banks[b].frames| == |i.latest|)
    && Within(i.queued, INPUT_BANKS) && Within(MainInput(m), INPUT_BANKS) && Within(CoordinatorInput(c), INPUT_BANKS)
    && (m.Scan? ==> m.bank <= INPUT_BANKS) && (m.Copy? ==> m.done <= |i.latest|)
    && (m.Restore? ==> m.done <= |i.latest|) && (c.Read? ==> c.done <= |i.latest|)
  }

  ghost predicate TypedOutput(o: OutputSide, m: Main, c: Coordinator) {
    && |o.banks| == OUTPUT_BANKS && (forall b :: b in o.leases ==> b < OUTPUT_BANKS)
    && Within(o.ready, OUTPUT_BANKS) && Within(MainOutput(m), OUTPUT_BANKS)
    && Within(CoordinatorOutput(c), OUTPUT_BANKS) && (c.Claim? ==> c.next <= OUTPUT_BANKS)
  }

  ghost predicate Typed(s: State) {
    TypedInput(s.input, s.main, s.coordinator) && TypedOutput(s.output, s.main, s.coordinator)
  }

  predicate Enabled(s: State, e: Event) {
    match e
    case Submit(u, data) => s.main.Idle? && s.Active() && u < |s.input.latest| && data != []
    case BeginFlush => s.main.Idle? && s.input.dirty && s.Active()
    case MainAdvance => !s.main.Idle? && !s.main.Join? && !s.main.Retired?
    case Acquire => s.main.Idle? && s.Active()
    case Release(b) => (s.main.Idle? || s.main.Retired?) && b in s.output.leases
    case Stop => s.main.Idle?
    case Joined(_) => s.main.Join? && s.coordinator.Exited?
    case CoordinatorAdvance =>
      (match s.coordinator
       case Top => !s.flags.stopping && (s.flags.initialBatch || s.input.queued.Some?)
       case Fill(_) => false
       case Exited(_, _, _) => false
       case _ => true)
    case CoordinatorSeesStop =>
      s.flags.stopping && (s.coordinator.Top? || s.coordinator.Take? || s.coordinator.Claim? ||
                           s.coordinator.Claimed? || s.coordinator.Offer?)
    case CoordinatorThrows => s.coordinator.Read? || s.coordinator.Fill?
    case Scribble(_) => s.coordinator.Fill?
    case Complete(_) => s.coordinator.Fill?
  }

  function SetInput(i: InputSide, b: nat, status: Status): (r: InputSide)
    requires b < |i.banks|
  {
    i.(banks := i.banks[b := i.banks[b].(status := status)])
  }

  function SetOutput(o: OutputSide, b: nat, status: Status): (r: OutputSide)
    requires b < |o.banks|
  {
    o.(banks := o.banks[b := o.banks[b].(status := status)])
  }

  function Truncated(data: seq<byte>): seq<byte> {
    if |data| <= MAX_LENGTH then data else data[..MAX_LENGTH]
  }

  function Accept(i: InputSide, u: nat, data: seq<byte>): (r: InputSide)
    requires u < |i.latest|
  {
    var value := Input(|i.history| + 2, Truncated(data));
    i.(latest := i.latest[u := value], dirty := true, history := i.history + [Delivery(u, value)])
  }

  /** Copies one element of the producer's values into a bank. */
  function CopyOne(i: InputSide, b: nat, u: nat): (r: InputSide)
    requires b < |i.banks| && u < |i.latest| && |i.banks[b].frames| == |i.latest|
  {
    var bank := i.banks[b];
    i.(banks := i.banks[b := bank.(frames := bank.frames[u := i.latest[u]])])
  }

  /** Stamps a fully copied bank with the next generation. */
  function Stamp(i: InputSide, b: nat): (r: InputSide)
    requires b < |i.banks|
  {
    var bank := i.banks[b];
    i.(banks := i.banks[b := bank.(generation := |i.flushed| + 2)], flushed := i.flushed + [bank.frames])
  }

  predicate Fresh(value: Input, consumed: nat) {
    |value.data| > 0 && value.sequence != consumed
  }

  /** The next atomic step of the operation the main thread is inside. */
  function MainStep(s: State): (r: State)
    requires Typed(s) && Enabled(s, MainAdvance)
  {
    var i, o := s.input, s.output;
    match s.main
    case Scan(b) =>
      if b == INPUT_BANKS then s.(main := Idle)
      else if i.banks[b].status == Free then s.(main := Copy(b, 0), input := SetInput(i, b, Writing))
      else s.(main := Scan(b + 1))
    case Copy(b, done) =>
      if done < |i.latest| then s.(main := Copy(b, done + 1), input := CopyOne(i, b, done))
      else s.(main := Announce(b), input := Stamp(i, b))
    case Announce(b) => s.(main := Swap(b), input := SetInput(i, b, Queued))
    case Swap(b) =>
      if i.queued.Some? then s.(main := Discard(i.queued.value), input := i.(queued := Some(b)))
      else s.(main := Idle, input := i.(queued := Some(b), dirty := false))
    case Discard(b) => s.(main := Idle, input := SetInput(i, b, Free).(dirty := false))
    case Lease(b) =>
      s.(main := Idle, output := SetOutput(o, b, Reading).(
        leases := o.leases[b := o.banks[b].snapshot], acquired := o.acquired + [o.banks[b].snapshot]))
    case Restore(done) =>
      if done == |i.latest| then s.(main := Finish)
      else if Fresh(i.latest[done], i.consumed[done]) then
        s.(main := Restore(done + 1), input := i.(sink := i.sink + [Delivery(done, i.latest[done])]))
      else s.(main := Restore(done + 1))
    case Finish => s.(main := Retired, output := o.(ready := None))
  }

  /** The next atomic step of the coordinator's loop. */
  function CoordinatorStep(s: State): (r: State)
    requires Typed(s) && Enabled(s, CoordinatorAdvance)
  {
    var i, o := s.input, s.output;
    match s.coordinator
    case Top => s.(coordinator := Take)
    case Take =>
      if i.queued.Some? then s.(coordinator := Mark(i.queued.value), input := i.(queued := None))
      else s.(coordinator := Claim(0), flags := s.flags.(initialBatch := false))
    case Mark(b) =>
      s.(coordinator := Read(b, 0), input := SetInput(i, b, Reading).(taken := i.taken + [i.banks[b].generation]))
    case Read(b, done) =>
      if done == |i.latest| then
        s.(coordinator := Claim(0), input := SetInput(i, b, Free), flags := s.flags.(initialBatch := false))
      else if Fresh(i.banks[b].frames[done], i.consumed[done]) then
        var value := i.banks[b].frames[done];
        s.(coordinator := Read(b, done + 1),
           input := i.(sink := i.sink + [Delivery(done, value)], consumed := i.consumed[done := value.sequence]))
      else s.(coordinator := Read(b, done + 1))
    case Claim(next) =>
      if next == OUTPUT_BANKS then s.(coordinator := Claim(0))
      else if o.banks[next].status == Free then s.(coordinator := Claimed(next), output := SetOutput(o, next, Writing))
      else s.(coordinator := Claim(next + 1))
    case Claimed(b) => s.(coordinator := Fill(b))
    case Publish(b) => s.(coordinator := Offer(b), output := SetOutput(o, b, Queued))
    case Offer(b) => if o.ready.None? then s.(coordinator := Top, output := o.(ready := Some(b))) else s
    case Failing(input, output) => s.(coordinator := Exited(input, output, false), flags := s.flags.(failed := true))
  }

  function QuitStep(s: State): (r: State)
    requires Enabled(s, CoordinatorSeesStop)
  {
    match s.coordinator
    case Claimed(b) => s.(coordinator := Exited(None, Some(b), false))
    case Offer(b) => s.(coordinator := Exited(None, Some(b), true))
    case _ => s.(coordinator := Exited(None, None, false))
  }

  function ThrowStep(s: State): (r: State)
    requires Enabled(s, CoordinatorThrows)
  {
    if s.coordinator.Read? then s.(coordinator := Failing(Some(s.coordinator.bank), None))
    else s.(coordinator := Failing(None, Some(s.coordinator.bank)))
  }

  function WriteSnapshot(o: OutputSide, b: nat, content: int): (r: OutputSide)
    requires b < |o.banks|
  {
    o.(banks := o.banks[b := o.banks[b].(snapshot := content)])
  }

  function Step(s: State, e: Event): (r: State)
    requires Typed(s) && Enabled(s, e)
  {
    match e
    case Submit(u, data) => s.(input := Accept(s.input, u, data))
    case BeginFlush => s.(main := Scan(0))
    case MainAdvance => MainStep(s)
    case Acquire =>
      if s.output.ready.Some? then s.(main := Lease(s.output.ready.value), output := s.output.(ready := None)) else s
    case Release(b) => s.(output := SetOutput(s.output, b, Free).(leases := s.output.leases - {b}))
    case Stop => s.(main := Join, flags := s.flags.(stopping := true))
    case Joined(same) => s.(main := if same then Restore(0) else Finish, flags := s.flags.(restored := same))
    case CoordinatorAdvance => CoordinatorStep(s)
    case CoordinatorSeesStop => QuitStep(s)
    case CoordinatorThrows => ThrowStep(s)
    case Scribble(content) => s.(output := WriteSnapshot(s.output, s.coordinator.bank, content))
    case Complete(content) =>
      s.(coordinator := Publish(s.coordinator.bank),
         output := WriteSnapshot(s.output, s.coordinator.bank, content).(produced := s.output.produced + [content]))
  }

  lemma CopyKeepsInputTyped(s: State)
    requires Typed(s) && Enabled(s, MainAdvance) && s.main.Copy?
    ensures var r := MainStep(s); TypedInput(r.input, r.main, r.coordinator)
  {
  }

  lemma SwapKeepsInputTyped(s: State)
    requires Typed(s) && Enabled(s, MainAdvance) && (s.main.Scan? || s.main.Announce? || s.main.Swap? || s.main.Discard?)
    ensures var r := MainStep(s); TypedInput(r.input, r.main, r.coordinator)
  {
  }

  lemma MainKeepsInputTyped(s: State)
    requires Typed(s) && Enabled(s, MainAdvance)
    ensures var r := MainStep(s); TypedInput(r.input, r.main, r.coordinator)
  {
    match s.main
    case Copy(_, _) => CopyKeepsInputTyped(s);
    case Lease(_) => assert MainStep(s).input == s.input;
    case Finish => assert MainStep(s).input == s.input;
    case Restore(_) =>
    case _ => SwapKeepsInputTyped(s);
  }

  lemma CoordinatorKeepsInputTyped(s: State)
    requires Typed(s) && Enabled(s, CoordinatorAdvance)
    ensures var r := CoordinatorStep(s); TypedInput(r.input, r.main, r.coordinator)
  {
  }

  lemma StepKeepsInputTyped(s: State, e: Event)
    requires Typed(s) && Enabled(s, e)
    ensures var r := Step(s, e); TypedInput(r.input, r.main, r.coordinator)
  {
    if e.MainAdvance? {
      MainKeepsInputTyped(s);
    } else if e.CoordinatorAdvance? {
      CoordinatorKeepsInputTyped(s);
    }
  }

  lemma StepKeepsOutputTyped(s: State, e: Event)
    requires Typed(s) && Enabled(s, e)
    ensures var r := Step(s, e); TypedOutput(r.output, r.main, r.coordinator)
  {
  }

  // ----- runs -----

  ghost predicate IsRun(held: seq<seq<byte>>, states: seq<State>, events: seq<Event>) {
    && |states| == |events| + 1 && Initial(states[0], held)
    && forall k :: 0 <= k < |events| ==>
         Enabled(states[k], events[k]) && (Typed(states[k]) ==> states[k + 1] == Step(states[k], events[k]))
  }

  ghost predicate Reachable(s: State) {
    exists held: seq<seq<byte>>, states: seq<State>, events: seq<Event> ::
      IsRun(held, states, events) && s in states
  }
}
