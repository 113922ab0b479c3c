/**
  stop() comes to its end: from every idle state the coordinator, told to stop, can run to its exit, and the main thread
  then joins it, hands over what the core has not seen and retires.
*/
module AsyncStop {
  import opened Prelude
  import opened AsyncProtocol
  import opened AsyncDelivery
  import opened AsyncFlush
  import opened AsyncProgress

  /** The events `es`, one after the other, lead from `s` to `r`. */
  ghost predicate Chain<S(!new), E>(takes: (S, E, S) -> bool, s: S, es: seq<E>, r: S)
    decreases |es|
  {
    if es == [] then r == s else exists next :: takes(s, es[0], next) && Chain(takes, next, es[1..], r)
  }

  lemma {:induction false} ChainsJoin<S(!new), E>(takes: (S, E, S) -> bool, s: S, es: seq<E>, m: S, fs: seq<E>, r: S)
    requires Chain(takes, s, es, m) && Chain(takes, m, fs, r)
    ensures Chain(takes, s, es + fs, r)
    decreases |es|
  {
    if es == [] {
      assert es + fs == fs;
    } else {
      assert (es + fs)[0] == es[0] && (es + fs)[1..] == es[1..] + fs;
      var next :| takes(s, es[0], next) && Chain(takes, next, es[1..], m);
      ChainsJoin(takes, next, es[1..], m, fs, r);
    }
  }

  ghost predicate Takes(s: State, e: Event, next: State) {
    Typed(s) && Enabled(s, e) && next == Step(s, e)
  }

  ghost predicate Follows(s: State, es: seq<Event>, r: State) {
    Chain(Takes, s, es, r)
  }

  lemma FollowsOn(s: State, es: seq<Event>, m: State, fs: seq<Event>, r: State)
    requires Follows(s, es, m) && Follows(m, fs, r)
    ensures Follows(s, es + fs, r)
  {
    ChainsJoin(Takes, s, es, m, fs, r);
  }

  lemma OneFollows(s: State, e: Event)
    requires Reachable(s) && Typed(s) && Enabled(s, e)
    ensures Typed(Step(s, e)) && Reachable(Step(s, e)) && Follows(s, [e], Step(s, e))
  {
    StepKeepsInputTyped(s, e);
    StepKeepsOutputTyped(s, e);
    ReachableStep(s, e);
    assert [e][1..] == [] && Chain(Takes, Step(s, e), [], Step(s, e)) && Takes(s, e, Step(s, e));
  }

  // ----- the coordinator leaves its loop -----

  /** The coordinator's own steps, the evaluation that finishes a result included. */
  predicate OfCoordinator(e: Event) {
    e.CoordinatorAdvance? || e.CoordinatorSeesStop? || e.Complete?
  }

  /** The step with which a coordinator that was told to stop goes on: it leaves wherever it looks at the flag. */
  function NextToStop(s: State): Event {
    match s.coordinator
    case Top => CoordinatorSeesStop
    case Take => CoordinatorSeesStop
    case Claim(_) => CoordinatorSeesStop
    case Claimed(_) => CoordinatorSeesStop
    case Offer(_) => CoordinatorSeesStop
    case Fill(_) => Complete(0)
    case _ => CoordinatorAdvance
  }

  function StepsToExit(s: State): int {
    match s.coordinator
    case Exited(_, _, _) => 0
    case Publish(_) => 2
    case Fill(_) => 3
    case Read(_, done) => |s.input.latest| - done + 2
    case Mark(_) => |s.input.latest| + 3
    case _ => 1
  }

  lemma StopStep(s: State)
    requires Typed(s) && s.flags.stopping && !s.coordinator.Exited?
    ensures Enabled(s, NextToStop(s)) && OfCoordinator(NextToStop(s))
    ensures var r := Step(s, NextToStop(s));
            && r.main == s.main && r.flags.stopping && r.input.history == s.input.history
            && StepsToExit(s) > 0 && StepsToExit(r) < StepsToExit(s)
  {
  }

  lemma {:induction false} CoordinatorExits(s: State) returns (es: seq<Event>, r: State)
    requires Reachable(s) && Typed(s) && s.flags.stopping
    ensures Typed(r) && Reachable(r) && Follows(s, es, r) && forall e :: e in es ==> OfCoordinator(e)
    ensures r.coordinator.Exited? && r.main == s.main && r.input.history == s.input.history
    decreases StepsToExit(s)
  {
    es, r := [], s;
    if !s.coordinator.Exited? {
      StopStep(s);
      var e := NextToStop(s);
      OneFollows(s, e);
      var more;
      more, r := CoordinatorExits(Step(s, e));
      FollowsOn(s, [e], Step(s, e), more, r);
      es := [e] + more;
    }
  }

  // ----- the main thread hands over the rest -----

  lemma RestoreStep(s: State)
    requires Typed(s) && (s.main.Restore? || s.main.Finish?)
    ensures Enabled(s, MainAdvance)
    ensures var r := MainStep(s);
            && r.input.history == s.input.history && r.flags == s.flags
            && (if s.main.Finish? then r.main.Retired? && r.output.ready.None? && r.input.sink == s.input.sink
                else r.main.Finish? || (r.main.Restore? && r.main.done == s.main.done + 1))
  {
  }

  lemma {:induction false} RestoreEnds(s: State) returns (es: seq<Event>, r: State)
    requires Reachable(s) && Typed(s) && (s.main.Restore? || s.main.Finish?)
    ensures Typed(r) && Reachable(r) && Follows(s, es, r) && forall e :: e in es ==> e == MainAdvance
    ensures r.main.Retired? && r.output.ready.None? && r.flags == s.flags && r.input.history == s.input.history
    ensures s.main.Finish? ==> r.input.sink == s.input.sink
    decreases s.main.Restore?, if s.main.Restore? then |s.input.latest| - s.main.done else 0
  {
    RestoreStep(s);
    OneFollows(s, MainAdvance);
    var next := MainStep(s);
    es, r := [MainAdvance], next;
    if s.main.Restore? {
      var more;
      more, r := RestoreEnds(next);
      FollowsOn(s, [MainAdvance], next, more, r);
      es := es + more;
    }
  }

  lemma RetiredHasDelivered(s: State, u: nat)
    requires Reachable(s) && s.main.Retired? && s.flags.restored && LastFor(s.input.history, u).Some?
    ensures LastFor(s.input.sink, u) == LastFor(s.input.history, u)
  {
    ReachableInput(s);
    ReachableFlush(s);
    assert Caught(s.input, u);
  }

  /**
    Whatever the coordinator is doing, stop() can run to its end: no step of it waits for anything but the evaluation
    under way. The core then has the last accepted value of every universe, unless another schema was loaded meanwhile.
  */
  lemma StopCompletes(s: State, sameSchema: bool) returns (own: seq<Event>, rest: seq<Event>, r: State)
    requires Reachable(s) && Typed(s) && Enabled(s, Stop)
    ensures Follows(s, [Stop] + own + [Joined(sameSchema)] + rest, r)
    ensures (forall e :: e in own ==> OfCoordinator(e)) && forall e :: e in rest ==> e == MainAdvance
    ensures r.main.Retired? && r.output.ready.None? && r.input.history == s.input.history
    ensures sameSchema ==>
              forall u: nat :: LastFor(s.input.history, u).Some? ==> LastFor(r.input.sink, u) == LastFor(s.input.history, u)
  {
    OneFollows(s, Stop);
    var stopping, exited := Step(s, Stop), s;
    own, exited := CoordinatorExits(stopping);
    OneFollows(exited, Joined(sameSchema));
    var joined := Step(exited, Joined(sameSchema));
    rest, r := RestoreEnds(joined);
    FollowsOn(s, [Stop], stopping, own, exited);
    FollowsOn(s, [Stop] + own, exited, [Joined(sameSchema)], joined);
    FollowsOn(s, [Stop] + own + [Joined(sameSchema)], joined, rest, r);
    if sameSchema {
      forall u: nat | LastFor(s.input.history, u).Some? ensures LastFor(r.input.sink, u) == LastFor(s.input.history, u) {
        RetiredHasDelivered(r, u);
      }
    }
  }
}
