/** ModeMaster dependencies between channel functions: cycle rejection by colouring, and activation along the chain. */
module ModeMasterGraph {
  import opened Prelude

  datatype Kind = NoMaster | DmxChannel | ChannelFunction | Invalid
  datatype Condition = Condition(kind: Kind, targetId: int, masterProgramId: int, from: nat, to: nat, valid: bool)
  datatype Activation = Activation(functionId: int, sourceId: int, dmxFrom: nat, dmxTo: nat, master: Condition)

  /** The index table of the validator: later functions overwrite earlier ones of the same id. */
  function LastIndex(fs: seq<Activation>, id: int): (r: Option<nat>)
    ensures r.Some? ==> r.value < |fs| && fs[r.value].functionId == id
    ensures r.None? ==> forall i :: 0 <= i < |fs| ==> fs[i].functionId != id
  {
    if fs == [] then None
    else if fs[|fs| - 1].functionId == id then Some(|fs| - 1)
    else LastIndex(fs[..|fs| - 1], id)
  }

  /** The evaluator's search: the first function with the id. */
  function FirstIndex(fs: seq<Activation>, id: int, from: nat := 0): (r: Option<nat>)
    requires from <= |fs|
    ensures r.Some? ==> from <= r.value < |fs| && fs[r.value].functionId == id
    ensures r.None? ==> forall i :: from <= i < |fs| ==> fs[i].functionId != id
    decreases |fs| - from
  {
    if from == |fs| then None
    else if fs[from].functionId == id then Some(from)
    else FirstIndex(fs, id, from + 1)
  }

  /** The condition is valid and a ChannelFunction target resolves. */
  predicate Resolved(fs: seq<Activation>, i: nat)
    requires i < |fs|
  {
    var c := fs[i].master;
    c.valid && !c.kind.Invalid? && (c.kind.ChannelFunction? ==> LastIndex(fs, c.targetId).Some?)
  }

  function Next(fs: seq<Activation>, i: nat): (r: Option<nat>)
    requires i < |fs|
    ensures r.Some? ==> r.value < |fs|
  {
    if fs[i].master.kind.ChannelFunction? then LastIndex(fs, fs[i].master.targetId) else None
  }

  /** The function reached after following `n` links. */
  function Walk(fs: seq<Activation>, i: nat, n: nat): (r: Option<nat>)
    requires i < |fs|
    ensures r.Some? ==> r.value < |fs|
    decreases n
  {
    if n == 0 then Some(i)
    else if Next(fs, i).None? then None
    else Walk(fs, Next(fs, i).value, n - 1)
  }

  ghost predicate OnCycle(fs: seq<Activation>, i: nat) {
    i < |fs| && exists n: nat :: n > 0 && Walk(fs, i, n) == Some(i)
  }

  ghost predicate Acyclic(fs: seq<Activation>) {
    forall i: nat :: !OnCycle(fs, i)
  }

  ghost predicate AllResolved(fs: seq<Activation>) {
    forall i :: 0 <= i < |fs| ==> Resolved(fs, i)
  }

  /** The chain from `i` is resolved throughout and stops within `n` functions. */
  predicate Ends(fs: seq<Activation>, i: nat, n: nat)
    requires i < |fs|
    decreases n
  {
    n > 0 && Resolved(fs, i) && (Next(fs, i).Some? ==> Ends(fs, Next(fs, i).value, n - 1))
  }

  ghost predicate Terminates(fs: seq<Activation>, i: nat)
    requires i < |fs|
  {
    exists n: nat :: Ends(fs, i, n)
  }

  // ----- the depth-first search -----

  const WHITE := 0
  const GREY := 1
  const BLACK := 2

  /** `path` is the chain of calls in progress; exactly its members are grey, and black functions terminate. */
  ghost predicate Search(fs: seq<Activation>, state: seq<nat>, path: seq<nat>) {
    && |state| == |fs| && Distinct(path)
    && (forall k :: 0 <= k < |path| ==> path[k] < |fs|)
    && (forall k :: 0 <= k < |path| - 1 ==> Next(fs, path[k]) == Some(path[k + 1]))
    && (forall i: nat :: i < |fs| ==> (state[i] == GREY <==> i in path))
    && (forall i: nat :: i < |fs| ==> state[i] <= BLACK && (state[i] == BLACK ==> Terminates(fs, i)))
  }

  ghost predicate Defective(fs: seq<Activation>) {
    !AllResolved(fs) || !Acyclic(fs)
  }

  lemma {:induction false} WalkAlong(fs: seq<Activation>, path: seq<nat>, k: nat, target: nat)
    requires forall j :: 0 <= j < |path| ==> path[j] < |fs|
    requires forall j :: 0 <= j < |path| - 1 ==> Next(fs, path[j]) == Some(path[j + 1])
    requires k < |path| && Next(fs, path[|path| - 1]) == Some(target)
    ensures Walk(fs, path[k], |path| - k) == Some(target)
    decreases |path| - k
  {
    if k < |path| - 1 {
      WalkAlong(fs, path, k + 1, target);
    } else {
      assert Walk(fs, target, 0) == Some(target);
    }
  }

  method Visit(fs: seq<Activation>, state: array<nat>, index: nat, ghost path: seq<nat>) returns (ok: bool)
    requires index < |fs| && Search(fs, state[..], path)
    requires path != [] ==> Next(fs, path[|path| - 1]) == Some(index)
    modifies state
    ensures ok ==> Search(fs, state[..], path) && state[index] == BLACK
    ensures ok ==> forall i :: 0 <= i < |fs| && old(state[i]) == BLACK ==> state[i] == BLACK
    ensures !ok ==> Defective(fs)
    decreases |fs| - |path|
  {
    if state[index] == GREY {
      assert state[..][index] == GREY;
      ghost var k :| 0 <= k < |path| && path[k] == index;
      WalkAlong(fs, path, k, index);
      assert OnCycle(fs, index);
      return false;
    }
    if state[index] == BLACK {
      return true;
    }
    assert state[..][index] != GREY;
    state[index] := GREY;
    ghost var longer := path + [index];
    DistinctBelow(longer, |fs|);
    var condition := fs[index].master;
    if condition.kind.Invalid? || !condition.valid {
      assert !Resolved(fs, index);
      return false;
    }
    if condition.kind.ChannelFunction? {
      var target := LastIndex(fs, condition.targetId);
      if target.None? {
        assert !Resolved(fs, index);
        return false;
      }
      assert Search(fs, state[..], longer);
      ok := Visit(fs, state, target.value, longer);
      if !ok {
        return false;
      }
      assert state[..][target.value] == BLACK;
      ghost var n: nat :| Ends(fs, target.value, n);
      assert Ends(fs, index, n + 1);
    } else {
      assert Ends(fs, index, 1);
    }
    assert index in longer && (forall i :: i in path <==> i in longer && i != index);
    state[index] := BLACK;
    return true;
  }

  /** Accepts exactly when every condition is valid, every ChannelFunction target resolves and there is no cycle. */
  method ValidateModeMasterGraph(fs: seq<Activation>) returns (ok: bool)
    ensures ok <==> AllResolved(fs) && Acyclic(fs)
    ensures ok ==> forall i :: 0 <= i < |fs| ==> Terminates(fs, i)
  {
    var state := new nat[|fs|](_ => WHITE);
    for i := 0 to |fs|
      invariant Search(fs, state[..], [])
      invariant forall j :: 0 <= j < i ==> state[j] == BLACK
    {
      ok := Visit(fs, state, i, []);
      if !ok {
        return false;
      }
    }
    forall i: nat | i < |fs| ensures Terminates(fs, i) {
      assert state[..][i] == BLACK;
    }
    TerminationMeansSound(fs);
    return true;
  }

  lemma {:induction false} EndsAlong(fs: seq<Activation>, i: nat, n: nat, k: nat, j: nat)
    requires i < |fs| && Ends(fs, i, n) && Walk(fs, i, k) == Some(j)
    ensures k < n && Ends(fs, j, n - k)
    decreases k
  {
    if k > 0 {
      EndsAlong(fs, Next(fs, i).value, n - 1, k - 1, j);
    }
  }

  lemma {:induction false} EndingIsNotCyclic(fs: seq<Activation>, i: nat, n: nat, k: nat)
    requires i < |fs| && Ends(fs, i, n) && k > 0
    ensures Walk(fs, i, k) != Some(i)
    decreases n
  {
    if Walk(fs, i, k) == Some(i) {
      EndsAlong(fs, i, n, k, i);
      EndingIsNotCyclic(fs, i, n - k, k);
    }
  }

  lemma TerminationMeansSound(fs: seq<Activation>)
    requires forall i :: 0 <= i < |fs| ==> Terminates(fs, i)
    ensures AllResolved(fs) && Acyclic(fs)
  {
    forall i: nat | i < |fs| ensures Resolved(fs, i) {
      assert Terminates(fs, i);
    }
    forall i: nat ensures !OnCycle(fs, i) {
      if i < |fs| {
        assert Terminates(fs, i);
        var n: nat :| Ends(fs, i, n);
        forall k: nat | k > 0 ensures Walk(fs, i, k) != Some(i) {
          EndingIsNotCyclic(fs, i, n, k);
        }
      }
    }
  }

  // ----- activation -----

  predicate OwnRange(fs: seq<Activation>, values: seq<nat>, i: nat)
    requires i < |fs|
  {
    0 <= fs[i].sourceId < |values| && fs[i].dmxFrom <= values[fs[i].sourceId] <= fs[i].dmxTo
  }

  function MasterId(c: Condition): int {
    if c.kind.ChannelFunction? then c.targetId else c.masterProgramId
  }

  /** The evaluator with its depth guard. */
  predicate Evaluate(fs: seq<Activation>, values: seq<nat>, i: nat, depth: nat)
    decreases |fs| + 1 - depth
  {
    if i >= |fs| || depth > |fs| then false
    else if !OwnRange(fs, values, i) then false
    else
      var c := fs[i].master;
      if !c.valid || c.kind.Invalid? then false
      else if c.kind.NoMaster? then true
      else
        var master := FirstIndex(fs, MasterId(c));
        if master.None? then false
        else
          var m := fs[master.value];
          if !(0 <= m.sourceId < |values|) then false
          else if values[m.sourceId] < c.from || values[m.sourceId] > c.to then false
          else !c.kind.ChannelFunction? || Evaluate(fs, values, master.value, depth + 1)
  }

  predicate IsChannelFunctionActive(fs: seq<Activation>, values: seq<nat>, id: int) {
    var found := FirstIndex(fs, id);
    found.Some? && Evaluate(fs, values, found.value, 0)
  }

  ghost predicate UniqueIds(fs: seq<Activation>) {
    forall i, j :: 0 <= i < j < |fs| ==> fs[i].functionId != fs[j].functionId
  }

  /** One function's own tests: its DMX range, and its master's value within the mode range. */
  predicate LinkHolds(fs: seq<Activation>, values: seq<nat>, i: nat)
    requires i < |fs|
  {
    var c := fs[i].master;
    && OwnRange(fs, values, i) && c.valid && !c.kind.Invalid?
    && (!c.kind.NoMaster? ==>
          exists m :: 0 <= m < |fs| && fs[m].functionId == MasterId(c) && 0 <= fs[m].sourceId < |values| &&
            c.from <= values[fs[m].sourceId] <= c.to)
  }

  /** The unbounded reading: every function along the whole chain passes its own tests. */
  ghost predicate ChainHolds(fs: seq<Activation>, values: seq<nat>, i: nat)
    requires i < |fs|
  {
    forall k: nat :: Walk(fs, i, k).Some? ==> LinkHolds(fs, values, Walk(fs, i, k).value)
  }

  lemma ChainUnfolds(fs: seq<Activation>, values: seq<nat>, i: nat)
    requires i < |fs|
    ensures ChainHolds(fs, values, i) <==>
              LinkHolds(fs, values, i) && (Next(fs, i).Some? ==> ChainHolds(fs, values, Next(fs, i).value))
  {
    assert Walk(fs, i, 0) == Some(i);
    if Next(fs, i).Some? {
      var next := Next(fs, i).value;
      assert forall k: nat :: Walk(fs, next, k) == Walk(fs, i, k + 1);
      if LinkHolds(fs, values, i) && ChainHolds(fs, values, next) {
        forall k: nat | Walk(fs, i, k).Some? ensures LinkHolds(fs, values, Walk(fs, i, k).value) {
          if k > 0 {
            assert Walk(fs, next, k - 1) == Walk(fs, i, k);
          }
        }
      }
    }
  }

  lemma UniqueIndex(fs: seq<Activation>, id: int)
    requires UniqueIds(fs)
    ensures FirstIndex(fs, id) == LastIndex(fs, id)
  {
  }

  /** The functions visited on a walk. */
  ghost function Trail(fs: seq<Activation>, i: nat, n: nat): (r: seq<nat>)
    requires i < |fs| && Walk(fs, i, n).Some?
    ensures |r| == n + 1
    decreases n
  {
    if n == 0 then [i] else [i] + Trail(fs, Next(fs, i).value, n - 1)
  }

  lemma {:induction false} TrailVisits(fs: seq<Activation>, i: nat, n: nat, k: nat)
    requires i < |fs| && Walk(fs, i, n).Some? && k <= n
    ensures Walk(fs, i, k) == Some(Trail(fs, i, n)[k])
    decreases n
  {
    if k > 0 {
      TrailVisits(fs, Next(fs, i).value, n - 1, k - 1);
    }
  }

  lemma {:induction false} WalkOn(fs: seq<Activation>, i: nat, a: nat, b: nat)
    requires i < |fs| && Walk(fs, i, a).Some?
    ensures Walk(fs, i, a + b) == Walk(fs, Walk(fs, i, a).value, b)
    decreases a
  {
    if a > 0 {
      WalkOn(fs, Next(fs, i).value, a - 1, b);
    }
  }

  lemma NoReturn(fs: seq<Activation>, i: nat, n: nat)
    requires Acyclic(fs) && i < |fs| && n > 0
    ensures Walk(fs, i, n) != Some(i)
  {
    assert !OnCycle(fs, i);
  }

  ghost predicate NoRepetition(fs: seq<Activation>, i: nat, n: nat)
    requires i < |fs|
  {
    forall a: nat, b: nat :: a < b <= n ==> Walk(fs, i, a) != Walk(fs, i, b)
  }

  lemma ShortWithoutRepetition(fs: seq<Activation>, i: nat, n: nat)
    requires i < |fs| && Walk(fs, i, n).Some? && NoRepetition(fs, i, n)
    ensures n < |fs|
  {
    var trail := Trail(fs, i, n);
    forall a, b | 0 <= a < b < |trail| ensures trail[a] != trail[b] {
      TrailVisits(fs, i, n, a);
      TrailVisits(fs, i, n, b);
    }
    forall k | 0 <= k < |trail| ensures trail[k] < |fs| {
      TrailVisits(fs, i, n, k);
    }
    DistinctBelow(trail, |fs|);
  }

  /** In an acyclic graph a walk never gets as long as there are functions. */
  lemma WalksAreShort(fs: seq<Activation>, i: nat, n: nat)
    requires Acyclic(fs) && i < |fs| && Walk(fs, i, n).Some?
    ensures n < |fs|
  {
    forall a: nat, b: nat | a < b <= n ensures Walk(fs, i, a) != Walk(fs, i, b) {
      TrailVisits(fs, i, n, a);
      TrailVisits(fs, i, n, b);
      WalkOn(fs, i, a, b - a);
      NoReturn(fs, Walk(fs, i, a).value, b - a);
    }
    ShortWithoutRepetition(fs, i, n);
  }

  /** Following links from `i` comes to a stop, whether or not the rest of the graph has cycles. */
  ghost predicate ChainEnds(fs: seq<Activation>, i: nat)
    requires i < |fs|
  {
    exists n: nat :: Walk(fs, i, n).None?
  }

  /** In an accepted graph every chain ends. */
  lemma AcyclicChainsEnd(fs: seq<Activation>, i: nat)
    requires Acyclic(fs) && i < |fs|
    ensures ChainEnds(fs, i)
  {
    if Walk(fs, i, |fs|).Some? {
      WalksAreShort(fs, i, |fs|);
    }
  }

  lemma {:induction false} RepetitionGoesOn(fs: seq<Activation>, i: nat, a: nat, b: nat, k: nat)
    requires i < |fs| && a < b && Walk(fs, i, a).Some? && Walk(fs, i, a) == Walk(fs, i, b)
    ensures Walk(fs, i, k).Some?
    decreases k
  {
    if k <= b {
      TrailVisits(fs, i, b, k);
    } else {
      WalkOn(fs, i, a, k - b);
      WalkOn(fs, i, b, k - b);
      RepetitionGoesOn(fs, i, a, b, a + (k - b));
    }
  }

  /** A chain that ends is shorter than the function count, so the depth guard cannot fire on it. */
  lemma EndingChainsAreShort(fs: seq<Activation>, i: nat, n: nat)
    requires i < |fs| && ChainEnds(fs, i) && Walk(fs, i, n).Some?
    ensures n < |fs|
  {
    forall a: nat, b: nat | a < b <= n ensures Walk(fs, i, a) != Walk(fs, i, b) {
      if Walk(fs, i, a) == Walk(fs, i, b) {
        TrailVisits(fs, i, n, a);
        var end: nat :| Walk(fs, i, end).None?;
        RepetitionGoesOn(fs, i, a, b, end);
      }
    }
    ShortWithoutRepetition(fs, i, n);
  }

  lemma {:induction false} GuardIsInert(fs: seq<Activation>, values: seq<nat>, start: nat, depth: nat, i: nat)
    requires UniqueIds(fs) && start < |fs| && ChainEnds(fs, start)
    requires i < |fs| && Walk(fs, start, depth) == Some(i)
    ensures Evaluate(fs, values, i, depth) <==> ChainHolds(fs, values, i)
    decreases |fs| - depth
  {
    EndingChainsAreShort(fs, start, depth);
    ChainUnfolds(fs, values, i);
    UniqueIndex(fs, MasterId(fs[i].master));
    if Next(fs, i).Some? {
      WalkOn(fs, start, depth, 1);
      assert Walk(fs, i, 1) == Some(Next(fs, i).value);
      EndingChainsAreShort(fs, start, depth + 1);
      GuardIsInert(fs, values, start, depth + 1, Next(fs, i).value);
    }
  }

  /** The guard refuses what does not end: only ending chains evaluate to true. */
  lemma {:induction false} ActiveChainsEnd(fs: seq<Activation>, values: seq<nat>, i: nat, depth: nat)
    requires UniqueIds(fs) && i < |fs| && Evaluate(fs, values, i, depth)
    ensures ChainEnds(fs, i)
    decreases |fs| + 1 - depth
  {
    if Next(fs, i).Some? {
      var next := Next(fs, i).value;
      UniqueIndex(fs, MasterId(fs[i].master));
      ActiveChainsEnd(fs, values, next, depth + 1);
      var n: nat :| Walk(fs, next, n).None?;
      assert Walk(fs, i, n + 1).None?;
    } else {
      assert Walk(fs, i, 1).None?;
    }
  }

  /**
    With unique ids the guarded evaluator decides, on every graph, whether the chain ends and every function along it
    passes its own tests. Validation only reports a rejected graph, so cyclic graphs reach the evaluator too.
  */
  lemma ActiveMeansWholeChain(fs: seq<Activation>, values: seq<nat>, i: nat)
    requires UniqueIds(fs) && i < |fs|
    ensures IsChannelFunctionActive(fs, values, fs[i].functionId) <==> ChainEnds(fs, i) && ChainHolds(fs, values, i)
  {
    assert FirstIndex(fs, fs[i].functionId) == Some(i);
    assert Walk(fs, i, 0) == Some(i);
    if ChainEnds(fs, i) {
      GuardIsInert(fs, values, i, 0, i);
    } else if Evaluate(fs, values, i, 0) {
      ActiveChainsEnd(fs, values, i, 0);
    }
  }
}
