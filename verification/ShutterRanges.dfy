/** Carving the raw DMX domain: the range of a shutter function and the channel sets inside it. */
module ShutterRanges {
  import opened Prelude

  /** Attributes as parsed and converted to the channel's width; `None` is malformed text, absence is 0. */
  datatype EndAttribute = Absent | Malformed | At(value: nat)
  datatype FunctionNode = FunctionNode(start: Option<nat>, conditional: bool, end: EndAttribute)

  datatype Range = Range(from: nat, to: nat)

  function ByteMax(bytes: nat): (r: nat)
    requires 1 <= bytes <= 4
    ensures r + 1 == Power2(8 * bytes)
  {
    assert Power2(8) == 0x100 && Power2(16) == 0x1_0000 && Power2(24) == 0x100_0000 && Power2(32) == 0x1_0000_0000;
    if bytes == 1 then 0xFF else if bytes == 2 then 0xFFFF else if bytes == 3 then 0xFF_FFFF else 0xFFFF_FFFF
  }

  /** Conversion to a channel width yields values of that width. */
  ghost predicate Fits(functions: seq<FunctionNode>, bytes: nat)
    requires 1 <= bytes <= 4
  {
    forall i :: 0 <= i < |functions| && functions[i].start.Some? ==> functions[i].start.value <= ByteMax(bytes)
  }

  /** One below the nearest start beyond `from`, or the top of the domain. */
  function Boundary(functions: seq<FunctionNode>, from: nat, top: nat): (b: nat)
    requires from <= top
    ensures from <= b <= top
  {
    if functions == [] then top else
      var last := functions[|functions| - 1];
      var rest := Boundary(functions[..|functions| - 1], from, top);
      if last.start.Some? && last.start.value > from && last.start.value - 1 < rest then last.start.value - 1 else rest
  }

  lemma {:induction false} BoundaryIsNearest(functions: seq<FunctionNode>, from: nat, top: nat)
    requires from <= top
    ensures var b := Boundary(functions, from, top);
            && (forall i :: 0 <= i < |functions| && functions[i].start.Some? && functions[i].start.value > from ==>
                  b < functions[i].start.value)
            && (b == top || exists i :: 0 <= i < |functions| && functions[i].start == Some(b + 1))
  {
    if functions != [] {
      var init := functions[..|functions| - 1];
      BoundaryIsNearest(init, from, top);
      assert forall i :: 0 <= i < |init| ==> init[i] == functions[i];
    }
  }

  ghost predicate AllStartsParse(functions: seq<FunctionNode>) {
    forall i :: 0 <= i < |functions| ==> functions[i].start.Some?
  }

  /** No other unconditional function starts where the unconditional function `fn` does. */
  ghost predicate Unambiguous(functions: seq<FunctionNode>, fn: nat)
    requires fn < |functions|
  {
    forall i :: 0 <= i < |functions| && i != fn && functions[i].start == functions[fn].start ==>
      functions[i].conditional || functions[fn].conditional
  }

  ghost predicate EndAccepted(end: EndAttribute, from: nat, boundary: nat) {
    !end.Malformed? && (end.At? ==> from <= end.value <= boundary)
  }

  /** The range the compiler gives to function `fn`, or `None` when it rejects it. */
  ghost function RangeOf(functions: seq<FunctionNode>, fn: nat, bytes: nat): (r: Option<Range>)
    requires fn < |functions| && 1 <= bytes <= 4 && Fits(functions, bytes)
  {
    if !AllStartsParse(functions) || !Unambiguous(functions, fn) then None else
      var node := functions[fn];
      var boundary := Boundary(functions, node.start.value, ByteMax(bytes));
      if !EndAccepted(node.end, node.start.value, boundary) then None
      else Some(Range(node.start.value, if node.end.At? then node.end.value else boundary))
  }

  method ShutterFunctionRange(functions: seq<FunctionNode>, fn: nat, bytes: nat) returns (r: Option<Range>)
    requires fn < |functions| && 1 <= bytes <= 4 && Fits(functions, bytes)
    ensures r == RangeOf(functions, fn, bytes)
  {
    var node := functions[fn];
    if node.start.None? {
      return None;
    }
    var from := node.start.value;
    var ok, to := TightenEnd(functions, fn, ByteMax(bytes));
    if !ok {
      return None;
    }
    match node.end
    case Absent => return Some(Range(from, to));
    case Malformed => return None;
    case At(value) => return if value < from || value > to then None else Some(Range(from, value));
  }

  /** Moves the end of a function's range below the next start, watching for malformed and clashing starts. */
  method TightenEnd(functions: seq<FunctionNode>, fn: nat, top: nat) returns (ok: bool, to: nat)
    requires fn < |functions| && functions[fn].start.Some? && functions[fn].start.value <= top
    ensures ok <==> AllStartsParse(functions) && Unambiguous(functions, fn)
    ensures ok ==> to == Boundary(functions, functions[fn].start.value, top)
  {
    var node := functions[fn];
    var from := node.start.value;
    to := top;
    for k := 0 to |functions|
      invariant forall i :: 0 <= i < k ==> functions[i].start.Some?
      invariant to == Boundary(functions[..k], from, top)
      invariant forall i :: 0 <= i < k && i != fn && functions[i].start == node.start ==>
                  functions[i].conditional || node.conditional
    {
      assert functions[..k + 1][..k] == functions[..k];
      var other := functions[k];
      if other.start.None? {
        return false, to;
      }
      var next := other.start.value;
      if k != fn && next == from && !node.conditional && !other.conditional {
        return false, to;
      }
      if next > from && next - 1 < to {
        to := next - 1;
      }
    }
    assert functions[..|functions|] == functions;
    return true, to;
  }

  /**
    A function is accepted exactly if every start parses, no other unconditional function starts where this one does
    unless this one is conditional, and an explicit end is well-formed, not before the start and before the next start.
  */
  lemma AcceptedExactly(functions: seq<FunctionNode>, fn: nat, bytes: nat)
    requires fn < |functions| && 1 <= bytes <= 4 && Fits(functions, bytes)
    ensures RangeOf(functions, fn, bytes).Some? <==>
              && (forall i :: 0 <= i < |functions| ==> functions[i].start.Some?)
              && (functions[fn].conditional ||
                  forall i :: 0 <= i < |functions| && i != fn && !functions[i].conditional ==>
                    functions[i].start != functions[fn].start)
              && match functions[fn].end {
                   case Absent => true
                   case Malformed => false
                   case At(v) => functions[fn].start.value <= v <= ByteMax(bytes) &&
                                 forall i :: 0 <= i < |functions| ==>
                                   !(functions[fn].start.value < functions[i].start.value <= v)
                 }
    ensures RangeOf(functions, fn, bytes).Some? ==>
              var r := RangeOf(functions, fn, bytes).value;
              && functions[fn].start == Some(r.from) && r.from <= r.to
              && (functions[fn].end.At? ==> r.to == functions[fn].end.value)
  {
    if AllStartsParse(functions) {
      BoundaryIsNearest(functions, functions[fn].start.value, ByteMax(bytes));
    }
  }

  /** Distinct unconditional functions never share a raw value. */
  lemma UnconditionalRangesAreDisjoint(functions: seq<FunctionNode>, bytes: nat, i: nat, j: nat)
    requires 1 <= bytes <= 4 && Fits(functions, bytes) && i < |functions| && j < |functions| && i != j
    requires !functions[i].conditional && !functions[j].conditional
    requires RangeOf(functions, i, bytes).Some? && RangeOf(functions, j, bytes).Some?
    ensures var a, b := RangeOf(functions, i, bytes).value, RangeOf(functions, j, bytes).value;
            a.to < b.from || b.to < a.from
  {
    assert functions[i].start != functions[j].start;
    BoundaryIsNearest(functions, functions[i].start.value, ByteMax(bytes));
    BoundaryIsNearest(functions, functions[j].start.value, ByteMax(bytes));
  }

  predicate Inside(range: Range, v: nat) {
    range.from <= v <= range.to
  }

  ghost predicate NoStartWithin(functions: seq<FunctionNode>, from: nat, v: nat)
    requires AllStartsParse(functions)
  {
    forall j :: 0 <= j < |functions| ==> !(from < functions[j].start.value <= v)
  }

  /** A function holds the values from its start on until another function starts or its own explicit end is passed. */
  lemma RangeRunsToTheNextStart(functions: seq<FunctionNode>, bytes: nat, i: nat, v: nat)
    requires 1 <= bytes <= 4 && Fits(functions, bytes) && v <= ByteMax(bytes) && AllStartsParse(functions)
    requires i < |functions| && RangeOf(functions, i, bytes).Some?
    ensures var node := functions[i];
            Inside(RangeOf(functions, i, bytes).value, v) <==>
              node.start.value <= v && NoStartWithin(functions, node.start.value, v) && (node.end.At? ==> v <= node.end.value)
  {
    BoundaryIsNearest(functions, functions[i].start.value, ByteMax(bytes));
  }

  /** `owner` has the latest start at or below `v`. */
  ghost predicate LatestAt(functions: seq<FunctionNode>, owner: nat, v: nat)
    requires AllStartsParse(functions)
  {
    owner < |functions| && functions[owner].start.value <= v && NoStartWithin(functions, functions[owner].start.value, v)
  }

  lemma OwnersStartTogether(functions: seq<FunctionNode>, bytes: nat, v: nat, owner: nat, i: nat)
    requires 1 <= bytes <= 4 && Fits(functions, bytes) && v <= ByteMax(bytes) && AllStartsParse(functions)
    requires LatestAt(functions, owner, v) && i < |functions| && RangeOf(functions, i, bytes).Some?
    ensures Inside(RangeOf(functions, i, bytes).value, v) <==>
              functions[i].start == functions[owner].start && (functions[i].end.At? ==> v <= functions[i].end.value)
  {
    RangeRunsToTheNextStart(functions, bytes, i, v);
    assert !(functions[i].start.value < functions[owner].start.value <= v) <==>
      functions[i].start.value >= functions[owner].start.value;
  }

  /** Function `i` is accepted and its range holds the value. */
  ghost predicate Belongs(functions: seq<FunctionNode>, bytes: nat, i: nat, v: nat)
    requires 1 <= bytes <= 4 && Fits(functions, bytes)
  {
    i < |functions| && RangeOf(functions, i, bytes).Some? && Inside(RangeOf(functions, i, bytes).value, v)
  }

  /**
    A raw value that is not below the lowest start belongs exactly to the accepted functions with the latest start at or
    below it, unless their explicit end is passed; at most one of them is unconditional.
  */
  lemma RangesPartition(functions: seq<FunctionNode>, bytes: nat, v: nat, below: nat) returns (owner: nat)
    requires 1 <= bytes <= 4 && Fits(functions, bytes) && v <= ByteMax(bytes) && AllStartsParse(functions)
    requires below < |functions| && functions[below].start.value <= v
    ensures LatestAt(functions, owner, v)
    ensures forall i: nat :: i < |functions| && RangeOf(functions, i, bytes).Some? ==>
              (Belongs(functions, bytes, i, v) <==>
                 functions[i].start == functions[owner].start && (functions[i].end.At? ==> v <= functions[i].end.value))
    ensures forall i: nat, j: nat :: Belongs(functions, bytes, i, v) && Belongs(functions, bytes, j, v) && i != j ==>
              functions[i].conditional || functions[j].conditional
  {
    owner := LatestStart(functions, v, |functions|, below);
    forall i: nat | i < |functions| && RangeOf(functions, i, bytes).Some?
      ensures Belongs(functions, bytes, i, v) <==>
                functions[i].start == functions[owner].start && (functions[i].end.At? ==> v <= functions[i].end.value)
    {
      OwnersStartTogether(functions, bytes, v, owner, i);
    }
    forall i: nat, j: nat | Belongs(functions, bytes, i, v) && Belongs(functions, bytes, j, v) && i != j
      ensures functions[i].conditional || functions[j].conditional
    {
      if !functions[i].conditional && !functions[j].conditional {
        UnconditionalRangesAreDisjoint(functions, bytes, i, j);
      }
    }
  }

  /** The function with the greatest start not beyond `v` among the first `k` and `below`. */
  lemma {:induction false} LatestStart(functions: seq<FunctionNode>, v: nat, k: nat, below: nat) returns (owner: nat)
    requires AllStartsParse(functions) && below < |functions| && functions[below].start.value <= v && k <= |functions|
    ensures owner < |functions| && functions[owner].start.value <= v
    ensures forall i :: 0 <= i < k && functions[i].start.value <= v ==>
              functions[i].start.value <= functions[owner].start.value
  {
    if k == 0 {
      owner := below;
    } else {
      owner := LatestStart(functions, v, k - 1, below);
      if functions[owner].start.value < functions[k - 1].start.value <= v {
        owner := k - 1;
      }
    }
  }

  // ----- channel sets -----

  datatype SetNode = SetNode(start: Option<nat>, name: string, physicalFrom: real, physicalTo: real, physicalOk: bool)
  datatype ChannelSet = ChannelSet(from: nat, to: nat, name: string, physicalFrom: real, physicalTo: real)

  predicate Ascending(sets: seq<ChannelSet>) {
    forall i, j :: 0 <= i < j < |sets| ==> sets[i].from <= sets[j].from
  }

  /** A stable sort by declared start. */
  function SortedByStart(sets: seq<ChannelSet>): (r: seq<ChannelSet>)
    ensures |r| == |sets| && Ascending(r)
    ensures forall s :: s in r <==> s in sets
  {
    if sets == [] then [] else
      var last := |sets| - 1;
      assert sets == sets[..last] + [sets[last]];
      InsertLast(SortedByStart(sets[..last]), sets[last])
  }

  function InsertLast(sorted: seq<ChannelSet>, x: ChannelSet): (r: seq<ChannelSet>)
    requires Ascending(sorted)
    ensures |r| == |sorted| + 1 && Ascending(r)
    ensures forall s :: s in r <==> s in sorted || s == x
  {
    if sorted == [] || sorted[|sorted| - 1].from <= x.from then sorted + [x] else
      var last := |sorted| - 1;
      var rest := InsertLast(sorted[..last], x);
      assert sorted == sorted[..last] + [sorted[last]];
      InsertedBelow(sorted, x, rest);
      rest + [sorted[last]]
  }

  lemma InsertedBelow(sorted: seq<ChannelSet>, x: ChannelSet, rest: seq<ChannelSet>)
    requires sorted != [] && Ascending(sorted) && x.from < sorted[|sorted| - 1].from
    requires forall s :: s in rest <==> s in sorted[..|sorted| - 1] || s == x
    ensures forall k :: 0 <= k < |rest| ==> rest[k].from <= sorted[|sorted| - 1].from
  {
    forall k | 0 <= k < |rest| ensures rest[k].from <= sorted[|sorted| - 1].from {
      assert rest[k] in rest;
      if rest[k] != x {
        var i :| 0 <= i < |sorted| - 1 && sorted[..|sorted| - 1][i] == rest[k];
        assert sorted[i] == rest[k];
      }
    }
  }

  predicate Usable(node: SetNode, to: nat) {
    node.start.Some? && node.start.value <= to && node.physicalOk
  }

  ghost predicate StartsDistinct(nodes: seq<SetNode>) {
    forall i, j :: 0 <= i < j < |nodes| && nodes[i].start.Some? ==> nodes[i].start != nodes[j].start
  }

  /** Consecutive sets without gap or overlap from `low` to `high`. */
  ghost predicate Tiles(sets: seq<ChannelSet>, low: nat, high: int) {
    && sets != [] && sets[0].from == low && sets[|sets| - 1].to == high
    && (forall k :: 0 <= k < |sets| ==> sets[k].from <= sets[k].to)
    && (forall k :: 0 <= k < |sets| - 1 ==> sets[k].to + 1 == sets[k + 1].from)
  }

  /** The set carries the attributes of the declared set with the greatest start at or below its values. */
  ghost predicate OwnedBy(set': ChannelSet, node: SetNode, nodes: seq<SetNode>) {
    && node in nodes && node.start.Some? && node.start.value <= set'.from
    && set'.name == node.name && set'.physicalFrom == node.physicalFrom && set'.physicalTo == node.physicalTo
    && forall other :: other in nodes && other.start.Some? && other.start.value <= set'.to ==>
         other.start.value <= node.start.value
  }

  ghost predicate HasOwner(set': ChannelSet, nodes: seq<SetNode>) {
    exists node :: OwnedBy(set', node, nodes)
  }

  /** The physical value at a raw value of the function's range. */
  function Interpolated(low: real, high: real, from: nat, to: nat, at: nat): (r: real)
    ensures to <= from ==> r == low
    ensures to > from ==> (r - low) * (to - from) as real == (high - low) * (at - from) as real
  {
    if to > from then low + (high - low) * (at - from) as real / (to - from) as real else low
  }

  /** The unnamed stretch before the first declared set, with the parent's mapping cut off where it ends. */
  ghost predicate ParentPrefix(set': ChannelSet, nodes: seq<SetNode>, from: nat, to: nat, low: real, high: real) {
    && set'.from == from && set'.name == "" && set'.physicalFrom == low
    && set'.physicalTo == Interpolated(low, high, from, to, set'.to)
    && forall node :: node in nodes && node.start.Some? ==> set'.to < node.start.value
  }

  ghost predicate Strict(sets: seq<ChannelSet>) {
    forall i, j :: 0 <= i < j < |sets| ==> sets[i].from < sets[j].from
  }

  ghost function Starts(sets: seq<ChannelSet>): (r: seq<nat>)
    ensures |r| == |sets| && forall k :: 0 <= k < |sets| ==> r[k] == sets[k].from
  {
    seq(|sets|, k requires 0 <= k < |sets| => sets[k].from)
  }

  lemma SameElements(a: seq<ChannelSet>, b: seq<ChannelSet>)
    requires forall s :: s in a ==> s in b
    ensures Elements(Starts(a)) <= Elements(Starts(b))
  {
    forall x | x in Starts(a) ensures x in Starts(b) {
      var i :| 0 <= i < |a| && Starts(a)[i] == x;
      assert a[i] in b;
      var j :| 0 <= j < |b| && b[j] == a[i];
      assert Starts(b)[j] == x;
    }
  }

  lemma AscendingIsStrict(sorted: seq<ChannelSet>)
    requires Ascending(sorted)
    ensures Strict(sorted) <==> Distinct(Starts(sorted))
  {
    if Distinct(Starts(sorted)) {
      forall i, j | 0 <= i < j < |sorted| ensures sorted[i].from < sorted[j].from {
        assert Starts(sorted)[i] != Starts(sorted)[j];
      }
    } else {
      var i, j :| 0 <= i < j < |sorted| && Starts(sorted)[i] == Starts(sorted)[j];
      assert !(sorted[i].from < sorted[j].from);
    }
  }

  /** The sorted declarations are strictly ascending exactly when no two declarations share a start. */
  lemma SortIsStrict(sets: seq<ChannelSet>)
    ensures Strict(SortedByStart(sets)) <==> Distinct(Starts(sets))
  {
    var sorted := SortedByStart(sets);
    var a, b := Starts(sorted), Starts(sets);
    SameElements(sorted, sets);
    SameElements(sets, sorted);
    assert Elements(a) == Elements(b);
    DistinctByCount(a);
    DistinctByCount(b);
    AscendingIsStrict(sorted);
  }

  function Declared(node: SetNode, to: nat): ChannelSet
    requires node.start.Some?
  {
    ChannelSet(node.start.value, to, node.name, node.physicalFrom, node.physicalTo)
  }

  ghost predicate Lists(declared: seq<ChannelSet>, nodes: seq<SetNode>, to: nat) {
    |declared| == |nodes| && forall k :: 0 <= k < |nodes| ==>
      Usable(nodes[k], to) && declared[k] == Declared(nodes[k], to)
  }

  /** Collects the usable declarations; `valid` ends false when any was not. */
  method CollectSets(nodes: seq<SetNode>, to: nat) returns (declared: seq<ChannelSet>, valid: bool)
    ensures valid <==> forall node :: node in nodes ==> Usable(node, to)
    ensures valid ==> Lists(declared, nodes, to)
  {
    valid := true;
    declared := [];
    for k := 0 to |nodes|
      invariant valid <==> forall i :: 0 <= i < k ==> Usable(nodes[i], to)
      invariant valid ==> Lists(declared, nodes[..k], to)
    {
      var node := nodes[k];
      if node.start.None? || node.start.value > to {
        valid := false;
        continue;
      }
      if !node.physicalOk {
        valid := false;
      }
      declared := declared + [Declared(node, to)];
    }
    assert nodes[..|nodes|] == nodes;
    assert forall i :: 0 <= i < |nodes| ==> nodes[i] in nodes;
  }

  /** Where the sorted declarations up to `i` have carved the domain to, as an exclusive end. */
  function Carved(sorted: seq<ChannelSet>, i: nat, to: nat): (end: nat)
    requires i <= |sorted|
  {
    if i < |sorted| then sorted[i].from else to + 1
  }

  /** The set comes from the declaration `sorted[k]`, clipped to the parent and cut at the next declaration. */
  ghost predicate CarvedFrom(set': ChannelSet, sorted: seq<ChannelSet>, k: nat, from: nat, to: nat) {
    && k < |sorted| && sorted[k].from <= set'.from && set'.to + 1 == Carved(sorted, k + 1, to)
    && set'.from == (if sorted[k].from < from then from else sorted[k].from)
    && set'.name == sorted[k].name && set'.physicalFrom == sorted[k].physicalFrom
    && set'.physicalTo == sorted[k].physicalTo
  }

  ghost predicate CarvedFromSome(set': ChannelSet, sorted: seq<ChannelSet>, from: nat, to: nat) {
    exists k: nat :: CarvedFrom(set', sorted, k, from, to)
  }

  ghost predicate AllCarved(sets: seq<ChannelSet>, sorted: seq<ChannelSet>, from: nat, to: nat) {
    forall s :: 0 <= s < |sets| ==> CarvedFromSome(sets[s], sorted, from, to)
  }

  /** The sets carved from the first `i` declarations tile what lies at or above `from` of their domain. */
  ghost predicate CarvedSoFar(sets: seq<ChannelSet>, sorted: seq<ChannelSet>, i: nat, from: nat, to: nat)
    requires i <= |sorted|
  {
    && (i == 0 ==> sets == [])
    && (i > 0 && sets == [] ==> Carved(sorted, i, to) <= from)
    && (sets != [] ==>
          && sorted != [] && Carved(sorted, i, to) > from
          && Tiles(sets, if sorted[0].from > from then sorted[0].from else from, Carved(sorted, i, to) - 1))
    && AllCarved(sets, sorted, from, to)
  }

  function Entry(sorted: seq<ChannelSet>, i: nat, from: nat, to: nat): ChannelSet
    requires i < |sorted| && Carved(sorted, i + 1, to) > 0
  {
    sorted[i].(from := if sorted[i].from < from then from else sorted[i].from, to := Carved(sorted, i + 1, to) - 1)
  }

  lemma CarveStep(sets: seq<ChannelSet>, sorted: seq<ChannelSet>, i: nat, from: nat, to: nat)
    requires Ascending(sorted) && i < |sorted| && sorted[i].from < Carved(sorted, i + 1, to)
    requires CarvedSoFar(sets, sorted, i, from, to)
    ensures Carved(sorted, i + 1, to) <= from ==> CarvedSoFar(sets, sorted, i + 1, from, to)
    ensures Carved(sorted, i + 1, to) > from ==>
              CarvedSoFar(sets + [Entry(sorted, i, from, to)], sorted, i + 1, from, to)
  {
    if Carved(sorted, i + 1, to) > from {
      var entry := Entry(sorted, i, from, to);
      assert CarvedFrom(entry, sorted, i, from, to);
      assert CarvedFromSome(entry, sorted, from, to);
    }
  }

  /** The sets carved from the first `i` declarations. */
  ghost function CarvedSets(sorted: seq<ChannelSet>, i: nat, from: nat, to: nat): seq<ChannelSet>
    requires i <= |sorted|
  {
    if i == 0 then [] else
      var earlier := CarvedSets(sorted, i - 1, from, to);
      if Carved(sorted, i, to) <= from then earlier else earlier + [Entry(sorted, i - 1, from, to)]
  }

  /** Each of the first `i` declarations starts strictly below the next. */
  predicate StrictTo(sorted: seq<ChannelSet>, i: nat)
    requires i <= |sorted|
  {
    i == 0 || (StrictTo(sorted, i - 1) && (i == |sorted| || sorted[i - 1].from < sorted[i].from))
  }

  lemma {:induction false} CarvedSetsHold(sorted: seq<ChannelSet>, i: nat, from: nat, to: nat)
    requires Ascending(sorted) && i <= |sorted| && StrictTo(sorted, i) && forall s :: s in sorted ==> s.from <= to
    ensures CarvedSoFar(CarvedSets(sorted, i, from, to), sorted, i, from, to)
  {
    if i > 0 {
      CarvedSetsHold(sorted, i - 1, from, to);
      assert sorted[i - 1] in sorted;
      CarveStep(CarvedSets(sorted, i - 1, from, to), sorted, i - 1, from, to);
    }
  }

  method CarveSets(sorted: seq<ChannelSet>, from: nat, to: nat) returns (sets: seq<ChannelSet>, valid: bool)
    requires Ascending(sorted) && from <= to && forall s :: s in sorted ==> s.from <= to && s.to == to
    ensures valid <==> Strict(sorted)
    ensures valid ==> CarvedSoFar(sets, sorted, |sorted|, from, to)
  {
    sets := [];
    valid := true;
    for i := 0 to |sorted|
      invariant valid <==> StrictTo(sorted, i)
      invariant valid ==> sets == CarvedSets(sorted, i, from, to)
    {
      var entry := sorted[i];
      assert entry in sorted;
      if i + 1 < |sorted| {
        assert entry.from <= sorted[i + 1].from;
        if entry.from == sorted[i + 1].from {
          valid := false;
          continue;
        }
        entry := entry.(to := sorted[i + 1].from - 1);
      }
      if entry.to < from {
        continue;
      }
      entry := entry.(from := if entry.from < from then from else entry.from);
      sets := sets + [entry];
    }
    AdjacentIsStrict(sorted, |sorted|);
    if valid {
      CarvedSetsHold(sorted, |sorted|, from, to);
    }
  }

  ghost predicate StrictBelow(sorted: seq<ChannelSet>, i: nat)
    requires i <= |sorted|
  {
    forall a, b :: 0 <= a < i && a < b < |sorted| ==> sorted[a].from < sorted[b].from
  }

  /** Comparing neighbours is enough in an ascending list. */
  lemma {:induction false} AdjacentIsStrict(sorted: seq<ChannelSet>, i: nat)
    requires Ascending(sorted) && i <= |sorted|
    ensures StrictTo(sorted, i) <==> StrictBelow(sorted, i)
    ensures i == |sorted| ==> (StrictTo(sorted, i) <==> Strict(sorted))
  {
    if i > 0 {
      AdjacentIsStrict(sorted, i - 1);
      if StrictTo(sorted, i) && i < |sorted| {
        forall b | i - 1 < b < |sorted| ensures sorted[i - 1].from < sorted[b].from {
          assert sorted[i].from <= sorted[b].from;
        }
      }
    }
  }

  /** Sets that cover the parent range: a prefix of the parent's mapping at most, and declared sets with their owners. */
  ghost predicate Covers(sets: seq<ChannelSet>, nodes: seq<SetNode>, from: nat, to: nat, low: real, high: real) {
    && (nodes != [] ==> Tiles(sets, from, to)) && (nodes == [] ==> sets == [])
    && forall k :: 0 <= k < |sets| ==>
         (k == 0 && ParentPrefix(sets[k], nodes, from, to, low, high)) || HasOwner(sets[k], nodes)
  }

  method ParseShutterSets(nodes: seq<SetNode>, from: nat, to: nat, low: real, high: real, validBefore: bool)
    returns (sets: seq<ChannelSet>, valid: bool)
    requires from <= to
    ensures valid <==> validBefore && (forall node :: node in nodes ==> Usable(node, to)) && StartsDistinct(nodes)
    ensures if valid then Covers(sets, nodes, from, to, low, high) else sets == []
  {
    var declared, usable := CollectSets(nodes, to);
    if !usable {
      return [], false;
    }
    var distinct;
    sets, distinct := CarveDeclared(declared, nodes, from, to, low, high);
    valid := validBefore && distinct;
    if !valid {
      return [], false;
    }
  }

  /** Sorts and carves usable declarations, unless two of them start together. */
  method CarveDeclared(declared: seq<ChannelSet>, ghost nodes: seq<SetNode>, from: nat, to: nat, low: real, high: real)
    returns (sets: seq<ChannelSet>, distinct: bool)
    requires from <= to && Lists(declared, nodes, to)
    ensures distinct <==> StartsDistinct(nodes)
    ensures distinct ==> Covers(sets, nodes, from, to, low, high)
  {
    var sorted := SortedByStart(declared);
    SortedFits(declared, nodes, to);
    SortIsStrict(declared);
    DeclaredDistinct(declared, nodes, to);
    sets, distinct := CarveSets(sorted, from, to);
    if distinct {
      sets := PrefixedSets(sets, declared, nodes, from, to, low, high);
    }
  }

  method PrefixedSets(carved: seq<ChannelSet>, ghost declared: seq<ChannelSet>, ghost nodes: seq<SetNode>, from: nat, to: nat,
                      low: real, high: real) returns (sets: seq<ChannelSet>)
    requires from <= to && Lists(declared, nodes, to) && Strict(SortedByStart(declared))
    requires forall s :: s in SortedByStart(declared) ==> s.from <= to
    requires CarvedSoFar(carved, SortedByStart(declared), |declared|, from, to)
    ensures Covers(sets, nodes, from, to, low, high)
  {
    CarvedAreOwned(carved, declared, nodes, from, to);
    sets := AddPrefix(carved, from, to, low, high);
    if |sets| > |carved| {
      PrefixPrecedes(declared, nodes, sets[0].to, to);
    }
    AssembledAreOwned(sets, carved, nodes, from, to, low, high);
  }

  lemma SortedFits(declared: seq<ChannelSet>, nodes: seq<SetNode>, to: nat)
    requires Lists(declared, nodes, to)
    ensures |SortedByStart(declared)| == |declared|
    ensures forall s :: s in SortedByStart(declared) ==> s.from <= to && s.to == to
  {
    forall s | s in SortedByStart(declared) ensures s.from <= to && s.to == to {
      var k :| 0 <= k < |declared| && declared[k] == s;
    }
  }

  lemma AssembledAreOwned(sets: seq<ChannelSet>, carved: seq<ChannelSet>, nodes: seq<SetNode>, from: nat, to: nat,
                          low: real, high: real)
    requires forall k :: 0 <= k < |carved| ==> HasOwner(carved[k], nodes)
    requires sets == carved || (|sets| == |carved| + 1 && sets[1..] == carved && ParentPrefix(sets[0], [], from, to, low, high))
    requires |sets| > |carved| ==> forall node :: node in nodes && node.start.Some? ==> sets[0].to < node.start.value
    ensures forall k :: 0 <= k < |sets| ==>
              (k == 0 && ParentPrefix(sets[k], nodes, from, to, low, high)) || HasOwner(sets[k], nodes)
  {
    if sets != carved {
      assert forall k :: 1 <= k < |sets| ==> sets[k] == carved[k - 1];
    }
  }

  method AddPrefix(carved: seq<ChannelSet>, from: nat, to: nat, low: real, high: real) returns (sets: seq<ChannelSet>)
    requires from <= to && (carved != [] ==> exists first: nat :: first >= from && Tiles(carved, first, to))
    ensures carved == [] ==> sets == []
    ensures carved != [] ==> Tiles(sets, from, to)
    ensures sets == carved || (|sets| == |carved| + 1 && sets[1..] == carved && sets[0].to + 1 == carved[0].from &&
                               ParentPrefix(sets[0], [], from, to, low, high))
  {
    sets := carved;
    if sets != [] && sets[0].from > from {
      var end := sets[0].from - 1;
      var prefix := ChannelSet(from, end, "", low, Interpolated(low, high, from, to, end));
      assert ParentPrefix(prefix, [], from, to, low, high);
      sets := [prefix] + sets;
      assert sets[1..] == carved && sets[0] == prefix;
      assert forall k :: 1 <= k < |sets| ==> sets[k] == carved[k - 1];
    }
  }

  lemma CarvedAreOwned(carved: seq<ChannelSet>, declared: seq<ChannelSet>, nodes: seq<SetNode>, from: nat, to: nat)
    requires Lists(declared, nodes, to) && Strict(SortedByStart(declared))
    requires AllCarved(carved, SortedByStart(declared), from, to)
    ensures forall k :: 0 <= k < |carved| ==> HasOwner(carved[k], nodes)
  {
    forall k | 0 <= k < |carved| ensures HasOwner(carved[k], nodes) {
      var i: nat :| CarvedFrom(carved[k], SortedByStart(declared), i, from, to);
      CarvedIsOwned(carved[k], declared, nodes, i, from, to);
    }
  }

  lemma PrefixPrecedes(declared: seq<ChannelSet>, nodes: seq<SetNode>, end: nat, to: nat)
    requires Lists(declared, nodes, to) && declared != [] && end < SortedByStart(declared)[0].from
    ensures forall node :: node in nodes && node.start.Some? ==> end < node.start.value
  {
    var sorted := SortedByStart(declared);
    forall node | node in nodes && node.start.Some? ensures end < node.start.value {
      var i :| 0 <= i < |nodes| && nodes[i] == node;
      assert declared[i] in sorted;
      var j :| 0 <= j < |sorted| && sorted[j] == declared[i];
    }
  }

  lemma DeclaredDistinct(declared: seq<ChannelSet>, nodes: seq<SetNode>, to: nat)
    requires Lists(declared, nodes, to)
    ensures Distinct(Starts(declared)) <==> StartsDistinct(nodes)
  {
    if StartsDistinct(nodes) {
      forall i, j | 0 <= i < j < |declared| ensures Starts(declared)[i] != Starts(declared)[j] {
        assert nodes[i].start != nodes[j].start;
      }
    } else {
      var i, j :| 0 <= i < j < |nodes| && nodes[i].start.Some? && nodes[i].start == nodes[j].start;
      assert Starts(declared)[i] == Starts(declared)[j];
    }
  }

  lemma CarvedIsOwned(set': ChannelSet, declared: seq<ChannelSet>, nodes: seq<SetNode>, k: nat, from: nat, to: nat)
    requires Lists(declared, nodes, to) && Strict(SortedByStart(declared))
    requires CarvedFrom(set', SortedByStart(declared), k, from, to)
    ensures HasOwner(set', nodes)
  {
    var sorted := SortedByStart(declared);
    assert sorted[k] in declared;
    var n :| 0 <= n < |declared| && declared[n] == sorted[k];
    var owner := nodes[n];
    forall other | other in nodes && other.start.Some? && other.start.value <= set'.to
      ensures other.start.value <= owner.start.value
    {
      var i :| 0 <= i < |nodes| && nodes[i] == other;
      assert declared[i] in sorted;
      var j :| 0 <= j < |sorted| && sorted[j] == declared[i];
    }
    assert OwnedBy(set', owner, nodes);
  }

  /** In a tiling every value of the parent range lies in exactly one set. */
  lemma {:induction false} EachValueHasOneSet(sets: seq<ChannelSet>, low: nat, high: nat, v: nat) returns (k: nat)
    requires Tiles(sets, low, high) && low <= v <= high
    ensures k < |sets| && sets[k].from <= v <= sets[k].to
    ensures forall j :: 0 <= j < |sets| && sets[j].from <= v <= sets[j].to ==> j == k
  {
    if v <= sets[0].to {
      k := 0;
      TilesAscend(sets, low, high, 0);
    } else {
      var rest := sets[1..];
      assert forall i :: 0 <= i < |rest| ==> rest[i] == sets[i + 1];
      var j := EachValueHasOneSet(rest, rest[0].from, high, v);
      k := j + 1;
      forall i | 0 <= i < |sets| && sets[i].from <= v <= sets[i].to ensures i == k {
        assert i > 0 && rest[i - 1] == sets[i];
      }
    }
  }

  lemma {:induction false} TilesAscend(sets: seq<ChannelSet>, low: nat, high: nat, k: nat)
    requires Tiles(sets, low, high) && k < |sets|
    ensures forall j :: k < j < |sets| ==> sets[k].to < sets[j].from
    decreases |sets| - k
  {
    if k + 1 < |sets| {
      TilesAscend(sets, low, high, k + 1);
    }
  }
}
