/**
  Expansion of a parsed fixture along its geometry routes: every channel function is copied once per route of its
  geometry, its break and offsets adjusted by the reference it came through, and all ids are renumbered.
*/
module InstanceRouting {
  import opened Prelude
  import opened ModeMasterGraph
  import opened GeometryRoutes

  /** `dmxBreak` 0 is an unresolved Overwrite; ids are one-based positions in the fixture's tables. */
  datatype Program = Program(
    id: int, offsets: seq<int>, dmxBreak: int, geometryId: int, componentId: int, channelId: int, master: Condition,
    masterChannelId: int)
  datatype Geometry = Geometry(id: int, name: string, path: string)
  datatype Component = Component(id: int, geometryId: int, renderTargetId: int)
  datatype Channel = Channel(id: int, offsets: seq<int>, sourceProgramId: int)

  datatype Fixture = Fixture(
    geometries: seq<Geometry>, components: seq<Component>, programs: seq<Program>, channels: seq<Channel>)

  /** What the parser guarantees of a fixture. */
  ghost predicate Parsed(x: Fixture) {
    forall p :: 0 <= p < |x.programs| ==> ParsedProgram(x, x.programs[p])
  }

  predicate ParsedProgram(x: Fixture, p: Program) {
    && 1 <= p.geometryId <= |x.geometries| && 1 <= p.componentId <= |x.components|
    && 1 <= p.channelId <= |x.channels| && p.dmxBreak >= 0
  }

  predicate OnGeometry(x: Fixture, p: nat, name: string)
    requires p < |x.programs| && ParsedProgram(x, x.programs[p])
  {
    x.geometries[x.programs[p].geometryId - 1].name == name
  }

  // ----- the breaks that programs use below each reference -----

  /** The numbered breaks of the first `upTo` programs on a geometry. */
  ghost function NumberedOn(x: Fixture, name: string, upTo: nat): set<int>
    requires Parsed(x) && upTo <= |x.programs|
  {
    if upTo == 0 then {} else
      NumberedOn(x, name, upTo - 1) +
      (if OnGeometry(x, upTo - 1, name) && x.programs[upTo - 1].dmxBreak != 0 then {x.programs[upTo - 1].dmxBreak} else {})
  }

  ghost predicate OverwriteOn(x: Fixture, name: string, upTo: nat)
    requires Parsed(x) && upTo <= |x.programs|
  {
    upTo > 0 && (OverwriteOn(x, name, upTo - 1) || (OnGeometry(x, upTo - 1, name) && x.programs[upTo - 1].dmxBreak == 0))
  }

  ghost function Numbered(x: Fixture, routes: seq<Route>, reference: nat): set<int>
    requires Parsed(x)
  {
    if routes == [] then {} else
      var last := routes[|routes| - 1];
      Numbered(x, routes[..|routes| - 1], reference) +
      (if last.reference == Some(reference) then NumberedOn(x, last.name, |x.programs|) else {})
  }

  ghost predicate Overwritten(x: Fixture, routes: seq<Route>, reference: nat)
    requires Parsed(x)
  {
    routes != [] && (
      || Overwritten(x, routes[..|routes| - 1], reference)
      || (routes[|routes| - 1].reference == Some(reference) && OverwriteOn(x, routes[|routes| - 1].name, |x.programs|)))
  }

  function Get(table: map<nat, set<int>>, key: nat): set<int> {
    if key in table then table[key] else {}
  }

  method CollectBreaks(x: Fixture, routes: seq<Route>) returns (numbered: map<nat, set<int>>, overwritten: set<nat>)
    requires Parsed(x)
    ensures forall n: nat :: Get(numbered, n) == Numbered(x, routes, n)
    ensures forall n: nat :: n in overwritten <==> Overwritten(x, routes, n)
  {
    numbered, overwritten := map[], {};
    for r := 0 to |routes|
      invariant forall n: nat :: Get(numbered, n) == Numbered(x, routes[..r], n)
      invariant forall n: nat :: n in overwritten <==> Overwritten(x, routes[..r], n)
    {
      assert routes[..r + 1][..r] == routes[..r];
      if routes[r].reference.Some? {
        numbered, overwritten := CollectRoute(x, routes[r], numbered, overwritten);
      }
    }
    assert routes[..|routes|] == routes;
  }

  method CollectRoute(x: Fixture, route: Route, numbered0: map<nat, set<int>>, overwritten0: set<nat>)
    returns (numbered: map<nat, set<int>>, overwritten: set<nat>)
    requires Parsed(x) && route.reference.Some?
    ensures forall n: nat :: Get(numbered, n) ==
              Get(numbered0, n) + (if route.reference == Some(n) then NumberedOn(x, route.name, |x.programs|) else {})
    ensures forall n: nat :: n in overwritten <==>
              n in overwritten0 || (route.reference == Some(n) && OverwriteOn(x, route.name, |x.programs|))
  {
    numbered, overwritten := numbered0, overwritten0;
    var reference := route.reference.value;
    for p := 0 to |x.programs|
      invariant forall n: nat :: Get(numbered, n) ==
                  Get(numbered0, n) + (if reference == n then NumberedOn(x, route.name, p) else {})
      invariant forall n: nat :: n in overwritten <==>
                  n in overwritten0 || (reference == n && OverwriteOn(x, route.name, p))
    {
      var program := x.programs[p];
      if x.geometries[program.geometryId - 1].name == route.name {
        if program.dmxBreak == 0 {
          overwritten := overwritten + {reference};
        } else {
          numbered := numbered[reference := Get(numbered, reference) + {program.dmxBreak}];
        }
      }
    }
  }

  lemma {:induction false} ProgramIsCollected(x: Fixture, name: string, p: nat, upTo: nat)
    requires Parsed(x) && p < upTo <= |x.programs| && OnGeometry(x, p, name)
    ensures x.programs[p].dmxBreak != 0 ==> x.programs[p].dmxBreak in NumberedOn(x, name, upTo)
    ensures x.programs[p].dmxBreak == 0 ==> OverwriteOn(x, name, upTo)
  {
    if p < upTo - 1 {
      ProgramIsCollected(x, name, p, upTo - 1);
    }
  }

  lemma {:induction false} RouteIsCollected(x: Fixture, routes: seq<Route>, p: nat, r: nat)
    requires Parsed(x) && p < |x.programs| && r < |routes| && OnGeometry(x, p, routes[r].name)
    requires routes[r].reference.Some?
    ensures x.programs[p].dmxBreak != 0 ==> x.programs[p].dmxBreak in Numbered(x, routes, routes[r].reference.value)
    ensures x.programs[p].dmxBreak == 0 ==> Overwritten(x, routes, routes[r].reference.value)
  {
    if r == |routes| - 1 {
      ProgramIsCollected(x, routes[r].name, p, |x.programs|);
    } else {
      RouteIsCollected(x, routes[..|routes| - 1], p, r);
    }
  }

  /** Some program with this break is on a geometry that a route reaches through the reference. */
  ghost predicate Uses(x: Fixture, routes: seq<Route>, reference: nat, dmxBreak: int)
    requires Parsed(x)
  {
    exists p, r :: UsedBy(x, routes, reference, dmxBreak, p, r)
  }

  ghost predicate UsedBy(x: Fixture, routes: seq<Route>, reference: nat, dmxBreak: int, p: nat, r: nat)
    requires Parsed(x)
  {
    && p < |x.programs| && r < |routes| && routes[r].reference == Some(reference)
    && OnGeometry(x, p, routes[r].name) && x.programs[p].dmxBreak == dmxBreak
  }

  lemma {:induction false} NumberedIsUsed(x: Fixture, name: string, upTo: nat, b: int)
    requires Parsed(x) && upTo <= |x.programs|
    ensures b in NumberedOn(x, name, upTo) ==>
              b != 0 && exists p :: 0 <= p < upTo && OnGeometry(x, p, name) && x.programs[p].dmxBreak == b
    ensures OverwriteOn(x, name, upTo) ==>
              exists p :: 0 <= p < upTo && OnGeometry(x, p, name) && x.programs[p].dmxBreak == 0
  {
    if upTo > 0 {
      NumberedIsUsed(x, name, upTo - 1, b);
    }
  }

  lemma {:induction false} CollectedIsUsed(x: Fixture, routes: seq<Route>, reference: nat, b: int)
    requires Parsed(x)
    ensures b in Numbered(x, routes, reference) ==> b != 0 && Uses(x, routes, reference, b)
    ensures Overwritten(x, routes, reference) ==> Uses(x, routes, reference, 0)
  {
    if routes != [] {
      var init, name := routes[..|routes| - 1], routes[|routes| - 1].name;
      CollectedIsUsed(x, init, reference, b);
      NumberedIsUsed(x, name, |x.programs|, b);
      assert forall c, p, r :: UsedBy(x, init, reference, c, p, r) ==> UsedBy(x, routes, reference, c, p, r);
      if routes[|routes| - 1].reference == Some(reference) {
        assert forall p: nat :: p < |x.programs| && OnGeometry(x, p, name) ==>
          UsedBy(x, routes, reference, x.programs[p].dmxBreak, p, |routes| - 1);
      }
    }
  }

  /** The breaks collected for a reference are exactly those in use below it. */
  lemma CollectedExactly(x: Fixture, routes: seq<Route>, reference: nat, b: int)
    requires Parsed(x)
    ensures b in Numbered(x, routes, reference) <==> b != 0 && Uses(x, routes, reference, b)
    ensures Overwritten(x, routes, reference) <==> Uses(x, routes, reference, 0)
  {
    CollectedIsUsed(x, routes, reference, b);
    forall c, p, r | UsedBy(x, routes, reference, c, p, r)
      ensures c != 0 ==> c in Numbered(x, routes, reference)
      ensures c == 0 ==> Overwritten(x, routes, reference)
    {
      RouteIsCollected(x, routes, p, r);
    }
  }

  // ----- one copy -----

  function Rank(breaks: set<int>, b: int): nat {
    |set x | x in breaks && x < b|
  }

  lemma RankIsSmall(breaks: set<int>, b: int)
    requires b in breaks
    ensures Rank(breaks, b) < |breaks|
  {
    var below := set x | x in breaks && x < b;
    var others := breaks - below;
    assert b in others && breaks == below + others;
  }

  /** The children serve the numbered breaks in ascending order, no two breaks share a child. */
  lemma RankIsMonotone(breaks: set<int>, a: int, b: int)
    requires a in breaks && b in breaks && a < b
    ensures Rank(breaks, a) < Rank(breaks, b) < |breaks|
  {
    RankIsSmall(breaks, b);
    var lower, upper := set x | x in breaks && x < a, set x | x in breaks && x < b;
    var others := upper - lower;
    assert a in others && upper == lower + others;
  }

  /** A Break attribute: missing means one; otherwise a complete number from one to the limit. */
  function FieldValue(f: Field, limit: int): Option<int> {
    match f
    case Missing => Some(1)
    case Number(v) => if 1 <= v <= limit then Some(v) else None
    case Malformed => None
  }

  predicate Fits(offsets: seq<int>, shift: int) {
    forall k :: 0 <= k < |offsets| ==> offsets[k] + shift <= 512
  }

  function Shifted(offsets: seq<int>, shift: int): seq<int> {
    seq(|offsets|, k requires 0 <= k < |offsets| => offsets[k] + shift)
  }

  /** The Break child that serves a program: children follow the sorted numbered breaks, Overwrite comes last. */
  function ChildIndex(program: Program, numbered: set<int>): nat {
    if program.dmxBreak > 0 then Rank(numbered, program.dmxBreak) else |numbered|
  }

  /** A program seen through a reference, or nothing when the reference's breaks do not serve it. */
  function Adjusted(program: Program, breaks: seq<Break>, numbered: set<int>, overwritten: bool): Option<Program> {
    var index := ChildIndex(program, numbered);
    if |breaks| != |numbered| + (if overwritten then 1 else 0) || index >= |breaks| then None else
      var target, offset := FieldValue(breaks[index].dmxBreak, 255), FieldValue(breaks[index].dmxOffset, 512);
      if target.None? || offset.None? then None
      else if program.dmxBreak != 0 && target.value != program.dmxBreak then None
      else if !Fits(program.offsets, offset.value - 1) then None
      else Some(program.(dmxBreak := target.value, offsets := Shifted(program.offsets, offset.value - 1)))
  }

  method Adjust(program: Program, breaks: seq<Break>, numbered: set<int>, overwritten: bool)
    returns (copy: Option<Program>)
    requires program.dmxBreak >= 0
    requires program.dmxBreak > 0 ==> program.dmxBreak in numbered
    requires program.dmxBreak == 0 ==> overwritten
    ensures copy == Adjusted(program, breaks, numbered, overwritten)
  {
    if |breaks| != |numbered| + (if overwritten then 1 else 0) {
      return None;
    }
    var index := |numbered|;
    if program.dmxBreak > 0 {
      RankIsSmall(numbered, program.dmxBreak);
      index := Rank(numbered, program.dmxBreak);
    }
    var entry := breaks[index];
    var target, offset := FieldValue(entry.dmxBreak, 255), FieldValue(entry.dmxOffset, 512);
    if target.None? || offset.None? {
      return None;
    }
    var adjusted := program;
    if program.dmxBreak == 0 {
      adjusted := adjusted.(dmxBreak := target.value);
    } else if target.value != program.dmxBreak {
      return None;
    }
    var bytes: seq<int> := [];
    for k := 0 to |program.offsets|
      invariant |bytes| == k
      invariant forall j :: 0 <= j < k ==> bytes[j] == program.offsets[j] + (offset.value - 1) <= 512
    {
      var byte := program.offsets[k] + (offset.value - 1);
      if byte > 512 {
        return None;
      }
      bytes := bytes + [byte];
    }
    assert bytes == Shifted(program.offsets, offset.value - 1);
    return Some(adjusted.(offsets := bytes));
  }

  /** The copy of program `p` along route `r`, before ids are assigned. */
  ghost function Copy(f: Forest, x: Fixture, routes: seq<Route>, p: nat, r: nat): Option<Program>
    requires Parsed(x) && RoutesOk(f, routes) && p < |x.programs| && r < |routes|
  {
    var program, route := x.programs[p], routes[r];
    if route.depth > 1 then None
    else if route.reference.None? then if program.dmxBreak == 0 then None else Some(program)
    else
      assert RouteOk(f, route);
      var n := route.reference.value;
      Adjusted(program, f.nodes[n].breaks, Numbered(x, routes, n), Overwritten(x, routes, n))
  }

  /** One-based, repetition-free declared offsets inside a universe. */
  ghost predicate Addressable(offsets: seq<int>) {
    Distinct(offsets) && forall k :: 0 <= k < |offsets| ==> 1 <= offsets[k] <= 512
  }

  /** The Break child lends its number, and its offset moves every byte by one less; both default to one. */
  ghost predicate Lends(child: Break, program: Program, copy: Program) {
    var moved := if child.dmxOffset.Number? then child.dmxOffset.value - 1 else 0;
    && |copy.offsets| == |program.offsets|
    && (forall k :: 0 <= k < |program.offsets| ==> copy.offsets[k] == program.offsets[k] + moved)
    && copy.dmxBreak == (if child.dmxBreak.Number? then child.dmxBreak.value else 1)
  }

  /** The Break child can serve the program: in range, of the program's own number, no byte beyond the universe. */
  ghost predicate CanLend(child: Break, program: Program) {
    && !child.dmxBreak.Malformed? && !child.dmxOffset.Malformed?
    && (child.dmxBreak.Number? ==> 1 <= child.dmxBreak.value <= 255)
    && (child.dmxOffset.Number? ==> 1 <= child.dmxOffset.value <= 512)
    && (program.dmxBreak == 0 || program.dmxBreak == if child.dmxBreak.Number? then child.dmxBreak.value else 1)
    && forall k :: 0 <= k < |program.offsets| ==>
         program.offsets[k] + (if child.dmxOffset.Number? then child.dmxOffset.value - 1 else 0) <= 512
  }

  /** Position of the Break child for a program: numbered breaks in ascending order, the one for Overwrite after them. */
  ghost predicate ServedAt(x: Fixture, routes: seq<Route>, reference: nat, program: Program, index: nat)
    requires Parsed(x)
  {
    var numbered := Numbered(x, routes, reference);
    index == if program.dmxBreak > 0 then |set b | b in numbered && b < program.dmxBreak| else |numbered|
  }

  /**
    Outside references a copy is its program; through one it is what the Break child at the program's place makes of it.
    There is no copy exactly for Overwrite outside references, below nested references, when the reference does not have
    one Break child per break in use, and when the child cannot serve the program.
  */
  lemma CopyExactly(f: Forest, x: Fixture, routes: seq<Route>, p: nat, r: nat, index: nat)
    requires Parsed(x) && RoutesOk(f, routes) && p < |x.programs| && r < |routes|
    requires OnGeometry(x, p, routes[r].name)
    requires routes[r].reference.Some? ==> ServedAt(x, routes, routes[r].reference.value, x.programs[p], index)
    ensures var program, route, copy := x.programs[p], routes[r], Copy(f, x, routes, p, r);
            if route.reference.None? then copy == if program.dmxBreak != 0 then Some(program) else None
            else
              assert RouteOk(f, route);
              var n, breaks := route.reference.value, f.nodes[route.reference.value].breaks;
              && (copy.Some? <==>
                    && route.depth <= 1 && index < |breaks| && CanLend(breaks[index], program)
                    && |breaks| == |Numbered(x, routes, n)| + (if Uses(x, routes, n, 0) then 1 else 0))
              && (copy.Some? ==>
                    && Lends(breaks[index], program, copy.value)
                    && copy.value == program.(dmxBreak := copy.value.dmxBreak, offsets := copy.value.offsets))
  {
    assert RouteOk(f, routes[r]);
    assert ParsedProgram(x, x.programs[p]);
    if routes[r].reference.Some? {
      CollectedExactly(x, routes, routes[r].reference.value, 0);
    }
  }

  /** Copies keep their byte order, stay addressable, and carry a real break: their own, or the reference's for Overwrite. */
  lemma CopyMoves(f: Forest, x: Fixture, routes: seq<Route>, p: nat, r: nat)
    requires Parsed(x) && RoutesOk(f, routes) && p < |x.programs| && r < |routes|
    requires Copy(f, x, routes, p, r).Some?
    ensures var program, copy := x.programs[p], Copy(f, x, routes, p, r).value;
            && copy.dmxBreak >= 1 && (program.dmxBreak != 0 ==> copy.dmxBreak == program.dmxBreak)
            && (exists shift :: 0 <= shift < 512 && copy.offsets == Shifted(program.offsets, shift))
            && (Addressable(program.offsets) ==> Addressable(copy.offsets))
            && copy.master == program.master
  {
    assert RouteOk(f, routes[r]);
    assert ParsedProgram(x, x.programs[p]);
    var program, copy := x.programs[p], Copy(f, x, routes, p, r).value;
    if routes[r].reference.None? {
      assert copy.offsets == Shifted(program.offsets, 0);
    } else {
      var n := routes[r].reference.value;
      var breaks := f.nodes[n].breaks;
      var offset := FieldValue(breaks[ChildIndex(program, Numbered(x, routes, n))].dmxOffset, 512).value;
      assert copy.offsets == Shifted(program.offsets, offset - 1);
    }
  }

  // ----- all copies -----

  /** The routes of one program among the first `upTo`, as (program, route) pairs. */
  ghost function RoutesOf(x: Fixture, routes: seq<Route>, p: nat, upTo: nat): seq<(nat, nat)>
    requires Parsed(x) && p < |x.programs| && upTo <= |routes|
  {
    if upTo == 0 then [] else
      RoutesOf(x, routes, p, upTo - 1) + (if OnGeometry(x, p, routes[upTo - 1].name) then [(p, upTo - 1)] else [])
  }

  /** Every program with every route of its geometry, programs first. */
  ghost function Placements(x: Fixture, routes: seq<Route>, upTo: nat): seq<(nat, nat)>
    requires Parsed(x) && upTo <= |x.programs|
  {
    if upTo == 0 then [] else Placements(x, routes, upTo - 1) + RoutesOf(x, routes, upTo - 1, |routes|)
  }

  lemma {:induction false} RoutesOfExact(x: Fixture, routes: seq<Route>, p: nat, upTo: nat, q: nat, r: nat)
    requires Parsed(x) && p < |x.programs| && upTo <= |routes|
    ensures (q, r) in RoutesOf(x, routes, p, upTo) <==> q == p && r < upTo && OnGeometry(x, p, routes[r].name)
  {
    if upTo > 0 {
      RoutesOfExact(x, routes, p, upTo - 1, q, r);
    }
  }

  ghost predicate IsPlacement(x: Fixture, routes: seq<Route>, upTo: nat, p: nat, r: nat)
    requires Parsed(x) && upTo <= |x.programs|
  {
    p < upTo && r < |routes| && OnGeometry(x, p, routes[r].name)
  }

  lemma {:induction false} PlacementIsRoute(x: Fixture, routes: seq<Route>, upTo: nat, k: nat)
    requires Parsed(x) && upTo <= |x.programs| && k < |Placements(x, routes, upTo)|
    ensures var pair := Placements(x, routes, upTo)[k]; IsPlacement(x, routes, upTo, pair.0, pair.1)
    decreases upTo
  {
    var earlier := |Placements(x, routes, upTo - 1)|;
    if k < earlier {
      PlacementIsRoute(x, routes, upTo - 1, k);
    } else {
      var pair := RoutesOf(x, routes, upTo - 1, |routes|)[k - earlier];
      RoutesOfExact(x, routes, upTo - 1, |routes|, pair.0, pair.1);
    }
  }

  lemma {:induction false} RouteIsPlacement(x: Fixture, routes: seq<Route>, upTo: nat, p: nat, r: nat) returns (k: nat)
    requires Parsed(x) && upTo <= |x.programs| && IsPlacement(x, routes, upTo, p, r)
    ensures k < |Placements(x, routes, upTo)| && Placements(x, routes, upTo)[k] == (p, r)
    decreases upTo
  {
    if p < upTo - 1 {
      k := RouteIsPlacement(x, routes, upTo - 1, p, r);
    } else {
      var routesOf := RoutesOf(x, routes, p, |routes|);
      RoutesOfExact(x, routes, p, |routes|, p, r);
      var j :| 0 <= j < |routesOf| && routesOf[j] == (p, r);
      k := |Placements(x, routes, p)| + j;
    }
  }

  /** The copies are exactly the pairs of a program and a route of its geometry. */
  lemma PlacementsExact(x: Fixture, routes: seq<Route>, upTo: nat, p: nat, r: nat)
    requires Parsed(x) && upTo <= |x.programs|
    ensures (p, r) in Placements(x, routes, upTo) <==> IsPlacement(x, routes, upTo, p, r)
  {
    if IsPlacement(x, routes, upTo, p, r) {
      var k := RouteIsPlacement(x, routes, upTo, p, r);
    } else if (p, r) in Placements(x, routes, upTo) {
      var k :| 0 <= k < |Placements(x, routes, upTo)| && Placements(x, routes, upTo)[k] == (p, r);
      PlacementIsRoute(x, routes, upTo, k);
    }
  }

  lemma DistinctConcat(a: seq<(nat, nat)>, b: seq<(nat, nat)>)
    requires Distinct(a) && Distinct(b) && forall i, j :: 0 <= i < |a| && 0 <= j < |b| ==> a[i] != b[j]
    ensures Distinct(a + b)
  {
  }

  lemma {:induction false} RoutesOfOnce(x: Fixture, routes: seq<Route>, p: nat, upTo: nat)
    requires Parsed(x) && p < |x.programs| && upTo <= |routes|
    ensures Distinct(RoutesOf(x, routes, p, upTo))
  {
    if upTo > 0 {
      RoutesOfOnce(x, routes, p, upTo - 1);
      RoutesOfExact(x, routes, p, upTo - 1, p, upTo - 1);
    }
  }

  lemma ProgramsAreApart(x: Fixture, routes: seq<Route>, p: nat, i: nat, j: nat)
    requires Parsed(x) && p < |x.programs|
    requires i < |Placements(x, routes, p)| && j < |RoutesOf(x, routes, p, |routes|)|
    ensures Placements(x, routes, p)[i] != RoutesOf(x, routes, p, |routes|)[j]
  {
    var a, b := Placements(x, routes, p)[i], RoutesOf(x, routes, p, |routes|)[j];
    assert (a.0, a.1) in Placements(x, routes, p) && (b.0, b.1) in RoutesOf(x, routes, p, |routes|);
    PlacementsExact(x, routes, p, a.0, a.1);
    RoutesOfExact(x, routes, p, |routes|, b.0, b.1);
  }

  /** Each pair of a program and a route of its geometry is copied once. */
  lemma {:induction false} PlacementsOnce(x: Fixture, routes: seq<Route>, upTo: nat)
    requires Parsed(x) && upTo <= |x.programs|
    ensures Distinct(Placements(x, routes, upTo))
  {
    if upTo > 0 {
      var earlier, more := Placements(x, routes, upTo - 1), RoutesOf(x, routes, upTo - 1, |routes|);
      PlacementsOnce(x, routes, upTo - 1);
      RoutesOfOnce(x, routes, upTo - 1, |routes|);
      forall i, j | 0 <= i < |earlier| && 0 <= j < |more| ensures earlier[i] != more[j] {
        ProgramsAreApart(x, routes, upTo - 1, i, j);
      }
      DistinctConcat(earlier, more);
    }
  }
}
