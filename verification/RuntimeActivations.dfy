/**
  From parser ids to runtime ids: adding the source-only programs that ModeMaster dependencies need, then rewriting
  every master reference of the fixture to the runtime program that carries it.
*/
module RuntimeActivations {
  import opened Prelude
  import opened ModeMasterGraph

  /** A parsed channel function; `bytes` is how many byte sources its channel has. */
  datatype ChannelProgram = ChannelProgram(id: int, bytes: nat, master: Condition)
  datatype SourceProgram = SourceProgram(programId: int, parserId: int, bytes: nat, activation: Condition)

  predicate HasMaster(c: Condition) {
    !c.kind.NoMaster? && !c.kind.Invalid?
  }

  function FindProgram(fixture: seq<ChannelProgram>, id: int): (r: Option<ChannelProgram>)
    ensures r.Some? ==> r.value in fixture && r.value.id == id
    ensures r.None? ==> forall p :: p in fixture ==> p.id != id
  {
    if fixture == [] then None else if fixture[0].id == id then Some(fixture[0]) else FindProgram(fixture[1..], id)
  }

  /** The master can be compiled: its id is positive, the fixture type has it, and it has byte sources. */
  predicate Compilable(fixture: seq<ChannelProgram>, id: int) {
    id > 0 && FindProgram(fixture, id).Some? && FindProgram(fixture, id).value.bytes > 0
  }

  ghost predicate Carried(programs: seq<SourceProgram>, id: int) {
    exists j :: 0 <= j < |programs| && programs[j].parserId == id
  }

  predicate WantsMaster(fixture: seq<ChannelProgram>, c: Condition) {
    HasMaster(c) && Compilable(fixture, c.masterProgramId)
  }

  /** Every compilable master of a program is itself carried. */
  ghost predicate Closed(fixture: seq<ChannelProgram>, programs: seq<SourceProgram>) {
    forall i :: 0 <= i < |programs| && WantsMaster(fixture, programs[i].activation) ==>
      Carried(programs, programs[i].activation.masterProgramId)
  }

  /** Programs carry the activation of the parsed function they come from. */
  ghost predicate Faithful(fixture: seq<ChannelProgram>, programs: seq<SourceProgram>) {
    forall i :: 0 <= i < |programs| && programs[i].parserId > 0 && FindProgram(fixture, programs[i].parserId).Some? ==>
      programs[i].activation == FindProgram(fixture, programs[i].parserId).value.master
  }

  ghost predicate UniqueProgramIds(programs: seq<SourceProgram>) {
    forall i, j :: 0 <= i < j < |programs| ==> programs[i].programId != programs[j].programId
  }

  ghost predicate IdsBelow(programs: seq<SourceProgram>, next: int) {
    forall i :: 0 <= i < |programs| ==> programs[i].programId < next
  }

  /** A source-only program: compiled from its parsed function, and the master of some program of the fixture. */
  ghost predicate Needed(fixture: seq<ChannelProgram>, programs: seq<SourceProgram>, p: SourceProgram) {
    && Compilable(fixture, p.parserId)
    && p.bytes == FindProgram(fixture, p.parserId).value.bytes
    && p.activation == FindProgram(fixture, p.parserId).value.master
    && exists i :: 0 <= i < |programs| && HasMaster(programs[i].activation) &&
         programs[i].activation.masterProgramId == p.parserId
  }

  ghost predicate AllNeeded(fixture: seq<ChannelProgram>, programs: seq<SourceProgram>, from: nat) {
    forall i :: from <= i < |programs| ==> Needed(fixture, programs, programs[i])
  }

  ghost function ParserIds(programs: seq<SourceProgram>): set<int> {
    set i | 0 <= i < |programs| && programs[i].parserId > 0 :: programs[i].parserId
  }

  ghost function FixtureIds(fixture: seq<ChannelProgram>): set<int> {
    set i | 0 <= i < |fixture| :: fixture[i].id
  }

  lemma CarriedById(programs: seq<SourceProgram>, id: int)
    requires id > 0
    ensures id in ParserIds(programs) <==> Carried(programs, id)
  {
  }

  lemma NeededGrows(fixture: seq<ChannelProgram>, programs: seq<SourceProgram>, x: SourceProgram, from: nat)
    requires AllNeeded(fixture, programs, from) && Needed(fixture, programs, x)
    ensures AllNeeded(fixture, programs + [x], from)
  {
    var longer := programs + [x];
    forall i | from <= i < |longer| ensures Needed(fixture, longer, longer[i]) {
      var k :| 0 <= k < |programs| && HasMaster(programs[k].activation) &&
        programs[k].activation.masterProgramId == longer[i].parserId;
      assert longer[k] == programs[k];
    }
  }

  /** No added program repeats a parser id that came before it. */
  ghost predicate AddedOnce(programs: seq<SourceProgram>, from: nat) {
    forall i :: from <= i < |programs| ==> !Carried(programs[..i], programs[i].parserId)
  }

  /** What every round of the closure keeps; the fixture's programs begin at `start`, the added ones `before` later. */
  ghost predicate Progress(fixture: seq<ChannelProgram>, all: seq<SourceProgram>, start: nat, before: nat, next: int,
                           compiled: set<int>)
  {
    && start + before <= |all| && compiled == ParserIds(all[start..]) && Faithful(fixture, all[start..])
    && UniqueProgramIds(all) && IdsBelow(all, next)
    && AllNeeded(fixture, all[start..], before) && AddedOnce(all[start..], before)
  }

  /** The masters wanted by the programs up to `upTo` are compiled. */
  ghost predicate Handled(fixture: seq<ChannelProgram>, all: seq<SourceProgram>, start: nat, upTo: nat, ids: set<int>) {
    upTo <= |all| && forall i :: start <= i < upTo && WantsMaster(fixture, all[i].activation) ==>
      all[i].activation.masterProgramId in ids
  }

  lemma HandledGrows(fixture: seq<ChannelProgram>, before: seq<SourceProgram>, after: seq<SourceProgram>, start: nat,
                     index: nat, ids: set<int>, more: set<int>)
    requires before <= after && ids <= more && index < |before| && Handled(fixture, before, start, index, ids)
    requires WantsMaster(fixture, before[index].activation) ==> before[index].activation.masterProgramId in more
    ensures Handled(fixture, after, start, index + 1, more)
  {
    assert forall i :: 0 <= i < |before| ==> after[i] == before[i];
  }

  class RuntimeScene {
    var sourcePrograms: seq<SourceProgram>
    var nextProgramId: int

    /** The programs of the fixture being compiled. */
    ghost function Fixture(start: nat): seq<SourceProgram>
      reads this
      requires start <= |sourcePrograms|
    {
      sourcePrograms[start..]
    }

    /** Compiles the master of one program unless it is there already or cannot be compiled. */
    method AppendMaster(fixture: seq<ChannelProgram>, start: nat, index: nat, compiled: set<int>, ghost before: nat)
      returns (grown: set<int>, added: bool)
      requires Progress(fixture, sourcePrograms, start, before, nextProgramId, compiled)
      requires start <= index < |sourcePrograms|
      modifies this
      ensures Progress(fixture, sourcePrograms, start, before, nextProgramId, grown)
      ensures old(sourcePrograms) <= sourcePrograms && compiled <= grown
      ensures !added ==> sourcePrograms == old(sourcePrograms) && grown == compiled
      ensures added ==> FixtureIds(fixture) - grown < FixtureIds(fixture) - compiled
      ensures WantsMaster(fixture, sourcePrograms[index].activation) ==>
                sourcePrograms[index].activation.masterProgramId in grown
    {
      var activation := sourcePrograms[index].activation;
      if activation.kind.NoMaster? || activation.kind.Invalid? || activation.masterProgramId <= 0 ||
         activation.masterProgramId in compiled {
        return compiled, false;
      }
      var master := FindProgram(fixture, activation.masterProgramId);
      if master.None? {
        return compiled, false;
      }
      var programId := nextProgramId;
      nextProgramId := nextProgramId + 1;
      if master.value.bytes == 0 {
        return compiled, false;
      }
      var source := SourceProgram(programId, master.value.id, master.value.bytes, master.value.master);
      AppendOne(fixture, sourcePrograms, start, index, source, before);
      sourcePrograms := sourcePrograms + [source];
      return compiled + {master.value.id}, true;
    }

    /** One pass over the programs present when it begins. */
    method AppendPass(fixture: seq<ChannelProgram>, start: nat, compiled: set<int>, ghost before: nat)
      returns (grown: set<int>, added: bool)
      requires Progress(fixture, sourcePrograms, start, before, nextProgramId, compiled)
      modifies this
      ensures Progress(fixture, sourcePrograms, start, before, nextProgramId, grown)
      ensures old(sourcePrograms) <= sourcePrograms
      ensures !added ==> grown == compiled && Closed(fixture, sourcePrograms[start..])
      ensures added ==> FixtureIds(fixture) - grown < FixtureIds(fixture) - compiled
    {
      grown := compiled;
      added := false;
      var end := |sourcePrograms|;
      for index := start to end
        invariant old(sourcePrograms) <= sourcePrograms && compiled <= grown
        invariant Progress(fixture, sourcePrograms, start, before, nextProgramId, grown)
        invariant !added ==> grown == compiled && |sourcePrograms| == end
        invariant added ==> FixtureIds(fixture) - grown < FixtureIds(fixture) - compiled
        invariant Handled(fixture, sourcePrograms, start, index, grown)
      {
        ghost var earlier, ids := sourcePrograms, grown;
        var appended;
        grown, appended := AppendMaster(fixture, start, index, grown, before);
        HandledGrows(fixture, earlier, sourcePrograms, start, index, ids, grown);
        added := added || appended;
      }
      if !added {
        ClosedByIds(fixture, sourcePrograms, start);
      }
    }

    method AppendActivationMasterSources(fixture: seq<ChannelProgram>, start: nat)
      requires start <= |sourcePrograms| && Faithful(fixture, Fixture(start))
      requires UniqueProgramIds(sourcePrograms) && IdsBelow(sourcePrograms, nextProgramId)
      modifies this
      ensures old(sourcePrograms) <= sourcePrograms
      ensures Closed(fixture, Fixture(start)) && Faithful(fixture, Fixture(start))
      ensures UniqueProgramIds(sourcePrograms) && IdsBelow(sourcePrograms, nextProgramId)
      ensures AllNeeded(fixture, Fixture(start), |old(sourcePrograms)| - start)
      ensures AddedOnce(Fixture(start), |old(sourcePrograms)| - start)
    {
      var compiled: set<int> := set i | start <= i < |sourcePrograms| && sourcePrograms[i].parserId > 0 ::
        sourcePrograms[i].parserId;
      ghost var before := |sourcePrograms| - start;
      assert compiled == ParserIds(Fixture(start));
      var added := true;
      while added
        invariant old(sourcePrograms) <= sourcePrograms
        invariant Progress(fixture, sourcePrograms, start, before, nextProgramId, compiled)
        invariant !added ==> Closed(fixture, sourcePrograms[start..])
        decreases FixtureIds(fixture) - compiled, added
      {
        compiled, added := AppendPass(fixture, start, compiled, before);
      }
    }

    /** The runtime id that carries each parser id of the fixture; the first program with an id wins. */
    method IndexFixture(start: nat) returns (runtimeByParser: map<int, int>)
      requires start <= |sourcePrograms|
      ensures RuntimeIds(runtimeByParser, Fixture(start))
    {
      runtimeByParser := map[];
      ghost var programs := Fixture(start);
      for index := start to |sourcePrograms|
        invariant RuntimeIds(runtimeByParser, programs[..index - start])
      {
        var program := sourcePrograms[index];
        RuntimeIdsStep(runtimeByParser, programs, index - start);
        if program.parserId > 0 && program.parserId !in runtimeByParser {
          runtimeByParser := runtimeByParser[program.parserId := program.programId];
        }
      }
      assert programs[..|sourcePrograms| - start] == programs;
    }

    method FinalizeFixtureActivations(start: nat)
      requires start <= |sourcePrograms|
      modifies this`sourcePrograms
      ensures |sourcePrograms| == |old(sourcePrograms)| && sourcePrograms[..start] == old(sourcePrograms)[..start]
      ensures Fixture(start) == Finalized(old(Fixture(start)))
    {
      var runtimeByParser := IndexFixture(start);
      ghost var programs := Fixture(start);
      for index := start to |sourcePrograms|
        invariant |sourcePrograms| == |old(sourcePrograms)|
        invariant forall i :: 0 <= i < start ==> sourcePrograms[i] == old(sourcePrograms)[i]
        invariant forall i :: start <= i < index ==> sourcePrograms[i] == Finalized(programs)[i - start]
        invariant forall i :: index <= i < |sourcePrograms| ==> sourcePrograms[i] == programs[i - start]
      {
        var program := sourcePrograms[index];
        assert Finalized(programs)[index - start] == FinalizedOne(programs, program);
        if program.activation.kind.NoMaster? || program.activation.kind.Invalid? {
          continue;
        }
        var master := program.activation.masterProgramId;
        if master !in runtimeByParser {
          sourcePrograms := sourcePrograms[index := program.(activation := program.activation.(valid := false))];
          continue;
        }
        sourcePrograms := sourcePrograms[index :=
          program.(activation := program.activation.(masterProgramId := runtimeByParser[master]))];
      }
      assert Fixture(start) == Finalized(programs);
    }
  }

  ghost predicate RuntimeIds(table: map<int, int>, programs: seq<SourceProgram>) {
    && (forall id :: id in table <==> FirstCarrier(programs, id).Some?)
    && forall id :: id in table ==> table[id] == programs[FirstCarrier(programs, id).value].programId
  }

  lemma RuntimeIdsStep(table: map<int, int>, programs: seq<SourceProgram>, k: nat)
    requires k < |programs| && RuntimeIds(table, programs[..k])
    ensures var p := programs[k];
            RuntimeIds(if p.parserId > 0 && p.parserId !in table then table[p.parserId := p.programId] else table,
              programs[..k + 1])
  {
    assert programs[..k + 1][..k] == programs[..k];
  }

  lemma AppendOne(fixture: seq<ChannelProgram>, all: seq<SourceProgram>, start: nat, index: nat, x: SourceProgram,
                  before: nat)
    requires start <= index < |all| && before <= |all| - start
    requires Faithful(fixture, all[start..]) && UniqueProgramIds(all) && IdsBelow(all, x.programId)
    requires AllNeeded(fixture, all[start..], before)
    requires HasMaster(all[index].activation) && all[index].activation.masterProgramId == x.parserId
    requires Compilable(fixture, x.parserId) && x.parserId !in ParserIds(all[start..])
    requires x.bytes == FindProgram(fixture, x.parserId).value.bytes
    requires x.activation == FindProgram(fixture, x.parserId).value.master
    requires AddedOnce(all[start..], before)
    ensures var longer := all + [x];
            && Faithful(fixture, longer[start..]) && UniqueProgramIds(longer) && IdsBelow(longer, x.programId + 1)
            && AllNeeded(fixture, longer[start..], before)
            && ParserIds(longer[start..]) == ParserIds(all[start..]) + {x.parserId}
            && x.parserId in FixtureIds(fixture) && AddedOnce(longer[start..], before)
  {
    var fix, longer := all[start..], (all + [x])[start..];
    assert longer == fix + [x];
    assert fix[index - start] == all[index];
    NeededGrows(fixture, fix, x, before);
    CarriedById(fix, x.parserId);
    ParserIdsGrow(fix, x);
    AddedOnceGrows(fix, x, before);
    var master := FindProgram(fixture, x.parserId).value;
    var k :| 0 <= k < |fixture| && fixture[k] == master;
  }

  lemma ParserIdsGrow(fix: seq<SourceProgram>, x: SourceProgram)
    requires x.parserId > 0
    ensures ParserIds(fix + [x]) == ParserIds(fix) + {x.parserId}
  {
    var longer := fix + [x];
    assert longer[|fix|] == x;
    forall id | id in ParserIds(fix) ensures id in ParserIds(longer) {
      var i :| 0 <= i < |fix| && fix[i].parserId > 0 && fix[i].parserId == id;
      assert longer[i] == fix[i];
    }
  }

  lemma AddedOnceGrows(fix: seq<SourceProgram>, x: SourceProgram, before: nat)
    requires before <= |fix| && AddedOnce(fix, before) && !Carried(fix, x.parserId)
    ensures AddedOnce(fix + [x], before)
  {
    var longer := fix + [x];
    forall i | before <= i < |longer| ensures !Carried(longer[..i], longer[i].parserId) {
      if i < |fix| {
        assert longer[..i] == fix[..i];
      } else {
        assert longer[..i] == fix;
      }
    }
  }

  lemma ClosedByIds(fixture: seq<ChannelProgram>, all: seq<SourceProgram>, start: nat)
    requires start <= |all|
    requires forall i :: start <= i < |all| && WantsMaster(fixture, all[i].activation) ==>
               all[i].activation.masterProgramId in ParserIds(all[start..])
    ensures Closed(fixture, all[start..])
  {
    var fix := all[start..];
    forall i | 0 <= i < |fix| && WantsMaster(fixture, fix[i].activation)
      ensures Carried(fix, fix[i].activation.masterProgramId)
    {
      assert fix[i] == all[start + i];
      CarriedById(fix, fix[i].activation.masterProgramId);
    }
  }

  /** The first program compiled from a parser id; later ones of the same id do not replace it. */
  ghost function FirstCarrier(programs: seq<SourceProgram>, id: int): (r: Option<nat>)
    ensures r.Some? ==> r.value < |programs| && programs[r.value].parserId == id && id > 0
    ensures r.None? ==> id <= 0 || !Carried(programs, id)
  {
    if programs == [] then None else
      var last := |programs| - 1;
      var earlier := FirstCarrier(programs[..last], id);
      assert earlier.None? && id > 0 && programs[last].parserId != id ==> !Carried(programs, id) by {
        if earlier.None? && id > 0 && programs[last].parserId != id {
          forall j | 0 <= j < |programs| ensures programs[j].parserId != id {
            assert j < last ==> programs[..last][j] == programs[j];
          }
        }
      }
      if earlier.Some? then earlier else if id > 0 && programs[last].parserId == id then Some(last) else None
  }

  ghost function FinalizedOne(programs: seq<SourceProgram>, p: SourceProgram): SourceProgram {
    if !HasMaster(p.activation) then p else
      var carrier := FirstCarrier(programs, p.activation.masterProgramId);
      if carrier.None? then p.(activation := p.activation.(valid := false))
      else p.(activation := p.activation.(masterProgramId := programs[carrier.value].programId))
  }

  ghost function Finalized(programs: seq<SourceProgram>): (r: seq<SourceProgram>)
    ensures |r| == |programs|
    ensures forall i :: 0 <= i < |programs| ==> r[i] == FinalizedOne(programs, programs[i])
  {
    seq(|programs|, i requires 0 <= i < |programs| => FinalizedOne(programs, programs[i]))
  }

  // ----- following masters -----

  /** Every parser id that is carried comes from a parsed function. */
  ghost predicate Parsed(fixture: seq<ChannelProgram>, programs: seq<SourceProgram>) {
    forall i :: 0 <= i < |programs| && programs[i].parserId > 0 ==> FindProgram(fixture, programs[i].parserId).Some?
  }

  /** A master that the fixture already carries or that can be compiled for it. */
  ghost predicate Served(fixture: seq<ChannelProgram>, programs: seq<SourceProgram>, id: int) {
    id > 0 && (Compilable(fixture, id) || Carried(programs, id))
  }

  /** The master of a parsed function, unless its link is invalid or nothing can carry it. */
  ghost function GoodMaster(fixture: seq<ChannelProgram>, programs: seq<SourceProgram>, id: int): Option<int> {
    var p := FindProgram(fixture, id);
    if p.Some? && HasMaster(p.value.master) && p.value.master.valid && Served(fixture, programs, p.value.master.masterProgramId)
    then Some(p.value.master.masterProgramId)
    else None
  }

  ghost function GoodWalk(fixture: seq<ChannelProgram>, programs: seq<SourceProgram>, id: int, n: nat): Option<int>
    decreases n
  {
    if n == 0 then Some(id)
    else if GoodMaster(fixture, programs, id).None? then None
    else GoodWalk(fixture, programs, GoodMaster(fixture, programs, id).value, n - 1)
  }

  function IndexOfProgram(programs: seq<SourceProgram>, programId: int): (r: Option<nat>)
    ensures r.Some? ==> r.value < |programs| && programs[r.value].programId == programId
    ensures r.None? ==> forall i :: 0 <= i < |programs| ==> programs[i].programId != programId
  {
    if programs == [] then None
    else if programs[|programs| - 1].programId == programId then Some(|programs| - 1)
    else IndexOfProgram(programs[..|programs| - 1], programId)
  }

  /** The fixture's program that a finalized activation names. */
  function RuntimeMaster(programs: seq<SourceProgram>, i: nat): Option<nat>
    requires i < |programs|
  {
    if HasMaster(programs[i].activation) then IndexOfProgram(programs, programs[i].activation.masterProgramId) else None
  }

  /** The program that a valid finalized activation names; an invalid one is not followed. */
  function LiveMaster(programs: seq<SourceProgram>, i: nat): (r: Option<nat>)
    requires i < |programs|
    ensures r.Some? ==> r.value < |programs|
  {
    if programs[i].activation.valid then RuntimeMaster(programs, i) else None
  }

  function LiveWalk(programs: seq<SourceProgram>, i: nat, n: nat): (r: Option<nat>)
    requires i < |programs|
    ensures r.Some? ==> r.value < |programs|
    decreases n
  {
    if n == 0 then Some(i)
    else if LiveMaster(programs, i).None? then None
    else LiveWalk(programs, LiveMaster(programs, i).value, n - 1)
  }

  /** A finalized reference names the fixture's program compiled from the original master, or is marked invalid. */
  lemma FinalizedReference(programs: seq<SourceProgram>, i: nat)
    requires UniqueProgramIds(programs) && i < |programs| && HasMaster(programs[i].activation)
    ensures var master, after := programs[i].activation.masterProgramId, Finalized(programs);
            if master > 0 && Carried(programs, master) then
              && RuntimeMaster(after, i).Some? && after[RuntimeMaster(after, i).value].parserId == master
              && after[i].activation.valid == programs[i].activation.valid
            else !after[i].activation.valid
  {
    var master, after := programs[i].activation.masterProgramId, Finalized(programs);
    var carrier := FirstCarrier(programs, master);
    if master > 0 && Carried(programs, master) {
      assert after[carrier.value].programId == after[i].activation.masterProgramId;
      var j := IndexOfProgram(after, after[i].activation.masterProgramId).value;
      assert programs[j].programId == programs[carrier.value].programId;
      assert j == carrier.value;
    }
  }

  /** One link: the runtime program has a live master exactly when its parsed function has a good one, the same. */
  lemma LiveIsGood(fixture: seq<ChannelProgram>, programs: seq<SourceProgram>, i: nat)
    requires Closed(fixture, programs) && Faithful(fixture, programs) && Parsed(fixture, programs)
    requires UniqueProgramIds(programs) && i < |programs| && programs[i].parserId > 0
    ensures var live, good := LiveMaster(Finalized(programs), i), GoodMaster(fixture, programs, programs[i].parserId);
            && (live.Some? <==> good.Some?)
            && (live.Some? ==> programs[live.value].parserId == good.value && good.value > 0)
  {
    var p := programs[i];
    assert p.activation == FindProgram(fixture, p.parserId).value.master;
    if HasMaster(p.activation) {
      assert Compilable(fixture, p.activation.masterProgramId) ==> WantsMaster(fixture, p.activation);
      FinalizedReference(programs, i);
    }
  }

  /**
    Following valid runtime references is following valid parser links to masters that are carried or can be: for every
    depth both walks exist together, and they agree on the parser id that they reach.
  */
  lemma {:induction false} RuntimeFollowsParser(fixture: seq<ChannelProgram>, programs: seq<SourceProgram>, i: nat, n: nat)
    requires Closed(fixture, programs) && Faithful(fixture, programs) && Parsed(fixture, programs)
    requires UniqueProgramIds(programs) && i < |programs| && programs[i].parserId > 0
    ensures var live := LiveWalk(Finalized(programs), i, n);
            var good := GoodWalk(fixture, programs, programs[i].parserId, n);
            (live.Some? <==> good.Some?) && (live.Some? ==> programs[live.value].parserId == good.value)
    decreases n
  {
    if n > 0 {
      LiveIsGood(fixture, programs, i);
      var live := LiveMaster(Finalized(programs), i);
      if live.Some? {
        RuntimeFollowsParser(fixture, programs, live.value, n - 1);
      }
    }
  }

  /** Closing over masters adds parsed functions only, so a parsed fixture stays parsed. */
  lemma AddedAreParsed(fixture: seq<ChannelProgram>, programs: seq<SourceProgram>, before: nat)
    requires before <= |programs| && Parsed(fixture, programs[..before]) && AllNeeded(fixture, programs, before)
    ensures Parsed(fixture, programs)
  {
    forall i | 0 <= i < |programs| && programs[i].parserId > 0
      ensures FindProgram(fixture, programs[i].parserId).Some?
    {
      if i < before {
        assert programs[..before][i] == programs[i];
      } else {
        assert Needed(fixture, programs, programs[i]);
      }
    }
  }
}
