/** From declared channel bytes and an MVR patch to the byte sources of compiled programs. */
module ResolvedAddresses {
  import opened Prelude
  import opened GeometryRoutes
  import opened InstanceExpansion
  import opened InstanceRouting

  // ----- what a channel may declare -----

  /** A DMXChannel's Offset attribute: none, or a comma-separated list; and its DMXBreak attribute. */
  datatype OffsetField = NoOffset | Offsets(first: Field, rest: seq<Field>)
  datatype BreakField = DefaultBreak | Overwrite | Numbered(field: Field)
  datatype ChannelDeclaration = ChannelDeclaration(offset: OffsetField, dmxBreak: BreakField)

  function Pieces(offset: OffsetField): seq<Field> {
    if offset.NoOffset? then [] else [offset.first] + offset.rest
  }

  predicate ByteNumber(f: Field) {
    f.Number? && 1 <= f.value <= 512
  }

  /** At most four distinct bytes of one universe, and a break that is a positive number or Overwrite. */
  ghost predicate ChannelOk(c: ChannelDeclaration) {
    c.offset.Offsets? ==>
      var pieces := Pieces(c.offset);
      && |pieces| <= 4 && Distinct(pieces) && (forall k :: 0 <= k < |pieces| ==> ByteNumber(pieces[k]))
      && (c.dmxBreak.Numbered? ==> c.dmxBreak.field.Number? && c.dmxBreak.field.value >= 1)
  }

  method ValidateChannelAddresses(channels: seq<ChannelDeclaration>) returns (ok: bool)
    ensures ok <==> forall c :: 0 <= c < |channels| ==> ChannelOk(channels[c])
  {
    for c := 0 to |channels|
      invariant forall d :: 0 <= d < c ==> ChannelOk(channels[d])
    {
      if channels[c].offset.Offsets? {
        ok := ValidateChannel(channels[c]);
        if !ok {
          return false;
        }
      }
    }
    return true;
  }

  method ValidateChannel(c: ChannelDeclaration) returns (ok: bool)
    requires c.offset.Offsets?
    ensures ok <==> ChannelOk(c)
  {
    var pieces := Pieces(c.offset);
    var seen: set<int> := {};
    for k := 0 to |pieces|
      invariant forall i :: 0 <= i < k ==> ByteNumber(pieces[i]) && pieces[i].value in seen
      invariant forall i, j :: 0 <= i < j < k ==> pieces[i] != pieces[j]
      invariant forall v :: v in seen ==> Number(v) in pieces[..k]
      invariant |seen| == k
    {
      var piece := pieces[k];
      if !piece.Number? || piece.value < 1 || piece.value > 512 || piece.value in seen {
        return false;
      }
      seen := seen + {piece.value};
    }
    if |seen| > 4 {
      return false;
    }
    if c.dmxBreak.Numbered? && (!c.dmxBreak.field.Number? || c.dmxBreak.field.value < 1) {
      return false;
    }
    return true;
  }

  /** The parsed program carries the bytes its channel declares, in declaration order, and its break. */
  ghost predicate DeclaredBy(c: ChannelDeclaration, program: Program) {
    && c.offset.Offsets? && |program.offsets| == |Pieces(c.offset)|
    && (forall k :: 0 <= k < |program.offsets| ==> Pieces(c.offset)[k] == Number(program.offsets[k]))
    && (c.dmxBreak.Overwrite? <==> program.dmxBreak == 0)
  }

  lemma DeclaredIsAddressable(c: ChannelDeclaration, program: Program)
    requires ChannelOk(c) && DeclaredBy(c, program)
    ensures Addressable(program.offsets) && |program.offsets| <= 4
  {
    var pieces := Pieces(c.offset);
    forall k | 0 <= k < |program.offsets| ensures 1 <= program.offsets[k] <= 512 {
      assert ByteNumber(pieces[k]);
    }
    forall i, j | 0 <= i < j < |program.offsets| ensures program.offsets[i] != program.offsets[j] {
      assert pieces[i] != pieces[j];
    }
  }

  // ----- the patch -----

  datatype PatchAddress = PatchAddress(mvrBreak: int, universe: int, address: int)
  datatype Patch = Patch(universe: int, address: int, addresses: seq<PatchAddress>)

  function FirstFor(addresses: seq<PatchAddress>, mvrBreak: int): Option<PatchAddress> {
    if addresses == [] then None
    else if addresses[0].mvrBreak == mvrBreak then Some(addresses[0]) else FirstFor(addresses[1..], mvrBreak)
  }

  /** Where a one-based GDTF break starts: its own MVR entry, or for break one of a plain patch the patch itself. */
  function SourcePatch(patch: Patch, gdtfBreak: int): PatchAddress {
    var entry := FirstFor(patch.addresses, gdtfBreak - 1);
    if entry.Some? then entry.value
    else if patch.addresses == [] && gdtfBreak == 1 then PatchAddress(0, patch.universe, patch.address)
    else PatchAddress(0, -1, -1)
  }

  /** Fixtures without any universe are skipped before this point. */
  predicate HasUniverse(patch: Patch) {
    patch.universe > 0 || patch.addresses != []
  }

  function BaseUniverse(patch: Patch): int
    requires HasUniverse(patch)
  {
    if patch.universe > 0 then patch.universe else patch.addresses[0].universe
  }

  predicate PortAddress(universe: int) {
    0 <= universe <= 32767
  }

  ghost predicate ProgramResolves(patch: Patch, program: Program, universeOffset: int) {
    var entry := SourcePatch(patch, program.dmxBreak);
    && entry.universe >= 1 && 1 <= entry.address <= 512 && PortAddress(entry.universe + universeOffset)
    && forall k :: 0 <= k < |program.offsets| ==> program.offsets[k] >= 1 && entry.address + program.offsets[k] - 2 < 512
  }

  method ValidateResolvedAddresses(patch: Patch, programs: seq<Program>, universeOffset: int) returns (ok: bool)
    requires HasUniverse(patch)
    ensures ok <==> PortAddress(BaseUniverse(patch) + universeOffset) &&
                    forall p :: 0 <= p < |programs| ==> ProgramResolves(patch, programs[p], universeOffset)
  {
    var representative := BaseUniverse(patch) + universeOffset;
    if representative < 0 || representative > 32767 {
      return false;
    }
    for p := 0 to |programs|
      invariant forall q :: 0 <= q < p ==> ProgramResolves(patch, programs[q], universeOffset)
    {
      var program := programs[p];
      var entry := SourcePatch(patch, program.dmxBreak);
      if entry.universe < 1 || entry.address < 1 || entry.address > 512 {
        return false;
      }
      var universe := entry.universe + universeOffset;
      if universe < 0 || universe > 32767 {
        return false;
      }
      for k := 0 to |program.offsets|
        invariant forall j :: 0 <= j < k ==> program.offsets[j] >= 1 && entry.address + program.offsets[j] - 2 < 512
      {
        if program.offsets[k] < 1 || entry.address + program.offsets[k] - 2 >= 512 {
          return false;
        }
      }
    }
    return true;
  }

  /** A program resolves exactly if its break is patched and its bytes fit behind that address. */
  lemma ResolvesByItsEntry(patch: Patch, program: Program, universeOffset: int)
    requires HasUniverse(patch)
    ensures forall i: nat :: EntryFor(patch.addresses, program.dmxBreak - 1, i) ==>
              (ProgramResolves(patch, program, universeOffset) <==>
                 FitsBehind(program, patch.addresses[i].universe, patch.addresses[i].address, universeOffset))
    ensures patch.addresses == [] && program.dmxBreak == 1 ==>
              (ProgramResolves(patch, program, universeOffset) <==>
                 FitsBehind(program, patch.universe, patch.address, universeOffset))
    ensures ProgramResolves(patch, program, universeOffset) ==>
              || (patch.addresses == [] && program.dmxBreak == 1)
              || HasEntry(patch.addresses, program.dmxBreak - 1)
  {
    FirstForIsTheEntry(patch.addresses, program.dmxBreak - 1);
  }

  ghost predicate FitsBehind(program: Program, universe: int, address: int, universeOffset: int) {
    && universe >= 1 && 0 <= universe + universeOffset <= 32767 && 1 <= address <= 512
    && forall k :: 0 <= k < |program.offsets| ==> 1 <= program.offsets[k] <= 513 - address
  }

  // ----- byte sources -----

  datatype ByteSource = ByteSource(universe: int, address: int, byteOrder: nat)

  ghost function Sources(patch: Patch, program: Program, artnetUniverse: int): (sources: seq<ByteSource>)
    requires HasUniverse(patch)
  {
    var entry := SourcePatch(patch, program.dmxBreak);
    seq(|program.offsets|, k requires 0 <= k < |program.offsets| =>
      ByteSource(entry.universe + (artnetUniverse - BaseUniverse(patch)), entry.address + program.offsets[k] - 2, k))
  }

  /** The first of the patch's entries for this MVR break. */
  ghost predicate EntryFor(addresses: seq<PatchAddress>, mvrBreak: int, i: nat) {
    && i < |addresses| && addresses[i].mvrBreak == mvrBreak
    && forall j :: 0 <= j < i ==> addresses[j].mvrBreak != mvrBreak
  }

  ghost predicate HasEntry(addresses: seq<PatchAddress>, mvrBreak: int) {
    exists i: nat :: EntryFor(addresses, mvrBreak, i)
  }

  /** One source per declared byte, in order: slots count from zero, addresses and offsets from one. */
  ghost predicate SitsAt(sources: seq<ByteSource>, program: Program, universe: int, address: int) {
    && |sources| == |program.offsets|
    && forall k :: 0 <= k < |sources| ==>
         && sources[k].universe == universe && sources[k].byteOrder == k
         && sources[k].address + 2 == address + program.offsets[k]
  }

  /**
    GDTF break n is patched by the entry of MVR break n - 1, or by the patch itself if that has no entries and n is one;
    universes keep their distance from the fixture's base universe, which is mapped to `artnetUniverse`.
  */
  ghost predicate FollowPatch(sources: seq<ByteSource>, patch: Patch, program: Program, artnetUniverse: int)
    requires HasUniverse(patch)
  {
    && (forall i: nat :: EntryFor(patch.addresses, program.dmxBreak - 1, i) ==>
          var base, entry := if patch.universe > 0 then patch.universe else patch.addresses[0].universe, patch.addresses[i];
          SitsAt(sources, program, artnetUniverse + (entry.universe - base), entry.address))
    && (patch.addresses == [] && program.dmxBreak == 1 ==> SitsAt(sources, program, artnetUniverse, patch.address))
  }

  lemma {:induction false} FirstForIsTheEntry(addresses: seq<PatchAddress>, mvrBreak: int)
    ensures forall i: nat :: EntryFor(addresses, mvrBreak, i) ==> FirstFor(addresses, mvrBreak) == Some(addresses[i])
    ensures FirstFor(addresses, mvrBreak).Some? ==> HasEntry(addresses, mvrBreak)
  {
    if addresses != [] && addresses[0].mvrBreak == mvrBreak {
      assert EntryFor(addresses, mvrBreak, 0);
    } else if addresses != [] {
      var rest := addresses[1..];
      FirstForIsTheEntry(rest, mvrBreak);
      assert forall i :: 0 < i < |addresses| ==> addresses[i] == rest[i - 1];
      forall i: nat | EntryFor(addresses, mvrBreak, i) ensures FirstFor(addresses, mvrBreak) == Some(addresses[i]) {
        assert EntryFor(rest, mvrBreak, i - 1);
      }
      if FirstFor(rest, mvrBreak).Some? {
        var i: nat :| EntryFor(rest, mvrBreak, i);
        assert EntryFor(addresses, mvrBreak, i + 1);
      }
    }
  }

  method MakeSources(patch: Patch, program: Program, artnetUniverse: int) returns (sources: seq<ByteSource>)
    requires HasUniverse(patch)
    ensures sources == Sources(patch, program, artnetUniverse)
    ensures FollowPatch(sources, patch, program, artnetUniverse)
  {
    FirstForIsTheEntry(patch.addresses, program.dmxBreak - 1);
    sources := [];
    var entry := SourcePatch(patch, program.dmxBreak);
    var universe := entry.universe + (artnetUniverse - BaseUniverse(patch));
    for index := 0 to |program.offsets|
      invariant sources == Sources(patch, program, artnetUniverse)[..index]
    {
      sources := sources + [ByteSource(universe, entry.address + program.offsets[index] - 2, index)];
    }
  }

  ghost predicate WellAddressed(sources: seq<ByteSource>) {
    && (forall k :: 0 <= k < |sources| ==>
          PortAddress(sources[k].universe) && 0 <= sources[k].address <= 511 && sources[k].byteOrder == k)
    && (forall i, j :: 0 <= i < j < |sources| ==>
          sources[i].universe == sources[j].universe && sources[i].address != sources[j].address)
  }

  lemma SourcesAreSpaced(patch: Patch, program: Program, universeOffset: int)
    requires HasUniverse(patch) && ProgramResolves(patch, program, universeOffset) && Addressable(program.offsets)
    ensures var sources := Sources(patch, program, BaseUniverse(patch) + universeOffset);
            && WellAddressed(sources) && |sources| == |program.offsets|
            && forall i, j :: 0 <= i < |sources| && 0 <= j < |sources| ==>
                 sources[i].address - sources[j].address == program.offsets[i] - program.offsets[j]
  {
    var sources := Sources(patch, program, BaseUniverse(patch) + universeOffset);
    forall i, j | 0 <= i < j < |sources| ensures sources[i].address != sources[j].address {
      assert program.offsets[i] != program.offsets[j];
    }
  }

  /**
    End to end: whatever passes channel validation, instance expansion and patch resolution compiles to byte sources
    inside an Art-Net universe, at most four, pairwise distinct, spaced as the channel declares them.
  */
  lemma CompiledSourcesAreWellAddressed(channels: seq<ChannelDeclaration>, x: Fixture, program: Program, patch: Patch,
                                        universeOffset: int) returns (p: nat)
    requires forall c :: 0 <= c < |channels| ==> ChannelOk(channels[c])
    requires forall q :: 0 <= q < |x.programs| ==>
               exists c :: 0 <= c < |channels| && DeclaredBy(channels[c], x.programs[q])
    requires Derives(x, program)
    requires HasUniverse(patch) && ProgramResolves(patch, program, universeOffset)
    ensures p < |x.programs|
    ensures var sources := Sources(patch, program, BaseUniverse(patch) + universeOffset);
            && WellAddressed(sources) && |sources| == |x.programs[p].offsets| <= 4
            && forall i, j :: 0 <= i < |sources| && 0 <= j < |sources| ==>
                 sources[i].address - sources[j].address == x.programs[p].offsets[i] - x.programs[p].offsets[j]
  {
    p :| DerivesFrom(x, program, p);
    var c :| 0 <= c < |channels| && DeclaredBy(channels[c], x.programs[p]);
    DeclaredIsAddressable(channels[c], x.programs[p]);
    SourcesAreSpaced(patch, program, universeOffset);
  }
}
