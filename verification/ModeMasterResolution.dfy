/** Resolving a ModeMaster link: an exact node path, and an activation range in the master's own width. */
module ModeMasterResolution {
  import opened AsciiText
  import opened DmxValue
  import opened ModeMasterGraph
  import opened Prelude

  /** A node that a link may name; `bytes` is the width of its channel. */
  datatype NodeRecord = NodeRecord(kind: Kind, id: int, channelId: int, sourceProgramId: int, bytes: nat, path: string)

  datatype Resolution =
    | Linked(condition: Condition, masterChannelId: int, masterBytes: nat)
    | NodeMalformed
    | NodeAmbiguous
    | NodeMissing
    | RangeInvalid

  /** The lexical form of DMX values is not spelled out here: any parser that yields well-formed values will do. */
  type ValueParser = string -> Option<Parsed>

  ghost predicate SoundParser(parse: ValueParser) {
    forall text :: parse(text).Some? ==> WellFormed(parse(text).value)
  }

  predicate LinkOk(link: string) {
    && link != "" && link[0] != '.' && link[|link| - 1] != '.'
    && forall k :: 0 <= k < |link| - 1 ==> link[k] != '.' || link[k + 1] != '.'
  }

  ghost predicate OnlyMatch(nodes: seq<NodeRecord>, link: string, i: nat) {
    i < |nodes| && forall j :: 0 <= j < |nodes| ==> (nodes[j].path == link <==> j == i)
  }

  /** A bound left blank means zero. */
  function BoundText(text: string): string {
    if Trim(text) == "" then "0/1" else text
  }

  function InWidth(parsed: Option<Parsed>, bytes: nat): Option<nat> {
    if parsed.Some? && 1 <= parsed.value.bytes <= 4 && 1 <= bytes <= 4 then Some(Converted(parsed.value, bytes)) else None
  }

  /** A bound in the master's width, if it parses. */
  function Bound(parse: ValueParser, text: string, bytes: nat): Option<nat> {
    InWidth(parse(BoundText(text)), bytes)
  }

  predicate RangeOk(parse: ValueParser, modeFrom: string, modeTo: string, bytes: nat) {
    var from, to := Bound(parse, modeFrom, bytes), Bound(parse, modeTo, bytes);
    from.Some? && to.Some? && from.value <= to.value
  }

  /** The condition a link to `node` stands for. */
  function LinkTo(node: NodeRecord, parse: ValueParser, modeFrom: string, modeTo: string): Resolution {
    if !RangeOk(parse, modeFrom, modeTo, node.bytes) then RangeInvalid else
      Linked(Condition(node.kind, node.id, node.sourceProgramId, Bound(parse, modeFrom, node.bytes).value,
        Bound(parse, modeTo, node.bytes).value, true), node.channelId, node.bytes)
  }

  /** What a bound as written stands for in a master of this width, if anything. */
  function Meaning(parse: ValueParser, text: string, bytes: nat): Option<nat> {
    var parsed := parse(if Blank(text) then "0/1" else text);
    if parsed.Some? && 1 <= parsed.value.bytes <= 4 && 1 <= bytes <= 4 then Some(Converted(parsed.value, bytes)) else None
  }

  /** The link goes to this very node with these bounds, or is refused exactly if they are no range. */
  predicate LeadsTo(r: Resolution, node: NodeRecord, from: Option<nat>, to: Option<nat>) {
    && (r.Linked? || r.RangeInvalid?) && (r.Linked? <==> from.Some? && to.Some? && from.value <= to.value)
    && (r.Linked? ==>
          && r.condition.kind == node.kind && r.condition.targetId == node.id && r.condition.valid
          && r.condition.masterProgramId == node.sourceProgramId
          && r.masterChannelId == node.channelId && r.masterBytes == node.bytes
          && from == Some(r.condition.from) && to == Some(r.condition.to))
  }

  lemma BoundHasItsMeaning(parse: ValueParser, text: string, bytes: nat)
    ensures Bound(parse, text, bytes) == Meaning(parse, text, bytes)
  {
    BlankTrimsToNothing(text);
  }

  lemma LinkLeads(node: NodeRecord, parse: ValueParser, modeFrom: string, modeTo: string)
    ensures LeadsTo(LinkTo(node, parse, modeFrom, modeTo), node, Meaning(parse, modeFrom, node.bytes),
              Meaning(parse, modeTo, node.bytes))
  {
    BoundHasItsMeaning(parse, modeFrom, node.bytes);
    BoundHasItsMeaning(parse, modeTo, node.bytes);
  }

  datatype Match = NoNode | OneNode(index: nat) | SeveralNodes

  /** Looks for the one node with exactly this path. */
  method FindNode(nodes: seq<NodeRecord>, link: string) returns (r: Match)
    ensures r.NoNode? <==> forall j :: 0 <= j < |nodes| ==> nodes[j].path != link
    ensures r.SeveralNodes? <==> Repeated(nodes, link)
    ensures r.OneNode? ==> OnlyMatch(nodes, link, r.index)
  {
    r := NoNode;
    for k := 0 to |nodes|
      invariant r.NoNode? ==> forall j :: 0 <= j < k ==> nodes[j].path != link
      invariant r.OneNode? ==> r.index < k && nodes[r.index].path == link &&
                               forall j :: 0 <= j < k && nodes[j].path == link ==> j == r.index
      invariant !r.SeveralNodes?
    {
      if nodes[k].path == link {
        if r.OneNode? {
          assert nodes[r.index].path == nodes[k].path == link;
          return SeveralNodes;
        }
        r := OneNode(k);
      }
    }
  }

  /** A malformed link, a missing node and an ambiguous one are told apart; the only match is linked if its range fits. */
  method Resolve(sourceLink: string, modeFrom: string, modeTo: string, nodes: seq<NodeRecord>, parse: ValueParser)
    returns (r: Resolution)
    requires SoundParser(parse)
    ensures Answers(r, Trim(sourceLink), modeFrom, modeTo, nodes, parse)
    ensures Blank(sourceLink) ==> r.NodeMalformed?
  {
    var link := Trim(sourceLink);
    if !LinkOk(link) {
      return NodeMalformed;
    }
    r := ResolveLink(link, modeFrom, modeTo, nodes, parse);
    assert !Blank(sourceLink) by {
      BlankTrimsToNothing(sourceLink);
    }
  }

  /** What an answer says about the trimmed link, for every kind of answer in both directions. */
  ghost predicate Answers(r: Resolution, link: string, modeFrom: string, modeTo: string, nodes: seq<NodeRecord>,
                          parse: ValueParser) {
    && (r.NodeMalformed? <==> !LinkOk(link))
    && (r.NodeMissing? <==> LinkOk(link) && forall j :: 0 <= j < |nodes| ==> nodes[j].path != link)
    && (r.NodeAmbiguous? <==> LinkOk(link) && Repeated(nodes, link))
    && (LinkOk(link) ==> forall i: nat :: OnlyMatch(nodes, link, i) ==>
          LeadsTo(r, nodes[i], Meaning(parse, modeFrom, nodes[i].bytes), Meaning(parse, modeTo, nodes[i].bytes)))
  }

  ghost predicate Repeated(nodes: seq<NodeRecord>, link: string) {
    exists i, j :: 0 <= i < j < |nodes| && nodes[i].path == nodes[j].path == link
  }

  method ResolveLink(link: string, modeFrom: string, modeTo: string, nodes: seq<NodeRecord>, parse: ValueParser)
    returns (r: Resolution)
    requires SoundParser(parse) && LinkOk(link)
    ensures Answers(r, link, modeFrom, modeTo, nodes, parse)
  {
    var found := FindNode(nodes, link);
    match found
    case NoNode => return NodeMissing;
    case SeveralNodes => return NodeAmbiguous;
    case OneNode(index) => r := LinkNode(nodes[index], modeFrom, modeTo, parse);
  }

  method LinkNode(node: NodeRecord, modeFrom: string, modeTo: string, parse: ValueParser) returns (r: Resolution)
    requires SoundParser(parse)
    ensures r == LinkTo(node, parse, modeFrom, modeTo)
    ensures LeadsTo(r, node, Meaning(parse, modeFrom, node.bytes), Meaning(parse, modeTo, node.bytes))
  {
    LinkLeads(node, parse, modeFrom, modeTo);
    var from := ParseAndConvert(parse, BoundText(modeFrom), node.bytes);
    var to := ParseAndConvert(parse, BoundText(modeTo), node.bytes);
    if from.None? || to.None? || from.value > to.value {
      return RangeInvalid;
    }
    return Linked(Condition(node.kind, node.id, node.sourceProgramId, from.value, to.value, true), node.channelId, node.bytes);
  }

  method ParseAndConvert(parse: ValueParser, text: string, bytes: nat) returns (r: Option<nat>)
    requires SoundParser(parse)
    ensures r == InWidth(parse(text), bytes)
  {
    var parsed := parse(text);
    if parsed.None? {
      return None;
    }
    r := ConvertDmxValue(parsed.value, bytes);
  }

  // ----- ranges survive the change of width -----

  /** A bound counts as zero exactly when it is blank, and blanks around a bound never change which. */
  lemma BlankBoundIsZero(text: string, before: string, after: string)
    requires Blank(before) && Blank(after)
    ensures BoundText(text) == (if Blank(text) then "0/1" else text)
    ensures Blank(before + (text + after)) <==> Blank(text)
  {
    BlankTrimsToNothing(text);
    BlankTrimsToNothing(before + (text + after));
    PaddingIsIgnored(before, text, after);
  }

  lemma NarrowingFits(p: Parsed, target: nat)
    requires WellFormed(p) && 1 <= target < p.bytes
    ensures Converted(p, target) <= Maximum(target)
  {
    if p.bytes - target == 1 {
    } else if p.bytes - target == 2 {
    } else {
    }
  }

  /** An accepted range lies inside the master's domain, whatever width its bounds were written in. */
  lemma LinkedRangeFits(node: NodeRecord, parse: ValueParser, modeFrom: string, modeTo: string)
    requires SoundParser(parse) && RangeOk(parse, modeFrom, modeTo, node.bytes)
    ensures var c := LinkTo(node, parse, modeFrom, modeTo).condition;
            1 <= node.bytes <= 4 && c.from <= c.to <= Maximum(node.bytes)
  {
    var p := parse(BoundText(modeTo)).value;
    if p.bytes <= node.bytes {
      WideningFits(p, node.bytes);
    } else {
      NarrowingFits(p, node.bytes);
    }
  }

  /** Bounds written in order and in the same form stay in order in every master width, so they are never rejected. */
  lemma OrderedBoundsAreAccepted(parse: ValueParser, modeFrom: string, modeTo: string, bytes: nat)
    requires SoundParser(parse) && 1 <= bytes <= 4
    requires parse(BoundText(modeFrom)).Some? && parse(BoundText(modeTo)).Some?
    requires var p, q := parse(BoundText(modeFrom)).value, parse(BoundText(modeTo)).value;
             p.bytes == q.bytes && p.conversion == q.conversion && p.value <= q.value
    ensures RangeOk(parse, modeFrom, modeTo, bytes)
  {
    var p, q := parse(BoundText(modeFrom)).value, parse(BoundText(modeTo)).value;
    if p.bytes <= bytes {
      if p.value < q.value {
        WideningIsStrictlyMonotone(p, q, bytes);
      }
    } else {
      NarrowingIsMonotone(p, q, bytes);
    }
  }

  lemma NarrowingIsMonotone(p: Parsed, q: Parsed, target: nat)
    requires WellFormed(p) && WellFormed(q) && p.bytes == q.bytes && 1 <= target < p.bytes && p.value <= q.value
    ensures Converted(p, target) <= Converted(q, target)
  {
    if p.bytes - target == 1 {
    } else if p.bytes - target == 2 {
    } else {
    }
  }
}
