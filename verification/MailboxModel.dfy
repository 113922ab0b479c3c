/**
  The latest-state mailbox as a value: what each critical section does to it.
  The ring of dirty tokens appears here as the queue it represents; `n` universes, `m` slots per frame.
*/
module MailboxModel {
  import opened Prelude
  import opened RealtimeSubscription

  const COUNTER_LIMIT := 0x1_0000_0000

  datatype Frame = Frame(universe: nat, length: nat, data: seq<byte>, lastRx: nat, counter: nat, sequence: nat)
  datatype Slot = Slot(held: Frame, generation: nat, initialized: bool, dirty: bool, queued: bool, tokenId: nat)
  datatype Token = Token(universe: nat, generation: nat, tokenId: nat)
  datatype Stats = Stats(relevant: nat, irrelevant: nat, unaltered: nat, updates: nat, coalesced: nat, consumed: nat)

  datatype Mailbox = Mailbox(
    n: nat, m: nat, subscription: Option<Subscription>, slots: seq<Option<Slot>>, pending: seq<Token>,
    generation: nat, nextToken: nat, highWater: nat, stats: Stats)
  {
    predicate Subscribed(u: nat) {
      subscription.Some? && subscription.value.Contains(u)
    }

    function Mask(u: nat): set<nat> {
      if subscription.Some? then subscription.value.Offsets(u) else {}
    }

    /** The types of the fields: array sizes and a well-formed subscription. */
    ghost predicate Shape() {
      && |slots| == n
      && (subscription.Some? ==> subscription.value.Valid(n, m))
      && (forall u :: 0 <= u < n && slots[u].Some? ==>
            |slots[u].value.held.data| == m && slots[u].value.held.length <= m)
    }
  }

  function Zeros(k: nat): (r: seq<byte>)
    ensures |r| == k && forall i :: 0 <= i < k ==> r[i] == 0
  {
    seq(k, _ => 0)
  }

  function FreshSlot(m: nat): Slot {
    Slot(Frame(0, 0, Zeros(m), 0, 0, 0), 0, false, false, false, 0)
  }

  function Empty(n: nat, m: nat): Mailbox {
    Mailbox(n, m, None, seq(n, _ => None), [], 0, 0, 0, Stats(0, 0, 0, 0, 0, 0))
  }

  /** Byte of a held frame with zero padding beyond its length. */
  function HeldByte(frame: Frame, offset: nat): byte {
    if offset < frame.length && offset < |frame.data| then frame.data[offset] else 0
  }

  /** Byte of a packet with zero padding beyond its end. */
  function PacketByte(packet: seq<byte>, offset: nat): byte {
    if offset < |packet| then packet[offset] else 0
  }

  predicate Agree(frame: Frame, packet: seq<byte>, mask: set<nat>) {
    forall o :: o in mask ==> HeldByte(frame, o) == PacketByte(packet, o)
  }

  function SafeLength(m: nat, length: nat): nat {
    if length < m then length else m
  }

  /** The payload buffer after it is zeroed and the first `length` bytes of the packet are copied in. */
  function Payload(m: nat, packet: seq<byte>): (r: seq<byte>)
    ensures |r| == m
    ensures forall o :: 0 <= o < m ==> r[o] == PacketByte(packet, o)
  {
    packet[..SafeLength(m, |packet|)] + Zeros(m - SafeLength(m, |packet|))
  }

  predicate HasNewOffsets(previous: Option<Subscription>, next: Subscription, u: nat) {
    previous.None? || !previous.value.Contains(u) || !(next.Offsets(u) <= previous.value.Offsets(u))
  }

  function Renewed(slot: Option<Slot>, used: bool, forget: bool, generation: nat, m: nat): Option<Slot> {
    if !used then
      match slot
      case None => None
      case Some(s) => Some(s.(dirty := false, queued := false, generation := generation))
    else
      var s := if slot.Some? then slot.value else FreshSlot(m);
      Some(s.(initialized := s.initialized && !forget, dirty := false, queued := false, generation := generation))
  }

  function SetSubscription(box: Mailbox, next: Option<Subscription>): (r: Mailbox)
    requires |box.slots| == box.n
  {
    box.(subscription := next, pending := [], generation := box.generation + 1,
         slots := seq(box.n, (u: nat) requires u < box.n =>
           Renewed(box.slots[u], next.Some? && next.value.Contains(u),
             next.Some? && HasNewOffsets(box.subscription, next.value, u), box.generation + 1, box.m)))
  }

  function ResetSlot(slot: Option<Slot>, generation: nat): Option<Slot> {
    match slot
    case None => None
    case Some(s) => Some(s.(initialized := false, dirty := false, queued := false, generation := generation))
  }

  function ResetSession(box: Mailbox): (r: Mailbox)
    requires |box.slots| == box.n
  {
    box.(pending := [], generation := box.generation + 1,
         slots := seq(box.n, (u: nat) requires u < box.n => ResetSlot(box.slots[u], box.generation + 1)))
  }

  /** Appends one token for a slot that is not queued yet, unless the ring is full. */
  function EnqueueDirty(box: Mailbox, u: nat): (r: Mailbox)
    requires u < |box.slots| && box.slots[u].Some?
  {
    var slot := box.slots[u].value;
    if slot.queued || |box.pending| >= box.n then box else
      var token := Token(u, slot.generation, box.nextToken + 1);
      var count := |box.pending| + 1;
      box.(nextToken := box.nextToken + 1, pending := box.pending + [token],
           highWater := if box.highWater < count then count else box.highWater,
           slots := box.slots[u := Some(slot.(tokenId := box.nextToken + 1, queued := true))])
  }

  function Irrelevant(box: Mailbox): Mailbox {
    box.(stats := box.stats.(irrelevant := box.stats.irrelevant + 1))
  }

  /** Overwrites the held frame and marks the slot dirty; a slot that was dirty already only coalesces. */
  function Store(box: Mailbox, u: nat, packet: seq<byte>, sequence: nat, now: nat): (r: Mailbox)
    requires u < |box.slots| && box.slots[u].Some?
  {
    var slot := box.slots[u].value;
    var held := Frame(u, SafeLength(box.m, |packet|), Payload(box.m, packet), now,
      (slot.held.counter + 1) % COUNTER_LIMIT, sequence);
    var stored := box.(slots := box.slots[u := Some(slot.(held := held, initialized := true, dirty := true))]);
    var queued := if slot.dirty
      then stored.(stats := stored.stats.(coalesced := stored.stats.coalesced + 1))
      else EnqueueDirty(stored, u);
    queued.(stats := queued.stats.(updates := queued.stats.updates + 1))
  }

  /** One packet for universe `u`; `None` is a null data pointer. */
  function Publish(box: Mailbox, u: nat, data: Option<seq<byte>>, sequence: nat, now: nat): (r: (Mailbox, bool))
    requires box.Shape()
  {
    if data.None? || !box.Subscribed(u) then (Irrelevant(box), false) else
      var packet := data.value;
      var counted := box.(stats := box.stats.(relevant := box.stats.relevant + 1));
      if box.slots[u].None? || box.slots[u].value.generation != box.generation then (counted, false) else
        var slot := box.slots[u].value;
        if slot.initialized && Agree(slot.held, packet, box.Mask(u)) then
          (counted.(slots := box.slots[u := Some(slot.(held := slot.held.(lastRx := now, sequence := sequence)))],
                    stats := counted.stats.(unaltered := counted.stats.unaltered + 1)), false)
        else
          (Store(counted, u, packet, sequence, now), true)
  }

  /** Removes the oldest token and, if it is still live, hands out the held frame. */
  function Pop(box: Mailbox): (r: (Mailbox, Option<Frame>))
    requires |box.slots| == box.n
    requires |box.pending| > 0
  {
    var token := box.pending[0];
    var popped := box.(pending := box.pending[1..]);
    if token.universe >= box.n || box.slots[token.universe].None? then (popped, None) else
      var slot := box.slots[token.universe].value;
      if slot.generation != token.generation || slot.tokenId != token.tokenId || !slot.dirty || !slot.queued then
        (popped, None)
      else
        (popped.(slots := box.slots[token.universe := Some(slot.(dirty := false, queued := false))],
                 stats := popped.stats.(consumed := popped.stats.consumed + 1)), Some(slot.held))
  }

  /** The frame a reader obtains without consuming anything. */
  function Held(box: Mailbox, u: nat): (r: Option<Frame>)
    requires box.Shape()
  {
    if u < box.n && box.slots[u].Some? && box.slots[u].value.initialized && box.Subscribed(u) &&
      box.slots[u].value.generation == box.generation then Some(box.slots[u].value.held) else None
  }
}
