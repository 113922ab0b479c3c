/** The mailbox as the mutable object it is: a slot array, a token ring and counters, refining MailboxModel. */
module UniverseMailbox {
  import opened Prelude
  import opened RealtimeSubscription
  import opened MailboxModel
  import MailboxRuns

  /** The ring position `i` places after `head`. */
  ghost function Position(head: nat, i: nat, n: nat): (r: nat)
    requires head < n && i <= n
    ensures r < n
  {
    if head + i < n then head + i else head + i - n
  }

  /** The index arithmetic of the ring is the remainder. */
  lemma PositionIsRemainder(head: nat, i: nat, n: nat)
    requires head < n && i <= n
    ensures Position(head, i, n) == (head + i) % n
  {
    if head + i < n {
      Quotient(head + i, n, 0, head + i);
    } else {
      Quotient(head + i, n, 1, head + i - n);
    }
  }

  /** The queue a ring segment stands for. */
  ghost function Ring(tokens: seq<Token>, head: nat, count: nat): (r: seq<Token>)
    requires count <= |tokens| && (head < |tokens| || count == 0)
    ensures |r| == count
  {
    seq(count, i requires 0 <= i < count => tokens[Position(head, i, |tokens|)])
  }

  lemma RingAppend(tokens: seq<Token>, head: nat, count: nat, token: Token)
    requires head < |tokens| && count < |tokens|
    ensures Ring(tokens[(head + count) % |tokens| := token], head, count + 1) == Ring(tokens, head, count) + [token]
  {
    PositionIsRemainder(head, count, |tokens|);
  }

  lemma RingTail(tokens: seq<Token>, head: nat, count: nat)
    requires head < |tokens| && 0 < count <= |tokens|
    ensures Ring(tokens, head, count)[0] == tokens[head]
    ensures Ring(tokens, (head + 1) % |tokens|, count - 1) == Ring(tokens, head, count)[1..]
  {
    PositionIsRemainder(head, 1, |tokens|);
  }

  class RealtimeUniverseMailbox {
    const n: nat
    const m: nat
    var subscription: Option<Subscription>
    const slots: array<Option<Slot>>
    const dirtyTokens: array<Token>
    var dirtyHead: nat
    var dirtyCount: nat
    var pendingHighWater: nat
    var generation: nat
    var nextToken: nat
    var stats: Stats

    /** Between calls the object satisfies what every mailbox of a run does. */
    ghost predicate Valid()
      reads this, slots, dirtyTokens
    {
      Sound() && MailboxRuns.BoxInv(Abs())
    }

    ghost predicate Sound()
      reads this, slots, dirtyTokens
    {
      && slots.Length == n && dirtyTokens.Length == n
      && dirtyCount <= n && (dirtyHead < n || (n == 0 && dirtyHead == 0))
      && Abs().Shape()
    }

    /** The mailbox value this object represents. */
    ghost function Abs(): Mailbox
      reads this, slots, dirtyTokens
      requires dirtyTokens.Length == n && dirtyCount <= n && (dirtyHead < n || (n == 0 && dirtyHead == 0))
    {
      Mailbox(n, m, subscription, slots[..], Ring(dirtyTokens[..], dirtyHead, dirtyCount), generation, nextToken,
              pendingHighWater, stats)
    }

    constructor (n: nat, m: nat)
      ensures Valid() && fresh(slots) && fresh(dirtyTokens)
      ensures Abs() == Empty(n, m)
    {
      this.n, this.m := n, m;
      subscription := None;
      slots := new Option<Slot>[n](_ => None);
      dirtyTokens := new Token[n](_ => Token(0, 0, 0));
      dirtyHead, dirtyCount, pendingHighWater, generation, nextToken := 0, 0, 0, 0, 0;
      stats := Stats(0, 0, 0, 0, 0, 0);
      new;
      MailboxRuns.EmptyBoxInv(n, m);
    }

    method SetSubscription(next: Option<Subscription>)
      requires Valid() && (next.Some? ==> next.value.Valid(n, m))
      modifies this, slots
      ensures Valid()
      ensures Abs() == MailboxModel.SetSubscription(old(Abs()), next)
    {
      var previous := subscription;
      generation := generation + 1;
      dirtyHead := 0;
      dirtyCount := 0;
      ghost var target := MailboxModel.SetSubscription(old(Abs()), next);
      for universe := 0 to n
        modifies slots
        invariant forall u :: 0 <= u < universe ==> slots[u] == target.slots[u]
        invariant forall u :: universe <= u < n ==> slots[u] == old(slots[u])
      {
        var nowUsed := next.Some? && next.value.Contains(universe);
        if !nowUsed {
          if slots[universe].Some? {
            slots[universe] := Some(slots[universe].value.(dirty := false, queued := false, generation := generation));
          }
          continue;
        }
        if slots[universe].None? {
          slots[universe] := Some(FreshSlot(m));
        }
        var slot := slots[universe].value;
        if HasNewOffsets(previous, next.value, universe) {
          slot := slot.(initialized := false);
        }
        slots[universe] := Some(slot.(dirty := false, queued := false, generation := generation));
      }
      subscription := next;
      assert slots[..] == target.slots;
      MailboxRuns.CallKeepsBoxInv(old(Abs()), MailboxRuns.Subscribe(next));
    }

    method ResetSession()
      requires Valid()
      modifies this, slots
      ensures Valid()
      ensures Abs() == MailboxModel.ResetSession(old(Abs()))
    {
      dirtyHead := 0;
      dirtyCount := 0;
      generation := generation + 1;
      ghost var target := MailboxModel.ResetSession(old(Abs()));
      for universe := 0 to n
        modifies slots
        invariant forall u :: 0 <= u < universe ==> slots[u] == target.slots[u]
        invariant forall u :: universe <= u < n ==> slots[u] == old(slots[u])
      {
        if slots[universe].Some? {
          slots[universe] := Some(slots[universe].value.(initialized := false, dirty := false, queued := false,
            generation := generation));
        }
      }
      assert slots[..] == target.slots;
      MailboxRuns.CallKeepsBoxInv(old(Abs()), MailboxRuns.Reset);
    }

    method EnqueueDirty(universe: nat)
      requires Sound() && universe < n && slots[universe].Some?
      modifies this, slots, dirtyTokens
      ensures Sound()
      ensures Abs() == MailboxModel.EnqueueDirty(old(Abs()), universe)
    {
      var slot := slots[universe].value;
      if slot.queued || dirtyCount >= dirtyTokens.Length {
        return;
      }
      var tail := (dirtyHead + dirtyCount) % dirtyTokens.Length;
      nextToken := nextToken + 1;
      RingAppend(dirtyTokens[..], dirtyHead, dirtyCount, Token(universe, slot.generation, nextToken));
      dirtyTokens[tail] := Token(universe, slot.generation, nextToken);
      dirtyCount := dirtyCount + 1;
      pendingHighWater := if pendingHighWater < dirtyCount then dirtyCount else pendingHighWater;
      slots[universe] := Some(slot.(tokenId := nextToken, queued := true));
    }

    /** Compares the packet with the held frame on the relevant offsets only. */
    method Differs(universe: nat, packet: seq<byte>) returns (changed: bool)
      requires Sound() && Abs().Subscribed(universe) && slots[universe].Some?
      ensures changed <==> !Agree(slots[universe].value.held, packet, Abs().Mask(universe))
    {
      var mask := subscription.value.Offsets(universe);
      var slot := slots[universe].value;
      var safeLength := SafeLength(m, |packet|);
      for offset := 0 to m
        invariant forall o :: o in mask && o < offset ==> HeldByte(slot.held, o) == PacketByte(packet, o)
      {
        if offset !in mask {
          continue;
        }
        var incoming := if offset < safeLength then packet[offset] else 0;
        var previous := if offset < slot.held.length then slot.held.data[offset] else 0;
        if incoming != previous {
          assert HeldByte(slot.held, offset) != PacketByte(packet, offset);
          return true;
        }
      }
      return false;
    }

    method Publish(universe: nat, data: Option<seq<byte>>, sequence: nat, now: nat) returns (updated: bool)
      requires Valid()
      modifies this, slots, dirtyTokens
      ensures Valid()
      ensures (Abs(), updated) == MailboxModel.Publish(old(Abs()), universe, data, sequence, now)
    {
      MailboxRuns.CallKeepsBoxInv(Abs(), MailboxRuns.PublishPacket(universe, data, sequence, now));
      updated := Receive(universe, data, sequence, now);
    }

    /** The body of a publish, under the lock. */
    method Receive(universe: nat, data: Option<seq<byte>>, sequence: nat, now: nat) returns (updated: bool)
      requires Sound()
      modifies this, slots, dirtyTokens
      ensures Sound()
      ensures (Abs(), updated) == MailboxModel.Publish(old(Abs()), universe, data, sequence, now)
    {
      if data.None? || subscription.None? || !subscription.value.Contains(universe) {
        stats := stats.(irrelevant := stats.irrelevant + 1);
        return false;
      }
      var packet := data.value;
      stats := stats.(relevant := stats.relevant + 1);
      if slots[universe].None? || slots[universe].value.generation != generation {
        return false;
      }
      var slot := slots[universe].value;
      var changed := !slot.initialized;
      if !changed {
        changed := Differs(universe, packet);
      }
      if !changed {
        slots[universe] := Some(slot.(held := slot.held.(lastRx := now, sequence := sequence)));
        stats := stats.(unaltered := stats.unaltered + 1);
        return false;
      }
      Store(universe, packet, sequence, now);
      return true;
    }

    method Store(universe: nat, packet: seq<byte>, sequence: nat, now: nat)
      requires Sound() && universe < n && slots[universe].Some?
      modifies this, slots, dirtyTokens
      ensures Sound()
      ensures Abs() == MailboxModel.Store(old(Abs()), universe, packet, sequence, now)
    {
      var slot := slots[universe].value;
      var held := Frame(universe, SafeLength(m, |packet|), Payload(m, packet), now,
        (slot.held.counter + 1) % COUNTER_LIMIT, sequence);
      slots[universe] := Some(slot.(held := held, initialized := true, dirty := true));
      if slot.dirty {
        stats := stats.(coalesced := stats.coalesced + 1);
      } else {
        EnqueueDirty(universe);
      }
      stats := stats.(updates := stats.updates + 1);
    }

    /** One critical section of the drain: takes the oldest token. */
    method PopToken() returns (frame: Option<Frame>)
      requires Valid() && dirtyCount > 0
      modifies this, slots
      ensures Valid()
      ensures (Abs(), frame) == Pop(old(Abs()))
    {
      MailboxRuns.PopIsLive(Abs());
      var token := dirtyTokens[dirtyHead];
      RingTail(dirtyTokens[..], dirtyHead, dirtyCount);
      dirtyHead := (dirtyHead + 1) % dirtyTokens.Length;
      dirtyCount := dirtyCount - 1;
      if token.universe >= n || slots[token.universe].None? {
        return None;
      }
      var slot := slots[token.universe].value;
      if slot.generation != token.generation || slot.tokenId != token.tokenId || !slot.dirty || !slot.queued {
        return None;
      }
      slots[token.universe] := Some(slot.(dirty := false, queued := false));
      stats := stats.(consumed := stats.consumed + 1);
      return Some(slot.held);
    }

    /**
      The whole drain when nothing interleaves with it: the queued universes in order, each with its held frame; they
      are clean afterwards, the queue is empty, and nothing else changes.
    */
    method ConsumeDirtyFrames() returns (frames: seq<Frame>)
      requires Valid()
      modifies this, slots
      ensures Valid()
      ensures MailboxRuns.Taken(old(Abs()), Abs(), frames, |old(Abs()).pending|)
      ensures Abs().pending == []
    {
      var tokensToConsume := dirtyCount;
      frames := [];
      ghost var start := Abs();
      assert start.pending[0..] == start.pending;
      for index := 0 to tokensToConsume
        invariant Valid() && MailboxRuns.Taken(start, Abs(), frames, index)
      {
        if dirtyCount == 0 {
          break;
        }
        MailboxRuns.TakeOneMore(start, Abs(), frames, index);
        var frame := PopToken();
        if frame.Some? {
          frames := frames + [frame.value];
        }
      }
    }

    method HeldFrame(universe: nat) returns (frame: Option<Frame>)
      requires Valid()
      ensures frame == Held(Abs(), universe)
    {
      if universe >= n || slots[universe].None? || !slots[universe].value.initialized {
        return None;
      }
      if subscription.None? || !subscription.value.Contains(universe) || slots[universe].value.generation != generation {
        return None;
      }
      return Some(slots[universe].value.held);
    }

    /** Every held frame of the current subscription, once each, in ascending universe order. */
    method HeldStates() returns (frames: seq<Frame>)
      requires Valid()
      ensures forall i, j :: 0 <= i < j < |frames| ==> frames[i].universe < frames[j].universe
      ensures forall k :: 0 <= k < |frames| ==> Held(Abs(), frames[k].universe) == Some(frames[k])
      ensures forall u: nat :: Held(Abs(), u).Some? ==> Held(Abs(), u).value in frames
    {
      frames := [];
      if subscription.None? {
        return;
      }
      var universes := subscription.value.universes;
      for i := 0 to |universes|
        invariant HeldAmong(Abs(), universes[..i], frames)
      {
        var universe := universes[i];
        assert subscription.value.Contains(universe);
        var slot := slots[universe];
        HeldOneMore(Abs(), universes, i, frames);
        if slot.Some? && slot.value.initialized && slot.value.generation == generation {
          frames := frames + [slot.value.held];
        }
      }
      assert universes[..|universes|] == universes;
      forall u: nat | Held(Abs(), u).Some? ensures Held(Abs(), u).value in frames {
        assert u in universes;
      }
    }
  }

  /** The held frames of these universes, in ascending universe order. */
  ghost predicate HeldAmong(box: Mailbox, universes: seq<nat>, frames: seq<Frame>)
    requires box.Shape()
  {
    && (forall i, j :: 0 <= i < j < |frames| ==> frames[i].universe < frames[j].universe)
    && (forall k :: 0 <= k < |frames| ==>
          frames[k].universe in universes && Held(box, frames[k].universe) == Some(frames[k]))
    && forall u: nat :: u in universes && Held(box, u).Some? ==> Held(box, u).value in frames
  }

  lemma HeldOneMore(box: Mailbox, universes: seq<nat>, i: nat, frames: seq<Frame>)
    requires box.Shape() && MailboxRuns.SlotInv(box) && StrictlyIncreasing(universes) && i < |universes|
    requires HeldAmong(box, universes[..i], frames)
    ensures var held := Held(box, universes[i]);
            HeldAmong(box, universes[..i + 1], if held.Some? then frames + [held.value] else frames)
  {
    var held := Held(box, universes[i]);
    assert universes[..i + 1] == universes[..i] + [universes[i]];
    forall k | 0 <= k < |frames| ensures frames[k].universe < universes[i] {
      var j :| 0 <= j < i && universes[..i][j] == frames[k].universe;
      assert universes[j] < universes[i];
    }
    if held.Some? {
      var more := frames + [held.value];
      assert more[|frames|] == held.value;
    }
  }
}
