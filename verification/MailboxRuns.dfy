/**
  Every run of the mailbox: one step per critical section, in any interleaving.
  A draining reader takes one token per step, so packets, new subscriptions and session resets fall between
  its tokens. Beside the mailbox the state records what the properties speak about: the last packet known for
  each universe, what the consumer has been handed, and how many queued updates were retired unread.
*/
module MailboxRuns {
  import opened Prelude
  import opened RealtimeSubscription
  import opened MailboxModel

  /** `started` lists the universes queued when the drain began; `calm` while no reset or re-subscription came. */
  datatype Drain = Idle | Draining(remaining: nat, frames: seq<Frame>, started: seq<nat>, calm: bool)

  datatype World = World(box: Mailbox, known: seq<Option<seq<byte>>>, view: seq<Option<Frame>>, synced: bool,
                         retired: nat, drain: Drain)

  datatype Event =
    | PublishPacket(universe: nat, data: Option<seq<byte>>, sequence: nat, now: nat)
    | Subscribe(next: Option<Subscription>)
    | Reset
    | ReadHeldStates
    | BeginDrain
    | PopToken
    | EndDrain

  function Start(n: nat, m: nat): World {
    World(Empty(n, m), seq(n, _ => None), seq(n, _ => None), true, 0, Idle)
  }

  predicate Enabled(w: World, e: Event) {
    match e
    case BeginDrain => w.drain.Idle?
    case PopToken => w.drain.Draining? && w.drain.remaining > 0 && |w.box.pending| > 0
    case EndDrain => w.drain.Draining? && (w.drain.remaining == 0 || |w.box.pending| == 0)
    case _ => true
  }

  /** A subscription handed to the mailbox comes out of its compiler. */
  ghost predicate Admissible(w: World, e: Event) {
    e.Subscribe? && e.next.Some? ==> e.next.value.Valid(w.box.n, w.box.m)
  }

  function Universes(tokens: seq<Token>): (r: seq<nat>)
    ensures |r| == |tokens| && forall i :: 0 <= i < |tokens| ==> r[i] == tokens[i].universe
  {
    seq(|tokens|, i requires 0 <= i < |tokens| => tokens[i].universe)
  }

  function FrameUniverses(frames: seq<Frame>): (r: seq<nat>)
    ensures |r| == |frames| && forall i :: 0 <= i < |frames| ==> r[i] == frames[i].universe
  {
    seq(|frames|, i requires 0 <= i < |frames| => frames[i].universe)
  }

  function Disturbed(d: Drain): Drain {
    if d.Draining? then d.(calm := false) else d
  }

  /** The universe keeps its history across a new subscription exactly when its mask does not grow. */
  predicate Retained(box: Mailbox, next: Option<Subscription>, u: nat) {
    next.Some? && next.value.Contains(u) && !HasNewOffsets(box.subscription, next.value, u)
  }

  ghost predicate Typed(w: World) {
    w.box.Shape() && |w.known| == |w.view| == w.box.n
  }

  function Step(w: World, e: Event): (r: World)
    requires Typed(w)
    requires Enabled(w, e)
  {
    match e
    case PublishPacket(u, data, sequence, now) =>
      w.(box := Publish(w.box, u, data, sequence, now).0,
         known := if data.Some? && u < w.box.n && w.box.Subscribed(u) then w.known[u := data] else w.known)
    case Subscribe(next) =>
      w.(box := SetSubscription(w.box, next),
         known := seq(w.box.n, (u: nat) requires u < w.box.n =>
           if Retained(w.box, next, u) then w.known[u] else None),
         view := seq(w.box.n, _ => None), synced := false,
         retired := w.retired + |w.box.pending|, drain := Disturbed(w.drain))
    case Reset =>
      w.(box := ResetSession(w.box), known := seq(w.box.n, _ => None), view := seq(w.box.n, _ => None),
         retired := w.retired + |w.box.pending|, drain := Disturbed(w.drain))
    case ReadHeldStates =>
      w.(view := seq(w.box.n, (u: nat) requires u < w.box.n => Held(w.box, u)), synced := true)
    case BeginDrain =>
      w.(drain := Draining(|w.box.pending|, [], Universes(w.box.pending), true))
    case PopToken =>
      var (box, frame) := Pop(w.box);
      w.(box := box,
         view := if frame.Some? && frame.value.universe < w.box.n then w.view[frame.value.universe := frame] else w.view,
         drain := w.drain.(remaining := w.drain.remaining - 1,
                           frames := if frame.Some? then w.drain.frames + [frame.value] else w.drain.frames))
    case EndDrain => w.(drain := Idle)
  }

  // ----- the facts every run keeps -----

  predicate LiveToken(box: Mailbox, t: Token) {
    && t.universe < |box.slots|
    && box.slots[t.universe].Some?
    && box.slots[t.universe].value.dirty
    && box.slots[t.universe].value.queued
    && box.slots[t.universe].value.tokenId == t.tokenId
    && t.generation == box.generation
  }

  ghost predicate Queued(pending: seq<Token>, u: nat) {
    exists i :: 0 <= i < |pending| && pending[i].universe == u
  }

  /** Live tokens and dirty slots are in bijection; no token is stale; universes are pairwise distinct. */
  ghost predicate RingInv(box: Mailbox) {
    && (forall i :: 0 <= i < |box.pending| ==> LiveToken(box, box.pending[i]))
    && (forall i, j :: 0 <= i < j < |box.pending| ==> box.pending[i].universe != box.pending[j].universe)
    && (forall u :: 0 <= u < |box.slots| && box.slots[u].Some? && (box.slots[u].value.dirty || box.slots[u].value.queued) ==>
          Queued(box.pending, u))
    && |box.pending| <= box.highWater <= box.n
  }

  /** Every slot carries the current generation; subscribed universes have slots; dirty slots hold data. */
  ghost predicate SlotInv(box: Mailbox) {
    && (forall u :: 0 <= u < |box.slots| && box.slots[u].Some? ==>
          && box.slots[u].value.generation == box.generation
          && (box.slots[u].value.initialized ==> box.slots[u].value.held.universe == u)
          && (box.slots[u].value.dirty ==> box.slots[u].value.initialized && box.Subscribed(u)))
    && (forall u: nat :: u < |box.slots| && box.Subscribed(u) ==> box.slots[u].Some?)
  }

  ghost predicate AccountInv(w: World) {
    var s := w.box.stats;
    && s.relevant == s.unaltered + s.updates
    && s.updates == s.coalesced + s.consumed + |w.box.pending| + w.retired
  }

  /** A subscribed slot is initialized exactly when its last packet is known, and then they agree on the mask. */
  ghost predicate KnownInv(w: World)
    requires Typed(w)
  {
    forall u: nat :: u < w.box.n && w.box.Subscribed(u) && w.box.slots[u].Some? ==>
      && (w.box.slots[u].value.initialized <==> w.known[u].Some?)
      && (w.known[u].Some? ==> Agree(w.box.slots[u].value.held, w.known[u].value, w.box.Mask(u)))
  }

  predicate SamePayload(a: Frame, b: Frame) {
    a.universe == b.universe && a.length == b.length && a.data == b.data
  }

  /** Once the consumer has read the held states, whatever is not queued for it is what it already has. */
  ghost predicate ViewInv(w: World)
    requires Typed(w)
  {
    w.synced ==>
      forall u: nat :: u < w.box.n && w.box.Subscribed(u) && SettledSlot(w.box.slots[u]) ==>
        w.view[u].Some? && SamePayload(w.view[u].value, w.box.slots[u].value.held)
  }

  predicate SettledSlot(slot: Option<Slot>) {
    slot.Some? && slot.value.initialized && !slot.value.dirty
  }

  /** A calm drain has delivered the first universes queued at its start, and the rest still lead the queue. */
  ghost predicate DrainInv(w: World) {
    w.drain.Draining? ==>
      && |w.drain.frames| + w.drain.remaining <= |w.drain.started|
      && (w.drain.calm ==>
        && w.drain.remaining <= |w.box.pending|
        && Distinct(w.drain.started)
        && w.drain.started == FrameUniverses(w.drain.frames) + Universes(w.box.pending[..w.drain.remaining]))
  }

  ghost predicate Inv(w: World) {
    && Typed(w)
    && RingInv(w.box) && SlotInv(w.box) && AccountInv(w) && KnownInv(w) && ViewInv(w) && DrainInv(w)
  }

  lemma InvStart(n: nat, m: nat)
    ensures Inv(Start(n, m))
  {
  }

  lemma RingFits(box: Mailbox)
    requires box.Shape() && RingInv(box)
    ensures |box.pending| <= box.n
    ensures forall u: nat :: u < box.n && !Queued(box.pending, u) ==> |box.pending| < box.n
  {
    var us := Universes(box.pending);
    DistinctBelow(us, box.n);
    forall u: nat | u < box.n && !Queued(box.pending, u) ensures |box.pending| < box.n {
      DistinctBelow(us + [u], box.n);
    }
  }

  /** The packet meets a subscribed universe. */
  predicate Relevant(w: World, e: Event) {
    e.PublishPacket? && e.data.Some? && w.box.Subscribed(e.universe)
  }

  predicate SlotSatisfied(w: World, e: Event)
    requires e.PublishPacket? && e.data.Some?
  {
    var u := e.universe;
    u < |w.box.slots| && w.box.slots[u].Some? && w.box.slots[u].value.initialized &&
    Agree(w.box.slots[u].value.held, e.data.value, w.box.Mask(u))
  }

  lemma PublishUnaltered(w: World, e: Event)
    requires Inv(w) && Relevant(w, e) && SlotSatisfied(w, e)
    ensures Inv(Step(w, e))
  {
    UnalteredKeepsBox(w, e);
    UnalteredKeepsHistory(w, e);
  }

  lemma UnalteredKeepsBox(w: World, e: Event)
    requires Inv(w) && Relevant(w, e) && SlotSatisfied(w, e)
    ensures var r := Step(w, e); Typed(r) && RingInv(r.box) && SlotInv(r.box) && AccountInv(r) && DrainInv(r)
  {
    assert Step(w, e).box.pending == w.box.pending;
  }

  lemma UnalteredKeepsHistory(w: World, e: Event)
    requires Inv(w) && Relevant(w, e) && SlotSatisfied(w, e)
    ensures var r := Step(w, e); Typed(r) && KnownInv(r) && ViewInv(r)
  {
  }

  /** A change of a queued slot is merged into it. */
  predicate Coalesces(w: World, e: Event) {
    && Relevant(w, e) && !SlotSatisfied(w, e) && e.universe < |w.box.slots| && w.box.slots[e.universe].Some?
    && w.box.slots[e.universe].value.dirty
  }

  lemma CoalescedKeepsRing(w: World, e: Event)
    requires Inv(w) && Coalesces(w, e)
    ensures var r := Step(w, e); Typed(r) && RingInv(r.box) && DrainInv(r)
  {
    var r := Step(w, e);
    assert r.box.pending == w.box.pending;
    assert Queued(w.box.pending, e.universe);
  }

  lemma CoalescedKeepsSlots(w: World, e: Event)
    requires Inv(w) && Coalesces(w, e)
    ensures var r := Step(w, e); Typed(r) && SlotInv(r.box) && AccountInv(r)
  {
    assert Step(w, e).box.pending == w.box.pending;
  }

  lemma CoalescedKeepsHistory(w: World, e: Event)
    requires Inv(w) && Coalesces(w, e)
    ensures var r := Step(w, e); Typed(r) && KnownInv(r) && ViewInv(r)
  {
  }

  lemma PublishCoalesced(w: World, e: Event)
    requires Inv(w) && Coalesces(w, e)
    ensures Inv(Step(w, e))
  {
    CoalescedKeepsRing(w, e);
    CoalescedKeepsSlots(w, e);
    CoalescedKeepsHistory(w, e);
  }

  predicate Enqueues(w: World, e: Event) {
    Relevant(w, e) && !SlotSatisfied(w, e) && e.universe < |w.box.slots| && w.box.slots[e.universe].Some? &&
    !w.box.slots[e.universe].value.dirty
  }

  /** A clean slot turned dirty gains the youngest token, and there is room for it. */
  lemma EnqueueEffect(w: World, e: Event)
    requires Inv(w) && Enqueues(w, e)
    ensures var u, box, r := e.universe, w.box, Step(w, e).box;
            && !Queued(box.pending, u) && |box.pending| < box.n
            && r.pending == box.pending + [Token(u, box.generation, box.nextToken + 1)]
            && |r.slots| == |box.slots| && r.slots[u].Some?
            && LiveToken(r, r.pending[|box.pending|])
            && (forall v :: 0 <= v < |r.slots| && v != u ==> r.slots[v] == box.slots[v])
  {
    var u := e.universe;
    forall i | 0 <= i < |w.box.pending| ensures w.box.pending[i].universe != u {
      assert LiveToken(w.box, w.box.pending[i]);
    }
    RingFits(w.box);
    assert !Queued(w.box.pending, u);
  }

  lemma EnqueueKeepsRing(w: World, e: Event)
    requires Inv(w) && Enqueues(w, e)
    ensures RingInv(Step(w, e).box)
  {
    var u, box, r := e.universe, w.box, Step(w, e).box;
    EnqueueEffect(w, e);
    QueuedGrows(box.pending, r.pending);
    assert r.pending[|box.pending|].universe == u;
    forall i | 0 <= i < |r.pending| ensures LiveToken(r, r.pending[i]) {
      if i < |box.pending| {
        assert LiveToken(box, box.pending[i]);
      }
    }
    forall i, j | 0 <= i < j < |r.pending| ensures r.pending[i].universe != r.pending[j].universe {
      assert box.pending[i].universe != u;
    }
  }

  lemma EnqueueKeepsSlots(w: World, e: Event)
    requires Inv(w) && Enqueues(w, e)
    ensures Typed(Step(w, e)) && SlotInv(Step(w, e).box) && AccountInv(Step(w, e))
  {
    EnqueueEffect(w, e);
  }

  lemma EnqueueKeepsHistory(w: World, e: Event)
    requires Inv(w) && Enqueues(w, e)
    ensures Typed(Step(w, e)) && KnownInv(Step(w, e)) && ViewInv(Step(w, e)) && DrainInv(Step(w, e))
  {
    EnqueueEffect(w, e);
    EnqueueKeepsSlots(w, e);
    EnqueueKeepsDrain(w, e);
  }

  lemma EnqueueKeepsDrain(w: World, e: Event)
    requires Inv(w) && Enqueues(w, e)
    ensures DrainInv(Step(w, e))
  {
    EnqueueEffect(w, e);
    if w.drain.Draining? && w.drain.calm {
      assert Step(w, e).box.pending[..w.drain.remaining] == w.box.pending[..w.drain.remaining];
    }
  }

  lemma QueuedGrows(shorter: seq<Token>, longer: seq<Token>)
    requires shorter <= longer
    ensures forall u :: Queued(shorter, u) ==> Queued(longer, u)
  {
    forall u | Queued(shorter, u) ensures Queued(longer, u) {
      var i :| 0 <= i < |shorter| && shorter[i].universe == u;
      assert longer[i].universe == u;
    }
  }

  lemma PublishKeepsInv(w: World, e: Event)
    requires Inv(w) && e.PublishPacket?
    ensures Inv(Step(w, e))
  {
    if Relevant(w, e) {
      if SlotSatisfied(w, e) {
        PublishUnaltered(w, e);
      } else if w.box.slots[e.universe].value.dirty {
        PublishCoalesced(w, e);
      } else {
        EnqueueKeepsRing(w, e);
        EnqueueKeepsSlots(w, e);
        EnqueueKeepsHistory(w, e);
      }
    }
  }

  lemma PopEffect(w: World)
    requires Inv(w) && Enabled(w, PopToken)
    ensures var u, r := w.box.pending[0].universe, Step(w, PopToken);
            && u < w.box.n && w.box.slots[u].Some?
            && Pop(w.box).1 == Some(w.box.slots[u].value.held)
            && r.box.pending == w.box.pending[1..]
            && r.box.slots == w.box.slots[u := Some(w.box.slots[u].value.(dirty := false, queued := false))]
            && r.view == w.view[u := Pop(w.box).1]
            && w.box.slots[u].value.held.universe == u
  {
    assert LiveToken(w.box, w.box.pending[0]);
  }

  lemma PopKeepsRing(w: World)
    requires Inv(w) && Enabled(w, PopToken)
    ensures RingInv(Step(w, PopToken).box)
  {
    PopEffect(w);
    var box, r := w.box, Step(w, PopToken).box;
    forall i | 0 <= i < |r.pending| ensures LiveToken(r, r.pending[i]) {
      assert LiveToken(box, box.pending[i + 1]);
    }
    forall v | 0 <= v < |r.slots| && r.slots[v].Some? && (r.slots[v].value.dirty || r.slots[v].value.queued)
      ensures Queued(r.pending, v)
    {
      var i :| 0 <= i < |box.pending| && box.pending[i].universe == v;
      assert r.pending[i - 1].universe == v;
    }
  }

  lemma PopKeepsSlots(w: World)
    requires Inv(w) && Enabled(w, PopToken)
    ensures var r := Step(w, PopToken); Typed(r) && SlotInv(r.box) && AccountInv(r) && KnownInv(r) && ViewInv(r)
  {
    PopEffect(w);
  }

  /** Delivering the first queued universe moves it from the queue's part of the drain to the frames' part. */
  lemma FirstIsDelivered(frames: seq<Frame>, frame: Frame, pending: seq<Token>, k: nat, started: seq<nat>)
    requires 0 < k <= |pending| && frame.universe == pending[0].universe
    requires started == FrameUniverses(frames) + Universes(pending[..k])
    ensures started == FrameUniverses(frames + [frame]) + Universes(pending[1..][..k - 1])
  {
    assert Universes(pending[..k]) == [pending[0].universe] + Universes(pending[1..][..k - 1]);
    assert FrameUniverses(frames + [frame]) == FrameUniverses(frames) + [frame.universe];
  }

  lemma PopAdvancesDrain(w: World)
    requires Inv(w) && Enabled(w, PopToken)
    ensures var r := Step(w, PopToken);
            && r.box.pending == w.box.pending[1..] && Pop(w.box).1.Some?
            && Pop(w.box).1.value.universe == w.box.pending[0].universe
            && r.drain == w.drain.(remaining := w.drain.remaining - 1, frames := w.drain.frames + [Pop(w.box).1.value])
  {
    PopEffect(w);
  }

  lemma PopKeepsDrain(w: World)
    requires Inv(w) && Enabled(w, PopToken)
    ensures DrainInv(Step(w, PopToken))
  {
    PopAdvancesDrain(w);
    if w.drain.calm {
      FirstIsDelivered(w.drain.frames, Pop(w.box).1.value, w.box.pending, w.drain.remaining, w.drain.started);
    }
  }

  lemma RenewalKeepsRing(box: Mailbox, next: Option<Subscription>)
    requires box.Shape() && RingInv(box) && (next.Some? ==> next.value.Valid(box.n, box.m))
    ensures SetSubscription(box, next).Shape() && RingInv(SetSubscription(box, next))
  {
  }

  lemma RenewalKeepsSlots(box: Mailbox, next: Option<Subscription>)
    requires box.Shape() && SlotInv(box) && (next.Some? ==> next.value.Valid(box.n, box.m))
    ensures SlotInv(SetSubscription(box, next))
  {
  }

  lemma SubscribeKeepsBox(w: World, e: Event)
    requires Inv(w) && e.Subscribe? && Admissible(w, e)
    ensures var r := Step(w, e); Typed(r) && RingInv(r.box) && SlotInv(r.box)
  {
    RenewalKeepsRing(w.box, e.next);
    RenewalKeepsSlots(w.box, e.next);
  }

  lemma ResetKeepsBox(w: World, e: Event)
    requires Inv(w) && e.Reset? && Admissible(w, e)
    ensures var r := Step(w, e); Typed(r) && RingInv(r.box) && SlotInv(r.box)
  {
  }

  lemma RetireKeepsBox(w: World, e: Event)
    requires Inv(w) && (e.Subscribe? || e.Reset?) && Admissible(w, e)
    ensures var r := Step(w, e); Typed(r) && RingInv(r.box) && SlotInv(r.box)
  {
    if e.Subscribe? {
      SubscribeKeepsBox(w, e);
    } else {
      ResetKeepsBox(w, e);
    }
  }

  lemma RetireKeepsHistory(w: World, e: Event)
    requires Inv(w) && (e.Subscribe? || e.Reset?) && Admissible(w, e)
    ensures var r := Step(w, e); Typed(r) && KnownInv(r) && ViewInv(r) && AccountInv(r) && DrainInv(r)
  {
    RetireKeepsBox(w, e);
    var r := Step(w, e);
    forall u: nat | u < r.box.n && r.box.Subscribed(u) && r.box.slots[u].Some?
      ensures r.box.slots[u].value.initialized <==> r.known[u].Some?
      ensures r.known[u].Some? ==> Agree(r.box.slots[u].value.held, r.known[u].value, r.box.Mask(u))
    {
      if e.Subscribe? && Retained(w.box, e.next, u) {
        assert w.box.Subscribed(u) && r.box.Mask(u) <= w.box.Mask(u);
      }
    }
  }

  lemma ReadingKeepsInv(w: World)
    requires Inv(w)
    ensures Inv(Step(w, ReadHeldStates))
  {
    var r := Step(w, ReadHeldStates);
    assert r.box == w.box;
    assert KnownInv(r) && ViewInv(r) && DrainInv(r);
  }

  lemma BeginDrainKeepsInv(w: World)
    requires Inv(w) && Enabled(w, BeginDrain)
    ensures Inv(Step(w, BeginDrain))
  {
    var r := Step(w, BeginDrain);
    assert r.box == w.box && r.known == w.known && r.view == w.view;
    assert w.box.pending[..|w.box.pending|] == w.box.pending;
    assert FrameUniverses([]) + Universes(w.box.pending) == Universes(w.box.pending);
    assert KnownInv(r) && ViewInv(r) && DrainInv(r);
  }

  lemma InvStep(w: World, e: Event)
    requires Inv(w) && Enabled(w, e) && Admissible(w, e)
    ensures Inv(Step(w, e))
  {
    match e
    case PublishPacket(_, _, _, _) => PublishKeepsInv(w, e);
    case PopToken => PopKeepsRing(w); PopKeepsSlots(w); PopKeepsDrain(w);
    case Subscribe(_) => RetireKeepsBox(w, e); RetireKeepsHistory(w, e);
    case Reset => RetireKeepsBox(w, e); RetireKeepsHistory(w, e);
    case ReadHeldStates => ReadingKeepsInv(w);
    case BeginDrain => BeginDrainKeepsInv(w);
    case EndDrain => assert Step(w, e).box == w.box;
  }

  // ----- what every run guarantees -----

  ghost predicate IsRun(n: nat, m: nat, ws: seq<World>, es: seq<Event>) {
    && |ws| == |es| + 1 && ws[0] == Start(n, m)
    && forall i :: 0 <= i < |es| ==>
         Enabled(ws[i], es[i]) && Admissible(ws[i], es[i]) && (Typed(ws[i]) ==> ws[i + 1] == Step(ws[i], es[i]))
  }

  ghost predicate Reachable(w: World) {
    exists n: nat, m: nat, ws: seq<World>, es: seq<Event> :: IsRun(n, m, ws, es) && w in ws
  }

  lemma {:induction false} RunsKeepInv(n: nat, m: nat, ws: seq<World>, es: seq<Event>, k: nat)
    requires IsRun(n, m, ws, es) && k < |ws|
    ensures Inv(ws[k])
  {
    if k == 0 {
      InvStart(n, m);
    } else {
      RunsKeepInv(n, m, ws, es, k - 1);
      InvStep(ws[k - 1], es[k - 1]);
    }
  }

  /** Being well typed is no restriction on the statements below: every reachable world is. */
  lemma ReachableInv(w: World)
    requires Reachable(w)
    ensures Inv(w)
  {
    var n: nat, m: nat, ws, es :| IsRun(n, m, ws, es) && w in ws;
    var k :| 0 <= k < |ws| && ws[k] == w;
    RunsKeepInv(n, m, ws, es, k);
  }

  /** The queue lists each dirty universe exactly once and nothing else, so it never outgrows the ring. */
  lemma QueueIsTheDirtySet(w: World)
    requires Reachable(w) && Typed(w)
    ensures Distinct(Universes(w.box.pending))
    ensures forall u: nat :: u in Universes(w.box.pending) <==>
              u < w.box.n && w.box.slots[u].Some? && w.box.slots[u].value.dirty
    ensures |w.box.pending| <= w.box.n
  {
    ReachableInv(w);
    RingFits(w.box);
    var us := Universes(w.box.pending);
    forall u: nat
      ensures u in us <==> u < w.box.n && w.box.slots[u].Some? && w.box.slots[u].value.dirty
    {
      if u in us {
        var i :| 0 <= i < |us| && us[i] == u;
        assert LiveToken(w.box, w.box.pending[i]);
      }
      if u < w.box.n && w.box.slots[u].Some? && w.box.slots[u].value.dirty {
        var i :| 0 <= i < |w.box.pending| && w.box.pending[i].universe == u;
        assert us[i] == u;
      }
    }
  }

  /** Conservation: each counted update was coalesced, consumed, still waits, or was retired unread. */
  lemma UpdatesAreConserved(w: World)
    requires Reachable(w) && Typed(w)
    ensures w.box.stats.updates == w.box.stats.coalesced + w.box.stats.consumed + |w.box.pending| + w.retired
    ensures w.box.stats.relevant == w.box.stats.unaltered + w.box.stats.updates
  {
    ReachableInv(w);
  }

  /** No token is ever stale: each one taken yields the latest state of its universe. */
  lemma EveryTokenDelivers(w: World)
    requires Reachable(w) && Typed(w) && |w.box.pending| > 0
    ensures Pop(w.box).1.Some?
    ensures var f := Pop(w.box).1.value;
            && f.universe == w.box.pending[0].universe && w.box.Subscribed(f.universe)
            && w.known[f.universe].Some? && Agree(f, w.known[f.universe].value, w.box.Mask(f.universe))
  {
    ReachableInv(w);
    assert LiveToken(w.box, w.box.pending[0]);
  }

  /** A change on a clean universe is always queued; no token is dropped for want of room. */
  lemma ChangeIsQueued(w: World, u: nat, packet: seq<byte>, sequence: nat, now: nat)
    requires Reachable(w) && Typed(w) && Publish(w.box, u, Some(packet), sequence, now).1
    ensures u in Universes(Publish(w.box, u, Some(packet), sequence, now).0.pending)
  {
    ReachableInv(w);
    RingFits(w.box);
    var r := Publish(w.box, u, Some(packet), sequence, now).0;
    if w.box.slots[u].value.dirty {
      var i :| 0 <= i < |w.box.pending| && w.box.pending[i].universe == u;
      assert Universes(r.pending)[i] == u;
    } else {
      forall i | 0 <= i < |w.box.pending| ensures w.box.pending[i].universe != u {
        assert LiveToken(w.box, w.box.pending[i]);
      }
      assert !Queued(w.box.pending, u) && !w.box.slots[u].value.queued;
      assert Universes(r.pending)[|w.box.pending|] == u;
    }
  }

  /** Every relevant packet is stamped on the held frame; the counter and the payload move only with a change. */
  lemma PacketIsStamped(w: World, u: nat, packet: seq<byte>, sequence: nat, now: nat)
    requires Reachable(w) && Typed(w) && w.box.Subscribed(u)
    ensures u < w.box.n && w.box.slots[u].Some?
    ensures var (r, updated) := Publish(w.box, u, Some(packet), sequence, now);
            var before := w.box.slots[u].value.held;
            && |r.slots| == w.box.n && r.slots[u].Some?
            && var after := r.slots[u].value.held;
            && after.lastRx == now && after.sequence == sequence
            && (!updated ==> after == before.(lastRx := now, sequence := sequence))
            && (updated ==> after.universe == u && after.counter == (before.counter + 1) % COUNTER_LIMIT &&
                            after.length == SafeLength(w.box.m, |packet|) && after.data == Payload(w.box.m, packet))
            && (forall v :: 0 <= v < w.box.n && v != u ==> r.slots[v] == w.box.slots[v])
  {
    ReachableInv(w);
  }

  /** The packet tells something new about the masked offsets of its universe. */
  ghost predicate TellsNews(w: World, u: nat, packet: seq<byte>)
    requires Typed(w) && u < w.box.n
  {
    w.known[u].None? || exists o :: o in w.box.Mask(u) && PacketByte(w.known[u].value, o) != PacketByte(packet, o)
  }

  /**
    A packet is an update exactly if it is the first for its universe or differs from the last one on the mask. Each
    packet counts once as relevant or irrelevant, a relevant one once as update or unaltered, an update of a universe
    that still waits as coalesced. A null or foreign packet does nothing else.
  */
  lemma EveryPacketIsCounted(w: World, u: nat, data: Option<seq<byte>>, sequence: nat, now: nat)
    requires Reachable(w) && Typed(w)
    ensures w.box.Subscribed(u) ==> u < w.box.n
    ensures var (r, updated) := Publish(w.box, u, data, sequence, now);
            var s, relevant := w.box.stats, data.Some? && w.box.Subscribed(u);
            && (updated <==> relevant && TellsNews(w, u, data.value))
            && r.stats.relevant == s.relevant + (if relevant then 1 else 0)
            && r.stats.irrelevant == s.irrelevant + (if relevant then 0 else 1)
            && r.stats.updates == s.updates + (if updated then 1 else 0)
            && r.stats.unaltered == s.unaltered + (if relevant && !updated then 1 else 0)
            && r.stats.coalesced == s.coalesced + (if updated && u in Universes(w.box.pending) then 1 else 0)
            && r.stats.consumed == s.consumed && (!relevant ==> r == w.box.(stats := r.stats))
  {
    ReachableInv(w);
    QueueIsTheDirtySet(w);
  }

  /** The mailbox refines "remember the last packet": readable exactly when one is known, equal on the mask. */
  lemma HeldIsTheLastPacket(w: World, u: nat)
    requires Reachable(w) && Typed(w) && u < w.box.n
    ensures Held(w.box, u).Some? <==> w.box.Subscribed(u) && w.known[u].Some?
    ensures Held(w.box, u).Some? ==> Agree(Held(w.box, u).value, w.known[u].value, w.box.Mask(u))
  {
    ReachableInv(w);
  }

  /** A new subscription keeps a held universe exactly when it stays subscribed and its mask does not grow. */
  lemma ResubscriptionKeepsExactlyTheProven(w: World, next: Option<Subscription>, u: nat)
    requires Reachable(w) && Typed(w) && Admissible(w, Subscribe(next))
    requires u < w.box.n && Held(w.box, u).Some?
    ensures var after := SetSubscription(w.box, next);
            && after.Shape()
            && (Held(after, u).Some? <==>
                  next.Some? && next.value.Contains(u) && next.value.Offsets(u) <= w.box.Mask(u))
            && (Held(after, u).Some? ==>
                  SamePayload(Held(after, u).value, Held(w.box, u).value) && w.known[u].Some? &&
                  Agree(Held(after, u).value, w.known[u].value, after.Mask(u)))
  {
    ReachableInv(w);
    RetireKeepsBox(w, Subscribe(next));
    RetireKeepsHistory(w, Subscribe(next));
  }

  /** A drain that began at step `j` and was left alone up to step `k`. */
  ghost predicate DrainsAlone(es: seq<Event>, j: nat, k: nat) {
    && j < k <= |es| && es[j].BeginDrain?
    && forall i :: j < i < k ==> !es[i].Subscribe? && !es[i].Reset? && !es[i].EndDrain?
  }

  lemma {:induction false} DrainStaysCalm(n: nat, m: nat, ws: seq<World>, es: seq<Event>, j: nat, k: nat)
    requires IsRun(n, m, ws, es) && DrainsAlone(es, j, k)
    ensures ws[k].drain.Draining? && ws[k].drain.calm && ws[k].drain.started == Universes(ws[j].box.pending)
    decreases k
  {
    RunsKeepInv(n, m, ws, es, k - 1);
    if k > j + 1 {
      DrainStaysCalm(n, m, ws, es, j, k - 1);
    }
  }

  /** A drain untouched by resets and re-subscriptions returns each universe queued at its start exactly once, in order. */
  lemma CalmDrainIsExact(n: nat, m: nat, ws: seq<World>, es: seq<Event>, j: nat, k: nat)
    requires IsRun(n, m, ws, es) && DrainsAlone(es, j, k) && k < |es| && es[k].EndDrain?
    ensures ws[k].drain.Draining? && FrameUniverses(ws[k].drain.frames) == Universes(ws[j].box.pending)
    ensures Distinct(Universes(ws[j].box.pending))
  {
    DrainStaysCalm(n, m, ws, es, j, k);
    RunsKeepInv(n, m, ws, es, k);
    assert ws[k].drain.remaining == 0;
    assert Universes(ws[k].box.pending[..0]) == [];
  }

  lemma {:induction false} ReadingLasts(n: nat, m: nat, ws: seq<World>, es: seq<Event>, j: nat, k: nat)
    requires IsRun(n, m, ws, es) && j < k <= |es| && es[j].ReadHeldStates?
    requires forall i :: j < i < k ==> !es[i].Subscribe?
    ensures ws[k].synced
    decreases k
  {
    RunsKeepInv(n, m, ws, es, k - 1);
    if k > j + 1 {
      ReadingLasts(n, m, ws, es, j, k - 1);
    }
  }

  /**
    A consumer that read the held states after the last subscription, and since then every drained frame, agrees with the
    last packet of every known universe once the queue is empty: nothing is lost.
  */
  lemma DrainedConsumerIsUpToDate(n: nat, m: nat, ws: seq<World>, es: seq<Event>, j: nat, k: nat, u: nat)
    requires IsRun(n, m, ws, es) && j < k <= |es| && es[j].ReadHeldStates?
    requires forall i :: j < i < k ==> !es[i].Subscribe?
    requires Typed(ws[k]) && ws[k].box.pending == []
    requires u < ws[k].box.n && ws[k].box.Subscribed(u) && ws[k].known[u].Some?
    ensures ws[k].view[u].Some? && Agree(ws[k].view[u].value, ws[k].known[u].value, ws[k].box.Mask(u))
  {
    ReadingLasts(n, m, ws, es, j, k);
    RunsKeepInv(n, m, ws, es, k);
    assert !Queued(ws[k].box.pending, u);
    assert SettledSlot(ws[k].box.slots[u]);
  }

  // ----- the same facts about the mailbox alone -----

  /** What every mailbox that occurs in a run satisfies. */
  ghost predicate BoxInv(box: Mailbox) {
    && box.Shape() && RingInv(box) && SlotInv(box)
    && box.stats.relevant == box.stats.unaltered + box.stats.updates
    && box.stats.coalesced + box.stats.consumed + |box.pending| <= box.stats.updates
  }

  function KnownOf(slot: Option<Slot>): Option<seq<byte>> {
    if slot.Some? && slot.value.initialized && slot.value.held.length <= |slot.value.held.data|
    then Some(slot.value.held.data[..slot.value.held.length]) else None
  }

  /** A world around a mailbox: its held frames count as the last packets, and nobody drains it. */
  ghost function WorldOf(box: Mailbox): World
    requires BoxInv(box)
  {
    World(box, seq(box.n, (u: nat) requires u < box.n => KnownOf(box.slots[u])), seq(box.n, _ => None), false,
      box.stats.updates - (box.stats.coalesced + box.stats.consumed + |box.pending|), Idle)
  }

  lemma WorldOfInv(box: Mailbox)
    requires BoxInv(box)
    ensures Inv(WorldOf(box))
  {
  }

  lemma EmptyBoxInv(n: nat, m: nat)
    ensures BoxInv(Empty(n, m))
  {
  }

  /** Publishing, subscribing and resetting keep them. */
  lemma CallKeepsBoxInv(box: Mailbox, e: Event)
    requires BoxInv(box) && (e.PublishPacket? || e.Subscribe? || e.Reset?)
    requires e.Subscribe? && e.next.Some? ==> e.next.value.Valid(box.n, box.m)
    ensures Typed(WorldOf(box)) && BoxInv(Step(WorldOf(box), e).box)
  {
    WorldOfInv(box);
    InvStep(WorldOf(box), e);
  }

  lemma PopKeepsBoxInv(box: Mailbox)
    requires BoxInv(box) && |box.pending| > 0
    ensures BoxInv(Pop(box).0)
  {
    WorldOfInv(box);
    var w := WorldOf(box);
    InvStep(w, BeginDrain);
    InvStep(Step(w, BeginDrain), PopToken);
  }

  /** Taking a token: its frame is the held one of its universe, which is cleaned; nothing else changes. */
  lemma PopIsLive(box: Mailbox)
    requires BoxInv(box) && |box.pending| > 0
    ensures var u := box.pending[0].universe;
            && u < box.n && box.slots[u].Some? && box.slots[u].value.held.universe == u
            && BoxInv(Pop(box).0)
            && Pop(box) == (box.(pending := box.pending[1..], slots := box.slots[u := Cleaned(box.slots[u])],
                                 stats := box.stats.(consumed := box.stats.consumed + 1)),
                            Some(box.slots[u].value.held))
  {
    PopKeepsBoxInv(box);
    assert LiveToken(box, box.pending[0]);
  }

  /** A slot whose pending update was taken: only its flags differ. */
  function Cleaned(slot: Option<Slot>): Option<Slot> {
    match slot
    case None => None
    case Some(s) => Some(s.(dirty := false, queued := false))
  }

  ghost predicate QueuedAmong(pending: seq<Token>, k: nat, u: nat) {
    exists j :: 0 <= j < k && j < |pending| && pending[j].universe == u
  }

  /**
    The first `k` queued universes were taken from `start`: in order, each with its held frame; they are clean now, the
    rest still waits, and nothing else changed.
  */
  ghost predicate Taken(start: Mailbox, now: Mailbox, frames: seq<Frame>, k: nat)
    requires k <= |start.pending| && |start.slots| == start.n
  {
    && |frames| == k
    && (forall j :: 0 <= j < k ==> TakenFrame(start, start.pending[j].universe, frames[j]))
    && now == start.(pending := start.pending[k..], slots := now.slots,
                     stats := start.stats.(consumed := start.stats.consumed + k))
    && |now.slots| == |start.slots|
    && forall u: nat :: u < |start.slots| ==>
         now.slots[u] == if QueuedAmong(start.pending, k, u) then Cleaned(start.slots[u]) else start.slots[u]
  }

  predicate TakenFrame(start: Mailbox, u: nat, frame: Frame) {
    u < |start.slots| && start.slots[u].Some? && frame == start.slots[u].value.held && frame.universe == u
  }

  lemma TakeOneMore(start: Mailbox, now: Mailbox, frames: seq<Frame>, k: nat)
    requires BoxInv(start) && k < |start.pending| && Taken(start, now, frames, k)
    requires BoxInv(now)
    ensures |now.pending| > 0 && Pop(now).1.Some?
    ensures Taken(start, Pop(now).0, frames + [Pop(now).1.value], k + 1) && BoxInv(Pop(now).0)
  {
    PopIsLive(now);
    var u := start.pending[k].universe;
    assert now.pending[0] == start.pending[k] && start.pending[k..][1..] == start.pending[k + 1..];
    assert !QueuedAmong(start.pending, k, u);
    assert QueuedAmong(start.pending, k + 1, u);
    assert forall v: nat :: v != u ==> (QueuedAmong(start.pending, k + 1, v) <==> QueuedAmong(start.pending, k, v)) by {
      forall v: nat | v != u ensures QueuedAmong(start.pending, k + 1, v) <==> QueuedAmong(start.pending, k, v) {
        if QueuedAmong(start.pending, k, v) {
          var j :| 0 <= j < k && j < |start.pending| && start.pending[j].universe == v;
          assert QueuedAmong(start.pending, k + 1, v);
        }
      }
    }
  }
}
