/** Every action keeps what the consumer has popped equal to the tickets it has passed, in order. */
module LogQueueRead {
  import opened Wrappers
  import opened LogQueue
  import opened LogQueueInvariant

  function DealAt(deals: seq<seq<Ticket>>, e: nat): seq<Ticket> {
    if e < |deals| then deals[e] else []
  }

  /** All tickets in the order of buffer, then slot. */
  function Flat(deals: seq<seq<Ticket>>): seq<Ticket> {
    if deals == [] then [] else Flat(deals[..|deals| - 1]) + deals[|deals| - 1]
  }

  function Lines(ts: seq<Ticket>): (r: seq<Line>)
    ensures |r| == |ts| && forall i :: 0 <= i < |ts| ==> r[i] == ts[i].line
  {
    if ts == [] then [] else Lines(ts[..|ts| - 1]) + [ts[|ts| - 1].line]
  }

  /** The buffer and slot of the next line to pop; the access in progress counts as done. */
  function ReadEpoch(s: State): nat {
    s.dequeued + if s.consumer.LockPop? || s.consumer.Dequeue? then 1 else 0
  }

  function ReadPos(s: State): nat {
    s.readIndex + if s.consumer.Advance? then 1 else 0
  }

  /** How many buffers have been handed to the consumer so far. */
  ghost function Enqueued(s: State): nat {
    s.epoch + 1 +
    if s.switcher.Some? && s.switcher.value in s.locals && s.locals[s.switcher.value].pc.ResetIndex? then 1 else 0
  }

  ghost predicate QueueInv(queue: seq<nat>, dequeued: nat, enqueued: nat) {
    && |queue| == enqueued - dequeued
    && forall i :: 0 <= i < |queue| ==> queue[i] == dequeued + i
  }

  ghost predicate ConsumerInv(k: ConsumerPc, readBuffer: Option<nat>, readIndex: nat, queue: seq<nat>, dequeued: nat) {
    && (readBuffer.Some? ==> readBuffer.value == dequeued && queue != [])
    && (readBuffer.None? ==> readIndex == 0)
    && (k.LockFront? || k.ReadFront? || k.LockPop? || k.Dequeue? || k.UnlockPop? ==> readBuffer.None?)
    && (k.LockPop? || k.Dequeue? ==> queue != [])
    && (Reading(k) ==> readBuffer.Some?)
  }

  ghost predicate PassedInv(c: Config, deals: seq<seq<Ticket>>, re: nat, rp: nat, popped: seq<Line>) {
    && re <= |deals|
    && (forall e :: 0 <= e < re ==> |deals[e]| == c.size)
    && rp <= |DealAt(deals, re)|
    && popped == Lines(Flat(deals[..re]) + DealAt(deals, re)[..rp])
  }

  /** A slot that is ready and not yet read holds the line of the producer that drew it. */
  ghost predicate UnreadInv(b: Buffer, deal: seq<Ticket>, e: nat, re: nat, rp: nat) {
    forall i {:trigger b.slots[i]} :: 0 <= i < |b.slots| && i < |deal| && b.slots[i].ready && (e > re || (e == re && i >= rp)) ==>
      b.slots[i].item == Some(deal[i].line)
  }

  ghost predicate ReadInv(c: Config, s: State)
    requires Shape(c, s) && |s.deals| == |s.buffers|
  {
    && QueueInv(s.queue, s.dequeued, Enqueued(s))
    && ConsumerInv(s.consumer, s.readBuffer, s.readIndex, s.queue, s.dequeued)
    && (s.consumer.Move? || s.consumer.Advance? ==> s.buffers[s.readBuffer.value].slots[s.readIndex].ready)
    && PassedInv(c, s.deals, ReadEpoch(s), ReadPos(s), s.popped)
    && (forall e :: 0 <= e < |s.buffers| ==>
          UnreadInv(s.buffers[e], s.deals[e], e, ReadEpoch(s), ReadPos(s)))
  }

  /** What a producer may do to a slot: a line it leaves ready is the line its ticket names. */
  ghost predicate SlotStep(old_: Slot, new_: Slot, oldDeal: seq<Ticket>, newDeal: seq<Ticket>, i: nat) {
    new_.ready && i < |newDeal| ==>
      new_.item == Some(newDeal[i].line) || (old_.ready && i < |oldDeal| && new_.item == old_.item)
  }

  ghost predicate BufferStep(old_: Buffer, new_: Buffer, oldDeal: seq<Ticket>, newDeal: seq<Ticket>) {
    && oldDeal <= newDeal
    && |old_.slots| == |new_.slots|
    && forall i {:trigger new_.slots[i]} :: 0 <= i < |new_.slots| ==> SlotStep(old_.slots[i], new_.slots[i], oldDeal, newDeal, i)
  }

  /** What a producer's step may do, seen from the consumer. */
  ghost predicate ProducerFrame(c: Config, s: State, s': State)
    requires Shape(c, s) && Shape(c, s') && |s.deals| == |s.buffers| && |s'.deals| == |s'.buffers|
  {
    && s'.dequeued == s.dequeued && s'.consumer == s.consumer && s'.popped == s.popped
    && s'.readBuffer == s.readBuffer && s'.readIndex == s.readIndex
    && ((s'.queue == s.queue && Enqueued(s') == Enqueued(s))
        || (s'.queue == s.queue + [Enqueued(s)] && Enqueued(s') == Enqueued(s) + 1))
    && |s.buffers| <= |s'.buffers|
    && (forall e :: 0 <= e < |s'.deals| ==> |s'.deals[e]| <= c.size)
    && (forall e :: |s.buffers| <= e < |s'.buffers| ==> s'.deals[e] == [])
    && (forall e :: 0 <= e < |s.buffers| ==> BufferStep(s.buffers[e], s'.buffers[e], s.deals[e], s'.deals[e]))
  }

  lemma PassedKept(c: Config, deals: seq<seq<Ticket>>, deals': seq<seq<Ticket>>, re: nat, rp: nat, popped: seq<Line>)
    requires PassedInv(c, deals, re, rp, popped)
    requires |deals| <= |deals'| && forall e :: 0 <= e < |deals'| ==> |deals'[e]| <= c.size
    requires forall e :: 0 <= e < |deals| ==> deals[e] <= deals'[e]
    ensures PassedInv(c, deals', re, rp, popped)
  {
    forall e | 0 <= e < re
      ensures deals'[e] == deals[e]
    {
      assert deals[e] <= deals'[e];
    }
    assert deals'[..re] == deals[..re];
    assert re < |deals| ==> deals[re] <= deals'[re];
    assert DealAt(deals', re)[..rp] == DealAt(deals, re)[..rp];
  }

  lemma UnreadKept(b: Buffer, b': Buffer, deal: seq<Ticket>, deal': seq<Ticket>, e: nat, re: nat, rp: nat)
    requires UnreadInv(b, deal, e, re, rp) && BufferStep(b, b', deal, deal')
    ensures UnreadInv(b', deal', e, re, rp)
  {
  }

  lemma FrameKeepsPassed(c: Config, s: State, s': State)
    requires Shape(c, s) && Shape(c, s') && |s.deals| == |s.buffers| && |s'.deals| == |s'.buffers|
    requires PassedInv(c, s.deals, ReadEpoch(s), ReadPos(s), s.popped) && ProducerFrame(c, s, s')
    ensures PassedInv(c, s'.deals, ReadEpoch(s), ReadPos(s), s'.popped)
  {
    forall e | 0 <= e < |s.deals|
      ensures s.deals[e] <= s'.deals[e]
    {
      assert BufferStep(s.buffers[e], s'.buffers[e], s.deals[e], s'.deals[e]);
    }
    PassedKept(c, s.deals, s'.deals, ReadEpoch(s), ReadPos(s), s.popped);
  }

  lemma ProducerKeepsRead(c: Config, s: State, s': State)
    requires Shape(c, s) && Shape(c, s') && |s.deals| == |s.buffers| && |s'.deals| == |s'.buffers|
    requires ReadInv(c, s) && ProducerFrame(c, s, s')
    requires s.consumer.Move? || s.consumer.Advance? ==> s'.buffers[s.readBuffer.value].slots[s.readIndex].ready
    ensures ReadInv(c, s')
  {
    FrameKeepsPassed(c, s, s');
    forall e | 0 <= e < |s'.buffers|
      ensures UnreadInv(s'.buffers[e], s'.deals[e], e, ReadEpoch(s'), ReadPos(s'))
    {
      if e < |s.buffers| {
        UnreadKept(s.buffers[e], s'.buffers[e], s.deals[e], s'.deals[e], e, ReadEpoch(s), ReadPos(s));
      }
    }
  }

  /** A step that changes nothing the consumer looks at. */
  lemma UnseenKeepsRead(c: Config, s: State, s': State)
    requires Shape(c, s) && Shape(c, s') && |s.deals| == |s.buffers| && ReadInv(c, s)
    requires s'.buffers == s.buffers && s'.deals == s.deals && s'.queue == s.queue && Enqueued(s') == Enqueued(s)
    requires s'.dequeued == s.dequeued && s'.consumer == s.consumer && s'.popped == s.popped
    requires s'.readBuffer == s.readBuffer && s'.readIndex == s.readIndex
    ensures ReadInv(c, s')
  {
  }

  lemma LoadBufferKeepsRead(c: Config, s: State, p: Producer)
    requires WriteInv(c, s) && ReadInv(c, s) && p in c.producers && s.locals[p].pc.LoadBuffer?
    requires var s' := ProduceStep(c, s, p); Shape(c, s') && |s'.deals| == |s'.buffers|
    ensures ReadInv(c, ProduceStep(c, s, p))
  {
    UnseenKeepsRead(c, s, ProduceStep(c, s, p));
  }

  lemma StoreItemFrame(c: Config, s: State, p: Producer)
    requires WriteInv(c, s) && p in c.producers && s.locals[p].pc.StoreItem?
    requires var s' := ProduceStep(c, s, p); Shape(c, s') && |s'.deals| == |s'.buffers|
    ensures ProducerFrame(c, s, ProduceStep(c, s, p))
  {
  }

  lemma StoreItemKeepsRead(c: Config, s: State, p: Producer)
    requires WriteInv(c, s) && ReadInv(c, s) && p in c.producers && s.locals[p].pc.StoreItem?
    requires var s' := ProduceStep(c, s, p); Shape(c, s') && |s'.deals| == |s'.buffers|
    ensures ReadInv(c, ProduceStep(c, s, p))
  {
    StoreItemFrame(c, s, p);
    ProducerKeepsRead(c, s, ProduceStep(c, s, p));
  }

  lemma SetReadyFrame(c: Config, s: State, p: Producer)
    requires WriteInv(c, s) && p in c.producers && s.locals[p].pc.SetReady?
    requires var s' := ProduceStep(c, s, p); Shape(c, s') && |s'.deals| == |s'.buffers|
    ensures ProducerFrame(c, s, ProduceStep(c, s, p))
  {
  }

  lemma SetReadyKeepsRead(c: Config, s: State, p: Producer)
    requires WriteInv(c, s) && ReadInv(c, s) && p in c.producers && s.locals[p].pc.SetReady?
    requires var s' := ProduceStep(c, s, p); Shape(c, s') && |s'.deals| == |s'.buffers|
    ensures ReadInv(c, ProduceStep(c, s, p))
  {
    SetReadyFrame(c, s, p);
    ProducerKeepsRead(c, s, ProduceStep(c, s, p));
  }

  lemma CountUpFrame(c: Config, s: State, p: Producer)
    requires WriteInv(c, s) && p in c.producers && s.locals[p].pc.CountUp?
    requires var s' := ProduceStep(c, s, p); Shape(c, s') && |s'.deals| == |s'.buffers|
    ensures ProducerFrame(c, s, ProduceStep(c, s, p))
  {
  }

  lemma CountUpKeepsRead(c: Config, s: State, p: Producer)
    requires WriteInv(c, s) && ReadInv(c, s) && p in c.producers && s.locals[p].pc.CountUp?
    requires var s' := ProduceStep(c, s, p); Shape(c, s') && |s'.deals| == |s'.buffers|
    ensures ReadInv(c, ProduceStep(c, s, p))
  {
    CountUpFrame(c, s, p);
    ProducerKeepsRead(c, s, ProduceStep(c, s, p));
  }

  lemma SpinKeepsRead(c: Config, s: State, p: Producer)
    requires Shape(c, s) && SwitchInv(c, s) && DealInv(c, s) && ReadInv(c, s) && p in c.producers && s.locals[p].pc.Spin?
    requires var s' := ProduceStep(c, s, p); Shape(c, s') && |s'.deals| == |s'.buffers|
    ensures ReadInv(c, ProduceStep(c, s, p))
  {
    UnseenKeepsRead(c, s, ProduceStep(c, s, p));
  }

  lemma NewBufferFrame(c: Config, s: State, p: Producer)
    requires WriteInv(c, s) && p in c.producers && s.locals[p].pc.NewBuffer?
    requires var s' := ProduceStep(c, s, p); Shape(c, s') && |s'.deals| == |s'.buffers|
    ensures ProducerFrame(c, s, ProduceStep(c, s, p))
  {
  }

  lemma NewBufferKeepsRead(c: Config, s: State, p: Producer)
    requires WriteInv(c, s) && ReadInv(c, s) && p in c.producers && s.locals[p].pc.NewBuffer?
    requires var s' := ProduceStep(c, s, p); Shape(c, s') && |s'.deals| == |s'.buffers|
    ensures ReadInv(c, ProduceStep(c, s, p))
  {
    NewBufferFrame(c, s, p);
    ProducerKeepsRead(c, s, ProduceStep(c, s, p));
  }

  lemma TakeLockKeepsRead(c: Config, s: State, p: Producer)
    requires Shape(c, s) && SwitchInv(c, s) && DealInv(c, s) && ReadInv(c, s) && p in c.producers && s.locals[p].pc.TakeLock?
    requires var s' := ProduceStep(c, s, p); Shape(c, s') && |s'.deals| == |s'.buffers|
    ensures ReadInv(c, ProduceStep(c, s, p))
  {
    UnseenKeepsRead(c, s, ProduceStep(c, s, p));
  }

  lemma EnqueueKeepsRead(c: Config, s: State, p: Producer)
    requires Shape(c, s) && SwitchInv(c, s) && DealInv(c, s) && ReadInv(c, s) && p in c.producers && s.locals[p].pc.Enqueue?
    requires var s' := ProduceStep(c, s, p); Shape(c, s') && |s'.deals| == |s'.buffers|
    ensures ReadInv(c, ProduceStep(c, s, p))
  {
    ProducerKeepsRead(c, s, ProduceStep(c, s, p));
  }

  lemma ResetIndexKeepsRead(c: Config, s: State, p: Producer)
    requires Shape(c, s) && SwitchInv(c, s) && DealInv(c, s) && ReadInv(c, s) && p in c.producers && s.locals[p].pc.ResetIndex?
    requires var s' := ProduceStep(c, s, p); Shape(c, s') && |s'.deals| == |s'.buffers|
    ensures ReadInv(c, ProduceStep(c, s, p))
  {
    ProducerKeepsRead(c, s, ProduceStep(c, s, p));
  }

  lemma ReleaseLockKeepsRead(c: Config, s: State, p: Producer)
    requires Shape(c, s) && SwitchInv(c, s) && DealInv(c, s) && ReadInv(c, s) && p in c.producers && s.locals[p].pc.ReleaseLock?
    requires var s' := ProduceStep(c, s, p); Shape(c, s') && |s'.deals| == |s'.buffers|
    ensures ReadInv(c, ProduceStep(c, s, p))
  {
    UnseenKeepsRead(c, s, ProduceStep(c, s, p));
  }

  lemma DrawFrame(c: Config, s: State, p: Producer, line: Line)
    requires WriteInv(c, s) && p in c.producers && (s.locals[p].pc.Idle? || s.locals[p].pc.Redraw?)
    requires var s' := Draw(c, s, p, line); Shape(c, s') && |s'.deals| == |s'.buffers|
    ensures ProducerFrame(c, s, Draw(c, s, p, line))
  {
  }

  lemma DrawKeepsRead(c: Config, s: State, p: Producer, line: Line)
    requires WriteInv(c, s) && ReadInv(c, s) && p in c.producers && (s.locals[p].pc.Idle? || s.locals[p].pc.Redraw?)
    requires var s' := Draw(c, s, p, line); Shape(c, s') && |s'.deals| == |s'.buffers|
    ensures ReadInv(c, Draw(c, s, p, line))
  {
    DrawFrame(c, s, p, line);
    ProducerKeepsRead(c, s, Draw(c, s, p, line));
  }

  /** The consumer takes its next place without reading a line. */
  lemma ConsumerPlaced(c: Config, s: State, s': State)
    requires Shape(c, s) && Shape(c, s') && |s.deals| == |s.buffers| && ReadInv(c, s)
    requires s'.buffers == s.buffers && s'.deals == s.deals && s'.popped == s.popped
    requires ReadEpoch(s') == ReadEpoch(s) && ReadPos(s') == ReadPos(s)
    requires QueueInv(s'.queue, s'.dequeued, Enqueued(s'))
    requires ConsumerInv(s'.consumer, s'.readBuffer, s'.readIndex, s'.queue, s'.dequeued)
    requires s'.consumer.Move? || s'.consumer.Advance? ==> s'.buffers[s'.readBuffer.value].slots[s'.readIndex].ready
    ensures ReadInv(c, s')
  {
  }

  lemma PlacedAtFront(c: Config, s: State)
    requires Shape(c, s) && Enabled(c, s, Consume) && QueueInv(s.queue, s.dequeued, Enqueued(s))
    requires ConsumerInv(s.consumer, s.readBuffer, s.readIndex, s.queue, s.dequeued)
    requires s.consumer.Start? || s.consumer.LockFront? || s.consumer.ReadFront? || s.consumer.UnlockFront? || s.consumer.Check?
    ensures var s' := ConsumeStep(c, s);
      && s'.buffers == s.buffers && s'.deals == s.deals && s'.popped == s.popped && Enqueued(s') == Enqueued(s)
      && ReadEpoch(s') == ReadEpoch(s) && ReadPos(s') == ReadPos(s)
      && QueueInv(s'.queue, s'.dequeued, Enqueued(s'))
      && ConsumerInv(s'.consumer, s'.readBuffer, s'.readIndex, s'.queue, s'.dequeued)
      && (s'.consumer.Move? ==> s'.buffers[s'.readBuffer.value].slots[s'.readIndex].ready)
      && !s'.consumer.Advance?
  {
  }

  lemma PlacedBehind(c: Config, s: State)
    requires Shape(c, s) && Enabled(c, s, Consume) && QueueInv(s.queue, s.dequeued, Enqueued(s))
    requires ConsumerInv(s.consumer, s.readBuffer, s.readIndex, s.queue, s.dequeued)
    requires s.consumer.LockPop? || s.consumer.Dequeue? || s.consumer.UnlockPop? || (s.consumer.Advance? && s.readIndex + 1 < c.size)
    ensures var s' := ConsumeStep(c, s);
      && s'.buffers == s.buffers && s'.deals == s.deals && s'.popped == s.popped && Enqueued(s') == Enqueued(s)
      && ReadEpoch(s') == ReadEpoch(s) && ReadPos(s') == ReadPos(s)
      && QueueInv(s'.queue, s'.dequeued, Enqueued(s'))
      && ConsumerInv(s'.consumer, s'.readBuffer, s'.readIndex, s'.queue, s'.dequeued)
      && (s'.consumer.Move? ==> s'.buffers[s'.readBuffer.value].slots[s'.readIndex].ready)
      && !s'.consumer.Advance?
  {
  }

  lemma ConsumerKeepsRead(c: Config, s: State)
    requires Shape(c, s) && |s.deals| == |s.buffers| && ReadInv(c, s) && Enabled(c, s, Consume)
    requires !s.consumer.Move? && (s.consumer.Advance? ==> s.readIndex + 1 < c.size)
    requires var s' := ConsumeStep(c, s); Shape(c, s') && |s'.deals| == |s'.buffers|
    ensures ReadInv(c, ConsumeStep(c, s))
  {
    match s.consumer {
      case Advance => PlacedBehind(c, s);
      case LockPop => PlacedBehind(c, s);
      case Dequeue => PlacedBehind(c, s);
      case UnlockPop => PlacedBehind(c, s);
      case _ => PlacedAtFront(c, s);
    }
    ConsumerPlaced(c, s, ConsumeStep(c, s));
  }

  lemma PassedMove(c: Config, deals: seq<seq<Ticket>>, re: nat, rp: nat, popped: seq<Line>)
    requires PassedInv(c, deals, re, rp, popped) && rp < |DealAt(deals, re)|
    ensures PassedInv(c, deals, re, rp + 1, popped + [DealAt(deals, re)[rp].line])
  {
    var ts := Flat(deals[..re]) + DealAt(deals, re)[..rp];
    var ts' := Flat(deals[..re]) + DealAt(deals, re)[..rp + 1];
    assert ts' == ts + [DealAt(deals, re)[rp]];
    assert ts'[..|ts'| - 1] == ts;
  }

  lemma PassedBuffer(c: Config, deals: seq<seq<Ticket>>, re: nat, popped: seq<Line>)
    requires PassedInv(c, deals, re, c.size, popped) && |DealAt(deals, re)| == c.size > 0
    ensures PassedInv(c, deals, re + 1, 0, popped)
  {
    assert deals[..re + 1][..re] == deals[..re];
    assert Flat(deals[..re + 1]) + DealAt(deals, re + 1)[..0] == Flat(deals[..re]) + DealAt(deals, re)[..c.size];
  }

  /** The slot the consumer is moving out holds the line of the next ticket. */
  lemma NextLine(c: Config, s: State)
    requires WriteInv(c, s) && ReadInv(c, s) && (s.consumer.Move? || s.consumer.Advance?)
    ensures s.dequeued < |s.deals| && s.readIndex < |s.deals[s.dequeued]|
    ensures s.consumer.Move? ==>
      s.buffers[s.dequeued].slots[s.readIndex].item == Some(s.deals[s.dequeued][s.readIndex].line)
  {
    var b := s.buffers[s.dequeued];
    assert SlotInv(c, s.locals, b, s.deals[s.dequeued], s.dequeued == s.epoch, s.readIndex, b.slots[s.readIndex]);
    assert UnreadInv(b, s.deals[s.dequeued], s.dequeued, ReadEpoch(s), ReadPos(s));
  }

  lemma UnreadMove(b: Buffer, deal: seq<Ticket>, e: nat, re: nat, rp: nat)
    requires UnreadInv(b, deal, e, re, rp)
    ensures UnreadInv(b, deal, e, re, rp + 1)
  {
  }

  lemma UnreadMoved(b: Buffer, deal: seq<Ticket>, e: nat, rp: nat, slot: Slot)
    requires UnreadInv(b, deal, e, e, rp) && rp < |b.slots|
    ensures UnreadInv(b.(slots := b.slots[rp := slot]), deal, e, e, rp + 1)
  {
  }

  /** The line of the next ticket is moved out of its slot. */
  lemma ConsumerMoves(c: Config, s: State, s': State, line: Line, slot: Slot)
    requires Shape(c, s) && Shape(c, s') && |s.deals| == |s.buffers| == |s'.buffers| && ReadInv(c, s) && s.consumer.Move?
    requires s.dequeued < |s.deals| && s.readIndex < |s.deals[s.dequeued]|
    requires line == s.deals[s.dequeued][s.readIndex].line && slot.ready
    requires s' == s.(popped := s.popped + [line], buffers := UpdateSlot(s, s.dequeued, s.readIndex, slot), consumer := Advance)
    ensures ReadInv(c, s')
  {
    PassedMove(c, s.deals, s.dequeued, s.readIndex, s.popped);
    forall e | 0 <= e < |s'.buffers|
      ensures UnreadInv(s'.buffers[e], s'.deals[e], e, ReadEpoch(s'), ReadPos(s'))
    {
      if e == s.dequeued {
        UnreadMoved(s.buffers[e], s.deals[e], e, s.readIndex, slot);
      } else {
        UnreadMove(s.buffers[e], s.deals[e], e, s.dequeued, s.readIndex);
      }
    }
  }

  lemma ConsumerMoveKeepsRead(c: Config, s: State)
    requires WriteInv(c, s) && ReadInv(c, s) && s.consumer.Move?
    requires var s' := ConsumeStep(c, s); Shape(c, s') && |s'.deals| == |s'.buffers|
    ensures ReadInv(c, ConsumeStep(c, s))
  {
    NextLine(c, s);
    var slot := s.buffers[s.dequeued].slots[s.readIndex];
    ConsumerMoves(c, s, ConsumeStep(c, s), slot.item.value, slot.(item := None));
  }

  lemma UnreadBuffer(b: Buffer, deal: seq<Ticket>, e: nat, re: nat)
    requires UnreadInv(b, deal, e, re, |b.slots|)
    ensures UnreadInv(b, deal, e, re + 1, 0)
  {
  }

  /** After its last slot the consumer leaves a buffer. */
  lemma ConsumerLeavesBuffer(c: Config, s: State, s': State)
    requires Shape(c, s) && |s.deals| == |s.buffers| && ReadInv(c, s) && s.consumer.Advance? && s.readIndex + 1 == c.size
    requires |DealAt(s.deals, s.dequeued)| == c.size
    requires s' == s.(readIndex := 0, readBuffer := None, consumer := LockPop)
    requires Shape(c, s')
    ensures ReadInv(c, s')
  {
    PassedBuffer(c, s.deals, s.dequeued, s.popped);
    forall e | 0 <= e < |s'.buffers|
      ensures UnreadInv(s'.buffers[e], s'.deals[e], e, ReadEpoch(s'), ReadPos(s'))
    {
      assert UnreadInv(s.buffers[e], s.deals[e], e, ReadEpoch(s), ReadPos(s));
      UnreadBuffer(s.buffers[e], s.deals[e], e, s.dequeued);
    }
  }

  lemma ConsumerFinishKeepsRead(c: Config, s: State)
    requires WriteInv(c, s) && ReadInv(c, s) && s.consumer.Advance? && s.readIndex + 1 == c.size
    requires Shape(c, ConsumeStep(c, s))
    ensures ReadInv(c, ConsumeStep(c, s))
  {
    NextLine(c, s);
    assert DealInv(c, s);
    ConsumerLeavesBuffer(c, s, ConsumeStep(c, s));
  }
}
