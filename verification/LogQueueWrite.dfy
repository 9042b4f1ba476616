/** Every action of a producer or of the consumer keeps the write side of the queue in order. */
module LogQueueWrite {
  import opened Wrappers
  import opened LogQueue
  import opened LogQueueInvariant

  /** The steps that move one producer on without touching a buffer or the producers' index range. */
  lemma LocalStep(c: Config, s: State, s': State, p: Producer)
    requires WriteInv(c, s) && p in c.producers && Shape(c, s')
    requires s'.buffers == s.buffers && s'.deals == s.deals && s'.epoch == s.epoch
    requires s'.current == s.current && s'.switcher == s.switcher
    requires s'.writeIndex == s.writeIndex || (s.writeIndex >= c.size && s'.writeIndex >= c.size)
    requires s'.locals == s.locals[p := s'.locals[p]]
    requires InSwitch(s'.locals[p].pc) <==> InSwitch(s.locals[p].pc)
    requires Swapped(s'.locals[p].pc) <==> Swapped(s.locals[p].pc)
    requires Swapped(s.locals[p].pc) ==> s'.locals[p].buffer == s.locals[p].buffer
    requires HasTicket(s'.locals[p].pc) <==> HasTicket(s.locals[p].pc)
    requires HasTicket(s.locals[p].pc) ==> s'.locals[p].index == s.locals[p].index
    requires TicketInv(p, s'.locals[p], s.buffers[s.epoch], s.deals[s.epoch], s.epoch)
    ensures WriteInv(c, s')
  {
    forall e | 0 <= e < |s.buffers|
      ensures BufferInv(c, s'.locals, s'.buffers[e], s'.deals[e], e == s'.epoch)
    {
      LocalsChange(c, s.locals, p, s'.locals[p], s.buffers[e], s.deals[e], e == s.epoch);
    }
  }

  lemma LoadBufferKeepsWrite(c: Config, s: State, p: Producer)
    requires WriteInv(c, s) && p in c.producers && s.locals[p].pc.LoadBuffer?
    ensures WriteInv(c, ProduceStep(c, s, p))
  {
    TicketMeansNoSwitch(c, s, p);
    LocalStep(c, s, ProduceStep(c, s, p), p);
  }

  lemma SpinKeepsWrite(c: Config, s: State, p: Producer)
    requires WriteInv(c, s) && p in c.producers && s.locals[p].pc.Spin?
    ensures WriteInv(c, ProduceStep(c, s, p))
  {
    LocalStep(c, s, ProduceStep(c, s, p), p);
  }

  // The parts of a switch that only move the lock and the consumer's queue.

  lemma TakeLockKeepsWrite(c: Config, s: State, p: Producer)
    requires WriteInv(c, s) && p in c.producers && s.locals[p].pc.TakeLock?
    ensures WriteInv(c, ProduceStep(c, s, p))
  {
    LocalStep(c, s, ProduceStep(c, s, p), p);
  }

  lemma EnqueueKeepsWrite(c: Config, s: State, p: Producer)
    requires WriteInv(c, s) && p in c.producers && s.locals[p].pc.Enqueue?
    ensures WriteInv(c, ProduceStep(c, s, p))
  {
    LocalStep(c, s, ProduceStep(c, s, p), p);
  }

  lemma ReleaseLockKeepsWrite(c: Config, s: State, p: Producer)
    requires WriteInv(c, s) && p in c.producers && s.locals[p].pc.ReleaseLock?
    ensures WriteInv(c, ProduceStep(c, s, p))
  {
    LocalStep(c, s, ProduceStep(c, s, p), p);
  }

  lemma DrawPastEnd(c: Config, s: State, p: Producer, line: Line)
    requires WriteInv(c, s) && p in c.producers && (s.locals[p].pc.Idle? || s.locals[p].pc.Redraw?)
    requires s.writeIndex >= c.size
    ensures WriteInv(c, Draw(c, s, p, line))
  {
    LocalStep(c, s, Draw(c, s, p, line), p);
  }

  /** One slot's contents change; a slot that was ready stays ready. */
  lemma SlotChange(c: Config, locals: map<Producer, Local>, b: Buffer, deal: seq<Ticket>, live: bool, i: nat, slot: Slot)
    requires locals.Keys == c.producers && BufferInv(c, locals, b, deal, live)
    requires i < c.size && i < |deal| && (b.slots[i].ready ==> slot.ready)
    ensures BufferInv(c, locals, b.(slots := b.slots[i := slot]), deal, live)
  {
  }

  /** What a ticket holder may write to its own slot. */
  ghost predicate OwnWrite(c: Config, s: State, p: Producer, slot: Slot, pc: Pc)
    requires Shape(c, s) && p in c.producers
  {
    var Local(at, line, i, b) := s.locals[p];
    || (at.StoreItem? && pc == SetReady && slot == s.buffers[b].slots[i].(item := Some(line)))
    || (at.SetReady? && pc == CountUp && slot == s.buffers[b].slots[i].(ready := true))
  }

  lemma BufferAfterWrite(c: Config, s: State, p: Producer, slot: Slot, pc: Pc, e: nat)
    requires WriteInv(c, s) && p in c.producers && OwnWrite(c, s, p, slot, pc) && e < |s.buffers|
    ensures var Local(_, _, i, b) := s.locals[p];
      b == s.epoch && BufferInv(c, GoTo(s, p, pc), UpdateSlot(s, b, i, slot)[e], s.deals[e], e == s.epoch)
  {
    var i, locals := s.locals[p].index, GoTo(s, p, pc);
    LocalsChange(c, s.locals, p, locals[p], s.buffers[e], s.deals[e], e == s.epoch);
    if e == s.epoch {
      SlotChange(c, locals, s.buffers[e], s.deals[e], true, i, slot);
    }
  }

  lemma TicketAfterWrite(c: Config, s: State, p: Producer, slot: Slot, pc: Pc, q: Producer)
    requires WriteInv(c, s) && p in c.producers && OwnWrite(c, s, p, slot, pc) && q in c.producers
    ensures var Local(_, _, i, b) := s.locals[p];
      TicketInv(q, GoTo(s, p, pc)[q], UpdateSlot(s, b, i, slot)[s.epoch], s.deals[s.epoch], s.epoch)
  {
    assert TicketInv(p, s.locals[p], s.buffers[s.epoch], s.deals[s.epoch], s.epoch);
    assert TicketInv(q, s.locals[q], s.buffers[s.epoch], s.deals[s.epoch], s.epoch);
  }

  /** A ticket holder writes its own slot. */
  lemma WriteSlot(c: Config, s: State, p: Producer, slot: Slot, pc: Pc)
    requires WriteInv(c, s) && p in c.producers && OwnWrite(c, s, p, slot, pc)
    ensures var Local(_, line, i, b) := s.locals[p];
      WriteInv(c, s.(buffers := UpdateSlot(s, b, i, slot), locals := GoTo(s, p, pc)))
  {
    var Local(_, _, i, b) := s.locals[p];
    var locals, buffers := GoTo(s, p, pc), UpdateSlot(s, b, i, slot);
    forall e | 0 <= e < |buffers|
      ensures BufferInv(c, locals, buffers[e], s.deals[e], e == s.epoch)
    {
      BufferAfterWrite(c, s, p, slot, pc, e);
    }
    forall q | q in c.producers
      ensures TicketInv(q, locals[q], buffers[s.epoch], s.deals[s.epoch], s.epoch)
    {
      TicketAfterWrite(c, s, p, slot, pc, q);
    }
  }

  lemma StoreItemKeepsWrite(c: Config, s: State, p: Producer)
    requires WriteInv(c, s) && p in c.producers && s.locals[p].pc.StoreItem?
    ensures WriteInv(c, ProduceStep(c, s, p))
  {
    var Local(_, line, i, b) := s.locals[p];
    WriteSlot(c, s, p, s.buffers[b].slots[i].(item := Some(line)), SetReady);
  }

  lemma SetReadyKeepsWrite(c: Config, s: State, p: Producer)
    requires WriteInv(c, s) && p in c.producers && s.locals[p].pc.SetReady?
    ensures WriteInv(c, ProduceStep(c, s, p))
  {
    var Local(_, line, i, b) := s.locals[p];
    WriteSlot(c, s, p, s.buffers[b].slots[i].(ready := true), CountUp);
  }

  /** Counting slot i of the current buffer leaves the other slots as they were. */
  lemma CountSlot(c: Config, locals: map<Producer, Local>, p: Producer, local: Local, b: Buffer, deal: seq<Ticket>)
    requires locals.Keys == c.producers && p in c.producers && BufferInv(c, locals, b, deal, true)
    requires locals[p].index < |deal| && locals[p].index < c.size && locals[p].index !in b.counted
    requires b.slots[locals[p].index].ready
    ensures BufferInv(c, locals[p := local], b.(count := b.count + 1, counted := b.counted + {locals[p].index}), deal, true)
  {
  }

  /** The count reaches the buffer size exactly when every slot has been drawn and counted. */
  lemma LastCount(c: Config, s: State, p: Producer)
    requires WriteInv(c, s) && p in c.producers && s.locals[p].pc.CountUp?
    requires s.buffers[s.epoch].count + 1 == c.size
    ensures s.writeIndex >= c.size
  {
    var b := s.buffers[s.epoch];
    var k := c.size - 1;
    FullCount(b.counted + {s.locals[p].index}, c.size);
    assert k in b.counted + {s.locals[p].index};
    assert SlotInv(c, s.locals, b, s.deals[s.epoch], true, k, b.slots[k]);
  }

  lemma CountedBuffers(c: Config, s: State, p: Producer, e: nat)
    requires WriteInv(c, s) && p in c.producers && s.locals[p].pc.CountUp? && e < |s.buffers|
    requires s.locals[p].buffer == s.epoch
    ensures var s' := ProduceStep(c, s, p);
      BufferInv(c, s'.locals, s'.buffers[e], s'.deals[e], e == s'.epoch)
  {
    if e == s.epoch {
      CountSlot(c, s.locals, p, ProduceStep(c, s, p).locals[p], s.buffers[e], s.deals[e]);
    }
  }

  lemma ShapeKept(c: Config, s: State, p: Producer)
    requires Shape(c, s) && |s.deals| == |s.buffers| && p in c.producers
    requires s.locals[p].pc.CountUp? || s.locals[p].pc.NewBuffer?
    ensures Shape(c, ProduceStep(c, s, p))
  {
  }

  lemma SwitchAfterCount(c: Config, s: State, p: Producer)
    requires WriteInv(c, s) && p in c.producers && s.locals[p].pc.CountUp? && s.switcher.None?
    requires s.buffers[s.epoch].count + 1 == c.size ==> s.writeIndex >= c.size
    ensures var s' := ProduceStep(c, s, p); Shape(c, s') && SwitchInv(c, s') && DealInv(c, s')
  {
    ShapeKept(c, s, p);
  }

  /** Another ticket is for another slot. */
  lemma TicketAfterCount(c: Config, s: State, p: Producer, q: Producer)
    requires WriteInv(c, s) && p in c.producers && s.locals[p].pc.CountUp? && q in c.producers
    ensures var s' := ProduceStep(c, s, p);
      TicketInv(q, s'.locals[q], s'.buffers[s'.epoch], s'.deals[s'.epoch], s'.epoch)
  {
    assert TicketInv(p, s.locals[p], s.buffers[s.epoch], s.deals[s.epoch], s.epoch);
    assert TicketInv(q, s.locals[q], s.buffers[s.epoch], s.deals[s.epoch], s.epoch);
  }

  lemma CountUpKeepsWrite(c: Config, s: State, p: Producer)
    requires WriteInv(c, s) && p in c.producers && s.locals[p].pc.CountUp?
    ensures WriteInv(c, ProduceStep(c, s, p))
  {
    TicketMeansNoSwitch(c, s, p);
    var s' := ProduceStep(c, s, p);
    if s.buffers[s.epoch].count + 1 == c.size { LastCount(c, s, p); }
    SwitchAfterCount(c, s, p);
    forall e | 0 <= e < |s'.buffers|
      ensures BufferInv(c, s'.locals, s'.buffers[e], s'.deals[e], e == s'.epoch)
    {
      CountedBuffers(c, s, p, e);
    }
    forall q | q in c.producers
      ensures TicketInv(q, s'.locals[q], s'.buffers[s'.epoch], s'.deals[s'.epoch], s'.epoch)
    {
      TicketAfterCount(c, s, p, q);
    }
  }

  /** Drawing the next slot of the current buffer. */
  lemma DealSlot(c: Config, locals: map<Producer, Local>, p: Producer, line: Line, b: Buffer, deal: seq<Ticket>)
    requires locals.Keys == c.producers && p in c.producers && BufferInv(c, locals, b, deal, true)
    requires |deal| < c.size && !HasTicket(locals[p].pc)
    ensures var local := locals[p].(pc := LoadBuffer, line := line, index := |deal|);
      && BufferInv(c, locals[p := local], b, deal + [Ticket(p, line)], true)
      && |deal| !in b.counted && !b.slots[|deal|].ready
  {
    assert SlotInv(c, locals, b, deal, true, |deal|, b.slots[|deal|]);
  }

  lemma DrawSlot(c: Config, s: State, p: Producer, line: Line)
    requires WriteInv(c, s) && p in c.producers && (s.locals[p].pc.Idle? || s.locals[p].pc.Redraw?)
    requires s.writeIndex < c.size
    ensures WriteInv(c, Draw(c, s, p, line))
  {
    var s' := Draw(c, s, p, line);
    assert |s.deals[s.epoch]| == s.writeIndex;
    DealSlot(c, s.locals, p, line, s.buffers[s.epoch], s.deals[s.epoch]);
    forall e | 0 <= e < |s'.buffers|
      ensures BufferInv(c, s'.locals, s'.buffers[e], s'.deals[e], e == s'.epoch)
    {
      if e != s.epoch {
        LocalsChange(c, s.locals, p, s'.locals[p], s.buffers[e], s.deals[e], false);
      }
    }
  }

  lemma FreshBuffer(c: Config, locals: map<Producer, Local>)
    requires locals.Keys == c.producers
    ensures BufferInv(c, locals, EmptyBuffer(c.size), [], false)
  {
  }

  lemma BuffersAfterNew(c: Config, s: State, p: Producer, e: nat)
    requires WriteInv(c, s) && p in c.producers && s.locals[p].pc.NewBuffer?
    requires e <= |s.buffers|
    ensures var s' := ProduceStep(c, s, p);
      BufferInv(c, s'.locals, s'.buffers[e], s'.deals[e], e == s'.epoch)
  {
    var s' := ProduceStep(c, s, p);
    if e < |s.buffers| {
      LocalsChange(c, s.locals, p, s'.locals[p], s.buffers[e], s.deals[e], e == s.epoch);
    } else {
      FreshBuffer(c, s'.locals);
    }
  }

  lemma SwitchAfterNew(c: Config, s: State, p: Producer)
    requires WriteInv(c, s) && p in c.producers && s.locals[p].pc.NewBuffer?
    ensures var s' := ProduceStep(c, s, p); Shape(c, s') && SwitchInv(c, s') && DealInv(c, s')
  {
    ShapeKept(c, s, p);
  }

  lemma NewBufferKeepsWrite(c: Config, s: State, p: Producer)
    requires WriteInv(c, s) && p in c.producers && s.locals[p].pc.NewBuffer?
    ensures WriteInv(c, ProduceStep(c, s, p))
  {
    var s' := ProduceStep(c, s, p);
    SwitchAfterNew(c, s, p);
    forall e | 0 <= e < |s'.buffers|
      ensures BufferInv(c, s'.locals, s'.buffers[e], s'.deals[e], e == s'.epoch)
    {
      BuffersAfterNew(c, s, p, e);
    }
  }

  lemma ResetIndexKeepsWrite(c: Config, s: State, p: Producer)
    requires WriteInv(c, s) && p in c.producers && s.locals[p].pc.ResetIndex?
    ensures WriteInv(c, ProduceStep(c, s, p))
  {
    FullCount(s.buffers[s.epoch].counted, c.size);
    UncountedBuffer(c, s, s.current);
  }

  /** The write side does not see what the consumer alone changes. */
  lemma WriteFrame(c: Config, s: State, s': State)
    requires WriteInv(c, s) && Shape(c, s')
    requires s'.writeIndex == s.writeIndex && s'.current == s.current && s'.epoch == s.epoch && s'.switcher == s.switcher
    requires s'.buffers == s.buffers && s'.locals == s.locals && s'.deals == s.deals
    ensures WriteInv(c, s')
  {
  }

  lemma ConsumerMoveKeepsWrite(c: Config, s: State)
    requires WriteInv(c, s) && s.consumer.Move?
    requires s.buffers[s.readBuffer.value].slots[s.readIndex].ready
    ensures WriteInv(c, ConsumeStep(c, s))
  {
    var s' := ConsumeStep(c, s);
    var r, i := s.readBuffer.value, s.readIndex;
    assert SlotInv(c, s.locals, s.buffers[r], s.deals[r], r == s.epoch, i, s.buffers[r].slots[i]);
    SlotChange(c, s.locals, s.buffers[r], s.deals[r], r == s.epoch, i, s'.buffers[r].slots[i]);
  }

  lemma AsideAtFront(c: Config, s: State)
    requires Shape(c, s) && Enabled(c, s, Consume)
    requires s.consumer.Start? || s.consumer.LockFront? || s.consumer.ReadFront? || s.consumer.UnlockFront? || s.consumer.Check?
    ensures var s' := ConsumeStep(c, s);
      && Shape(c, s')
      && s'.writeIndex == s.writeIndex && s'.current == s.current && s'.epoch == s.epoch && s'.switcher == s.switcher
      && s'.buffers == s.buffers && s'.locals == s.locals && s'.deals == s.deals && s'.pushed == s.pushed
  {
  }

  lemma AsideBehind(c: Config, s: State)
    requires Shape(c, s) && Enabled(c, s, Consume)
    requires s.consumer.Advance? || s.consumer.LockPop? || s.consumer.Dequeue? || s.consumer.UnlockPop?
    ensures var s' := ConsumeStep(c, s);
      && Shape(c, s')
      && s'.writeIndex == s.writeIndex && s'.current == s.current && s'.epoch == s.epoch && s'.switcher == s.switcher
      && s'.buffers == s.buffers && s'.locals == s.locals && s'.deals == s.deals && s'.pushed == s.pushed
  {
  }

  lemma ConsumerAside(c: Config, s: State)
    requires Shape(c, s) && Enabled(c, s, Consume) && !s.consumer.Move?
    ensures var s' := ConsumeStep(c, s);
      && Shape(c, s')
      && s'.writeIndex == s.writeIndex && s'.current == s.current && s'.epoch == s.epoch && s'.switcher == s.switcher
      && s'.buffers == s.buffers && s'.locals == s.locals && s'.deals == s.deals && s'.pushed == s.pushed
  {
    match s.consumer
    case Advance => AsideBehind(c, s);
    case LockPop => AsideBehind(c, s);
    case Dequeue => AsideBehind(c, s);
    case UnlockPop => AsideBehind(c, s);
    case _ => AsideAtFront(c, s);
  }

  lemma ConsumerKeepsWrite(c: Config, s: State)
    requires WriteInv(c, s) && Enabled(c, s, Consume) && !s.consumer.Move?
    ensures WriteInv(c, ConsumeStep(c, s))
  {
    ConsumerAside(c, s);
    WriteFrame(c, s, ConsumeStep(c, s));
  }
}
