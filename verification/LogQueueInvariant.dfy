/** What every action of the log queue keeps. */
module LogQueueInvariant {
  import opened Wrappers
  import opened LogQueue

  predicate HasTicket(pc: Pc) { pc.LoadBuffer? || pc.StoreItem? || pc.SetReady? || pc.CountUp? }
  predicate InSwitch(pc: Pc) { pc.NewBuffer? || Swapped(pc) }
  predicate Swapped(pc: Pc) { pc.TakeLock? || pc.Enqueue? || pc.ResetIndex? }
  predicate HasLock(pc: Pc) { pc.Enqueue? || pc.ResetIndex? || pc.ReleaseLock? }
  predicate Waiting(pc: Pc) { pc.Spin? || pc.Redraw? }
  predicate ConsumerHasLock(k: ConsumerPc) { k.ReadFront? || k.UnlockFront? || k.Dequeue? || k.UnlockPop? }

  function Min(a: nat, b: nat): nat { if a < b then a else b }

  /** At most one producer is switching buffers, and it counted the last slot of the epoch. */
  ghost predicate SwitchInv(c: Config, s: State)
    requires Shape(c, s)
  {
    && (forall p :: p in c.producers ==> (InSwitch(s.locals[p].pc) <==> s.switcher == Some(p)))
    && (s.switcher.Some? ==> s.switcher.value in c.producers && s.writeIndex >= c.size)
    && |s.deals| == |s.buffers| == s.current + 1
    && s.current == s.epoch + (if s.switcher.Some? && Swapped(s.locals[s.switcher.value].pc) then 1 else 0)
    && (s.buffers[s.epoch].count == c.size <==> s.switcher.Some?)
    && (forall p :: p in c.producers && Swapped(s.locals[p].pc) ==> s.locals[p].buffer == s.current)
  }

  /** Slot i of a buffer: not drawn yet, counted, or in the hands of the producer that drew it. */
  ghost predicate SlotInv(c: Config, locals: map<Producer, Local>, b: Buffer, deal: seq<Ticket>, live: bool, i: nat, slot: Slot)
    requires locals.Keys == c.producers
  {
    if i >= |deal| then slot == Slot(None, false) && i !in b.counted
    else if i in b.counted then slot.ready
    else
      var p := deal[i].producer;
      live && p in c.producers && HasTicket(locals[p].pc) && locals[p].index == i
  }

  ghost predicate BufferInv(c: Config, locals: map<Producer, Local>, b: Buffer, deal: seq<Ticket>, live: bool)
    requires locals.Keys == c.producers
  {
    && |b.slots| == c.size
    && b.count == |b.counted|
    && (forall i :: i in b.counted ==> i < c.size)
    && (forall i :: 0 <= i < c.size ==> SlotInv(c, locals, b, deal, live, i, b.slots[i]))
  }

  ghost predicate DealInv(c: Config, s: State) {
    forall e :: 0 <= e < |s.deals| ==>
      |s.deals[e]| == (if e < s.epoch then c.size else if e == s.epoch then Min(s.writeIndex, c.size) else 0)
  }

  /** A ticket is held for a slot of the current epoch, and its holder writes there. */
  ghost predicate TicketInv(p: Producer, local: Local, b: Buffer, deal: seq<Ticket>, epoch: nat) {
    var Local(pc, line, i, at) := local;
    HasTicket(pc) ==>
      && i < |deal| && i < |b.slots| && deal[i] == Ticket(p, line)
      && i !in b.counted
      && (!pc.LoadBuffer? ==> at == epoch)
      && (b.slots[i].ready <==> pc.CountUp?)
      && (pc.SetReady? ==> b.slots[i].item == Some(line))
  }

  ghost predicate WriteInv(c: Config, s: State) {
    && c.size >= 1
    && Shape(c, s)
    && SwitchInv(c, s)
    && DealInv(c, s)
    && (forall e :: 0 <= e < |s.buffers| ==> BufferInv(c, s.locals, s.buffers[e], s.deals[e], e == s.epoch))
    && (forall p :: p in c.producers ==>
          TicketInv(p, s.locals[p], s.buffers[s.epoch], s.deals[s.epoch], s.epoch))
  }

  function Below(n: nat): (r: set<nat>)
    ensures |r| == n && forall i: nat {:trigger i in r} :: i in r <==> i < n
  {
    if n == 0 then {} else Below(n - 1) + {n - 1}
  }

  lemma FullCount(s: set<nat>, n: nat)
    requires forall i :: i in s ==> i < n
    ensures |s| <= n
    ensures |s| == n ==> forall i: nat {:trigger i in s} :: i < n ==> i in s
  {
    SubsetSize(s, Below(n));
  }

  lemma {:induction false} SubsetSize(a: set<nat>, b: set<nat>)
    requires a <= b
    ensures |a| <= |b|
    ensures |a| == |b| ==> a == b
    decreases |b|
  {
    if b != {} {
      var x :| x in b;
      if x in a {
        SubsetSize(a - {x}, b - {x});
        assert a == (a - {x}) + {x} && b == (b - {x}) + {x};
      } else {
        SubsetSize(a, b - {x});
      }
    }
  }

  /** While a ticket is out nobody is switching. */
  lemma TicketMeansNoSwitch(c: Config, s: State, p: Producer)
    requires WriteInv(c, s) && p in c.producers && HasTicket(s.locals[p].pc)
    ensures s.switcher.None? && s.current == s.epoch
  {
    FullCount(s.buffers[s.epoch].counted, c.size);
  }

  lemma UncountedBuffer(c: Config, s: State, e: nat)
    requires WriteInv(c, s) && s.epoch < e < |s.buffers|
    ensures s.buffers[e].count == 0
  {
    forall i: nat | i < c.size
      ensures i !in s.buffers[e].counted
    {
      assert SlotInv(c, s.locals, s.buffers[e], s.deals[e], false, i, s.buffers[e].slots[i]);
    }
    assert s.buffers[e].counted == {};
  }

  /** One producer's locals change, and it keeps the ticket it has. */
  lemma LocalsChange(c: Config, locals: map<Producer, Local>, p: Producer, local: Local, b: Buffer, deal: seq<Ticket>, live: bool)
    requires locals.Keys == c.producers && p in c.producers && BufferInv(c, locals, b, deal, live)
    requires HasTicket(locals[p].pc) ==> HasTicket(local.pc) && local.index == locals[p].index
    ensures BufferInv(c, locals[p := local], b, deal, live)
  {
  }
}
