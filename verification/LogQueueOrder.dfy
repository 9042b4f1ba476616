/** Every action keeps the lock, the bound on the write index and each producer's own order. */
module LogQueueOrder {
  import opened LogQueue
  import opened LogQueueInvariant
  import opened LogQueueRead

  ghost predicate LockInv(c: Config, locals: map<Producer, Local>, lock: Holder, k: ConsumerPc)
    requires locals.Keys == c.producers
  {
    && (forall p :: p in c.producers ==> (HasLock(locals[p].pc) <==> lock == ByProducer(p)))
    && (lock.ByProducer? ==> lock.p in c.producers)
    && (ConsumerHasLock(k) <==> lock.ByConsumer?)
  }

  function Spinners(locals: map<Producer, Local>): set<Producer> {
    set p | p in locals && locals[p].pc.Spin?
  }

  /** Past the end, the index counts the producers that are spinning. */
  ghost predicate IndexInv(c: Config, locals: map<Producer, Local>, writeIndex: nat) {
    writeIndex > c.size ==> writeIndex - c.size <= |Spinners(locals)|
  }

  /** The lines of one producer's tickets. */
  function Mine(ts: seq<Ticket>, p: Producer): seq<Line> {
    if ts == [] then []
    else
      var last := ts[|ts| - 1];
      Mine(ts[..|ts| - 1], p) + if last.producer == p then [last.line] else []
  }

  /** A producer's tickets, followed by the line it waits to place, are the lines it has pushed. */
  ghost predicate OrderInv(c: Config, locals: map<Producer, Local>, deals: seq<seq<Ticket>>, pushed: map<Producer, seq<Line>>)
    requires locals.Keys == pushed.Keys == c.producers
  {
    forall p :: p in c.producers ==>
      Mine(Flat(deals), p) + (if Waiting(locals[p].pc) then [locals[p].line] else []) == pushed[p]
  }

  ghost predicate Inv(c: Config, s: State) {
    && WriteInv(c, s)
    && ReadInv(c, s)
    && LockInv(c, s.locals, s.lock, s.consumer)
    && IndexInv(c, s.locals, s.writeIndex)
    && OrderInv(c, s.locals, s.deals, s.pushed)
  }

  lemma FlatAppend(deals: seq<seq<Ticket>>, t: Ticket)
    requires deals != []
    ensures Flat(deals[|deals| - 1 := deals[|deals| - 1] + [t]]) == Flat(deals) + [t]
  {
    var n := |deals| - 1;
    var deals' := deals[n := deals[n] + [t]];
    assert deals'[..n] == deals[..n];
  }

  lemma FlatNew(deals: seq<seq<Ticket>>)
    ensures Flat(deals + [[]]) == Flat(deals)
  {
    assert (deals + [[]])[..|deals|] == deals;
  }

  lemma MineAppend(ts: seq<Ticket>, t: Ticket, p: Producer)
    ensures Mine(ts + [t], p) == Mine(ts, p) + if t.producer == p then [t.line] else []
  {
    assert (ts + [t])[..|ts|] == ts;
  }

  // ---- the lock

  /** A producer that neither takes nor gives back the lock. */
  lemma LockAside(c: Config, s: State, p: Producer)
    requires Shape(c, s) && p in c.producers && LockInv(c, s.locals, s.lock, s.consumer)
    requires var pc := s.locals[p].pc; pc.Idle? || pc.Spin? || HasTicket(pc) || pc.NewBuffer?
    ensures var s' := ProduceStep(c, s, p);
      s'.locals.Keys == c.producers && LockInv(c, s'.locals, s'.lock, s'.consumer)
  {
  }

  lemma LockSwitch(c: Config, s: State, p: Producer)
    requires Shape(c, s) && p in c.producers && LockInv(c, s.locals, s.lock, s.consumer)
    requires s.locals[p].pc.TakeLock? ==> s.lock.Nobody?
    requires var pc := s.locals[p].pc; pc.TakeLock? || HasLock(pc)
    ensures var s' := ProduceStep(c, s, p);
      s'.locals.Keys == c.producers && LockInv(c, s'.locals, s'.lock, s'.consumer)
  {
  }

  lemma LockProduce(c: Config, s: State, p: Producer)
    requires Shape(c, s) && p in c.producers && LockInv(c, s.locals, s.lock, s.consumer)
    requires s.locals[p].pc.TakeLock? ==> s.lock.Nobody?
    ensures var s' := ProduceStep(c, s, p);
      s'.locals.Keys == c.producers && LockInv(c, s'.locals, s'.lock, s'.consumer)
  {
    match s.locals[p].pc
    case Redraw => LockDraw(c, s, p, s.locals[p].line);
    case TakeLock => LockSwitch(c, s, p);
    case Enqueue => LockSwitch(c, s, p);
    case ResetIndex => LockSwitch(c, s, p);
    case ReleaseLock => LockSwitch(c, s, p);
    case _ => LockAside(c, s, p);
  }

  lemma LockConsumeFront(c: Config, s: State)
    requires Shape(c, s) && Enabled(c, s, Consume) && LockInv(c, s.locals, s.lock, s.consumer)
    requires s.consumer.Start? || s.consumer.LockFront? || s.consumer.ReadFront? || s.consumer.UnlockFront?
    ensures var s' := ConsumeStep(c, s); LockInv(c, s'.locals, s'.lock, s'.consumer)
  {
  }

  lemma LockConsumePop(c: Config, s: State)
    requires Shape(c, s) && Enabled(c, s, Consume) && LockInv(c, s.locals, s.lock, s.consumer)
    requires Reading(s.consumer) || s.consumer.LockPop? || s.consumer.Dequeue? || s.consumer.UnlockPop?
    ensures var s' := ConsumeStep(c, s); LockInv(c, s'.locals, s'.lock, s'.consumer)
  {
  }

  lemma LockConsume(c: Config, s: State)
    requires Shape(c, s) && Enabled(c, s, Consume) && LockInv(c, s.locals, s.lock, s.consumer)
    ensures var s' := ConsumeStep(c, s); LockInv(c, s'.locals, s'.lock, s'.consumer)
  {
    match s.consumer
    case Start => LockConsumeFront(c, s);
    case LockFront => LockConsumeFront(c, s);
    case ReadFront => LockConsumeFront(c, s);
    case UnlockFront => LockConsumeFront(c, s);
    case _ => LockConsumePop(c, s);
  }

  lemma LockDraw(c: Config, s: State, p: Producer, line: Line)
    requires Shape(c, s) && p in c.producers && LockInv(c, s.locals, s.lock, s.consumer)
    requires s.locals[p].pc.Idle? || s.locals[p].pc.Redraw?
    ensures var s' := Draw(c, s, p, line);
      s'.locals.Keys == c.producers && LockInv(c, s'.locals, s'.lock, s'.consumer)
  {
  }

  // ---- the index

  lemma IndexProduce(c: Config, s: State, p: Producer)
    requires Shape(c, s) && p in c.producers && IndexInv(c, s.locals, s.writeIndex)
    ensures var s' := ProduceStep(c, s, p); IndexInv(c, s'.locals, s'.writeIndex)
  {
    var s' := ProduceStep(c, s, p);
    if s.locals[p].pc.Redraw? {
      IndexDraw(c, s, p, s.locals[p].line);
    } else if s'.writeIndex > c.size {
      assert Spinners(s'.locals) == Spinners(s.locals);
    }
  }

  lemma IndexDraw(c: Config, s: State, p: Producer, line: Line)
    requires Shape(c, s) && p in c.producers && IndexInv(c, s.locals, s.writeIndex)
    requires s.locals[p].pc.Idle? || s.locals[p].pc.Redraw?
    ensures var s' := Draw(c, s, p, line); IndexInv(c, s'.locals, s'.writeIndex)
  {
    var s' := Draw(c, s, p, line);
    if s.writeIndex >= c.size {
      assert Spinners(s'.locals) == Spinners(s.locals) + {p};
    }
  }

  // ---- each producer's order

  /** A producer that neither starts nor stops waiting to place a line keeps everybody's order. */
  lemma OrderLocal(c: Config, locals: map<Producer, Local>, locals': map<Producer, Local>, deals: seq<seq<Ticket>>,
                   pushed: map<Producer, seq<Line>>, p: Producer)
    requires locals.Keys == pushed.Keys == c.producers && p in c.producers
    requires OrderInv(c, locals, deals, pushed)
    requires p in locals' && locals' == locals[p := locals'[p]]
    requires Waiting(locals'[p].pc) <==> Waiting(locals[p].pc)
    requires locals'[p].line == locals[p].line
    ensures locals'.Keys == c.producers && OrderInv(c, locals', deals, pushed)
  {
  }

  lemma TicketKeepsLine(c: Config, s: State, p: Producer)
    requires Shape(c, s) && p in c.producers && HasTicket(s.locals[p].pc)
    ensures var s' := ProduceStep(c, s, p);
      && p in s'.locals && s'.locals == s.locals[p := s'.locals[p]]
      && (Waiting(s'.locals[p].pc) <==> Waiting(s.locals[p].pc))
      && s'.locals[p].line == s.locals[p].line
      && s'.pushed == s.pushed
      && (s'.deals == s.deals || s'.deals == s.deals + [[]])
  {
  }

  lemma SwitchKeepsLine(c: Config, s: State, p: Producer)
    requires Shape(c, s) && p in c.producers && !s.locals[p].pc.Redraw? && !HasTicket(s.locals[p].pc)
    ensures var s' := ProduceStep(c, s, p);
      && p in s'.locals && s'.locals == s.locals[p := s'.locals[p]]
      && (Waiting(s'.locals[p].pc) <==> Waiting(s.locals[p].pc))
      && s'.locals[p].line == s.locals[p].line
      && s'.pushed == s.pushed
      && (s'.deals == s.deals || s'.deals == s.deals + [[]])
  {
  }

  lemma ProduceKeepsLine(c: Config, s: State, p: Producer)
    requires Shape(c, s) && p in c.producers && !s.locals[p].pc.Redraw?
    ensures var s' := ProduceStep(c, s, p);
      && p in s'.locals && s'.locals == s.locals[p := s'.locals[p]]
      && (Waiting(s'.locals[p].pc) <==> Waiting(s.locals[p].pc))
      && s'.locals[p].line == s.locals[p].line
      && s'.pushed == s.pushed
      && (s'.deals == s.deals || s'.deals == s.deals + [[]])
  {
    if HasTicket(s.locals[p].pc) {
      TicketKeepsLine(c, s, p);
    } else {
      SwitchKeepsLine(c, s, p);
    }
  }

  lemma OrderProduce(c: Config, s: State, p: Producer)
    requires Shape(c, s) && p in c.producers && !s.locals[p].pc.Redraw?
    requires OrderInv(c, s.locals, s.deals, s.pushed)
    ensures var s' := ProduceStep(c, s, p);
      s'.locals.Keys == s'.pushed.Keys == c.producers && OrderInv(c, s'.locals, s'.deals, s'.pushed)
  {
    var s' := ProduceStep(c, s, p);
    ProduceKeepsLine(c, s, p);
    OrderLocal(c, s.locals, s'.locals, s.deals, s.pushed, p);
    FlatNew(s.deals);
  }

  /** What every producer has pushed while p is about to draw for `line`. */
  ghost predicate Drawing(c: Config, locals: map<Producer, Local>, deals: seq<seq<Ticket>>, pushed: map<Producer, seq<Line>>,
                          p: Producer, line: Line)
    requires locals.Keys == pushed.Keys == c.producers
  {
    forall q :: q in c.producers ==>
      pushed[q] == Mine(Flat(deals), q) +
        if q == p then [line] else if Waiting(locals[q].pc) then [locals[q].line] else []
  }

  lemma OrderDrawPastEnd(c: Config, s: State, p: Producer, line: Line)
    requires Shape(c, s) && p in c.producers && s.writeIndex >= c.size
    requires Drawing(c, s.locals, s.deals, s.pushed, p, line)
    ensures var s' := Draw(c, s, p, line);
      s'.locals.Keys == c.producers && OrderInv(c, s'.locals, s'.deals, s'.pushed)
  {
  }

  lemma OrderAppend(c: Config, locals: map<Producer, Local>, deals: seq<seq<Ticket>>, pushed: map<Producer, seq<Line>>,
                    p: Producer, line: Line, local: Local)
    requires locals.Keys == pushed.Keys == c.producers && p in c.producers && deals != []
    requires Drawing(c, locals, deals, pushed, p, line) && !Waiting(local.pc)
    ensures var n := |deals| - 1;
      OrderInv(c, locals[p := local], deals[n := deals[n] + [Ticket(p, line)]], pushed)
  {
    FlatAppend(deals, Ticket(p, line));
    var n := |deals| - 1;
    var locals' := locals[p := local];
    var deals' := deals[n := deals[n] + [Ticket(p, line)]];
    forall q | q in c.producers
      ensures Mine(Flat(deals'), q) + (if Waiting(locals'[q].pc) then [locals'[q].line] else []) == pushed[q]
    {
      MineAppend(Flat(deals), Ticket(p, line), q);
    }
  }

  lemma OrderDrawSlot(c: Config, s: State, p: Producer, line: Line)
    requires Shape(c, s) && p in c.producers && s.writeIndex < c.size && s.epoch == |s.deals| - 1
    requires Drawing(c, s.locals, s.deals, s.pushed, p, line)
    ensures var s' := Draw(c, s, p, line);
      s'.locals.Keys == c.producers && OrderInv(c, s'.locals, s'.deals, s'.pushed)
  {
    OrderAppend(c, s.locals, s.deals, s.pushed, p, line, Draw(c, s, p, line).locals[p]);
  }
}
