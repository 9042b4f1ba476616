/** What holds after every run of the log queue. */
module LogQueueTheorems {
  import opened LogQueue
  import opened LogQueueInvariant
  import opened LogQueueRead
  import opened LogQueueOrder
  import opened LogQueueWrite

  lemma InitInv(c: Config)
    requires c.size >= 1
    ensures Inv(c, Init(c))
  {
  }

  lemma ProduceKeepsWrite(c: Config, s: State, p: Producer)
    requires WriteInv(c, s) && Enabled(c, s, Produce(p))
    ensures WriteInv(c, ProduceStep(c, s, p))
  {
    match s.locals[p].pc
    case Idle =>
    case LoadBuffer => LoadBufferKeepsWrite(c, s, p);
    case StoreItem => StoreItemKeepsWrite(c, s, p);
    case SetReady => SetReadyKeepsWrite(c, s, p);
    case CountUp => CountUpKeepsWrite(c, s, p);
    case Spin => SpinKeepsWrite(c, s, p);
    case Redraw => DrawKeepsWrite(c, s, p, s.locals[p].line);
    case NewBuffer => NewBufferKeepsWrite(c, s, p);
    case TakeLock => TakeLockKeepsWrite(c, s, p);
    case Enqueue => EnqueueKeepsWrite(c, s, p);
    case ResetIndex => ResetIndexKeepsWrite(c, s, p);
    case ReleaseLock => ReleaseLockKeepsWrite(c, s, p);
  }

  lemma DrawKeepsWrite(c: Config, s: State, p: Producer, line: Line)
    requires WriteInv(c, s) && p in c.producers && (s.locals[p].pc.Idle? || s.locals[p].pc.Redraw?)
    ensures WriteInv(c, Draw(c, s, p, line))
  {
    if s.writeIndex < c.size { DrawSlot(c, s, p, line); } else { DrawPastEnd(c, s, p, line); }
  }

  lemma ProduceKeepsRead(c: Config, s: State, p: Producer)
    requires WriteInv(c, s) && ReadInv(c, s) && Enabled(c, s, Produce(p)) && WriteInv(c, ProduceStep(c, s, p))
    ensures ReadInv(c, ProduceStep(c, s, p))
  {
    match s.locals[p].pc
    case Idle =>
    case LoadBuffer => LoadBufferKeepsRead(c, s, p);
    case StoreItem => StoreItemKeepsRead(c, s, p);
    case SetReady => SetReadyKeepsRead(c, s, p);
    case CountUp => CountUpKeepsRead(c, s, p);
    case Spin => SpinKeepsRead(c, s, p);
    case Redraw => DrawKeepsRead(c, s, p, s.locals[p].line);
    case NewBuffer => NewBufferKeepsRead(c, s, p);
    case TakeLock => TakeLockKeepsRead(c, s, p);
    case Enqueue => EnqueueKeepsRead(c, s, p);
    case ResetIndex => ResetIndexKeepsRead(c, s, p);
    case ReleaseLock => ReleaseLockKeepsRead(c, s, p);
  }

  lemma ConsumeKeepsWrite(c: Config, s: State)
    requires WriteInv(c, s) && ReadInv(c, s) && Enabled(c, s, Consume)
    ensures WriteInv(c, ConsumeStep(c, s))
  {
    if s.consumer.Move? { ConsumerMoveKeepsWrite(c, s); } else { ConsumerKeepsWrite(c, s); }
  }

  lemma ConsumeKeepsRead(c: Config, s: State)
    requires WriteInv(c, s) && ReadInv(c, s) && Enabled(c, s, Consume) && WriteInv(c, ConsumeStep(c, s))
    ensures ReadInv(c, ConsumeStep(c, s))
  {
    if s.consumer.Move? {
      ConsumerMoveKeepsRead(c, s);
    } else if s.consumer.Advance? && s.readIndex + 1 == c.size {
      ConsumerFinishKeepsRead(c, s);
    } else {
      ConsumerKeepsRead(c, s);
    }
  }

  lemma DrawKeepsOrder(c: Config, s: State, p: Producer, line: Line)
    requires WriteInv(c, s) && p in c.producers && (s.locals[p].pc.Idle? || s.locals[p].pc.Redraw?)
    requires Drawing(c, s.locals, s.deals, s.pushed, p, line)
    ensures var s' := Draw(c, s, p, line);
      s'.locals.Keys == s'.pushed.Keys == c.producers && OrderInv(c, s'.locals, s'.deals, s'.pushed)
  {
    if s.writeIndex < c.size { OrderDrawSlot(c, s, p, line); } else { OrderDrawPastEnd(c, s, p, line); }
  }

  /** A draw, first or repeated, once the line is on record as pushed. */
  lemma DrawKeepsInv(c: Config, s: State, p: Producer, line: Line)
    requires WriteInv(c, s) && ReadInv(c, s) && LockInv(c, s.locals, s.lock, s.consumer) && IndexInv(c, s.locals, s.writeIndex)
    requires p in c.producers && (s.locals[p].pc.Idle? || s.locals[p].pc.Redraw?)
    requires Drawing(c, s.locals, s.deals, s.pushed, p, line)
    ensures Inv(c, Draw(c, s, p, line))
  {
    DrawKeepsWrite(c, s, p, line);
    DrawKeepsRead(c, s, p, line);
    LockDraw(c, s, p, line);
    IndexDraw(c, s, p, line);
    DrawKeepsOrder(c, s, p, line);
  }

  lemma AboutToDraw(c: Config, locals: map<Producer, Local>, deals: seq<seq<Ticket>>, pushed: map<Producer, seq<Line>>,
                    pushed': map<Producer, seq<Line>>, p: Producer, line: Line)
    requires locals.Keys == pushed.Keys == c.producers && p in c.producers && OrderInv(c, locals, deals, pushed)
    requires || (locals[p].pc.Redraw? && line == locals[p].line && pushed' == pushed)
             || (locals[p].pc.Idle? && pushed' == pushed[p := pushed[p] + [line]])
    ensures pushed'.Keys == c.producers && Drawing(c, locals, deals, pushed', p, line)
  {
  }

  lemma RedrawKeepsInv(c: Config, s: State, p: Producer)
    requires Inv(c, s) && p in c.producers && s.locals[p].pc.Redraw?
    ensures Inv(c, ProduceStep(c, s, p))
  {
    AboutToDraw(c, s.locals, s.deals, s.pushed, s.pushed, p, s.locals[p].line);
    DrawKeepsInv(c, s, p, s.locals[p].line);
    RedrawIsDraw(c, s, p);
  }

  lemma RedrawIsDraw(c: Config, s: State, p: Producer)
    requires Shape(c, s) && p in c.producers && s.locals[p].pc.Redraw?
    ensures ProduceStep(c, s, p) == Draw(c, s, p, s.locals[p].line)
  {
  }

  lemma AdvanceKeepsInv(c: Config, s: State, p: Producer)
    requires Inv(c, s) && Enabled(c, s, Produce(p)) && !s.locals[p].pc.Redraw?
    ensures Inv(c, ProduceStep(c, s, p))
  {
    ProduceKeepsWrite(c, s, p);
    ProduceKeepsRead(c, s, p);
    LockProduce(c, s, p);
    IndexProduce(c, s, p);
    OrderProduce(c, s, p);
  }

  lemma ProduceKeepsInv(c: Config, s: State, p: Producer)
    requires Inv(c, s) && Enabled(c, s, Produce(p))
    ensures Inv(c, ProduceStep(c, s, p))
  {
    if s.locals[p].pc.Redraw? {
      RedrawKeepsInv(c, s, p);
    } else {
      AdvanceKeepsInv(c, s, p);
    }
  }

  lemma ConsumeKeepsInv(c: Config, s: State)
    requires Inv(c, s) && Enabled(c, s, Consume)
    ensures Inv(c, ConsumeStep(c, s))
  {
    ConsumeKeepsWrite(c, s);
    ConsumeKeepsRead(c, s);
    LockConsume(c, s);
    ConsumeKeepsOrder(c, s);
  }

  lemma ConsumeKeepsOrder(c: Config, s: State)
    requires Shape(c, s) && Enabled(c, s, Consume)
    ensures var s' := ConsumeStep(c, s);
      s'.locals == s.locals && s'.deals == s.deals && s'.pushed == s.pushed && s'.writeIndex == s.writeIndex
  {
    if !s.consumer.Move? { ConsumerAside(c, s); }
  }

  lemma PushKeepsInv(c: Config, s: State, p: Producer, line: Line)
    requires Inv(c, s) && Enabled(c, s, Push(p, line))
    ensures Inv(c, BeginPush(c, s, p, line))
  {
    var s1 := s.(pushed := s.pushed[p := s.pushed[p] + [line]]);
    PushedOnly(c, s, s1);
    AboutToDraw(c, s.locals, s.deals, s.pushed, s1.pushed, p, line);
    DrawKeepsInv(c, s1, p, line);
  }

  lemma PushedOnly(c: Config, s: State, s1: State)
    requires WriteInv(c, s) && ReadInv(c, s) && s1 == s.(pushed := s1.pushed) && s1.pushed.Keys == c.producers
    ensures WriteInv(c, s1) && ReadInv(c, s1)
  {
  }

  lemma StepKeepsInv(c: Config, s: State, a: Action)
    requires Inv(c, s) && Enabled(c, s, a)
    ensures Inv(c, Step(c, s, a))
  {
    match a
    case Push(p, line) => PushKeepsInv(c, s, p, line);
    case Produce(p) => ProduceKeepsInv(c, s, p);
    case Consume => ConsumeKeepsInv(c, s);
  }

  lemma {:induction false} RunKeepsInv(c: Config, run: seq<Action>)
    requires c.size >= 1 && Exec(c, Init(c), run).Some?
    ensures Inv(c, Exec(c, Init(c), run).value)
    decreases |run|
  {
    if run == [] {
      InitInv(c);
    } else {
      var n := |run| - 1;
      RunKeepsInv(c, run[..n]);
      StepKeepsInv(c, Exec(c, Init(c), run[..n]).value, run[n]);
    }
  }

  // ---- delivery

  lemma {:induction false} FlatPrefix(deals: seq<seq<Ticket>>, re: nat, rp: nat)
    requires re <= |deals| && rp <= |DealAt(deals, re)|
    ensures Flat(deals[..re]) + DealAt(deals, re)[..rp] <= Flat(deals)
    decreases |deals|
  {
    var n := |deals| - 1;
    if re == |deals| {
      assert deals[..re] == deals;
    } else {
      assert Flat(deals) == Flat(deals[..n]) + deals[n];
      if re < n {
        FlatPrefix(deals[..n], re, rp);
        assert deals[..n][..re] == deals[..re];
      }
    }
  }

  lemma {:induction false} MinePrefix(ts: seq<Ticket>, n: nat, p: Producer)
    requires n <= |ts|
    ensures Mine(ts[..n], p) <= Mine(ts, p)
    decreases |ts|
  {
    if n < |ts| {
      MinePrefix(ts[..|ts| - 1], n, p);
      assert ts[..|ts| - 1][..n] == ts[..n];
    } else {
      assert ts[..n] == ts;
    }
  }

  lemma {:induction false} FlatSize(deals: seq<seq<Ticket>>, size: nat, n: nat)
    requires n <= |deals| && forall e :: 0 <= e < n ==> |deals[e]| == size
    ensures |Flat(deals[..n])| == n * size
  {
    if n > 0 {
      FlatSize(deals, size, n - 1);
      assert deals[..n][..n - 1] == deals[..n - 1];
    } else {
      assert deals[..n] == [];
    }
  }

  /** What has been popped, in any state that keeps the invariant. */
  lemma PoppedPrefix(c: Config, s: State)
    requires Inv(c, s)
    ensures |s.popped| == ReadEpoch(s) * c.size + ReadPos(s) <= |Flat(s.deals)|
    ensures s.popped == Lines(Flat(s.deals)[..|s.popped|])
  {
    var re, rp := ReadEpoch(s), ReadPos(s);
    var passed := Flat(s.deals[..re]) + DealAt(s.deals, re)[..rp];
    FlatPrefix(s.deals, re, rp);
    FlatSize(s.deals, c.size, re);
    assert passed == Flat(s.deals)[..|passed|];
  }

  /** The lines of all calls of `push` by one producer in a run, in order. */
  function PushedBy(run: seq<Action>, p: Producer): seq<Line> {
    if run == [] then []
    else
      var a := run[|run| - 1];
      PushedBy(run[..|run| - 1], p) + if a.Push? && a.p == p then [a.line] else []
  }

  lemma StepPushed(c: Config, s: State, a: Action, p: Producer)
    requires Shape(c, s) && Enabled(c, s, a) && p in c.producers
    ensures var s' := Step(c, s, a);
      p in s'.pushed && s'.pushed[p] == s.pushed[p] + if a.Push? && a.p == p then [a.line] else []
  {
    match a
    case Push(_, _) =>
    case Produce(q) => ProducePushesNothing(c, s, q);
    case Consume => ConsumeKeepsOrder(c, s);
  }

  lemma ProducePushesNothing(c: Config, s: State, q: Producer)
    requires Shape(c, s) && q in c.producers
    ensures ProduceStep(c, s, q).pushed == s.pushed
  {
    if !s.locals[q].pc.Redraw? { ProduceKeepsLine(c, s, q); }
  }

  /** The history of pushes is the run's. */
  lemma {:induction false} PushedIsRun(c: Config, run: seq<Action>, p: Producer)
    requires Exec(c, Init(c), run).Some? && p in c.producers
    ensures var s := Exec(c, Init(c), run).value; p in s.pushed && s.pushed[p] == PushedBy(run, p)
    decreases |run|
  {
    if run != [] {
      var n := |run| - 1;
      PushedIsRun(c, run[..n], p);
      StepPushed(c, Exec(c, Init(c), run[..n]).value, run[n], p);
    }
  }

  /**
   Whatever the interleaving, the lines popped are the lines of the first tickets, in ticket order:
   none lost, none repeated, none invented. Ticket e * size + i is slot i of buffer e. A producer's
   tickets carry the lines it was called with, in that order; at most its last line waits for one.
   */
  lemma Delivery(c: Config, run: seq<Action>)
    requires c.size >= 1 && Exec(c, Init(c), run).Some?
    ensures var s := Exec(c, Init(c), run).value;
      var tickets := Flat(s.deals);
      && |s.popped| == ReadEpoch(s) * c.size + ReadPos(s) <= |tickets|
      && s.popped == Lines(tickets[..|s.popped|])
      && s.locals.Keys == c.producers
      && (forall p :: p in c.producers ==>
            && Mine(tickets[..|s.popped|], p) <= Mine(tickets, p)
            && PushedBy(run, p) == Mine(tickets, p) + if Waiting(s.locals[p].pc) then [s.locals[p].line] else [])
  {
    RunKeepsInv(c, run);
    var s := Exec(c, Init(c), run).value;
    var tickets := Flat(s.deals);
    PoppedPrefix(c, s);
    forall p | p in c.producers
      ensures Mine(tickets[..|s.popped|], p) <= Mine(tickets, p)
      ensures PushedBy(run, p) == Mine(tickets, p) + if Waiting(s.locals[p].pc) then [s.locals[p].line] else []
    {
      MinePrefix(tickets, |s.popped|, p);
      PushedIsRun(c, run, p);
    }
  }

  lemma {:induction false} TicketNumber(c: Config, deals: seq<seq<Ticket>>, e: nat, i: nat)
    requires e < |deals| && i < |deals[e]| && forall k :: 0 <= k < e ==> |deals[k]| == c.size
    ensures e * c.size + i < |Flat(deals)| && Flat(deals)[e * c.size + i] == deals[e][i]
  {
    FlatSize(deals, c.size, e);
    FlatPrefix(deals, e, i + 1);
    var passed := Flat(deals[..e]) + DealAt(deals, e)[..i + 1];
    assert passed[e * c.size + i] == deals[e][i];
  }

  // ---- switching buffers

  /**
   At most one producer is switching buffers; while one is, every slot of the epoch's buffer has
   been written and made ready and nobody holds a ticket. A ticket holder's buffer is always the one
   its ticket was drawn for.
   */
  lemma Switching(c: Config, run: seq<Action>)
    requires c.size >= 1 && Exec(c, Init(c), run).Some?
    ensures var s := Exec(c, Init(c), run).value;
      && |s.deals| == |s.buffers|
      && s.epoch < |s.buffers| <= s.epoch + 2
      && (|s.buffers| == s.epoch + 2 <==> exists p :: p in c.producers && p in s.locals && Swapped(s.locals[p].pc))
      && (forall e :: 0 <= e < |s.buffers| ==> |s.buffers[e].slots| == c.size)
      && s.locals.Keys == c.producers
      && (forall p, q :: p in c.producers && q in c.producers && InSwitch(s.locals[p].pc) && InSwitch(s.locals[q].pc) ==> p == q)
      && (forall p :: p in c.producers && InSwitch(s.locals[p].pc) ==>
            && (forall i :: 0 <= i < c.size ==> s.buffers[s.epoch].slots[i].ready)
            && (forall q :: q in c.producers ==> !HasTicket(s.locals[q].pc)))
      && (forall p :: p in c.producers && HasTicket(s.locals[p].pc) && !s.locals[p].pc.LoadBuffer? ==>
            var Local(_, line, i, b) := s.locals[p];
            && b == s.epoch < |s.deals| && i < |s.deals[b]|
            && s.deals[b][i] == Ticket(p, line))
  {
    RunKeepsInv(c, run);
    var s := Exec(c, Init(c), run).value;
    if s.switcher.Some? {
      FullBuffer(c, s);
    }
  }

  lemma OnlyResetEndsEpoch(c: Config, s: State, a: Action)
    requires Shape(c, s) && Enabled(c, s, a) && (a.Produce? ==> !s.locals[a.p].pc.ResetIndex?)
    ensures Step(c, s, a).epoch == s.epoch
  {
  }

  lemma OthersKeepTicket(c: Config, s: State, a: Action, p: Producer)
    requires Shape(c, s) && Enabled(c, s, a) && p in c.producers && HasTicket(s.locals[p].pc) && a != Produce(p)
    ensures p in Step(c, s, a).locals && Step(c, s, a).locals[p] == s.locals[p]
  {
  }

  lemma OwnStepKeepsIndex(c: Config, s: State, p: Producer)
    requires Shape(c, s) && p in c.producers && HasTicket(s.locals[p].pc)
    ensures var s' := ProduceStep(c, s, p); p in s'.locals && s'.locals[p].index == s.locals[p].index
  {
  }

  /** While a ticket is out the epoch it was drawn in lasts, and its slot number stays its own. */
  lemma TicketKeepsEpoch(c: Config, s: State, a: Action, p: Producer)
    requires Inv(c, s) && Enabled(c, s, a) && p in c.producers && HasTicket(s.locals[p].pc)
    ensures var s' := Step(c, s, a);
      s'.epoch == s.epoch && p in s'.locals && s'.locals[p].index == s.locals[p].index
  {
    TicketMeansNoSwitch(c, s, p);
    OnlyResetEndsEpoch(c, s, a);
    if a == Produce(p) {
      OwnStepKeepsIndex(c, s, p);
    } else {
      OthersKeepTicket(c, s, a, p);
    }
  }

  lemma FullBuffer(c: Config, s: State)
    requires WriteInv(c, s) && s.switcher.Some?
    ensures forall i :: 0 <= i < c.size ==> s.buffers[s.epoch].slots[i].ready
    ensures forall q :: q in c.producers ==> !HasTicket(s.locals[q].pc)
  {
    var b := s.buffers[s.epoch];
    FullCount(b.counted, c.size);
    forall i | 0 <= i < c.size
      ensures b.slots[i].ready
    {
      assert SlotInv(c, s.locals, b, s.deals[s.epoch], true, i, b.slots[i]);
    }
  }

  /** While the index is past the end some producer is placing its line or switching buffers: not all of them spin. */
  lemma Busy(c: Config, s: State) returns (q: Producer)
    requires WriteInv(c, s) && s.writeIndex >= c.size
    ensures q in c.producers && (HasTicket(s.locals[q].pc) || InSwitch(s.locals[q].pc))
  {
    var b := s.buffers[s.epoch];
    if s.switcher.Some? {
      q := s.switcher.value;
    } else {
      FullCount(b.counted, c.size);
      var i :| 0 <= i < c.size && i !in b.counted by {
        if forall i :: 0 <= i < c.size ==> i in b.counted {
          SubsetSize(Below(c.size), b.counted);
        }
      }
      assert SlotInv(c, s.locals, b, s.deals[s.epoch], true, i, b.slots[i]);
      q := s.deals[s.epoch][i].producer;
    }
  }

  lemma BoundedIndex(c: Config, s: State)
    requires WriteInv(c, s) && IndexInv(c, s.locals, s.writeIndex)
    ensures s.writeIndex < c.size + |c.producers|
  {
    if s.writeIndex >= c.size {
      var q := Busy(c, s);
      assert Spinners(s.locals) <= c.producers - {q};
      SubsetSize(Spinners(s.locals), c.producers - {q});
    }
  }

  /** The write index stays below the buffer size plus the number of producers. */
  lemma IndexBound(c: Config, run: seq<Action>)
    requires c.size >= 1 && Exec(c, Init(c), run).Some?
    ensures var s := Exec(c, Init(c), run).value;
      s.writeIndex < c.size + |c.producers|
  {
    RunKeepsInv(c, run);
    BoundedIndex(c, Exec(c, Init(c), run).value);
  }

  /** The queue of buffers is only ever touched by one thread at a time. */
  lemma MutualExclusion(c: Config, run: seq<Action>, p: Producer, q: Producer)
    requires c.size >= 1 && Exec(c, Init(c), run).Some? && p in c.producers && q in c.producers
    ensures var s := Exec(c, Init(c), run).value;
      && s.locals.Keys == c.producers
      && (s.locals[p].pc.Enqueue? && s.locals[q].pc.Enqueue? ==> p == q)
      && (s.locals[p].pc.Enqueue? ==> !s.consumer.ReadFront? && !s.consumer.Dequeue?)
  {
    RunKeepsInv(c, run);
  }
}
