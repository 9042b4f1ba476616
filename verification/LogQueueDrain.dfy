/** The loop that empties the queue at shutdown, when no producer is inside `push` any more. */
module LogQueueDrain {
  import opened Wrappers
  import opened LogQueue
  import opened LogQueueInvariant
  import opened LogQueueRead
  import opened LogQueueOrder
  import opened LogQueueTheorems

  ghost predicate Quiescent(c: Config, s: State) {
    forall p :: p in c.producers ==> p in s.locals && s.locals[p].pc.Idle?
  }

  /** With no push in progress every ticket's slot is ready and the epoch's buffer is not full. */
  lemma QuiescentSlots(c: Config, s: State)
    requires WriteInv(c, s) && Quiescent(c, s)
    ensures s.switcher.None? && |s.deals| == s.epoch + 1 && |s.deals[s.epoch]| < c.size
    ensures forall e, i :: 0 <= e < |s.deals| && 0 <= i < |s.deals[e]| && i < c.size ==> s.buffers[e].slots[i].ready
  {
    forall e, i | 0 <= e < |s.deals| && 0 <= i < |s.deals[e]| && i < c.size
      ensures i in s.buffers[e].counted && s.buffers[e].slots[i].ready
    {
      assert SlotInv(c, s.locals, s.buffers[e], s.deals[e], e == s.epoch, i, s.buffers[e].slots[i]);
    }
    var b := s.buffers[s.epoch];
    if |s.deals[s.epoch]| >= c.size {
      assert Below(c.size) <= b.counted;
      SubsetSize(Below(c.size), b.counted);
      FullCount(b.counted, c.size);
    }
  }

  function Rank(k: ConsumerPc): nat {
    match k
    case Start => 0
    case LockFront => 9
    case ReadFront => 8
    case UnlockFront => 7
    case Check => 6
    case Move => 5
    case Advance => 4
    case LockPop => 3
    case Dequeue => 2
    case UnlockPop => 1
  }

  /** The consumer is never held up while no producer is inside `push`. */
  lemma ConsumerEnabled(c: Config, s: State)
    requires Inv(c, s) && Quiescent(c, s)
    ensures Enabled(c, s, Consume)
  {
  }

  predicate Moved(k: ConsumerPc) {
    k.Advance? || k.LockPop? || k.Dequeue? || k.UnlockPop?
  }

  /** How the consumer's place and its history move, whatever else is going on. */
  lemma ConsumerGoesOn(c: Config, s: State)
    requires Shape(c, s) && Enabled(c, s, Consume)
    ensures var s' := ConsumeStep(c, s);
      && (s.consumer.Start? || Rank(s'.consumer) < Rank(s.consumer))
      && (s.consumer.Move? ==> |s'.popped| == |s.popped| + 1 && Moved(s'.consumer))
      && (!s.consumer.Move? ==> s'.popped == s.popped && (Moved(s'.consumer) ==> Moved(s.consumer)))
      && (Moved(s.consumer) ==> Moved(s'.consumer) || s'.consumer.Start?)
  {
  }

  /** On a quiet queue the consumer always finds a buffer to read. */
  lemma BufferWaiting(c: Config, s: State)
    requires Inv(c, s) && Quiescent(c, s) && !s.consumer.LockPop? && !s.consumer.Dequeue?
    ensures s.queue != []
  {
    QuiescentSlots(c, s);
  }

  /** Only an empty queue makes `try_pop` give up: no line is left behind. */
  lemma NothingLeft(c: Config, s: State)
    requires Inv(c, s) && Quiescent(c, s) && s.consumer.Check?
    requires !s.buffers[s.readBuffer.value].slots[s.readIndex].ready
    ensures |s.popped| == |Flat(s.deals)|
  {
    QuiescentSlots(c, s);
    var n := |s.deals| - 1;
    assert s.dequeued == n && s.readIndex == |s.deals[n]|;
    assert Flat(s.deals) == Flat(s.deals[..n]) + DealAt(s.deals, n)[..s.readIndex];
  }

  ghost predicate Quiet(c: Config, s: State) {
    Inv(c, s) && Quiescent(c, s) && (s.consumer.UnlockFront? ==> s.readBuffer.Some?)
  }

  /** One access of the consumer on a quiet queue. */
  lemma QuietStep(c: Config, s: State)
    requires Quiet(c, s)
    ensures Shape(c, s) && Enabled(c, s, Consume)
    ensures var s' := ConsumeStep(c, s);
      && Quiet(c, s') && s'.deals == s.deals && s'.pushed == s.pushed
  {
    ConsumerEnabled(c, s);
    ConsumeKeepsInv(c, s);
    ConsumeKeepsOrder(c, s);
    if s.consumer.ReadFront? { BufferWaiting(c, s); }
  }

  /** The accesses that end `try_pop` without a line are only made when nothing is left. */
  lemma GivingUp(c: Config, s: State)
    requires Quiet(c, s) && Enabled(c, s, Consume)
    requires ConsumeStep(c, s).consumer.Start? && !Moved(s.consumer) && !s.consumer.Move?
    ensures |s.popped| == |Flat(s.deals)|
  {
    if s.consumer.Check? { NothingLeft(c, s); }
  }

  /** One call of `try_pop`, access by access. */
  method TryPop(c: Config, s0: State) returns (s: State, ok: bool)
    requires Quiet(c, s0) && s0.consumer.Start?
    ensures Quiet(c, s) && s.consumer.Start? && s.deals == s0.deals && s.pushed == s0.pushed
    ensures ok ==> |s.popped| == |s0.popped| + 1
    ensures !ok ==> |s.popped| == |s0.popped| == |Flat(s.deals)|
  {
    QuietStep(c, s0);
    s, ok := ConsumeStep(c, s0), false;
    while !s.consumer.Start?
      invariant Quiet(c, s) && s.deals == s0.deals && s.pushed == s0.pushed
      invariant |s.popped| == |s0.popped| + if ok then 1 else 0
      invariant !s.consumer.Start? ==> ok == Moved(s.consumer)
      invariant s.consumer.Start? && !ok ==> |s.popped| == |Flat(s.deals)|
      decreases Rank(s.consumer)
    {
      QuietStep(c, s);
      ConsumerGoesOn(c, s);
      if !ok && !s.consumer.Move? && ConsumeStep(c, s).consumer.Start? { GivingUp(c, s); }
      s, ok := ConsumeStep(c, s), ok || s.consumer.Move?;
    }
  }

  /** The final loop of `NanoLogger::pop`, after any run that leaves every push returned. */
  method Drain(c: Config, ghost run: seq<Action>, s0: State) returns (s: State)
    requires c.size >= 1 && Exec(c, Init(c), run) == Some(s0) && Quiescent(c, s0) && s0.consumer.Start?
    ensures Quiet(c, s) && s.deals == s0.deals
    ensures s.popped == Lines(Flat(s.deals))
    ensures forall p :: p in c.producers ==> Mine(Flat(s.deals), p) == PushedBy(run, p)
  {
    RunKeepsInv(c, run);
    s := s0;
    PoppedPrefix(c, s);
    var more := true;
    while more
      invariant Quiet(c, s) && s.consumer.Start? && s.deals == s0.deals
      invariant |s.popped| <= |Flat(s.deals)|
      invariant !more ==> |s.popped| == |Flat(s.deals)|
      decreases |Flat(s0.deals)| - |s.popped|, more
    {
      s, more := TryPop(c, s);
      PoppedPrefix(c, s);
    }
    AllPopped(c, s);
    NothingWaiting(c, run);
  }

  lemma AllPopped(c: Config, s: State)
    requires Inv(c, s) && |s.popped| == |Flat(s.deals)|
    ensures s.popped == Lines(Flat(s.deals))
  {
    PoppedPrefix(c, s);
    assert Flat(s.deals)[..|s.popped|] == Flat(s.deals);
  }

  lemma NothingWaiting(c: Config, run: seq<Action>)
    requires c.size >= 1 && Exec(c, Init(c), run).Some? && Quiescent(c, Exec(c, Init(c), run).value)
    ensures forall p :: p in c.producers ==> Mine(Flat(Exec(c, Init(c), run).value.deals), p) == PushedBy(run, p)
  {
    Delivery(c, run);
  }
}
