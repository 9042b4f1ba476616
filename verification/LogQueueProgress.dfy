/** No deadlock: from every reachable state the pushes in progress can all be brought to their end. */
module LogQueueProgress {
  import opened Wrappers
  import opened LogQueue
  import opened LogQueueInvariant
  import opened LogQueueRead
  import opened LogQueueOrder
  import opened LogQueueTheorems
  import opened LogQueueDrain

  /** How far a producer is from the end of its push. */
  function Distance(pc: Pc): nat {
    match pc
    case Idle => 0
    case ReleaseLock => 1
    case ResetIndex => 2
    case Enqueue => 3
    case TakeLock => 4
    case NewBuffer => 5
    case CountUp => 6
    case SetReady => 7
    case StoreItem => 8
    case LoadBuffer => 9
    case Redraw => 10
    case Spin => 11
  }

  ghost function Work(locals: map<Producer, Local>, ps: set<Producer>): nat
    requires ps <= locals.Keys
    decreases |ps|
  {
    if |ps| == 0 then 0
    else
      var p := AnyOf(ps);
      Distance(locals[p].pc) + Work(locals, ps - {p})
  }

  lemma {:induction false} WorkRemove(locals: map<Producer, Local>, ps: set<Producer>, p: Producer)
    requires ps <= locals.Keys && p in ps
    ensures Work(locals, ps) == Distance(locals[p].pc) + Work(locals, ps - {p})
    decreases |ps|
  {
    var q := AnyOf(ps);
    if q != p {
      WorkRemove(locals, ps - {q}, p);
      WorkRemove(locals, ps - {p}, q);
      assert ps - {q} - {p} == ps - {p} - {q};
    }
  }

  lemma {:induction false} WorkAgrees(f: map<Producer, Local>, g: map<Producer, Local>, ps: set<Producer>)
    requires ps <= f.Keys && ps <= g.Keys && forall p :: p in ps ==> f[p] == g[p]
    ensures Work(f, ps) == Work(g, ps)
    decreases |ps|
  {
    if |ps| > 0 {
      WorkAgrees(f, g, ps - {AnyOf(ps)});
    }
  }

  lemma WorkShrinks(f: map<Producer, Local>, g: map<Producer, Local>, p: Producer)
    requires p in f && p in g && g == f[p := g[p]] && Distance(g[p].pc) < Distance(f[p].pc)
    ensures Work(g, g.Keys) < Work(f, f.Keys)
  {
    assert g.Keys == f.Keys;
    WorkRemove(f, f.Keys, p);
    WorkRemove(g, g.Keys, p);
    WorkAgrees(f, g, f.Keys - {p});
  }

  /** How far the consumer is from giving the lock back. */
  function Holding(k: ConsumerPc): nat {
    match k
    case ReadFront => 2
    case UnlockFront => 1
    case Dequeue => 2
    case UnlockPop => 1
    case _ => 0
  }

  lemma TicketAdvances(c: Config, s: State, p: Producer)
    requires Shape(c, s) && p in c.producers && HasTicket(s.locals[p].pc)
    ensures var s' := ProduceStep(c, s, p);
      p in s'.locals && s'.locals == s.locals[p := s'.locals[p]] && Distance(s'.locals[p].pc) < Distance(s.locals[p].pc)
  {
  }

  lemma SwitchAdvances(c: Config, s: State, p: Producer)
    requires Shape(c, s) && p in c.producers && (InSwitch(s.locals[p].pc) || s.locals[p].pc.ReleaseLock?)
    ensures var s' := ProduceStep(c, s, p);
      p in s'.locals && s'.locals == s.locals[p := s'.locals[p]] && Distance(s'.locals[p].pc) < Distance(s.locals[p].pc)
  {
  }

  lemma WaitingAdvances(c: Config, s: State, p: Producer)
    requires Shape(c, s) && p in c.producers && Waiting(s.locals[p].pc) && s.writeIndex < c.size
    ensures var s' := ProduceStep(c, s, p);
      p in s'.locals && s'.locals == s.locals[p := s'.locals[p]] && Distance(s'.locals[p].pc) < Distance(s.locals[p].pc)
  {
  }

  /** A producer that can go on now: not one that spins in vain, nor one that waits for the lock. */
  ghost predicate Free(c: Config, s: State, p: Producer) {
    && p in c.producers && p in s.locals && !s.locals[p].pc.Idle?
    && (Waiting(s.locals[p].pc) ==> s.writeIndex < c.size)
    && (s.locals[p].pc.TakeLock? ==> s.lock.Nobody?)
  }

  lemma FreeAdvances(c: Config, s: State, p: Producer)
    requires Shape(c, s) && Free(c, s, p)
    ensures Enabled(c, s, Produce(p))
    ensures Work(ProduceStep(c, s, p).locals, ProduceStep(c, s, p).locals.Keys) < Work(s.locals, s.locals.Keys)
  {
    if HasTicket(s.locals[p].pc) {
      TicketAdvances(c, s, p);
    } else if Waiting(s.locals[p].pc) {
      WaitingAdvances(c, s, p);
    } else {
      SwitchAdvances(c, s, p);
    }
    WorkShrinks(s.locals, ProduceStep(c, s, p).locals, p);
  }

  lemma HolderAdvances(c: Config, s: State)
    requires Shape(c, s) && ConsumerHasLock(s.consumer) && (s.consumer.Dequeue? ==> s.queue != [])
    ensures Enabled(c, s, Consume)
    ensures ConsumeStep(c, s).locals == s.locals && Holding(ConsumeStep(c, s).consumer) < Holding(s.consumer)
  {
  }

  /** Unless the consumer holds the lock, some producer can go on. */
  lemma SomeFree(c: Config, s: State) returns (p: Producer)
    requires Inv(c, s) && !Quiescent(c, s) && !s.lock.ByConsumer?
    ensures Free(c, s, p)
  {
    if s.lock.ByProducer? {
      p := s.lock.p;
    } else if s.writeIndex >= c.size {
      p := Busy(c, s);
    } else {
      p :| p in c.producers && !s.locals[p].pc.Idle?;
    }
  }

  ghost predicate Closer(s: State, s': State) {
    || Work(s'.locals, s'.locals.Keys) < Work(s.locals, s.locals.Keys)
    || (Work(s'.locals, s'.locals.Keys) == Work(s.locals, s.locals.Keys) && Holding(s'.consumer) < Holding(s.consumer))
  }

  lemma NextAccess(c: Config, s: State) returns (a: Action)
    requires Inv(c, s) && !Quiescent(c, s)
    ensures !a.Push? && Enabled(c, s, a) && Closer(s, Step(c, s, a))
  {
    if s.lock.ByConsumer? {
      HolderAdvances(c, s);
      a := Consume;
    } else {
      var p := SomeFree(c, s);
      FreeAdvances(c, s, p);
      a := Produce(p);
    }
  }

  lemma ExecSnoc(c: Config, run: seq<Action>, a: Action)
    requires Exec(c, Init(c), run).Some?
    requires var s := Exec(c, Init(c), run).value; Shape(c, s) && Enabled(c, s, a)
    ensures Exec(c, Init(c), run + [a]) == Some(Step(c, Exec(c, Init(c), run).value, a))
  {
    assert (run + [a])[..|run|] == run;
  }

  /** A run that goes on without a new push. */
  ghost predicate GoesOn(run: seq<Action>, longer: seq<Action>) {
    run <= longer && forall i :: |run| <= i < |longer| ==> !longer[i].Push?
  }

  lemma GoesOnTwice(x: seq<Action>, y: seq<Action>, z: seq<Action>)
    requires GoesOn(x, y) && GoesOn(y, z)
    ensures GoesOn(x, z)
  {
    forall i | |x| <= i < |z|
      ensures !z[i].Push?
    {
      if i < |y| {
        assert z[i] == y[i];
      }
    }
  }

  lemma OneAccess(c: Config, run: seq<Action>, s: State) returns (longer: seq<Action>, s': State)
    requires c.size >= 1 && Exec(c, Init(c), run) == Some(s) && !Quiescent(c, s)
    ensures GoesOn(run, longer)
    ensures Exec(c, Init(c), longer) == Some(s') && Closer(s, s')
  {
    RunKeepsInv(c, run);
    var a := NextAccess(c, s);
    ExecSnoc(c, run, a);
    longer, s' := run + [a], Step(c, s, a);
  }

  /** From every reachable state some continuation without new pushes ends with every push returned. */
  lemma {:induction false} CanFinish(c: Config, run: seq<Action>, s: State) returns (longer: seq<Action>, end: State)
    requires c.size >= 1 && Exec(c, Init(c), run) == Some(s)
    ensures GoesOn(run, longer) && Exec(c, Init(c), longer) == Some(end) && Quiescent(c, end)
    decreases Work(s.locals, s.locals.Keys), Holding(s.consumer)
  {
    if Quiescent(c, s) {
      longer, end := run, s;
    } else {
      var next, s' := OneAccess(c, run, s);
      longer, end := CanFinish(c, next, s');
      GoesOnTwice(run, next, longer);
    }
  }
}
