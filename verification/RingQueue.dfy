/**
 `RingBuffer`: many producers, one consumer, a fixed ring of slots with a spin lock each. A slot that
 has not been read yet may be overwritten. Every lock operation, store and counter update is a step
 of its own, and all threads take steps in any order.
 */
module RingQueue {
  import opened Wrappers

  datatype Thread = Writer(p: nat) | Reader

  /** `owner` records which push set `written` last. */
  datatype Slot<L> = Slot(holder: Option<Thread>, written: bool, line: L, owner: nat)

  /** Where a `push(line)` stands that has drawn `ticket` from the write index. */
  datatype Producer<L> =
    | Idle
    | Claimed(ticket: nat, line: L)
    | Locked(ticket: nat, line: L)
    | Moved(ticket: nat, line: L)
    | Marked(ticket: nat)

  /** Where `try_pop` stands, and at which slot. */
  datatype Consumer<L> =
    | Outside
    | Looking(slot: nat)
    | Taken(slot: nat, line: L)
    | Cleared(slot: nat)
    | Leaving(slot: nat)

  /** `lines` holds the line of each ticket; `landed` the tickets whose push has marked its slot; `lost`
      those overwritten; `popped` the tickets handed out, in order, and `output` what was handed out. */
  datatype State<L> = State(
    slots: seq<Slot<L>>,
    writeIndex: nat,
    readIndex: nat,
    producers: seq<Producer<L>>,
    consumer: Consumer<L>,
    lines: seq<L>,
    landed: set<nat>,
    lost: set<nat>,
    popped: seq<nat>,
    output: seq<L>)

  datatype Action<L> =
    | Claim(p: nat, line: L)
    | Lock(p: nat)
    | Move(p: nat)
    | Mark(p: nat)
    | Unlock(p: nat)
    | Look
    | Take
    | Clear
    | Count
    | Leave

  function SlotOf(ticket: nat, size: nat): (k: nat)
    requires size > 0
    ensures k < size
  {
    ticket % size
  }

  predicate Shape<L>(s: State<L>) {
    && |s.slots| > 0
    && (s.consumer != Outside ==> s.consumer.slot < |s.slots|)
  }

  predicate Init<L>(s: State<L>) {
    && Shape(s)
    && (forall k :: 0 <= k < |s.slots| ==> s.slots[k].holder == None && !s.slots[k].written)
    && s.writeIndex == 0 && s.readIndex == 0
    && (forall p :: 0 <= p < |s.producers| ==> s.producers[p].Idle?)
    && s.consumer.Outside?
    && s.lines == [] && s.landed == {} && s.lost == {} && s.popped == [] && s.output == []
  }

  predicate Enabled<L>(s: State<L>, a: Action<L>)
    requires Shape(s)
  {
    match a
    case Claim(p, _) => p < |s.producers| && s.producers[p].Idle?
    case Lock(p) => p < |s.producers| && s.producers[p].Claimed?
                 && s.slots[SlotOf(s.producers[p].ticket, |s.slots|)].holder.None?
    case Move(p) => p < |s.producers| && s.producers[p].Locked?
    case Mark(p) => p < |s.producers| && s.producers[p].Moved?
    case Unlock(p) => p < |s.producers| && s.producers[p].Marked?
    case Look => s.consumer.Outside? && s.slots[SlotOf(s.readIndex, |s.slots|)].holder.None?
    case Take => s.consumer.Looking? && s.slots[s.consumer.slot].written
    case Clear => s.consumer.Taken?
    case Count => s.consumer.Cleared?
    case Leave => s.consumer.Leaving? || (s.consumer.Looking? && !s.slots[s.consumer.slot].written)
  }

  function WriterStep<L>(s: State<L>, a: Action<L>): State<L>
    requires Shape(s) && Enabled(s, a)
    requires a.Claim? || a.Lock? || a.Move? || a.Mark? || a.Unlock?
  {
    if a.Claim? then
      s.(writeIndex := s.writeIndex + 1,
         producers := s.producers[a.p := Claimed(s.writeIndex, a.line)],
         lines := s.lines + [a.line])
    else
      var me := s.producers[a.p];
      var k := SlotOf(me.ticket, |s.slots|);
      match a
      case Lock(p) =>
        s.(slots := s.slots[k := s.slots[k].(holder := Some(Writer(p)))],
           producers := s.producers[p := Locked(me.ticket, me.line)])
      case Move(p) =>
        s.(slots := s.slots[k := s.slots[k].(line := me.line)],
           producers := s.producers[p := Moved(me.ticket, me.line)])
      case Mark(p) =>
        s.(slots := s.slots[k := s.slots[k].(written := true, owner := me.ticket)],
           producers := s.producers[p := Marked(me.ticket)],
           landed := s.landed + {me.ticket},
           lost := if s.slots[k].written then s.lost + {s.slots[k].owner} else s.lost)
      case Unlock(p) =>
        s.(slots := s.slots[k := s.slots[k].(holder := None)],
           producers := s.producers[p := Idle])
  }

  function ReaderStep<L>(s: State<L>, a: Action<L>): State<L>
    requires Shape(s) && Enabled(s, a)
    requires a.Look? || a.Take? || a.Clear? || a.Count? || a.Leave?
  {
    if a.Look? then
      var k := SlotOf(s.readIndex, |s.slots|);
      s.(slots := s.slots[k := s.slots[k].(holder := Some(Reader))], consumer := Looking(k))
    else
      var k := s.consumer.slot;
      match a
      case Take =>
        s.(consumer := Taken(k, s.slots[k].line))
      case Clear =>
        s.(slots := s.slots[k := s.slots[k].(written := false)],
           consumer := Cleared(k),
           popped := s.popped + [s.slots[k].owner],
           output := s.output + [s.consumer.line])
      case Count =>
        s.(readIndex := s.readIndex + 1, consumer := Leaving(k))
      case Leave =>
        s.(slots := s.slots[k := s.slots[k].(holder := None)], consumer := Outside)
  }

  function Step<L>(s: State<L>, a: Action<L>): (t: State<L>)
    requires Shape(s) && Enabled(s, a)
    ensures Shape(t)
  {
    if a.Look? || a.Take? || a.Clear? || a.Count? || a.Leave? then ReaderStep(s, a) else WriterStep(s, a)
  }

  /** A run of all threads. */
  ghost predicate Run<L>(states: seq<State<L>>, actions: seq<Action<L>>) {
    && |states| == |actions| + 1 && Init(states[0])
    && (forall i :: 0 <= i < |states| ==> Shape(states[i]))
    && (forall i :: 0 <= i < |actions| ==> Enabled(states[i], actions[i]) && states[i + 1] == Step(states[i], actions[i]))
  }

  // ---- the invariant

  predicate Pending<L>(me: Producer<L>) {
    me.Claimed? || me.Locked? || me.Moved?
  }

  predicate Inside<L>(me: Producer<L>) {
    me.Locked? || me.Moved? || me.Marked?
  }

  predicate HeldBy<L>(s: State<L>, k: nat, thread: Thread)
    requires Shape(s)
  {
    match thread
    case Writer(p) => p < |s.producers| && Inside(s.producers[p]) && SlotOf(s.producers[p].ticket, |s.slots|) == k
    case Reader => s.consumer != Outside && s.consumer.slot == k
  }

  /** Whoever is inside a slot holds its lock, and a lock is held by whoever is inside. */
  ghost predicate Exclusive<L>(s: State<L>)
    requires Shape(s)
  {
    && (forall k :: 0 <= k < |s.slots| && s.slots[k].holder.Some? ==> HeldBy(s, k, s.slots[k].holder.value))
    && (forall p :: 0 <= p < |s.producers| && Inside(s.producers[p]) ==>
          s.slots[SlotOf(s.producers[p].ticket, |s.slots|)].holder == Some(Writer(p)))
    && (s.consumer != Outside ==> s.slots[s.consumer.slot].holder == Some(Reader))
  }

  /** Tickets: drawn once each, and landed once the push has marked its slot. */
  ghost predicate Tickets<L>(s: State<L>) {
    && |s.lines| == s.writeIndex
    && (forall t :: t in s.landed ==> t < s.writeIndex)
    && (forall p :: 0 <= p < |s.producers| && Pending(s.producers[p]) ==>
          s.producers[p].ticket < s.writeIndex && s.producers[p].ticket !in s.landed
          && s.producers[p].line == s.lines[s.producers[p].ticket])
    && (forall p, q :: 0 <= p < q < |s.producers| && Pending(s.producers[p]) && Pending(s.producers[q]) ==>
          s.producers[p].ticket != s.producers[q].ticket)
  }

  /** A written slot stands for one landed push, which is neither popped nor lost. */
  ghost predicate Stored<L>(s: State<L>)
    requires Shape(s)
  {
    && (forall k :: 0 <= k < |s.slots| && s.slots[k].written ==>
          && s.slots[k].owner in s.landed && s.slots[k].owner !in s.lost && s.slots[k].owner !in s.popped
          && SlotOf(s.slots[k].owner, |s.slots|) == k)
    && (s.consumer.Taken? ==> s.slots[s.consumer.slot].written)
  }

  ghost predicate Gone<L>(s: State<L>) {
    && s.lost <= s.landed
    && (forall i :: 0 <= i < |s.popped| ==> s.popped[i] in s.landed && s.popped[i] !in s.lost)
    && (forall i, j :: 0 <= i < j < |s.popped| ==> s.popped[i] != s.popped[j])
    && |s.popped| == s.readIndex + if s.consumer.Cleared? then 1 else 0
  }

  /** Some push has replaced the line of the slot and not marked it yet. */
  predicate HalfWritten<L>(s: State<L>, slot: Slot<L>) {
    match slot.holder
    case Some(Writer(p)) => p < |s.producers| && s.producers[p].Moved?
    case _ => false
  }

  /** A written slot holds the line of the push it stands for; every line handed out is that of its ticket. */
  ghost predicate Lines<L>(s: State<L>)
    requires Shape(s) && Tickets(s) && Stored(s) && Gone(s)
  {
    && (forall k :: 0 <= k < |s.slots| && s.slots[k].written && !HalfWritten(s, s.slots[k]) ==>
          s.slots[k].line == s.lines[s.slots[k].owner])
    && (forall p :: 0 <= p < |s.producers| && s.producers[p].Moved? ==>
          s.slots[SlotOf(s.producers[p].ticket, |s.slots|)].line == s.producers[p].line)
    && (s.consumer.Taken? ==> s.consumer.line == s.lines[s.slots[s.consumer.slot].owner])
    && |s.output| == |s.popped|
    && (forall i :: 0 <= i < |s.popped| ==> s.output[i] == s.lines[s.popped[i]])
  }

  function WrittenSlots<L>(s: State<L>): set<nat> {
    set k | 0 <= k < |s.slots| && s.slots[k].written
  }

  ghost predicate Conserved<L>(s: State<L>) {
    |s.landed| == |s.popped| + |WrittenSlots(s)| + |s.lost|
  }

  /** Every landed push is popped, overwritten, or what its slot stands for. */
  ghost predicate Covered<L>(s: State<L>)
    requires Shape(s)
  {
    forall t :: t in s.landed ==> t in s.popped || t in s.lost || Stands(s, t)
  }

  predicate Stands<L>(s: State<L>, t: nat)
    requires Shape(s)
  {
    var slot := s.slots[SlotOf(t, |s.slots|)];
    slot.written && slot.owner == t
  }

  ghost predicate Inv<L>(s: State<L>) {
    && Shape(s) && Exclusive(s) && Tickets(s) && Stored(s) && Gone(s) && Lines(s) && Conserved(s) && Covered(s)
  }

  lemma WriterKeepsExclusive<L>(s: State<L>, a: Action<L>)
    requires Shape(s) && Enabled(s, a) && Exclusive(s)
    requires a.Claim? || a.Lock? || a.Move? || a.Mark? || a.Unlock?
    ensures Exclusive(WriterStep(s, a))
  {
  }

  lemma ReaderKeepsExclusive<L>(s: State<L>, a: Action<L>)
    requires Shape(s) && Enabled(s, a) && Exclusive(s)
    requires a.Look? || a.Take? || a.Clear? || a.Count? || a.Leave?
    ensures Exclusive(ReaderStep(s, a))
  {
  }

  lemma ExclusiveKept<L>(s: State<L>, a: Action<L>)
    requires Shape(s) && Enabled(s, a) && Exclusive(s)
    ensures Exclusive(Step(s, a))
  {
    match a
    case Look => ReaderKeepsExclusive(s, a);
    case Take => ReaderKeepsExclusive(s, a);
    case Clear => ReaderKeepsExclusive(s, a);
    case Count => ReaderKeepsExclusive(s, a);
    case Leave => ReaderKeepsExclusive(s, a);
    case _ => WriterKeepsExclusive(s, a);
  }

  lemma TicketsKept<L>(s: State<L>, a: Action<L>)
    requires Shape(s) && Enabled(s, a) && Tickets(s)
    ensures Tickets(Step(s, a))
  {
  }

  lemma StoredKept<L>(s: State<L>, a: Action<L>)
    requires Shape(s) && Enabled(s, a) && Exclusive(s) && Tickets(s) && Stored(s) && Gone(s)
    ensures Stored(Step(s, a))
  {
  }

  lemma GoneKept<L>(s: State<L>, a: Action<L>)
    requires Shape(s) && Enabled(s, a) && Tickets(s) && Stored(s) && Gone(s)
    ensures Gone(Step(s, a))
  {
  }

  lemma ClaimKeepsLines<L>(s: State<L>, a: Action<L>)
    requires Shape(s) && Enabled(s, a) && Exclusive(s) && Tickets(s) && Stored(s) && Gone(s) && Lines(s)
    requires Tickets(Step(s, a)) && Stored(Step(s, a)) && Gone(Step(s, a))
    requires a.Claim?
    ensures Lines(Step(s, a))
  {
    var t := Step(s, a);
    assert forall i :: 0 <= i < |s.lines| ==> t.lines[i] == s.lines[i];
    assert forall k :: 0 <= k < |s.slots| ==> (HalfWritten(t, t.slots[k]) <==> HalfWritten(s, s.slots[k]));
  }

  lemma LockKeepsLines<L>(s: State<L>, a: Action<L>)
    requires Shape(s) && Enabled(s, a) && Exclusive(s) && Tickets(s) && Stored(s) && Gone(s) && Lines(s)
    requires Tickets(Step(s, a)) && Stored(Step(s, a)) && Gone(Step(s, a))
    requires a.Lock?
    ensures Lines(Step(s, a))
  {
  }

  lemma MoveKeepsLines<L>(s: State<L>, a: Action<L>)
    requires Shape(s) && Enabled(s, a) && Exclusive(s) && Tickets(s) && Stored(s) && Gone(s) && Lines(s)
    requires Tickets(Step(s, a)) && Stored(Step(s, a)) && Gone(Step(s, a))
    requires a.Move?
    ensures Lines(Step(s, a))
  {
  }

  lemma MarkKeepsLines<L>(s: State<L>, a: Action<L>)
    requires Shape(s) && Enabled(s, a) && Exclusive(s) && Tickets(s) && Stored(s) && Gone(s) && Lines(s)
    requires Tickets(Step(s, a)) && Stored(Step(s, a)) && Gone(Step(s, a))
    requires a.Mark?
    ensures Lines(Step(s, a))
  {
  }

  lemma UnlockKeepsLines<L>(s: State<L>, a: Action<L>)
    requires Shape(s) && Enabled(s, a) && Exclusive(s) && Tickets(s) && Stored(s) && Gone(s) && Lines(s)
    requires Tickets(Step(s, a)) && Stored(Step(s, a)) && Gone(Step(s, a))
    requires a.Unlock?
    ensures Lines(Step(s, a))
  {
  }

  lemma ReaderKeepsLines<L>(s: State<L>, a: Action<L>)
    requires Shape(s) && Enabled(s, a) && Exclusive(s) && Tickets(s) && Stored(s) && Gone(s) && Lines(s)
    requires Tickets(Step(s, a)) && Stored(Step(s, a)) && Gone(Step(s, a))
    requires a.Look? || a.Take? || a.Clear? || a.Count? || a.Leave?
    ensures Lines(Step(s, a))
  {
  }

  lemma LinesKept<L>(s: State<L>, a: Action<L>)
    requires Shape(s) && Enabled(s, a) && Exclusive(s) && Tickets(s) && Stored(s) && Gone(s) && Lines(s)
    requires Tickets(Step(s, a)) && Stored(Step(s, a)) && Gone(Step(s, a))
    ensures Lines(Step(s, a))
  {
    match a
    case Claim(_, _) => ClaimKeepsLines(s, a);
    case Lock(_) => LockKeepsLines(s, a);
    case Move(_) => MoveKeepsLines(s, a);
    case Mark(_) => MarkKeepsLines(s, a);
    case Unlock(_) => UnlockKeepsLines(s, a);
    case _ => ReaderKeepsLines(s, a);
  }

  lemma MarkConserves<L>(s: State<L>, a: Action<L>)
    requires Shape(s) && Enabled(s, a) && Tickets(s) && Stored(s) && Conserved(s) && a.Mark?
    ensures Conserved(Step(s, a))
  {
    var k := SlotOf(s.producers[a.p].ticket, |s.slots|);
    assert WrittenSlots(Step(s, a)) == WrittenSlots(s) + {k};
  }

  lemma ClearConserves<L>(s: State<L>, a: Action<L>)
    requires Shape(s) && Enabled(s, a) && Stored(s) && Conserved(s) && a.Clear?
    ensures Conserved(Step(s, a))
  {
    assert WrittenSlots(Step(s, a)) == WrittenSlots(s) - {s.consumer.slot};
  }

  lemma ConservedKept<L>(s: State<L>, a: Action<L>)
    requires Shape(s) && Enabled(s, a) && Tickets(s) && Stored(s) && Conserved(s)
    ensures Conserved(Step(s, a))
  {
    if a.Mark? {
      MarkConserves(s, a);
    } else if a.Clear? {
      ClearConserves(s, a);
    } else {
      assert WrittenSlots(Step(s, a)) == WrittenSlots(s);
    }
  }

  lemma MarkCovers<L>(s: State<L>, a: Action<L>, t: nat)
    requires Shape(s) && Enabled(s, a) && Covered(s) && a.Mark? && t in Step(s, a).landed
    ensures t in Step(s, a).popped || t in Step(s, a).lost || Stands(Step(s, a), t)
  {
  }

  lemma ClearCovers<L>(s: State<L>, a: Action<L>, t: nat)
    requires Shape(s) && Enabled(s, a) && Covered(s) && a.Clear? && t in s.landed
    ensures t in Step(s, a).popped || t in Step(s, a).lost || Stands(Step(s, a), t)
  {
    assert s.slots[s.consumer.slot].owner in Step(s, a).popped by {
      assert Step(s, a).popped[|s.popped|] == s.slots[s.consumer.slot].owner;
    }
  }

  lemma OthersCover<L>(s: State<L>, a: Action<L>, t: nat)
    requires Shape(s) && Enabled(s, a) && Covered(s) && !a.Mark? && !a.Clear? && t in s.landed
    ensures t in Step(s, a).popped || t in Step(s, a).lost || Stands(Step(s, a), t)
  {
  }

  lemma CoveredKept<L>(s: State<L>, a: Action<L>)
    requires Shape(s) && Enabled(s, a) && Covered(s)
    ensures Covered(Step(s, a))
  {
    forall t | t in Step(s, a).landed
      ensures t in Step(s, a).popped || t in Step(s, a).lost || Stands(Step(s, a), t)
    {
      if a.Mark? {
        MarkCovers(s, a, t);
      } else if a.Clear? {
        ClearCovers(s, a, t);
      } else {
        OthersCover(s, a, t);
      }
    }
  }

  lemma StepKeepsInv<L>(s: State<L>, a: Action<L>)
    requires Inv(s) && Enabled(s, a)
    ensures Inv(Step(s, a))
  {
    ExclusiveKept(s, a);
    TicketsKept(s, a);
    StoredKept(s, a);
    GoneKept(s, a);
    LinesKept(s, a);
    ConservedKept(s, a);
    CoveredKept(s, a);
  }

  lemma InitInv<L>(s: State<L>)
    requires Init(s)
    ensures Inv(s)
  {
    assert WrittenSlots(s) == {};
  }

  lemma {:induction false} RunKeepsInv<L>(states: seq<State<L>>, actions: seq<Action<L>>, i: nat)
    requires Run(states, actions) && i < |states|
    ensures Inv(states[i])
  {
    if i == 0 {
      InitInv(states[0]);
    } else {
      RunKeepsInv(states, actions, i - 1);
      StepKeepsInv(states[i - 1], actions[i - 1]);
      assert states[i - 1 + 1] == Step(states[i - 1], actions[i - 1]);
    }
  }

  // ---- what every run guarantees

  /** How many pushes are complete. */
  function Marks<L>(actions: seq<Action<L>>): nat {
    var n := |actions|;
    if n == 0 then 0 else Marks(actions[..n - 1]) + if actions[n - 1].Mark? then 1 else 0
  }

  lemma StepLands<L>(s: State<L>, a: Action<L>)
    requires Shape(s) && Tickets(s) && Enabled(s, a)
    ensures |Step(s, a).landed| == |s.landed| + if a.Mark? then 1 else 0
  {
  }

  lemma {:induction false} MarksLand<L>(states: seq<State<L>>, actions: seq<Action<L>>, i: nat)
    requires Run(states, actions) && i < |states|
    ensures |states[i].landed| == Marks(actions[..i])
  {
    if i > 0 {
      MarksLand(states, actions, i - 1);
      RunKeepsInv(states, actions, i - 1);
      StepLands(states[i - 1], actions[i - 1]);
      assert actions[..i][..i - 1] == actions[..i - 1];
      assert states[i - 1 + 1] == Step(states[i - 1], actions[i - 1]);
    }
  }

  /** How many pops are complete. */
  function Clears<L>(actions: seq<Action<L>>): nat {
    var n := |actions|;
    if n == 0 then 0 else Clears(actions[..n - 1]) + if actions[n - 1].Clear? then 1 else 0
  }

  /** The arguments of the calls of `push`, in the order in which they drew their tickets. */
  function CallLines<L>(actions: seq<Action<L>>): seq<L> {
    var n := |actions|;
    if n == 0 then []
    else CallLines(actions[..n - 1]) + if actions[n - 1].Claim? then [actions[n - 1].line] else []
  }

  lemma StepClaims<L>(s: State<L>, a: Action<L>)
    requires Shape(s) && Enabled(s, a)
    ensures Step(s, a).lines == s.lines + if a.Claim? then [a.line] else []
    ensures |Step(s, a).popped| == |s.popped| + if a.Clear? then 1 else 0
  {
  }

  lemma {:induction false} HistoriesAreRun<L>(states: seq<State<L>>, actions: seq<Action<L>>, i: nat)
    requires Run(states, actions) && i < |states|
    ensures states[i].lines == CallLines(actions[..i]) && |states[i].popped| == Clears(actions[..i])
  {
    if i > 0 {
      HistoriesAreRun(states, actions, i - 1);
      StepClaims(states[i - 1], actions[i - 1]);
      assert actions[..i][..i - 1] == actions[..i - 1];
      assert states[i - 1 + 1] == Step(states[i - 1], actions[i - 1]);
    }
  }

  /** Every complete push is popped, still stored, or overwritten, and only one of these; no push is
      popped twice, and what a pop hands out is the argument of that push. */
  lemma Conservation<L>(states: seq<State<L>>, actions: seq<Action<L>>)
    requires Run(states, actions)
    ensures var s := states[|actions|];
      && Marks(actions) == |s.landed| == Clears(actions) + |WrittenSlots(s)| + |s.lost|
      && |s.popped| == |s.output| == Clears(actions)
      && (forall t :: t in s.landed ==> t in s.popped || t in s.lost || Stands(s, t))
      && (forall i, j :: 0 <= i < j < |s.popped| ==> s.popped[i] != s.popped[j])
      && (forall i :: 0 <= i < |s.popped| ==> s.popped[i] in s.landed && s.popped[i] !in s.lost)
      && (forall i :: 0 <= i < |s.popped| ==>
            s.popped[i] < |CallLines(actions)| && s.output[i] == CallLines(actions)[s.popped[i]])
  {
    RunKeepsInv(states, actions, |actions|);
    MarksLand(states, actions, |actions|);
    HistoriesAreRun(states, actions, |actions|);
    assert actions[..|actions|] == actions;
  }

  /** The spin lock excludes: never two threads inside one slot. */
  lemma MutualExclusion<L>(states: seq<State<L>>, actions: seq<Action<L>>, i: nat, k: nat, x: Thread, y: Thread)
    requires Run(states, actions) && i < |states| && k < |states[i].slots|
    requires HeldBy(states[i], k, x) && HeldBy(states[i], k, y)
    ensures x == y
  {
    RunKeepsInv(states, actions, i);
  }

  lemma Apart(a: nat, b: nat, size: nat)
    requires a < b && size > 0
    ensures a * size + size <= b * size
  {
    assert b * size == a * size + (b - a) * size;
    assert (b - a - 1) * size >= 0;
  }

  /** Two tickets of one slot are a multiple of the ring's size apart. */
  lemma SameSlot(t: nat, u: nat, size: nat)
    requires size > 0 && SlotOf(t, size) == SlotOf(u, size)
    requires t < u + size && u < t + size
    ensures t == u
  {
    var a, b := t / size, u / size;
    assert t == a * size + SlotOf(t, size) && u == b * size + SlotOf(u, size);
    if a < b {
      Apart(a, b, size);
    } else if b < a {
      Apart(b, a, size);
    }
  }

  /** At most as many pushes have started as were popped, plus the size of the ring. */
  predicate InWindow<L>(s: State<L>) {
    s.writeIndex <= s.readIndex + |s.slots|
  }

  /** Pops so far were the first tickets in order, and everything else is still ahead. */
  ghost predicate Ordered<L>(s: State<L>)
    requires Shape(s)
  {
    && s.lost == {}
    && (forall i :: 0 <= i < |s.popped| ==> s.popped[i] == i)
    && (forall p :: 0 <= p < |s.producers| && Pending(s.producers[p]) ==> s.producers[p].ticket >= |s.popped|)
    && (forall k :: 0 <= k < |s.slots| && s.slots[k].written ==> s.slots[k].owner >= |s.popped|)
    && (s.consumer.Looking? || s.consumer.Taken? ==> s.consumer.slot == SlotOf(s.readIndex, |s.slots|))
  }

  lemma MarkKeepsOrdered<L>(s: State<L>, a: Action<L>)
    requires Inv(s) && Enabled(s, a) && InWindow(s) && Ordered(s) && a.Mark?
    ensures Ordered(Step(s, a))
  {
    var t := s.producers[a.p].ticket;
    var k := SlotOf(t, |s.slots|);
    if s.slots[k].written {
      assert false by {
        SameSlot(t, s.slots[k].owner, |s.slots|);
      }
    }
  }

  lemma ClearKeepsOrdered<L>(s: State<L>, a: Action<L>)
    requires Inv(s) && Enabled(s, a) && InWindow(s) && Ordered(s) && a.Clear?
    ensures Ordered(Step(s, a))
  {
    SameSlot(s.slots[s.consumer.slot].owner, s.readIndex, |s.slots|);
  }

  lemma ClaimKeepsOrdered<L>(s: State<L>, a: Action<L>)
    requires Inv(s) && Enabled(s, a) && Ordered(s) && a.Claim?
    ensures Ordered(Step(s, a))
  {
    if s.popped != [] {
      assert s.popped[|s.popped| - 1] in s.landed;
    }
  }

  lemma StepKeepsOrdered<L>(s: State<L>, a: Action<L>)
    requires Inv(s) && Enabled(s, a) && InWindow(s) && Ordered(s)
    ensures Ordered(Step(s, a))
  {
    if a.Claim? {
      ClaimKeepsOrdered(s, a);
    } else if a.Mark? {
      MarkKeepsOrdered(s, a);
    } else if a.Clear? {
      ClearKeepsOrdered(s, a);
    }
  }

  lemma {:induction false} WindowKeepsOrdered<L>(states: seq<State<L>>, actions: seq<Action<L>>, i: nat)
    requires Run(states, actions) && i < |states|
    requires forall j :: 0 <= j < i ==> InWindow(states[j])
    ensures Ordered(states[i])
  {
    if i > 0 {
      WindowKeepsOrdered(states, actions, i - 1);
      RunKeepsInv(states, actions, i - 1);
      StepKeepsOrdered(states[i - 1], actions[i - 1]);
      assert states[i - 1 + 1] == Step(states[i - 1], actions[i - 1]);
    }
  }

  /** While the writers never run a whole ring ahead, nothing is lost and the pops hand out the arguments of
      the calls in ticket order. */
  lemma FifoInWindow<L>(states: seq<State<L>>, actions: seq<Action<L>>)
    requires Run(states, actions)
    requires forall j :: 0 <= j < |states| ==> InWindow(states[j])
    ensures var s := states[|actions|];
      s.lost == {} && Clears(actions) <= |CallLines(actions)| && s.output == CallLines(actions)[..Clears(actions)]
  {
    WindowKeepsOrdered(states, actions, |actions|);
    Conservation(states, actions);
    var s := states[|actions|];
    if s.popped != [] {
      assert s.popped[|s.popped| - 1] < |CallLines(actions)|;
    }
  }

  /** Inside the window a pop that looks at its slot finds a line exactly when the next push in ticket order
      is complete, and otherwise can only leave. */
  lemma PopAnswer<L>(states: seq<State<L>>, actions: seq<Action<L>>)
    requires Run(states, actions) && states[|actions|].consumer.Looking?
    requires forall j :: 0 <= j < |states| ==> InWindow(states[j])
    ensures var s := states[|actions|];
      && (Enabled(s, Take) <==> s.readIndex in s.landed)
      && (Enabled(s, Leave) <==> s.readIndex !in s.landed)
  {
    WindowKeepsOrdered(states, actions, |actions|);
    RunKeepsInv(states, actions, |actions|);
    NextInSlot(states[|actions|]);
  }

  lemma NextInSlot<L>(s: State<L>)
    requires Inv(s) && InWindow(s) && Ordered(s) && s.consumer.Looking?
    ensures s.slots[s.consumer.slot].written <==> s.readIndex in s.landed
  {
    var slot := s.slots[s.consumer.slot];
    if slot.written {
      SameSlot(slot.owner, s.readIndex, |s.slots|);
    }
    if s.readIndex in s.landed {
      assert s.readIndex !in s.popped;
      assert Stands(s, s.readIndex);
    }
  }

  /** A run goes on with one more action. */
  lemma Next<L>(before: seq<State<L>>, done: seq<Action<L>>, a: Action<L>)
      returns (states: seq<State<L>>, actions: seq<Action<L>>)
    requires Run(before, done) && Enabled(before[|done|], a)
    ensures Run(states, actions) && actions == done + [a] && states[|actions|] == Step(before[|done|], a)
  {
    states, actions := before + [Step(before[|done|], a)], done + [a];
  }

  /** Nobody is inside a push or a pop: one idle producer, the consumer outside, every lock free. */
  ghost predicate Calm<L>(s: State<L>) {
    && Shape(s) && s.producers == [Idle] && s.consumer.Outside?
    && forall k :: 0 <= k < |s.slots| ==> s.slots[k].holder.None?
  }

  /** What a whole push does to a calm ring. */
  function Pushed<L>(s: State<L>, line: L): State<L>
    requires Shape(s)
  {
    var k := SlotOf(s.writeIndex, |s.slots|);
    s.(slots := s.slots[k := Slot(None, true, line, s.writeIndex)],
       writeIndex := s.writeIndex + 1,
       lines := s.lines + [line],
       landed := s.landed + {s.writeIndex},
       lost := if s.slots[k].written then s.lost + {s.slots[k].owner} else s.lost)
  }

  /** A push that runs without interruption. */
  lemma PushAlone<L>(before: seq<State<L>>, done: seq<Action<L>>, line: L)
      returns (states: seq<State<L>>, actions: seq<Action<L>>)
    requires Run(before, done) && Calm(before[|done|])
    ensures Run(states, actions) && states[|actions|] == Pushed(before[|done|], line) && Calm(states[|actions|])
  {
    var s := before[|done|];
    var k := SlotOf(s.writeIndex, |s.slots|);
    states, actions := Next(before, done, Claim(0, line));
    states, actions := Next(states, actions, Lock(0));
    states, actions := Next(states, actions, Move(0));
    states, actions := Next(states, actions, Mark(0));
    states, actions := Next(states, actions, Unlock(0));
    assert states[|actions|].slots == s.slots[k := Slot(None, true, line, s.writeIndex)];
    assert states[|actions|].producers == [Idle];
  }

  /** A pop that runs without interruption takes the line its slot stands for, and frees the slot. */
  lemma PopAlone<L>(before: seq<State<L>>, done: seq<Action<L>>) returns (states: seq<State<L>>, actions: seq<Action<L>>)
    requires Run(before, done) && Calm(before[|done|])
    requires var s := before[|done|]; s.slots[SlotOf(s.readIndex, |s.slots|)].written
    ensures Run(states, actions) && actions == done + [Look, Take, Clear, Count, Leave]
    ensures var s, t := before[|done|], states[|actions|];
      var k := SlotOf(s.readIndex, |s.slots|);
      && Calm(t) && t.readIndex == s.readIndex + 1 && t.popped == s.popped + [s.slots[k].owner]
      && |t.slots| == |s.slots| && !t.slots[k].written
  {
    var s := before[|done|];
    states, actions := Next(before, done, Look);
    states, actions := Next(states, actions, Take);
    states, actions := Next(states, actions, Clear);
    states, actions := Next(states, actions, Count);
    states, actions := Next(states, actions, Leave);
  }

  lemma FirstRound(n: nat, size: nat)
    requires size > 0
    ensures n < size ==> SlotOf(n, size) == n
    ensures SlotOf(size, size) == 0
  {
  }

  /** After n pushes and no pop, n slots are written, by tickets 0 to n - 1. */
  ghost predicate Filling<L>(s: State<L>, lines: seq<L>, size: nat) {
    && Calm(s) && |s.slots| == size && s.lines == lines
    && s.writeIndex == |lines| <= size && s.readIndex == 0 && s.lost == {}
    && forall k :: 0 <= k < size ==> (s.slots[k].written <==> k < |lines|) && (k < |lines| ==> s.slots[k].owner == k)
  }

  lemma {:induction false} FillRing<L>(lines: seq<L>, size: nat, any: L)
      returns (states: seq<State<L>>, actions: seq<Action<L>>)
    requires 0 < size && |lines| <= size
    ensures Run(states, actions) && Filling(states[|actions|], lines, size)
    decreases |lines|
  {
    var n := |lines|;
    if n == 0 {
      var empty := seq(size, i => Slot(None, false, any, 0));
      states, actions := [State(empty, 0, 0, [Idle], Outside, [], {}, {}, [], [])], [];
    } else {
      states, actions := FillRing(lines[..n - 1], size, any);
      FirstRound(n - 1, size);
      states, actions := PushAlone(states, actions, lines[n - 1]);
      assert lines == lines[..n - 1] + [lines[n - 1]];
    }
  }

  /** In a ring of any size, one push more than it has slots can overwrite a line that is never popped. */
  lemma WindowIsTight<L>(lines: seq<L>) returns (states: seq<State<L>>, actions: seq<Action<L>>)
    requires |lines| >= 2
    ensures Run(states, actions)
    ensures var s := states[|actions|];
      && |s.slots| == |lines| - 1 && s.lines == lines
      && s.writeIndex == s.readIndex + |s.slots| + 1 && s.lost == {0}
  {
    var size := |lines| - 1;
    states, actions := FillRing(lines[..size], size, lines[0]);
    FirstRound(size, size);
    states, actions := PushAlone(states, actions, lines[size]);
    assert lines == lines[..size] + [lines[size]];
  }
}
