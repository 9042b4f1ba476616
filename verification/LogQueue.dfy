/**
 The guaranteed log queue of NanoLog (`QueueBuffer` over a chain of `Buffer`s): any number of
 producers and one consumer, as a state machine whose actions are the single shared-memory
 accesses of the C++ code, interleaved in any order.

 Buffers are numbered in the order they are created and are never reclaimed. The fields named
 "history" are not in the C++ objects; no action reads them to decide anything.
 */
module LogQueue {
  import opened Wrappers

  type Producer = nat
  type Line = string

  /** The buffer size, 32768 in the source, and the threads that push. */
  datatype Config = Config(size: nat, producers: set<Producer>)

  datatype Ticket = Ticket(producer: Producer, line: Line)

  datatype Slot = Slot(item: Option<Line>, ready: bool)

  datatype Buffer = Buffer(
    slots: seq<Slot>,
    count: nat,            // m_write_state[size]
    counted: set<nat>)     // history: the slots whose producer has counted itself

  /** The access a producer makes next. All but `Idle` are inside `push`. */
  datatype Pc =
    | Idle
    | LoadBuffer    // holds a ticket, loads m_current_write_buffer
    | StoreItem     // constructs the item in its slot
    | SetReady      // sets the slot's write state
    | CountUp       // adds one to the buffer's count
    | Spin          // drew an index past the end, rereads m_write_index
    | Redraw        // saw the index drop, draws again
    | NewBuffer     // counted last, creates a buffer and publishes it to the producers
    | TakeLock
    | Enqueue       // hands the buffer to the consumer, under the lock
    | ResetIndex    // under the lock
    | ReleaseLock

  /** A producer's local variables. */
  datatype Local = Local(pc: Pc, line: Line, index: nat, buffer: nat)

  /** The access the consumer makes next inside `try_pop`. */
  datatype ConsumerPc =
    | Start
    | LockFront | ReadFront | UnlockFront           // get_next_read_buffer
    | Check | Move | Advance
    | LockPop | Dequeue | UnlockPop                 // m_buffers.pop() under the lock

  datatype Holder = Nobody | ByProducer(p: Producer) | ByConsumer

  datatype State = State(
    writeIndex: nat,
    current: nat,                       // m_current_write_buffer
    buffers: seq<Buffer>,               // every buffer created so far
    queue: seq<nat>,                    // m_buffers
    lock: Holder,                       // m_flag
    locals: map<Producer, Local>,
    readBuffer: Option<nat>,            // m_current_read_buffer
    readIndex: nat,
    consumer: ConsumerPc,
    popped: seq<Line>,                  // history: lines handed out by try_pop
    pushed: map<Producer, seq<Line>>,   // history: lines each producer has started to push
    deals: seq<seq<Ticket>>,            // history: for each buffer, who drew slot 0, 1, ...
    epoch: nat,                         // history: the buffer m_write_index is dealing slots of
    switcher: Option<Producer>,         // history: the producer between its last count and the reset
    dequeued: nat)                      // history: how many buffers left m_buffers

  /** `push` is called, a thread inside `push` makes its next access, or the consumer its next one. */
  datatype Action = Push(p: Producer, line: Line) | Produce(p: Producer) | Consume

  function EmptyBuffer(size: nat): Buffer {
    Buffer(seq(size, i => Slot(None, false)), 0, {})
  }

  function Init(c: Config): State {
    State(0, 0, [EmptyBuffer(c.size)], [0], Nobody, map p | p in c.producers :: Local(Idle, "", 0, 0),
          None, 0, Start, [], map p | p in c.producers :: [], [[]], 0, None, 0)
  }

  /** What the types of the C++ objects guarantee. */
  ghost predicate Shape(c: Config, s: State) {
    && s.locals.Keys == s.pushed.Keys == c.producers
    && s.epoch < |s.deals|
    && s.current < |s.buffers|
    && s.readIndex < c.size
    && (s.readBuffer.Some? ==> s.readBuffer.value < |s.buffers|)
    && (Reading(s.consumer) ==> s.readBuffer.Some?)
    && (forall e :: 0 <= e < |s.buffers| ==> |s.buffers[e].slots| == c.size)
    && (forall p :: p in c.producers ==> s.locals[p].index < c.size && s.locals[p].buffer < |s.buffers|)
    && (forall i :: 0 <= i < |s.queue| ==> s.queue[i] < |s.buffers|)
  }

  predicate Reading(k: ConsumerPc) {
    k.Check? || k.Move? || k.Advance?
  }

  ghost predicate Enabled(c: Config, s: State, a: Action)
    requires Shape(c, s)
  {
    match a
    case Push(p, _) => p in c.producers && s.locals[p].pc.Idle?
    case Produce(p) =>
      p in c.producers && !s.locals[p].pc.Idle? && (s.locals[p].pc.TakeLock? ==> s.lock.Nobody?)
    case Consume =>
      && (s.consumer.LockFront? || s.consumer.LockPop? ==> s.lock.Nobody?)
      && (s.consumer.Dequeue? ==> s.queue != [])
  }

  /** `m_write_index.fetch_add(1)` and the test on what it returned. */
  function Draw(c: Config, s: State, p: Producer, line: Line): State
    requires Shape(c, s) && p in c.producers
  {
    var i := s.writeIndex;
    if i < c.size then
      s.(writeIndex := i + 1,
         locals := s.locals[p := s.locals[p].(pc := LoadBuffer, line := line, index := i)],
         deals := s.deals[s.epoch := s.deals[s.epoch] + [Ticket(p, line)]])
    else
      s.(writeIndex := i + 1, locals := s.locals[p := s.locals[p].(pc := Spin, line := line)])
  }

  function BeginPush(c: Config, s: State, p: Producer, line: Line): State
    requires Shape(c, s) && p in c.producers
  {
    Draw(c, s.(pushed := s.pushed[p := s.pushed[p] + [line]]), p, line)
  }

  function UpdateSlot(s: State, b: nat, i: nat, slot: Slot): seq<Buffer>
    requires b < |s.buffers| && i < |s.buffers[b].slots|
  {
    s.buffers[b := s.buffers[b].(slots := s.buffers[b].slots[i := slot])]
  }

  function GoTo(s: State, p: Producer, pc: Pc): map<Producer, Local>
    requires p in s.locals
  {
    s.locals[p := s.locals[p].(pc := pc)]
  }

  function ProduceStep(c: Config, s: State, p: Producer): State
    requires Shape(c, s) && p in c.producers
  {
    var Local(pc, line, i, b) := s.locals[p];
    match pc
    case Idle => s
    case LoadBuffer => s.(locals := s.locals[p := Local(StoreItem, line, i, s.current)])
    case StoreItem =>
      s.(buffers := UpdateSlot(s, b, i, s.buffers[b].slots[i].(item := Some(line))), locals := GoTo(s, p, SetReady))
    case SetReady =>
      s.(buffers := UpdateSlot(s, b, i, s.buffers[b].slots[i].(ready := true)), locals := GoTo(s, p, CountUp))
    case CountUp =>
      var buf := s.buffers[b];
      var last := buf.count + 1 == c.size;
      s.(buffers := s.buffers[b := buf.(count := buf.count + 1, counted := buf.counted + {i})],
         locals := GoTo(s, p, if last then NewBuffer else Idle),
         switcher := if last then Some(p) else s.switcher)
    case Spin => if s.writeIndex < c.size then s.(locals := GoTo(s, p, Redraw)) else s
    case Redraw => Draw(c, s, p, line)
    case NewBuffer =>
      s.(buffers := s.buffers + [EmptyBuffer(c.size)],
         deals := s.deals + [[]],
         current := |s.buffers|,
         locals := s.locals[p := Local(TakeLock, line, i, |s.buffers|)])
    case TakeLock => s.(lock := ByProducer(p), locals := GoTo(s, p, Enqueue))
    case Enqueue => s.(queue := s.queue + [b], locals := GoTo(s, p, ResetIndex))
    case ResetIndex => s.(writeIndex := 0, locals := GoTo(s, p, ReleaseLock), switcher := None, epoch := s.current)
    case ReleaseLock => s.(lock := Nobody, locals := GoTo(s, p, Idle))
  }

  function ConsumeStep(c: Config, s: State): State
    requires Shape(c, s) && (s.consumer.Dequeue? ==> s.queue != [])
  {
    match s.consumer
    case Start => s.(consumer := if s.readBuffer.None? then LockFront else Check)
    case LockFront => s.(lock := ByConsumer, consumer := ReadFront)
    case ReadFront =>
      s.(readBuffer := if s.queue == [] then None else Some(s.queue[0]), consumer := UnlockFront)
    case UnlockFront => s.(lock := Nobody, consumer := if s.readBuffer.None? then Start else Check)
    case Check =>
      s.(consumer := if s.buffers[s.readBuffer.value].slots[s.readIndex].ready then Move else Start)
    case Move =>
      var slot := s.buffers[s.readBuffer.value].slots[s.readIndex];
      s.(popped := s.popped + [if slot.item.Some? then slot.item.value else ""],
         buffers := UpdateSlot(s, s.readBuffer.value, s.readIndex, slot.(item := None)),
         consumer := Advance)
    case Advance =>
      if s.readIndex + 1 == c.size then s.(readIndex := 0, readBuffer := None, consumer := LockPop)
      else s.(readIndex := s.readIndex + 1, consumer := Start)
    case LockPop => s.(lock := ByConsumer, consumer := Dequeue)
    case Dequeue => s.(queue := s.queue[1..], dequeued := s.dequeued + 1, consumer := UnlockPop)
    case UnlockPop => s.(lock := Nobody, consumer := Start)
  }

  function Step(c: Config, s: State, a: Action): State
    requires Shape(c, s) && Enabled(c, s, a)
  {
    match a
    case Push(p, line) => BeginPush(c, s, p, line)
    case Produce(p) => ProduceStep(c, s, p)
    case Consume => ConsumeStep(c, s)
  }

  /** The state after a run of actions, or None when one of them was not possible where it came. */
  ghost function Exec(c: Config, s: State, run: seq<Action>): Option<State> {
    if run == [] then Some(s)
    else
      var before := Exec(c, s, run[..|run| - 1]);
      var a := run[|run| - 1];
      if before.Some? && Shape(c, before.value) && Enabled(c, before.value, a)
      then Some(Step(c, before.value, a))
      else None
  }
}
