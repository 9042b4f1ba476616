/**
 `LockFreeQueue`: one producer and one consumer share a singly linked list whose last node is always
 a dummy. Every load, store, allocation and deletion is a step of its own, the two threads take
 steps in any order, and an address may be handed out again once its node is deleted.
 */
module LinkedQueue {

  type Address = nat

  const NULL: Address := 0

  datatype Node<T> = Node(value: T, next: Address)

  /** Where `push(value)` stands. */
  datatype Producer<T> =
    | Idle
    | Allocated(value: T, node: Address)
    | Linked(value: T)
    | Filled(value: T)
    | Publishing(value: T, node: Address)

  /** Where `try_pop` stands. */
  datatype Consumer = Waiting | Nonempty | Copied(node: Address) | Advanced(node: Address)

  /** `pushed` and `popped` record the finished pushes and the values handed out; `fault` is set by
      touching memory that is not allocated, and by taking the value of the dummy. */
  datatype State<T> = State(
    heap: map<Address, Node<T>>,
    first: Address,
    last: Address,
    producer: Producer<T>,
    consumer: Consumer,
    pushed: seq<T>,
    popped: seq<T>,
    fault: bool)

  /** `blank` is what a new node holds, `moved` what a value leaves behind when it is moved out. */
  datatype Action<T> =
    | Allocate(value: T, node: Address, blank: T)
    | Link
    | Fill
    | ReadNext
    | Publish
    | Compare
    | Copy(moved: T)
    | Advance
    | Delete

  predicate Init<T(==)>(s: State<T>) {
    && s.first == s.last && s.first != NULL
    && s.heap.Keys == {s.first} && s.heap[s.first].next == NULL
    && s.producer == Idle && s.consumer == Waiting
    && s.pushed == [] && s.popped == [] && !s.fault
  }

  predicate Enabled<T>(s: State<T>, a: Action<T>) {
    match a
    case Allocate(_, node, _) => s.producer.Idle? && node != NULL && node !in s.heap
    case Link => s.producer.Allocated?
    case Fill => s.producer.Linked?
    case ReadNext => s.producer.Filled?
    case Publish => s.producer.Publishing?
    case Compare => s.consumer.Waiting?
    case Copy(_) => s.consumer.Nonempty?
    case Advance => s.consumer.Copied?
    case Delete => s.consumer.Advanced?
  }

  function ProducerStep<T>(s: State<T>, a: Action<T>): State<T>
    requires Enabled(s, a)
    requires a.Allocate? || a.Link? || a.Fill? || a.ReadNext? || a.Publish?
  {
    match a
    case Allocate(value, node, blank) =>
      s.(heap := s.heap[node := Node(blank, NULL)], producer := Allocated(value, node))
    case Link =>
      if s.last !in s.heap then s.(fault := true)
      else s.(heap := s.heap[s.last := s.heap[s.last].(next := s.producer.node)], producer := Linked(s.producer.value))
    case Fill =>
      if s.last !in s.heap then s.(fault := true)
      else s.(heap := s.heap[s.last := s.heap[s.last].(value := s.producer.value)], producer := Filled(s.producer.value))
    case ReadNext =>
      if s.last !in s.heap then s.(fault := true)
      else s.(producer := Publishing(s.producer.value, s.heap[s.last].next))
    case Publish =>
      s.(last := s.producer.node, pushed := s.pushed + [s.producer.value], producer := Idle)
  }

  function ConsumerStep<T>(s: State<T>, a: Action<T>): State<T>
    requires Enabled(s, a)
    requires a.Compare? || a.Copy? || a.Advance? || a.Delete?
  {
    match a
    case Compare => if s.first == s.last then s else s.(consumer := Nonempty)
    case Copy(moved) =>
      if s.first !in s.heap || s.first == s.last then s.(fault := true)
      else s.(popped := s.popped + [s.heap[s.first].value],
              heap := s.heap[s.first := s.heap[s.first].(value := moved)],
              consumer := Copied(s.first))
    case Advance =>
      if s.first !in s.heap then s.(fault := true)
      else s.(first := s.heap[s.first].next, consumer := Advanced(s.consumer.node))
    case Delete =>
      if s.consumer.node !in s.heap then s.(fault := true)
      else s.(heap := s.heap - {s.consumer.node}, consumer := Waiting)
  }

  function Step<T>(s: State<T>, a: Action<T>): State<T>
    requires Enabled(s, a)
  {
    if a.Compare? || a.Copy? || a.Advance? || a.Delete? then ConsumerStep(s, a) else ProducerStep(s, a)
  }

  /** A run of the two threads. */
  ghost predicate Run<T>(states: seq<State<T>>, actions: seq<Action<T>>) {
    && |states| == |actions| + 1 && Init(states[0])
    && forall i :: 0 <= i < |actions| ==> Enabled(states[i], actions[i]) && states[i + 1] == Step(states[i], actions[i])
  }

  // ---- the invariant

  /** The nodes from `first` to `last`, each pointing to the next. */
  ghost predicate Chain<T>(s: State<T>, chain: seq<Address>) {
    && |chain| > 0 && chain[0] == s.first && chain[|chain| - 1] == s.last
    && (forall i :: 0 <= i < |chain| ==> chain[i] in s.heap)
    && (forall i, j :: 0 <= i < j < |chain| ==> chain[i] != chain[j])
    && (forall i, j :: 0 <= i < j < |chain| && j == i + 1 ==> s.heap[chain[i]].next == chain[j])
  }

  /** The node that the producer has made but not yet published, if any. */
  function ProducerNode<T>(s: State<T>): set<Address>
  {
    match s.producer
    case Idle => {}
    case Allocated(_, node) => {node}
    case Publishing(_, node) => {node}
    case _ => if s.last in s.heap then {s.heap[s.last].next} else {}
  }

  /** The node that the consumer has passed but not yet deleted, if any. */
  function ConsumerNode<T>(s: State<T>): set<Address> {
    if s.consumer.Advanced? then {s.consumer.node} else {}
  }

  /** What is allocated: the chain and those two nodes, nothing else, and never one node twice. */
  ghost predicate Owned<T>(s: State<T>, chain: seq<Address>) {
    && (forall a :: a in s.heap <==> a in chain || a in ProducerNode(s) || a in ConsumerNode(s))
    && (forall a :: a in ProducerNode(s) ==> a !in chain && a !in ConsumerNode(s))
    && (forall a :: a in ConsumerNode(s) ==> a !in chain)
  }

  /** One node of the chain is spent while its value is copied but `first` still points to it. */
  function Spent<T>(s: State<T>): nat {
    if s.consumer.Copied? then 1 else 0
  }

  ghost predicate Contents<T>(s: State<T>, chain: seq<Address>)
    requires Chain(s, chain)
  {
    && |s.popped| + |chain| - 1 - Spent(s) == |s.pushed|
    && s.popped <= s.pushed
    && (forall i :: Spent(s) <= i < |chain| - 1 ==>
          s.heap[chain[i]].value == s.pushed[|s.popped| - Spent(s) + i])
  }

  ghost predicate Threads<T>(s: State<T>, chain: seq<Address>)
    requires Chain(s, chain)
  {
    && (s.producer.Filled? || s.producer.Publishing? ==> s.heap[s.last].value == s.producer.value)
    && (s.producer.Publishing? ==> s.heap[s.last].next == s.producer.node)
    && (s.consumer.Nonempty? || s.consumer.Copied? ==> |chain| > 1)
    && (s.consumer.Copied? ==> s.consumer.node == s.first)
  }

  ghost predicate Inv<T>(s: State<T>, chain: seq<Address>) {
    && !s.fault
    && Chain(s, chain) && Owned(s, chain) && Contents(s, chain) && Threads(s, chain)
  }

  function NextChain<T>(s: State<T>, a: Action<T>, chain: seq<Address>): seq<Address>
    requires Enabled(s, a) && |chain| > 0
  {
    match a
    case Publish => chain + [s.producer.node]
    case Advance => chain[1..]
    case _ => chain
  }

  lemma AllocateKeeps<T>(s: State<T>, a: Action<T>, chain: seq<Address>)
    requires Inv(s, chain) && Enabled(s, a) && a.Allocate?
    ensures Inv(Step(s, a), chain)
  {
  }

  lemma LinkKeeps<T>(s: State<T>, a: Action<T>, chain: seq<Address>)
    requires Inv(s, chain) && Enabled(s, a) && a.Link?
    ensures Inv(Step(s, a), chain)
  {
  }

  lemma FillKeeps<T>(s: State<T>, a: Action<T>, chain: seq<Address>)
    requires Inv(s, chain) && Enabled(s, a) && a.Fill?
    ensures Inv(Step(s, a), chain)
  {
  }

  lemma ReadNextKeeps<T>(s: State<T>, a: Action<T>, chain: seq<Address>)
    requires Inv(s, chain) && Enabled(s, a) && a.ReadNext?
    ensures Inv(Step(s, a), chain)
  {
  }

  lemma PublishKeepsChain<T>(s: State<T>, a: Action<T>, chain: seq<Address>)
    requires Inv(s, chain) && Enabled(s, a) && a.Publish?
    ensures Chain(Step(s, a), chain + [s.producer.node]) && Threads(Step(s, a), chain + [s.producer.node])
  {
    assert s.producer.node in ProducerNode(s) && chain[|chain| - 1] == s.last;
  }

  lemma PublishKeepsOwned<T>(s: State<T>, a: Action<T>, chain: seq<Address>)
    requires Owned(s, chain) && Enabled(s, a) && a.Publish?
    ensures Owned(Step(s, a), chain + [s.producer.node])
  {
    assert forall x :: x in chain + [s.producer.node] <==> x in chain || x == s.producer.node;
  }

  lemma PublishKeepsContents<T>(s: State<T>, a: Action<T>, chain: seq<Address>)
    requires Inv(s, chain) && Enabled(s, a) && a.Publish?
    requires Chain(Step(s, a), chain + [s.producer.node])
    ensures Contents(Step(s, a), chain + [s.producer.node])
  {
    var longer := chain + [s.producer.node];
    assert forall i :: 0 <= i < |chain| ==> longer[i] == chain[i];
  }

  lemma PublishKeeps<T>(s: State<T>, a: Action<T>, chain: seq<Address>)
    requires Inv(s, chain) && Enabled(s, a) && a.Publish?
    ensures Inv(Step(s, a), chain + [s.producer.node])
  {
    PublishKeepsChain(s, a, chain);
    PublishKeepsOwned(s, a, chain);
    PublishKeepsContents(s, a, chain);
  }

  lemma CompareKeeps<T>(s: State<T>, a: Action<T>, chain: seq<Address>)
    requires Inv(s, chain) && Enabled(s, a) && a.Compare?
    ensures Inv(Step(s, a), chain)
  {
  }

  lemma CopyKeeps<T>(s: State<T>, a: Action<T>, chain: seq<Address>)
    requires Inv(s, chain) && Enabled(s, a) && a.Copy?
    ensures Inv(Step(s, a), chain)
  {
  }

  lemma AdvanceKeepsChain<T>(s: State<T>, a: Action<T>, chain: seq<Address>)
    requires Inv(s, chain) && Enabled(s, a) && a.Advance?
    ensures Chain(Step(s, a), chain[1..]) && Threads(Step(s, a), chain[1..])
  {
  }

  lemma AdvanceKeepsOwned<T>(s: State<T>, a: Action<T>, chain: seq<Address>)
    requires Chain(s, chain) && Owned(s, chain) && Enabled(s, a) && a.Advance?
    requires s.consumer.node == s.first
    ensures Owned(Step(s, a), chain[1..])
  {
    assert forall x :: x in chain <==> x in chain[1..] || x == s.first by {
      assert chain == [s.first] + chain[1..];
    }
  }

  lemma AdvanceKeepsContents<T>(s: State<T>, a: Action<T>, chain: seq<Address>)
    requires Inv(s, chain) && Enabled(s, a) && a.Advance?
    requires Chain(Step(s, a), chain[1..])
    ensures Contents(Step(s, a), chain[1..])
  {
    assert forall i :: 0 <= i < |chain| - 1 ==> chain[1..][i] == chain[i + 1];
  }

  lemma AdvanceKeeps<T>(s: State<T>, a: Action<T>, chain: seq<Address>)
    requires Inv(s, chain) && Enabled(s, a) && a.Advance?
    ensures Inv(Step(s, a), chain[1..])
  {
    AdvanceKeepsChain(s, a, chain);
    AdvanceKeepsOwned(s, a, chain);
    AdvanceKeepsContents(s, a, chain);
  }

  lemma DeleteKeeps<T>(s: State<T>, a: Action<T>, chain: seq<Address>)
    requires Inv(s, chain) && Enabled(s, a) && a.Delete?
    ensures Inv(Step(s, a), chain)
  {
  }

  lemma StepKeepsInv<T>(s: State<T>, a: Action<T>, chain: seq<Address>)
    requires Inv(s, chain) && Enabled(s, a)
    ensures Inv(Step(s, a), NextChain(s, a, chain))
  {
    match a
    case Allocate(_, _, _) => AllocateKeeps(s, a, chain);
    case Link => LinkKeeps(s, a, chain);
    case Fill => FillKeeps(s, a, chain);
    case ReadNext => ReadNextKeeps(s, a, chain);
    case Publish => PublishKeeps(s, a, chain);
    case Compare => CompareKeeps(s, a, chain);
    case Copy(_) => CopyKeeps(s, a, chain);
    case Advance => AdvanceKeeps(s, a, chain);
    case Delete => DeleteKeeps(s, a, chain);
  }

  lemma {:induction false} RunKeepsInv<T>(states: seq<State<T>>, actions: seq<Action<T>>) returns (chain: seq<Address>)
    requires Run(states, actions)
    ensures Inv(states[|actions|], chain)
    decreases |actions|
  {
    var n := |actions|;
    if n == 0 {
      chain := [states[0].first];
    } else {
      assert states[n - 1 + 1] == Step(states[n - 1], actions[n - 1]);
      var before := RunKeepsInv(states[..n], actions[..n - 1]);
      StepKeepsInv(states[n - 1], actions[n - 1], before);
      chain := NextChain(states[n - 1], actions[n - 1], before);
    }
  }

  // ---- what every run guarantees

  /** The values found by following the pointers up to the dummy. */
  function Walk<T>(heap: map<Address, Node<T>>, from: Address, last: Address): seq<T>
    decreases |heap|
  {
    if from == last || from !in heap then []
    else [heap[from].value] + Walk(heap - {from}, heap[from].next, last)
  }

  /** What is in the queue: the values behind the one that is being taken out. */
  function Stored<T>(s: State<T>): seq<T> {
    if s.consumer.Copied? && s.first in s.heap
    then Walk(s.heap - {s.first}, s.heap[s.first].next, s.last)
    else Walk(s.heap, s.first, s.last)
  }

  /** The part of the heap that a walk along the rest of the chain needs. */
  ghost predicate Connected<T>(heap: map<Address, Node<T>>, chain: seq<Address>) {
    && |chain| > 0
    && (forall i :: 0 <= i < |chain| ==> chain[i] in heap)
    && (forall i, j :: 0 <= i < j < |chain| ==> chain[i] != chain[j])
    && (forall i, j :: 0 <= i < j < |chain| && j == i + 1 ==> heap[chain[i]].next == chain[j])
  }

  lemma {:induction false} WalkChain<T>(heap: map<Address, Node<T>>, chain: seq<Address>, values: seq<T>)
    requires Connected(heap, chain) && |values| == |chain| - 1
    requires forall i :: 0 <= i < |values| ==> heap[chain[i]].value == values[i]
    ensures Walk(heap, chain[0], chain[|chain| - 1]) == values
    decreases |chain|
  {
    if |chain| > 1 {
      WalkChain(heap - {chain[0]}, chain[1..], values[1..]);
      assert values == [values[0]] + values[1..];
    }
  }

  lemma StoredIsRest<T>(s: State<T>, chain: seq<Address>, rest: seq<T>)
    requires Chain(s, chain)
    requires s.consumer.Copied? ==> |chain| > 1
    requires |rest| == |chain| - 1 - Spent(s)
    requires forall i :: 0 <= i < |rest| ==> s.heap[chain[Spent(s) + i]].value == rest[i]
    ensures Stored(s) == rest
  {
    if s.consumer.Copied? {
      assert Connected(s.heap - {s.first}, chain[1..]);
      WalkChain(s.heap - {s.first}, chain[1..], rest);
    } else {
      WalkChain(s.heap, chain, rest);
    }
  }

  lemma RestOfPushed<T>(s: State<T>, chain: seq<Address>) returns (rest: seq<T>)
    requires Chain(s, chain) && Contents(s, chain)
    ensures |rest| == |chain| - 1 - Spent(s) && s.popped + rest == s.pushed
    ensures forall i :: 0 <= i < |rest| ==> s.heap[chain[Spent(s) + i]].value == rest[i]
  {
    rest := s.pushed[|s.popped|..];
  }

  lemma StoredIsContents<T>(s: State<T>, chain: seq<Address>)
    requires Inv(s, chain)
    ensures s.popped + Stored(s) == s.pushed
  {
    var rest := RestOfPushed(s, chain);
    StoredIsRest(s, chain, rest);
  }

  // ---- what was pushed, read off the run

  /** The arguments of the calls of `push`, in order. */
  function Started<T>(actions: seq<Action<T>>): seq<T> {
    var n := |actions|;
    if n == 0 then []
    else Started(actions[..n - 1]) + if actions[n - 1].Allocate? then [actions[n - 1].value] else []
  }

  /** How many calls of `push` have stored `last`. */
  function Published<T>(actions: seq<Action<T>>): nat {
    var n := |actions|;
    if n == 0 then 0 else Published(actions[..n - 1]) + if actions[n - 1].Publish? then 1 else 0
  }

  /** The call that has started and not stored `last` yet, if any. */
  function InProgress<T>(s: State<T>): seq<T> {
    if s.producer.Idle? then [] else [s.producer.value]
  }

  lemma StepStarts<T>(s: State<T>, a: Action<T>)
    requires Enabled(s, a) && !Step(s, a).fault
    ensures var t := Step(s, a);
      && t.pushed + InProgress(t) == s.pushed + InProgress(s) + (if a.Allocate? then [a.value] else [])
      && |t.pushed| == |s.pushed| + if a.Publish? then 1 else 0
  {
  }

  lemma RunPrefix<T>(states: seq<State<T>>, actions: seq<Action<T>>, i: nat)
    requires Run(states, actions) && i <= |actions|
    ensures Run(states[..i + 1], actions[..i]) && states[..i + 1][i] == states[i]
  {
  }

  lemma InvAt<T>(states: seq<State<T>>, actions: seq<Action<T>>, i: nat) returns (chain: seq<Address>)
    requires Run(states, actions) && i <= |actions|
    ensures Inv(states[i], chain)
  {
    RunPrefix(states, actions, i);
    chain := RunKeepsInv(states[..i + 1], actions[..i]);
  }

  /** The finished pushes are the first calls, the last call started being the one in progress. */
  lemma {:induction false} PushedIsRun<T>(states: seq<State<T>>, actions: seq<Action<T>>, i: nat)
    requires Run(states, actions) && i <= |actions|
    ensures states[i].pushed + InProgress(states[i]) == Started(actions[..i])
    ensures |states[i].pushed| == Published(actions[..i])
  {
    if i > 0 {
      PushedIsRun(states, actions, i - 1);
      var chain := InvAt(states, actions, i);
      assert states[i - 1 + 1] == Step(states[i - 1], actions[i - 1]);
      StepStarts(states[i - 1], actions[i - 1]);
      assert actions[..i][..i - 1] == actions[..i - 1];
    }
  }

  /** In every interleaving the queue is first-in first-out: the values popped, then the values in the
      list, are the arguments of the finished pushes in order. No step touches a deleted node or the
      dummy's value. */
  lemma Fifo<T>(states: seq<State<T>>, actions: seq<Action<T>>)
    requires Run(states, actions)
    ensures var s := states[|actions|];
      && !s.fault && s.popped + Stored(s) == s.pushed
      && Published(actions) <= |Started(actions)| && s.pushed == Started(actions)[..Published(actions)]
      && |Started(actions)| == Published(actions) + if s.producer.Idle? then 0 else 1
  {
    var chain := RunKeepsInv(states, actions);
    StoredIsContents(states[|actions|], chain);
    PushedIsRun(states, actions, |actions|);
    assert actions[..|actions|] == actions;
  }

  // ---- what `try_pop` answers

  /** `try_pop` goes on to take a value exactly when some finished push has not been popped, and
      answers "empty" otherwise, changing nothing. */
  lemma CompareAnswer<T>(states: seq<State<T>>, actions: seq<Action<T>>)
    requires Run(states, actions) && states[|actions|].consumer.Waiting?
    ensures var s := states[|actions|];
      var t := Step(s, Compare);
      && (t.consumer.Nonempty? <==> s.popped != s.pushed)
      && t == s.(consumer := if s.popped != s.pushed then Nonempty else Waiting)
  {
    EmptyAnswer(states, actions);
  }

  /** `first` and `last` meet exactly when every finished push has been popped. */
  lemma EmptyAnswer<T>(states: seq<State<T>>, actions: seq<Action<T>>)
    requires Run(states, actions) && states[|actions|].consumer.Waiting?
    ensures var s := states[|actions|]; s.first == s.last <==> s.popped == s.pushed
  {
    var chain := RunKeepsInv(states, actions);
    var s := states[|actions|];
    assert s.first == s.last <==> |chain| == 1;
  }

  /** What a call has popped when it stands here. */
  function Popping(k: Consumer): nat {
    if k.Copied? || k.Advanced? then 1 else 0
  }

  /** The state s is reached from `start`, where the call has popped nothing yet, before the next call compares. */
  ghost predicate During<T>(start: State<T>, s: State<T>) {
    && start.popped <= s.popped && start.pushed <= s.pushed
    && |s.popped| == |start.popped| + if s.consumer.Waiting? then 1 else Popping(s.consumer)
  }

  lemma StepPops<T>(start: State<T>, s: State<T>, a: Action<T>)
    requires Enabled(s, a) && !Step(s, a).fault && !s.consumer.Waiting? && During(start, s)
    ensures During(start, Step(s, a))
  {
    assert s.popped <= Step(s, a).popped && s.pushed <= Step(s, a).pushed;
  }

  /** Every step of a run is possible and not faulty. */
  lemma StepAt<T>(states: seq<State<T>>, actions: seq<Action<T>>, i: nat)
    requires Run(states, actions) && i < |actions|
    ensures Enabled(states[i], actions[i]) && states[i + 1] == Step(states[i], actions[i]) && !states[i + 1].fault
  {
    var chain := InvAt(states, actions, i + 1);
  }

  lemma {:induction false} DuringCall<T>(states: seq<State<T>>, actions: seq<Action<T>>, i: nat, j: nat)
    requires Run(states, actions) && i < j <= |actions| && states[i + 1].consumer.Nonempty?
    requires forall k :: i < k < j ==> !states[k].consumer.Waiting?
    ensures During(states[i + 1], states[j])
    decreases j
  {
    if j > i + 1 {
      DuringCall(states, actions, i, j - 1);
      StepAt(states, actions, j - 1);
      StepPops(states[i + 1], states[j - 1], actions[j - 1]);
    }
  }

  /** A call of `try_pop` that finds the queue not empty ends with one value more, the oldest not popped. */
  lemma PopCall<T>(states: seq<State<T>>, actions: seq<Action<T>>, i: nat, j: nat)
    requires Run(states, actions) && i < j <= |actions|
    requires states[i].consumer.Waiting? && actions[i].Compare? && states[i].popped != states[i].pushed
    requires states[j].consumer.Waiting? && forall k :: i < k < j ==> !states[k].consumer.Waiting?
    ensures |states[i].popped| < |states[i].pushed|
    ensures states[j].popped == states[i].popped + [states[i].pushed[|states[i].popped|]]
  {
    RunPrefix(states, actions, i);
    CompareAnswer(states[..i + 1], actions[..i]);
    assert states[i + 1] == Step(states[i], actions[i]);
    DuringCall(states, actions, i, j);
    var before := InvAt(states, actions, i);
    var chain := InvAt(states, actions, j);
    var n := |states[i].popped|;
    assert states[j].popped[n] == states[j].pushed[n] == states[i].pushed[n];
  }

  // ---- calls that run alone come to their end

  /** One more step; none is ever faulty. */
  lemma RunSnoc<T>(states: seq<State<T>>, actions: seq<Action<T>>, a: Action<T>)
      returns (longer: seq<State<T>>, done: seq<Action<T>>)
    requires Run(states, actions) && Enabled(states[|actions|], a)
    ensures Run(longer, done) && done == actions + [a] && states <= longer
    ensures longer[|done|] == Step(states[|actions|], a) && !longer[|done|].fault
  {
    longer, done := states + [Step(states[|actions|], a)], actions + [a];
    var chain := RunKeepsInv(longer, done);
  }

  /** From every reachable state a `push` of any value, run alone, ends with that value pushed. */
  lemma PushAlone<T>(before: seq<State<T>>, done: seq<Action<T>>, value: T, node: Address, blank: T)
      returns (states: seq<State<T>>, actions: seq<Action<T>>)
    requires Run(before, done) && before[|done|].producer.Idle? && node != NULL && node !in before[|done|].heap
    ensures Run(states, actions) && actions == done + [Allocate(value, node, blank), Link, Fill, ReadNext, Publish]
    ensures var s, t := before[|done|], states[|actions|];
      t.pushed == s.pushed + [value] && t.producer.Idle? && t.popped == s.popped && t.consumer == s.consumer
  {
    states, actions := RunSnoc(before, done, Allocate(value, node, blank));
    states, actions := RunSnoc(states, actions, Link);
    states, actions := RunSnoc(states, actions, Fill);
    states, actions := RunSnoc(states, actions, ReadNext);
    states, actions := RunSnoc(states, actions, Publish);
  }

  /** From every reachable state in which something is left, a `try_pop` run alone ends with the oldest value. */
  lemma PopAlone<T>(before: seq<State<T>>, done: seq<Action<T>>, moved: T)
      returns (states: seq<State<T>>, actions: seq<Action<T>>)
    requires Run(before, done) && before[|done|].consumer.Waiting? && before[|done|].popped != before[|done|].pushed
    ensures Run(states, actions) && actions == done + [Compare, Copy(moved), Advance, Delete]
    ensures var s, t := before[|done|], states[|actions|];
      && |s.popped| < |s.pushed| && t.consumer.Waiting?
      && t.popped == s.popped + [s.pushed[|s.popped|]] && t.pushed == s.pushed
  {
    var n := |done|;
    CompareAnswer(before, done);
    var s1, a1 := RunSnoc(before, done, Compare);
    var s2, a2 := RunSnoc(s1, a1, Copy(moved));
    var s3, a3 := RunSnoc(s2, a2, Advance);
    states, actions := RunSnoc(s3, a3, Delete);
    assert states[n + 1] == s1[n + 1] && states[n + 2] == s2[n + 2] && states[n + 3] == s3[n + 3];
    PopCall(states, actions, n, n + 4);
  }

  /** A list without repetitions has as many members as places. */
  lemma {:induction false} DistinctSize<T>(chain: seq<T>, members: set<T>)
    requires forall i, j :: 0 <= i < j < |chain| ==> chain[i] != chain[j]
    requires forall a :: a in members <==> a in chain
    ensures |members| == |chain|
  {
    if chain == [] {
      assert members == {};
    } else {
      assert chain == [chain[0]] + chain[1..];
      assert chain[0] !in chain[1..];
      DistinctSize(chain[1..], members - {chain[0]});
    }
  }

  /** Nothing leaks: between calls the heap holds one node for each value in the queue, and the dummy. */
  lemma NothingLeaks<T>(states: seq<State<T>>, actions: seq<Action<T>>)
    requires Run(states, actions)
    requires states[|actions|].producer.Idle? && states[|actions|].consumer.Waiting?
    ensures var s := states[|actions|]; |s.heap| == |s.pushed| - |s.popped| + 1
  {
    var chain := RunKeepsInv(states, actions);
    var s := states[|actions|];
    DistinctSize(chain, s.heap.Keys);
  }
}
