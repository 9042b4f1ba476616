/**
 `SlidingWindowThrottling`: keeps only the last `msgLimit` admission times, in a circular array, and
 polls the clock until the oldest of them is far enough in the past.
 */
module Throttle {
  import opened SlidingWindow

  /** An index that has just run off the end starts again at the front. */
  function Wrapped(index: nat, size: nat): (r: nat)
    requires size > 0
    ensures index == size ==> r == 0
  {
    index % size
  }

  class CircularArray<T(0)> {
    const maxSize: nat
    const ptr: array<T>
    var frontIndex: nat
    var writeIndex: nat
    var fullOnce: bool
    /** Everything stored so far. */
    ghost var log: seq<T>

    ghost predicate Valid()
      reads this, ptr
    {
      && maxSize > 0 && ptr.Length == maxSize
      && frontIndex < maxSize && writeIndex < maxSize
      && (fullOnce <==> maxSize <= |log|)
      && (!fullOnce ==> frontIndex == 0 && writeIndex == |log|)
      && (fullOnce ==> frontIndex == writeIndex)
      && (forall i :: 0 <= i < writeIndex ==> ptr[i] == log[|log| - writeIndex + i])
      && (fullOnce ==> forall i :: writeIndex <= i < maxSize ==> ptr[i] == log[|log| - writeIndex - maxSize + i])
    }

    constructor (size: nat)
      requires size > 0
      ensures Valid() && fresh(ptr) && maxSize == size && log == []
    {
      maxSize := size;
      ptr := new T[size];
      frontIndex, writeIndex, fullOnce, log := 0, 0, false, [];
    }

    function Full(): (full: bool)
      requires Valid()
      reads this, ptr
      ensures full <==> maxSize <= |log|
    {
      fullOnce
    }

    /** Once full, the value stored `maxSize` places back. */
    function Front(): (front: T)
      requires Valid()
      reads this, ptr
      ensures Full() ==> front == log[|log| - maxSize]
    {
      ptr[frontIndex]
    }

    method MoveFront()
      requires frontIndex < maxSize
      modifies this`frontIndex
      ensures frontIndex == if old(frontIndex) + 1 == maxSize then 0 else old(frontIndex) + 1
    {
      frontIndex := frontIndex + 1;
      if frontIndex >= maxSize {
        frontIndex := Wrapped(frontIndex, maxSize);
      }
    }

    method Store(val: T)
      requires Valid()
      modifies this, ptr
      ensures Valid() && log == old(log) + [val]
    {
      if fullOnce {
        MoveFront();
      }
      ptr[writeIndex] := val;
      writeIndex := writeIndex + 1;
      if writeIndex >= maxSize {
        fullOnce := true;
        writeIndex := Wrapped(writeIndex, maxSize);
      }
      ghost var was := log;
      log := log + [val];
      assert log[|was|] == val && forall i :: 0 <= i < |was| ==> log[i] == was[i];
    }
  }

  /** The system clock: an unknown sequence of readings, handed out one after the other. */
  class Clock {
    const reading: nat -> int
    var next: nat

    constructor (reading: nat -> int)
      ensures this.reading == reading && next == 0
    {
      this.reading := reading;
      next := 0;
    }

    method Now() returns (t: int)
      modifies this`next
      ensures t == reading(old(next)) && next == old(next) + 1
    {
      t := reading(next);
      next := next + 1;
    }
  }

  ghost predicate Monotone(reading: nat -> int) {
    forall i: nat, j: nat :: i <= j ==> reading(i) <= reading(j)
  }

  ghost predicate GetsPast(reading: nat -> int, t: real) {
    exists i: nat :: reading(i) as real > t
  }

  ghost predicate Unbounded(reading: nat -> int) {
    forall t: real :: GetsPast(reading, t)
  }

  ghost predicate Strict(reading: nat -> int) {
    forall i: nat :: reading(i) < reading(i + 1)
  }

  lemma {:induction false} Advance(reading: nat -> int, i: nat, n: nat)
    requires Strict(reading)
    ensures reading(i) + n <= reading(i + n)
  {
    if n > 0 {
      Advance(reading, i, n - 1);
      assert reading(i + n - 1) < reading(i + n - 1 + 1);
    }
  }

  /** A clock that advances with every reading gets past any time. */
  lemma StrictClock(reading: nat -> int)
    requires Strict(reading)
    ensures Monotone(reading) && Unbounded(reading)
  {
    forall i: nat, j: nat | i <= j
      ensures reading(i) <= reading(j)
    {
      Advance(reading, i, j - i);
    }
    forall t: real
      ensures GetsPast(reading, t)
    {
      var n: int := t.Floor + 1 - reading(0);
      if n >= 0 {
        Advance(reading, 0, n);
        assert reading(n) as real > t;
      } else {
        assert reading(0) as real > t;
      }
    }
  }

  /** The readings at which a call that starts at `k` checks the limit: after the first refusal it prints,
      with a reading of its own. */
  predicate Checked(k: nat, j: nat) {
    j == k || j >= k + 2
  }

  /** From some reading on, a clock that gets past every time is always admitted. */
  lemma LateEnough(reading: nat -> int, log: seq<int>, limit: nat, length: real, start: nat) returns (enough: nat)
    requires NonDecreasing(log) && limit > 0 && Monotone(reading) && Unbounded(reading)
    requires log != [] ==> log[|log| - 1] <= reading(start)
    ensures enough >= start
    ensures forall j: nat :: j >= enough ==> Admits(log, limit, length, reading(j))
  {
    var front := if |log| < limit then 0 else log[|log| - limit];
    assert GetsPast(reading, front as real + length);
    var past: nat :| reading(past) as real > front as real + length;
    enough := if past < start then start else past;
    forall j: nat | j >= enough
      ensures Admits(log, limit, length, reading(j))
    {
      assert reading(start) <= reading(j) && reading(past) <= reading(j);
      FrontDecides(log, limit, length, reading(j));
    }
  }

  class SlidingWindowThrottling {
    const msgLimit: nat
    const timeLimit: real
    const circularArray: CircularArray<int>
    const clock: Clock

    ghost predicate Valid()
      reads this, clock, circularArray, circularArray.ptr
    {
      && circularArray.Valid() && circularArray.maxSize == msgLimit
      && Monotone(clock.reading)
      && NonDecreasing(circularArray.log)
      && Spaced(circularArray.log, msgLimit, timeLimit)
      && (circularArray.log != [] ==> circularArray.log[|circularArray.log| - 1] <= clock.reading(clock.next))
    }

    constructor (msgLimit: nat, timeLimit: real, clock: Clock)
      requires msgLimit > 0 && Monotone(clock.reading)
      ensures Valid() && circularArray.log == [] && fresh(circularArray) && fresh(circularArray.ptr)
      ensures this.msgLimit == msgLimit && this.timeLimit == timeLimit * 1000000.0 && this.clock == clock
    {
      circularArray := new CircularArray<int>(msgLimit);
      this.msgLimit := msgLimit;
      this.timeLimit := timeLimit * 1000000.0;
      this.clock := clock;
    }

    /** One check: stores the reading if the array is not full yet or its front is old enough. */
    method Try(curr: int) returns (admitted: bool)
      requires circularArray.Valid() && circularArray.maxSize == msgLimit
      requires NonDecreasing(circularArray.log) && Spaced(circularArray.log, msgLimit, timeLimit)
      requires circularArray.log != [] ==> circularArray.log[|circularArray.log| - 1] <= curr
      modifies circularArray, circularArray.ptr
      ensures circularArray.Valid()
      ensures NonDecreasing(circularArray.log) && Spaced(circularArray.log, msgLimit, timeLimit)
      ensures admitted == Admits(old(circularArray.log), msgLimit, timeLimit, curr)
      ensures circularArray.log == if admitted then old(circularArray.log) + [curr] else old(circularArray.log)
    {
      ghost var log := circularArray.log;
      FrontDecides(log, msgLimit, timeLimit, curr);
      admitted := !circularArray.Full() || (curr - circularArray.Front()) as real > timeLimit;
      if admitted {
        SpacedSnoc(log, msgLimit, timeLimit, curr);
        circularArray.Store(curr);
      }
    }

    /** One turn of the polling loop; the first refusal costs a second reading, for the message. */
    method Round(firstRefusal: bool) returns (admitted: bool)
      requires Valid()
      modifies clock, circularArray, circularArray.ptr
      ensures Valid()
      ensures admitted == Admits(old(circularArray.log), msgLimit, timeLimit, clock.reading(old(clock.next)))
      ensures circularArray.log == if admitted then old(circularArray.log) + [clock.reading(old(clock.next))]
                                   else old(circularArray.log)
      ensures clock.next == old(clock.next) + if !admitted && firstRefusal then 2 else 1
    {
      var curr := clock.Now();
      admitted := Try(curr);
      if !admitted && firstRefusal {
        curr := clock.Now();
      }
    }

    /** Returns with one more admission, at the first checked reading that the unbounded rule admits. */
    method CheckThrottleLimit()
      requires Valid() && Unbounded(clock.reading)
      modifies clock, circularArray, circularArray.ptr
      ensures Valid() && clock.next > old(clock.next)
      ensures var admitted := clock.next - 1;
        && Checked(old(clock.next), admitted)
        && circularArray.log == old(circularArray.log) + [clock.reading(admitted)]
        && Admits(old(circularArray.log), msgLimit, timeLimit, clock.reading(admitted))
        && forall j: nat :: Checked(old(clock.next), j) && j < admitted ==>
             !Admits(old(circularArray.log), msgLimit, timeLimit, clock.reading(j))
    {
      ghost var log, start := circularArray.log, clock.next;
      ghost var enough := LateEnough(clock.reading, log, msgLimit, timeLimit, start);
      var firstRefusal := true;
      while true
        invariant Valid() && circularArray.log == log
        invariant Checked(start, clock.next) && (firstRefusal <==> clock.next == start)
        invariant forall j: nat :: Checked(start, j) && j < clock.next ==>
                    !Admits(log, msgLimit, timeLimit, clock.reading(j))
        invariant clock.next <= enough + 2
        decreases enough + 2 - clock.next
      {
        ghost var now := clock.next;
        var admitted := Round(firstRefusal);
        if admitted {
          return;
        }
        assert now < enough;
        firstRefusal := false;
      }
    }
  }
}
