/**
 What a sliding-window throttle promises, stated on the unbounded log of its admissions: no window
 of the given length ever holds more than the given number of them.
 */
module SlidingWindow {

  ghost predicate NonDecreasing(log: seq<int>) {
    forall i, j :: 0 <= i <= j < |log| ==> log[i] <= log[j]
  }

  /** An admission comes more than `length` after the one `limit` places before it. */
  ghost predicate Spaced(log: seq<int>, limit: nat, length: real) {
    forall i, j :: 0 <= i && j == i + limit && j < |log| ==> (log[j] - log[i]) as real > length
  }

  predicate Within(t: int, lo: real, hi: real) {
    lo <= t as real <= hi
  }

  /** How many admissions lie in the closed window. */
  function Count(log: seq<int>, lo: real, hi: real): nat {
    var n := |log|;
    if n == 0 then 0 else Count(log[..n - 1], lo, hi) + if Within(log[n - 1], lo, hi) then 1 else 0
  }

  /** The rule of an unbounded throttle: fewer than `limit` admissions in the window that ends at t. */
  predicate Admits(log: seq<int>, limit: nat, length: real, t: int) {
    Count(log, t as real - length, t as real) < limit
  }

  lemma Between(log: seq<int>, lo: real, hi: real, a: nat, i: nat, b: nat)
    requires NonDecreasing(log) && a <= i <= b < |log|
    requires Within(log[a], lo, hi) && Within(log[b], lo, hi)
    ensures Within(log[i], lo, hi)
  {
  }

  /** The admissions in a window are neighbours in the log. */
  lemma {:induction false} Block(log: seq<int>, lo: real, hi: real) returns (a: nat, b: nat)
    requires NonDecreasing(log)
    ensures a <= b <= |log| && Count(log, lo, hi) == b - a
    ensures forall i :: 0 <= i < |log| ==> (a <= i < b <==> Within(log[i], lo, hi))
  {
    var n := |log|;
    if n == 0 {
      a, b := 0, 0;
    } else {
      var front := log[..n - 1];
      a, b := Block(front, lo, hi);
      assert forall i :: 0 <= i < n - 1 ==> front[i] == log[i];
      if Within(log[n - 1], lo, hi) {
        if a < b {
          assert Within(log[a], lo, hi);
          forall i | a <= i < n
            ensures Within(log[i], lo, hi)
          {
            Between(log, lo, hi, a, i, n - 1);
          }
          b := n;
        } else {
          a, b := n - 1, n;
        }
      }
    }
  }

  /** The front of the last `limit` admissions decides alone what the whole log decides. */
  lemma FrontDecides(log: seq<int>, limit: nat, length: real, t: int)
    requires NonDecreasing(log) && limit > 0
    requires log != [] ==> log[|log| - 1] <= t
    ensures Admits(log, limit, length, t)
       <==> |log| < limit || (t - log[|log| - limit]) as real > length
  {
    var n := |log|;
    var a, b := Block(log, t as real - length, t as real);
    if a < b {
      assert Within(log[a], t as real - length, t as real) && log[a] <= log[n - 1];
      assert b == n;
    }
    if limit <= n {
      assert log[n - limit] <= log[n - 1];
    }
  }

  lemma SpacedSnoc(log: seq<int>, limit: nat, length: real, t: int)
    requires NonDecreasing(log) && Spaced(log, limit, length) && limit > 0
    requires log != [] ==> log[|log| - 1] <= t
    requires Admits(log, limit, length, t)
    ensures NonDecreasing(log + [t]) && Spaced(log + [t], limit, length)
  {
    FrontDecides(log, limit, length, t);
  }

  lemma OneAdmitted(log: seq<int>, limit: nat, length: real, k: nat)
    requires NonDecreasing(log) && limit > 0 && k < |log|
    ensures Admits(log[..k], limit, length, log[k])
       <==> (k >= limit ==> (log[k] - log[k - limit]) as real > length)
  {
    FrontDecides(log[..k], limit, length, log[k]);
  }

  /** A history is spaced exactly when the unbounded rule admits each of its entries after those before it. */
  lemma SpacedIsAdmitted(log: seq<int>, limit: nat, length: real)
    requires NonDecreasing(log) && limit > 0
    ensures Spaced(log, limit, length)
       <==> forall k :: 0 <= k < |log| ==> Admits(log[..k], limit, length, log[k])
  {
    if Spaced(log, limit, length) {
      forall k | 0 <= k < |log|
        ensures Admits(log[..k], limit, length, log[k])
      {
        OneAdmitted(log, limit, length, k);
      }
    }
    if forall k :: 0 <= k < |log| ==> Admits(log[..k], limit, length, log[k]) {
      forall i, j | 0 <= i && j == i + limit && j < |log|
        ensures (log[j] - log[i]) as real > length
      {
        OneAdmitted(log, limit, length, j);
      }
    }
  }

  /** k steps of `limit` places take more than k times the length. */
  lemma {:induction false} Stretch(log: seq<int>, limit: nat, length: real, a: nat, k: nat)
    requires Spaced(log, limit, length) && k > 0 && a + k * limit < |log|
    ensures (log[a + k * limit] - log[a]) as real > k as real * length
  {
    if k > 1 {
      assert a + (k - 1) * limit + limit == a + k * limit;
      Stretch(log, limit, length, a, k - 1);
      var c := a + (k - 1) * limit;
      assert (log[c + limit] - log[c]) as real > length;
      assert (k - 1) as real * length + length == k as real * length;
    }
  }

  /** At most `limit` admissions in any closed window of the throttle's length. */
  lemma RateBound(log: seq<int>, limit: nat, length: real, lo: real)
    requires NonDecreasing(log) && Spaced(log, limit, length)
    ensures Count(log, lo, lo + length) <= limit
  {
    var a, b := Block(log, lo, lo + length);
    if a < b && a + limit < |log| {
      assert (log[a + limit] - log[a]) as real > length;
      assert !Within(log[a + limit], lo, lo + length);
    }
  }

  /** At most `limit` for every started length in an interval of any duration. */
  lemma LongRateBound(log: seq<int>, limit: nat, length: real, lo: real, duration: real)
    requires NonDecreasing(log) && Spaced(log, limit, length)
    requires length > 0.0 && duration >= 0.0
    ensures Count(log, lo, lo + duration) <= limit * ((duration / length).Floor + 1)
  {
    var k := (duration / length).Floor + 1;
    var a, b := Block(log, lo, lo + duration);
    assert k as real > duration / length;
    assert k as real * length > duration;
    if a < b && a + k * limit < |log| {
      Stretch(log, limit, length, a, k);
      assert !Within(log[a + k * limit], lo, lo + duration);
    }
  }
}
