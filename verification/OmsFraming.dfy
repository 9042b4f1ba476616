/**
 How `OmsRcvServer::rcvFromOms` cuts the bytes from the order manager into messages, and why it does
 not matter where the reads cut them.
 */
module OmsFraming {
  import opened Strings

  /** The text searched for: `1 + "10=000"` is pointer arithmetic, so it starts at the second character. */
  const TERMINATOR := "0=000"

  /** A message ends one character behind its first terminator. */
  predicate Framed(m: string) {
    |m| > |TERMINATOR| && FindText(m, TERMINATOR, 0) == |m| - |TERMINATOR| - 1
  }

  predicate AllFramed(messages: seq<string>) {
    forall i :: 0 <= i < |messages| ==> Framed(messages[i])
  }

  /** No terminator yet: the rest waits for the next read. */
  predicate Unfinished(rest: string) {
    FindText(rest, TERMINATOR, 0) == |rest|
  }

  /** The terminator is there, but not the character behind it. */
  predicate Short(rest: string) {
    |rest| >= |TERMINATOR| && FindText(rest, TERMINATOR, 0) == |rest| - |TERMINATOR|
  }

  function Flatten(parts: seq<string>): string {
    if parts == [] then "" else parts[0] + Flatten(parts[1..])
  }

  /** The stream is these messages followed by this rest. */
  ghost predicate Splits(s: string, messages: seq<string>, rest: string) {
    s == Flatten(messages) + rest && AllFramed(messages) && (Unfinished(rest) || Short(rest))
  }

  lemma {:induction false} FlattenConcat(x: seq<string>, y: seq<string>)
    ensures Flatten(x + y) == Flatten(x) + Flatten(y)
  {
    if x == [] {
      assert x + y == y;
    } else {
      FlattenConcat(x[1..], y);
      assert (x + y)[1..] == x[1..] + y;
      Regroup(x[0], Flatten(x[1..]), Flatten(y));
    }
  }

  /** More text behind a string does not move its first terminator. */
  lemma FindLonger(s: string, more: string)
    requires FindText(s, TERMINATOR, 0) < |s|
    ensures FindText(s + more, TERMINATOR, 0) == FindText(s, TERMINATOR, 0)
  {
    var t := FindText(s, TERMINATOR, 0);
    FoundText(s, TERMINATOR, 0);
    assert At(s + more, t, TERMINATOR);
    forall k | 0 <= k < t
      ensures !At(s + more, k, TERMINATOR)
    {
      assert !At(s, k, TERMINATOR);
    }
    FindTextIs(s + more, TERMINATOR, 0, t);
  }

  /** A terminator that is found leaves room for itself. */
  lemma FoundFits(s: string, i: nat)
    requires i <= |s| && FindText(s, TERMINATOR, i) < |s|
    ensures FindText(s, TERMINATOR, i) + |TERMINATOR| <= |s|
  {
    FoundText(s, TERMINATOR, i);
  }

  /** The first message of a split is all up to one character behind the first terminator. */
  lemma FirstMessage(s: string, messages: seq<string>, rest: string)
    requires Splits(s, messages, rest)
    ensures messages == [] ==> s == rest
    ensures messages != [] ==>
      var end := FindText(s, TERMINATOR, 0) + |TERMINATOR| + 1;
      end <= |s| && messages[0] == s[..end] && Splits(s[end..], messages[1..], rest)
  {
    if messages != [] {
      var m := messages[0];
      var more := Flatten(messages[1..]) + rest;
      Regroup(m, Flatten(messages[1..]), rest);
      FindLonger(m, more);
    }
  }

  /** There is only one way to split a stream. */
  lemma {:induction false} Unique(s: string, x: seq<string>, r: string, y: seq<string>, q: string)
    requires Splits(s, x, r) && Splits(s, y, q)
    ensures x == y && r == q
    decreases |x|
  {
    FirstMessage(s, x, r);
    FirstMessage(s, y, q);
    var t := FindText(s, TERMINATOR, 0);
    if x != [] && y != [] {
      Unique(s[t + |TERMINATOR| + 1..], x[1..], r, y[1..], q);
      assert x == [x[0]] + x[1..] && y == [y[0]] + y[1..];
    }
  }

  /** A slice that reaches behind the first terminator has it in the same place. */
  lemma FindSlice(s: string, i: nat, j: nat)
    requires i <= j <= |s| && (FindText(s, TERMINATOR, i) + |TERMINATOR| <= j || FindText(s, TERMINATOR, i) == j == |s|)
    ensures FindText(s[i..j], TERMINATOR, 0) == FindText(s, TERMINATOR, i) - i
  {
    var t := FindText(s, TERMINATOR, i);
    FoundText(s, TERMINATOR, i);
    assert t < |s| ==> At(s[i..j], t - i, TERMINATOR);
    forall k | 0 <= k < t - i
      ensures !At(s[i..j], k, TERMINATOR)
    {
      assert !At(s, i + k, TERMINATOR);
    }
    FindTextIs(s[i..j], TERMINATOR, 0, t - i);
  }

  /** A longer stream is split by splitting what the first part left over. */
  lemma SplitsMore(s: string, messages: seq<string>, rest: string, more: seq<string>, last: string, chunk: string)
    requires Splits(s, messages, rest) && Splits(rest + chunk, more, last)
    ensures Splits(s + chunk, messages + more, last)
  {
    FlattenConcat(messages, more);
    Regroup(Flatten(messages), rest, chunk);
    Regroup(Flatten(messages), Flatten(more), last);
  }
}
