/**
 `OmsRcvServer`: one read at a time, with the unfinished message kept in between.
 */
module OmsReceiver {
  import opened Strings
  import opened OmsFraming

  /** The greedy split of a stream, first message first. */
  function Split(s: string): (seq<string>, string)
    decreases |s|
  {
    var end := FindText(s, TERMINATOR, 0) + |TERMINATOR| + 1;
    if end <= |s| then
      var later := Split(s[end..]);
      ([s[..end]] + later.0, later.1)
    else ([], s)
  }

  lemma FramedFront(s: string)
    requires FindText(s, TERMINATOR, 0) + |TERMINATOR| < |s|
    ensures Framed(s[..FindText(s, TERMINATOR, 0) + |TERMINATOR| + 1])
  {
    var end := FindText(s, TERMINATOR, 0) + |TERMINATOR| + 1;
    FindSlice(s, 0, end);
    assert s[0..end] == s[..end];
  }

  lemma MessageInFront(m: string, s: string, messages: seq<string>, rest: string)
    requires Framed(m) && Splits(s, messages, rest)
    ensures Splits(m + s, [m] + messages, rest)
  {
    FlattenConcat([m], messages);
    assert Flatten([m]) == m;
    Regroup(m, Flatten(messages), rest);
  }

  lemma LastPiece(s: string)
    requires FindText(s, TERMINATOR, 0) + |TERMINATOR| >= |s|
    ensures Unfinished(s) || Short(s)
  {
    if FindText(s, TERMINATOR, 0) < |s| {
      FoundFits(s, 0);
    }
  }

  lemma {:induction false} SplitSplits(s: string)
    ensures Splits(s, Split(s).0, Split(s).1)
    decreases |s|
  {
    var end := FindText(s, TERMINATOR, 0) + |TERMINATOR| + 1;
    if end <= |s| {
      var later := Split(s[end..]);
      SplitSplits(s[end..]);
      TwoParts(s, end);
      FramedFront(s);
      MessageInFront(s[..end], s[end..], later.0, later.1);
    } else {
      LastPiece(s);
    }
  }

  /** The messages cut off so far, and where the rest of the stream starts. */
  ghost predicate CutUpTo(data: string, messages: seq<string>, i: nat) {
    i <= |data| && data == Flatten(messages) + data[i..] && AllFramed(messages)
  }

  lemma NextMessage(data: string, messages: seq<string>, i: nat)
    requires CutUpTo(data, messages, i) && FindText(data, TERMINATOR, i) + |TERMINATOR| < |data|
    ensures var end := FindText(data, TERMINATOR, i) + |TERMINATOR| + 1;
      CutUpTo(data, messages + [data[i..end]], end)
  {
    var end := FindText(data, TERMINATOR, i) + |TERMINATOR| + 1;
    FindSlice(data, i, end);
    FlattenConcat(messages, [data[i..end]]);
    assert Flatten([data[i..end]]) == data[i..end];
    assert data[i..] == data[i..end] + data[end..];
    Regroup(Flatten(messages), data[i..end], data[end..]);
  }

  /** With no terminator, or nothing behind it, the rest is what the split leaves. */
  lemma NoMoreMessages(data: string, messages: seq<string>, i: nat)
    requires CutUpTo(data, messages, i) && FindText(data, TERMINATOR, i) + |TERMINATOR| >= |data|
    ensures Split(data) == (messages, data[i..])
    ensures Short(data[i..]) <==> FindText(data, TERMINATOR, i) < |data|
  {
    if FindText(data, TERMINATOR, i) < |data| {
      FoundFits(data, i);
    }
    FindSlice(data, i, |data|);
    assert data[i..|data|] == data[i..];
    var (x, r) := Split(data);
    SplitSplits(data);
    Unique(data, messages, data[i..], x, r);
  }

  datatype Connection = Connection(accepted: bool, handled: seq<string>, leftOver: string)

  /** What one read does. A message that is one character short is handed out too, but then the
      connection is dropped, because the rest of the buffer is taken from behind its end. */
  function Receive(c: Connection, chunk: string): Connection {
    var (messages, rest) := Split(c.leftOver + chunk);
    if Short(rest) then Connection(false, c.handled + messages + [rest], "")
    else Connection(true, c.handled + messages, rest)
  }

  function ReceiveAll(chunks: seq<string>): Connection {
    var n := |chunks|;
    if n == 0 then Connection(false, [], "") else Receive(ReceiveAll(chunks[..n - 1]), chunks[n - 1])
  }

  class OmsRcvServer {
    var connectionAccepted: bool
    var leftOverString: string
    /** The arguments of all calls of `handleOmsWrite`. */
    var handled: seq<string>

    function State(): Connection
      reads this
    {
      Connection(connectionAccepted, handled, leftOverString)
    }

    constructor ()
      ensures State() == ReceiveAll([])
    {
      connectionAccepted, leftOverString, handled := false, "", [];
    }

    method RcvFromOms(chunk: string)
      modifies this
      ensures State() == Receive(old(State()), chunk)
    {
      if !connectionAccepted {
        connectionAccepted := true;
      }
      var data := leftOverString + chunk;
      leftOverString := "";
      ghost var messages: seq<string> := [];
      var i := 0;
      while i < |data|
        invariant CutUpTo(data, messages, i)
        invariant connectionAccepted && leftOverString == "" && handled == old(handled) + messages
      {
        var temp := i;
        i := FindText(data, TERMINATOR, i);
        if i == |data| {
          i := temp;
          break;
        }
        if |data| < i + 6 {
          NoMoreMessages(data, messages, temp);
          handled := handled + [data[temp..]];
          connectionAccepted := false;
          return;
        }
        NextMessage(data, messages, temp);
        handled := handled + [data[temp..i + 6]];
        messages := messages + [data[temp..i + 6]];
        i := i + 6;
      }
      NoMoreMessages(data, messages, i);
      if i != |data| {
        leftOverString := data[i..];
      }
    }
  }

  // ---- how the reads cut the stream does not matter

  /** The connection survives every read. */
  ghost predicate Alive(chunks: seq<string>) {
    forall n :: 0 < n <= |chunks| ==> ReceiveAll(chunks[..n]).accepted
  }

  /** Some read ends right behind a terminator at which the greedy split would end a message. */
  ghost predicate EndsShort(chunks: seq<string>) {
    exists n :: 0 < n <= |chunks| && Short(Split(Flatten(chunks[..n])).1)
  }

  lemma FlattenSnoc(front: seq<string>, last: string)
    ensures Flatten(front + [last]) == Flatten(front) + last
  {
    FlattenConcat(front, [last]);
    assert Flatten([last]) == last;
  }

  /** No byte is lost or handed out twice, whatever the reads look like. */
  lemma {:induction false} BytesConserved(chunks: seq<string>)
    ensures var c := ReceiveAll(chunks); Flatten(c.handled) + c.leftOver == Flatten(chunks)
    decreases |chunks|
  {
    var n := |chunks|;
    if n > 0 {
      var c, chunk := ReceiveAll(chunks[..n - 1]), chunks[n - 1];
      BytesConserved(chunks[..n - 1]);
      assert chunks == chunks[..n - 1] + [chunk];
      FlattenSnoc(chunks[..n - 1], chunk);
      var (messages, rest) := Split(c.leftOver + chunk);
      ReadConserves(c, chunk, messages, rest);
    }
  }

  lemma HandledOrLeft(c: Connection, chunk: string, messages: seq<string>, rest: string)
    requires Split(c.leftOver + chunk) == (messages, rest)
    ensures Flatten(Receive(c, chunk).handled) + Receive(c, chunk).leftOver == Flatten(c.handled + messages) + rest
  {
    SplitSplits(c.leftOver + chunk);
    FlattenSnoc(c.handled + messages, rest);
  }

  lemma ReadConserves(c: Connection, chunk: string, messages: seq<string>, rest: string)
    requires Split(c.leftOver + chunk) == (messages, rest)
    ensures Flatten(Receive(c, chunk).handled) + Receive(c, chunk).leftOver == Flatten(c.handled) + c.leftOver + chunk
  {
    HandledOrLeft(c, chunk, messages, rest);
    SplitSplits(c.leftOver + chunk);
    FlattenConcat(c.handled, messages);
    Regroup(Flatten(c.handled), Flatten(messages), rest);
    Regroup(Flatten(c.handled), c.leftOver, chunk);
  }

  /** One read on an open connection splits the longer stream. */
  lemma ReadSplits(s: string, c: Connection, chunk: string)
    requires Splits(s, c.handled, c.leftOver)
    ensures var (messages, rest) := Split(c.leftOver + chunk);
      Split(s + chunk) == (c.handled + messages, rest)
  {
    var (messages, rest) := Split(c.leftOver + chunk);
    SplitSplits(c.leftOver + chunk);
    SplitsMore(s, c.handled, c.leftOver, messages, rest, chunk);
    SplitSplits(s + chunk);
    Unique(s + chunk, c.handled + messages, rest, Split(s + chunk).0, Split(s + chunk).1);
  }

  ghost predicate Settled(chunks: seq<string>) {
    var c := ReceiveAll(chunks);
    Split(Flatten(chunks)) == (c.handled, c.leftOver)
  }

  lemma LastRead(front: seq<string>, chunk: string)
    requires Settled(front)
    ensures ReceiveAll(front + [chunk]).accepted <==> !Short(Split(Flatten(front + [chunk])).1)
    ensures ReceiveAll(front + [chunk]).accepted ==> Settled(front + [chunk])
  {
    FlattenSnoc(front, chunk);
    SplitSplits(Flatten(front));
    ReadSplits(Flatten(front), ReceiveAll(front), chunk);
    assert (front + [chunk])[..|front|] == front;
  }

  /** While the connection lives, the handled messages and the left-over bytes are the greedy split of
      all bytes received. */
  lemma {:induction false} AliveSplits(chunks: seq<string>)
    requires Alive(chunks)
    ensures var c := ReceiveAll(chunks); Split(Flatten(chunks)) == (c.handled, c.leftOver)
    decreases |chunks|
  {
    var n := |chunks|;
    if n > 0 {
      var front, chunk := chunks[..n - 1], chunks[n - 1];
      assert chunks == front + [chunk];
      AliveSnoc(front, chunk);
      AliveSplits(front);
      LastRead(front, chunk);
    }
  }

  lemma AliveSnoc(front: seq<string>, chunk: string)
    ensures Alive(front + [chunk]) <==> Alive(front) && ReceiveAll(front + [chunk]).accepted
  {
    var chunks := front + [chunk];
    assert chunks[..|chunks|] == chunks && forall k :: 0 <= k < |chunks| ==> chunks[..k] == front[..k];
  }

  lemma EndsShortSnoc(front: seq<string>, chunk: string)
    ensures EndsShort(front + [chunk]) <==> EndsShort(front) || Short(Split(Flatten(front + [chunk])).1)
  {
    var chunks := front + [chunk];
    assert chunks[..|chunks|] == chunks && forall k :: 0 <= k < |chunks| ==> chunks[..k] == front[..k];
    if EndsShort(front) {
      var n :| 0 < n <= |front| && Short(Split(Flatten(front[..n])).1);
      assert chunks[..n] == front[..n];
    }
  }

  /** The connection is dropped exactly when some read ends short. */
  lemma {:induction false} AliveIffNeverShort(chunks: seq<string>)
    ensures Alive(chunks) <==> !EndsShort(chunks)
    decreases |chunks|
  {
    var n := |chunks|;
    if n > 0 {
      var front, chunk := chunks[..n - 1], chunks[n - 1];
      assert chunks == front + [chunk];
      AliveIffNeverShort(front);
      AliveSnoc(front, chunk);
      EndsShortSnoc(front, chunk);
      if Alive(front) {
        AliveSplits(front);
        LastRead(front, chunk);
      }
    }
  }

  /** A message that is handed out one character short is no message of any split. */
  lemma ShortIsNotFramed(c: Connection, chunk: string)
    ensures AllFramed(Receive(c, chunk).handled) ==> AllFramed(c.handled) && Receive(c, chunk).accepted
  {
    var (messages, rest) := Split(c.leftOver + chunk);
    var after := Receive(c, chunk).handled;
    assert forall i :: 0 <= i < |c.handled| ==> after[i] == c.handled[i];
    if Short(rest) {
      assert after[|c.handled + messages|] == rest && !Framed(rest);
    }
  }

  lemma {:induction false} FramedMeansAlive(chunks: seq<string>)
    requires AllFramed(ReceiveAll(chunks).handled)
    ensures Alive(chunks)
    decreases |chunks|
  {
    var n := |chunks|;
    if n > 0 {
      var front, chunk := chunks[..n - 1], chunks[n - 1];
      assert chunks == front + [chunk];
      ShortIsNotFramed(ReceiveAll(front), chunk);
      FramedMeansAlive(front);
      AliveSnoc(front, chunk);
    }
  }

  /** The handled messages and the left-over bytes are the greedy split of all bytes received exactly
      when no read ends short. */
  lemma SplitIffNeverShort(chunks: seq<string>)
    ensures var c := ReceiveAll(chunks);
      Split(Flatten(chunks)) == (c.handled, c.leftOver) <==> !EndsShort(chunks)
  {
    AliveIffNeverShort(chunks);
    if Alive(chunks) {
      AliveSplits(chunks);
    }
    if Settled(chunks) {
      SplitSplits(Flatten(chunks));
      FramedMeansAlive(chunks);
    }
  }

  /** Against reads none of which ends short, another way of cutting the same stream gives the same
      messages and the same rest exactly when none of its reads ends short either. */
  lemma ChunkIndependence(x: seq<string>, y: seq<string>)
    requires Flatten(x) == Flatten(y) && !EndsShort(x)
    ensures ReceiveAll(x).handled == ReceiveAll(y).handled && ReceiveAll(x).leftOver == ReceiveAll(y).leftOver
       <==> !EndsShort(y)
  {
    SplitIffNeverShort(x);
    SplitIffNeverShort(y);
  }

  /** The condition is needed: one message, read whole or with its last character in a read of its own. */
  lemma CutMatters()
    ensures var x, y := [TERMINATOR, "!"], [TERMINATOR + "!"];
      && Flatten(x) == Flatten(y) && EndsShort(x) && !EndsShort(y)
      && ReceiveAll(x).handled == [TERMINATOR] && ReceiveAll(y).handled == y
  {
    var message := TERMINATOR + "!";
    var x, y := [TERMINATOR, "!"], [message];
    assert Flatten(["!"]) == "!" && Flatten(y) == message && x[1..] == ["!"];
    FindTextIs(message, TERMINATOR, 0, 0);
    FindTextIs(TERMINATOR, TERMINATOR, 0, 0);
    assert !At("!", 0, TERMINATOR) && FindText("!", TERMINATOR, 0) == 1;
    assert Split(TERMINATOR) == ([], TERMINATOR) && Split("!") == ([], "!");
    assert message[..|TERMINATOR| + 1] == message && message[|TERMINATOR| + 1..] == "";
    assert Flatten([message]) == message && Framed(message) && Unfinished("");
    SplitSplits(message);
    Unique(message, [message], "", Split(message).0, Split(message).1);
    var none := Connection(false, [], "");
    assert x[..1] == [TERMINATOR] && x[..1][..0] == [] && x[..2] == x && y[..0] == [] && y[..1] == y;
    assert none.leftOver + TERMINATOR == TERMINATOR && none.leftOver + message == message && "" + "!" == "!";
    assert ReceiveAll(x[..1]) == Receive(none, TERMINATOR) == Connection(false, [TERMINATOR], "");
    assert ReceiveAll(y) == Receive(none, message) == Connection(true, [message], "");
    assert Flatten(x[..1]) == TERMINATOR && Short(TERMINATOR);
  }
}
