/**
 The printed messages on the stream: when the framing hands out exactly what the printer wrote.
 */
module OmsMessages {
  import opened Strings
  import opened FixText
  import opened OmsFraming
  import opened OmsReceiver

  /** The terminator occurs nowhere. */
  ghost predicate Free(s: string) {
    forall k: nat :: !At(s, k, TERMINATOR)
  }

  lemma Spelled(s: string, k: nat)
    ensures At(s, k, TERMINATOR)
       <==> k + 5 <= |s| && s[k] == '0' && s[k + 1] == '=' && s[k + 2] == '0' && s[k + 3] == '0' && s[k + 4] == '0'
  {
    var t := TERMINATOR;
    assert t[0] == '0' && t[1] == '=' && t[2] == '0' && t[3] == '0' && t[4] == '0';
  }

  /** The terminator has no SOH in it, so it cannot reach over the end of a field. */
  lemma NotAcross(s: string, k: nat, j: nat)
    requires k <= j < k + 5 && j < |s| && s[j] == SOH
    ensures !At(s, k, TERMINATOR)
  {
    Spelled(s, k);
  }

  lemma FreeConcat(x: string, y: string)
    requires x == "" || x[|x| - 1] == SOH
    ensures Free(x + y) <==> Free(x) && Free(y)
  {
    forall k: nat | At(x, k, TERMINATOR)
      ensures At(x + y, k, TERMINATOR)
    {
    }
    forall k: nat | At(y, k, TERMINATOR)
      ensures At(x + y, |x| + k, TERMINATOR)
    {
    }
    if Free(x) && Free(y) {
      forall k: nat
        ensures !At(x + y, k, TERMINATOR)
      {
        FreeAt(x, y, k);
      }
    }
  }

  lemma FreeAt(x: string, y: string, k: nat)
    requires (x == "" || x[|x| - 1] == SOH) && Free(x) && Free(y)
    ensures !At(x + y, k, TERMINATOR)
  {
    Spelled(x + y, k);
    if k + 5 <= |x| {
      Spelled(x, k);
    } else if k < |x| {
      NotAcross(x + y, k, |x| - 1);
    } else {
      Spelled(y, k - |x|);
    }
  }

  /** The tag ends in 0 and the value goes on with 000. */
  predicate ReadsAsEnd(tag: string, value: string) {
    tag != "" && tag[|tag| - 1] == '0' && |value| >= 3 && value[0] == '0' && value[1] == '0' && value[2] == '0'
  }

  lemma FieldAt(tag: string, value: string, k: nat)
    requires PlainTag(tag)
    ensures At(Field(tag, value), k, TERMINATOR)
       <==> (k + 1 == |tag| && ReadsAsEnd(tag, value)) || (k > |tag| && At(value, k - |tag| - 1, TERMINATOR))
  {
    var f, n := Field(tag, value), |tag| + 1;
    Spelled(f, k);
    assert f[n - 1] == '=' && f[|f| - 1] == SOH;
    assert forall i :: 0 <= i < |value| ==> f[n + i] == value[i];
    if k + 1 < |tag| {
      assert f[k + 1] == tag[k + 1] && tag[k + 1] in tag;
    } else if k + 1 == |tag| {
      assert f[k] == tag[k];
    } else if k > |tag| {
      Spelled(value, k - n);
    }
  }

  /** A field holds the terminator exactly when its value does, or the tag and the value make one. */
  lemma FreeField(tag: string, value: string)
    requires PlainTag(tag)
    ensures Free(Field(tag, value)) <==> Free(value) && !ReadsAsEnd(tag, value)
  {
    forall k: nat
      ensures At(Field(tag, value), k, TERMINATOR)
         <==> (k + 1 == |tag| && ReadsAsEnd(tag, value)) || (k > |tag| && At(value, k - |tag| - 1, TERMINATOR))
    {
      FieldAt(tag, value, k);
    }
    if ReadsAsEnd(tag, value) {
      assert At(Field(tag, value), |tag| - 1, TERMINATOR);
    }
    forall k: nat | At(value, k, TERMINATOR)
      ensures At(Field(tag, value), k + |tag| + 1, TERMINATOR)
    {
      FieldAt(tag, value, k + |tag| + 1);
    }
  }

  /** No field that is printed holds the terminator. */
  ghost predicate NoEnd(fields: Fields, tags: seq<string>) {
    forall i :: 0 <= i < |tags| && tags[i] in fields ==>
      Free(fields[tags[i]]) && !ReadsAsEnd(tags[i], fields[tags[i]])
  }

  lemma {:induction false} PrintedEnds(fields: Fields, tags: seq<string>)
    ensures var r := Printed(fields, tags); r == "" || r[|r| - 1] == SOH
    decreases |tags|
  {
    var n := |tags|;
    if n > 0 {
      PrintedEnds(fields, tags[..n - 1]);
    }
  }

  lemma {:induction false} FreePrinted(fields: Fields, tags: seq<string>)
    requires AllPlain(tags)
    ensures Free(Printed(fields, tags)) <==> NoEnd(fields, tags)
    decreases |tags|
  {
    var n := |tags|;
    if n == 0 {
      assert Free("");
    } else {
      var front, last := tags[..n - 1], tags[n - 1];
      FreePrinted(fields, front);
      PrintedEnds(fields, front);
      FreeConcat(Printed(fields, front), PrintedIfSet(fields, last));
      if last in fields {
        FreeField(last, fields[last]);
      } else {
        assert Free("");
      }
      NoEndSnoc(fields, front, last);
      assert tags == front + [last];
    }
  }

  lemma NoEndSnoc(fields: Fields, front: seq<string>, last: string)
    ensures NoEnd(fields, front + [last])
       <==> NoEnd(fields, front) && (last in fields ==> Free(fields[last]) && !ReadsAsEnd(last, fields[last]))
  {
    var tags := front + [last];
    assert tags[|front|] == last && forall i :: 0 <= i < |front| ==> tags[i] == front[i];
  }

  /** Nothing before the checksum field ends the message, and that field ends it one character behind the terminator. */
  lemma ChecksumEnds(x: string)
    requires x == "" || x[|x| - 1] == SOH
    ensures Framed(x + Field(CHECKSUM_TAG, CHECKSUM)) <==> Free(x)
  {
    var f := Field(CHECKSUM_TAG, CHECKSUM);
    var m := x + f;
    assert f == "10=000" + [SOH];
    Spelled(m, |x| + 1);
    Spelled(m, |x|);
    assert At(m, |x| + 1, TERMINATOR) && !At(m, |x|, TERMINATOR) && |x| + 1 == |m| - |TERMINATOR| - 1;
    FoundText(m, TERMINATOR, 0);
    if Free(x) {
      forall k | 0 <= k < |x| + 1
        ensures !At(m, k, TERMINATOR)
      {
        Spelled(m, k);
        if k + 5 <= |x| {
          Spelled(x, k);
        } else if k < |x| {
          NotAcross(m, k, |x| - 1);
        }
      }
      FindTextIs(m, TERMINATOR, 0, |x| + 1);
    } else {
      var k: nat :| At(x, k, TERMINATOR);
      assert At(m, k, TERMINATOR) && k < |x|;
    }
  }

  /** The condition on the values: no value holds 0=000, and those of 50, 150 and 60 do not start with 000. */
  ghost predicate Framable(fields: Fields) {
    && (forall tag :: tag in OMS_TAGS && tag in fields ==> Free(fields[tag]))
    && (forall tag :: tag in {"50", "150", "60"} && tag in fields ==> !("000" <= fields[tag]))
  }

  /** A printed message is one message of the stream exactly when no value reads as its end. */
  lemma PrintedIsFramed(fields: Fields)
    ensures Framed(OmsString(fields)) <==> Framable(fields)
  {
    OmsTags();
    assert AllPlain(OMS_TAGS) by {
      assert forall i :: 0 <= i < |OMS_TAGS| ==> (OMS_TAGS + [CHECKSUM_TAG])[i] == OMS_TAGS[i];
    }
    PrintedEnds(fields, OMS_TAGS);
    ChecksumEnds(Printed(fields, OMS_TAGS));
    FreePrinted(fields, OMS_TAGS);
    NoEndIsFramable(fields);
  }

  /** The tags that end in 0. */
  lemma ZeroTags(i: nat)
    requires i < |OMS_TAGS|
    ensures OMS_TAGS[i] != ""
    ensures OMS_TAGS[i][|OMS_TAGS[i]| - 1] == '0' <==> OMS_TAGS[i] in {"50", "150", "60"}
  {
  }

  lemma StartsZero(value: string)
    ensures "000" <= value <==> |value| >= 3 && value[0] == '0' && value[1] == '0' && value[2] == '0'
  {
    var zeros := "000";
    assert zeros[0] == '0' && zeros[1] == '0' && zeros[2] == '0';
  }

  lemma NoEndAt(fields: Fields, i: nat)
    requires i < |OMS_TAGS| && OMS_TAGS[i] in fields
    ensures ReadsAsEnd(OMS_TAGS[i], fields[OMS_TAGS[i]])
       <==> OMS_TAGS[i] in {"50", "150", "60"} && "000" <= fields[OMS_TAGS[i]]
  {
    ZeroTags(i);
    StartsZero(fields[OMS_TAGS[i]]);
  }

  lemma NoEndIsFramable(fields: Fields)
    ensures NoEnd(fields, OMS_TAGS) <==> Framable(fields)
  {
    forall i: nat | i < |OMS_TAGS| && OMS_TAGS[i] in fields
      ensures ReadsAsEnd(OMS_TAGS[i], fields[OMS_TAGS[i]])
         <==> OMS_TAGS[i] in {"50", "150", "60"} && "000" <= fields[OMS_TAGS[i]]
    {
      NoEndAt(fields, i);
    }
    assert OMS_TAGS[5] == "50" && OMS_TAGS[12] == "150" && OMS_TAGS[19] == "60";
  }

  /** However such messages are cut into reads, if no read ends short they come out one by one, and
      nothing is left over. */
  lemma PrintedArrive(messages: seq<Fields>, chunks: seq<string>)
    requires forall i :: 0 <= i < |messages| ==> Framable(messages[i])
    requires Flatten(chunks) == Flatten(seq(|messages|, i requires 0 <= i < |messages| => OmsString(messages[i])))
    requires !EndsShort(chunks)
    ensures ReceiveAll(chunks).handled == seq(|messages|, i requires 0 <= i < |messages| => OmsString(messages[i]))
    ensures ReceiveAll(chunks).leftOver == ""
  {
    var texts := seq(|messages|, i requires 0 <= i < |messages| => OmsString(messages[i]));
    forall i | 0 <= i < |texts|
      ensures Framed(texts[i])
    {
      PrintedIsFramed(messages[i]);
    }
    var s := Flatten(chunks);
    assert Unfinished("") && s == Flatten(texts) + "";
    SplitSplits(s);
    Unique(s, texts, "", Split(s).0, Split(s).1);
    SplitIffNeverShort(chunks);
  }

  /** And if their values hold neither SOH nor NUL, each message handed out is read back as the fields it was
      printed from. */
  lemma PrintedUnderstood(messages: seq<Fields>, chunks: seq<string>, i: nat)
    requires forall k :: 0 <= k < |messages| ==> Framable(messages[k])
    requires Flatten(chunks) == Flatten(seq(|messages|, k requires 0 <= k < |messages| => OmsString(messages[k])))
    requires !EndsShort(chunks) && i < |messages| && AllClean(messages[i], OMS_TAGS)
    ensures |ReceiveAll(chunks).handled| == |messages|
    ensures Parsed(ReceiveAll(chunks).handled[i]) == Restricted(OmsFields(messages[i]), OMS_TAGS + [CHECKSUM_TAG])
  {
    PrintedArrive(messages, chunks);
    RoundTrip(messages[i]);
  }
}
