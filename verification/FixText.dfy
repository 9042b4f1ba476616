/**
 The tag=value text of FIX 4.4 (Volume 1, "Message Format"): every field is a tag, an equals sign, a
 value and a closing SOH. This module says what the printer writes and what the parser reads, and
 when the second undoes the first.
 */
module FixText {
  import opened Strings

  const SOH := 1 as char
  const NUL := 0 as char

  type Fields = map<string, string>

  // ---- reading

  /** A string handed over as a C string ends at its first NUL. */
  function UpToNul(s: string): string {
    s[..Find(s, NUL, 0)]
  }

  /** The text before the first equals sign; all of it when there is none. */
  function KeyOf(segment: string): string {
    segment[..Find(segment, '=', 0)]
  }

  /** The text behind the first equals sign; all of it when there is none. */
  function ValueOf(segment: string): string {
    var j := Find(segment, '=', 0);
    if j == |segment| then segment else segment[j + 1..]
  }

  /** The pieces of the text from position i on that SOH ends, and the rest if it is not empty. */
  function Segments(text: string, i: nat): seq<string>
    requires i <= |text|
    decreases |text| - i
  {
    if i == |text| then []
    else
      var j := Find(text, SOH, i);
      if j == |text| then [text[i..]] else [text[i..j]] + Segments(text, j + 1)
  }

  /** One assignment for each segment; a later one replaces an earlier one of the same tag. */
  function Assign(segments: seq<string>): Fields {
    var n := |segments|;
    if n == 0 then map[]
    else Assign(segments[..n - 1])[KeyOf(segments[n - 1]) := ValueOf(segments[n - 1])]
  }

  lemma AssignOne(segments: seq<string>, s: string)
    ensures Assign(segments + [s]) == Assign(segments)[KeyOf(s) := ValueOf(s)]
  {
    assert (segments + [s])[..|segments|] == segments;
  }

  /** One turn of the parser's loop. */
  lemma NextSegment(text: string, i: nat, done: seq<string>)
    requires i < |text| && Segments(text, 0) == done + Segments(text, i)
    ensures var j := Find(text, SOH, i);
      Segments(text, 0) == done + [text[i..j]] + Segments(text, if j == |text| then j else j + 1)
  {
    var j := Find(text, SOH, i);
    if j == |text| {
      assert text[i..j] == text[i..];
    }
  }

  lemma NextField(text: string, i: nat, done: seq<string>, s: string)
    requires i < |text| && s == text[i..Find(text, SOH, i)] && Segments(text, 0) == done + Segments(text, i)
    ensures var j := Find(text, SOH, i);
      Segments(text, 0) == done + [s] + Segments(text, if j == |text| then j else j + 1)
    ensures Assign(done + [s]) == Assign(done)[KeyOf(s) := ValueOf(s)]
  {
    NextSegment(text, i, done);
    AssignOne(done, s);
  }

  function Parsed(input: string): Fields {
    Assign(Segments(UpToNul(input), 0))
  }

  // ---- writing

  function Field(tag: string, value: string): string {
    tag + "=" + value + [SOH]
  }

  /** The fields of the listed tags that are set, in the order of the list. */
  function Printed(fields: Fields, tags: seq<string>): string {
    var n := |tags|;
    if n == 0 then ""
    else Printed(fields, tags[..n - 1]) + PrintedIfSet(fields, tags[n - 1])
  }

  function PrintedIfSet(fields: Fields, tag: string): string {
    if tag in fields then Field(tag, fields[tag]) else ""
  }

  const FIX_AVG_PX := "6"
  const FIX_CL_ORD_ID := "11"
  const FIX_CUM_QTY := "14"
  const FIX_EXEC_ID := "17"
  const FIX_LAST_PX := "31"
  const FIX_LAST_SHARES := "32"
  const FIX_MSG_TYPE := "35"
  const FIX_ORDER_ID := "37"
  const FIX_ORD_QTY := "38"
  const FIX_ORD_STATUS := "39"
  const FIX_PRICE := "44"
  const FIX_SENDER_COMP_ID := "49"
  const FIX_SENDER_SUB_ID := "50"
  const FIX_SIDE := "54"
  const FIX_TARGET_SUB_ID := "57"
  const FIX_TEXT := "58"
  const FIX_TRANSACT_TIME := "60"
  const FIX_EXEC_TYPE := "150"
  const FIX_LEAVES_QTY := "151"

  /** The tags of an outgoing message in the order they are written; one stands in it twice. */
  const OMS_TAGS: seq<string> := [
    "8", "9", FIX_MSG_TYPE, "34", FIX_SENDER_COMP_ID, FIX_SENDER_SUB_ID, FIX_TARGET_SUB_ID, "52",
    FIX_AVG_PX, FIX_CL_ORD_ID, FIX_CUM_QTY, FIX_ORD_STATUS, FIX_EXEC_TYPE, FIX_LEAVES_QTY, FIX_EXEC_ID,
    FIX_ORDER_ID, FIX_ORD_QTY, FIX_PRICE, FIX_SIDE, FIX_TRANSACT_TIME, FIX_LAST_PX, FIX_LAST_SHARES,
    FIX_LEAVES_QTY, FIX_TEXT]

  const CHECKSUM_TAG := "10"
  const CHECKSUM := "000"

  function OmsFields(fields: Fields): Fields {
    fields[CHECKSUM_TAG := CHECKSUM]
  }

  function OmsString(fields: Fields): string {
    Printed(fields, OMS_TAGS) + Field(CHECKSUM_TAG, CHECKSUM)
  }

  /** The fields that such a message carries. */
  function Restricted(fields: Fields, tags: seq<string>): Fields {
    map tag | tag in fields && tag in tags :: fields[tag]
  }

  // ---- the round trip

  predicate Clean(s: string) {
    SOH !in s && NUL !in s
  }

  predicate PlainTag(tag: string) {
    Clean(tag) && '=' !in tag
  }

  lemma SegmentBack(tag: string, value: string)
    requires '=' !in tag
    ensures KeyOf(tag + "=" + value) == tag && ValueOf(tag + "=" + value) == value
  {
    var s := tag + "=" + value;
    FindIs(s, '=', 0, |tag|);
    assert s[|tag| + 1..] == value;
  }

  /** Wherever the parser meets this text it cuts these segments off and goes on right behind it. */
  ghost predicate Cuts(part: string, segments: seq<string>) {
    forall text: string, i: nat | At(text, i, part) ::
      Segments(text, i) == segments + Segments(text, i + |part|)
  }

  lemma CutsField(segment: string)
    requires SOH !in segment
    ensures Cuts(segment + [SOH], [segment])
  {
    forall text: string, i: nat | At(text, i, segment + [SOH])
      ensures Segments(text, i) == [segment] + Segments(text, i + |segment + [SOH]|)
    {
      var j := i + |segment|;
      AtSplit(text, i, segment, [SOH]);
      assert text[j] == [SOH][0] && text[i..j] == segment;
      FindIs(text, SOH, i, j);
    }
  }

  lemma CutsBoth(x: string, s: seq<string>, y: string, t: seq<string>)
    requires Cuts(x, s) && Cuts(y, t)
    ensures Cuts(x + y, s + t)
  {
    forall text: string, i: nat | At(text, i, x + y)
      ensures Segments(text, i) == s + t + Segments(text, i + |x + y|)
    {
      AtSplit(text, i, x, y);
      var rest := Segments(text, i + |x| + |y|);
      assert s + (t + rest) == s + t + rest;
    }
  }

  lemma AssignSnoc(segments: seq<string>, tag: string, value: string)
    requires '=' !in tag
    ensures Assign(segments + [tag + "=" + value]) == Assign(segments)[tag := value]
  {
    SegmentBack(tag, value);
    AssignOne(segments, tag + "=" + value);
  }

  /** No listed field that is set contains SOH or NUL. */
  ghost predicate AllClean(fields: Fields, tags: seq<string>) {
    forall i :: 0 <= i < |tags| && tags[i] in fields ==> Clean(fields[tags[i]])
  }

  ghost predicate AllPlain(tags: seq<string>) {
    forall i :: 0 <= i < |tags| ==> PlainTag(tags[i])
  }

  lemma {:induction false} PrintedClean(fields: Fields, tags: seq<string>)
    requires AllPlain(tags) && AllClean(fields, tags)
    ensures NUL !in Printed(fields, tags)
    decreases |tags|
  {
    var n := |tags|;
    if n > 0 {
      PrintedClean(fields, tags[..n - 1]);
    }
  }

  /** The segments of the listed tags that are set. */
  function Pairs(fields: Fields, tags: seq<string>): seq<string> {
    var n := |tags|;
    if n == 0 then []
    else if tags[n - 1] in fields then Pairs(fields, tags[..n - 1]) + [tags[n - 1] + "=" + fields[tags[n - 1]]]
    else Pairs(fields, tags[..n - 1])
  }

  lemma {:induction false} PrintedCuts(fields: Fields, tags: seq<string>)
    requires AllPlain(tags) && AllClean(fields, tags)
    ensures Cuts(Printed(fields, tags), Pairs(fields, tags))
    decreases |tags|
  {
    var n := |tags|;
    if n > 0 {
      var front, last := tags[..n - 1], tags[n - 1];
      PrintedCuts(fields, front);
      if last in fields {
        var segment := last + "=" + fields[last];
        CutsField(segment);
        CutsBoth(Printed(fields, front), Pairs(fields, front), segment + [SOH], [segment]);
      } else {
        assert Printed(fields, tags) == Printed(fields, front);
      }
    }
  }

  lemma RestrictedSnoc(fields: Fields, front: seq<string>, last: string)
    ensures last in fields ==>
      Restricted(fields, front + [last]) == Restricted(fields, front)[last := fields[last]]
    ensures last !in fields ==> Restricted(fields, front + [last]) == Restricted(fields, front)
  {
  }

  lemma {:induction false} PairsBack(fields: Fields, tags: seq<string>)
    requires AllPlain(tags)
    ensures Assign(Pairs(fields, tags)) == Restricted(fields, tags)
    decreases |tags|
  {
    var n := |tags|;
    if n > 0 {
      var front, last := tags[..n - 1], tags[n - 1];
      PairsBack(fields, front);
      assert tags == front + [last];
      RestrictedSnoc(fields, front, last);
      if last in fields {
        AssignSnoc(Pairs(fields, front), last, fields[last]);
      }
    }
  }

  lemma PrintedSegments(fields: Fields, tags: seq<string>)
    requires AllPlain(tags) && AllClean(fields, tags)
    ensures Segments(Printed(fields, tags), 0) == Pairs(fields, tags)
  {
    var text := Printed(fields, tags);
    PrintedCuts(fields, tags);
    AtWhole(text);
    var none := Segments(text, 0 + |text|);
    assert none == [] && Pairs(fields, tags) + none == Pairs(fields, tags);
  }

  lemma PrintedBack(fields: Fields, tags: seq<string>)
    requires AllPlain(tags) && AllClean(fields, tags)
    ensures Parsed(Printed(fields, tags)) == Restricted(fields, tags)
  {
    var text := Printed(fields, tags);
    PrintedClean(fields, tags);
    FindIs(text, NUL, 0, |text|);
    assert UpToNul(text) == text;
    PrintedSegments(fields, tags);
    PairsBack(fields, tags);
  }

  lemma CleanValue(segment: string)
    requires Clean(segment)
    ensures Clean(ValueOf(segment))
  {
    var k := Find(segment, '=', 0);
    if k < |segment| {
      assert forall c :: c in segment[k + 1..] ==> c in segment;
    }
  }

  lemma {:induction false} CleanSegments(text: string, i: nat)
    requires i <= |text| && NUL !in text
    ensures forall k :: 0 <= k < |Segments(text, i)| ==> Clean(Segments(text, i)[k])
    decreases |text| - i
  {
    if i < |text| {
      var j := Find(text, SOH, i);
      assert Clean(text[i..j]);
      if j < |text| {
        CleanSegments(text, j + 1);
      }
    }
  }

  /** What the parser stores never contains SOH or NUL. */
  lemma {:induction false} AssignedClean(segments: seq<string>, tag: string)
    requires forall k :: 0 <= k < |segments| ==> Clean(segments[k])
    requires tag in Assign(segments)
    ensures Clean(Assign(segments)[tag])
    decreases |segments|
  {
    var n := |segments|;
    if n > 0 {
      CleanValue(segments[n - 1]);
      if tag in Assign(segments[..n - 1]) {
        AssignedClean(segments[..n - 1], tag);
      }
    }
  }

  lemma OmsTags()
    ensures AllPlain(OMS_TAGS + [CHECKSUM_TAG]) && CHECKSUM_TAG !in OMS_TAGS
  {
  }

  lemma {:induction false} PrintedAgrees(f: Fields, g: Fields, tags: seq<string>)
    requires forall i :: 0 <= i < |tags| ==> PrintedIfSet(f, tags[i]) == PrintedIfSet(g, tags[i])
    ensures Printed(f, tags) == Printed(g, tags)
    decreases |tags|
  {
    var n := |tags|;
    if n > 0 {
      PrintedAgrees(f, g, tags[..n - 1]);
    }
  }

  /** The message is the printed form of the fields with the checksum set. */
  lemma OmsStringIsPrinted(fields: Fields)
    ensures OmsString(fields) == Printed(OmsFields(fields), OMS_TAGS + [CHECKSUM_TAG])
  {
    OmsTags();
    var tags := OMS_TAGS + [CHECKSUM_TAG];
    assert tags[..|OMS_TAGS|] == OMS_TAGS && tags[|OMS_TAGS|] == CHECKSUM_TAG;
    PrintedAgrees(fields, OmsFields(fields), OMS_TAGS);
  }

  /** Parsing a printed message gives back its fields exactly when no printed value contains SOH or NUL. */
  lemma RoundTrip(fields: Fields)
    ensures Parsed(OmsString(fields)) == Restricted(OmsFields(fields), OMS_TAGS + [CHECKSUM_TAG])
       <==> AllClean(fields, OMS_TAGS)
  {
    var all, tags := OmsFields(fields), OMS_TAGS + [CHECKSUM_TAG];
    var text := OmsString(fields);
    OmsTags();
    OmsStringIsPrinted(fields);
    if AllClean(fields, OMS_TAGS) {
      assert AllClean(all, tags);
      PrintedBack(all, tags);
    } else {
      var i :| 0 <= i < |OMS_TAGS| && OMS_TAGS[i] in fields && !Clean(fields[OMS_TAGS[i]]);
      var tag := OMS_TAGS[i];
      assert tag == tags[i] && Restricted(all, tags)[tag] == fields[tag];
      assert NUL !in UpToNul(text);
      CleanSegments(UpToNul(text), 0);
      if tag in Parsed(text) {
        AssignedClean(Segments(UpToNul(text), 0), tag);
      }
    }
  }
}
