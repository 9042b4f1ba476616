/**
 What the parser reads out of any text, said without its loop: the pieces that SOH ends, what one piece
 assigns to which tag, and that the last assignment to a tag is the one that stays.
 */
module FixReading {
  import opened Strings
  import opened FixText

  // ---- the pieces

  /** The pieces one after the other, each ended by SOH. */
  function Ended(pieces: seq<string>): string {
    var n := |pieces|;
    if n == 0 then "" else Ended(pieces[..n - 1]) + (pieces[n - 1] + [SOH])
  }

  /** These are the pieces of the text; SOH need not end the last of them, if that is not empty. */
  ghost predicate Pieces(text: string, pieces: seq<string>) {
    && (forall i :: 0 <= i < |pieces| ==> SOH !in pieces[i])
    && (text == Ended(pieces)
        || (pieces != [] && pieces[|pieces| - 1] != ""
            && text == Ended(pieces[..|pieces| - 1]) + pieces[|pieces| - 1]))
  }

  lemma EndedSnoc(pieces: seq<string>, piece: string)
    ensures Ended(pieces + [piece]) == Ended(pieces) + (piece + [SOH])
  {
    assert (pieces + [piece])[..|pieces|] == pieces;
  }

  lemma {:induction false} EndedCuts(pieces: seq<string>)
    requires forall i :: 0 <= i < |pieces| ==> SOH !in pieces[i]
    ensures Cuts(Ended(pieces), pieces)
    decreases |pieces|
  {
    var n := |pieces|;
    if n > 0 {
      var front, last := pieces[..n - 1], pieces[n - 1];
      EndedCuts(front);
      CutsField(last);
      CutsBoth(Ended(front), front, last + [SOH], [last]);
      assert pieces == front + [last];
    }
  }

  /** The segments of a text that starts with ended pieces. */
  lemma SegmentsBehind(pieces: seq<string>, rest: string)
    requires forall i :: 0 <= i < |pieces| ==> SOH !in pieces[i]
    ensures var text := Ended(pieces) + rest;
      |Ended(pieces)| <= |text| && Segments(text, 0) == pieces + Segments(text, |Ended(pieces)|)
  {
    EndedCuts(pieces);
    assert At(Ended(pieces) + rest, 0, Ended(pieces));
  }

  /** A text has one list of pieces, and the parser's segments are it. */
  lemma PiecesAreSegments(text: string, pieces: seq<string>)
    requires Pieces(text, pieces)
    ensures Segments(text, 0) == pieces
  {
    if text == Ended(pieces) {
      SegmentsBehind(pieces, "");
      assert Ended(pieces) + "" == text && pieces + [] == pieces;
    } else {
      var front, last := pieces[..|pieces| - 1], pieces[|pieces| - 1];
      SegmentsBehind(front, last);
      FindIs(text, SOH, |Ended(front)|, |text|);
      assert text[|Ended(front)|..] == last && pieces == front + [last];
    }
  }

  /** The parser has read up to position i, and these are the pieces so far. */
  ghost predicate Walked(text: string, i: nat, done: seq<string>) {
    && i <= |text| && text[..i] == Ended(done)
    && Segments(text, 0) == done + Segments(text, i)
    && forall k :: 0 <= k < |done| ==> SOH !in done[k]
  }

  lemma TextUpTo(text: string, i: nat, j: nat)
    requires i <= j < |text| && text[j] == SOH
    ensures text[..j + 1] == text[..i] + (text[i..j] + [SOH])
  {
  }

  lemma OnePiece(text: string, i: nat, done: seq<string>, j: nat, piece: string)
    requires Walked(text, i, done) && i < |text| && j == Find(text, SOH, i) < |text| && piece == text[i..j]
    ensures Walked(text, j + 1, done + [piece])
  {
    NextSegment(text, i, done);
    EndedSnoc(done, piece);
    TextUpTo(text, i, j);
    assert SOH !in piece;
  }

  lemma LastPiece(text: string, i: nat, done: seq<string>)
    requires Walked(text, i, done) && i < |text| && Find(text, SOH, i) == |text|
    ensures Pieces(text, Segments(text, 0))
  {
    var last := text[i..];
    TwoParts(text, i);
    assert Segments(text, i) == [last];
    assert (done + [last])[..|done|] == done;
  }

  lemma {:induction false} SegmentsFrom(text: string, i: nat, done: seq<string>)
    requires Walked(text, i, done)
    ensures Pieces(text, Segments(text, 0))
    decreases |text| - i
  {
    if i == |text| {
      assert text[..i] == text && done + [] == done;
    } else {
      var j := Find(text, SOH, i);
      if j == |text| {
        LastPiece(text, i, done);
      } else {
        OnePiece(text, i, done, j, text[i..j]);
        SegmentsFrom(text, j + 1, done + [text[i..j]]);
      }
    }
  }

  /** Every text has pieces. */
  lemma SegmentsArePieces(text: string)
    ensures Pieces(text, Segments(text, 0))
  {
    assert [] + Segments(text, 0) == Segments(text, 0);
    SegmentsFrom(text, 0, []);
  }

  // ---- one piece

  /** The piece assigns this value to this tag; without an equals sign it is its own tag and value. */
  ghost predicate Reads(piece: string, tag: string, value: string) {
    || ('=' !in tag && piece == tag + "=" + value)
    || ('=' !in piece && piece == tag == value)
  }

  ghost predicate Names(piece: string, tag: string) {
    exists value :: Reads(piece, tag, value)
  }

  lemma OwnReading(piece: string)
    ensures Reads(piece, KeyOf(piece), ValueOf(piece))
  {
    var j := Find(piece, '=', 0);
    if j < |piece| {
      assert piece == piece[..j] + "=" + piece[j + 1..];
    } else {
      assert piece[..j] == piece;
    }
  }

  lemma ReadsIs(piece: string, tag: string, value: string)
    ensures Reads(piece, tag, value) <==> KeyOf(piece) == tag && ValueOf(piece) == value
  {
    OwnReading(piece);
    if '=' !in tag && piece == tag + "=" + value {
      SegmentBack(tag, value);
    } else if Reads(piece, tag, value) {
      FindIs(piece, '=', 0, |piece|);
      assert piece[..|piece|] == piece;
    }
  }

  lemma NamesIs(piece: string, tag: string)
    ensures Names(piece, tag) <==> KeyOf(piece) == tag
  {
    OwnReading(piece);
    if Names(piece, tag) {
      var value :| Reads(piece, tag, value);
      ReadsIs(piece, tag, value);
    }
  }

  // ---- all pieces

  /** Some piece assigns the value to the tag, and no later one assigns anything to it. */
  ghost predicate LastReads(pieces: seq<string>, tag: string, value: string) {
    exists i :: 0 <= i < |pieces| && Reads(pieces[i], tag, value)
             && forall k :: i < k < |pieces| ==> !Names(pieces[k], tag)
  }

  lemma LastReadsSnoc(pieces: seq<string>, piece: string, tag: string, value: string)
    ensures LastReads(pieces + [piece], tag, value)
       <==> Reads(piece, tag, value) || (!Names(piece, tag) && LastReads(pieces, tag, value))
  {
    var n, all := |pieces|, pieces + [piece];
    assert all[n] == piece && forall i :: 0 <= i < n ==> all[i] == pieces[i];
    if LastReads(all, tag, value) {
      var i :| 0 <= i < |all| && Reads(all[i], tag, value) && forall k :: i < k < |all| ==> !Names(all[k], tag);
      if i < n {
        assert Reads(pieces[i], tag, value) && forall k :: i < k < n ==> !Names(all[k], tag);
      }
    }
  }

  lemma {:induction false} AssignedLast(pieces: seq<string>, tag: string, value: string)
    ensures tag in Assign(pieces) && Assign(pieces)[tag] == value <==> LastReads(pieces, tag, value)
    decreases |pieces|
  {
    var n := |pieces|;
    if n > 0 {
      var front, last := pieces[..n - 1], pieces[n - 1];
      AssignedLast(front, tag, value);
      ReadsIs(last, tag, value);
      NamesIs(last, tag);
      LastReadsSnoc(front, last, tag, value);
      assert pieces == front + [last];
    }
  }

  /** For any input: the parser has a value for a tag exactly when that is what the last piece for the tag,
      in the text up to the first NUL, assigns to it. */
  lemma ParsedIs(text: string, behind: string, pieces: seq<string>, tag: string, value: string)
    requires NUL !in text && (behind == "" || behind[0] == NUL) && Pieces(text, pieces)
    ensures var fields := Parsed(text + behind);
      tag in fields && fields[tag] == value <==> LastReads(pieces, tag, value)
  {
    var input := text + behind;
    FindIs(input, NUL, 0, |text|);
    assert UpToNul(input) == text;
    PiecesAreSegments(text, pieces);
    AssignedLast(pieces, tag, value);
  }

  // ---- what an outgoing message carries

  lemma {:induction false} PrintedConcat(fields: Fields, xs: seq<string>, ys: seq<string>)
    ensures Printed(fields, xs + ys) == Printed(fields, xs) + Printed(fields, ys)
    decreases |ys|
  {
    var n := |ys|;
    if n == 0 {
      assert xs + ys == xs;
    } else {
      var front, last := ys[..n - 1], ys[n - 1];
      PrintedConcat(fields, xs, front);
      assert (xs + ys)[..|xs + ys| - 1] == xs + front && (xs + ys)[|xs + ys| - 1] == last;
      Regroup(Printed(fields, xs), Printed(fields, front), PrintedIfSet(fields, last));
    }
  }

  /** Exactly these tags are carried. */
  lemma CarriedTags(tag: string)
    ensures tag in OMS_TAGS + [CHECKSUM_TAG] <==>
      tag in {"6", "8", "9", "10", "11", "14", "17", "31", "32", "34", "35", "37", "38", "39", "44", "49", "50", "52",
              "54", "57", "58", "60", "150", "151"}
  {
  }

  lemma HeadPrinted(fields: Fields)
    requires "8" in fields && "9" in fields && "35" in fields
    ensures Printed(fields, ["8", "9", "35"])
         == Field("8", fields["8"]) + Field("9", fields["9"]) + Field("35", fields["35"])
  {
    var one, two, three := ["8"], ["8", "9"], ["8", "9", "35"];
    assert one[..0] == [] && two[..1] == one && three[..2] == two;
    assert Printed(fields, one) == Field("8", fields["8"]);
  }

  /** Begin string, body length and message type come first and the checksum last, as FIX 4.4 demands of
      every message (Volume 1, "Message Format"). */
  lemma StandardOrder(fields: Fields) returns (body: string)
    requires "8" in fields && "9" in fields && "35" in fields
    ensures OmsString(fields)
         == Field("8", fields["8"]) + Field("9", fields["9"]) + Field("35", fields["35"]) + body + Field("10", "000")
  {
    var head := ["8", "9", "35"];
    assert OMS_TAGS == head + OMS_TAGS[3..];
    PrintedConcat(fields, head, OMS_TAGS[3..]);
    HeadPrinted(fields);
    body := Printed(fields, OMS_TAGS[3..]);
  }
}
