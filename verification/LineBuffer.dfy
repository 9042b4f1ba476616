/**
 The object behind a log line: a 224-byte array inside the object, replaced by a growing heap array
 as soon as the records no longer fit.
 */
module LineBuffer {
  import opened NanoLine
  import opened Strings

  const FIRST_HEAP_SIZE := 512

  function Max(a: nat, b: nat): nat { if a < b then b else a }

  lemma RecordAdded(header: string, args: seq<Arg>, a: Arg, before: string, after: string)
    requires AllInRange(args) && InRange(a)
    requires before == header + Records(args) && after == before + Record(a)
    ensures AllInRange(args + [a]) && after == header + Records(args + [a])
  {
    RecordsSnoc(args, a);
    Regroup(header, Records(args), Record(a));
  }

  class NanoLogLine {
    var bytesUsed: nat
    var bufferSize: nat
    var heapBuffer: array?<char>
    const stackBuffer: array<char>
    /** Bytes moved by all growths so far. */
    ghost var copied: nat
    ghost var args: seq<Arg>
    ghost const time: nat
    ghost const level: char

    function Buffer(): array<char>
      reads this`heapBuffer
    {
      if heapBuffer == null then stackBuffer else heapBuffer
    }

    ghost predicate Shape()
      reads this`bufferSize, this`heapBuffer, this`bytesUsed
    {
      && stackBuffer.Length == STACK_SIZE
      && Buffer().Length == bufferSize
      && bytesUsed <= bufferSize
      && heapBuffer != stackBuffer
    }

    /** The bounds on growth, for the bytes used once the current record is in. */
    ghost predicate Bounded(used: nat)
      reads this`bufferSize, this`heapBuffer, this`copied
    {
      && used <= bufferSize
      && (heapBuffer == null ==> copied == 0)
      && (heapBuffer != null ==>
            bufferSize <= Max(FIRST_HEAP_SIZE, 2 * used) && copied <= bufferSize && copied < 2 * used)
    }

    ghost function Contents(): string
      requires Shape()
      reads this`bufferSize, this`heapBuffer, this`bytesUsed, Buffer()
    {
      Buffer()[..bytesUsed]
    }

    /** The buffer holds exactly the header and the records of the arguments pushed so far. */
    ghost predicate Valid()
      reads this, Buffer()
    {
      && Shape()
      && Bounded(bytesUsed)
      && time < 0x1_0000_0000_0000_0000 && IsByte(level)
      && AllInRange(args)
      && Contents() == Header(time, level) + Records(args)
    }

    /** The time stamp is a uint64_t, the level a uint8_t. */
    constructor (time: nat, level: char)
      requires time < 0x1_0000_0000_0000_0000 && IsByte(level)
      ensures Valid() && fresh(Buffer())
      ensures args == [] && this.time == time && this.level == level && copied == 0
    {
      bytesUsed := 0;
      stackBuffer := new char[STACK_SIZE];
      heapBuffer := null;
      bufferSize := STACK_SIZE;
      copied := 0;
      args := [];
      this.time := time;
      this.level := level;
      new;
      Store(ToBytes(time, 8));
      Store([level]);
      assert Contents() == Header(time, level) + Records(args);
    }

    /** One store of a value's bytes, with no check of the room left. */
    method Store(bytes: string)
      requires Shape() && bytesUsed + |bytes| <= bufferSize
      modifies this`bytesUsed, Buffer()
      ensures Shape() && Contents() == old(Contents()) + bytes
    {
      var b := Buffer();
      forall i | 0 <= i < |bytes| {
        b[bytesUsed + i] := bytes[i];
      }
      bytesUsed := bytesUsed + |bytes|;
    }

    /** Makes room: nothing, the first heap array, or one at least twice as large. */
    method ResizeBufferIfNeeded(additional: nat)
      requires Shape() && Bounded(bytesUsed) && additional > 0
      modifies this`bufferSize, this`heapBuffer, this`copied
      ensures Shape() && Bounded(bytesUsed + additional)
      ensures Contents() == old(Contents())
      ensures Buffer() == old(Buffer()) || fresh(Buffer())
      ensures bytesUsed + additional <= old(bufferSize) ==> bufferSize == old(bufferSize) && copied == old(copied)
      ensures bytesUsed + additional > old(bufferSize) ==> copied == old(copied) + bytesUsed
    {
      var required := bytesUsed + additional;
      if required <= bufferSize {
        return;
      }
      var was := Buffer();
      bufferSize := if heapBuffer == null then Max(FIRST_HEAP_SIZE, required) else Max(2 * bufferSize, required);
      var grown := new char[bufferSize];
      forall i | 0 <= i < bytesUsed {
        grown[i] := was[i];
      }
      heapBuffer := grown;
      copied := copied + bytesUsed;
    }

    /** A tag and the value's bytes. */
    method EncodeScalar(tag: char, value: string)
      requires Shape() && Bounded(bytesUsed)
      modifies this`bytesUsed, this`bufferSize, this`heapBuffer, this`copied, Buffer()
      ensures Shape() && Bounded(bytesUsed)
      ensures Contents() == old(Contents()) + ([tag] + value)
      ensures Buffer() == old(Buffer()) || fresh(Buffer())
    {
      ResizeBufferIfNeeded(1 + |value|);
      Store([tag]);
      Store(value);
    }

    /** A tag, the characters and their closing NUL; an empty string leaves no trace. */
    method EncodeCString(s: string)
      requires InRange(Text(s)) && Shape() && Bounded(bytesUsed)
      modifies this`bytesUsed, this`bufferSize, this`heapBuffer, this`copied, Buffer()
      ensures Shape() && Bounded(bytesUsed)
      ensures Contents() == old(Contents()) + Record(Text(s))
      ensures Buffer() == old(Buffer()) || fresh(Buffer())
    {
      if |s| == 0 {
        return;
      }
      ResizeBufferIfNeeded(1 + |s| + 1);
      Store([TEXT_TAG] + s + [NUL]);
    }

    /** Writes one argument's record. */
    method Encode(a: Arg)
      requires Shape() && Bounded(bytesUsed) && InRange(a)
      modifies this`bytesUsed, this`bufferSize, this`heapBuffer, this`copied, Buffer()
      ensures Shape() && Bounded(bytesUsed)
      ensures Contents() == old(Contents()) + Record(a)
      ensures Buffer() == old(Buffer()) || fresh(Buffer())
    {
      match a
      case NullText => assert Record(a) == [];
      case Text(s) => EncodeCString(s);
      case _ => EncodeScalar(Tag(a) as char, ToBytes(Bits(a), SizeOf(Tag(a))));
    }

    /** Even with the header alone some bytes are used, so nothing copied is less than twice that. */
    lemma GrowthBounds()
      requires Valid()
      ensures bytesUsed <= bufferSize && copied < 2 * bytesUsed
      ensures heapBuffer != null ==> bufferSize <= Max(FIRST_HEAP_SIZE, 2 * bytesUsed)
    {
      assert |Contents()| == bytesUsed;
    }

    /** `operator<<`. */
    method Push(a: Arg)
      requires Valid() && InRange(a)
      modifies this, Buffer()
      ensures Valid() && args == old(args) + [a]
      ensures bytesUsed <= bufferSize && copied < 2 * bytesUsed
      ensures heapBuffer != null ==> bufferSize <= Max(FIRST_HEAP_SIZE, 2 * bytesUsed)
      ensures Buffer() == old(Buffer()) || fresh(Buffer())
    {
      ghost var before, was := Contents(), args;
      args := args + [a];
      Encode(a);
      RecordAdded(Header(time, level), was, a, before, Contents());
      GrowthBounds();
    }

    /** Prints the line; with NUL-free strings the text is the date, the level and all arguments. */
    method Stringify(pr: Printer, date: nat -> string) returns (o: Outcome)
      requires Valid()
      ensures o == PrintLine(pr, date, Contents())
      ensures AllPlain(args) ==>
        o == Done(date(time) + "[" + LevelName(level) + "]" + PrintedAll(pr, args) + "\n")
    {
      var b := Buffer()[..bytesUsed];
      var stamp, shownLevel := FromBytes(b[..8]), b[8];
      var name := ToString(shownLevel);
      var body := StringifyFrom(pr, b, HEADER_SIZE);
      o := Append(Prepend(date(stamp) + "[" + name + "]", body), "\n");
      if AllPlain(args) {
        LineRoundTrip(pr, date, time, level, args);
      }
    }
  }
}
