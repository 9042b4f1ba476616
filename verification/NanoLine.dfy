/**
 One log line of NanoLog (`NanoLogLine`): arguments are written into a growing byte buffer as
 type-tagged records, and read back when the line is printed.
 */
module NanoLine {
  import opened Strings

  // One byte of memory is a char, as in the buffers of the source.
  const NUL := 0 as char
  const TEXT_TAG := 7 as char
  const STACK_SIZE := 224   // 256 less two sizes, one pointer and 8 reserved bytes

  /** An argument of `operator<<`. Doubles and string literals are eight opaque bytes. */
  datatype Arg =
    | Char(c: char)
    | Uint32(n: int)
    | Uint64(n: int)
    | Int32(n: int)
    | Int64(n: int)
    | Double(bits: int)
    | Literal(address: int)
    | Text(s: string)
    | NullText

  predicate IsByte(c: char) {
    c as int < 0x100
  }

  predicate InRange(a: Arg) {
    match a
    case Char(c) => IsByte(c)
    case Text(s) => forall c :: c in s ==> IsByte(c)
    case Uint32(n) => 0 <= n < 0x1_0000_0000
    case Uint64(n) => 0 <= n < 0x1_0000_0000_0000_0000
    case Int32(n) => -0x8000_0000 <= n < 0x8000_0000
    case Int64(n) => -0x8000_0000_0000_0000 <= n < 0x8000_0000_0000_0000
    case Double(n) => 0 <= n < 0x1_0000_0000_0000_0000
    case Literal(n) => 0 <= n < 0x1_0000_0000_0000_0000
    case _ => true
  }

  /** How the stream prints numbers, doubles and literals; a character prints itself. */
  type Printer = Arg -> string

  function Printed(pr: Printer, a: Arg): string {
    match a
    case Char(c) => [c]
    case Text(s) => s
    case NullText => []
    case _ => pr(a)
  }

  function PrintedAll(pr: Printer, args: seq<Arg>): string {
    var n := |args|;
    if n == 0 then [] else PrintedAll(pr, args[..n - 1]) + Printed(pr, args[n - 1])
  }

  // ---- bytes

  function Pow256(n: nat): (r: nat)
    ensures r > 0
  {
    if n == 0 then 1 else 0x100 * Pow256(n - 1)
  }

  /** The n low bytes of a number, lowest first. */
  function ToBytes(v: nat, n: nat): (r: string)
    ensures |r| == n
  {
    if n == 0 then [] else [(v % 0x100) as char] + ToBytes(v / 0x100, n - 1)
  }

  function FromBytes(b: string): nat {
    if b == [] then 0 else b[0] as nat + 0x100 * FromBytes(b[1..])
  }

  lemma {:induction false} BytesBack(v: nat, n: nat)
    requires v < Pow256(n)
    ensures FromBytes(ToBytes(v, n)) == v
  {
    if n > 0 {
      BytesBack(v / 0x100, n - 1);
      assert ToBytes(v, n)[1..] == ToBytes(v / 0x100, n - 1);
    }
  }

  // ---- the encoding

  /** A signed value in two's complement. */
  function Wrap(n: int, modulus: nat): nat
    requires 0 <= n + modulus
  {
    if n < 0 then n + modulus else n
  }

  function Unwrap(n: nat, modulus: nat): int {
    if n < modulus / 2 then n else n - modulus
  }

  /** The size of the value behind a tag. */
  function SizeOf(tag: nat): nat {
    match tag
    case 0 => 1
    case 1 => 4
    case 3 => 4
    case _ => 8
  }

  function Tag(a: Arg): nat {
    match a
    case Char(_) => 0
    case Uint32(_) => 1
    case Uint64(_) => 2
    case Int32(_) => 3
    case Int64(_) => 4
    case Double(_) => 5
    case Literal(_) => 6
    case Text(_) => 7
    case NullText => 7
  }

  function Bits(a: Arg): nat
    requires InRange(a)
  {
    match a
    case Char(c) => c as nat
    case Uint32(n) => n
    case Uint64(n) => n
    case Int32(n) => Wrap(n, 0x1_0000_0000)
    case Int64(n) => Wrap(n, 0x1_0000_0000_0000_0000)
    case Double(n) => n
    case Literal(n) => n
    case _ => 0
  }

  /** What one argument adds to the buffer; a null or empty string adds nothing. */
  function Record(a: Arg): string
    requires InRange(a)
  {
    match a
    case NullText => []
    case Text(s) => if s == [] then [] else [TEXT_TAG] + s + [NUL]
    case _ => [Tag(a) as char] + ToBytes(Bits(a), SizeOf(Tag(a)))
  }

  predicate AllInRange(args: seq<Arg>) {
    forall i :: 0 <= i < |args| ==> InRange(args[i])
  }

  function Records(args: seq<Arg>): string
    requires AllInRange(args)
  {
    var n := |args|;
    if n == 0 then [] else Records(args[..n - 1]) + Record(args[n - 1])
  }

  // ---- the decoder

  /** Everything printed up to the end; stopped at a tag it does not know; or read past the end. */
  datatype Outcome = Done(text: string) | UnknownTag(text: string) | Overrun

  function Prepend(text: string, o: Outcome): Outcome {
    match o
    case Done(t) => Done(text + t)
    case UnknownTag(t) => UnknownTag(text + t)
    case Overrun => Overrun
  }

  /** The scalar behind a tag. */
  function ScalarOf(tag: nat, b: string): Arg
    requires tag < 7 && |b| == SizeOf(tag)
  {
    match tag
    case 0 => Char(b[0])
    case 1 => Uint32(FromBytes(b))
    case 2 => Uint64(FromBytes(b))
    case 3 => Int32(Unwrap(FromBytes(b), 0x1_0000_0000))
    case 4 => Int64(Unwrap(FromBytes(b), 0x1_0000_0000_0000_0000))
    case 5 => Double(FromBytes(b))
    case _ => Literal(FromBytes(b))
  }

  /** Reads records from position i to the end, printing each. */
  function Decode(pr: Printer, b: string, i: nat): Outcome
    requires i <= |b|
    decreases |b| - i
  {
    if i == |b| then Done([])
    else if b[i] < TEXT_TAG then
      var tag := b[i] as nat;
      var j := i + 1 + SizeOf(tag);
      if |b| < j then Overrun
      else Prepend(Printed(pr, ScalarOf(tag, b[i + 1..j])), Decode(pr, b, j))
    else if b[i] == TEXT_TAG then
      var j := Find(b, NUL, i + 1);
      if j == |b| then Overrun
      else Prepend(b[i + 1..j], Decode(pr, b, j + 1))
    else UnknownTag([])
  }

  /** Prints characters up to the first NUL; `next` is where that NUL is, or the end of the bytes. */
  method StringifyText(b: string, start: nat) returns (text: string, next: nat)
    requires start <= |b|
    ensures next == Find(b, NUL, start) && text == b[start..next]
  {
    next, text := start, [];
    while next < |b| && b[next] != NUL
      invariant start <= next <= |b| && text == b[start..next]
      invariant Find(b, NUL, start) == Find(b, NUL, next)
    {
      text := text + [b[next]];
      next := next + 1;
    }
  }

  /** Reads records from a position up to the end of the used bytes, printing each. */
  method StringifyFrom(pr: Printer, b: string, start: nat) returns (o: Outcome)
    requires start <= |b|
    ensures o == Decode(pr, b, start)
    decreases |b| - start
  {
    if start == |b| {
      return Done([]);
    }
    if b[start] < TEXT_TAG {
      var tag := b[start] as nat;
      var next := start + 1 + SizeOf(tag);
      if |b| < next {
        return Overrun;
      }
      var rest := StringifyFrom(pr, b, next);
      o := Prepend(Printed(pr, ScalarOf(tag, b[start + 1..next])), rest);
    } else if b[start] == TEXT_TAG {
      var text, next := StringifyText(b, start + 1);
      if next == |b| {
        return Overrun;
      }
      var rest := StringifyFrom(pr, b, next + 1);
      o := Prepend(text, rest);
    } else {
      o := UnknownTag([]);
    }
  }

  lemma Powers()
    ensures Pow256(1) == 0x100 && Pow256(4) == 0x1_0000_0000 && Pow256(8) == 0x1_0000_0000_0000_0000
  {
    assert Pow256(2) == 0x1_0000 && Pow256(3) == 0x100_0000 && Pow256(4) == 0x1_0000_0000;
    assert Pow256(5) == 0x100_0000_0000 && Pow256(6) == 0x1_0000_0000_0000 && Pow256(7) == 0x100_0000_0000_0000;
  }

  /** A signed value survives two's complement. */
  lemma SignedBits(a: Arg)
    requires InRange(a) && (a.Int32? || a.Int64?)
    ensures Bits(a) < Pow256(SizeOf(Tag(a)))
    ensures a.Int32? ==> Unwrap(Bits(a), 0x1_0000_0000) == a.n
    ensures a.Int64? ==> Unwrap(Bits(a), 0x1_0000_0000_0000_0000) == a.n
  {
    Powers();
  }

  lemma UnsignedBits(a: Arg)
    requires InRange(a) && !a.Int32? && !a.Int64?
    ensures Bits(a) < Pow256(SizeOf(Tag(a)))
  {
    Powers();
  }

  /** A scalar's bytes give the scalar back. */
  lemma ScalarBack(a: Arg)
    requires InRange(a) && !a.Text? && !a.NullText?
    ensures ScalarOf(Tag(a), ToBytes(Bits(a), SizeOf(Tag(a)))) == a
  {
    if a.Int32? || a.Int64? {
      SignedBits(a);
    } else {
      UnsignedBits(a);
    }
    BytesBack(Bits(a), SizeOf(Tag(a)));
    if a.Char? {
      assert ToBytes(Bits(a), 1)[0] == a.c;
    }
  }

  /** Strings must not contain a NUL. */
  predicate Plain(a: Arg) {
    a.Text? ==> NUL !in a.s
  }

  predicate AllPlain(args: seq<Arg>) {
    forall i :: 0 <= i < |args| ==> Plain(args[i])
  }

  /** The decoder leaves a string's record exactly at its end if and only if the string has no NUL. */
  lemma TextEnds(b: string, i: nat, j: nat)
    requires i <= j < |b| && b[j] == NUL
    ensures Find(b, NUL, i) == j <==> NUL !in b[i..j]
  {
    var k := Find(b, NUL, i);
    if k < j {
      assert b[i..j][k - i] == NUL;
    }
  }

  lemma ScalarDecoded(pr: Printer, b: string, i: nat, a: Arg)
    requires InRange(a) && !a.Text? && !a.NullText? && At(b, i, Record(a))
    ensures Decode(pr, b, i) == Prepend(Printed(pr, a), Decode(pr, b, i + |Record(a)|))
  {
    var value := ToBytes(Bits(a), SizeOf(Tag(a)));
    AtSplit(b, i, [Tag(a) as char], value);
    assert b[i] == [Tag(a) as char][0];
    assert b[i + 1..i + 1 + |value|] == value;
    ScalarBack(a);
  }

  lemma TextDecoded(pr: Printer, b: string, i: nat, s: string, record: string)
    requires NUL !in s && record == [TEXT_TAG] + s + [NUL] && At(b, i, record)
    ensures Decode(pr, b, i) == Prepend(s, Decode(pr, b, i + |record|))
  {
    var j := i + |s| + 1;
    AtSplit(b, i, [TEXT_TAG] + s, [NUL]);
    AtSplit(b, i, [TEXT_TAG], s);
    assert b[i] == [TEXT_TAG][0] && b[j] == [NUL][0];
    assert b[i + 1..j] == s;
    TextEnds(b, i + 1, j);
  }

  /** Wherever the decoder meets these bytes it prints this text and goes on right behind them. */
  ghost predicate Decodes(pr: Printer, bytes: string, text: string) {
    forall b: string, i: nat | At(b, i, bytes) :: Decode(pr, b, i) == Prepend(text, Decode(pr, b, i + |bytes|))
  }

  lemma PrependNothing(o: Outcome)
    ensures Prepend("", o) == o
  {
  }

  lemma PrependTwice(x: string, y: string, o: Outcome)
    ensures Prepend(x, Prepend(y, o)) == Prepend(x + y, o)
  {
    match o
    case Done(t) => assert x + (y + t) == x + y + t;
    case UnknownTag(t) => assert x + (y + t) == x + y + t;
    case Overrun =>
  }

  lemma DecodesNothing(pr: Printer)
    ensures Decodes(pr, "", "")
  {
    forall b: string, i: nat | At(b, i, "")
      ensures Decode(pr, b, i) == Prepend("", Decode(pr, b, i))
    {
      PrependNothing(Decode(pr, b, i));
    }
  }

  lemma DecodeBoth(pr: Printer, x: string, s: string, y: string, t: string, b: string, i: nat)
    requires Decodes(pr, x, s) && Decodes(pr, y, t) && At(b, i, x) && At(b, i + |x|, y)
    ensures Decode(pr, b, i) == Prepend(s + t, Decode(pr, b, i + |x| + |y|))
  {
    PrependTwice(s, t, Decode(pr, b, i + |x| + |y|));
  }

  lemma DecodesBoth(pr: Printer, x: string, s: string, y: string, t: string)
    requires Decodes(pr, x, s) && Decodes(pr, y, t)
    ensures Decodes(pr, x + y, s + t)
  {
    forall b: string, i: nat | At(b, i, x + y)
      ensures Decode(pr, b, i) == Prepend(s + t, Decode(pr, b, i + |x + y|))
    {
      AtSplit(b, i, x, y);
      DecodeBoth(pr, x, s, y, t, b, i);
    }
  }

  lemma ScalarDecodes(pr: Printer, a: Arg)
    requires InRange(a) && !a.Text? && !a.NullText?
    ensures Decodes(pr, Record(a), Printed(pr, a))
  {
    forall b: string, i: nat | At(b, i, Record(a))
      ensures Decode(pr, b, i) == Prepend(Printed(pr, a), Decode(pr, b, i + |Record(a)|))
    {
      ScalarDecoded(pr, b, i, a);
    }
  }

  lemma TextDecodes(pr: Printer, s: string, record: string)
    requires NUL !in s && record == [TEXT_TAG] + s + [NUL]
    ensures Decodes(pr, record, s)
  {
    forall b: string, i: nat | At(b, i, record)
      ensures Decode(pr, b, i) == Prepend(s, Decode(pr, b, i + |record|))
    {
      TextDecoded(pr, b, i, s, record);
    }
  }

  lemma RecordBack(pr: Printer, a: Arg)
    requires InRange(a) && Plain(a)
    ensures Decodes(pr, Record(a), Printed(pr, a))
  {
    match a
    case NullText => DecodesNothing(pr);
    case Text(s) =>
      if s == "" {
        DecodesNothing(pr);
      } else {
        TextDecodes(pr, s, Record(a));
      }
    case _ => ScalarDecodes(pr, a);
  }

  /** The decoder prints the arguments, one after the other, and stops exactly behind the last. */
  lemma {:induction false} RoundTrip(pr: Printer, args: seq<Arg>)
    requires AllInRange(args) && AllPlain(args)
    ensures Decodes(pr, Records(args), PrintedAll(pr, args))
    decreases |args|
  {
    var n := |args|;
    if n == 0 {
      DecodesNothing(pr);
    } else {
      var front, last := args[..n - 1], args[n - 1];
      RoundTrip(pr, front);
      RecordBack(pr, last);
      DecodesBoth(pr, Records(front), PrintedAll(pr, front), Record(last), Printed(pr, last));
    }
  }

  // ---- the whole line

  const LEVELS := ["INFO", "WARN", "CRIT"]

  /** Levels are numbered from 0; any other number prints as XXXX. */
  function LevelName(level: char): string {
    if level as nat < |LEVELS| then LEVELS[level as nat] else "XXXX"
  }

  /** `to_string`, case by case. */
  method ToString(level: char) returns (name: string)
    ensures name == LevelName(level)
  {
    match level as nat
    case 0 => name := "INFO";
    case 1 => name := "WARN";
    case 2 => name := "CRIT";
    case _ => name := "XXXX";
  }

  const HEADER_SIZE := 9

  /** What the constructor writes: the time stamp, eight bytes, and the level. */
  function Header(time: nat, level: char): (r: string)
    ensures |r| == HEADER_SIZE
  {
    ToBytes(time, 8) + [level]
  }

  function Append(o: Outcome, text: string): Outcome {
    match o
    case Done(t) => Done(t + text)
    case UnknownTag(t) => UnknownTag(t + text)
    case Overrun => Overrun
  }

  /** The printed line: date, bracketed level, arguments, end of line. */
  function PrintLine(pr: Printer, date: nat -> string, b: string): Outcome
    requires |b| >= HEADER_SIZE
  {
    Append(
      Prepend(date(FromBytes(b[..8])) + "[" + LevelName(b[8]) + "]", Decode(pr, b, HEADER_SIZE)),
      "\n")
  }

  /** The buffer of a line prints its own date, level and arguments. */
  lemma LineRoundTrip(pr: Printer, date: nat -> string, time: nat, level: char, args: seq<Arg>)
    requires time < 0x1_0000_0000_0000_0000
    requires AllInRange(args) && AllPlain(args)
    ensures PrintLine(pr, date, Header(time, level) + Records(args))
         == Done(date(time) + "[" + LevelName(level) + "]" + PrintedAll(pr, args) + "\n")
  {
    var b := Header(time, level) + Records(args);
    assert b[..8] == ToBytes(time, 8);
    Powers();
    BytesBack(time, 8);
    RoundTrip(pr, args);
    assert At(b, HEADER_SIZE, Records(args)) && Decode(pr, b, |b|) == Done("");
  }

  lemma RecordsSnoc(args: seq<Arg>, a: Arg)
    requires AllInRange(args) && InRange(a)
    ensures AllInRange(args + [a]) && Records(args + [a]) == Records(args) + Record(a)
  {
    assert (args + [a])[..|args|] == args;
  }

  /** An argument takes its tag and the bytes of its type; a string its tag, its characters and a NUL. */
  lemma RecordSize(a: Arg)
    requires InRange(a)
    ensures a.Char? ==> |Record(a)| == 2
    ensures a.Uint32? || a.Int32? ==> |Record(a)| == 5
    ensures a.Uint64? || a.Int64? || a.Double? || a.Literal? ==> |Record(a)| == 9
    ensures a.Text? && a.s != "" ==> |Record(a)| == |a.s| + 2
    ensures a == Text("") || a.NullText? ==> |Record(a)| == 0
  {
  }

  // ---- what is printed

  /** Nothing comes between the texts of two arguments. */
  lemma {:induction false} PrintedConcat(pr: Printer, xs: seq<Arg>, ys: seq<Arg>)
    ensures PrintedAll(pr, xs + ys) == PrintedAll(pr, xs) + PrintedAll(pr, ys)
    decreases |ys|
  {
    var n := |ys|;
    if n == 0 {
      assert xs + ys == xs;
    } else {
      var front, last := ys[..n - 1], ys[n - 1];
      PrintedConcat(pr, xs, front);
      assert (xs + ys)[..|xs + ys| - 1] == xs + front && (xs + ys)[|xs + ys| - 1] == last;
      Regroup(PrintedAll(pr, xs), PrintedAll(pr, front), Printed(pr, last));
    }
  }

  /** The characters of a string as arguments of their own. */
  function Chars(s: string): seq<Arg> {
    seq(|s|, i requires 0 <= i < |s| => Char(s[i]))
  }

  lemma CharsSnoc(s: string, c: char)
    ensures Chars(s + [c]) == Chars(s) + [Char(c)]
  {
  }

  /** A string pushed character by character shows itself. */
  lemma {:induction false} SpelledOut(pr: Printer, s: string)
    ensures PrintedAll(pr, Chars(s)) == s
    decreases |s|
  {
    if s != "" {
      var front, c := s[..|s| - 1], s[|s| - 1];
      SpelledOut(pr, front);
      assert s == front + [c];
      CharsSnoc(front, c);
      assert (Chars(front) + [Char(c)])[..|front|] == Chars(front);
    }
  }

  /** So does one pushed whole. */
  lemma ShownWhole(pr: Printer, s: string)
    ensures PrintedAll(pr, [Text(s)]) == PrintedAll(pr, Chars(s)) == s
  {
    SpelledOut(pr, s);
    assert [Text(s)][..0] == [];
  }

  /** Everything that is not a character or a string shows as the stream prints it, at its place. */
  lemma ShownInPlace(pr: Printer, before: seq<Arg>, a: Arg, behind: seq<Arg>)
    requires !a.Char? && !a.Text? && !a.NullText?
    ensures PrintedAll(pr, before + [a] + behind) == PrintedAll(pr, before) + pr(a) + PrintedAll(pr, behind)
  {
    PrintedConcat(pr, before + [a], behind);
    assert (before + [a])[..|before|] == before;
  }
}
