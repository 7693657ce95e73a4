/**
 redis/conn.go: printing commands and reading replies in the Redis serialization protocol (RESP2).
 `Encode` is the protocol's own form of a reply, per the specification's sections "Simple strings",
 "Errors", "Integers", "Bulk strings" and "Arrays".
 */
module Resp {
  import opened Seqs
  import opened Bytes
  import opened Decimal

  const CRLF: bytes := [13, 10]
  const STATUS: byte := 43   // '+'
  const FAILURE: byte := 45  // '-'
  const INTEGER: byte := 58  // ':'
  const BULK: byte := 36     // '$'
  const ARRAY: byte := 42    // '*'

  /** The size of the bufio.Reader: no line may be longer. */
  const BUFFER := 4096

  /** A reply as it is on the wire. `Nil(true)` is the null array, `Nil(false)` the null bulk
      string; the client returns nil for both. */
  datatype Reply = Status(s: bytes) | Failure(s: bytes) | Integer(n: int) | Bulk(p: bytes) | Nil(isArray: bool)
                 | Array(items: seq<Reply>)

  datatype Problem = Io | LongLine | BadTerminator | ShortLine | BadLength | BadInteger | BadBulk | Unexpected

  datatype Result<+T> = Ok(value: T, rest: bytes) | Err(problem: Problem)

  // ---------------------------------------------------------------- The protocol

  function Encode(r: Reply): bytes {
    match r
    case Status(s) => [STATUS] + s + CRLF
    case Failure(s) => [FAILURE] + s + CRLF
    case Integer(n) => [INTEGER] + Text(n) + CRLF
    case Bulk(p) => [BULK] + Digits(|p|) + CRLF + p + CRLF
    case Nil(isArray) => [if isArray then ARRAY else BULK] + Text(-1) + CRLF
    case Array(items) => [ARRAY] + Digits(|items|) + CRLF + EncodeAll(items)
  }

  function EncodeAll(items: seq<Reply>): bytes {
    if items == [] then [] else Encode(items[0]) + EncodeAll(items[1..])
  }

  /** What a client makes of a reply: nil is nil. */
  function Seen(r: Reply): Reply {
    match r
    case Nil(_) => Nil(false)
    case Array(items) => Array(SeenAll(items))
    case _ => r
  }

  function SeenAll(items: seq<Reply>): (out: seq<Reply>)
    ensures |out| == |items|
  {
    if items == [] then [] else [Seen(items[0])] + SeenAll(items[1..])
  }

  /** Replies the protocol can carry to this client: simple strings and errors without LF whose
      lines fit the buffer, int64 integers, and lengths that are ints. */
  predicate Carried(r: Reply) {
    match r
    case Status(s) => LF !in s && |s| + 3 <= BUFFER
    case Failure(s) => LF !in s && |s| + 3 <= BUFFER
    case Integer(n) => IsInt64(n)
    case Bulk(p) => |p| < TWO63
    case Nil(_) => true
    case Array(items) => |items| < TWO63 && AllCarried(items)
  }

  predicate AllCarried(items: seq<Reply>) {
    items == [] || (Carried(items[0]) && AllCarried(items[1..]))
  }

  // ---------------------------------------------------------------- Reading, as a function

  /** `readLine`: bufio's ReadSlice up to LF, and the CR before it. */
  function Line(input: bytes): (r: Result<bytes>)
    ensures r.Ok? ==> |r.rest| + |r.value| + 2 == |input|
  {
    var i := IndexOf(input, LF);
    if i >= BUFFER || (i == |input| && |input| >= BUFFER) then Err(LongLine)
    else if i == |input| then Err(Io)
    else if i < 1 || input[i - 1] != CR then Err(BadTerminator)
    else Ok(input[..i - 1], input[i + 1..])
  }

  /** The accumulating loop of `parseLen` and `parseInt`, in int64 arithmetic. */
  function Accumulate(p: bytes): int
    requires AllDigits(p)
  {
    if p == [] then 0 else Shift10(Accumulate(p[..|p| - 1]), (p[|p| - 1] - ZERO) as int)
  }

  datatype Parsed = Number(n: int) | Malformed

  function LenOf(p: bytes): Parsed {
    if p == [] then Malformed
    else if p == [MINUS, 49] then Number(-1)
    else if AllDigits(p) then Number(Accumulate(p))
    else Malformed
  }

  function IntOf(p: bytes): Parsed {
    if p == [] then Malformed
    else if p[0] == MINUS then
      if |p| > 1 && AllDigits(p[1..]) then Number(Wrap(-Accumulate(p[1..]))) else Malformed
    else if AllDigits(p) then Number(Accumulate(p))
    else Malformed
  }

  function BulkOf(n: nat, input: bytes): (r: Result<Reply>)
    ensures r.Ok? ==> |r.rest| < |input|
  {
    if |input| < n then Err(Io)
    else
      match Line(input[n..])
      case Err(e) => Err(e)
      case Ok(line, rest) => if line != [] then Err(BadBulk) else Ok(Bulk(input[..n]), rest)
  }

  function Read(input: bytes): (r: Result<Reply>)
    ensures r.Ok? ==> |r.rest| < |input|
    decreases |input|, 0
  {
    match Line(input)
    case Err(e) => Err(e)
    case Ok(line, rest) =>
      if line == [] then Err(ShortLine)
      else if line[0] == STATUS then Ok(Status(line[1..]), rest)
      else if line[0] == FAILURE then Ok(Failure(line[1..]), rest)
      else if line[0] == INTEGER then
        match IntOf(line[1..])
        case Malformed => Err(BadInteger)
        case Number(n) => Ok(Integer(n), rest)
      else if line[0] == BULK then
        match LenOf(line[1..])
        case Malformed => Err(BadLength)
        case Number(n) => if n < 0 then Ok(Nil(false), rest) else BulkOf(n, rest)
      else if line[0] == ARRAY then
        match LenOf(line[1..])
        case Malformed => Err(BadLength)
        case Number(n) =>
          if n < 0 then Ok(Nil(false), rest)
          else
            match ReadAll(n, rest)
            case Err(e) => Err(e)
            case Ok(items, rest') => Ok(Array(items), rest')
      else Err(Unexpected)
  }

  function ReadAll(n: nat, input: bytes): (r: Result<seq<Reply>>)
    ensures r.Ok? ==> |r.rest| <= |input| && |r.value| == n
    decreases |input|, 1
  {
    if n == 0 then Ok([], input)
    else
      match Read(input)
      case Err(e) => Err(e)
      case Ok(item, rest) =>
        match ReadAll(n - 1, rest)
        case Err(e) => Err(e)
        case Ok(items, rest') => Ok([item] + items, rest')
  }

  // ---------------------------------------------------------------- Numbers

  lemma AccumulateSnoc(p: bytes, q: bytes, d: int)
    requires p != [] && AllDigits(p) && q == p[..|p| - 1] && d == (p[|p| - 1] - ZERO) as int
    ensures AllDigits(q) && Accumulate(p) == Shift10(Accumulate(q), d) && Value(p) == 10 * Value(q) + d
  {
  }

  lemma {:induction false} AccumulateWraps(p: bytes)
    requires AllDigits(p)
    ensures Accumulate(p) == Wrap(Value(p))
  {
    if p != [] {
      var q, d := p[..|p| - 1], (p[|p| - 1] - ZERO) as int;
      AccumulateWraps(q);
      AccumulateSnoc(p, q, d);
      ShiftWraps(Value(q), d);
    }
  }

  /** Every length is read back; a length that does not fit an int is not. */
  lemma LenRoundTrip(n: nat)
    ensures LenOf(Digits(n)) == Number(n) <==> n < TWO63
  {
    DigitsValue(n);
    AccumulateWraps(Digits(n));
    WrapOf(n);
  }

  /** parseInt inverts the decimal text of exactly the int64s, the minimum value included: its magnitude
      wraps to it, and so does the negation. */
  lemma IntRoundTrip(n: int)
    ensures IntOf(Text(n)) == Number(n) <==> IsInt64(n)
  {
    var m := if n < 0 then -n else n;
    DigitsValue(m);
    AccumulateWraps(Digits(m));
    if n < 0 {
      assert Text(n)[1..] == Digits(m);
      NegateWraps(m);
    }
    WrapOf(n);
  }

  // ---------------------------------------------------------------- Lines

  lemma LineOf(text: bytes, rest: bytes)
    requires LF !in text && |text| + 2 <= BUFFER
    ensures Line(text + CRLF + rest) == Ok(text, rest)
  {
    var input := text + CRLF + rest;
    assert input == (text + [CR]) + [LF] + rest;
    IndexOfFirst(text + [CR], LF, rest);
    assert input[..|text|] == text && input[|text| + 2..] == rest;
  }

  /** Where no LF comes within the buffer. */
  lemma NoLine(input: bytes)
    requires LF !in (if |input| >= BUFFER then input[..BUFFER] else input)
    ensures Line(input) == Err(if |input| >= BUFFER then LongLine else Io)
  {
    IndexOfIs(input, LF);
  }

  /** The slice up to the first LF. */
  lemma SliceIsFirst(input: bytes, p: bytes, rest: bytes)
    requires input == p + rest && |p| >= 1 && LF !in p[..|p| - 1] && p[|p| - 1] == LF
    ensures IndexOf(input, LF) == |p| - 1
  {
    IndexOfFirst(p[..|p| - 1], LF, rest);
    assert p[..|p| - 1] + [LF] + rest == input;
  }

  /** A line is read exactly where the input starts with text without LF and CRLF, together no longer
      than the buffer; what is read is that text, and what is left is what follows. */
  lemma LineIff(input: bytes, text: bytes, rest: bytes)
    ensures Line(input) == Ok(text, rest) <==> input == text + CRLF + rest && LF !in text && |text| + 2 <= BUFFER
  {
    if input == text + CRLF + rest && LF !in text && |text| + 2 <= BUFFER { LineOf(text, rest); }
    if Line(input) == Ok(text, rest) {
      LineIsShort(input);
      IndexOfIs(input, LF);
      var i := IndexOf(input, LF);
      assert input == input[..i - 1] + [input[i - 1]] + [input[i]] + input[i + 1..];
    }
  }

  lemma DigitsLineFree(n: int)
    requires IsInt64(n)
    ensures LF !in Text(n) && 1 <= |Text(n)| <= 20
  {
    var m := if n < 0 then -n else n;
    DigitsValue(m);
    Int64Digits(m);
  }

  // ---------------------------------------------------------------- Round trip

  lemma ReadHeader(kind: byte, text: bytes, rest: bytes)
    requires LF != kind && LF !in text && |text| + 3 <= BUFFER
    ensures Line([kind] + text + CRLF + rest) == Ok([kind] + text, rest)
    ensures ([kind] + text)[1..] == text
  {
    LineOf([kind] + text, rest);
  }

  lemma BulkRoundTrip(p: bytes, rest: bytes)
    requires |p| < TWO63
    ensures Read(Encode(Bulk(p)) + rest) == Ok(Bulk(p), rest)
  {
    var after := p + CRLF + rest;
    DigitsLineFree(|p|);
    ReadHeader(BULK, Digits(|p|), after);
    assert Encode(Bulk(p)) + rest == [BULK] + Digits(|p|) + CRLF + after;
    LenRoundTrip(|p|);
    assert after[..|p|] == p && after[|p|..] == [] + CRLF + rest;
    LineOf([], rest);
  }

  lemma LeafRoundTrip(r: Reply, rest: bytes)
    requires Carried(r) && !r.Bulk? && !r.Array?
    ensures Read(Encode(r) + rest) == Ok(Seen(r), rest)
  {
    match r
    case Status(s) => ReadHeader(STATUS, s, rest);
    case Failure(s) => ReadHeader(FAILURE, s, rest);
    case Integer(n) =>
      DigitsLineFree(n);
      ReadHeader(INTEGER, Text(n), rest);
      IntRoundTrip(n);
    case Nil(isArray) =>
      DigitsLineFree(-1);
      ReadHeader(if isArray then ARRAY else BULK, Text(-1), rest);
      assert Text(-1) == [MINUS, 49];
  }

  /** readReply on the encoding of any reply tree, followed by anything, returns the tree and
      leaves exactly what followed. */
  lemma {:induction false} RoundTrip(r: Reply, rest: bytes)
    requires Carried(r)
    ensures Read(Encode(r) + rest) == Ok(Seen(r), rest)
    decreases r, 1
  {
    if r.Bulk? {
      BulkRoundTrip(r.p, rest);
    } else if r.Array? {
      var n, after := |r.items|, EncodeAll(r.items) + rest;
      DigitsLineFree(n);
      ReadHeader(ARRAY, Digits(n), after);
      assert Encode(r) + rest == [ARRAY] + Digits(n) + CRLF + after;
      LenRoundTrip(n);
      RoundTripAll(r.items, rest);
    } else {
      LeafRoundTrip(r, rest);
    }
  }

  lemma {:induction false} RoundTripAll(items: seq<Reply>, rest: bytes)
    requires AllCarried(items)
    ensures ReadAll(|items|, EncodeAll(items) + rest) == Ok(SeenAll(items), rest)
    decreases items, 0
  {
    if items == [] {
      assert [] + rest == rest;
    } else {
      var after := EncodeAll(items[1..]) + rest;
      assert EncodeAll(items) + rest == Encode(items[0]) + after;
      RoundTrip(items[0], after);
      RoundTripAll(items[1..], rest);
    }
  }

  // ---------------------------------------------------------------- What is no reply

  /** Each kind of malformed reply has its own error. */
  lemma WrongReplies(text: bytes, rest: bytes)
    requires LF !in text && |text| + 2 <= BUFFER
    ensures var r := Read(text + CRLF + rest);
      && (text == [] ==> r == Err(ShortLine))
      && (text != [] && text[0] !in {STATUS, FAILURE, INTEGER, BULK, ARRAY} ==> r == Err(Unexpected))
      && (text != [] && text[0] == INTEGER && !IsNumeral(text[1..]) ==> r == Err(BadInteger))
      && (text != [] && text[0] in {BULK, ARRAY} && text[1..] != [MINUS, 49] && !IsLength(text[1..]) ==>
            r == Err(BadLength))
  {
    LineOf(text, rest);
  }

  predicate IsLength(p: bytes) { p != [] && AllDigits(p) }

  predicate IsNumeral(p: bytes) { IsLength(p) || (p != [] && p[0] == MINUS && IsLength(p[1..])) }

  /** A bulk string that is cut short, and one without CRLF after it. */
  lemma WrongBulks(n: nat, rest: bytes)
    requires n < TWO63
    ensures var r := Read([BULK] + Digits(n) + CRLF + rest);
      && (|rest| < n ==> r == Err(Io))
      && (forall line, after ::
            n <= |rest| && rest[n..] == line + CRLF + after && LF !in line && |line| + 2 <= BUFFER && line != [] ==>
              r == Err(BadBulk))
  {
    DigitsLineFree(n);
    ReadHeader(BULK, Digits(n), rest);
    LenRoundTrip(n);
    forall line, after |
      n <= |rest| && rest[n..] == line + CRLF + after && LF !in line && |line| + 2 <= BUFFER && line != []
      ensures Line(rest[n..]) == Ok(line, after)
    {
      LineOf(line, after);
    }
  }

  /** A line that ends in LF alone. */
  lemma NoCrBeforeLf(text: bytes, rest: bytes)
    requires LF !in text && |text| + 1 <= BUFFER && (text != [] ==> text[|text| - 1] != CR)
    ensures Line(text + [LF] + rest) == Err(BadTerminator) && Read(text + [LF] + rest) == Err(BadTerminator)
  {
    IndexOfFirst(text, LF, rest);
  }

  /** Apart from null arrays, a reply is seen as it is. */
  lemma {:induction false} SeenAsIs(r: Reply)
    ensures NoNullArray(r) ==> Seen(r) == r
    decreases r, 1
  {
    if r.Array? { SeenAllAsIs(r.items); }
  }

  lemma {:induction false} SeenAllAsIs(items: seq<Reply>)
    ensures NoNullArrays(items) ==> SeenAll(items) == items
    decreases items, 0
  {
    if items != [] {
      SeenAsIs(items[0]);
      SeenAllAsIs(items[1..]);
    }
  }

  predicate NoNullArray(r: Reply) {
    match r
    case Nil(isArray) => !isArray
    case Array(items) => NoNullArrays(items)
    case _ => true
  }

  predicate NoNullArrays(items: seq<Reply>) {
    items == [] || (NoNullArray(items[0]) && NoNullArrays(items[1..]))
  }

  // ---------------------------------------------------------------- Exactly what is carried

  lemma LineIsShort(input: bytes)
    requires Line(input).Ok?
    ensures LF !in Line(input).value && |Line(input).value| + 2 <= BUFFER
  {
    var i := IndexOf(input, LF);
    IndexOfIs(input, LF);
    assert input[..i - 1] == input[..i][..i - 1];
  }

  lemma LenIsInt(p: bytes)
    ensures LenOf(p).Number? ==> LenOf(p).n < TWO63
    ensures IntOf(p).Number? ==> IsInt64(IntOf(p).n)
  {
    if p != [] && AllDigits(p) {
      AccumulateWraps(p);
      WrapOf(Value(p));
    }
    if |p| > 1 && p[0] == MINUS && AllDigits(p[1..]) { WrapOf(-Accumulate(p[1..])); }
  }

  /** readReply returns nothing but carried replies. */
  lemma {:induction false} ReadIsCarried(input: bytes)
    requires Read(input).Ok?
    ensures Carried(Read(input).value)
    decreases |input|, 0
  {
    var l := Line(input);
    LineIsShort(input);
    var tail := l.value[1..];
    assert forall b :: b in tail ==> b in l.value;
    LenIsInt(tail);
    if l.value[0] == ARRAY && LenOf(tail).n >= 0 { ReadAllIsCarried(LenOf(tail).n, l.rest); }
  }

  lemma {:induction false} ReadAllIsCarried(n: nat, input: bytes)
    requires ReadAll(n, input).Ok?
    ensures AllCarried(ReadAll(n, input).value)
    decreases |input|, 1
  {
    if n > 0 {
      ReadIsCarried(input);
      var first := Read(input);
      ReadAllIsCarried(n - 1, first.rest);
      ConsCarried(first.value, ReadAll(n - 1, first.rest).value);
    }
  }

  lemma ConsCarried(r: Reply, items: seq<Reply>)
    requires Carried(r) && AllCarried(items)
    ensures AllCarried([r] + items)
  {
    assert ([r] + items)[1..] == items;
  }

  lemma {:induction false} SeenCarried(r: Reply)
    ensures Carried(Seen(r)) <==> Carried(r)
    decreases r, 1
  {
    if r.Array? { SeenAllCarried(r.items); }
  }

  lemma {:induction false} SeenAllCarried(items: seq<Reply>)
    ensures AllCarried(SeenAll(items)) <==> AllCarried(items)
    decreases items, 0
  {
    if items != [] {
      SeenCarried(items[0]);
      SeenAllCarried(items[1..]);
      assert SeenAll(items)[1..] == SeenAll(items[1..]);
    }
  }

  /** The round trip holds for exactly the carried replies. */
  lemma RoundTripIff(r: Reply, rest: bytes)
    ensures Read(Encode(r) + rest) == Ok(Seen(r), rest) <==> Carried(r)
  {
    if Carried(r) {
      RoundTrip(r, rest);
    } else if Read(Encode(r) + rest) == Ok(Seen(r), rest) {
      ReadIsCarried(Encode(r) + rest);
      SeenCarried(r);
      assert false;
    }
  }

  // ---------------------------------------------------------------- Commands

  /** Command arguments; floats and the fmt.Fprint fallback are not part of this model. */
  datatype Arg = Str(s: bytes) | Raw(p: bytes) | Int(n: int) | Bool(b: bool) | NilArg

  function ArgBytes(arg: Arg): bytes {
    match arg
    case Str(s) => s
    case Raw(p) => p
    case Int(n) => Text(n)
    case Bool(b) => [if b then 49 else 48]
    case NilArg => []
  }

  /** The bytes carry the argument: text and bytes as they are, an integer as what parseInt reads as
      that integer, true and false as 1 and 0, nil as nothing. */
  predicate Carries(arg: Arg, p: bytes) {
    match arg
    case Str(s) => p == s
    case Raw(b) => p == b
    case Int(n) => IsInt64(n) ==> IntOf(p) == Number(n)
    case Bool(b) => IntOf(p) == Number(if b then 1 else 0) && |p| == 1
    case NilArg => p == []
  }

  lemma ArgIsCarried(arg: Arg)
    ensures Carries(arg, ArgBytes(arg))
  {
    match arg
    case Int(n) => if IsInt64(n) { IntRoundTrip(n); }
    case Bool(b) =>
      IntRoundTrip(if b then 1 else 0);
      assert ArgBytes(arg) == Text(if b then 1 else 0);
    case _ =>
  }

  /** Bulk strings that carry the arguments, one for each, in order. */
  predicate AllCarry(args: seq<Arg>, items: seq<Reply>) {
    |items| == |args| && forall k :: 0 <= k < |args| ==> items[k].Bulk? && Carries(args[k], items[k].p)
  }

  lemma {:induction false} BulksCarry(args: seq<Arg>)
    ensures AllCarry(args, Bulks(args))
  {
    if args != [] {
      ArgIsCarried(args[0]);
      BulksCarry(args[1..]);
      OneMoreCarries(args, Bulk(ArgBytes(args[0])), Bulks(args[1..]));
    }
  }

  lemma OneMoreCarries(args: seq<Arg>, item: Reply, items: seq<Reply>)
    requires args != [] && item.Bulk? && Carries(args[0], item.p) && AllCarry(args[1..], items)
    ensures AllCarry(args, [item] + items)
  {
    forall k | 0 <= k < |args| ensures ([item] + items)[k].Bulk? && Carries(args[k], ([item] + items)[k].p) {
      if k > 0 { assert args[k] == args[1..][k - 1] && ([item] + items)[k] == items[k - 1]; }
    }
  }

  /** What a reader makes of the bytes of a command: an array of the command and, for each argument, a
      bulk string that carries it. */
  predicate IsCommand(r: Result<Reply>, cmd: bytes, args: seq<Arg>, rest: bytes) {
    && r.Ok? && r.rest == rest && r.value.Array? && r.value.items != []
    && r.value.items[0] == Bulk(cmd) && AllCarry(args, r.value.items[1..])
  }

  function Bulks(args: seq<Arg>): (items: seq<Reply>)
    ensures |items| == |args|
  {
    if args == [] then [] else [Bulk(ArgBytes(args[0]))] + Bulks(args[1..])
  }

  /** A command is an array of bulk strings. */
  function AsReply(cmd: bytes, args: seq<Arg>): Reply { Array([Bulk(cmd)] + Bulks(args)) }

  /** The lengths of a command and its arguments are Go ints. */
  predicate IntSized(cmd: bytes, args: seq<Arg>) {
    |cmd| < TWO63 && |args| + 1 < TWO63 && forall i :: 0 <= i < |args| ==>
      |ArgBytes(args[i])| < TWO63 && (args[i].Int? ==> IsInt64(args[i].n))
  }

  lemma {:induction false} BulksCarried(args: seq<Arg>)
    requires forall i :: 0 <= i < |args| ==> |ArgBytes(args[i])| < TWO63
    ensures AllCarried(Bulks(args)) && SeenAll(Bulks(args)) == Bulks(args)
  {
    if args != [] {
      BulksCarried(args[1..]);
      assert Bulks(args)[1..] == Bulks(args[1..]);
    }
  }

  /** What writeCommand prints, a RESP reader reads back as the array of the command and the bytes
      of its arguments, each of which carries its argument, and nothing more. */
  lemma CommandIsRead(cmd: bytes, args: seq<Arg>, rest: bytes)
    requires IntSized(cmd, args)
    ensures Read(Encode(AsReply(cmd, args)) + rest) == Ok(AsReply(cmd, args), rest)
    ensures IsCommand(Read(Encode(AsReply(cmd, args)) + rest), cmd, args, rest)
  {
    BulksCarry(args);
    BulksCarried(args);
    var items := [Bulk(cmd)] + Bulks(args);
    assert items[0] == Bulk(cmd) && items[1..] == Bulks(args);
    assert SeenAll(items) == [Bulk(cmd)] + SeenAll(Bulks(args));
    RoundTrip(AsReply(cmd, args), rest);
  }

  // ---------------------------------------------------------------- The connection

  class Conn {
    var br: bytes                 // what is still to be read
    var bw: bytes                 // what has been written
    const lenScratch: array<byte> // 32 bytes

    ghost predicate Valid() { lenScratch.Length == 32 }

    constructor (input: bytes)
      ensures Valid() && fresh(lenScratch) && br == input && bw == []
    {
      br, bw := input, [];
      lenScratch := new byte[32](_ => 0);
    }

    /** `writeLen` fills its scratch buffer from the back, and never runs off its front: with at
        most 19 digits it stops at index 10 or later. */
    method WriteLen(prefix: byte, len: nat)
      requires Valid() && len < TWO63
      modifies `bw, lenScratch
      ensures bw == old(bw) + ([prefix] + Digits(len) + CRLF)
    {
      Int64Digits(len);
      lenScratch[31] := LF;
      lenScratch[30] := CR;
      var i, n := 29, len;
      ghost var tail := CRLF;
      assert lenScratch[30..] == CRLF;
      while true
        invariant 11 <= i <= 29 && |Digits(n)| + 10 <= i
        invariant lenScratch[i + 1..] == tail
        invariant Digits(n) + tail == Digits(len) + CRLF
        invariant bw == old(bw)
        decreases n
      {
        assert n >= 10 ==> Digits(n) == Digits(n / 10) + [Digit(n % 10)];
        lenScratch[i] := Digit(n % 10);
        assert lenScratch[i..] == [Digit(n % 10)] + tail;
        tail := [Digit(n % 10)] + tail;
        i := i - 1;
        if n / 10 == 0 { break; }
        assert Digits(n / 10) + tail == Digits(len) + CRLF;
        DigitsValue(n / 10);
        n := n / 10;
      }
      assert tail == Digits(len) + CRLF;
      lenScratch[i] := prefix;
      assert lenScratch[i..] == [prefix] + tail;
      assert [prefix] + tail == [prefix] + Digits(len) + CRLF;
      bw := bw + lenScratch[i..];
    }

    /** `writeString` and `writeBytes`. */
    method WriteBytes(p: bytes)
      requires Valid() && |p| < TWO63
      modifies `bw, lenScratch
      ensures bw == old(bw) + Encode(Bulk(p))
    {
      WriteLen(BULK, |p|);
      bw := bw + p;
      bw := bw + CRLF;
      assert bw == old(bw) + ([BULK] + Digits(|p|) + CRLF + p + CRLF);
    }

    /** The loop of `writeCommand` over the arguments. */
    method WriteArgs(args: seq<Arg>)
      requires Valid() && forall i :: 0 <= i < |args| ==> |ArgBytes(args[i])| < TWO63
      modifies `bw, lenScratch
      ensures bw == old(bw) + EncodeAll(Bulks(args))
    {
      var i := 0;
      while i < |args|
        invariant i <= |args| && bw == old(bw) + EncodeAll(Bulks(args[..i]))
      {
        WriteBytes(ArgBytes(args[i]));
        EncodeNext(args, i);
        Associate(old(bw), EncodeAll(Bulks(args[..i])), Encode(Bulk(ArgBytes(args[i]))));
        i := i + 1;
      }
      assert args[..i] == args;
    }

    /** `writeCommand` prints the command as an array of bulk strings, and what it has printed is read
        back as the command and its arguments. */
    method WriteCommand(cmd: bytes, args: seq<Arg>)
      requires Valid() && IntSized(cmd, args)
      modifies `bw, lenScratch
      ensures bw == old(bw) + Encode(AsReply(cmd, args))
      ensures old(bw) <= bw && IsCommand(Read(bw[|old(bw)|..]), cmd, args, [])
    {
      ghost var head, first := [ARRAY] + Digits(1 + |args|) + CRLF, Encode(Bulk(cmd));
      WriteLen(ARRAY, 1 + |args|);
      WriteBytes(cmd);
      WriteArgs(args);
      EncodeCommand(cmd, args);
      Associate(old(bw), head, first);
      Associate(old(bw), head + first, EncodeAll(Bulks(args)));
      CommandIsRead(cmd, args, []);
      assert bw[|old(bw)|..] == Encode(AsReply(cmd, args)) + [];
    }

    /** bufio's ReadSlice: up to and with the first LF, if that lies within the buffer. */
    method ReadSlice() returns (r: Result<bytes>)
      modifies `br
      ensures r.Ok? ==> |r.value| >= 1 && LF !in r.value[..|r.value| - 1] && r.value[|r.value| - 1] == LF
      ensures r.Ok? ==> old(br) == r.value + br && r.rest == br && |r.value| <= BUFFER
      ensures r.Err? ==> br == old(br) && r.problem == if |br| >= BUFFER then LongLine else Io
      ensures r.Err? ==> LF !in (if |br| >= BUFFER then br[..BUFFER] else br)
    {
      var i := 0;
      while i < |br| && i < BUFFER && br[i] != LF
        invariant i <= |br| && i <= BUFFER && LF !in br[..i]
      {
        assert br[..i + 1] == br[..i] + [br[i]];
        i := i + 1;
      }
      if i == BUFFER { return Err(LongLine); }
      if i == |br| {
        assert br[..i] == br;
        return Err(Io);
      }
      var line := br[..i + 1];
      assert br == line + br[i + 1..] && line[..i] == br[..i];
      br := br[i + 1..];
      r := Ok(line, br);
    }

    /** readLine returns the text before the first CRLF and takes both off the input, exactly when
        that line fits the buffer and has no other LF; `LineIff` says the same of `Line`. */
    method ReadLine() returns (r: Result<bytes>)
      modifies `br
      ensures r == Line(old(br)) && (r.Ok? ==> br == r.rest)
      ensures r.Ok? ==> old(br) == r.value + CRLF + br && LF !in r.value && |r.value| + 2 <= BUFFER
    {
      ghost var input := br;
      var slice := ReadSlice();
      if slice.Err? {
        NoLine(input);
        return Err(slice.problem);
      }
      var p := slice.value;
      SliceIsFirst(input, p, br);
      if |p| < 2 || p[|p| - 2] != CR { return Err(BadTerminator); }
      assert p == p[..|p| - 2] + CRLF;
      assert p[..|p| - 2] == p[..|p| - 1][..|p| - 2];
      LineOf(p[..|p| - 2], br);
      return Ok(p[..|p| - 2], br);
    }

    /** readReply takes exactly one reply off the input. */
    method ReadReply() returns (r: Result<Reply>)
      modifies `br
      ensures r == Read(old(br)) && (r.Ok? ==> br == r.rest)
      decreases |br|, 0
    {
      ghost var input := br;
      var l := ReadLine();
      if l.Err? { return Err(l.problem); }
      var line := l.value;
      if line == [] { return Err(ShortLine); }
      if line[0] == STATUS { return Ok(Status(line[1..]), br); }
      if line[0] == FAILURE { return Ok(Failure(line[1..]), br); }
      if line[0] == INTEGER {
        var n := ParseInt(line[1..]);
        if n.Malformed? { return Err(BadInteger); }
        return Ok(Integer(n.n), br);
      }
      if line[0] == BULK {
        var n := ParseLen(line[1..]);
        if n.Malformed? { return Err(BadLength); }
        if n.n < 0 { return Ok(Nil(false), br); }
        if |br| < n.n { return Err(Io); }
        var p := br[..n.n];
        br := br[n.n..];
        var end := ReadLine();
        if end.Err? { return Err(end.problem); }
        if end.value != [] { return Err(BadBulk); }
        return Ok(Bulk(p), br);
      }
      if line[0] == ARRAY {
        var n := ParseLen(line[1..]);
        if n.Malformed? { return Err(BadLength); }
        if n.n < 0 { return Ok(Nil(false), br); }
        var items := ReadItems(n.n);
        if items.Err? { return Err(items.problem); }
        return Ok(Array(items.value), br);
      }
      return Err(Unexpected);
    }

    /** The loop of readReply over the items of an array. */
    method ReadItems(n: nat) returns (r: Result<seq<Reply>>)
      modifies `br
      ensures r == ReadAll(n, old(br)) && (r.Ok? ==> br == r.rest)
      decreases |br|, 1
    {
      ghost var start := br;
      var items, i := [], 0;
      ContinuesFromStart(ReadAll(n, br));
      while i < n
        invariant i <= n && |br| <= |start|
        invariant Continues(ReadAll(n, start), items, ReadAll(n - i, br))
      {
        ghost var before := br;
        var item := ReadReply();
        if item.Err? { return Err(item.problem); }
        ReadAllStep(n, i, start, before, items);
        items := items + [item.value];
        i := i + 1;
      }
      assert items + [] == items;
      return Ok(items, br);
    }
  }

  /** `whole` is `items` and what `more` adds. */
  predicate Continues(whole: Result<seq<Reply>>, items: seq<Reply>, more: Result<seq<Reply>>) {
    whole == match more case Err(e) => Err(e) case Ok(tail, rest) => Ok(items + tail, rest)
  }

  lemma ContinuesFromStart(whole: Result<seq<Reply>>)
    ensures Continues(whole, [], whole)
  {
    if whole.Ok? { assert [] + whole.value == whole.value; }
  }

  lemma ReadAllStep(n: nat, i: nat, start: bytes, input: bytes, items: seq<Reply>)
    requires i < n && Continues(ReadAll(n, start), items, ReadAll(n - i, input)) && Read(input).Ok?
    ensures Continues(ReadAll(n, start), items + [Read(input).value], ReadAll(n - i - 1, Read(input).rest))
    ensures |Read(input).rest| < |input|
  {
    var item, more := Read(input).value, ReadAll(n - i - 1, Read(input).rest);
    if more.Ok? { assert items + ([item] + more.value) == items + [item] + more.value; }
  }

  lemma {:induction false} BulksSnoc(args: seq<Arg>, arg: Arg)
    ensures Bulks(args + [arg]) == Bulks(args) + [Bulk(ArgBytes(arg))]
  {
    if args == [] {
      assert ([] + [arg])[1..] == [];
    } else {
      assert (args + [arg])[0] == args[0] && (args + [arg])[1..] == args[1..] + [arg];
      BulksSnoc(args[1..], arg);
    }
  }

  lemma {:induction false} EncodeAllSnoc(items: seq<Reply>, r: Reply)
    ensures EncodeAll(items + [r]) == EncodeAll(items) + Encode(r)
  {
    if items == [] {
      EncodeCons(r, []);
      assert [] + [r] == [r] + [];
    } else {
      var first, rest := items[0], items[1..];
      assert items == [first] + rest && items + [r] == [first] + (rest + [r]);
      EncodeCons(first, rest);
      EncodeCons(first, rest + [r]);
      EncodeAllSnoc(rest, r);
      Associate(Encode(first), EncodeAll(rest), Encode(r));
    }
  }

  lemma EncodeSnoc(args: seq<Arg>, arg: Arg)
    ensures EncodeAll(Bulks(args + [arg])) == EncodeAll(Bulks(args)) + Encode(Bulk(ArgBytes(arg)))
  {
    BulksSnoc(args, arg);
    EncodeAllSnoc(Bulks(args), Bulk(ArgBytes(arg)));
  }

  lemma EncodeNext(args: seq<Arg>, i: nat)
    requires i < |args|
    ensures EncodeAll(Bulks(args[..i + 1])) == EncodeAll(Bulks(args[..i])) + Encode(Bulk(ArgBytes(args[i])))
  {
    EncodeSnoc(args[..i], args[i]);
    assert args[..i] + [args[i]] == args[..i + 1];
  }

  lemma EncodeCommand(cmd: bytes, args: seq<Arg>)
    ensures Encode(AsReply(cmd, args))
            == [ARRAY] + Digits(1 + |args|) + CRLF + Encode(Bulk(cmd)) + EncodeAll(Bulks(args))
  {
    EncodeCons(Bulk(cmd), Bulks(args));
    EncodeArray([Bulk(cmd)] + Bulks(args));
    Associate([ARRAY] + Digits(1 + |args|) + CRLF, Encode(Bulk(cmd)), EncodeAll(Bulks(args)));
  }

  lemma EncodeArray(items: seq<Reply>)
    ensures Encode(Array(items)) == [ARRAY] + Digits(|items|) + CRLF + EncodeAll(items)
  {
  }

  lemma EncodeCons(r: Reply, items: seq<Reply>)
    ensures EncodeAll([r] + items) == Encode(r) + EncodeAll(items)
  {
    assert ([r] + items)[1..] == items;
  }

  /** `parseLen`: the digit loop, wrapping as int64 does. */
  method ParseLen(p: bytes) returns (r: Parsed)
    ensures r == LenOf(p)
    ensures r.Malformed? <==> p != [MINUS, 49] && !IsLength(p)
    ensures p == [MINUS, 49] ==> r == Number(-1)
    ensures IsLength(p) ==> r == Number(Wrap(Value(p)))
  {
    if |p| == 0 { return Malformed; }
    if p[0] == MINUS && |p| == 2 && p[1] == 49 { return Number(-1); }
    var n, i := 0, 0;
    while i < |p|
      invariant i <= |p| && AllDigits(p[..i]) && n == Accumulate(p[..i])
    {
      n := Wrap(n * 10);
      if !IsDigit(p[i]) { return Malformed; }
      n := Wrap(n + (p[i] - ZERO) as int);
      assert p[..i + 1][..i] == p[..i];
      i := i + 1;
    }
    assert p[..i] == p;
    AccumulateWraps(p);
    return Number(n);
  }

  /** `parseInt`: the same loop after an optional minus sign, negated at the end. */
  method ParseInt(line: bytes) returns (r: Parsed)
    ensures r == IntOf(line)
    ensures r.Malformed? <==> !IsNumeral(line)
    ensures IsLength(line) ==> r == Number(Wrap(Value(line)))
    ensures IsNumeral(line) && line[0] == MINUS ==> r == Number(Wrap(0 - Value(line[1..])))
  {
    if |line| == 0 { return Malformed; }
    var p, negate := line, false;
    if line[0] == MINUS {
      negate, p := true, line[1..];
      if |p| == 0 { return Malformed; }
    }
    var n, i := 0, 0;
    while i < |p|
      invariant i <= |p| && AllDigits(p[..i]) && n == Accumulate(p[..i])
    {
      n := Wrap(n * 10);
      if !IsDigit(p[i]) { return Malformed; }
      n := Wrap(n + (p[i] - ZERO) as int);
      assert p[..i + 1][..i] == p[..i];
      i := i + 1;
    }
    assert p[..i] == p;
    AccumulateWraps(p);
    NegateWraps(Value(p));
    if negate { n := Wrap(-n); }
    return Number(n);
  }
}
