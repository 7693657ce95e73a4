/**
 sse/sse.go: events that carry stream offsets, and the parser that reads them.

 The parser is the one of W3C Server-Sent Events (WD-eventsource-20120426), sections "Parsing an
 event stream" and "Interpreting an event stream", on bytes. It knows nothing of `Format`.
 */
module Sse {
  import opened Seqs
  import opened Bytes
  import opened Decimal

  const SPACE: byte := 32
  const COLON: byte := 58

  const ID: bytes := [105, 100]                   // "id"
  const DATA: bytes := [100, 97, 116, 97]         // "data"
  const EVENT: bytes := [101, 118, 101, 110, 116] // "event"

  // ---------------------------------------------------------------- The parser

  datatype Event = Event(kind: bytes, data: bytes, id: bytes)

  /** The buffers of the parser, `last`, the last event ID string, and the events dispatched so far.
      A field sets the id buffer; only a blank line makes it the last event ID string. */
  datatype Interp = Interp(data: bytes, id: bytes, last: bytes, kind: bytes, events: seq<Event>)

  const START := Interp([], [], [], [], [])

  /** The index of the first byte of `s` that is in `stops`, or |s|. */
  function Find(s: bytes, stops: set<byte>): (i: nat)
    ensures i <= |s|
  {
    if s == [] || s[0] in stops then 0 else 1 + Find(s[1..], stops)
  }

  const BREAKS := {LF, CR}

  function Dispatch(st: Interp): Interp {
    if st.data == [] then st.(kind := [], last := st.id)
    else
      var data := if st.data[|st.data| - 1] == LF then st.data[..|st.data| - 1] else st.data;
      Interp([], st.id, st.id, [], st.events + [Event(st.kind, data, st.id)])
  }

  function Field(st: Interp, name: bytes, value: bytes): Interp {
    if name == DATA then st.(data := st.data + value + [LF])
    else if name == ID then st.(id := value)
    else if name == EVENT then st.(kind := value)
    else st
  }

  function Line(st: Interp, line: bytes): Interp {
    if line == [] then Dispatch(st)
    else if line[0] == COLON then st
    else
      var i := Find(line, {COLON});
      if i == |line| then Field(st, line, [])
      else
        var value := line[i + 1..];
        Field(st, line[..i], if value != [] && value[0] == SPACE then value[1..] else value)
  }

  /** The length of the first line with its line break. */
  function Cut(s: bytes): (n: nat)
    requires Find(s, BREAKS) < |s|
    ensures Find(s, BREAKS) < n <= |s|
  {
    var i := Find(s, BREAKS);
    if s[i] == CR && i + 1 < |s| && s[i + 1] == LF then i + 2 else i + 1
  }

  /** The lines of `s` up to the last line break (CR LF, LF or CR); an unfinished line is not
      among them. */
  function Lines(s: bytes): seq<bytes>
    decreases |s|
  {
    var i := Find(s, BREAKS);
    if i == |s| then [] else [s[..i]] + Lines(s[Cut(s)..])
  }

  function Interpret(lines: seq<bytes>, st: Interp): Interp
    decreases |lines|
  {
    if lines == [] then st else Interpret(lines[1..], Line(st, lines[0]))
  }

  function Parse(s: bytes, st: Interp): Interp { Interpret(Lines(s), st) }

  // ---------------------------------------------------------------- The printer

  /** bytes.Split by LF. */
  function Split(msg: bytes): (lines: seq<bytes>)
    ensures lines != []
  {
    if msg == [] then [[]]
    else
      var rest := Split(msg[1..]);
      if msg[0] == LF then [[]] + rest else [[msg[0]] + rest[0]] + rest[1..]
  }

  function DataLine(line: bytes): bytes { DATA + [COLON, SPACE] + line + [LF] }

  function DataLines(lines: seq<bytes>): bytes {
    if lines == [] then [] else DataLine(lines[0]) + DataLines(lines[1..])
  }

  function IdLine(id: int): bytes { ID + [COLON, SPACE] + Text(id) + [LF] }

  function Format(pos: int, msg: bytes): bytes {
    IdLine(pos + |msg|) + DataLines(Split(msg)) + [LF]
  }

  /** `format`: the loop that writes one data line for each line of the message. */
  method FormatFrame(pos: int, msg: bytes) returns (buf: bytes)
    ensures buf == Format(pos, msg)
  {
    buf := IdLine(pos + |msg|);
    var lines := Split(msg);
    var i := 0;
    while i < |lines|
      invariant i <= |lines|
      invariant buf + DataLines(lines[i..]) == IdLine(pos + |msg|) + DataLines(lines)
    {
      assert lines[i..][0] == lines[i] && lines[i..][1..] == lines[i + 1..];
      assert buf + DataLines(lines[i..]) == buf + DataLine(lines[i]) + DataLines(lines[i + 1..]);
      buf := buf + DataLine(lines[i]);
      i := i + 1;
    }
    assert lines[i..] == [];
    buf := buf + [LF];
  }

  // ---------------------------------------------------------------- Parsing line by line

  predicate BreakFree(s: bytes) { LF !in s && CR !in s }

  lemma {:induction false} FindFirst(s: bytes, b: byte, rest: bytes, stops: set<byte>)
    requires b in stops && forall x :: x in s ==> x !in stops
    ensures Find(s + [b] + rest, stops) == |s|
  {
    if s != [] {
      assert (s + [b] + rest)[1..] == s[1..] + [b] + rest;
      FindFirst(s[1..], b, rest, stops);
    }
  }

  lemma {:induction false} FindIs(s: bytes, stops: set<byte>)
    ensures var i := Find(s, stops);
            (i < |s| ==> s[i] in stops) && forall j :: 0 <= j < i ==> s[j] !in stops
  {
    if s != [] && s[0] !in stops {
      FindIs(s[1..], stops);
      var i := Find(s, stops);
      forall j | 0 <= j < i ensures s[j] !in stops {
        if j > 0 { assert s[j] == s[1..][j - 1]; }
      }
    }
  }

  /** A line without line breaks, ended by LF, is the first line of what it starts. */
  lemma FirstLine(line: bytes, rest: bytes)
    requires BreakFree(line)
    ensures Lines(line + [LF] + rest) == [line] + Lines(rest)
  {
    var s := line + [LF] + rest;
    FindFirst(line, LF, rest, BREAKS);
    assert s[..|line|] == line && s[|line|] == LF && s[|line| + 1..] == rest;
  }

  /** CR LF and CR end a line as LF does. */
  lemma LineEnds(line: bytes, rest: bytes)
    requires BreakFree(line)
    ensures Lines(line + [CR] + ([LF] + rest)) == [line] + Lines(rest)
    ensures rest != [] && rest[0] != LF ==> Lines(line + [CR] + rest) == [line] + Lines(rest)
    ensures Lines(line + [CR]) == [line]
  {
    FindFirst(line, CR, [LF] + rest, BREAKS);
    FindFirst(line, CR, rest, BREAKS);
    FindFirst(line, CR, [], BREAKS);
    var s, t, u := line + [CR] + ([LF] + rest), line + [CR] + rest, line + [CR];
    assert s[..|line|] == line && s[|line| + 1] == LF && s[|line| + 2..] == rest;
    assert t[..|line|] == line && t[|line| + 1..] == rest && (rest != [] ==> t[|line| + 1] == rest[0]);
    assert u + [] == u && u[..|line|] == line && u[|line| + 1..] == [];
  }

  lemma {:induction false} InterpretConcat(a: seq<bytes>, b: seq<bytes>, st: Interp)
    ensures Interpret(a + b, st) == Interpret(b, Interpret(a, st))
    decreases |a|
  {
    if a == [] {
      assert a + b == b;
    } else {
      assert (a + b)[0] == a[0] && (a + b)[1..] == a[1..] + b;
      InterpretConcat(a[1..], b, Line(st, a[0]));
    }
  }

  lemma FieldLine(st: Interp, name: bytes, value: bytes)
    requires name != [] && COLON !in name
    ensures Line(st, name + [COLON, SPACE] + value) == Field(st, name, value)
  {
    var line := name + [COLON, SPACE] + value;
    assert line == name + [COLON] + ([SPACE] + value);
    FindFirst(name, COLON, [SPACE] + value, {COLON});
    assert line[..|name|] == name && line[|name| + 1..] == [SPACE] + value;
    assert line[0] == name[0] && name[0] in name;
    assert ([SPACE] + value)[1..] == value;
  }

  /** One space after the colon is dropped, and none is needed; without a colon the value is empty. */
  lemma FieldForms(st: Interp, name: bytes, value: bytes)
    requires name != [] && COLON !in name
    ensures value == [] || value[0] != SPACE ==> Line(st, name + [COLON] + value) == Field(st, name, value)
    ensures Line(st, name) == Field(st, name, [])
  {
    var line := name + [COLON] + value;
    FindFirst(name, COLON, value, {COLON});
    assert line[..|name|] == name && line[|name| + 1..] == value && line[0] == name[0] && name[0] in name;
    FindIs(name, {COLON});
  }

  /** What each field does, and what a blank line does after it. */
  lemma FieldEffects(st: Interp, value: bytes)
    ensures Field(st, DATA, value) == st.(data := st.data + value + [LF])
    ensures Field(st, ID, value) == st.(id := value) && Field(st, EVENT, value) == st.(kind := value)
    ensures Dispatch(Field(Field(START, EVENT, value), DATA, value)).events == [Event(value, value, [])]
    ensures Dispatch(Field(START, ID, value)) == Interp([], value, value, [], [])
    ensures Dispatch(Field(START, EVENT, value)) == START
  {
    assert ([] + value + [LF])[..|value|] == value;
  }

  lemma TextBreakFree(n: int)
    ensures BreakFree(Text(n))
  {
    DigitsValue(if n < 0 then -n else n);
  }

  /** The lines of a message, each with an LF after it. */
  function Ended(lines: seq<bytes>): bytes {
    if lines == [] then [] else lines[0] + [LF] + Ended(lines[1..])
  }

  /** The text of the data lines, without their line ends. */
  function DataTexts(lines: seq<bytes>): seq<bytes> {
    if lines == [] then [] else [DATA + [COLON, SPACE] + lines[0]] + DataTexts(lines[1..])
  }

  lemma {:induction false} DataLinesAreLines(lines: seq<bytes>, rest: bytes)
    requires forall i :: 0 <= i < |lines| ==> BreakFree(lines[i])
    ensures Lines(DataLines(lines) + rest) == DataTexts(lines) + Lines(rest)
  {
    if lines == [] {
      assert DataLines(lines) + rest == rest;
    } else {
      var text, more := DATA + [COLON, SPACE] + lines[0], DataLines(lines[1..]);
      Associate(text + [LF], more, rest);
      FirstLine(text, more + rest);
      DataLinesAreLines(lines[1..], rest);
      Associate([text], DataTexts(lines[1..]), Lines(rest));
    }
  }

  lemma {:induction false} InterpretData(lines: seq<bytes>, st: Interp)
    ensures Interpret(DataTexts(lines), st) == st.(data := st.data + Ended(lines))
    decreases |lines|
  {
    if lines == [] {
      assert st.data + [] == st.data;
    } else {
      var texts := DataTexts(lines);
      assert texts[0] == DATA + [COLON, SPACE] + lines[0] && texts[1..] == DataTexts(lines[1..]);
      FieldLine(st, DATA, lines[0]);
      InterpretData(lines[1..], st.(data := st.data + lines[0] + [LF]));
      Regroup(st.data, lines[0], [LF], Ended(lines[1..]));
    }
  }

  /** Split only loses where the message ends: every line ended by LF is the message and one LF. */
  lemma {:induction false} SplitEnded(msg: bytes)
    ensures Ended(Split(msg)) == msg + [LF]
  {
    if msg == [] {
      assert Split(msg)[1..] == [];
    } else {
      SplitEnded(msg[1..]);
      var rest := Split(msg[1..]);
      assert msg + [LF] == [msg[0]] + (msg[1..] + [LF]);
      if msg[0] == LF {
        assert Split(msg) == [[]] + rest;
        assert Split(msg)[1..] == rest;
      } else {
        assert Split(msg)[1..] == rest[1..];
        assert Ended(rest) == rest[0] + [LF] + Ended(rest[1..]);
        assert Ended(Split(msg)) == [msg[0]] + rest[0] + [LF] + Ended(rest[1..]);
        assert [msg[0]] + rest[0] + [LF] + Ended(rest[1..]) == [msg[0]] + Ended(rest);
      }
    }
  }

  lemma {:induction false} SplitBreakFree(msg: bytes)
    requires CR !in msg
    ensures forall i :: 0 <= i < |Split(msg)| ==> BreakFree(Split(msg)[i])
  {
    if msg != [] {
      SplitBreakFree(msg[1..]);
      var rest := Split(msg[1..]);
      assert BreakFree(rest[0]);
    }
  }

  // ---------------------------------------------------------------- Round trip

  /** Between events the data and type buffers are empty. */
  predicate Between(st: Interp) { st.data == [] && st.kind == [] }

  function Dispatched(st: Interp, msg: bytes, id: bytes): Interp {
    Interp([], id, id, [], st.events + [Event([], msg, id)])
  }

  function FrameTexts(id: int, msg: bytes): seq<bytes> {
    [ID + [COLON, SPACE] + Text(id)] + DataTexts(Split(msg)) + [[]]
  }

  lemma FormatParts(pos: int, msg: bytes, rest: bytes)
    ensures Format(pos, msg) + rest
            == ID + [COLON, SPACE] + Text(pos + |msg|) + [LF] + (DataLines(Split(msg)) + ([] + [LF] + rest))
  {
    RegroupRight(IdLine(pos + |msg|), DataLines(Split(msg)), [LF], rest);
  }

  lemma FrameLines(pos: int, msg: bytes, rest: bytes)
    requires CR !in msg
    ensures Lines(Format(pos, msg) + rest) == FrameTexts(pos + |msg|, msg) + Lines(rest)
  {
    var lines, after := Split(msg), [] + [LF] + rest;
    FormatParts(pos, msg, rest);
    TextBreakFree(pos + |msg|);
    FirstLine(ID + [COLON, SPACE] + Text(pos + |msg|), DataLines(lines) + after);
    SplitBreakFree(msg);
    DataLinesAreLines(lines, after);
    FirstLine([], rest);
    RegroupRight([ID + [COLON, SPACE] + Text(pos + |msg|)], DataTexts(lines), [[]], Lines(rest));
  }

  lemma InterpretFrame(id: int, msg: bytes, st: Interp)
    requires Between(st)
    ensures Interpret(FrameTexts(id, msg), st) == Dispatched(st, msg, Text(id))
  {
    var texts := FrameTexts(id, msg);
    var st1 := st.(id := Text(id));
    var st2 := st1.(data := msg + [LF]);
    FieldLine(st, ID, Text(id));
    assert texts[0] == ID + [COLON, SPACE] + Text(id) && texts[1..] == DataTexts(Split(msg)) + [[]];
    InterpretConcat(DataTexts(Split(msg)), [[]], st1);
    InterpretData(Split(msg), st1);
    SplitEnded(msg);
    assert st1.data + (msg + [LF]) == msg + [LF];
    assert (msg + [LF])[..|msg|] == msg;
    OneLine([], st2);
  }

  lemma OneLine(line: bytes, st: Interp)
    ensures Interpret([line], st) == Line(st, line)
  {
    assert [line][1..] == [];
  }

  /** A frame in front of anything is read as one event: the message, and as its id the absolute
      offset just past the message. */
  lemma RoundTrip(pos: int, msg: bytes, rest: bytes, st: Interp)
    requires CR !in msg && Between(st)
    ensures Parse(Format(pos, msg) + rest, st) == Parse(rest, Dispatched(st, msg, Text(pos + |msg|)))
  {
    FrameLines(pos, msg, rest);
    InterpretConcat(FrameTexts(pos + |msg|, msg), Lines(rest), st);
    InterpretFrame(pos + |msg|, msg, st);
  }

  /** No event ever holds a CR. */
  predicate CrFree(st: Interp) { CR !in st.data && forall e :: e in st.events ==> CR !in e.data }

  lemma LineCrFree(st: Interp, line: bytes)
    requires CrFree(st) && CR !in line
    ensures CrFree(Line(st, line))
  {
  }

  lemma {:induction false} LinesCrFree(s: bytes)
    ensures forall i :: 0 <= i < |Lines(s)| ==> CR !in Lines(s)[i]
    decreases |s|
  {
    var i := Find(s, BREAKS);
    FindIs(s, BREAKS);
    if i < |s| {
      LinesCrFree(s[Cut(s)..]);
    }
  }

  lemma {:induction false} InterpretCrFree(lines: seq<bytes>, st: Interp)
    requires CrFree(st) && forall i :: 0 <= i < |lines| ==> CR !in lines[i]
    ensures CrFree(Interpret(lines, st))
    decreases |lines|
  {
    if lines != [] {
      LineCrFree(st, lines[0]);
      InterpretCrFree(lines[1..], Line(st, lines[0]));
    }
  }

  /** The round trip holds exactly for messages without a CR. */
  lemma RoundTripIff(pos: int, msg: bytes)
    ensures Parse(Format(pos, msg), START).events == [Event([], msg, Text(pos + |msg|))] <==> CR !in msg
  {
    if CR !in msg {
      RoundTrip(pos, msg, [], START);
      assert Format(pos, msg) + [] == Format(pos, msg);
    } else {
      LinesCrFree(Format(pos, msg));
      InterpretCrFree(Lines(Format(pos, msg)), START);
      var e := Event([], msg, Text(pos + |msg|));
      assert e in [e];
    }
  }

  // ---------------------------------------------------------------- Frame size

  function Count(s: bytes, b: byte): nat {
    if s == [] then 0 else (if s[0] == b then 1 else 0) + Count(s[1..], b)
  }

  lemma {:induction false} DataLinesSize(lines: seq<bytes>)
    ensures |DataLines(lines)| == |Ended(lines)| + 6 * |lines|
  {
    if lines != [] { DataLinesSize(lines[1..]); }
  }

  lemma {:induction false} SplitCount(msg: bytes)
    ensures |Split(msg)| == 1 + Count(msg, LF)
  {
    if msg != [] { SplitCount(msg[1..]); }
  }

  lemma FrameSize(pos: int, msg: bytes)
    ensures |Format(pos, msg)| == 13 + |Text(pos + |msg|)| + |msg| + 6 * Count(msg, LF)
  {
    SplitEnded(msg);
    SplitCount(msg);
    DataLinesSize(Split(msg));
  }

  // ---------------------------------------------------------------- Streams of frames

  /** The frames an encoder at `pos` prints for successive chunks. */
  function Frames(pos: int, chunks: seq<bytes>): seq<bytes>
    decreases |chunks|
  {
    if chunks == [] then [] else [Format(pos, chunks[0])] + Frames(pos + |chunks[0]|, chunks[1..])
  }

  function Events(pos: int, chunks: seq<bytes>): seq<Event>
    decreases |chunks|
  {
    if chunks == [] then []
    else [Event([], chunks[0], Text(pos + |chunks[0]|))] + Events(pos + |chunks[0]|, chunks[1..])
  }

  lemma FramesCons(pos: int, chunks: seq<bytes>)
    requires chunks != []
    ensures Flatten(Frames(pos, chunks)) == Format(pos, chunks[0]) + Flatten(Frames(pos + |chunks[0]|, chunks[1..]))
  {
    var frames := Frames(pos + |chunks[0]|, chunks[1..]);
    assert ([Format(pos, chunks[0])] + frames)[1..] == frames;
  }

  /** A concatenation of frames is read frame by frame. */
  lemma {:induction false} FramesParse(pos: int, chunks: seq<bytes>, st: Interp)
    requires Between(st) && forall i :: 0 <= i < |chunks| ==> CR !in chunks[i]
    ensures Parse(Flatten(Frames(pos, chunks)), st)
            == Interp([], LastId(pos, chunks, st.id), LastId(pos, chunks, st.last), [], st.events + Events(pos, chunks))
    decreases |chunks|
  {
    if chunks == [] {
      assert st.events + [] == st.events;
    } else {
      var c, pos1 := chunks[0], pos + |chunks[0]|;
      var frames := Frames(pos1, chunks[1..]);
      var st1 := Dispatched(st, c, Text(pos1));
      FramesCons(pos, chunks);
      RoundTrip(pos, c, Flatten(frames), st);
      FramesParse(pos1, chunks[1..], st1);
      Associate(st.events, [Event([], c, Text(pos1))], Events(pos1, chunks[1..]));
    }
  }

  /** The id of the last frame, or what it was before. */
  function LastId(pos: int, chunks: seq<bytes>, id: bytes): bytes
    decreases |chunks|
  {
    if chunks == [] then id else LastId(pos + |chunks[0]|, chunks[1..], Text(pos + |chunks[0]|))
  }

  /** The last id is the offset reached. */
  lemma {:induction false} LastIdIsOffset(pos: int, chunks: seq<bytes>, id: bytes)
    ensures LastId(pos, chunks, id) == if chunks == [] then id else Text(pos + |Flatten(chunks)|)
    decreases |chunks|
  {
    if chunks != [] {
      LastIdIsOffset(pos + |chunks[0]|, chunks[1..], Text(pos + |chunks[0]|));
      assert Flatten(chunks) == chunks[0] + Flatten(chunks[1..]);
    }
  }

  function DataOf(events: seq<Event>): seq<bytes> {
    seq(|events|, i requires 0 <= i < |events| => events[i].data)
  }

  lemma {:induction false} EventsCarryChunks(pos: int, chunks: seq<bytes>)
    ensures DataOf(Events(pos, chunks)) == chunks
    decreases |chunks|
  {
    if chunks != [] {
      EventsCarryChunks(pos + |chunks[0]|, chunks[1..]);
      assert DataOf(Events(pos, chunks)) == [chunks[0]] + DataOf(Events(pos + |chunks[0]|, chunks[1..]));
    }
  }

  // ---------------------------------------------------------------- Lines in between

  /** Text that stops at a line boundary. */
  predicate LineEnded(s: bytes) { s == [] || s[|s| - 1] == LF }

  lemma {:induction false} FindWithin(s: bytes, t: bytes, stops: set<byte>)
    requires Find(s, stops) < |s|
    ensures Find(s + t, stops) == Find(s, stops)
  {
    if s[0] !in stops {
      assert (s + t)[1..] == s[1..] + t;
      FindWithin(s[1..], t, stops);
    }
  }

  lemma {:induction false} EndedHasBreak(s: bytes)
    requires s != [] && LineEnded(s)
    ensures Find(s, BREAKS) < |s|
  {
    if !(s[0] in BREAKS) {
      assert s[1..] != [] && s[1..][|s| - 2] == s[|s| - 1];
      EndedHasBreak(s[1..]);
    }
  }

  lemma CutWithin(s: bytes, t: bytes)
    requires s != [] && LineEnded(s)
    ensures Find(s, BREAKS) < |s| && Find(s + t, BREAKS) == Find(s, BREAKS)
    ensures Cut(s + t) == Cut(s) && LineEnded(s[Cut(s)..])
  {
    EndedHasBreak(s);
    FindIs(s, BREAKS);
    FindWithin(s, t, BREAKS);
    var i := Find(s, BREAKS);
    assert i + 1 == |s| ==> s[i] == LF;
    assert (s + t)[i] == s[i] && (i + 1 < |s| ==> (s + t)[i + 1] == s[i + 1]);
  }

  lemma SlicesOfConcat(s: bytes, t: bytes, i: nat, n: nat)
    requires i <= n <= |s|
    ensures (s + t)[..i] == s[..i] && (s + t)[n..] == s[n..] + t
  {
  }

  /** Line splitting can stop and go on at any line boundary. */
  lemma {:induction false} LinesConcat(s: bytes, t: bytes)
    requires LineEnded(s)
    ensures Lines(s + t) == Lines(s) + Lines(t)
    decreases |s|
  {
    if s == [] {
      assert s + t == t;
    } else {
      CutWithin(s, t);
      var i, n := Find(s, BREAKS), Cut(s);
      SlicesOfConcat(s, t, i, n);
      LinesConcat(s[n..], t);
      Associate([s[..i]], Lines(s[n..]), Lines(t));
    }
  }

  /** So can interpretation. */
  lemma ParseConcat(s: bytes, t: bytes, st: Interp)
    requires LineEnded(s)
    ensures Parse(s + t, st) == Parse(t, Parse(s, st))
  {
    LinesConcat(s, t);
    InterpretConcat(Lines(s), Lines(t), st);
  }

  /** A comment line changes nothing. */
  lemma CommentIsSkipped(comment: bytes, st: Interp)
    requires comment != [] && comment[0] == COLON && BreakFree(comment)
    ensures Parse(comment + [LF], st) == st
  {
    FirstLine(comment, []);
    assert comment + [LF] + [] == comment + [LF];
    OneLine(comment, st);
  }

  lemma FrameLineEnded(pos: int, msg: bytes)
    ensures LineEnded(Format(pos, msg))
  {
  }
}
