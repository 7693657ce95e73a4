/**
 Which frames fit the buffer. The encoder (sse/sse.go) prints a frame into the buffer it has just
 read the data from, so a Read that fills the buffer is always cut. What the client makes of the
 frame after a cut one, and exactly when no frame of any run is cut.
 */
module Fitting {
  import opened Bytes
  import opened Seqs
  import opened Decimal
  import opened Stream
  import opened Sse
  import opened Enc = Encoder

  /** Every frame fits a buffer of `cap` bytes. */
  predicate Fit(pos: int, chunks: seq<bytes>, cap: nat)
    decreases |chunks|
  {
    chunks == [] || (|Format(pos, chunks[0])| <= cap && Fit(pos + |chunks[0]|, chunks[1..], cap))
  }

  /** All Reads have buffers of `cap` bytes. */
  predicate ReadsOf(acts: seq<Action>, cap: nat) { forall a :: a in acts && a.Begin? ==> a.len == cap }

  // ---------------------------------------------------------------- Sizes

  lemma {:induction false} DigitsGrow(a: nat, b: nat)
    requires a <= b
    ensures |Digits(a)| <= |Digits(b)|
  {
    if a >= 10 { DigitsGrow(a / 10, b / 10); }
  }

  /** A part of a message makes a frame no longer than the message, at either end. */
  lemma FrameGrows(pos: nat, a: bytes, b: bytes)
    ensures |Format(pos, a)| <= |Format(pos, a + b)| && |Format(pos + |a|, b)| <= |Format(pos, a + b)|
  {
    FrameSize(pos, a);
    FrameSize(pos + |a|, b);
    FrameSize(pos, a + b);
    CountConcat(a, b);
    DigitsGrow(pos + |a|, pos + |a| + |b|);
  }

  /** Where the data fits as one frame, it fits however it is divided. */
  lemma {:induction false} FitOfWhole(pos: nat, chunks: seq<bytes>, cap: nat)
    requires chunks != [] ==> |Format(pos, Flatten(chunks))| <= cap
    ensures Fit(pos, chunks, cap)
    decreases |chunks|
  {
    if chunks != [] {
      FrameGrows(pos, chunks[0], Flatten(chunks[1..]));
      FitOfWhole(pos + |chunks[0]|, chunks[1..], cap);
    }
  }

  /** Everything from `start` on fits a buffer as one frame, or there is nothing there. */
  predicate WholeFits(log: bytes, start: nat, cap: nat) {
    start >= |log| || |Format(start, log[start..])| <= cap
  }

  /** What a run has returned is the beginning of what the log holds from `start` on. */
  lemma ChunksArePrefix(st: State, start: nat, acts: seq<Action>, cap: nat, log: bytes)
    requires Initial(st, start) && Valid(st, acts) && ReadsOf(acts, cap) && cap >= 1 && Run(st, acts).log <= log
    ensures var chunks := Run(st, acts).chunks;
      && (chunks != [] ==> start < |log| && Flatten(chunks) <= log[start..])
      && forall c :: c in chunks ==> c != []
  {
    InitialInOrder(st, start);
    DeliveryInOrder(st, start, acts);
    var end := Run(st, acts);
    if end.chunks != [] {
      assert end.chunks[0] in end.chunks;
      assert Flatten(end.chunks) == end.chunks[0] + Flatten(end.chunks[1..]);
      PrefixOfRest(end.log, log, start, end.rd.offset);
    }
  }

  lemma PrefixOfRest(a: bytes, b: bytes, start: nat, end: int)
    requires a <= b && start <= end <= |a|
    ensures a[start..end] <= b[start..]
  {
    assert b[start..][..end - start] == a[start..end];
  }

  lemma RunFits(st: State, start: nat, acts: seq<Action>, cap: nat, log: bytes)
    requires Initial(st, start) && Valid(st, acts) && ReadsOf(acts, cap) && cap >= 1 && Run(st, acts).log <= log
    requires WholeFits(log, start, cap)
    ensures Fit(start, Run(st, acts).chunks, cap)
  {
    ChunksArePrefix(st, start, acts, cap, log);
    var chunks := Run(st, acts).chunks;
    if chunks != [] { PrefixFits(start, Flatten(chunks), log[start..], cap); }
    FitOfWhole(start, chunks, cap);
  }

  lemma PrefixFits(pos: nat, a: bytes, whole: bytes, cap: nat)
    requires a <= whole && |Format(pos, whole)| <= cap
    ensures |Format(pos, a)| <= cap
  {
    FrameGrows(pos, a, whole[|a|..]);
    assert a + whole[|a|..] == whole;
  }

  // ---------------------------------------------------------------- Exactly when every run fits

  /** A chunk that fills the buffer it was read into is always cut. */
  lemma FullReadIsCut(pos: int, chunk: bytes, cap: nat)
    requires |chunk| >= cap
    ensures |Format(pos, chunk)| > cap && |Emitted(pos, chunk, cap)| == cap
  {
    FrameSize(pos, chunk);
  }

  /** The first Read of a reader that still has to replay. */
  lemma FirstRead(st: State, start: nat, cap: nat)
    requires Initial(st, start) && start < |st.log| && cap >= 1
    ensures var st' := Next(st, Begin(cap));
      st'.chunks == [st.log[start..Min(start + cap, |st.log|)]] && st'.log == st.log && st'.pc.Rest?
    ensures Valid(st, [Begin(cap)]) && Run(st, [Begin(cap)]) == Next(st, Begin(cap)) && ReadsOf([Begin(cap)], cap)
  {
    FetchWindow(st.log, start, cap);
    assert [Begin(cap)][1..] == [];
  }

  /** A client that finds a buffer's worth of backlog is sent a frame that has been cut. */
  lemma BacklogIsCut(st: State, start: nat, cap: nat)
    requires Initial(st, start) && |st.log| >= start + cap && cap >= 1
    ensures !Fit(start, Next(st, Begin(cap)).chunks, cap)
  {
    FirstRead(st, start, cap);
    FullReadIsCut(start, st.log[start..start + cap], cap);
  }

  /** No run up to a log of `size` bytes has a frame cut. */
  ghost predicate EveryRunFits(start: nat, size: nat, cap: nat) {
    forall st, acts :: Initial(st, start) && Valid(st, acts) && ReadsOf(acts, cap) && |Run(st, acts).log| <= size ==>
      Fit(start, Run(st, acts).chunks, cap)
  }

  /** Room for the longest frame there can be: all that is left of the log, and that all newlines. */
  predicate RoomFor(start: nat, size: nat, cap: nat) {
    size <= start || 13 + |Text(size)| + 7 * (size - start) <= cap
  }

  lemma {:induction false} CountAtMost(s: bytes)
    ensures Count(s, LF) <= |s|
  {
    if s != [] { CountAtMost(s[1..]); }
  }

  function Newlines(n: nat): bytes { seq(n, _ => LF) }

  lemma {:induction false} CountNewlines(s: bytes)
    requires forall i :: 0 <= i < |s| ==> s[i] == LF
    ensures Count(s, LF) == |s|
  {
    if s != [] { CountNewlines(s[1..]); }
  }

  /** The longest frame. */
  lemma LongestFrame(start: nat, log: bytes, size: nat, cap: nat)
    requires |log| <= size && RoomFor(start, size, cap)
    ensures WholeFits(log, start, cap)
  {
    if start < |log| {
      FrameSize(start, log[start..]);
      CountAtMost(log[start..]);
      DigitsGrow(|log|, size);
    }
  }

  function JustOpened(log: bytes, start: nat): State {
    State(log, false, [Msg(Other, |log|)], [], Reader(start, false, false, false), Rest, [], false)
  }

  /** A log of newlines, of which the first Read makes a frame too long. */
  lemma NewlinesDoNotFit(start: nat, size: nat, cap: nat)
    requires cap >= 1 && !RoomFor(start, size, cap)
    ensures var st := JustOpened(Newlines(size), start);
      Initial(st, start) && !Fit(start, Run(st, [Begin(cap)]).chunks, cap)
  {
    var log := Newlines(size);
    var st := JustOpened(log, start);
    FirstRead(st, start, cap);
    var chunk := log[start..Min(start + cap, size)];
    if |chunk| == cap {
      FullReadIsCut(start, chunk, cap);
    } else {
      FrameSize(start, chunk);
      CountNewlines(chunk);
    }
  }

  /** The frames of every run with buffers of `cap` bytes, from `start` and up to a log of `size`
      bytes, fit if and only if there is room for the longest. */
  lemma EveryRunFitsIff(start: nat, size: nat, cap: nat)
    requires cap >= 1
    ensures EveryRunFits(start, size, cap) <==> RoomFor(start, size, cap)
  {
    if RoomFor(start, size, cap) {
      forall st, acts | Initial(st, start) && Valid(st, acts) && ReadsOf(acts, cap) && |Run(st, acts).log| <= size
        ensures Fit(start, Run(st, acts).chunks, cap)
      {
        LongestFrame(start, Run(st, acts).log, size, cap);
        RunFits(st, start, acts, cap, Run(st, acts).log);
      }
    } else {
      var st := JustOpened(Newlines(size), start);
      NewlinesDoNotFit(start, size, cap);
      if start < size { FirstRead(st, start, cap); }
    }
  }

  // ---------------------------------------------------------------- After a cut frame

  function IdText(id: int): bytes { ID + [COLON, SPACE] + Text(id) }

  /** A frame cut in the middle of a data line, after `m` of its data. */
  function OpenFrame(id: int, m: bytes): bytes { IdLine(id) + OpenLines(m) }

  function OpenLines(m: bytes): bytes { DataLines(AllButLast(Split(m))) + OpenLine(Last(Split(m))) }

  function OpenLine(line: bytes): bytes { DATA + [COLON, SPACE] + line }

  function AllButLast<T>(s: seq<T>): seq<T>
    requires s != []
  {
    s[..|s| - 1]
  }

  function Last<T>(s: seq<T>): T
    requires s != []
  {
    s[|s| - 1]
  }

  lemma {:induction false} DataLinesConcat(a: seq<bytes>, b: seq<bytes>)
    ensures DataLines(a + b) == DataLines(a) + DataLines(b)
  {
    if a == [] {
      assert a + b == b;
    } else {
      assert (a + b)[0] == a[0] && (a + b)[1..] == a[1..] + b;
      DataLinesConcat(a[1..], b);
      Associate(DataLine(a[0]), DataLines(a[1..]), DataLines(b));
    }
  }

  lemma {:induction false} SplitJoin(a: bytes, b: bytes)
    ensures Split(a + [LF] + b) == Split(a) + Split(b)
  {
    if a == [] {
      assert ([] + [LF] + b)[1..] == b;
    } else {
      assert (a + [LF] + b)[0] == a[0] && (a + [LF] + b)[1..] == a[1..] + [LF] + b;
      SplitJoin(a[1..], b);
    }
  }

  lemma {:induction false} SplitOneLine(t: bytes)
    requires LF !in t
    ensures Split(t) == [t]
  {
    if t != [] {
      SplitOneLine(t[1..]);
      assert [t[0]] + t[1..] == t;
    }
  }

  /** Text without a newline goes on with the last line. */
  lemma {:induction false} SplitExtend(m: bytes, t: bytes)
    requires LF !in t
    ensures Split(m + t) == AllButLast(Split(m)) + [Last(Split(m)) + t]
  {
    if m == [] {
      SplitOneLine(t);
      assert m + t == t;
    } else {
      assert (m + t)[0] == m[0] && (m + t)[1..] == m[1..] + t;
      SplitExtend(m[1..], t);
      HeadFirst(m[0], Split(m[1..]), t);
    }
  }

  /** One more byte in front: a line of its own, or at the front of the first line. */
  function Front(b: byte, lines: seq<bytes>): seq<bytes>
    requires lines != []
  {
    if b == LF then [[]] + lines else [[b] + lines[0]] + lines[1..]
  }

  lemma HeadFirst(b: byte, lines: seq<bytes>, t: bytes)
    requires lines != []
    ensures Front(b, AllButLast(lines) + [Last(lines) + t]) == AllButLast(Front(b, lines)) + [Last(Front(b, lines)) + t]
  {
    if |lines| == 1 {
      assert lines == [lines[0]] && [b] + lines[0] + t == [b] + (lines[0] + t);
    }
  }

  lemma OneDataLine(line: bytes)
    ensures DataLines([line]) == DataLine(line)
  {
    assert [line][1..] == [];
  }

  /** The open line goes on up to the next newline. */
  lemma OpenGoesOn(m: bytes, t: bytes)
    requires LF !in t
    ensures OpenLines(m) + t + [LF] == DataLines(Split(m + t))
  {
    var init, last := AllButLast(Split(m)), Last(Split(m));
    SplitExtend(m, t);
    DataLinesConcat(init, [last + t]);
    OneDataLine(last + t);
    LineGoesOn(last, t);
    Together(DataLines(init), OpenLine(last), t, [LF]);
  }

  lemma LineGoesOn(line: bytes, t: bytes)
    ensures OpenLine(line) + t + [LF] == DataLine(line + t)
  {
  }

  lemma {:induction false} FirstNewline(s: bytes) returns (t: bytes, rest: bytes)
    requires LF in s
    ensures LF !in t && s == t + [LF] + rest
  {
    if s[0] == LF {
      t, rest := [], s[1..];
    } else {
      t, rest := FirstNewline(s[1..]);
      t := [s[0]] + t;
    }
  }

  lemma OpenGoesFurther(a: bytes, t: bytes, rest: bytes)
    requires LF !in t
    ensures DataLines(Split(a + t + [LF] + rest)) == OpenLines(a) + t + [LF] + DataLines(Split(rest))
  {
    OpenGoesOn(a, t);
    SplitJoin(a + t, rest);
    DataLinesConcat(Split(a + t), Split(rest));
  }

  lemma OpenLinesArePrefix(a: bytes, b: bytes) returns (more: bytes)
    ensures DataLines(Split(a + b)) == OpenLines(a) + more && more != []
  {
    if LF in b {
      var t, rest := FirstNewline(b);
      OpenGoesFurther(a, t, rest);
      Together(a, t, [LF], rest);
      more := t + [LF] + DataLines(Split(rest));
      Together(OpenLines(a), t, [LF], DataLines(Split(rest)));
    } else {
      OpenGoesOn(a, b);
      more := b + [LF];
      Associate(OpenLines(a), b, [LF]);
    }
  }

  lemma Together(a: bytes, b: bytes, c: bytes, d: bytes)
    ensures a + (b + c + d) == a + b + c + d
  {
  }

  /** Where the buffer ends in a data line, after `j` bytes of the message, this is what is emitted. */
  lemma CutInData(pos: int, msg: bytes, j: nat, cap: nat)
    requires j <= |msg| && cap == |OpenFrame(pos + |msg|, msg[..j])|
    ensures Emitted(pos, msg, cap) == OpenFrame(pos + |msg|, msg[..j]) && cap < |Format(pos, msg)|
  {
    var more := OpenLinesArePrefix(msg[..j], msg[j..]);
    assert msg[..j] + msg[j..] == msg;
    Together(IdLine(pos + |msg|), OpenLines(msg[..j]), more, [LF]);
    FrontOf(OpenFrame(pos + |msg|, msg[..j]), more + [LF], Format(pos, msg));
  }

  lemma FrontOf(a: bytes, b: bytes, whole: bytes)
    requires whole == a + b && b != []
    ensures |a| < |whole| && whole[..|a|] == a
  {
  }

  /** A frame cut in a data line and the frame after it are together one frame: the id line of the
      second has become data. */
  lemma CutAndNext(id: int, m: bytes, pos2: int, msg2: bytes)
    ensures var data := m + IdText(pos2 + |msg2|) + [LF] + msg2;
            OpenFrame(id, m) + Format(pos2, msg2) == Format(id - |data|, data)
  {
    var t, tail := IdText(pos2 + |msg2|), DataLines(Split(msg2));
    TextBreakFree(pos2 + |msg2|);
    assert LF !in t;
    OpenGoesOn(m, t);
    SplitJoin(m + t, msg2);
    DataLinesConcat(Split(m + t), Split(msg2));
    Unfold(IdLine(id), OpenLines(m), t, tail);
  }

  lemma Unfold(a: bytes, b: bytes, t: bytes, c: bytes)
    ensures a + b + (t + [LF] + c + [LF]) == a + (b + t + [LF] + c) + [LF]
  {
  }

  lemma SpoiltCrFree(m: bytes, id: int, msg2: bytes)
    requires CR !in m && CR !in msg2
    ensures CR !in m + IdText(id) + [LF] + msg2
  {
    TextBreakFree(id);
  }

  /** The client loses what was cut off, takes the id line of the next frame for data, and gets both
      as one event with the id of the cut frame. */
  lemma CutSpoilsNext(pos: int, msg: bytes, j: nat, cap: nat, msg2: bytes)
    requires CR !in msg && CR !in msg2 && j <= |msg| && cap == |OpenFrame(pos + |msg|, msg[..j])|
    ensures var id := pos + |msg|;
            Parse(Emitted(pos, msg, cap) + Format(id, msg2), START).events
            == [Event([], msg[..j] + IdText(id + |msg2|) + [LF] + msg2, Text(id))]
  {
    var id := pos + |msg|;
    var data := msg[..j] + IdText(id + |msg2|) + [LF] + msg2;
    CutInData(pos, msg, j, cap);
    CutAndNext(id, msg[..j], id, msg2);
    SpoiltCrFree(msg[..j], id + |msg2|, msg2);
    RoundTripIff(id - |data|, data);
  }
}
