/**
 sse/sse.go: the encoder over a broker reader, and what becomes of a frame that does not fit the
 caller's buffer.
 */
module Encoder {
  import opened Seqs
  import opened Bytes
  import opened Decimal
  import opened Sse
  import Stream
  import Channels
  import Broker

  /** What `copy(p, buf)` leaves of a frame in a buffer of `cap` bytes. */
  function Emitted(pos: int, msg: bytes, cap: nat): bytes {
    Format(pos, msg)[..Stream.Min(|Format(pos, msg)|, cap)]
  }

  /** What an encoder at `pos` emits for successive chunks, into buffers of `cap` bytes. */
  function EmittedFrames(pos: int, chunks: seq<bytes>, cap: nat): seq<bytes>
    decreases |chunks|
  {
    if chunks == [] then []
    else [Emitted(pos, chunks[0], cap)] + EmittedFrames(pos + |chunks[0]|, chunks[1..], cap)
  }

  lemma EmittedCons(pos: int, chunk: bytes, chunks: seq<bytes>, cap: nat)
    ensures EmittedFrames(pos, [chunk] + chunks, cap)
            == [Emitted(pos, chunk, cap)] + EmittedFrames(pos + |chunk|, chunks, cap)
  {
    assert ([chunk] + chunks)[1..] == chunks;
  }

  /** One more chunk, which starts at `end`. */
  lemma {:induction false} EmittedSnoc(pos: int, chunks: seq<bytes>, end: int, chunk: bytes, cap: nat)
    requires end == pos + |Flatten(chunks)|
    ensures EmittedFrames(pos, chunks + [chunk], cap)
            == EmittedFrames(pos, chunks, cap) + EmittedFrames(end, [chunk], cap)
    decreases |chunks|
  {
    if chunks == [] {
      assert [] + [chunk] == [chunk];
    } else {
      var first, rest := chunks[0], chunks[1..];
      var next := pos + |first|;
      SameEnd(pos, first, rest);
      assert chunks == [first] + rest && chunks + [chunk] == [first] + (rest + [chunk]);
      EmittedSnoc(next, rest, end, chunk, cap);
      EmittedCons(pos, first, rest, cap);
      EmittedCons(pos, first, rest + [chunk], cap);
      Prepend([Emitted(pos, first, cap)], EmittedFrames(next, rest, cap), EmittedFrames(end, [chunk], cap),
              EmittedFrames(pos, chunks, cap), EmittedFrames(next, rest + [chunk], cap),
              EmittedFrames(pos, chunks + [chunk], cap));
    }
  }

  lemma SameEnd(pos: int, first: bytes, rest: seq<bytes>)
    ensures pos + |first| + |Flatten(rest)| == pos + |Flatten([first] + rest)|
  {
    assert ([first] + rest)[1..] == rest;
  }

  class Encoder {
    const reader: Broker.Subscriber
    var offset: int

    constructor (reader: Broker.Subscriber)
      ensures this.reader == reader && offset == 0
    {
      this.reader := reader;
      offset := 0;
    }

    /** Ids are absolute stream offsets as long as the encoder and its reader agree. */
    ghost predicate Synced()
      reads this, reader
    {
      offset == reader.offset
    }

    /** After a seek from the start the two agree exactly for offsets that are not negative: the
        reader keeps a negative offset, the encoder is told 0. */
    method Seek(delta: int, whence: int) returns (at: int, err: Broker.Error)
      modifies `offset, reader`offset
      ensures whence == 0 ==> reader.offset == delta && (Synced() <==> delta >= 0)
      ensures whence == 1 && delta >= 0 ==> reader.offset == old(reader.offset) + delta && Synced()
      ensures at == offset && err == if whence != 0 && whence != 1 then Broker.ErrWhence
                                     else if delta < 0 then Broker.ErrOffset else Broker.NoError
    {
      offset, err := reader.Seek(delta, whence);
      at := offset;
    }

    /** A Read passes on the underlying Read, each non-empty result as one frame whose id is the
        offset after it, cut to the buffer. */
    method Read(p: array<byte>, before: seq<Channels.Send>, during: seq<Channels.Send>)
      returns (n: nat, err: Broker.Error)
      requires reader.redis.subscriber == reader.channel && reader.pc == Stream.Rest && p.Length >= 1
      modifies this, reader, reader.redis, p
      ensures reader.View() == Broker.ReadResult(old(reader.View()), p.Length, reader.channel, before, during)
      ensures reader.eof == (old(reader.eof) || err.EOF?) && reader.redis.subscriber == reader.channel
      ensures (err.Blocked? <==> reader.pc != Stream.Rest) && (err.Blocked? ==> n == 0)
      ensures if reader.chunks == old(reader.chunks) then n == 0 && offset == old(offset)
              else
                && |reader.chunks| == |old(reader.chunks)| + 1
                && reader.chunks[..|old(reader.chunks)|] == old(reader.chunks)
                && var chunk := reader.chunks[|old(reader.chunks)|];
                   n == |Emitted(old(offset), chunk, p.Length)| && p[..n] == Emitted(old(offset), chunk, p.Length)
                   && offset == old(offset) + |chunk|
      ensures old(Synced()) ==> Synced()
    {
      n, err := reader.Read(p, before, during);
      if n > 0 {
        assert p[..n] == reader.chunks[|old(reader.chunks)|];
        n := Print(p, n);
      }
    }

    /** What Read does with the `size` bytes it finds at the front of `p`. */
    method Print(p: array<byte>, size: nat) returns (n: nat)
      requires size <= p.Length
      modifies `offset, p
      ensures n == |Emitted(old(offset), old(p[..size]), p.Length)| <= p.Length
      ensures p[..n] == Emitted(old(offset), old(p[..size]), p.Length) && offset == old(offset) + size
    {
      var buf := FormatFrame(offset, p[..size]);
      offset := offset + size;
      n := if |buf| <= p.Length then |buf| else p.Length;
      forall i | 0 <= i < n { p[i] := buf[i]; }
    }
  }

  // ---------------------------------------------------------------- Frames that do not fit

  lemma CutWithoutCr(s: bytes)
    requires CR !in s && Find(s, BREAKS) < |s|
    ensures Cut(s) == Find(s, BREAKS) + 1
  {
    assert s[Find(s, BREAKS)] in s;
  }

  lemma PrefixSlices(s: bytes, k: nat, i: nat)
    requires i < k <= |s|
    ensures s[..k][..i] == s[..i] && s[..k][i + 1..] == s[i + 1..][..k - i - 1]
  {
  }

  /** A prefix with a line break in it starts with the same line. */
  lemma FirstBreakOfPrefix(s: bytes, k: nat)
    requires CR !in s && k <= |s| && Find(s[..k], BREAKS) < k
    ensures var i := Find(s[..k], BREAKS);
      Find(s, BREAKS) == i && Cut(s) == Cut(s[..k]) == i + 1
  {
    var t := s[..k];
    assert t + s[k..] == s;
    FindWithin(t, s[k..], BREAKS);
    CutWithoutCr(s);
    CutWithoutCr(t);
  }

  lemma {:induction false} LinesOfPrefix(s: bytes, k: nat)
    requires CR !in s && k <= |s|
    ensures Lines(s[..k]) <= Lines(s)
    decreases |s|
  {
    var i := Find(s[..k], BREAKS);
    if i < k {
      FirstBreakOfPrefix(s, k);
      PrefixSlices(s, k, i);
      LinesOfPrefix(s[i + 1..], k - i - 1);
    }
  }

  lemma {:induction false} LineCount(s: bytes)
    requires CR !in s
    ensures |Lines(s)| == Count(s, LF)
    decreases |s|
  {
    var i := Find(s, BREAKS);
    FindIs(s, BREAKS);
    if i == |s| {
      NoneCounted(s);
    } else {
      assert s[i] in s && s[..i] + [LF] + s[i + 1..] == s;
      CountConcat(s[..i] + [LF], s[i + 1..]);
      CountConcat(s[..i], [LF]);
      NoneCounted(s[..i]);
      assert [LF][1..] == [];
      assert forall b :: b in s[i + 1..] ==> b in s;
      LineCount(s[i + 1..]);
    }
  }

  lemma {:induction false} CountConcat(a: bytes, b: bytes)
    ensures Count(a + b, LF) == Count(a, LF) + Count(b, LF)
  {
    if a == [] {
      assert a + b == b;
    } else {
      assert (a + b)[0] == a[0] && (a + b)[1..] == a[1..] + b;
      CountConcat(a[1..], b);
    }
  }

  lemma {:induction false} NoneCounted(s: bytes)
    requires LF !in s
    ensures Count(s, LF) == 0
  {
    if s != [] { NoneCounted(s[1..]); }
  }

  /** Without a blank line nothing is dispatched, and the last event ID string stays. */
  lemma {:induction false} NoBlankNoEvent(lines: seq<bytes>, st: Interp)
    requires [] !in lines
    ensures Interpret(lines, st).events == st.events && Interpret(lines, st).last == st.last
    decreases |lines|
  {
    if lines != [] {
      assert lines[0] in lines;
      NoBlankNoEvent(lines[1..], Line(st, lines[0]));
    }
  }

  lemma {:induction false} DataTextsNotBlank(lines: seq<bytes>)
    ensures [] !in DataTexts(lines)
  {
    if lines != [] { DataTextsNotBlank(lines[1..]); }
  }

  lemma OnlyLastBlank(id: int, msg: bytes, i: nat)
    requires i < |FrameTexts(id, msg)| - 1
    ensures FrameTexts(id, msg)[i] != []
  {
    var data := DataTexts(Split(msg));
    DataTextsNotBlank(Split(msg));
    if i > 0 {
      assert FrameTexts(id, msg)[i] == data[i - 1];
      assert data[i - 1] in data;
    }
  }

  /** Cutting text that ends in LF loses lines. */
  lemma CutLosesLines(s: bytes, k: nat)
    requires CR !in s && k < |s| && s[|s| - 1] == LF
    ensures Lines(s[..k]) <= Lines(s) && |Lines(s[..k])| < |Lines(s)|
  {
    LinesOfPrefix(s, k);
    LineCount(s);
    LineCount(s[..k]);
    CutLosesCount(s, k);
  }

  lemma CutLosesCount(s: bytes, k: nat)
    requires k < |s| && s[|s| - 1] == LF
    ensures Count(s[..k], LF) < Count(s, LF)
  {
    CountConcat(s[..k], s[k..]);
    assert s[..k] + s[k..] == s;
    CountPositive(s[k..]);
  }

  lemma CutFrameHasNoBlank(pos: int, msg: bytes, k: nat)
    requires CR !in msg && k < |Format(pos, msg)|
    ensures [] !in Lines(Format(pos, msg)[..k])
  {
    var frame := Format(pos, msg);
    var texts, lines := FrameTexts(pos + |msg|, msg), Lines(frame[..k]);
    FrameLines(pos, msg, []);
    assert frame + [] == frame;
    FormatCrFree(pos, msg);
    CutLosesLines(frame, k);
    forall i | 0 <= i < |lines| ensures lines[i] != [] {
      assert lines[i] == texts[i];
      OnlyLastBlank(pos + |msg|, msg, i);
    }
  }

  /** A frame cut short has lost its blank line: no event comes of it, and its id is not kept. */
  lemma CutFrameIsSilent(pos: int, msg: bytes, k: nat, st: Interp)
    requires CR !in msg && k < |Format(pos, msg)|
    ensures Parse(Format(pos, msg)[..k], st).events == st.events && Parse(Format(pos, msg)[..k], st).last == st.last
  {
    CutFrameHasNoBlank(pos, msg, k);
    NoBlankNoEvent(Lines(Format(pos, msg)[..k]), st);
  }

  lemma {:induction false} CountPositive(s: bytes)
    requires s != [] && s[|s| - 1] == LF
    ensures Count(s, LF) > 0
  {
    if s[0] != LF { CountPositive(s[1..]); }
  }

  lemma FormatCrFree(pos: int, msg: bytes)
    requires CR !in msg
    ensures CR !in Format(pos, msg)
  {
    TextBreakFree(pos + |msg|);
    SplitBreakFree(msg);
    DataLinesCrFree(Split(msg));
  }

  lemma {:induction false} DataLinesCrFree(lines: seq<bytes>)
    requires forall i :: 0 <= i < |lines| ==> BreakFree(lines[i])
    ensures CR !in DataLines(lines)
  {
    if lines != [] { DataLinesCrFree(lines[1..]); }
  }

  /** What the encoder emits is read as the event it stands for exactly when the frame, whose
      size depends on the newlines in the data, fits the buffer. */
  lemma EmittedIsReadIff(pos: int, msg: bytes, cap: nat)
    requires CR !in msg
    ensures Parse(Emitted(pos, msg, cap), START).events == [Event([], msg, Text(pos + |msg|))]
            <==> 13 + |Text(pos + |msg|)| + |msg| + 6 * Count(msg, LF) <= cap
  {
    FrameSize(pos, msg);
    if |Format(pos, msg)| <= cap {
      assert Emitted(pos, msg, cap) == Format(pos, msg);
      RoundTripIff(pos, msg);
    } else {
      CutFrameIsSilent(pos, msg, cap, START);
    }
  }
}
