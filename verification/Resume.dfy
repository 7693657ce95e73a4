/**
 server/middleware.go: resuming an event stream. A client that loses its connection comes back
 with the id of the last complete event as Last-Event-ID, and gets the stream from there.
 */
module Resume {
  import opened Bytes
  import opened Decimal
  import opened Stream
  import opened Sse
  import KeepAlive
  import Channels
  import Broker
  import opened Enc = Encoder
  import opened Fitting
  import opened Serving

  const DASH: byte := 45

  /** `offset`: Last-Event-ID, or else what precedes the first dash of Range; 0 if no number. */
  function Offset(lastEventId: bytes, range: bytes): int {
    Atoi(if lastEventId != [] then lastEventId else range[..Find(range, {DASH})])
  }

  /** One connection: the state it finds, the steps taken while it lasts, the packets that reach
      the client before it breaks, and the beginning of one more packet. */
  datatype Visit = Visit(st: State, acts: seq<Action>, packets: seq<KeepAlive.Packet>, cut: bytes)

  /** The bytes that reach the client. */
  function Received(v: Visit): bytes { KeepAlive.Wire(v.packets) + v.cut }

  /** The header of the next request, after the client has read `received`: the last event ID
      string, where there is one. */
  function NextHeader(header: bytes, received: bytes): bytes {
    var last := Parse(received, Sse.START).last;
    if last == [] then header else last
  }

  function DecodedBy(v: Visit): bytes { Flatten(DataOf(Parse(Received(v), Sse.START).events)) }

  /** The visit reads a channel whose log has grown at least to `floor`, from the offset the headers
      ask for, with buffers of `cap` bytes, and the client gets what it is sent up to any byte.
      `Serving` shows that the server sends nothing else. */
  predicate ValidVisit(v: Visit, header: bytes, range: bytes, floor: bytes, cap: nat) {
    && var start := Offset(header, range);
    && start >= 0 && Initial(v.st, start) && floor <= v.st.log && Valid(v.st, v.acts)
    && ReadsOf(v.acts, cap) && cap >= 1
    && Arrived(v.packets, v.cut, EmittedFrames(start, Run(v.st, v.acts).chunks, cap))
  }

  predicate ValidSession(visits: seq<Visit>, header: bytes, range: bytes, floor: bytes, cap: nat)
    decreases |visits|
  {
    visits == [] || (ValidVisit(visits[0], header, range, floor, cap)
                     && ValidSession(visits[1..], NextHeader(header, Received(visits[0])), range,
                                     Run(visits[0].st, visits[0].acts).log, cap))
  }

  function Decoded(visits: seq<Visit>): bytes {
    if visits == [] then [] else DecodedBy(visits[0]) + Decoded(visits[1..])
  }

  function FinalHeader(visits: seq<Visit>, header: bytes): bytes
    decreases |visits|
  {
    if visits == [] then header else FinalHeader(visits[1..], NextHeader(header, Received(visits[0])))
  }

  /** The log when the last connection breaks. */
  function FinalLog(visits: seq<Visit>, floor: bytes): bytes
    decreases |visits|
  {
    if visits == [] then floor
    else
      var v := visits[0];
      FinalLog(visits[1..], if Valid(v.st, v.acts) then Run(v.st, v.acts).log else floor)
  }

  // ---------------------------------------------------------------- What reaches the client

  /** The chunks a visit's client has received. */
  function Got(v: Visit): seq<bytes>
    requires Valid(v.st, v.acts)
  {
    var chunks := Run(v.st, v.acts).chunks;
    var k := |Contents(v.packets)|;
    if k <= |chunks| then chunks[..k] else []
  }

  /** The frames of the chunks received are whole, and no CR spoils them: neither the ones received
      nor the one the connection broke in. */
  predicate Readable(v: Visit, start: int, cap: nat)
    requires Valid(v.st, v.acts)
  {
    Fit(start, Got(v), cap) && CR !in Flatten(Run(v.st, v.acts).chunks) && start + |Flatten(Got(v))| < TWO63
  }

  lemma {:induction false} EmittedAreFrames(pos: int, chunks: seq<bytes>, cap: nat)
    requires Fit(pos, chunks, cap)
    ensures EmittedFrames(pos, chunks, cap) == Frames(pos, chunks)
    decreases |chunks|
  {
    if chunks != [] {
      assert Emitted(pos, chunks[0], cap) == Format(pos, chunks[0]);
      EmittedAreFrames(pos + |chunks[0]|, chunks[1..], cap);
    }
  }

  lemma {:induction false} EmittedPrefix(pos: int, chunks: seq<bytes>, cap: nat, k: nat)
    requires k <= |chunks|
    ensures |EmittedFrames(pos, chunks, cap)| == |chunks|
    ensures EmittedFrames(pos, chunks, cap)[..k] == EmittedFrames(pos, chunks[..k], cap)
    decreases |chunks|
  {
    if chunks != [] {
      EmittedPrefix(pos + |chunks[0]|, chunks[1..], cap, if k == 0 then 0 else k - 1);
      if k > 0 { assert chunks[..k][0] == chunks[0] && chunks[..k][1..] == chunks[1..][..k - 1]; }
    }
  }

  /** What is emitted for a chunk is the beginning of its frame. */
  lemma {:induction false} EmittedOfChunk(pos: int, chunks: seq<bytes>, cap: nat, k: nat, at: int)
    requires k < |chunks| == |EmittedFrames(pos, chunks, cap)| && at == pos + |Flatten(chunks[..k])|
    ensures EmittedFrames(pos, chunks, cap)[k] == Emitted(at, chunks[k], cap)
    decreases |chunks|
  {
    if k > 0 {
      UptoNext(chunks, k);
      EmittedPrefix(pos + |chunks[0]|, chunks[1..], cap, 0);
      EmittedCons(pos, chunks[0], chunks[1..], cap);
      assert [chunks[0]] + chunks[1..] == chunks;
      EmittedOfChunk(pos + |chunks[0]|, chunks[1..], cap, k - 1, at);
    }
  }

  lemma UptoNext(chunks: seq<bytes>, k: nat)
    requires 0 < k <= |chunks|
    ensures |Flatten(chunks[..k])| == |chunks[0]| + |Flatten(chunks[1..][..k - 1])|
  {
    assert chunks[..k][0] == chunks[0] && chunks[..k][1..] == chunks[1..][..k - 1];
  }

  lemma FlattenPrefix(chunks: seq<bytes>, k: nat)
    requires k <= |chunks|
    ensures Flatten(chunks[..k]) <= Flatten(chunks)
  {
    FlattenConcat(chunks[..k], chunks[k..]);
    assert chunks[..k] + chunks[k..] == chunks;
  }

  predicate NoCr(chunks: seq<bytes>) { forall i :: 0 <= i < |chunks| ==> CR !in chunks[i] }

  lemma {:induction false} ElementsCrFree(chunks: seq<bytes>)
    requires CR !in Flatten(chunks)
    ensures NoCr(chunks)
  {
    if chunks != [] {
      assert Flatten(chunks) == chunks[0] + Flatten(chunks[1..]);
      assert forall b :: b in chunks[0] || b in Flatten(chunks[1..]) ==> b in Flatten(chunks);
      ElementsCrFree(chunks[1..]);
    }
  }

  /** What the client has received is a slice of the log from the requested offset. */
  lemma GotIsSlice(v: Visit, header: bytes, range: bytes, floor: bytes, cap: nat)
    requires ValidVisit(v, header, range, floor, cap)
    ensures var start, log, got := Offset(header, range), Run(v.st, v.acts).log, Flatten(Got(v));
      got != [] ==> start + |got| <= |log| && got == log[start..start + |got|]
    ensures Got(v) != [] ==> Flatten(Got(v)) != []
  {
    var start, end := Offset(header, range), Run(v.st, v.acts);
    ChunksArePrefix(v.st, start, v.acts, cap, end.log);
    if Got(v) != [] {
      FlattenPrefix(end.chunks, |Got(v)|);
      assert forall c :: c in Got(v) ==> c in end.chunks;
      FirstNotEmpty(Got(v));
      SliceOfPrefix(end.log, start, Flatten(end.chunks), Flatten(Got(v)));
    }
  }

  lemma FirstNotEmpty(chunks: seq<bytes>)
    requires chunks != [] && forall c :: c in chunks ==> c != []
    ensures Flatten(chunks) != []
  {
    assert chunks[0] in chunks;
    assert Flatten(chunks) == chunks[0] + Flatten(chunks[1..]);
  }

  lemma SliceOfPrefix(log: bytes, start: nat, all: bytes, got: bytes)
    requires start <= |log| && all <= log[start..] && got <= all
    ensures start + |got| <= |log| && got == log[start..start + |got|]
  {
    assert log[start..][..|got|] == log[start..start + |got|];
  }

  /** Frames of the chunks `got`, sent from `start`, with keep-alive lines anywhere between them. */
  predicate Delivered(packets: seq<KeepAlive.Packet>, start: int, got: seq<bytes>) {
    && PingLines(packets) && Contents(packets) == Frames(start, got)
    && CR !in Flatten(got) && (got == [] || Flatten(got) != [])
    && 0 <= start && start + |Flatten(got)| < TWO63
  }

  lemma VisitFrames(v: Visit, header: bytes, range: bytes, floor: bytes, cap: nat)
    requires ValidVisit(v, header, range, floor, cap)
    ensures Contents(v.packets) == EmittedFrames(Offset(header, range), Got(v), cap)
  {
    EmittedPrefix(Offset(header, range), Run(v.st, v.acts).chunks, cap, 0);
    EmittedPrefix(Offset(header, range), Run(v.st, v.acts).chunks, cap, |Got(v)|);
  }

  lemma VisitDelivers(v: Visit, header: bytes, range: bytes, floor: bytes, cap: nat)
    requires ValidVisit(v, header, range, floor, cap) && Readable(v, Offset(header, range), cap)
    ensures Delivered(v.packets, Offset(header, range), Got(v))
  {
    VisitFrames(v, header, range, floor, cap);
    EmittedAreFrames(Offset(header, range), Got(v), cap);
    GotIsSlice(v, header, range, floor, cap);
    FlattenPrefix(Run(v.st, v.acts).chunks, |Got(v)|);
  }

  /** The packet the connection broke in holds no blank line. */
  lemma CutHasNoBlank(v: Visit, header: bytes, range: bytes, floor: bytes, cap: nat)
    requires ValidVisit(v, header, range, floor, cap) && CR !in Flatten(Run(v.st, v.acts).chunks)
    ensures [] !in Lines(v.cut)
  {
    if v.cut < KeepAlive.KEEPALIVE + [LF] {
      PingCutHasNoBlank(v.cut);
    } else {
      ElementsCrFree(Run(v.st, v.acts).chunks);
      FrameCutHasNoBlank(Offset(header, range), Run(v.st, v.acts).chunks, cap, |Contents(v.packets)|, v.cut);
    }
  }

  lemma FrameCutHasNoBlank(pos: int, chunks: seq<bytes>, cap: nat, k: nat, cut: bytes)
    requires NoCr(chunks) && k < |EmittedFrames(pos, chunks, cap)| && cut < EmittedFrames(pos, chunks, cap)[k]
    ensures [] !in Lines(cut)
  {
    EmittedPrefix(pos, chunks, cap, 0);
    var at := pos + |Flatten(chunks[..k])|;
    EmittedOfChunk(pos, chunks, cap, k, at);
    CutFrameHasNoBlank(at, chunks[k], |cut|);
    assert cut == Format(at, chunks[k])[..|cut|];
  }

  lemma PingCutHasNoBlank(cut: bytes)
    requires cut < KeepAlive.KEEPALIVE + [LF]
    ensures Lines(cut) == []
  {
    assert (KeepAlive.KEEPALIVE + [LF])[..|cut|] == KeepAlive.KEEPALIVE[..|cut|];
    assert LF !in KeepAlive.KEEPALIVE && CR !in KeepAlive.KEEPALIVE;
    assert forall i :: 0 <= i < |cut| ==> cut[i] == KeepAlive.KEEPALIVE[i];
    FindIs(cut, BREAKS);
  }

  // ---------------------------------------------------------------- One connection

  /** One connection, in any run whose frames reach the client whole: what the client decodes is what
      it was sent, and the header it comes back with asks for exactly the next byte. */
  lemma ReadableDecodes(v: Visit, header: bytes, range: bytes, floor: bytes, cap: nat)
    requires ValidVisit(v, header, range, floor, cap) && Readable(v, Offset(header, range), cap)
    ensures Decodes(v, header, range)
  {
    VisitDelivers(v, header, range, floor, cap);
    CutHasNoBlank(v, header, range, floor, cap);
    DeliveredIsDecoded(v, header, range);
  }

  lemma DeliveredIsDecoded(v: Visit, header: bytes, range: bytes)
    requires Valid(v.st, v.acts) && Delivered(v.packets, Offset(header, range), Got(v)) && [] !in Lines(v.cut)
    ensures Decodes(v, header, range)
  {
    DeliveredDecodes(v.packets, v.cut, header, Offset(header, range), Got(v));
    AsksForNext(header, range, Got(v));
  }

  lemma AsksForNext(header: bytes, range: bytes, got: seq<bytes>)
    requires 0 <= Offset(header, range) && Offset(header, range) + |Flatten(got)| < TWO63
    ensures Offset(if got == [] then header else Text(Offset(header, range) + |Flatten(got)|), range)
            == Offset(header, range) + |Flatten(got)|
  {
    if got != [] { OffsetOfText(Offset(header, range) + |Flatten(got)|, range); }
  }

  /** What the client decodes is what it was sent, and it comes back for the next byte. */
  predicate Decodes(v: Visit, header: bytes, range: bytes)
    requires Valid(v.st, v.acts)
  {
    && DecodedBy(v) == Flatten(Got(v))
    && Offset(NextHeader(header, Received(v)), range) == Offset(header, range) + |Flatten(Got(v))|
  }

  lemma DeliveredDecodes(packets: seq<KeepAlive.Packet>, cut: bytes, header: bytes, start: int, got: seq<bytes>)
    requires Delivered(packets, start, got) && [] !in Lines(cut)
    ensures var received := KeepAlive.Wire(packets) + cut;
      && Flatten(DataOf(Parse(received, Sse.START).events)) == Flatten(got)
      && NextHeader(header, received) == if got == [] then header else Text(start + |Flatten(got)|)
  {
    ReceivedParse(packets, cut, start, got);
    EventsCarryChunks(start, got);
    if got != [] { AtoiText(start + |Flatten(got)|); }
  }

  lemma ReceivedParse(packets: seq<KeepAlive.Packet>, cut: bytes, start: int, got: seq<bytes>)
    requires Delivered(packets, start, got) && [] !in Lines(cut)
    ensures var all := Parse(KeepAlive.Wire(packets) + cut, Sse.START);
            all.events == Events(start, got) && all.last == if got == [] then [] else Text(start + |Flatten(got)|)
  {
    DeliveredAreSse(packets, start, got);
    PacketsParse(packets, start, got);
    CutAddsNothing(packets, cut);
  }

  lemma OffsetOfText(n: nat, range: bytes)
    requires n < TWO63
    ensures Text(n) != [] && Offset(Text(n), range) == n
  {
    AtoiText(n);
  }

  /** The headers ask for the offset `n`: Last-Event-ID says so; or there is none and Range does, up to
      its first dash or altogether; or there is neither and `n` is 0. */
  predicate AskFor(lastEventId: bytes, range: bytes, n: nat) {
    || lastEventId == Text(n)
    || (lastEventId == [] && (range == Text(n) || Text(n) + [DASH] <= range))
    || (lastEventId == [] && range == [] && n == 0)
  }

  /** `Offset` is what the headers ask for, in each of these forms. */
  lemma OffsetIsAsked(lastEventId: bytes, range: bytes, n: nat)
    requires AskFor(lastEventId, range, n) && n < TWO63
    ensures Offset(lastEventId, range) == n
  {
    AtoiText(n);
    if lastEventId != Text(n) {
      if range == [] { AtoiEmpty(); } else { UpToDash(range, n); }
    }
  }

  lemma UpToDash(range: bytes, n: nat)
    requires range == Text(n) || Text(n) + [DASH] <= range
    ensures range[..Find(range, {DASH})] == Text(n)
  {
    DigitsValue(n);
    if range == Text(n) {
      FindIs(range, {DASH});
      assert range[..|range|] == range;
    } else {
      var rest := range[|Text(n)| + 1..];
      assert range == Text(n) + [DASH] + rest;
      FindFirst(Text(n), DASH, rest, {DASH});
      assert range[..|Text(n)|] == Text(n);
    }
  }

  /** Last-Event-ID comes before Range. */
  lemma LastEventIdComesFirst(lastEventId: bytes, range: bytes, range': bytes)
    requires lastEventId != []
    ensures Offset(lastEventId, range) == Offset(lastEventId, range')
  {
  }

  /** What is left of a packet at the end adds no event and no last event ID. */
  lemma CutAddsNothing(packets: seq<KeepAlive.Packet>, cut: bytes)
    requires KeepAlive.SsePackets(packets) && [] !in Lines(cut)
    ensures var whole := Parse(KeepAlive.Wire(packets), Sse.START);
            var all := Parse(KeepAlive.Wire(packets) + cut, Sse.START);
            all.events == whole.events && all.last == whole.last
  {
    var wire := KeepAlive.Wire(packets);
    WireLineEnded(packets);
    ParseConcat(wire, cut, Sse.START);
    NoBlankNoEvent(Lines(cut), Parse(wire, Sse.START));
  }

  lemma {:induction false} WireLineEnded(packets: seq<KeepAlive.Packet>)
    requires KeepAlive.SsePackets(packets)
    ensures LineEnded(KeepAlive.Wire(packets))
  {
    if packets != [] {
      WireLineEnded(packets[1..]);
      var first, rest := if packets[0].Data? then packets[0].data else packets[0].ack, KeepAlive.Wire(packets[1..]);
      assert LineEnded(first);
      if rest == [] { assert first + rest == first; }
    }
  }

  /** What the client's parser holds at the end of whole packets. */
  lemma PacketsParse(packets: seq<KeepAlive.Packet>, start: int, got: seq<bytes>)
    requires Delivered(packets, start, got) && KeepAlive.SsePackets(packets)
    ensures var id := if got == [] then [] else Text(start + |Flatten(got)|);
            Parse(KeepAlive.Wire(packets), Sse.START) == Interp([], id, id, [], Events(start, got))
  {
    KeepAlive.PingsDecodeToNothing(packets, Sse.START);
    KeepAlive.NonEmptyFlatten(KeepAlive.Payloads(packets));
    FramesFromStart(start, got);
  }

  lemma FramesFromStart(start: int, got: seq<bytes>)
    requires CR !in Flatten(got)
    ensures var id := if got == [] then [] else Text(start + |Flatten(got)|);
            Parse(Flatten(Frames(start, got)), Sse.START) == Interp([], id, id, [], Events(start, got))
  {
    ElementsCrFree(got);
    FramesParse(start, got, Sse.START);
    LastIdIsOffset(start, got, []);
    assert [] + Events(start, got) == Events(start, got);
  }

  lemma {:induction false} FramesLineEnded(start: int, got: seq<bytes>, frame: bytes)
    requires frame in Frames(start, got)
    ensures LineEnded(frame)
    decreases |got|
  {
    if frame == Format(start, got[0]) {
      FrameLineEnded(start, got[0]);
    } else {
      FramesLineEnded(start + |got[0]|, got[1..], frame);
    }
  }

  lemma {:induction false} PayloadsHave(packets: seq<KeepAlive.Packet>, i: nat)
    requires i < |packets| && packets[i].Data?
    ensures packets[i].data in KeepAlive.Payloads(packets)
  {
    if i > 0 { PayloadsHave(packets[1..], i - 1); }
  }

  lemma DeliveredAreSse(packets: seq<KeepAlive.Packet>, start: int, got: seq<bytes>)
    requires Delivered(packets, start, got)
    ensures KeepAlive.SsePackets(packets)
  {
    forall i | 0 <= i < |packets| && packets[i].Data? ensures LineEnded(packets[i].data) {
      var d := packets[i].data;
      PayloadsHave(packets, i);
      if d != [] {
        KeepAlive.NonEmptyHas(KeepAlive.Payloads(packets), d);
        FramesLineEnded(start, got, d);
      }
    }
  }

  // ---------------------------------------------------------------- Exactly when every connection decodes

  /** What is left of the log from `start` on has no CR and fits a buffer as one frame. */
  predicate Roomy(log: bytes, start: nat, cap: nat) {
    WholeFits(log, start, cap) && (start < |log| ==> CR !in log[start..])
  }

  lemma RoomyIsReadable(v: Visit, header: bytes, range: bytes, floor: bytes, cap: nat, log: bytes)
    requires ValidVisit(v, header, range, floor, cap) && Run(v.st, v.acts).log <= log && |log| < TWO63
    requires Roomy(log, Offset(header, range), cap)
    ensures Readable(v, Offset(header, range), cap)
  {
    var start, chunks := Offset(header, range), Run(v.st, v.acts).chunks;
    RunFits(v.st, start, v.acts, cap, log);
    ChunksArePrefix(v.st, start, v.acts, cap, log);
    FitPrefix(start, chunks, cap, |Got(v)|);
    GotIsSlice(v, header, range, floor, cap);
    OffsetFits(header, range);
  }

  lemma OffsetFits(header: bytes, range: bytes)
    ensures IsInt64(Offset(header, range))
  {
  }

  lemma {:induction false} FitPrefix(pos: int, chunks: seq<bytes>, cap: nat, k: nat)
    requires Fit(pos, chunks, cap) && k <= |chunks|
    ensures Fit(pos, chunks[..k], cap)
    decreases |chunks|
  {
    if k > 0 {
      assert chunks[..k][0] == chunks[0] && chunks[..k][1..] == chunks[1..][..k - 1];
      FitPrefix(pos + |chunks[0]|, chunks[1..], cap, k - 1);
    }
  }

  /** One connection to a channel with room: what the client decodes is what it was sent, and the
      header it comes back with asks for exactly the next byte. */
  lemma VisitDecodes(v: Visit, header: bytes, range: bytes, floor: bytes, cap: nat, log: bytes)
    requires ValidVisit(v, header, range, floor, cap) && Run(v.st, v.acts).log <= log && |log| < TWO63
    requires Roomy(log, Offset(header, range), cap)
    ensures Decodes(v, header, range)
  {
    RoomyIsReadable(v, header, range, floor, cap, log);
    ReadableDecodes(v, header, range, floor, cap);
  }

  /** Every connection that starts at `start` and ends with the log `log` decodes what it was sent. */
  ghost predicate EveryVisitDecodes(log: bytes, start: nat, cap: nat) {
    forall v, header, range ::
      ValidVisit(v, header, range, [], cap) && Offset(header, range) == start && Run(v.st, v.acts).log == log ==>
        Decodes(v, header, range)
  }

  /** The first Read of all there is to replay, received to its last byte. */
  function WholeRead(log: bytes, start: nat, cap: nat): Visit
    requires start < |log|
  {
    Visit(JustOpened(log, start), [Begin(cap)],
          [KeepAlive.Data(Emitted(start, log[start..Min(start + cap, |log|)], cap))], [])
  }

  lemma WholeReadIsValid(log: bytes, start: nat, cap: nat)
    requires start < |log| && start < TWO63 && cap >= 1
    ensures var v := WholeRead(log, start, cap);
      && ValidVisit(v, Text(start), [], [], cap) && Offset(Text(start), []) == start && Run(v.st, v.acts).log == log
      && Got(v) == [log[start..Min(start + cap, |log|)]]
      && Received(v) == Emitted(start, log[start..Min(start + cap, |log|)], cap)
  {
    var v := WholeRead(log, start, cap);
    var chunk := log[start..Min(start + cap, |log|)];
    var frame := Emitted(start, chunk, cap);
    FirstRead(v.st, start, cap);
    OffsetOfText(start, []);
    assert frame != [] by { FrameSize(start, chunk); }
    OnePacket(frame);
    assert EmittedFrames(start, [chunk], cap) == [frame] by {
      EmittedCons(start, chunk, [], cap);
      assert [chunk] + [] == [chunk];
    }
  }

  lemma OnePacket(frame: bytes)
    requires frame != []
    ensures var packets := [KeepAlive.Data(frame)];
      Contents(packets) == [frame] && KeepAlive.Wire(packets) + [] == frame && PingLines(packets)
  {
    var packets := [KeepAlive.Data(frame)];
    assert packets[1..] == [] && [frame][1..] == [];
    assert KeepAlive.Payloads(packets) == [frame];
    assert KeepAlive.NonEmpty([frame]) == [frame];
    assert KeepAlive.Wire(packets) == frame + [];
  }

  /** A cut frame, or one with a CR in it, is not read as the chunk it stands for. */
  lemma SpoiltIsNotRead(pos: int, chunk: bytes, cap: nat)
    requires chunk != [] && (CR in chunk || |Format(pos, chunk)| > cap)
    ensures Flatten(DataOf(Parse(Emitted(pos, chunk, cap), START).events)) != chunk
  {
    if CR in chunk {
      LinesCrFree(Emitted(pos, chunk, cap));
      InterpretCrFree(Lines(Emitted(pos, chunk, cap)), START);
      DataCrFree(Parse(Emitted(pos, chunk, cap), START).events);
    } else {
      CutFrameIsSilent(pos, chunk, cap, START);
    }
  }

  lemma {:induction false} DataCrFree(events: seq<Event>)
    requires forall e :: e in events ==> CR !in e.data
    ensures CR !in Flatten(DataOf(events))
  {
    if events != [] {
      DataCrFree(events[1..]);
      assert DataOf(events)[0] == events[0].data && DataOf(events)[1..] == DataOf(events[1..]);
      assert events[0] in events;
    }
  }

  /** For every log and every offset to start from: all connections that end with this log, whatever
      the writers' timing and wherever they break, decode exactly what they were sent if and only if
      what the log holds from there on has no CR and fits one buffer as one frame. */
  lemma EveryVisitDecodesIff(log: bytes, start: nat, cap: nat)
    requires |log| < TWO63 && cap >= 1
    ensures EveryVisitDecodes(log, start, cap) <==> Roomy(log, start, cap)
  {
    if Roomy(log, start, cap) {
      forall v, header, range |
        ValidVisit(v, header, range, [], cap) && Offset(header, range) == start && Run(v.st, v.acts).log == log
        ensures Decodes(v, header, range)
      {
        VisitDecodes(v, header, range, [], cap, log);
      }
    } else {
      var v, chunk := WholeRead(log, start, cap), log[start..Min(start + cap, |log|)];
      WholeReadIsValid(log, start, cap);
      if |chunk| == cap { FullReadIsCut(start, chunk, cap); } else { assert chunk == log[start..]; }
      SpoiltIsNotRead(start, chunk, cap);
      assert Flatten([chunk]) == chunk by { assert [chunk][1..] == []; assert chunk + [] == chunk; }
      assert !Decodes(v, Text(start), []);
    }
  }

  /** A response: what `Open` starts and `Produce` reads, handed out by the keep-alive reader and
      broken off after `n` bytes, is a visit of which the theorems below speak. */
  lemma ServedVisit(st: State, acts: seq<Action>, source: seq<KeepAlive.Payload>, served: seq<KeepAlive.Action>,
                    header: bytes, range: bytes, floor: bytes, cap: nat, n: nat)
    returns (v: Visit)
    requires Offset(header, range) >= 0 && Initial(st, Offset(header, range)) && floor <= st.log
    requires Valid(st, acts) && ReadsOf(acts, cap) && cap >= 1
    requires KeepAlive.NonEmpty(KeepAlive.DataOfAll(source))
            == EmittedFrames(Offset(header, range), Run(st, acts).chunks, cap)
    requires KeepAlive.Valid(source, KeepAlive.FRESH, served) && PingsAreLines(served)
    requires n <= |KeepAlive.Wire(KeepAlive.Run(source, KeepAlive.FRESH, served).out)|
    ensures ValidVisit(v, header, range, floor, cap) && v.st == st && v.acts == acts
    ensures Received(v) == KeepAlive.Wire(KeepAlive.Run(source, KeepAlive.FRESH, served).out)[..n]
  {
    var frames := EmittedFrames(Offset(header, range), Run(st, acts).chunks, cap);
    var packets, cut := AnyBreakIsAVisit(source, served, frames, n);
    v := Visit(st, acts, packets, cut);
  }

  // ---------------------------------------------------------------- Any number of connections

  /** On every connection the frames reach the client whole. */
  predicate AllReadable(visits: seq<Visit>, header: bytes, range: bytes, cap: nat)
    decreases |visits|
  {
    visits == [] || (Valid(visits[0].st, visits[0].acts) && Readable(visits[0], Offset(header, range), cap)
                     && AllReadable(visits[1..], NextHeader(header, Received(visits[0])), range, cap))
  }

  lemma {:induction false} LogGrows(st: State, acts: seq<Action>)
    requires Valid(st, acts)
    ensures st.log <= Run(st, acts).log
    decreases |acts|
  {
    if acts != [] {
      LogGrows(Next(st, acts[0]), acts[1..]);
      assert st.log <= Next(st, acts[0]).log;
    }
  }

  lemma {:induction false} FinalLogGrows(visits: seq<Visit>, header: bytes, range: bytes, floor: bytes, cap: nat)
    requires ValidSession(visits, header, range, floor, cap)
    ensures floor <= FinalLog(visits, floor)
    decreases |visits|
  {
    if visits != [] {
      var v := visits[0];
      LogGrows(v.st, v.acts);
      FinalLogGrows(visits[1..], NextHeader(header, Received(v)), range, Run(v.st, v.acts).log, cap);
    }
  }

  lemma Slices(log: bytes, start: nat, mid: nat, end: nat)
    requires start <= mid <= end <= |log|
    ensures log[start..mid] + log[mid..end] == log[start..end]
  {
  }

  lemma Join(a: bytes, b: bytes)
    ensures (a == [] ==> a + b == b) && (b == [] ==> a + b == a)
  {
  }

  /** The first connection decodes a slice of what will be the final log. */
  lemma FirstVisit(visits: seq<Visit>, header: bytes, range: bytes, floor: bytes, cap: nat)
    requires ValidSession(visits, header, range, floor, cap) && AllReadable(visits, header, range, cap) && visits != []
    ensures var v, start := visits[0], Offset(header, range);
            var mid, log := Offset(NextHeader(header, Received(v)), range), FinalLog(visits, floor);
      && log == FinalLog(visits[1..], Run(v.st, v.acts).log)
      && if mid == start then DecodedBy(v) == []
         else start < mid <= |log| && DecodedBy(v) == log[start..mid]
  {
    var v := visits[0];
    var header1, floor1 := NextHeader(header, Received(v)), Run(v.st, v.acts).log;
    FinalLogGrows(visits[1..], header1, range, floor1, cap);
    VisitSlice(v, header, range, floor, cap, FinalLog(visits[1..], floor1));
  }

  lemma VisitSlice(v: Visit, header: bytes, range: bytes, floor: bytes, cap: nat, log: bytes)
    requires ValidVisit(v, header, range, floor, cap) && Readable(v, Offset(header, range), cap)
    requires Run(v.st, v.acts).log <= log
    ensures var start, mid := Offset(header, range), Offset(NextHeader(header, Received(v)), range);
      if mid == start then DecodedBy(v) == []
      else start < mid <= |log| && DecodedBy(v) == log[start..mid]
  {
    ReadableDecodes(v, header, range, floor, cap);
    GotIsSlice(v, header, range, floor, cap);
    var got := Flatten(Got(v));
    if got != [] { SliceOfLonger(Run(v.st, v.acts).log, log, Offset(header, range), got); }
  }

  lemma SliceOfLonger(a: bytes, b: bytes, start: nat, got: bytes)
    requires a <= b && start + |got| <= |a| && got == a[start..start + |got|]
    ensures start + |got| <= |b| && got == b[start..start + |got|]
  {
  }

  /** The data decoded over all connections is the log from the first requested offset to the offset
      the client would ask for next. */
  predicate ExactlyOnce(visits: seq<Visit>, header: bytes, range: bytes, floor: bytes) {
    var start, next := Offset(header, range), Offset(FinalHeader(visits, header), range);
    var log := FinalLog(visits, floor);
    if next == start then Decoded(visits) == []
    else 0 <= start < next <= |log| && Decoded(visits) == log[start..next]
  }

  /** In any session whose frames reach the client whole, however often the connection breaks and at
      whichever bytes, resumption is exactly-once. */
  lemma {:induction false} ReadableSessions(visits: seq<Visit>, header: bytes, range: bytes, floor: bytes, cap: nat)
    requires ValidSession(visits, header, range, floor, cap) && AllReadable(visits, header, range, cap)
    requires Offset(header, range) >= 0
    ensures ExactlyOnce(visits, header, range, floor)
    decreases |visits|
  {
    if visits != [] {
      var v, start := visits[0], Offset(header, range);
      var header1, floor1 := NextHeader(header, Received(v)), Run(v.st, v.acts).log;
      FirstVisit(visits, header, range, floor, cap);
      ReadableSessions(visits[1..], header1, range, floor1, cap);
      var mid, next := Offset(header1, range), Offset(FinalHeader(visits, header), range);
      if start < mid < next { Slices(FinalLog(visits, floor), start, mid, next); }
      Join(DecodedBy(v), Decoded(visits[1..]));
    }
  }

  lemma WholeFitsLater(log: bytes, start: nat, mid: nat, cap: nat)
    requires start <= mid && Roomy(log, start, cap)
    ensures Roomy(log, mid, cap)
  {
    if mid < |log| {
      assert log[start..] == log[start..mid] + log[mid..];
      FrameGrows(start, log[start..mid], log[mid..]);
    }
  }

  /** With room for what is left, every connection of a session is readable. */
  lemma {:induction false} RoomySessions(
    visits: seq<Visit>, header: bytes, range: bytes, floor: bytes, cap: nat, log: bytes)
    requires ValidSession(visits, header, range, floor, cap) && FinalLog(visits, floor) <= log && |log| < TWO63
    requires Offset(header, range) >= 0 && Roomy(log, Offset(header, range), cap)
    ensures AllReadable(visits, header, range, cap)
    decreases |visits|
  {
    if visits != [] {
      var v := visits[0];
      var header1, floor1 := NextHeader(header, Received(v)), Run(v.st, v.acts).log;
      FinalLogGrows(visits[1..], header1, range, floor1, cap);
      RoomyIsReadable(v, header, range, floor, cap, log);
      VisitDecodes(v, header, range, floor, cap, log);
      WholeFitsLater(log, Offset(header, range), Offset(header1, range), cap);
      RoomySessions(visits[1..], header1, range, floor1, cap, log);
    }
  }

  /** Resumption is exactly-once: however often the connection breaks, at whichever bytes, and
      whatever the writers' timing, the data decoded over all connections is the log from the first
      requested offset to the offset the client would ask for next, provided that the log from that
      first offset on has no CR and fits one buffer as one frame. Without that, `EveryVisitDecodesIff`
      has a connection that fails. */
  lemma ResumptionIsExactlyOnce(visits: seq<Visit>, header: bytes, range: bytes, floor: bytes, cap: nat)
    requires ValidSession(visits, header, range, floor, cap) && Offset(header, range) >= 0
    requires |FinalLog(visits, floor)| < TWO63 && Roomy(FinalLog(visits, floor), Offset(header, range), cap)
    ensures ExactlyOnce(visits, header, range, floor)
  {
    RoomySessions(visits, header, range, floor, cap, FinalLog(visits, floor));
    ReadableSessions(visits, header, range, floor, cap);
  }

  /** `NoContent`: the channel is done and the offset lies at or past its end. */
  predicate NoContent(st: State, at: int) { st.done && at >= |st.log| }

  datatype Answer = NotRegistered | Gone | Plain | EventStream

  /** newReader, down to the keep-alive reader: a channel without a key is left to the storage, a
      finished one asked at or past its end is No Content, and otherwise the reader starts where
      the headers say. For an event stream the encoder is told the same offset; the two disagree
      exactly for negative ones. The last clauses say where a request starts by its headers. */
  method Open(redis: Broker.Redis, key: string, lastEventId: bytes, range: bytes, events: bool)
    returns (answer: Answer, rd: Broker.Subscriber?, enc: Encoder?)
    modifies redis`subscriber, redis`inbox, redis`closes
    ensures answer.NotRegistered? <==> Channels.IdKey(key) !in redis.strings
    ensures redis.strings == old(redis.strings)
    ensures !answer.NotRegistered? ==> rd != null && fresh(rd) && rd.redis == redis && rd.channel == key
    ensures !answer.NotRegistered? ==>
      redis.subscriber == key && (answer.Gone? <==> NoContent(rd.View(), Offset(lastEventId, range)))
    ensures answer.Plain? ==> !events && Initial(rd.View(), Max(Offset(lastEventId, range), 0))
    ensures answer.EventStream? ==>
      && events && enc != null && fresh(enc) && enc.reader == rd
      && (enc.Synced() <==> Offset(lastEventId, range) >= 0)
      && (Offset(lastEventId, range) >= 0 ==>
            Initial(rd.View(), Offset(lastEventId, range)) && enc.offset == Offset(lastEventId, range))
    ensures forall n: nat :: n < TWO63 && AskFor(lastEventId, range, n) && !answer.NotRegistered? ==>
      && (answer.Gone? <==> rd.View().done && n >= |rd.View().log|)
      && (answer.Plain? ==> Initial(rd.View(), n))
      && (answer.EventStream? ==> Initial(rd.View(), n) && enc.offset == n)
  {
    forall n: nat | n < TWO63 && AskFor(lastEventId, range, n) ensures Offset(lastEventId, range) == n {
      OffsetIsAsked(lastEventId, range, n);
    }
    var at := Offset(lastEventId, range);
    var err;
    rd, err := Broker.OpenAt(redis, key, at);
    if err.ErrNotRegistered? { return NotRegistered, null, null; }
    var gone := rd.NoContent(at);
    if gone { return Gone, rd, null; }
    if !events { return Plain, rd, null; }
    enc := new Encoder(rd);
    var _, _ := enc.Seek(at, 0);
    answer := EventStream;
  }

  /** A client that has decoded the whole of a finished stream is told No Content when it comes
      back; one that has not is served again. */
  lemma FinishedClientGetsNoContent(
    visits: seq<Visit>, header: bytes, range: bytes, floor: bytes, cap: nat, st: State)
    requires ValidSession(visits, header, range, floor, cap) && AllReadable(visits, header, range, cap)
    requires 0 <= Offset(header, range) <= |st.log|
    requires st.done && st.log == FinalLog(visits, floor)
    ensures NoContent(st, Offset(FinalHeader(visits, header), range))
            <==> Decoded(visits) == st.log[Offset(header, range)..]
  {
    ReadableSessions(visits, header, range, floor, cap);
    SliceIsRest(st.log, Offset(header, range), Offset(FinalHeader(visits, header), range), Decoded(visits));
  }

  lemma SliceIsRest(log: bytes, start: nat, next: int, got: bytes)
    requires start <= |log| && if next == start then got == [] else start < next <= |log| && got == log[start..next]
    ensures next >= |log| <==> got == log[start..]
  {
    assert |log[start..]| == |log| - start;
  }
}
