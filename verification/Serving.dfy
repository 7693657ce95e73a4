/**
 server/keepalivereader.go over sse/sse.go: the producer goroutine's Reads of the encoder, and what of
 them reaches a client whose connection can break at any byte.
 */
module Serving {
  import opened Bytes
  import opened Stream
  import opened Sse
  import KeepAlive
  import Channels
  import Broker
  import Wakeup
  import Drain
  import opened Enc = Encoder
  import opened Fitting

  /** The payloads that hold anything. */
  function Contents(out: seq<KeepAlive.Packet>): seq<bytes> { KeepAlive.NonEmpty(KeepAlive.Payloads(out)) }

  /** Every keep-alive packet is a `:keepalive` line. */
  predicate PingLines(packets: seq<KeepAlive.Packet>) {
    forall i :: 0 <= i < |packets| && packets[i].Ping? ==> packets[i].ack == KeepAlive.KEEPALIVE + [LF]
  }

  /** The beginning of a keep-alive line or of the frame after the first `k`, and not all of it. */
  predicate CutShort(cut: bytes, frames: seq<bytes>, k: nat) {
    cut < KeepAlive.KEEPALIVE + [LF] || (k < |frames| && cut < frames[k])
  }

  /** The client has the frames in order from the first on, with keep-alive lines anywhere between
      them, and the beginning of one more packet. */
  predicate Arrived(packets: seq<KeepAlive.Packet>, cut: bytes, frames: seq<bytes>) {
    PingLines(packets) && Contents(packets) <= frames && CutShort(cut, frames, |Contents(packets)|)
  }

  // ---------------------------------------------------------------- What the producer reads

  /** The results of an encoder's Reads, from `start` and into buffers of `cap` bytes, are the frames
      of what its reader has returned. */
  predicate Produced(start: int, source: seq<KeepAlive.Payload>, chunks: seq<bytes>, offset: int, cap: nat) {
    && KeepAlive.NonEmpty(KeepAlive.DataOfAll(source)) == EmittedFrames(start, chunks, cap)
    && offset == start + |Flatten(chunks)|
  }

  lemma NothingRead(source: seq<KeepAlive.Payload>, result: KeepAlive.Payload)
    requires result.data == []
    ensures KeepAlive.NonEmpty(KeepAlive.DataOfAll(source + [result]))
            == KeepAlive.NonEmpty(KeepAlive.DataOfAll(source))
  {
    var nothing: seq<bytes> := [[]];
    assert KeepAlive.DataOfAll(source + [result]) == KeepAlive.DataOfAll(source) + nothing;
    KeepAlive.NonEmptyConcat(KeepAlive.DataOfAll(source), nothing);
    assert nothing[1..] == [];
    assert KeepAlive.NonEmpty(nothing) == [];
  }

  lemma FrameRead(source: seq<KeepAlive.Payload>, result: KeepAlive.Payload)
    requires result.data != []
    ensures KeepAlive.NonEmpty(KeepAlive.DataOfAll(source + [result]))
            == KeepAlive.NonEmpty(KeepAlive.DataOfAll(source)) + [result.data]
  {
    assert KeepAlive.DataOfAll(source + [result]) == KeepAlive.DataOfAll(source) + [result.data];
    KeepAlive.NonEmptyConcat(KeepAlive.DataOfAll(source), [result.data]);
    assert [result.data][1..] == [];
    assert KeepAlive.NonEmpty([result.data]) == [result.data];
  }

  /** One more Read of the encoder. */
  lemma ProducedMore(start: int, source: seq<KeepAlive.Payload>, chunks: seq<bytes>, offset: int, cap: nat,
                     result: KeepAlive.Payload, chunks': seq<bytes>, offset': int)
    requires Produced(start, source, chunks, offset, cap)
    requires if chunks' == chunks then result.data == [] && offset' == offset
             else |chunks'| == |chunks| + 1 && chunks'[..|chunks|] == chunks
                  && result.data == Emitted(offset, chunks'[|chunks|], cap) != []
                    && offset' == offset + |chunks'[|chunks|]|
    ensures Produced(start, source + [result], chunks', offset', cap)
  {
    if chunks' == chunks {
      NothingRead(source, result);
    } else {
      var chunk := chunks'[|chunks|];
      assert chunks' == chunks + [chunk];
      FrameRead(source, result);
      FlattenSnoc(chunks, chunk);
      EmittedSnoc(start, chunks, offset, chunk, cap);
      EmittedCons(offset, chunk, [], cap);
      assert [chunk] + [] == [chunk];
    }
  }

  lemma {:induction false} SeenAreSends(c: string, sends: seq<Channels.Send>)
    ensures forall a :: a in Channels.SeenAll(c, sends) ==> !a.Begin?
  {
    if sends != [] { SeenAreSends(c, sends[1..]); }
  }

  /** Nothing but the last result is an error, and that only when the producer has stopped. */
  predicate NilBefore(source: seq<KeepAlive.Payload>, going: bool) {
    forall k :: 0 <= k < |source| && (going || k < |source| - 1) ==> source[k].err.Nil?
  }

  /** One Read with buffers of `cap` bytes after a run with such Reads. */
  lemma RunOfReads(st: State, acts: seq<Action>, cap: nat, c: string, before: seq<Channels.Send>,
                   during: seq<Channels.Send>)
    returns (more: seq<Action>)
    requires Valid(st, acts) && Run(st, acts).pc.Rest? && ReadsOf(acts, cap)
    ensures Valid(st, more) && Run(st, more) == Broker.ReadResult(Run(st, acts), cap, c, before, during)
    ensures ReadsOf(more, cap)
  {
    var mid := Run(st, acts);
    var steps := Broker.ReadSteps(mid, cap, c, before, during);
    Broker.ReadIsRun(mid, cap, c, before, during);
    RunConcat(st, acts, steps);
    StepsOfRead(mid, cap, c, before, during);
    more := acts + steps;
  }

  lemma StepsOfRead(st: State, cap: nat, c: string, before: seq<Channels.Send>, during: seq<Channels.Send>)
    requires st.pc.Rest?
    ensures ReadsOf(Broker.ReadSteps(st, cap, c, before, during), cap)
  {
    SeenAreSends(c, before);
    SeenAreSends(c, during);
  }

  /** The producer goroutine: Reads of the encoder, each into a new buffer, until one returns an
      error; the last one may not have returned. `around` holds what other goroutines do to the
      channel before and during each Read. What the keep-alive reader is given is the frames of
      what the reader has returned, and the reader has taken a run of the machine. The last result is
      EOF exactly when the reader has returned EOF, and the producer stops for nothing else. */
  method Produce(enc: Encoder, around: seq<(seq<Channels.Send>, seq<Channels.Send>)>, cap: nat)
    returns (source: seq<KeepAlive.Payload>, ghost acts: seq<Action>)
    requires enc.reader.redis.subscriber == enc.reader.channel && enc.reader.pc == Rest && enc.reader.chunks == []
            && cap >= 1
    modifies enc, enc.reader, enc.reader.redis
    ensures KeepAlive.NonEmpty(KeepAlive.DataOfAll(source)) == EmittedFrames(old(enc.offset), enc.reader.chunks, cap)
    ensures Valid(old(enc.reader.View()), acts) && Run(old(enc.reader.View()), acts) == enc.reader.View()
    ensures ReadsOf(acts, cap) && NilBefore(source, false)
    ensures !old(enc.reader.eof) ==> (enc.reader.eof <==> EndsInEof(source))
    ensures EndsInEof(source) || enc.reader.pc != Rest || |source| == |around|
  {
    ghost var st, start := enc.reader.View(), enc.offset;
    source, acts := [], [];
    var i, going := 0, true;
    ghost var before := enc.reader.eof;
    while going && i < |around|
      invariant enc.reader.redis.subscriber == enc.reader.channel && (going ==> enc.reader.pc == Rest)
      invariant Produced(start, source, enc.reader.chunks, enc.offset, cap)
      invariant Valid(st, acts) && Run(st, acts) == enc.reader.View()
      invariant ReadsOf(acts, cap) && NilBefore(source, going)
      invariant !before ==> (enc.reader.eof <==> EndsInEof(source))
      invariant i <= |around| && (going ==> |source| == i && !EndsInEof(source))
      invariant going || EndsInEof(source) || enc.reader.pc != Rest
    {
      acts := RunOfReads(st, acts, cap, enc.reader.channel, around[i].0, around[i].1);
      source, going := ProduceOne(enc, source, around[i].0, around[i].1, cap, start);
      i := i + 1;
    }
  }

  predicate EndsInEof(source: seq<KeepAlive.Payload>) { source != [] && source[|source| - 1].err.Eof? }

  method ProduceOne(enc: Encoder, source: seq<KeepAlive.Payload>, before: seq<Channels.Send>,
                    during: seq<Channels.Send>, cap: nat, ghost start: int)
    returns (source': seq<KeepAlive.Payload>, going: bool)
    requires enc.reader.redis.subscriber == enc.reader.channel && enc.reader.pc == Rest && cap >= 1
    requires Produced(start, source, enc.reader.chunks, enc.offset, cap) && NilBefore(source, true)
    modifies enc, enc.reader, enc.reader.redis
    ensures enc.reader.redis.subscriber == enc.reader.channel && (going ==> enc.reader.pc == Rest)
    ensures Produced(start, source', enc.reader.chunks, enc.offset, cap)
    ensures enc.reader.View() == Broker.ReadResult(old(enc.reader.View()), cap, enc.reader.channel, before, during)
    ensures NilBefore(source', going)
    ensures if enc.reader.pc != Rest then source' == source && !going
            else |source'| == |source| + 1 && (going <==> !EndsInEof(source'))
    ensures !EndsInEof(source) ==> (enc.reader.eof <==> old(enc.reader.eof) || EndsInEof(source'))
  {
    var p := new byte[cap];
    ghost var chunks, offset := enc.reader.chunks, enc.offset;
    var n, err := enc.Read(p, before, during);
    if err.Blocked? { return source, false; }
    var result := KeepAlive.Payload(p[..n], if err.EOF? then KeepAlive.Eof else KeepAlive.Nil);
    ProducedMore(start, source, chunks, offset, cap, result, enc.reader.chunks, enc.offset);
    return source + [result], !err.EOF?;
  }

  // ---------------------------------------------------------------- The end of a finished stream

  /** A finished stream is served to its end: when a channel was closed once, after its last byte, a
      reader that has returned EOF has made the producer's last result EOF; and once all results have
      been handed out, Read has returned EOF, and before it the frames of exactly the log from the
      start offset to its end. */
  lemma FinishedStreamIsServed(st: State, start: nat, acts: seq<Action>, cap: nat, source: seq<KeepAlive.Payload>,
                               served: seq<KeepAlive.Action>)
    requires Initial(st, start) && Valid(st, acts) && ReadsOf(acts, cap) && Sized(acts, cap, Max(cap, 1))
    requires start <= |Run(st, acts).log| && Run(st, acts).closes == [|Run(st, acts).log|] && Run(st, acts).eof
    requires KeepAlive.NonEmpty(KeepAlive.DataOfAll(source)) == EmittedFrames(start, Run(st, acts).chunks, cap)
    requires EndsInEof(source)
    requires KeepAlive.Valid(source, KeepAlive.FRESH, served)
    requires KeepAlive.Run(source, KeepAlive.FRESH, served).taken == |source|
    ensures var end := KeepAlive.Run(source, KeepAlive.FRESH, served);
      end.eof && Contents(end.out) == EmittedFrames(start, Run(st, acts).chunks, cap)
    ensures Flatten(Run(st, acts).chunks) == Run(st, acts).log[start..]
  {
    KeepAlive.EofArrives(source, served);
    Wakeup.InitialAwake(st, start, cap);
    Wakeup.RunAwake(st, start, cap, acts);
    Drain.DeliveredToEnd(Run(st, acts), start);
  }

  // ---------------------------------------------------------------- What the keep-alive reader serves

  predicate PingsAreLines(acts: seq<KeepAlive.Action>) {
    forall a :: a in acts && a.Read? ==> a.ack == KeepAlive.KEEPALIVE + [LF]
  }

  lemma {:induction false} RunPings(source: seq<KeepAlive.Payload>, st: KeepAlive.State, acts: seq<KeepAlive.Action>)
    requires KeepAlive.Valid(source, st, acts) && PingLines(st.out) && PingsAreLines(acts)
    ensures PingLines(KeepAlive.Run(source, st, acts).out)
    decreases |acts|
  {
    if acts != [] {
      assert acts[0] in acts;
      RunPings(source, KeepAlive.Next(source, st, acts[0]), acts[1..]);
    }
  }

  lemma PrefixOfConcat(a: bytes, b: bytes, n: nat)
    requires |a| <= n <= |a| + |b|
    ensures (a + b)[..n] == a + b[..n - |a|]
  {
  }

  /** Where the first `n` bytes of the packets end: after whole packets, in the middle of one. */
  lemma {:induction false} SplitPackets(out: seq<KeepAlive.Packet>, n: nat) returns (k: nat, cut: bytes)
    requires n <= |KeepAlive.Wire(out)|
    ensures k <= |out| && KeepAlive.Wire(out)[..n] == KeepAlive.Wire(out[..k]) + cut
    ensures k == |out| ==> cut == []
    ensures k < |out| ==> cut < if out[k].Data? then out[k].data else out[k].ack
    decreases |out|
  {
    if out == [] { return 0, []; }
    var first := if out[0].Data? then out[0].data else out[0].ack;
    if n < |first| {
      k, cut := 0, first[..n];
      assert KeepAlive.Wire(out)[..n] == cut == [] + cut;
    } else {
      k, cut := SplitPackets(out[1..], n - |first|);
      assert out[..k + 1][0] == out[0] && out[..k + 1][1..] == out[1..][..k];
      PrefixOfConcat(first, KeepAlive.Wire(out[1..]), n);
      assert first + (KeepAlive.Wire(out[1..][..k]) + cut) == first + KeepAlive.Wire(out[1..][..k]) + cut;
      k := k + 1;
    }
  }

  lemma {:induction false} PayloadsConcat(a: seq<KeepAlive.Packet>, b: seq<KeepAlive.Packet>)
    ensures KeepAlive.Payloads(a + b) == KeepAlive.Payloads(a) + KeepAlive.Payloads(b)
  {
    if a == [] {
      assert a + b == b;
    } else {
      assert (a + b)[0] == a[0] && (a + b)[1..] == a[1..] + b;
      PayloadsConcat(a[1..], b);
      var head := if a[0].Data? then [a[0].data] else [];
      assert head + (KeepAlive.Payloads(a[1..]) + KeepAlive.Payloads(b))
        == head + KeepAlive.Payloads(a[1..]) + KeepAlive.Payloads(b);
    }
  }

  lemma ContentsConcat(a: seq<KeepAlive.Packet>, b: seq<KeepAlive.Packet>)
    ensures Contents(a + b) == Contents(a) + Contents(b)
  {
    PayloadsConcat(a, b);
    KeepAlive.NonEmptyConcat(KeepAlive.Payloads(a), KeepAlive.Payloads(b));
  }

  /** The contents of the first packets are the first contents; a non-empty payload comes next. */
  lemma ContentsPrefix(out: seq<KeepAlive.Packet>, k: nat)
    requires k < |out|
    ensures Contents(out[..k]) <= Contents(out)
    ensures out[k].Data? && out[k].data != [] ==>
      |Contents(out[..k])| < |Contents(out)| && Contents(out)[|Contents(out[..k])|] == out[k].data
  {
    assert out == out[..k] + ([out[k]] + out[k + 1..]);
    ContentsConcat(out[..k], [out[k]] + out[k + 1..]);
    ContentsConcat([out[k]], out[k + 1..]);
    assert [out[k]][1..] == [];
    if out[k].Data? && out[k].data != [] {
      assert KeepAlive.Payloads([out[k]]) == [out[k].data] && [out[k].data][1..] == [];
      assert Contents([out[k]]) == [out[k].data];
    }
  }

  lemma ServedContents(source: seq<KeepAlive.Payload>, acts: seq<KeepAlive.Action>)
    requires KeepAlive.Valid(source, KeepAlive.FRESH, acts)
    ensures Contents(KeepAlive.Run(source, KeepAlive.FRESH,
            acts).out) <= KeepAlive.NonEmpty(KeepAlive.DataOfAll(source))
  {
    KeepAlive.KeepAlivesAreInvisible(source, acts);
    var taken := KeepAlive.Run(source, KeepAlive.FRESH, acts).taken;
    assert KeepAlive.DataOfAll(source) == KeepAlive.DataOfAll(source[..taken]) + KeepAlive.DataOfAll(source[taken..]);
    KeepAlive.NonEmptyConcat(KeepAlive.DataOfAll(source[..taken]), KeepAlive.DataOfAll(source[taken..]));
  }

  /** Whatever the keep-alive reader makes of an encoder's Reads, for any schedule of source reads
      and timer firings, and wherever the connection breaks: the client has whole packets and the
      beginning of one more. */
  lemma AnyBreakIsAVisit(source: seq<KeepAlive.Payload>, acts: seq<KeepAlive.Action>, frames: seq<bytes>, n: nat)
    returns (packets: seq<KeepAlive.Packet>, cut: bytes)
    requires KeepAlive.Valid(source, KeepAlive.FRESH, acts) && PingsAreLines(acts)
    requires KeepAlive.NonEmpty(KeepAlive.DataOfAll(source)) == frames
    requires n <= |KeepAlive.Wire(KeepAlive.Run(source, KeepAlive.FRESH, acts).out)|
    ensures KeepAlive.Wire(packets) + cut == KeepAlive.Wire(KeepAlive.Run(source, KeepAlive.FRESH, acts).out)[..n]
    ensures Arrived(packets, cut, frames)
  {
    RunPings(source, KeepAlive.FRESH, acts);
    ServedContents(source, acts);
    packets, cut := BreakPackets(KeepAlive.Run(source, KeepAlive.FRESH, acts).out, frames, n);
  }

  /** The first `n` bytes of packets whose contents are the first of `frames`. */
  lemma BreakPackets(out: seq<KeepAlive.Packet>, frames: seq<bytes>, n: nat)
    returns (packets: seq<KeepAlive.Packet>, cut: bytes)
    requires PingLines(out) && Contents(out) <= frames && n <= |KeepAlive.Wire(out)|
    ensures KeepAlive.Wire(packets) + cut == KeepAlive.Wire(out)[..n]
    ensures Arrived(packets, cut, frames)
  {
    var k;
    k, cut := SplitPackets(out, n);
    packets := out[..k];
    if k < |out| {
      ContentsPrefix(out, k);
      if out[k].Data? { CutOfFrame(out, frames, k, cut); }
    } else {
      assert out[..k] == out;
    }
  }

  lemma CutOfFrame(out: seq<KeepAlive.Packet>, frames: seq<bytes>, k: nat, cut: bytes)
    requires k < |out| && out[k].Data? && cut < out[k].data && Contents(out) <= frames
    ensures CutShort(cut, frames, |Contents(out[..k])|)
  {
    ContentsPrefix(out, k);
  }
}
