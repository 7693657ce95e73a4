/**
 server/keepalivereader.go: a producer goroutine reads the source into a bounded channel; Read
 hands out what comes first of a payload, the timer and the client's departure.
 */
module KeepAlive {
  import opened Bytes
  import opened Sse

  const CAPACITY := 100

  datatype SourceError = Nil | Eof | Failed

  /** One result of the source's Read. */
  datatype Payload = Payload(data: bytes, err: SourceError)

  /** What Read has handed out. Only the proof tells the two kinds apart. */
  datatype Packet = Data(data: bytes) | Ping(ack: bytes)

  /** The three cases of the select statement. */
  datatype Choice = Arrived | TimedOut | ClientLeft

  datatype Held = Nothing | Holding(payload: Payload)

  datatype State = State(
    given: nat,            // how many results the source has given
    running: bool,         // the producer loop has not ended
    held: Held,            // read, and waiting for room in the channel
    ch: seq<Payload>,
    eof: bool,
    left: bool,            // auxiliary: the EOF was the client's departure
    taken: nat,            // auxiliary: how many results Read has handed out
    out: seq<Packet>)      // auxiliary: what Read has returned so far

  datatype Action = Produce | Enqueue | Read(choice: Choice, ack: bytes)

  /** `source` lists the results the source's Reads give. */
  predicate Enabled(source: seq<Payload>, st: State, a: Action) {
    match a
    case Produce => st.running && st.held.Nothing? && st.given < |source|
    case Enqueue => st.held.Holding? && |st.ch| < CAPACITY
    case Read(choice, _) => st.eof || (choice.Arrived? ==> st.ch != [])
  }

  function Next(source: seq<Payload>, st: State, a: Action): State
    requires Enabled(source, st, a)
  {
    match a
    case Produce => st.(given := st.given + 1, held := Holding(source[st.given]))
    case Enqueue =>
      st.(held := Nothing, ch := st.ch + [st.held.payload], running := st.running && st.held.payload.err.Nil?)
    case Read(choice, ack) =>
      if st.eof then st
      else
        match choice
        case Arrived =>
          var payload := st.ch[0];
          st.(ch := st.ch[1..], eof := payload.err.Eof?, taken := st.taken + 1, out := st.out + [Data(payload.data)])
        case TimedOut => st.(out := st.out + [Ping(ack)])
        case ClientLeft => st.(eof := true, left := true)
  }

  predicate Valid(source: seq<Payload>, st: State, acts: seq<Action>)
    decreases |acts|
  {
    acts == [] || (Enabled(source, st, acts[0]) && Valid(source, Next(source, st, acts[0]), acts[1..]))
  }

  function Run(source: seq<Payload>, st: State, acts: seq<Action>): State
    requires Valid(source, st, acts)
    decreases |acts|
  {
    if acts == [] then st else Run(source, Next(source, st, acts[0]), acts[1..])
  }

  const FRESH := State(0, true, Nothing, [], false, false, 0, [])

  function Payloads(out: seq<Packet>): seq<bytes> {
    if out == [] then []
    else (if out[0].Data? then [out[0].data] else []) + Payloads(out[1..])
  }

  function DataOfAll(ps: seq<Payload>): seq<bytes> {
    seq(|ps|, i requires 0 <= i < |ps| => ps[i].data)
  }

  /** Nothing is lost, duplicated or reordered between the source and what Read has returned. */
  predicate Conserved(source: seq<Payload>, st: State) {
    && st.taken + |st.ch| + (if st.held.Holding? then 1 else 0) == st.given <= |source|
    && (forall i :: 0 <= i < |st.ch| ==> st.ch[i] == source[st.taken + i])
    && (st.held.Holding? ==> st.held.payload == source[st.given - 1])
    && Payloads(st.out) == DataOfAll(source[..st.taken])
    && |st.ch| <= CAPACITY
  }

  /** Only the newest result of the source can carry an error: the producer stops after it. */
  predicate ErrorLast(source: seq<Payload>, st: State) {
    && Conserved(source, st)
    && (forall i :: 0 <= i < st.given - 1 ==> source[i].err.Nil?)
    && (st.running && st.held.Nothing? && st.given > 0 ==> source[st.given - 1].err.Nil?)
    && (!st.running ==> st.held.Nothing? && st.given > 0 && !source[st.given - 1].err.Nil?)
    && (st.taken > 0 && source[st.taken - 1].err.Eof? ==> st.eof)
    && (st.eof && !st.left ==> st.taken > 0 && source[st.taken - 1].err.Eof?)
  }

  lemma {:induction false} PayloadsSnoc(out: seq<Packet>, p: Packet)
    ensures Payloads(out + [p]) == Payloads(out) + (if p.Data? then [p.data] else [])
  {
    if out == [] {
      assert [p][1..] == [];
    } else {
      assert (out + [p])[0] == out[0] && (out + [p])[1..] == out[1..] + [p];
      PayloadsSnoc(out[1..], p);
    }
  }

  lemma DataSnoc(source: seq<Payload>, k: nat)
    requires k < |source|
    ensures DataOfAll(source[..k + 1]) == DataOfAll(source[..k]) + [source[k].data]
  {
  }

  lemma ArrivedErrorLast(source: seq<Payload>, st: State, a: Action)
    requires ErrorLast(source, st) && Enabled(source, st, a)
    requires a.Read? && a.choice.Arrived? && !st.eof
    ensures ErrorLast(source, Next(source, st, a))
  {
    assert st.ch[0] == source[st.taken];
    PayloadsSnoc(st.out, Data(st.ch[0].data));
    DataSnoc(source, st.taken);
  }

  lemma ProducerErrorLast(source: seq<Payload>, st: State, a: Action)
    requires ErrorLast(source, st) && Enabled(source, st, a) && !a.Read?
    ensures ErrorLast(source, Next(source, st, a))
  {
    var st' := Next(source, st, a);
    assert st'.taken == st.taken && st'.out == st.out;
    if a.Enqueue? {
      assert st'.ch == st.ch + [source[st.given - 1]] && st'.given == st.given;
    } else {
      assert st'.ch == st.ch && st'.given == st.given + 1;
    }
  }

  lemma NextErrorLast(source: seq<Payload>, st: State, a: Action)
    requires ErrorLast(source, st) && Enabled(source, st, a)
    ensures ErrorLast(source, Next(source, st, a))
  {
    if !a.Read? {
      ProducerErrorLast(source, st, a);
    } else if !st.eof && a.choice.Arrived? {
      ArrivedErrorLast(source, st, a);
    } else if !st.eof && a.choice.TimedOut? {
      PayloadsSnoc(st.out, Ping(a.ack));
      assert Payloads(Next(source, st, a).out) == Payloads(st.out);
    }
  }

  lemma {:induction false} RunErrorLast(source: seq<Payload>, st: State, acts: seq<Action>)
    requires ErrorLast(source, st) && Valid(source, st, acts)
    ensures ErrorLast(source, Run(source, st, acts))
    decreases |acts|
  {
    if acts != [] {
      NextErrorLast(source, st, acts[0]);
      RunErrorLast(source, Next(source, st, acts[0]), acts[1..]);
    }
  }

  /** For every schedule of source reads, timer firings and client departures: what Read returns,
      keep-alive packets aside, is a prefix of what the source gave, in order; if the EOF came from
      the source it is everything up to and with that EOF. */
  lemma KeepAlivesAreInvisible(source: seq<Payload>, acts: seq<Action>)
    requires Valid(source, FRESH, acts)
    ensures var end := Run(source, FRESH, acts);
      && end.taken <= |source| && Payloads(end.out) == DataOfAll(source[..end.taken])
      && (end.eof && !end.left ==>
            && end.taken > 0 && source[end.taken - 1].err.Eof?
            && forall i :: 0 <= i < end.taken - 1 ==> source[i].err.Nil?)
  {
    RunErrorLast(source, FRESH, acts);
  }

  /** EOF is sticky: after it nothing more is handed out, whatever happens. */
  lemma {:induction false} EofSticks(source: seq<Payload>, st: State, acts: seq<Action>)
    requires st.eof && Valid(source, st, acts)
    ensures Run(source, st, acts).eof && Run(source, st, acts).out == st.out
    decreases |acts|
  {
    if acts != [] { EofSticks(source, Next(source, st, acts[0]), acts[1..]); }
  }

  /** The channel takes 100 results and no more. */
  lemma ChannelHolds100(source: seq<Payload>, acts: seq<Action>)
    requires Valid(source, FRESH, acts)
    ensures var end := Run(source, FRESH, acts);
      && |end.ch| <= 100
      && (Enabled(source, end, Enqueue) <==> end.held.Holding? && |end.ch| < 100)
  {
    RunErrorLast(source, FRESH, acts);
  }

  /** The source's results are without error but for the last. */
  predicate NilBeforeLast(source: seq<Payload>) { forall i :: 0 <= i < |source| - 1 ==> source[i].err.Nil? }

  /** Once all results of a source that ends with EOF have been handed out, Read has returned EOF,
      and what it has returned, keep-alive packets aside, is all the source gave. */
  lemma EofArrives(source: seq<Payload>, acts: seq<Action>)
    requires Valid(source, FRESH, acts) && source != [] && source[|source| - 1].err.Eof?
    requires Run(source, FRESH, acts).taken == |source|
    ensures var end := Run(source, FRESH, acts); end.eof && Payloads(end.out) == DataOfAll(source)
  {
    RunErrorLast(source, FRESH, acts);
    assert source[..|source|] == source;
  }

  /** What is still to be done before everything has been handed out. */
  function Left(source: seq<Payload>, st: State): int {
    3 * (|source| - st.given) + (if st.held.Holding? then 2 else 0) + |st.ch|
  }

  /** The producer and Read never wait for each other: until everything has been handed out, one of
      them has a step to take that comes nearer to it. */
  lemma Progress(source: seq<Payload>, st: State) returns (a: Action)
    requires ErrorLast(source, st) && NilBeforeLast(source) && !st.eof && st.taken < |source|
    ensures Enabled(source, st, a) && Left(source, Next(source, st, a)) < Left(source, st)
    ensures Next(source, st, a).left == st.left
  {
    if st.ch != [] {
      a := Read(Arrived, []);
    } else if st.held.Holding? {
      a := Enqueue;
    } else {
      a := Produce;
    }
  }

  /** So every source that ends with EOF can be handed out to its end. */
  lemma {:induction false} HandsOutAll(source: seq<Payload>, st: State) returns (acts: seq<Action>)
    requires ErrorLast(source, st) && NilBeforeLast(source) && !st.left
    requires source != [] && source[|source| - 1].err.Eof?
    ensures Valid(source, st, acts) && Run(source, st, acts).eof && Run(source, st, acts).taken == |source|
    decreases Left(source, st)
  {
    if st.eof {
      acts := [];
    } else {
      var a := Progress(source, st);
      NextErrorLast(source, st, a);
      var rest := HandsOutAll(source, Next(source, st, a));
      acts := [a] + rest;
      assert acts[0] == a && acts[1..] == rest;
    }
  }

  // ---------------------------------------------------------------- On the wire

  function Wire(out: seq<Packet>): bytes {
    if out == [] then [] else (if out[0].Data? then out[0].data else out[0].ack) + Wire(out[1..])
  }

  /** The payloads that hold anything. */
  function NonEmpty(s: seq<bytes>): seq<bytes> {
    if s == [] then [] else (if s[0] == [] then [] else [s[0]]) + NonEmpty(s[1..])
  }

  lemma {:induction false} NonEmptyFlatten(s: seq<bytes>)
    ensures Flatten(NonEmpty(s)) == Flatten(s)
  {
    if s != [] {
      NonEmptyFlatten(s[1..]);
      if s[0] == [] {
        assert Flatten(s) == [] + Flatten(s[1..]) == Flatten(s[1..]);
        assert NonEmpty(s) == [] + NonEmpty(s[1..]) == NonEmpty(s[1..]);
      } else {
        assert ([s[0]] + NonEmpty(s[1..]))[1..] == NonEmpty(s[1..]);
      }
    }
  }

  lemma {:induction false} NonEmptyConcat(a: seq<bytes>, b: seq<bytes>)
    ensures NonEmpty(a + b) == NonEmpty(a) + NonEmpty(b)
  {
    if a == [] {
      assert a + b == b;
    } else {
      assert (a + b)[0] == a[0] && (a + b)[1..] == a[1..] + b;
      NonEmptyConcat(a[1..], b);
      var head := if a[0] == [] then [] else [a[0]];
      assert head + (NonEmpty(a[1..]) + NonEmpty(b)) == head + NonEmpty(a[1..]) + NonEmpty(b);
    }
  }

  lemma {:induction false} NonEmptyHas(s: seq<bytes>, d: bytes)
    requires d in s && d != []
    ensures d in NonEmpty(s)
  {
    if d != s[0] { NonEmptyHas(s[1..], d); }
  }

  /** ":keepalive" */
  const KEEPALIVE: bytes := [58, 107, 101, 101, 112, 97, 108, 105, 118, 101]

  /** Packets of an SSE response: frames that stop at a line boundary, and `:keepalive` lines. */
  predicate SsePackets(out: seq<Packet>) {
    forall i :: 0 <= i < |out| ==>
      match out[i] case Data(d) => LineEnded(d) case Ping(ack) => ack == KEEPALIVE + [LF]
  }

  /** An SSE response with keep-alive lines in it decodes to the same events as without them. */
  lemma {:induction false} PingsDecodeToNothing(out: seq<Packet>, st: Interp)
    requires SsePackets(out)
    ensures Parse(Wire(out), st) == Parse(Flatten(Payloads(out)), st)
    decreases |out|
  {
    if out != [] {
      var rest := out[1..];
      if out[0].Data? {
        var d := out[0].data;
        assert Payloads(out) == [d] + Payloads(rest) && ([d] + Payloads(rest))[1..] == Payloads(rest);
        ParseConcat(d, Wire(rest), st);
        ParseConcat(d, Flatten(Payloads(rest)), st);
        PingsDecodeToNothing(rest, Parse(d, st));
      } else {
        CommentIsSkipped(KEEPALIVE, st);
        ParseConcat(KEEPALIVE + [LF], Wire(rest), st);
        PingsDecodeToNothing(rest, st);
        assert Payloads(out) == Payloads(rest);
      }
    }
  }

  // ---------------------------------------------------------------- The reader

  class Reader {
    const packet: bytes
    ghost const source: seq<Payload>
    ghost var given: nat
    ghost var running: bool
    var held: Held
    var ch: seq<Payload>
    var eof: bool
    ghost var left: bool
    ghost var taken: nat
    ghost var out: seq<Packet>

    ghost function View(): State
      reads this
    {
      State(given, running, held, ch, eof, left, taken, out)
    }

    constructor (packet: bytes, ghost source: seq<Payload>)
      ensures View() == FRESH && this.packet == packet && this.source == source
    {
      this.packet, this.source := packet, source;
      given, running, held, ch, eof := 0, true, Nothing, [], false;
      left, taken, out := false, 0, [];
    }

    /** The producer: one result of the source. */
    method Produce(payload: Payload)
      requires Enabled(source, View(), Action.Produce) && source[given] == payload
      modifies this
      ensures View() == Next(source, old(View()), Action.Produce)
    {
      given := given + 1;
      held := Holding(payload);
    }

    /** The producer: `ch <- payload`, and the end of its loop after an error. */
    method Enqueue()
      requires Enabled(source, View(), Action.Enqueue)
      modifies this
      ensures View() == Next(source, old(View()), Action.Enqueue)
    {
      running := running && held.payload.err.Nil?;
      ch, held := ch + [held.payload], Nothing;
    }

    /** Read returns the size of the payload even where `p` could not take all of it. */
    method Read(p: array<byte>, choice: Choice) returns (n: nat, err: SourceError)
      requires Enabled(source, View(), Action.Read(choice, packet))
      modifies this, p
      ensures View() == Next(source, old(View()), Action.Read(choice, packet))
      ensures err.Eof? <==> eof
      ensures old(eof) || choice.ClientLeft? ==> n == 0 && err.Eof? && p[..] == old(p[..])
      ensures !old(eof) && choice.Arrived? ==>
        n == |old(ch)[0].data| && err == old(ch)[0].err && Copied(p, old(ch)[0].data)
      ensures !old(eof) && choice.TimedOut? ==>
        err.Nil? && n == (if |packet| <= p.Length then |packet| else p.Length) && Copied(p, packet)
    {
      if eof { return 0, Eof; }
      match choice
      case Arrived =>
        var payload := ch[0];
        ch := ch[1..];
        var _ := Copy(p, payload.data);
        eof := payload.err.Eof?;
        taken := taken + 1;
        out := out + [Data(payload.data)];
        return |payload.data|, payload.err;
      case TimedOut =>
        n := Copy(p, packet);
        out := out + [Ping(packet)];
        err := Nil;
      case ClientLeft =>
        eof, left := true, true;
        return 0, Eof;
    }
  }

  /** `p` starts with as much of `data` as fits. */
  ghost predicate Copied(p: array<byte>, data: bytes)
    reads p
  {
    if |data| <= p.Length then p[..|data|] == data else p[..] == data[..p.Length]
  }

  method Copy(p: array<byte>, data: bytes) returns (n: nat)
    modifies p
    ensures n == if |data| <= p.Length then |data| else p.Length
    ensures Copied(p, data)
  {
    n := if |data| <= p.Length then |data| else p.Length;
    forall i | 0 <= i < n { p[i] := data[i]; }
  }
}
