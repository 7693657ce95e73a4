/**
 broker/io.go: the writers and the reader, over one Redis.

 Each method is proved to take exactly the steps of the machines in `Channels` and `Stream`.
 Steps of other goroutines that fall inside a Read are passed to it as `before` (while it waits
 in Receive) and `during` (between the message and its fetch); any lists are allowed.
 */
module Broker {
  import opened Bytes
  import opened Stream
  import opened Channels

  datatype Error = NoError | EOF | ErrNotRegistered | ErrWhence | ErrOffset
                 | Blocked  // the call has not returned

  /** The commands the broker sends, and the queue of pushes for one subscriber. */
  class Redis {
    var strings: map<string, bytes>
    var subscriber: string
    var inbox: seq<Push>
    var begun: nat
    var closes: seq<nat>

    ghost function View(): Server
      reads this
    {
      Server(subscriber, strings, inbox, begun, closes)
    }

    constructor ()
      ensures strings == map[] && inbox == [] && closes == []
    {
      strings, subscriber, inbox, begun, closes := map[], "", [], 0, [];
    }

    method Multi()
      modifies `begun
      ensures View() == old(View()).Multi()
    {
      begun := if IdKey(subscriber) in strings then |strings[IdKey(subscriber)]| else 0;
    }

    method Append(key: string, p: bytes)
      modifies `strings
      ensures View() == old(View()).Append(key, p)
    {
      strings := strings[key := (if key in strings then strings[key] else []) + p];
    }

    method SetEx(key: string, v: bytes)
      modifies `strings
      ensures View() == old(View()).SetEx(key, v)
    {
      strings := strings[key := v];
    }

    method Del(key: string)
      modifies `strings
      ensures View() == old(View()).Del(key)
    {
      strings := strings - {key};
    }

    method Publish(channel: string)
      modifies `inbox, `closes
      ensures View() == old(View()).Publish(channel)
    {
      if subscriber + ":" <= channel { inbox := inbox + [PMessage(channel, begun)]; }
      if channel == KillKey(subscriber) { closes := closes + [begun]; }
    }

    /** The subscription, its notice on the way. A channel found done counts as closed at its
        present size. */
    method PSubscribe(channel: string)
      modifies `subscriber, `inbox, `closes
      ensures subscriber == channel && inbox == [Notice(|View().Value(IdKey(channel))|)]
      ensures closes == if DoneKey(channel) in strings then [|View().Value(IdKey(channel))|] else []
    {
      var size := if IdKey(channel) in strings then |strings[IdKey(channel)]| else 0;
      subscriber, inbox := channel, [Notice(size)];
      closes := if DoneKey(channel) in strings then [size] else [];
    }

    method Pop() returns (push: Push)
      requires inbox != []
      modifies `inbox
      ensures push == old(inbox)[0] && inbox == old(inbox)[1..]
    {
      push, inbox := inbox[0], inbox[1..];
    }
  }

  /** RedisRegistrar.Register: afterwards the channel is registered and its log is empty. Every other
      channel is as it was, and so is the channel's done flag. */
  method Register(redis: Redis, channel: string)
    modifies redis`strings
    ensures IdKey(channel) in redis.strings && redis.View().Value(IdKey(channel)) == []
    ensures forall c :: c != channel ==>
      && (IdKey(c) in redis.strings <==> IdKey(c) in old(redis.strings))
      && redis.View().Value(IdKey(c)) == old(redis.View()).Value(IdKey(c))
    ensures forall c :: DoneKey(c) in redis.strings <==> DoneKey(c) in old(redis.strings)
    ensures redis.strings.Keys == old(redis.strings).Keys + {IdKey(channel)}
  {
    redis.SetEx(IdKey(channel), []);
    forall c | c != channel ensures IdKey(c) != IdKey(channel) { KeysInjective(c, channel); }
    forall c ensures DoneKey(c) != IdKey(channel) { SuffixesDiffer(channel, c); }
  }

  /** RedisRegistrar.IsRegistered. */
  method IsRegistered(redis: Redis, channel: string) returns (registered: bool)
    ensures registered <==> IdKey(channel) in redis.strings
  {
    registered := IdKey(channel) in redis.strings;
  }

  class Writer {
    const redis: Redis
    const channel: string

    constructor (redis: Redis, channel: string)
      ensures this.redis == redis && this.channel == channel
    {
      this.redis, this.channel := redis, channel;
    }

    method Write(p: bytes) returns (n: nat)
      modifies redis
      ensures redis.View() == old(redis.View()).WriteTx(channel, p) && n == |p|
    {
      redis.Multi();
      redis.Append(IdKey(channel), p);
      redis.Del(DoneKey(channel));
      redis.Publish(IdKey(channel));
      n := |p|;
    }

    method Close()
      modifies redis
      ensures redis.View() == old(redis.View()).CloseTx(channel)
    {
      redis.Multi();
      redis.SetEx(DoneKey(channel), [1]);
      redis.Publish(KillKey(channel));
    }
  }

  method NewWriter(redis: Redis, key: string) returns (w: Writer?, err: Error)
    ensures err == (if IdKey(key) in redis.strings then NoError else ErrNotRegistered)
    ensures err.NoError? ==> w != null && w.redis == redis && w.channel == key
  {
    var registered := IsRegistered(redis, key);
    if !registered { return null, ErrNotRegistered; }
    w := new Writer(redis, key);
    err := NoError;
  }

  /** Other goroutines' transactions, one after the other. */
  method Interfere(redis: Redis, sends: seq<Send>)
    modifies redis
    ensures redis.View() == PerformAll(old(redis.View()), sends)
  {
    var i := 0;
    while i < |sends|
      invariant i <= |sends|
      invariant PerformAll(redis.View(), sends[i..]) == PerformAll(old(redis.View()), sends)
    {
      var w := new Writer(redis, sends[i].channel);
      if sends[i].op.Data? { var _ := w.Write(sends[i].op.p); } else { w.Close(); }
      assert sends[i..][1..] == sends[i + 1..];
      i := i + 1;
    }
  }

  lemma Single(st: State, a: Action)
    requires Enabled(st, a)
    ensures Valid(st, [a]) && Run(st, [a]) == Next(st, a)
  {
    assert [a][1..] == [];
  }

  lemma {:induction false} SendsValid(st: State, c: string, sends: seq<Send>)
    ensures Valid(st, SeenAll(c, sends))
    decreases |sends|
  {
    if sends != [] {
      var a := Seen(c, sends[0]);
      assert Valid(st, a) by { assert a != [] ==> a[1..] == []; }
      SendsValid(Run(st, a), c, sends[1..]);
      RunConcat(st, a, SeenAll(c, sends[1..]));
    }
  }

  /** The steps of one whole Read: its own, and the transactions that fall inside it. */
  function ReadSteps(st: State, len: nat, c: string, before: seq<Send>, during: seq<Send>): seq<Action>
    requires st.pc.Rest?
  {
    var s1 := Next(st, Begin(len));
    SendsValid(s1, c, before);
    var s2 := Run(s1, SeenAll(c, before));
    var waited := [Begin(len)] + SeenAll(c, before);
    if !s1.pc.Waiting? then [Begin(len)]
    else if s2.queue == [] then waited
    else if s2.queue[0].kind == Other then waited + [Receive]
    else waited + [Receive] + SeenAll(c, during) + [Finish]
  }

  /** The part of a Read that waits for a message, with other goroutines' transactions in it. */
  function ListenResult(s1: State, c: string, before: seq<Send>, during: seq<Send>): State
    requires s1.pc.Waiting?
  {
    SendsValid(s1, c, before);
    SendsKeepPc(s1, c, before);
    var s2 := Run(s1, SeenAll(c, before));
    if s2.queue == [] then s2 else HandleResult(Next(s2, Receive), c, during)
  }

  /** The part of a Read after Receive has handed over a message. */
  function HandleResult(s3: State, c: string, during: seq<Send>): State {
    SendsValid(s3, c, during);
    SendsKeepPc(s3, c, during);
    if s3.pc.Got? then Next(Run(s3, SeenAll(c, during)), Finish) else s3
  }

  /** One whole Read. */
  function ReadResult(st: State, len: nat, c: string, before: seq<Send>, during: seq<Send>): State
    requires st.pc.Rest?
  {
    var s1 := Next(st, Begin(len));
    if s1.pc.Waiting? then ListenResult(s1, c, before, during) else s1
  }

  lemma {:induction false} SendsKeepPc(st: State, c: string, sends: seq<Send>)
    requires Valid(st, SeenAll(c, sends))
    ensures Run(st, SeenAll(c, sends)).pc == st.pc
    decreases |sends|
  {
    if sends != [] {
      var a := Seen(c, sends[0]);
      if a != [] { Single(st, a[0]); }
      SendsValid(Run(st, a), c, sends[1..]);
      SendsKeepPc(Run(st, a), c, sends[1..]);
      RunConcat(st, a, SeenAll(c, sends[1..]));
    }
  }

  /** A whole Read is a run of the machine: it takes the steps `ReadSteps`, one after the other. */
  lemma ReadIsRun(st: State, len: nat, c: string, before: seq<Send>, during: seq<Send>)
    requires st.pc.Rest?
    ensures var acts := ReadSteps(st, len, c, before, during);
            Valid(st, acts) && Run(st, acts) == ReadResult(st, len, c, before, during)
  {
    var s1 := Next(st, Begin(len));
    Single(st, Begin(len));
    if s1.pc.Waiting? {
      SendsValid(s1, c, before);
      SendsKeepPc(s1, c, before);
      RunConcat(st, [Begin(len)], SeenAll(c, before));
      var s2 := Run(s1, SeenAll(c, before));
      if s2.queue != [] {
        Single(s2, Receive);
        RunConcat(st, [Begin(len)] + SeenAll(c, before), [Receive]);
        var s3 := Next(s2, Receive);
        SendsValid(s3, c, during);
        SendsKeepPc(s3, c, during);
        if s3.pc.Got? {
          RunConcat(st, [Begin(len)] + SeenAll(c, before) + [Receive], SeenAll(c, during));
          Single(Run(s3, SeenAll(c, during)), Finish);
          RunConcat(st, [Begin(len)] + SeenAll(c, before) + [Receive] + SeenAll(c, during), [Finish]);
        }
      }
    }
  }

  /** The first step of a Read that replays, in terms of the reader's fields. */
  lemma ReplayIsBegin(sv: Server, cl: Client, cl': Client, len: nat)
    requires cl.pc.Rest? && !cl.rd.closed && !cl.rd.replayed
    requires var f := Fetch(Channels.View(sv, cl), len);
      cl' == Client(Reader(cl.rd.offset + |f.data|, !f.buffered || f.eof, f.buffered, false),
                    if |f.data| > 0 || f.eof then Rest else Waiting(len),
                    if f.data == [] then cl.chunks else cl.chunks + [f.data], cl.eof || f.eof)
    ensures Channels.View(sv, cl') == Next(Channels.View(sv, cl), Begin(len))
  {
  }

  /** The last step of a Read, in terms of the reader's fields. */
  lemma ConsumeIsFinish(sv: Server, cl: Client, cl': Client)
    requires cl.pc.Got?
    requires var f := Fetch(Channels.View(sv, cl), cl.pc.len);
      var end := cl.pc.msg.kind == Kill || f.eof;
      cl' == Client(Reader(cl.rd.offset + |f.data|, cl.rd.replayed, f.buffered, cl.rd.closed || end), Rest,
                    if f.data == [] then cl.chunks else cl.chunks + [f.data], cl.eof || end)
    ensures Channels.View(sv, cl') == Next(Channels.View(sv, cl), Finish)
  {
  }

  class Subscriber {
    const redis: Redis
    const channel: string
    var offset: int
    var replayed: bool
    var closed: bool
    var buffered: bool
    ghost var pc: Pc
    ghost var chunks: seq<bytes>
    ghost var eof: bool

    ghost function Side(): Client
      reads this
    {
      Client(Reader(offset, replayed, buffered, closed), pc, chunks, eof)
    }

    ghost function View(): State
      reads this, redis
    {
      Channels.View(redis.View(), Side())
    }

    constructor (redis: Redis, channel: string)
      ensures this.redis == redis && this.channel == channel
      ensures Side() == Client(Reader(0, false, false, false), Rest, [], false)
    {
      this.redis, this.channel := redis, channel;
      offset, replayed, closed, buffered := 0, false, false, false;
      pc, chunks, eof := Rest, [], false;
    }

    /** Seek moves the offset first and looks at its sign afterwards. */
    method Seek(delta: int, whence: int) returns (at: int, err: Error)
      modifies `offset
      ensures offset == if whence == 0 then delta else if whence == 1 then old(offset) + delta else old(offset)
      ensures err == if whence != 0 && whence != 1 then ErrWhence else if delta < 0 then ErrOffset else NoError
      ensures at == if err.NoError? then offset else 0
    {
      if whence == 0 {
        offset := delta;
      } else if whence == 1 {
        offset := offset + delta;
      } else {
        return 0, ErrWhence;
      }
      if delta < 0 { return 0, ErrOffset; }
      return offset, NoError;
    }

    method FetchTx(length: nat) returns (data: bytes, end: bool)
      requires redis.subscriber == channel
      modifies `buffered
      ensures var f := Fetch(old(View()), length);
              data == f.data && buffered == f.buffered && end == f.eof
    {
      var value := if IdKey(channel) in redis.strings then redis.strings[IdKey(channel)] else [];
      data := GetRange(value, offset, offset + length - 1);
      var size := |value|;
      var done := DoneKey(channel) in redis.strings;
      buffered := offset + length < size;
      end := !buffered && done;
    }

    /** copy(p, data), and the ghost record of what the call returns. */
    method Return(p: array<byte>, data: bytes)
      modifies p, `chunks
      ensures p[..Min(p.Length, |data|)] == data[..Min(p.Length, |data|)]
      ensures p[Min(p.Length, |data|)..] == old(p[Min(p.Length, |data|)..])
      ensures chunks == if data == [] then old(chunks) else old(chunks) + [data]
    {
      var m := if p.Length < |data| then p.Length else |data|;
      forall i | 0 <= i < m { p[i] := data[i]; }
      chunks := if data == [] then chunks else chunks + [data];
    }

    /** `replay` of a reader that still has to replay. */
    method ReplayFetch(p: array<byte>) returns (n: nat, end: bool)
      requires redis.subscriber == channel && pc == Rest && !closed && !replayed
      modifies this, p
      ensures var f := Fetch(old(View()), p.Length);
        && n == |f.data| && end == f.eof
        && Side() == Client(Reader(old(offset) + n, !f.buffered || end, f.buffered, false),
                            if n > 0 || end then Rest else Waiting(p.Length),
                            if n == 0 then old(chunks) else old(chunks) + [f.data], old(eof) || end)
        && p[..Min(p.Length, n)] == f.data[..Min(p.Length, n)]
        && (p.Length >= 1 ==> n <= p.Length)
    {
      var buf;
      buf, end := FetchTx(p.Length);
      n := |buf|;
      Return(p, buf);
      offset := offset + n;
      replayed := !buffered || end;
      eof := eof || end;
      pc := if n > 0 || end then Rest else Waiting(p.Length);
    }

    /** The closed check and `replay`, together the first step of a Read. */
    method Replay(p: array<byte>) returns (n: nat, err: Error)
      requires redis.subscriber == channel && pc == Rest
      modifies this, p
      ensures View() == Next(old(View()), Begin(p.Length))
      ensures err == if old(closed) || (!old(replayed) && Fetch(old(View()), p.Length).eof) then EOF else NoError
      ensures eof == (old(eof) || err.EOF?)
      ensures n == if old(closed) || old(replayed) then 0 else |Fetch(old(View()), p.Length).data|
      ensures Copied(p, n, old(chunks)) && offset == old(offset) + n && (p.Length >= 1 ==> n <= p.Length)
    {
      n, err := 0, NoError;
      if closed {
        eof := true;
        return 0, EOF;
      }
      if replayed {
        pc := Waiting(p.Length);
        return;
      }
      var end;
      n, end := ReplayFetch(p);
      ReplayIsBegin(old(redis.View()), old(Side()), Side(), p.Length);
      if end { err := EOF; }
    }

    /** `read` for one pushed message. */
    method Consume(msg: Push, p: array<byte>) returns (n: nat, err: Error)
      requires redis.subscriber == channel && pc.Got? && pc.len == p.Length && pc.msg == Translate(channel, msg)
      requires pc.msg.kind != Other
      modifies this, p
      ensures View() == Next(old(View()), Finish)
      ensures n == |Fetch(old(View()), p.Length).data|
      ensures eof == (old(eof) || err.EOF?)
      ensures err == if old(pc).msg.kind == Kill || Fetch(old(View()), p.Length).eof then EOF else NoError
      ensures Copied(p, n, old(chunks)) && offset == old(offset) + n && (p.Length >= 1 ==> n <= p.Length)
    {
      SuffixesDiffer(channel, channel);
      var end;
      n, end := FetchOnce(p, msg.channel == KillKey(channel));
      ConsumeIsFinish(old(redis.View()), old(Side()), Side());
      err := if end then EOF else NoError;
    }

    /** The fetch of `read`; a kill message or the end of a done channel closes the reader. */
    method FetchOnce(p: array<byte>, kill: bool) returns (n: nat, end: bool)
      requires redis.subscriber == channel && pc.Got?
      modifies this, p
      ensures var f := Fetch(old(View()), p.Length);
        && n == |f.data| && end == (kill || f.eof)
        && Side() == Client(Reader(old(offset) + n, old(replayed), f.buffered, old(closed) || end), Rest,
                            if n == 0 then old(chunks) else old(chunks) + [f.data], old(eof) || end)
        && p[..Min(p.Length, n)] == f.data[..Min(p.Length, n)]
        && (p.Length >= 1 ==> n <= p.Length)
    {
      var buf;
      buf, end := FetchTx(p.Length);
      n, end := |buf|, kill || end;
      Absorb(p, buf, end);
    }

    method Absorb(p: array<byte>, data: bytes, end: bool)
      modifies `offset, `closed, `eof, `pc, `chunks, p
      ensures Side() == Client(Reader(old(offset) + |data|, replayed, buffered, old(closed) || end), Rest,
                               if data == [] then old(chunks) else old(chunks) + [data], old(eof) || end)
      ensures p[..Min(p.Length, |data|)] == data[..Min(p.Length, |data|)]
    {
      Return(p, data);
      offset := offset + |data|;
      closed := closed || end;
      eof := eof || end;
      pc := Rest;
    }

    /** `p` starts with the bytes this call returned, and `chunks` has grown by them. */
    ghost predicate Copied(p: array<byte>, n: nat, before: seq<bytes>)
      reads this, p
    {
      if n == 0 then chunks == before
      else |chunks| == |before| + 1 && chunks[..|before|] == before && |chunks[|before|]| == n
           && p[..Min(p.Length, n)] == chunks[|before|][..Min(p.Length, n)]
    }

    /** Receive: a message that is neither this channel's id nor its kill ends the Read. */
    method Take(len: nat) returns (msg: Push)
      requires redis.subscriber == channel && redis.inbox != [] && pc == Waiting(len)
      modifies this`pc, redis`inbox
      ensures msg == old(redis.inbox)[0]
      ensures View() == Next(old(View()), Receive)
      ensures pc == if KindOf(channel, msg) == Other then Rest else Got(Translate(channel, msg), len)
    {
      msg := redis.Pop();
      pc := if KindOf(channel, msg) == Other then Rest else Got(Translate(channel, msg), len);
    }

    /** Other goroutines' transactions while this Read is under way. */
    method Await(sends: seq<Send>)
      requires redis.subscriber == channel
      modifies redis
      ensures Valid(old(View()), SeenAll(channel, sends)) && View() == Run(old(View()), SeenAll(channel, sends))
      ensures redis.subscriber == channel
    {
      PerformAllSeen(redis.View(), Side(), sends);
      Interfere(redis, sends);
    }

    /** The type switch of Read on a received message. */
    method Handle(msg: Push, p: array<byte>, during: seq<Send>) returns (n: nat, err: Error)
      requires redis.subscriber == channel
      requires pc == if KindOf(channel, msg) == Other then Rest else Got(Translate(channel, msg), p.Length)
      modifies this, redis, p
      ensures View() == HandleResult(old(View()), channel, during)
      ensures redis.subscriber == channel && pc.Rest? && !err.Blocked?
      ensures eof == (old(eof) || err.EOF?)
      ensures Copied(p, n, old(chunks)) && offset == old(offset) + n && (p.Length >= 1 ==> n <= p.Length)
    {
      if msg.Notice? || (msg.channel != KillKey(channel) && msg.channel != IdKey(channel)) { return 0, NoError; }
      Await(during);
      n, err := Consume(msg, p);
    }

    /** Read is `ReadResult`, hence by `ReadIsRun` a run of the machine. */
    method Read(p: array<byte>, before: seq<Send>, during: seq<Send>) returns (n: nat, err: Error)
      requires redis.subscriber == channel && pc == Rest
      modifies this, redis, p
      ensures View() == ReadResult(old(View()), p.Length, channel, before, during)
      ensures redis.subscriber == channel
      ensures (err.Blocked? <==> pc != Rest) && (err.Blocked? ==> n == 0)
      ensures eof == (old(eof) || err.EOF?)
      ensures Copied(p, n, old(chunks)) && offset == old(offset) + n && (p.Length >= 1 ==> n <= p.Length)
    {
      n, err := Replay(p);
      if n > 0 || err.EOF? { return; }
      Await(before);
      if redis.inbox == [] { return 0, Blocked; }
      var msg := Take(p.Length);
      n, err := Handle(msg, p, during);
    }

    method Close()
      modifies `closed
      ensures closed
    {
      closed := true;
    }

    method ReaderDone() returns (done: bool)
      requires redis.subscriber == channel
      ensures done == (closed || View().done)
    {
      done := closed || DoneKey(channel) in redis.strings;
    }

    method NoContent(at: int) returns (r: bool)
      requires redis.subscriber == channel
      ensures r == ((closed || View().done) && at >= |View().log|)
    {
      var done := ReaderDone();
      if !done { return false; }
      var strlen := if IdKey(channel) in redis.strings then |redis.strings[IdKey(channel)]| else 0;
      return at > strlen - 1;
    }
  }

  /** A new reader of a registered channel is in an initial state of the machine. */
  method NewReader(redis: Redis, key: string) returns (r: Subscriber?, err: Error)
    modifies redis`subscriber, redis`inbox, redis`closes
    ensures err == (if IdKey(key) in redis.strings then NoError else ErrNotRegistered)
    ensures err.ErrNotRegistered? ==> r == null
    ensures err.NoError? ==>
      r != null && fresh(r) && r.redis == redis && r.channel == key && redis.subscriber == key && Initial(r.View(), 0)
    ensures redis.strings == old(redis.strings)
  {
    var registered := IsRegistered(redis, key);
    if !registered { return null, ErrNotRegistered; }
    redis.PSubscribe(key);
    r := new Subscriber(redis, key);
    err := NoError;
  }

  /** newStorageReader: a fresh reader, moved to the requested offset when that is positive. */
  method OpenAt(redis: Redis, key: string, at: int) returns (r: Subscriber?, err: Error)
    modifies redis`subscriber, redis`inbox, redis`closes
    ensures err == (if IdKey(key) in redis.strings then NoError else ErrNotRegistered)
    ensures err.NoError? ==>
      r != null && fresh(r) && r.redis == redis && r.channel == key && redis.subscriber == key
      && Initial(r.View(), Max(at, 0))
    ensures redis.strings == old(redis.strings)
  {
    r, err := NewReader(redis, key);
    if err.NoError? && at > 0 {
      var _, _ := r.Seek(at, 0);
    }
  }
}
