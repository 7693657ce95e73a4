/**
 The stream protocol of one channel as a state machine over atomic steps.

 A step is one Redis transaction of a writer, one transaction of the reader's `fetch`, or the
 reader taking one pushed message. Writers and the reader interleave freely. The imperative
 reader and writers in module `Broker` are proved to take exactly these steps.

 `Msg.mark`, `closes`, `chunks` and `eof` are auxiliary: they record history and no step
 decides anything by them.
 */
module Stream {
  import opened Bytes

  /** What a pushed message is to this reader: its channel's `id`, its channel's `kill`, or
      anything else (the subscription notice, or another channel the wildcard also matches). */
  datatype Kind = Id | Kill | Other

  /** `mark` is the log size just before the step that sent the message. */
  datatype Msg = Msg(kind: Kind, mark: nat)

  /** Where a Read call stands: not running, blocked in Receive, or holding a message whose
      fetch has not run yet. `len` is the length of the caller's buffer. */
  datatype Pc = Rest | Waiting(len: nat) | Got(msg: Msg, len: nat)

  datatype Reader = Reader(offset: int, replayed: bool, buffered: bool, closed: bool)

  datatype State = State(
    log: bytes, done: bool, queue: seq<Msg>,  // what Redis holds
    closes: seq<nat>,                         // log sizes at each Close, oldest first
    rd: Reader, pc: Pc,
    chunks: seq<bytes>,                       // the non-empty results of all Reads so far
    eof: bool)                                // some Read has returned EOF

  datatype Action =
    | Write(p: bytes)
    | Close
    | Foreign           // another channel publishes something the wildcard matches
    | Begin(len: nat)   // a Read starts: closed check and `replay`
    | Receive           // Receive hands over the oldest message
    | Finish            // the fetch of `read`, after an id or kill message
    | Retry             // a Read returns (0, nil); stands for a foreign message taken away

  function Max(a: int, b: int): int { if a < b then b else a }

  function Min(a: int, b: int): int { if a < b then a else b }

  /** GETRANGE with Redis's treatment of negative and out-of-range bounds. */
  function GetRange(s: bytes, start: int, end: int): bytes {
    var a := Max(if start < 0 then |s| + start else start, 0);
    var b := Min(Max(if end < 0 then |s| + end else end, 0), |s| - 1);
    if (start < 0 && end < 0 && start > end) || a > b || |s| == 0 then [] else s[a..b + 1]
  }

  datatype Fetched = Fetched(data: bytes, buffered: bool, eof: bool)

  /** The transaction of `fetch`: the data, the new `buffered` flag, and whether it reports EOF. */
  function Fetch(st: State, len: nat): Fetched {
    var data := GetRange(st.log, st.rd.offset, st.rd.offset + len - 1);
    var buffered := st.rd.offset + len < |st.log|;
    Fetched(data, buffered, !buffered && st.done)
  }

  /** Deliver `data` to the caller and move the offset past it. */
  function Deliver(st: State, data: bytes): State {
    st.(rd := st.rd.(offset := st.rd.offset + |data|),
        chunks := if data == [] then st.chunks else st.chunks + [data])
  }

  /** The start of Read: an EOF on a closed reader, else `replay`, else on to Receive. */
  function BeginRead(st: State, len: nat): State {
    if st.rd.closed then
      st.(eof := true)
    else if st.rd.replayed then
      st.(pc := Waiting(len))
    else
      var f := Fetch(st, len);
      var st' := Deliver(st, f.data);
      st'.(rd := st'.rd.(buffered := f.buffered, replayed := !f.buffered || f.eof),
           eof := st.eof || f.eof,
           pc := if f.data != [] || f.eof then Rest else Waiting(len))
  }

  /** `read` after an id or kill message: fetch once; a kill message or EOF closes the reader. */
  function FinishRead(st: State, msg: Msg, len: nat): State {
    var f := Fetch(st, len);
    var st' := Deliver(st, f.data);
    var end := msg.kind == Kill || f.eof;
    st'.(rd := st'.rd.(buffered := f.buffered, closed := st.rd.closed || end),
         eof := st.eof || end,
         pc := Rest)
  }

  predicate Enabled(st: State, a: Action) {
    match a
    case Write(_) => true
    case Close => true
    case Foreign => true
    case Begin(_) => st.pc.Rest?
    case Receive => st.pc.Waiting? && st.queue != []
    case Finish => st.pc.Got?
    case Retry => st.pc.Waiting?
  }

  function Next(st: State, a: Action): State
    requires Enabled(st, a)
  {
    match a
    case Write(p) => st.(log := st.log + p, done := false, queue := st.queue + [Msg(Id, |st.log|)])
    case Close => st.(done := true, queue := st.queue + [Msg(Kill, |st.log|)], closes := st.closes + [|st.log|])
    case Foreign => st.(queue := st.queue + [Msg(Other, |st.log|)])
    case Begin(len) => BeginRead(st, len)
    case Receive =>
      var msg := st.queue[0];
      st.(queue := st.queue[1..], pc := if msg.kind == Other then Rest else Got(msg, st.pc.len))
    case Finish => FinishRead(st, st.pc.msg, st.pc.len)
    case Retry => st.(pc := Rest)
  }

  predicate Valid(st: State, acts: seq<Action>)
    decreases |acts|
  {
    acts == [] || (Enabled(st, acts[0]) && Valid(Next(st, acts[0]), acts[1..]))
  }

  function Run(st: State, acts: seq<Action>): State
    requires Valid(st, acts)
    decreases |acts|
  {
    if acts == [] then st else Run(Next(st, acts[0]), acts[1..])
  }

  /** A reader just subscribed to a channel and positioned at `start`. The subscription notice
      is already on its way; `closes` records what happened before. */
  predicate Initial(st: State, start: nat) {
    && st.queue == [Msg(Other, |st.log|)]
    && st.rd == Reader(start, false, false, false)
    && st.pc == Rest && st.chunks == [] && !st.eof
    && (st.done ==> st.closes != [] && st.closes[|st.closes| - 1] == |st.log|)
    && (forall i :: 0 <= i < |st.closes| ==> st.closes[i] <= |st.log|)
  }

  /** Every Write is at most `w` bytes long and every Read buffer at least `l`. */
  predicate Sized(acts: seq<Action>, w: nat, l: nat) {
    forall a :: a in acts ==> (a.Write? ==> |a.p| <= w) && (a.Begin? ==> a.len >= l)
  }

  lemma {:induction false} RunConcat(st: State, a: seq<Action>, b: seq<Action>)
    requires Valid(st, a) && Valid(Run(st, a), b)
    ensures Valid(st, a + b) && Run(st, a + b) == Run(Run(st, a), b)
    decreases |a|
  {
    if a == [] {
      assert a + b == b;
    } else {
      RunConcat(Next(st, a[0]), a[1..], b);
      assert (a + b)[0] == a[0] && (a + b)[1..] == a[1..] + b;
    }
  }

  // ---------------------------------------------------------------- GETRANGE

  /** For the bounds of a fetch with a non-empty buffer, GETRANGE is the plain window. */
  lemma FetchWindow(s: bytes, offset: nat, len: nat)
    requires len >= 1
    ensures GetRange(s, offset, offset + len - 1) ==
            if offset >= |s| then [] else s[offset..Min(offset + len, |s|)]
  {
  }

  /** A fetch returns more than the buffer can hold exactly for an empty buffer at offset 0
      of a non-empty log: GETRANGE 0 -1 is the whole string. */
  lemma FetchFitsIff(s: bytes, offset: int, len: nat)
    ensures |GetRange(s, offset, offset + len - 1)| <= len <==> len > 0 || offset != 0 || s == []
  {
  }

  /** A reader left `k` bytes before the end by a negative offset does not start at a place of the
      log. A fetch gives it the whole tail exactly for a buffer of `k` bytes or one longer than the
      log by `k`, the beginning of the tail for a shorter one than `k`, and nothing at all for those
      in between up to the size of the log. */
  lemma NegativeOffsetReadsTail(s: bytes, k: int, len: nat)
    requires 1 <= k <= |s| && len >= 1
    ensures GetRange(s, -k, -k + len - 1) == s[|s| - k..] <==> len == k || len >= |s| + k
    ensures len <= k ==> GetRange(s, -k, -k + len - 1) == s[|s| - k..|s| - k + len]
    ensures k < len <= |s| ==> GetRange(s, -k, -k + len - 1) == []
  {
    assert |s[|s| - k..]| == k;
    if len < k {
      assert |GetRange(s, -k, -k + len - 1)| == len;
    } else if |s| < len < |s| + k {
      assert |GetRange(s, -k, -k + len - 1)| == len - |s| < k;
    }
  }

  // ---------------------------------------------------------------- In-order, exactly-once delivery

  /** Everything returned so far is the log from `start` up to the offset. */
  predicate InOrder(st: State, start: nat) {
    && start <= st.rd.offset
    && (st.rd.offset == start || st.rd.offset <= |st.log|)
    && (if st.rd.offset == start then st.chunks == []
        else Flatten(st.chunks) == st.log[start..st.rd.offset])
    && (st.pc.Waiting? || st.pc.Got? ==> st.pc.len >= 1 && st.rd.replayed)
    && (forall c :: c in st.chunks ==> c != [])
  }

  /** `data` is what the log holds from the reader's offset on, as far as it goes. */
  predicate FromOffset(st: State, data: bytes) {
    data != [] ==> 0 <= st.rd.offset && st.rd.offset + |data| <= |st.log|
                   && data == st.log[st.rd.offset..st.rd.offset + |data|]
  }

  lemma FetchFromOffset(st: State, len: nat)
    requires st.rd.offset >= 0 && len >= 1
    ensures FromOffset(st, Fetch(st, len).data)
    ensures st.rd.offset + |Fetch(st, len).data| >= Min(st.rd.offset + len, |st.log|)
    ensures Fetch(st, len).data == [] ==> st.rd.offset >= |st.log|
  {
    FetchWindow(st.log, st.rd.offset, len);
  }

  lemma DeliverInOrder(st: State, start: nat, data: bytes)
    requires InOrder(st, start) && FromOffset(st, data)
    ensures InOrder(Deliver(st, data).(pc := Rest), start)
  {
    if data != [] {
      var offset, end := st.rd.offset, st.rd.offset + |data|;
      FlattenSnoc(st.chunks, data);
      assert Flatten(st.chunks) == st.log[start..offset];
      assert st.log[start..offset] + st.log[offset..end] == st.log[start..end];
    }
  }

  lemma NextInOrder(st: State, start: nat, a: Action)
    requires InOrder(st, start) && Enabled(st, a)
    requires a.Begin? ==> a.len >= 1
    ensures InOrder(Next(st, a), start)
  {
    match a
    case Write(p) => assert st.rd.offset != start ==> (st.log + p)[start..st.rd.offset] == st.log[start..st.rd.offset];
    case Begin(len) =>
      if !st.rd.closed && !st.rd.replayed {
        FetchFromOffset(st, len);
        DeliverInOrder(st, start, Fetch(st, len).data);
      }
    case Finish =>
      FetchFromOffset(st, st.pc.len);
      DeliverInOrder(st, start, Fetch(st, st.pc.len).data);
    case _ =>
  }

  /** For every interleaving, every positive buffer size and every start offset, the bytes all
      Reads have returned are exactly the log from the start offset up to the reader's offset. */
  lemma {:induction false} DeliveryInOrder(st: State, start: nat, acts: seq<Action>)
    requires InOrder(st, start) && Valid(st, acts)
    requires forall a :: a in acts && a.Begin? ==> a.len >= 1
    ensures InOrder(Run(st, acts), start)
    decreases |acts|
  {
    if acts != [] {
      NextInOrder(st, start, acts[0]);
      DeliveryInOrder(Next(st, acts[0]), start, acts[1..]);
    }
  }

  lemma InitialInOrder(st: State, start: nat)
    requires Initial(st, start)
    ensures InOrder(st, start)
  {
  }
}
