/**
 Many channels on one Redis, seen by one subscriber.

 Redis holds one flat map of strings and pushes every publication that matches the subscriber's
 wildcard `c:*`, its own or not. `Isolation` projects any run of this system onto the
 single-channel machine of module `Stream`: other channels leave no trace in it.

 Keys are assumed to hold no glob metacharacters, so `c:*` matches by prefix.
 */
module Channels {
  import opened Bytes
  import opened Stream

  function IdKey(c: string): string { c + ":id" }

  function DoneKey(c: string): string { c + ":done" }

  function KillKey(c: string): string { c + ":kill" }

  predicate Matches(subscriber: string, channel: string) { subscriber + ":" <= channel }

  datatype Push = Notice(mark: nat) | PMessage(channel: string, mark: nat)

  /** `begun` (the subscriber's log size when the current transaction began) and `closes` are
      auxiliary history. */
  datatype Server = Server(subscriber: string, strings: map<string, bytes>, inbox: seq<Push>,
                           begun: nat, closes: seq<nat>)
  {
    function Value(key: string): bytes { if key in strings then strings[key] else [] }

    function Multi(): Server { this.(begun := |Value(IdKey(subscriber))|) }

    function Append(key: string, p: bytes): Server { this.(strings := strings[key := Value(key) + p]) }

    function SetEx(key: string, v: bytes): Server { this.(strings := strings[key := v]) }

    function Del(key: string): Server { this.(strings := strings - {key}) }

    function Publish(channel: string): Server {
      this.(inbox := if Matches(subscriber, channel) then inbox + [PMessage(channel, begun)] else inbox,
            closes := if channel == KillKey(subscriber) then closes + [begun] else closes)
    }

    /** The transaction of `writer.Write` on channel `c`. */
    function WriteTx(c: string, p: bytes): Server {
      Multi().Append(IdKey(c), p).Del(DoneKey(c)).Publish(IdKey(c))
    }

    /** The transaction of `writer.Close` on channel `c`. */
    function CloseTx(c: string): Server {
      Multi().SetEx(DoneKey(c), [1]).Publish(KillKey(c))
    }
  }

  datatype Op = Data(p: bytes) | End

  /** One writer transaction, on any channel. */
  datatype Send = Send(channel: string, op: Op)

  function Perform(sv: Server, s: Send): Server {
    match s.op
    case Data(p) => sv.WriteTx(s.channel, p)
    case End => sv.CloseTx(s.channel)
  }

  function PerformAll(sv: Server, sends: seq<Send>): Server
    decreases |sends|
  {
    if sends == [] then sv else PerformAll(Perform(sv, sends[0]), sends[1..])
  }

  function KindOf(c: string, push: Push): Kind {
    if push.Notice? then Other
    else if push.channel == IdKey(c) then Id
    else if push.channel == KillKey(c) then Kill
    else Other
  }

  function Translate(c: string, push: Push): Msg {
    Msg(KindOf(c, push), push.mark)
  }

  function TranslateAll(c: string, inbox: seq<Push>): seq<Msg> {
    seq(|inbox|, i requires 0 <= i < |inbox| => Translate(c, inbox[i]))
  }

  /** The reader's side: its fields, where its Read stands, and what its Reads have returned. */
  datatype Client = Client(rd: Reader, pc: Pc, chunks: seq<bytes>, eof: bool)

  /** What the subscriber's channel and reader look like to the single-channel machine. */
  function View(sv: Server, cl: Client): State {
    var c := sv.subscriber;
    State(sv.Value(IdKey(c)), DoneKey(c) in sv.strings, TranslateAll(c, sv.inbox), sv.closes,
          cl.rd, cl.pc, cl.chunks, cl.eof)
  }

  // ---------------------------------------------------------------- Key names

  lemma SuffixesDiffer(a: string, b: string)
    ensures IdKey(a) != DoneKey(b) && IdKey(a) != KillKey(b) && DoneKey(a) != KillKey(b)
  {
    assert IdKey(a)[|IdKey(a)| - 1] == 'd' && DoneKey(b)[|DoneKey(b)| - 1] == 'e'
      && DoneKey(a)[|DoneKey(a)| - 1] == 'e';
    assert KillKey(b)[|KillKey(b)| - 1] == 'l';
  }

  lemma KeysInjective(a: string, b: string)
    requires a != b
    ensures IdKey(a) != IdKey(b) && DoneKey(a) != DoneKey(b) && KillKey(a) != KillKey(b)
  {
    assert IdKey(a)[..|IdKey(a)| - 3] == a && IdKey(b)[..|IdKey(b)| - 3] == b;
    assert DoneKey(a)[..|DoneKey(a)| - 5] == a && DoneKey(b)[..|DoneKey(b)| - 5] == b;
    assert KillKey(a)[..|KillKey(a)| - 5] == a && KillKey(b)[..|KillKey(b)| - 5] == b;
  }

  lemma OwnKeysMatch(c: string)
    ensures Matches(c, IdKey(c)) && Matches(c, KillKey(c))
  {
    assert IdKey(c) == c + ":" + "id" && KillKey(c) == c + ":" + "kill";
  }

  // ---------------------------------------------------------------- A writer's transaction, seen by the subscriber

  /** What a transaction is to the single-channel machine: the same step on the subscriber's own
      channel; on any other channel at most a message that is neither its `id` nor its `kill`. */
  function Seen(c: string, s: Send): seq<Action> {
    if s.channel == c then [if s.op.Data? then Write(s.op.p) else Close]
    else if Matches(c, if s.op.Data? then IdKey(s.channel) else KillKey(s.channel)) then [Foreign]
    else []
  }

  function SeenAll(c: string, sends: seq<Send>): seq<Action> {
    if sends == [] then [] else Seen(c, sends[0]) + SeenAll(c, sends[1..])
  }

  lemma TranslatePush(c: string, inbox: seq<Push>, push: Push)
    ensures TranslateAll(c, inbox + [push]) == TranslateAll(c, inbox) + [Translate(c, push)]
  {
  }

  lemma PerformOwn(sv: Server, cl: Client, s: Send)
    requires s.channel == sv.subscriber
    ensures View(Perform(sv, s), cl) == Next(View(sv, cl), if s.op.Data? then Write(s.op.p) else Close)
  {
    var c := sv.subscriber;
    OwnKeysMatch(c);
    SuffixesDiffer(c, c);
    var size := |sv.Value(IdKey(c))|;
    TranslatePush(c, sv.inbox, PMessage(if s.op.Data? then IdKey(c) else KillKey(c), size));
  }

  lemma PerformOther(sv: Server, cl: Client, s: Send)
    requires s.channel != sv.subscriber
    ensures var v := View(Perform(sv, s), cl);
            if Seen(sv.subscriber, s) == [] then v == View(sv, cl) else v == Next(View(sv, cl), Foreign)
  {
    var c, d := sv.subscriber, s.channel;
    SuffixesDiffer(c, d);
    SuffixesDiffer(d, c);
    KeysInjective(c, d);
    var size := |sv.Value(IdKey(c))|;
    TranslatePush(c, sv.inbox, PMessage(if s.op.Data? then IdKey(d) else KillKey(d), size));
  }

  /** Every transaction on any channel is, to the single-channel machine, what `Seen` says. */
  lemma PerformSeen(sv: Server, cl: Client, s: Send)
    ensures var acts := Seen(sv.subscriber, s);
            Valid(View(sv, cl), acts) && View(Perform(sv, s), cl) == Run(View(sv, cl), acts)
    ensures Perform(sv, s).subscriber == sv.subscriber
  {
    var acts := Seen(sv.subscriber, s);
    assert acts != [] ==> acts[1..] == [];
    if s.channel == sv.subscriber {
      PerformOwn(sv, cl, s);
    } else {
      PerformOther(sv, cl, s);
    }
  }

  lemma {:induction false} PerformAllSeen(sv: Server, cl: Client, sends: seq<Send>)
    ensures var acts := SeenAll(sv.subscriber, sends);
            Valid(View(sv, cl), acts) && View(PerformAll(sv, sends), cl) == Run(View(sv, cl), acts)
    ensures PerformAll(sv, sends).subscriber == sv.subscriber
    decreases |sends|
  {
    if sends != [] {
      PerformSeen(sv, cl, sends[0]);
      PerformAllSeen(Perform(sv, sends[0]), cl, sends[1..]);
      RunConcat(View(sv, cl), Seen(sv.subscriber, sends[0]), SeenAll(sv.subscriber, sends[1..]));
    }
  }
}
