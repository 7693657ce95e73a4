/**
 A pooled connection (redis/pool.go): the tracked bits, the server at the other end, and the replies
 on their way between them. What Close makes of any state the connection can get into.
 */
module Pooled {
  import opened Pipeline
  import opened Session

  /** `pending` and `wire` are those of `Pipeline.Conn`; `sent` numbers the commands. */
  datatype Link = Link(t: Bits, s: Server, pending: nat, wire: seq<Item>, sent: nat)

  const OPENED := Link({}, CLEAN, 0, [], 0)

  function Items(command: nat, kinds: seq<Kind>): seq<Item> {
    seq(|kinds|, i requires 0 <= i < |kinds| => Answer(command, kinds[i]))
  }

  /** A command goes out on the connection. */
  function Issue(l: Link, c: Command): Link {
    l.(s := Serve(l.s, c), pending := l.pending + 1, wire := l.wire + Items(l.sent, Replies(l.s, c)),
      sent := l.sent + 1)
  }

  function Pushes(n: nat): seq<Item> { seq(n, _ => Push) }

  /** Others publish, or send commands the server monitors. */
  function Publish(l: Link, n: nat): Link {
    if Subscribed(l.s) || l.s.monitor then l.(wire := l.wire + Pushes(n)) else l
  }

  function Skip(wire: seq<Item>, n: nat): seq<Item> { if n <= |wire| then wire[n..] else [] }

  /** What happens to a connection that is borrowed; `Do` is `Send` and the replies up to its own. */
  datatype Event = Send(c: Command) | Do(c: Command) | DoNothing | Receive | Published(n: nat)

  function Next(l: Link, e: Event): Link {
    match e
    case Send(c) => Issue(l, c).(t := Track(l.t, c.name))
    case Do(c) =>
      var l1 := Issue(l, c).(t := Track(l.t, c.name));
      l1.(pending := 0, wire := Skip(l1.wire, l1.pending))
    case DoNothing => l.(pending := 0, wire := Skip(l.wire, l.pending))
    case Receive => l.(pending := if l.pending > 0 then l.pending - 1 else 0, wire := Skip(l.wire, 1))
    case Published(n) => Publish(l, n)
  }

  /** Any events at all, but that nobody sends the pool's sentinel. */
  predicate Possible(e: Event) { e.Send? || e.Do? ==> !IsProbe(e.c) }

  function Run(l: Link, events: seq<Event>): Link
    decreases |events|
  {
    if events == [] then l else Run(Next(l, events[0]), events[1..])
  }

  predicate AllPossible(events: seq<Event>) { forall i :: 0 <= i < |events| ==> Possible(events[i]) }

  // ---------------------------------------------------------------- Closing

  /** What the world does while Close runs: how much is published before each command, and how many
      more replies than one each gets. */
  datatype World = World(pushes: nat -> nat, extra: nat -> nat)

  function Bare(name: string, extra: nat): Command { Command(name, [], false, false, extra) }

  const PROBE := Command("ECHO", [SENTINEL], false, false, 0)

  function CleanUp(l: Link, c: Command, w: World): Link { Issue(Publish(l, w.pushes(l.sent)), c) }

  /** DISCARD, UNWATCH or nothing, and the bits that goes with. */
  function First(l: Link, w: World): Link {
    if MultiState in l.t then CleanUp(l, Bare("DISCARD", 0), w).(t := l.t - {MultiState, WatchState})
    else if WatchState in l.t then CleanUp(l, Bare("UNWATCH", 0), w).(t := l.t - {WatchState})
    else l
  }

  function EndSubscriptions(l: Link, w: World): Link {
    var l1 := CleanUp(l, Bare("UNSUBSCRIBE", w.extra(l.sent)), w);
    var l2 := CleanUp(l1, Bare("PUNSUBSCRIBE", w.extra(l1.sent)), w);
    CleanUp(l2, PROBE, w)
  }

  /** Close returns, and `keep` says whether the connection goes back to the idle list; or it waits
      for a reply that will not come. */
  datatype Closed = Closed(l: Link, keep: bool) | Hangs

  function Finish(l: Link): Closed { Closed(Next(l, DoNothing), l.t == {}) }

  /** `pooledConnection.Close`. The subscription bit goes only when the sentinel is seen, and the
      first error reply ends the wait for it. */
  function CloseLink(l: Link, w: World): Closed {
    var l1 := First(l, w);
    if SubscribeState !in l.t then Finish(l1)
    else
      var r := Unsubscribed(l1, w);
      if r.0.Starved? then Hangs else Finish(r.1)
  }

  /** The receive loop, after the clean-up of subscriptions has been sent. */
  function Unsubscribed(l: Link, w: World): (Awaited, Link) {
    var l' := EndSubscriptions(l, w);
    var r := Await(l'.pending, l'.wire);
    (r.0, l'.(t := if r.0.Found? then l.t - {SubscribeState} else l.t, pending := r.1, wire := r.2))
  }

  /** The connection goes back to the idle list. */
  predicate Kept(l: Link, w: World) { CloseLink(l, w).Closed? && CloseLink(l, w).keep }

  // ---------------------------------------------------------------- Every run

  predicate NoSentinel(items: seq<Item>) { forall i :: 0 <= i < |items| ==> !IsSentinel(items[i]) }

  /** The bits are right about subscriptions and MONITOR, pending never exceeds the replies owed,
      and no reply is taken for the sentinel. */
  predicate Linked(l: Link) { Tracked(l.t, l.s) && l.pending <= Answers(l.wire) && NoSentinel(l.wire) }

  lemma {:induction false} ItemsAnswer(command: nat, kinds: seq<Kind>)
    ensures Answers(Items(command, kinds)) == |kinds|
  {
    if kinds != [] {
      assert Items(command, kinds)[1..] == Items(command, kinds[1..]);
      ItemsAnswer(command, kinds[1..]);
    }
  }

  lemma {:induction false} PushesAnswer(n: nat)
    ensures Answers(Pushes(n)) == 0
  {
    if n > 0 {
      assert Pushes(n)[1..] == Pushes(n - 1);
      PushesAnswer(n - 1);
    }
  }

  lemma IssueOwes(l: Link, c: Command)
    ensures Answers(Issue(l, c).wire) == Answers(l.wire) + |Replies(l.s, c)|
  {
    AnswersConcat(l.wire, Items(l.sent, Replies(l.s, c)));
    ItemsAnswer(l.sent, Replies(l.s, c));
  }

  lemma PublishOwes(l: Link, n: nat)
    ensures Answers(Publish(l, n).wire) == Answers(l.wire)
    ensures NoError(Publish(l, n).wire) <==> NoError(l.wire)
    ensures NoSentinel(Publish(l, n).wire) <==> NoSentinel(l.wire)
  {
    AnswersConcat(l.wire, Pushes(n));
    PushesAnswer(n);
    var more := l.wire + Pushes(n);
    assert forall i :: 0 <= i < |l.wire| ==> more[i] == l.wire[i];
    assert forall i :: |l.wire| <= i < |more| ==> more[i] == Push;
  }

  lemma {:induction false} SkipOwes(pending: nat, wire: seq<Item>, n: nat)
    requires pending <= Answers(wire)
    ensures (if pending > n then pending - n else 0) <= Answers(Skip(wire, n))
    decreases n
  {
    AnswersAtMost(wire);
    if n > 0 && wire != [] {
      SkipOwes(if pending > 0 then pending - 1 else 0, wire[1..], n - 1);
      assert n <= |wire| ==> wire[1..][n - 1..] == wire[n..];
    }
  }

  lemma SendLinked(l: Link, c: Command)
    requires Linked(l) && !IsProbe(c)
    ensures Linked(Next(l, Send(c)))
  {
    SendTracked(l.t, l.s, c);
    IssueOwes(l, c);
    var more := Issue(l, c).wire;
    assert forall i :: |l.wire| <= i < |more| ==> more[i] == Answer(l.sent, Replies(l.s, c)[i - |l.wire|]);
  }

  lemma NextLinked(l: Link, e: Event)
    requires Linked(l) && Possible(e)
    ensures Linked(Next(l, e))
  {
    match e
    case Send(c) => SendLinked(l, c);
    case Do(c) => SendLinked(l, c);
    case DoNothing =>
    case Receive => SkipOwes(l.pending, l.wire, 1);
    case Published(n) => PublishOwes(l, n);
  }

  lemma {:induction false} RunLinked(l: Link, events: seq<Event>)
    requires Linked(l) && AllPossible(events)
    ensures Linked(Run(l, events))
    decreases |events|
  {
    if events != [] {
      NextLinked(l, events[0]);
      RunLinked(Next(l, events[0]), events[1..]);
    }
  }

  // ---------------------------------------------------------------- Exactly what Close does

  /** The server carries out what the bits have Close send first. */
  predicate FirstServed(l: Link) {
    if MultiState in l.t then l.s.multi else WatchState in l.t ==> !Subscribed(l.s)
  }

  /** Close's first command undoes MULTI and WATCH, where they are in force. */
  predicate Undone(l: Link) {
    && (l.s.multi ==> MultiState in l.t)
    && (l.s.watch ==> l.s.multi || (WatchState in l.t && MultiState !in l.t))
  }

  /** Close waits for ever: the connection is inside a MULTI the bits do not know of, so the ECHO is
      queued, and no error reply on the wire ends the wait. */
  predicate Stuck(l: Link) {
    SubscribeState in l.t && l.s.multi && MultiState !in l.t && NoError(l.wire)
  }

  /** No MONITOR bit, and with the subscription bit no error reply before the sentinel. */
  predicate Keepable(l: Link) {
    !Stuck(l) && MonitorState !in l.t && (SubscribeState in l.t ==> NoError(l.wire) && FirstServed(l))
  }

  lemma VerbsOfCleanUp()
    ensures VerbOf("DISCARD") == Discard && VerbOf("UNWATCH") == Unwatch && VerbOf("UNSUBSCRIBE") == Unsubscribe
    ensures VerbOf("PUNSUBSCRIBE") == PUnsubscribe && VerbOf("ECHO") == Echo
  {
    assert ToUpper("DISCARD") == "DISCARD" && ToUpper("UNWATCH") == "UNWATCH" && ToUpper("ECHO") == "ECHO";
    assert ToUpper("UNSUBSCRIBE") == "UNSUBSCRIBE" && ToUpper("PUNSUBSCRIBE") == "PUNSUBSCRIBE";
  }

  /** One clean-up command on the wire. */
  lemma CleanUpWire(l: Link, c: Command, w: World)
    requires !VerbOf(c.name).Exec? && !VerbOf(c.name).Plain?
    ensures var l1, s := CleanUp(l, c, w), Publish(l, w.pushes(l.sent)).s;
      && s == l.s && l1.s == Serve(l.s, c) && l1.t == l.t && l1.pending == l.pending + 1
      && Answers(l1.wire) == Answers(l.wire) + |Replies(l.s, c)|
      && (NoError(l1.wire) <==> NoError(l.wire) && !Refused(l.s, c))
      && (!IsProbe(c) && NoSentinel(l.wire) ==> NoSentinel(l1.wire))
      && l1.wire != []
  {
    var mid := Publish(l, w.pushes(l.sent));
    PublishOwes(l, w.pushes(l.sent));
    IssueOwes(mid, c);
    IssueWire(mid, c);
  }

  lemma IssueWire(l: Link, c: Command)
    requires !VerbOf(c.name).Exec?
    ensures NoError(Issue(l, c).wire) <==> NoError(l.wire) && !Refused(l.s, c)
    ensures !IsProbe(c) && NoSentinel(l.wire) ==> NoSentinel(Issue(l, c).wire)
  {
    var more, kinds := Issue(l, c).wire, Replies(l.s, c);
    assert forall i :: 0 <= i < |l.wire| ==> more[i] == l.wire[i];
    assert forall i :: |l.wire| <= i < |more| ==> more[i] == Answer(l.sent, kinds[i - |l.wire|]);
    assert more[|l.wire|] == Answer(l.sent, kinds[0]);
  }

  /** After Close's first command. */
  lemma AfterFirst(l: Link, w: World)
    requires Linked(l)
    ensures var l1 := First(l, w);
      && l1.t == l.t - {MultiState, WatchState}
      && l1.s.channels == l.s.channels && l1.s.patterns == l.s.patterns && l1.s.monitor == l.s.monitor
      && (l1.s.multi <==> l.s.multi && MultiState !in l.t)
      && (!l1.s.multi ==> l1.s.queue == [])
      && NoSentinel(l1.wire) && l1.pending <= Answers(l1.wire)
      && (NoError(l1.wire) <==> NoError(l.wire) && FirstServed(l))
      && ((FirstServed(l) || !Subscribed(l.s)) && !l1.s.multi ==> (l1.s.watch <==> !Undone(l)))
  {
    VerbsOfCleanUp();
    if MultiState in l.t {
      CleanUpWire(l, Bare("DISCARD", 0), w);
    } else if WatchState in l.t {
      CleanUpWire(l, Bare("UNWATCH", 0), w);
    }
  }

  /** After UNSUBSCRIBE, PUNSUBSCRIBE and ECHO: outside MULTI the sentinel is the last reply, and
      nobody is subscribed any more; inside MULTI all three are queued. */
  lemma AfterSubscriptions(l: Link, w: World)
    requires NoSentinel(l.wire) && l.pending <= Answers(l.wire) && (l.s.multi ==> !Subscribed(l.s))
    ensures var l2 := EndSubscriptions(l, w);
      && l2.t == l.t && l2.wire != [] && OnlyLast(l2.wire) && l2.pending <= Answers(l2.wire)
      && (NoError(l2.wire) <==> NoError(l.wire))
      && (IsSentinel(l2.wire[|l2.wire| - 1]) <==> !l.s.multi)
      && (!l.s.multi ==> l2.s == l.s.(channels := {}, patterns := {}))
  {
    VerbsOfCleanUp();
    var l1 := CleanUp(l, Bare("UNSUBSCRIBE", w.extra(l.sent)), w);
    AfterUnsubscribe(l, w.extra(l.sent), w);
    AfterUnsubscribe(l1, w.extra(l1.sent), w);
    var l2 := CleanUp(l1, Bare("PUNSUBSCRIBE", w.extra(l1.sent)), w);
    CleanUpWire(l2, PROBE, w);
    ProbeLast(l2, w);
  }

  /** UNSUBSCRIBE or PUNSUBSCRIBE: never an error, and queued inside MULTI. */
  lemma AfterUnsubscribe(l: Link, extra: nat, w: World)
    requires NoSentinel(l.wire) && l.pending <= Answers(l.wire)
    ensures forall name :: name == "UNSUBSCRIBE" || name == "PUNSUBSCRIBE" ==>
      var l1 := CleanUp(l, Bare(name, extra), w);
      && l1.t == l.t && NoSentinel(l1.wire) && l1.pending <= Answers(l1.wire) && (NoError(l1.wire) <==> NoError(l.wire))
      && if l.s.multi then l1.s.multi && Subscribed(l1.s) == Subscribed(l.s)
         else l1.s == if name == "UNSUBSCRIBE" then l.s.(channels := {}) else l.s.(patterns := {})
  {
    VerbsOfCleanUp();
    CleanUpWire(l, Bare("UNSUBSCRIBE", extra), w);
    CleanUpWire(l, Bare("PUNSUBSCRIBE", extra), w);
  }

  lemma ProbeLast(l: Link, w: World)
    requires NoSentinel(l.wire) && !Subscribed(l.s)
    ensures var wire := CleanUp(l, PROBE, w).wire;
            wire != [] && OnlyLast(wire) && (IsSentinel(wire[|wire| - 1]) <==> !l.s.multi)
  {
    VerbsOfCleanUp();
    var mid := Publish(l, w.pushes(l.sent));
    PublishOwes(l, w.pushes(l.sent));
    assert |Replies(mid.s, PROBE)| == 1;
    assert CleanUp(l, PROBE, w).wire == mid.wire + [Answer(mid.sent, Replies(mid.s, PROBE)[0])];
  }

  /** How Close ends, in every state: it hangs exactly when stuck, and gives the connection back
      exactly when it has no MONITOR bit and, where it has the subscription bit, no error reply
      comes before the sentinel: none on the wire, and none to the first command. */
  lemma CloseEnds(l: Link, w: World)
    requires Linked(l)
    ensures CloseLink(l, w).Hangs? <==> Stuck(l)
    ensures Kept(l, w) <==> Keepable(l)
  {
    AfterFirst(l, w);
    var l1 := First(l, w);
    BitsLeft(l.t);
    if SubscribeState in l.t {
      AfterSubscriptions(l1, w);
      var l2 := EndSubscriptions(l1, w);
      AwaitOutcome(l2.pending, l2.wire);
      if l1.s.multi { QuietIff(l2.wire); }
    }
  }

  lemma BitsLeft(t: Bits)
    ensures t - {MultiState, WatchState} == {} <==> SubscribeState !in t && MonitorState !in t
    ensures t - {MultiState, WatchState} - {SubscribeState} == {} <==> MonitorState !in t
    ensures SubscribeState in t ==> t - {MultiState, WatchState} != {}
  {
    if SubscribeState in t { assert SubscribeState in t - {MultiState, WatchState}; }
    if MonitorState in t { assert MonitorState in t - {MultiState, WatchState} - {SubscribeState}; }
    forall f | f in t - {MultiState, WatchState} ensures f == SubscribeState || f == MonitorState {
      match f case WatchState => case MultiState => case SubscribeState => case MonitorState =>
    }
  }

  lemma QuietIff(wire: seq<Item>)
    requires wire != [] && OnlyLast(wire) && !IsSentinel(wire[|wire| - 1])
    ensures Quiet(wire) <==> NoError(wire)
  {
  }

  /** What a connection given back is like, in every state: its session is clean exactly when Close's
      first command undid MULTI and WATCH. Nothing is pending, and nothing is left on the wire
      exactly when it had the subscription bit or every reply still unread was pending. */
  lemma KeptIs(l: Link, w: World)
    requires Linked(l) && Kept(l, w)
    ensures var l' := CloseLink(l, w).l;
      && (l'.s == CLEAN <==> Undone(l))
      && l'.pending == 0
      && (l'.wire == [] <==> SubscribeState in l.t || |l.wire| == l.pending)
  {
    CloseEnds(l, w);
    AfterFirst(l, w);
    var l1 := First(l, w);
    if SubscribeState in l.t {
      AfterSubscriptions(l1, w);
      var l2 := EndSubscriptions(l1, w);
      AwaitOutcome(l2.pending, l2.wire);
      AwaitOwed(l2.pending, l2.wire);
    } else {
      FirstLeaves(l, w);
    }
  }

  /** Without subscriptions and MONITOR, the first command adds one reply and one to pending. */
  lemma FirstLeaves(l: Link, w: World)
    requires Linked(l) && SubscribeState !in l.t && MonitorState !in l.t
    ensures var l1 := First(l, w); |l1.wire| - l1.pending == |l.wire| - l.pending >= 0
  {
    VerbsOfCleanUp();
    AnswersAtMost(l.wire);
  }

  // ---------------------------------------------------------------- Over whole runs

  /** After any events at all, malformed commands included: Close hangs exactly when stuck; it gives
      the connection back exactly when no MONITOR bit is left and no error reply keeps it from the
      sentinel; and a connection given back has a clean session exactly when MULTI and WATCH were
      undone, and nothing unread exactly when it was subscribed or all unread replies were pending. */
  lemma CleanWhenReturnedIff(events: seq<Event>, w: World)
    requires AllPossible(events)
    ensures var l := Run(OPENED, events);
      && (CloseLink(l, w).Hangs? <==> Stuck(l))
      && (Kept(l, w) <==> Keepable(l))
      && (Kept(l, w) ==>
            && (CloseLink(l, w).l.s == CLEAN <==> Undone(l)) && CloseLink(l, w).l.pending == 0
            && (CloseLink(l, w).l.wire == [] <==> SubscribeState in l.t || |l.wire| == l.pending))
  {
    RunLinked(OPENED, events);
    CloseEnds(Run(OPENED, events), w);
    if Kept(Run(OPENED, events), w) { KeptIs(Run(OPENED, events), w); }
  }

  predicate AllWellFormed(events: seq<Event>) {
    forall i :: 0 <= i < |events| && (events[i].Send? || events[i].Do?) ==> WellFormed(events[i].c)
  }

  lemma {:induction false} RunMultiTracked(l: Link, events: seq<Event>)
    requires Linked(l) && MultiTracked(l.t, l.s) && AllPossible(events) && AllWellFormed(events)
    ensures MultiTracked(Run(l, events).t, Run(l, events).s)
    decreases |events|
  {
    if events != [] {
      var e := events[0];
      NextLinked(l, e);
      if e.Send? || e.Do? { SendMultiTracked(l.t, l.s, e.c); }
      RunMultiTracked(Next(l, e), events[1..]);
    }
  }

  /** Callers that send commands with the right numbers of arguments: Close always returns, and a
      connection given back is clean but for a WATCH that neither a WATCH nor a MULTI bit records.
      MULTI, subscriptions and MONITOR never leak. */
  lemma OnlyWatchLeaks(events: seq<Event>, w: World)
    requires AllPossible(events) && AllWellFormed(events)
    ensures var l := Run(OPENED, events);
      && CloseLink(l, w).Closed?
      && (Kept(l, w) ==>
            && (CloseLink(l, w).l.s == CLEAN <==> !(l.s.watch && WatchState !in l.t && MultiState !in l.t))
            && CloseLink(l, w).l.s.(watch := false) == CLEAN)
  {
    RunMultiTracked(OPENED, events);
    RunLinked(OPENED, events);
    CleanWhenReturnedIff(events, w);
    if Kept(Run(OPENED, events), w) { OnlyWatchLeft(Run(OPENED, events), w); }
  }

  /** What is left in the session of a connection given back, MULTI aside, is at most a watch. */
  lemma OnlyWatchLeft(l: Link, w: World)
    requires Linked(l) && Kept(l, w) && (l.s.multi ==> MultiState in l.t)
    ensures CloseLink(l, w).l.s.(watch := false) == CLEAN
  {
    CloseEnds(l, w);
    AfterFirst(l, w);
    if SubscribeState in l.t { AfterSubscriptions(First(l, w), w); }
  }

  predicate Disciplined(l: Link, events: seq<Event>)
    decreases |events|
  {
    events == [] || ((events[0].Send? || events[0].Do? ==> Allowed(l.t, l.s, events[0].c))
                     && Disciplined(Next(l, events[0]), events[1..]))
  }

  lemma {:induction false} DisciplinedTracks(l: Link, events: seq<Event>)
    requires Linked(l) && MultiTracked(l.t, l.s) && WatchTracked(l.t, l.s)
    requires AllPossible(events) && Disciplined(l, events)
    ensures MultiTracked(Run(l, events).t, Run(l, events).s) && WatchTracked(Run(l, events).t, Run(l, events).s)
    decreases |events|
  {
    if events != [] {
      var e := events[0];
      NextLinked(l, e);
      if e.Send? || e.Do? {
        SendMultiTracked(l.t, l.s, e.c);
        SendWatchTracked(l.t, l.s, e.c);
      }
      DisciplinedTracks(Next(l, e), events[1..]);
    }
  }

  /** Without the subscription and MONITOR bits every unread reply is pending. */
  predicate Paired(l: Link) {
    QuietQueue(l.t, l.s.queue) && (SubscribeState !in l.t && MonitorState !in l.t ==> |l.wire| == l.pending)
  }

  lemma BitsStay(t: Bits, name: string)
    ensures SubscribeState in t ==> SubscribeState in Track(t, name)
    ensures MonitorState in t ==> MonitorState in Track(t, name)
  {
    LookupByVerb(name);
  }

  lemma NextPaired(l: Link, e: Event)
    requires Linked(l) && Paired(l) && (e.Send? || e.Do? ==> Allowed(l.t, l.s, e.c))
    ensures Paired(Next(l, e))
  {
    if e.Send? || e.Do? {
      SendQuiet(l.t, l.s, e.c);
      BitsStay(l.t, e.c.name);
    }
  }

  lemma {:induction false} DisciplinedPairs(l: Link, events: seq<Event>)
    requires Linked(l) && Paired(l) && AllPossible(events) && Disciplined(l, events)
    ensures Paired(Run(l, events))
    decreases |events|
  {
    if events != [] {
      NextLinked(l, events[0]);
      NextPaired(l, events[0]);
      DisciplinedPairs(Next(l, events[0]), events[1..]);
    }
  }

  /** Callers that keep the rules of `Allowed` never put a dirty session or an unread reply into the
      idle list, UNWATCH queued inside MULTI and subscriptions on top of a WATCH included, and Close
      always returns. */
  lemma DisciplinedIsClean(events: seq<Event>, w: World)
    requires AllPossible(events) && Disciplined(OPENED, events)
    ensures CloseLink(Run(OPENED, events), w).Closed?
    ensures Kept(Run(OPENED, events), w) ==>
      var l := CloseLink(Run(OPENED, events), w).l; l.s == CLEAN && l.wire == [] && l.pending == 0
  {
    DisciplinedTracks(OPENED, events);
    DisciplinedPairs(OPENED, events);
    CleanWhenReturnedIff(events, w);
  }

  // ---------------------------------------------------------------- What is left unread

  /** The replies beyond one for each command sent, less those a caller has received beyond what was
      pending; `n` is their number so far. */
  function Surplus(l: Link, events: seq<Event>, n: nat): nat
    decreases |events|
  {
    if events == [] then n
    else Surplus(Next(l, events[0]), events[1..], SurplusAfter(l, events[0], n))
  }

  function SurplusAfter(l: Link, e: Event, n: nat): nat {
    match e
    case Send(c) => n + |Replies(l.s, c)| - 1
    case Do(c) => n + |Replies(l.s, c)| - 1
    case Receive => if l.pending == 0 && n > 0 then n - 1 else n
    case _ => n
  }

  lemma {:induction false} BitsStayInRun(l: Link, events: seq<Event>)
    ensures SubscribeState in l.t ==> SubscribeState in Run(l, events).t
    ensures MonitorState in l.t ==> MonitorState in Run(l, events).t
    decreases |events|
  {
    if events != [] {
      if events[0].Send? || events[0].Do? { BitsStay(l.t, events[0].c.name); }
      BitsStayInRun(Next(l, events[0]), events[1..]);
    }
  }

  /** On a connection without the subscription and MONITOR bits, what is unread is what is pending
      and the surplus. */
  lemma {:induction false} UnreadIs(l: Link, events: seq<Event>, n: nat)
    requires Linked(l) && AllPossible(events) && |l.wire| == l.pending + n
    requires SubscribeState !in Run(l, events).t && MonitorState !in Run(l, events).t
    ensures |Run(l, events).wire| == Run(l, events).pending + Surplus(l, events, n)
    decreases |events|
  {
    if events != [] {
      NextLinked(l, events[0]);
      BitsStayInRun(l, events);
      UnreadAfter(l, events[0], n);
      UnreadIs(Next(l, events[0]), events[1..], SurplusAfter(l, events[0], n));
    }
  }

  lemma UnreadAfter(l: Link, e: Event, n: nat)
    requires Linked(l) && |l.wire| == l.pending + n && SubscribeState !in l.t && MonitorState !in l.t
    ensures |Next(l, e).wire| == Next(l, e).pending + SurplusAfter(l, e, n)
  {
  }

  /** A connection goes back with a reply unread if and only if it never subscribed and its commands
      had more replies than its caller received. */
  lemma LeftUnreadIff(events: seq<Event>, w: World)
    requires AllPossible(events) && Kept(Run(OPENED, events), w)
    ensures CloseLink(Run(OPENED, events), w).l.wire == []
            <==> SubscribeState in Run(OPENED, events).t || Surplus(OPENED, events, 0) == 0
  {
    CleanWhenReturnedIff(events, w);
    if SubscribeState !in Run(OPENED, events).t { UnreadIs(OPENED, events, 0); }
  }

  // ---------------------------------------------------------------- Callers the bits mislead

  lemma DoAlone(l: Link, c: Command)
    requires l.wire == [] && l.pending == 0 && |Replies(l.s, c)| == 1
    ensures Next(l, Do(c)) == l.(t := Track(l.t, c.name), s := Serve(l.s, c), sent := l.sent + 1)
  {
  }

  function With(name: string, args: seq<string>): Command { Command(name, args, false, false, 0) }

  const WATCH := With("WATCH", ["k"])
  const UNWATCH := With("UNWATCH", [])
  const MULTI := With("MULTI", [])
  const EXEC := With("EXEC", [])
  const SUBSCRIBE := With("SUBSCRIBE", ["c"])
  const UNSUBSCRIBE := With("UNSUBSCRIBE", [])
  const BAD_EXEC := With("EXEC", ["x"])

  lemma Verbs()
    ensures VerbOf(WATCH.name) == Watch && VerbOf(UNWATCH.name) == Unwatch && VerbOf(MULTI.name) == Multi
    ensures VerbOf(EXEC.name) == Exec && VerbOf(SUBSCRIBE.name) == Subscribe && VerbOf(UNSUBSCRIBE.name) == Unsubscribe
    ensures forall t :: Track(t, WATCH.name) == t + {WatchState} && Track(t, UNWATCH.name) == t - {WatchState}
    ensures forall t :: Track(t, MULTI.name) == t + {MultiState} && Track(t, EXEC.name) == t - {WatchState, MultiState}
    ensures forall t :: Track(t, SUBSCRIBE.name) == t + {SubscribeState} && Track(t, UNSUBSCRIBE.name) == t
  {
    assert ToUpper("WATCH") == "WATCH" && ToUpper("UNWATCH") == "UNWATCH" && ToUpper("MULTI") == "MULTI";
    assert ToUpper("EXEC") == "EXEC" && ToUpper("SUBSCRIBE") == "SUBSCRIBE" && ToUpper("UNSUBSCRIBE") == "UNSUBSCRIBE";
    LookupByVerb("WATCH");
    LookupByVerb("UNWATCH");
    LookupByVerb("MULTI");
    LookupByVerb("EXEC");
    LookupByVerb("SUBSCRIBE");
    LookupByVerb("UNSUBSCRIBE");
  }

  const WATCHING := Link({WatchState}, CLEAN.(watch := true), 0, [], 1)

  lemma RunOne(l: Link, e: Event)
    ensures Run(l, [e]) == Next(l, e)
  {
    assert [e][1..] == [] && Run(Next(l, e), []) == Next(l, e);
  }

  lemma RunTwo(l: Link, a: Event, b: Event)
    ensures Run(l, [a, b]) == Next(Next(l, a), b)
  {
    assert [a, b][1..] == [b] && [b][1..] == [];
    assert Run(Next(l, a), [b]) == Next(Next(l, a), b);
  }

  lemma RunThree(l: Link, a: Event, b: Event, c: Event)
    ensures Run(l, [a, b, c]) == Next(Next(Next(l, a), b), c)
  {
    assert [a, b, c][1..] == [b, c];
    RunTwo(Next(l, a), b, c);
  }

  lemma Watches()
    ensures Next(OPENED, Do(WATCH)) == WATCHING
  {
    Verbs();
    DoAlone(OPENED, WATCH);
    assert {} + {WatchState} == {WatchState};
  }

  lemma ThenExec()
    ensures Next(WATCHING, Do(EXEC)) == WATCHING.(t := {}, sent := 2)
  {
    Verbs();
    DoAlone(WATCHING, EXEC);
    assert {WatchState} - {WatchState, MultiState} == {};
  }

  const LISTENING := Link({WatchState, SubscribeState}, CLEAN.(watch := true, channels := {"c"}), 0, [], 2)

  lemma ThenSubscribe()
    ensures Next(WATCHING, Do(SUBSCRIBE)) == LISTENING
  {
    Verbs();
    DoAlone(WATCHING, SUBSCRIBE);
    assert {WatchState} + {SubscribeState} == {WatchState, SubscribeState};
    assert AsSet(["c"]) == {"c"} && {} + {"c"} == {"c"};
  }

  lemma ThenUnwatch()
    ensures Next(LISTENING, Do(UNWATCH)) == LISTENING.(t := {SubscribeState}, sent := 3)
  {
    Verbs();
    assert "c" in LISTENING.s.channels;
    DoAlone(LISTENING, UNWATCH);
    assert {WatchState, SubscribeState} - {WatchState} == {SubscribeState};
  }

  lemma WatchStays(l: Link, w: World)
    requires Linked(l) && Kept(l, w) && l.s.watch && WatchState !in l.t && MultiState !in l.t && !l.s.multi
    ensures CloseLink(l, w).l.s.watch
  {
    KeptIs(l, w);
    OnlyWatchLeft(l, w);
  }

  /** EXEC outside MULTI clears the WATCH bit and not the watch: the connection goes back watching. */
  lemma ExecLeavesWatch(w: World)
    ensures var l := Run(OPENED, [Do(WATCH), Do(EXEC)]);
            Kept(l, w) && CloseLink(l, w).l.s.watch
  {
    RunTwo(OPENED, Do(WATCH), Do(EXEC));
    Watches();
    ThenExec();
    var l := WATCHING.(t := {}, sent := 2);
    CloseEnds(l, w);
    WatchStays(l, w);
  }

  /** So does an UNWATCH that is refused to a subscriber, once its error reply has been read. */
  lemma RefusedUnwatchLeavesWatch(w: World)
    ensures var l := Run(OPENED, [Do(WATCH), Do(SUBSCRIBE), Do(UNWATCH)]);
            Kept(l, w) && CloseLink(l, w).l.s.watch
  {
    RunThree(OPENED, Do(WATCH), Do(SUBSCRIBE), Do(UNWATCH));
    Watches();
    ThenSubscribe();
    ThenUnwatch();
    var l := LISTENING.(t := {SubscribeState}, sent := 3);
    CloseEnds(l, w);
    WatchStays(l, w);
  }

  /** Subscribing on top of a WATCH leaks nothing: Close has an error reply to its UNWATCH before
      the sentinel, and the connection is not kept. */
  lemma SubscribedWatchIsNotKept(w: World)
    ensures var l := Run(OPENED, [Do(WATCH), Do(SUBSCRIBE)]);
            CloseLink(l, w).Closed? && !Kept(l, w)
  {
    RunTwo(OPENED, Do(WATCH), Do(SUBSCRIBE));
    Watches();
    ThenSubscribe();
    assert "c" in LISTENING.s.channels;
    CloseEnds(LISTENING, w);
  }

  /** UNSUBSCRIBE of two channels on a connection that never subscribed is answered twice. Do reads
      one reply, no bit is set, and the connection goes back with the other still to come. */
  lemma SecondReplyIsLeftOver(w: World)
    ensures var l := Run(OPENED, [Do(UNSUBSCRIBE.(args := ["a", "b"], extra := 1))]);
            Kept(l, w) && CloseLink(l, w).l.wire != []
  {
    Verbs();
    var c := UNSUBSCRIBE.(args := ["a", "b"], extra := 1);
    var events := [Do(c)];
    RunOne(OPENED, Do(c));
    var l := Run(OPENED, events);
    assert |Replies(OPENED.s, c)| == 2 && |Issue(OPENED, c).wire| == 2;
    assert l.t == {} && l.pending == 0 && |l.wire| == 1;
    CleanWhenReturnedIff(events, w);
  }

  /** An EXEC with an argument is refused and yet clears the MULTI bit. After a subscription, Close
      then waits for ever. */
  lemma BadExecHangsClose(w: World)
    ensures CloseLink(Run(OPENED, [Do(SUBSCRIBE), Do(UNSUBSCRIBE), Do(MULTI), Do(BAD_EXEC)]), w).Hangs?
  {
    RunFour(OPENED, Do(SUBSCRIBE), Do(UNSUBSCRIBE), Do(MULTI), Do(BAD_EXEC));
    WasSubscribed();
    ThenMulti();
    CloseEnds(ENDED.(s := CLEAN.(multi := true), sent := 4), w);
  }

  lemma RunFour(l: Link, a: Event, b: Event, c: Event, d: Event)
    ensures Run(l, [a, b, c, d]) == Next(Next(Next(Next(l, a), b), c), d)
  {
    assert [a, b, c, d][1..] == [b, c, d];
    RunThree(Next(l, a), b, c, d);
  }

  const ENDED := Link({SubscribeState}, CLEAN, 0, [], 2)

  lemma ThenMulti()
    ensures Next(Next(ENDED, Do(MULTI)), Do(BAD_EXEC)) == ENDED.(s := CLEAN.(multi := true), sent := 4)
  {
    Verbs();
    DoAlone(ENDED, MULTI);
    DoAlone(Next(ENDED, Do(MULTI)), BAD_EXEC);
    assert {SubscribeState} + {MultiState} - {WatchState, MultiState} == {SubscribeState};
  }

  lemma WasSubscribed()
    ensures Next(Next(OPENED, Do(SUBSCRIBE)), Do(UNSUBSCRIBE)) == ENDED
  {
    Verbs();
    DoAlone(OPENED, SUBSCRIBE);
    DoAlone(Next(OPENED, Do(SUBSCRIBE)), UNSUBSCRIBE);
    assert {} + {SubscribeState} == {SubscribeState};
  }

  // ---------------------------------------------------------------- The pooled connection

  class PooledConnection {
    const c: Conn
    var state: Bits
    var open: bool
    var server: Server  // the session at the other end

    constructor ()
      ensures fresh(c) && open && View() == OPENED && c.Valid()
    {
      c := new Conn();
      state, open, server := {}, true, CLEAN;
    }

    ghost function View(): Link
      reads this, c
    {
      Link(state, server, c.pending, c.wire, c.sent)
    }

    /** Commands, and replies numbered by them, are the connection's own. */
    ghost predicate Valid()
      reads this, c
    {
      c.Valid() && (open ==> Linked(View()))
    }

    /** c.Send of the connection underneath, and the server's replies to it. */
    method Forward(cmd: Command)
      requires c.Valid()
      modifies c, `server
      ensures c.Valid() && View() == Issue(old(View()), cmd)
    {
      var items := Items(c.sent, Replies(server, cmd));
      ItemsAnswer(c.sent, Replies(server, cmd));
      c.Send(items);
      server := Serve(server, cmd);
    }

    method Published(n: nat)
      requires c.Valid()
      modifies c
      ensures c.Valid() && View() == Publish(old(View()), n)
    {
      if server.channels == {} && server.patterns == {} && !server.monitor { return; }
      var i := 0;
      while i < n
        invariant i <= n && c.Valid() && c.wire == old(c.wire) + Pushes(i)
        invariant c.pending == old(c.pending) && c.sent == old(c.sent)
      {
        c.Pushed();
        assert Pushes(i) + [Push] == Pushes(i + 1);
        i := i + 1;
      }
    }

    method Send(cmd: Command)
      requires Valid() && !IsProbe(cmd)
      modifies this, c
      ensures Valid() && open == old(open)
      ensures View() == if open then Next(old(View()),
              Event.Send(cmd)) else old(View()).(t := Track(old(state), cmd.name))
    {
      Note(cmd.name);
      if open {
        SendLinked(View().(t := old(state)), cmd);
        Forward(cmd);
      }
    }

    /** Do of a closed connection tracks the bits too, and answers that it is closed. */
    method Do(cmd: Command) returns (r: Answered)
      requires Valid() && !IsProbe(cmd)
      modifies this, c
      ensures Valid() && open == old(open)
      ensures r.ConnClosed? <==> !open
      ensures !open ==> View() == old(View()).(t := Track(old(state), cmd.name))
      ensures open ==>
        var all := old(c.wire) + Items(old(c.sent), Replies(old(server), cmd));
        && View() == Next(old(View()), Event.Do(cmd)) && old(c.pending) < |all|
        && r.reply == all[old(c.pending)] && r.failure == FirstError(all[..old(c.pending) + 1])
    {
      if !open {
        Note(cmd.name);
        return ConnClosed;
      }
      NextLinked(View(), Event.Do(cmd));
      DoIs(View(), cmd);
      r := DoOpen(cmd);
    }

    method Note(name: string)
      modifies `state
      ensures state == Track(old(state), name)
    {
      var ci := LookupCommandInfo(name);
      state := (state + ci.adds) - ci.clears;
    }

    /** The command goes out, and the replies come in up to its own. */
    method DoOpen(cmd: Command) returns (r: Answered)
      requires c.Valid()
      modifies c, `state, `server
      ensures c.Valid() && r.Replied? && c.pending == 0 && c.sent == old(c.sent) + 1
      ensures state == Track(old(state), cmd.name) && server == Serve(old(server), cmd)
      ensures var all := old(c.wire) + Items(old(c.sent), Replies(old(server), cmd));
        && old(c.pending) < |all| && c.wire == Skip(all, old(c.pending) + 1)
        && r.reply == all[old(c.pending)] && r.failure == FirstError(all[..old(c.pending) + 1])
    {
      var items := Items(c.sent, Replies(server, cmd));
      ItemsAnswer(c.sent, Replies(server, cmd));
      Note(cmd.name);
      var reply, failure := c.Do(items);
      server := Serve(server, cmd);
      r := Replied(reply, failure);
    }

    method Clean(cmd: Command, w: World)
      requires c.Valid()
      modifies c, `server
      ensures c.Valid() && View() == CleanUp(old(View()), cmd, w)
    {
      Published(w.pushes(c.sent));
      Forward(cmd);
    }

    /** Closing twice changes nothing. The first Close is `Close`: what it leaves, whether the
        connection may be kept, or that it does not return. */
    method Close(w: World) returns (outcome: Outcome)
      requires Valid()
      modifies this, c
      ensures !open && c.Valid()
      ensures !old(open) ==> outcome.AlreadyClosed? && View() == old(View())
      ensures old(open) ==>
        match CloseLink(old(View()), w)
        case Hangs => outcome.Hung?
        case Closed(l, keep) => outcome == (if keep then ToIdle else Dropped) && View() == l
    {
      if !open { return AlreadyClosed; }
      open := false;
      var subscribed := SubscribeState in state;
      UndoFirst(w);
      if subscribed {
        var seen := Unsubscribe(w);
        if seen.Starved? { return Hung; }
      }
      var _ := c.DoNothing();
      outcome := if state == {} then ToIdle else Dropped;
    }

    method UndoFirst(w: World)
      requires c.Valid()
      modifies c, `server, `state
      ensures c.Valid() && View() == First(old(View()), w)
    {
      if MultiState in state {
        Clean(Bare("DISCARD", 0), w);
        state := state - {MultiState, WatchState};
      } else if WatchState in state {
        Clean(Bare("UNWATCH", 0), w);
        state := state - {WatchState};
      }
    }

    method Unsubscribe(w: World) returns (seen: Awaited)
      requires c.Valid()
      modifies c, `server, `state
      ensures c.Valid() && (seen, View()) == Unsubscribed(old(View()), w)
    {
      Clean(Bare("UNSUBSCRIBE", w.extra(c.sent)), w);
      Clean(Bare("PUNSUBSCRIBE", w.extra(c.sent)), w);
      Clean(PROBE, w);
      seen := c.AwaitSentinel();
      if seen.Found? { state := state - {SubscribeState}; }
    }
  }

  lemma DoIs(l: Link, cmd: Command)
    ensures Next(l, Event.Do(cmd))
            == Link(Track(l.t, cmd.name), Serve(l.s, cmd), 0,
                    Skip(l.wire + Items(l.sent, Replies(l.s, cmd)), l.pending + 1), l.sent + 1)
  {
  }

  datatype Answered = Replied(reply: Item, failure: Failure) | ConnClosed

  datatype Outcome = ToIdle | Dropped | Hung | AlreadyClosed
}
