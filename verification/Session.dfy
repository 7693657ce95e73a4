/**
 What the pool knows of a connection and what the server knows of it: the bits of
 internal/commandinfo.go, and the session of a Redis server with the replies it gives.
 */
module Session {
  import opened Pipeline

  datatype Flag = WatchState | MultiState | SubscribeState | MonitorState

  /** The bits of `pc.state` that are set. */
  type Bits = set<Flag>

  datatype CommandInfo = CommandInfo(adds: Bits, clears: Bits)

  const COMMAND_INFOS: map<string, CommandInfo> := map[
    "WATCH" := CommandInfo({WatchState}, {}),
    "UNWATCH" := CommandInfo({}, {WatchState}),
    "MULTI" := CommandInfo({MultiState}, {}),
    "EXEC" := CommandInfo({}, {WatchState, MultiState}),
    "DISCARD" := CommandInfo({}, {WatchState, MultiState}),
    "PSUBSCRIBE" := CommandInfo({SubscribeState}, {}),
    "SUBSCRIBE" := CommandInfo({SubscribeState}, {}),
    "MONITOR" := CommandInfo({MonitorState}, {})
  ]

  function ToUpper(s: string): string {
    seq(|s|, i requires 0 <= i < |s| => if 'a' <= s[i] <= 'z' then s[i] - 'a' + 'A' else s[i])
  }

  function LookupCommandInfo(name: string): CommandInfo {
    if ToUpper(name) in COMMAND_INFOS then COMMAND_INFOS[ToUpper(name)] else CommandInfo({}, {})
  }

  /** `Do` and `Send` of a pooled connection. */
  function Track(t: Bits, name: string): Bits { (t + LookupCommandInfo(name).adds) - LookupCommandInfo(name).clears }

  // ---------------------------------------------------------------- The server's session

  datatype Verb = Watch | Unwatch | Multi | Exec | Discard | Subscribe | PSubscribe | Unsubscribe | PUnsubscribe
                | Monitor | Echo | Plain

  /** What the server's other state decides is part of the command: `aborted`, whether an EXEC runs
      its queue; `fails`, whether the reply to a plain command or to an aborted EXEC is an error;
      `extra`, how many more replies than one a pub/sub command gets. */
  datatype Command = Command(name: string, args: seq<string>, aborted: bool, fails: bool, extra: nat)

  /** Command names are case-insensitive to the server too. */
  function VerbOf(name: string): Verb {
    var u := ToUpper(name);
    if u == "WATCH" then Watch else if u == "UNWATCH" then Unwatch
    else if u == "MULTI" then Multi else if u == "EXEC" then Exec else if u == "DISCARD" then Discard
    else if u == "SUBSCRIBE" then Subscribe else if u == "PSUBSCRIBE" then PSubscribe
    else if u == "UNSUBSCRIBE" then Unsubscribe else if u == "PUNSUBSCRIBE" then PUnsubscribe
    else if u == "MONITOR" then Monitor else if u == "ECHO" then Echo else Plain
  }

  /** The bits each command sets and clears. */
  lemma LookupByVerb(name: string)
    ensures LookupCommandInfo(name) ==
      match VerbOf(name)
      case Watch => CommandInfo({WatchState}, {})
      case Unwatch => CommandInfo({}, {WatchState})
      case Multi => CommandInfo({MultiState}, {})
      case Exec => CommandInfo({}, {WatchState, MultiState})
      case Discard => CommandInfo({}, {WatchState, MultiState})
      case Subscribe => CommandInfo({SubscribeState}, {})
      case PSubscribe => CommandInfo({SubscribeState}, {})
      case Monitor => CommandInfo({MonitorState}, {})
      case _ => CommandInfo({}, {})
  {
  }

  /** The same letters, in upper or lower case. */
  predicate SameLetters(a: string, b: string) {
    |a| == |b| && forall i :: 0 <= i < |a| ==> a[i] == b[i] || IsUpperOf(a[i], b[i]) || IsUpperOf(b[i], a[i])
  }

  predicate IsUpperOf(upper: char, lower: char) { 'a' <= lower <= 'z' && upper == lower - 'a' + 'A' }

  /** Case does not matter, to the pool or to the server. */
  lemma CaseDoesNotMatter(a: string, b: string)
    requires SameLetters(a, b)
    ensures LookupCommandInfo(a) == LookupCommandInfo(b) && VerbOf(a) == VerbOf(b)
  {
    assert ToUpper(a) == ToUpper(b);
  }

  predicate PubSub(v: Verb) { v.Subscribe? || v.PSubscribe? || v.Unsubscribe? || v.PUnsubscribe? }

  /** The number of arguments is one the server takes. */
  predicate WellFormed(c: Command) {
    match VerbOf(c.name)
    case Watch => c.args != []
    case Subscribe => c.args != []
    case PSubscribe => c.args != []
    case Unsubscribe => true
    case PUnsubscribe => true
    case Echo => |c.args| == 1
    case Plain => true
    case _ => c.args == []
  }

  datatype Server = Server(multi: bool, queue: seq<Command>, watch: bool,
                           channels: set<string>, patterns: set<string>, monitor: bool)

  const CLEAN := Server(false, [], false, {}, {}, false)

  predicate Subscribed(s: Server) { s.channels != {} || s.patterns != {} }

  function AsSet(args: seq<string>): set<string> { set a | a in args }

  /** What a command that is run does to the session. */
  function Apply(s: Server, c: Command): Server {
    match VerbOf(c.name)
    case Watch => s.(watch := true)
    case Unwatch => s.(watch := false)
    case Multi => s.(multi := true)
    case Discard => s.(multi := false, queue := [], watch := false)
    case Subscribe => s.(channels := s.channels + AsSet(c.args))
    case PSubscribe => s.(patterns := s.patterns + AsSet(c.args))
    case Unsubscribe => s.(channels := if c.args == [] then {} else s.channels - AsSet(c.args))
    case PUnsubscribe => s.(patterns := if c.args == [] then {} else s.patterns - AsSet(c.args))
    case Monitor => s.(monitor := true)
    case _ => s
  }

  function ApplyAll(s: Server, queue: seq<Command>): Server
    decreases |queue|
  {
    if queue == [] then s else ApplyAll(Apply(s, queue[0]), queue[1..])
  }

  /** The server answers with an error and does nothing: a wrong number of arguments, anything but
      pub/sub while subscribed, WATCH or MULTI inside MULTI, EXEC or DISCARD outside it, or a plain
      command that fails. */
  predicate Refused(s: Server, c: Command) {
    var v := VerbOf(c.name);
    || !WellFormed(c)
    || (Subscribed(s) && !PubSub(v) && !v.Plain?)
    || (s.multi && (v.Multi? || v.Watch?))
    || (!s.multi && (v.Exec? || v.Discard?))
    || (v.Plain? && c.fails)
  }

  predicate Queued(s: Server, c: Command) {
    s.multi && !Refused(s, c) && !VerbOf(c.name).Exec? && !VerbOf(c.name).Discard?
  }

  /** One command arriving. */
  function Serve(s: Server, c: Command): Server {
    if Refused(s, c) then s
    else if Queued(s, c) then s.(queue := s.queue + [c])
    else if VerbOf(c.name).Exec? then
      var s1 := s.(multi := false, queue := [], watch := false);
      if c.aborted then s1 else ApplyAll(s1, s.queue)
    else Apply(s, c)
  }

  /** What the pool has the server echo. Nobody else sends it. */
  const SENTINEL := "sentinel"

  predicate IsProbe(c: Command) { VerbOf(c.name).Echo? && c.args == [SENTINEL] }

  /** Commands that may be answered more than once: pub/sub commands, at once or out of an EXEC. */
  predicate Talkative(s: Server, c: Command) {
    || PubSub(VerbOf(c.name))
    || (VerbOf(c.name).Exec? && exists i :: 0 <= i < |s.queue| && PubSub(VerbOf(s.queue[i].name)))
  }

  /** The replies to a command. */
  function Replies(s: Server, c: Command): (kinds: seq<Kind>)
    ensures kinds != []
  {
    if Refused(s, c) then [Error]
    else if Queued(s, c) then [Ordinary]
    else if IsProbe(c) then [Sentinel]
    else if VerbOf(c.name).Exec? && c.aborted then [if c.fails then Error else Ordinary]
    else if Talkative(s, c) then seq(1 + c.extra, _ => Ordinary)
    else [Ordinary]
  }

  // ---------------------------------------------------------------- What the bits are worth

  /** Queued commands are none that EXEC could not run, and none the bits have not recorded. */
  predicate QueueTracked(t: Bits, queue: seq<Command>) {
    forall i :: 0 <= i < |queue| ==>
      var v := VerbOf(queue[i].name);
      && !v.Watch? && !v.Multi? && !v.Exec? && !v.Discard?
      && (v.Subscribe? || v.PSubscribe? ==> SubscribeState in t)
      && (v.Monitor? ==> MonitorState in t)
  }

  /** What holds between bits and session after any commands at all. */
  predicate Tracked(t: Bits, s: Server) {
    && (s.multi ==> !Subscribed(s))
    && (Subscribed(s) ==> SubscribeState in t)
    && (s.monitor ==> MonitorState in t)
    && QueueTracked(t, s.queue)
    && (!s.multi ==> s.queue == [])
  }

  lemma {:induction false} ApplyAllTracked(t: Bits, s: Server, queue: seq<Command>)
    requires QueueTracked(t, queue) && !s.multi && !s.watch && s.queue == []
    requires (Subscribed(s) ==> SubscribeState in t) && (s.monitor ==> MonitorState in t)
    ensures var end := ApplyAll(s, queue);
      && !end.multi && !end.watch && end.queue == []
      && (Subscribed(end) ==> SubscribeState in t) && (end.monitor ==> MonitorState in t)
    decreases |queue|
  {
    if queue != [] { ApplyAllTracked(t, Apply(s, queue[0]), queue[1..]); }
  }

  /** After any command, well-formed or not: subscriptions and MONITOR are recorded in the bits,
      those queued inside MULTI included, and nobody is subscribed inside MULTI. */
  lemma SendTracked(t: Bits, s: Server, c: Command)
    requires Tracked(t, s)
    ensures Tracked(Track(t, c.name), Serve(s, c))
  {
    LookupByVerb(c.name);
    if VerbOf(c.name).Exec? && s.multi {
      ApplyAllTracked(t - {WatchState, MultiState}, s.(multi := false, queue := [], watch := false), s.queue);
    }
  }

  /** With the right numbers of arguments MULTI is recorded too; a MULTI bit without a MULTI can
      only come from a subscribed connection. */
  predicate MultiTracked(t: Bits, s: Server) {
    (s.multi ==> MultiState in t) && (MultiState in t && !s.multi ==> SubscribeState in t)
  }

  lemma SendMultiTracked(t: Bits, s: Server, c: Command)
    requires Tracked(t, s) && MultiTracked(t, s) && WellFormed(c)
    ensures MultiTracked(Track(t, c.name), Serve(s, c))
  {
    LookupByVerb(c.name);
    if VerbOf(c.name).Exec? && s.multi {
      ApplyAllTracked(t - {WatchState, MultiState}, s.(multi := false, queue := [], watch := false), s.queue);
    }
  }

  /** Rules a caller can keep: the right numbers of arguments, EXEC and DISCARD only inside MULTI,
      UNWATCH only while not subscribed, UNSUBSCRIBE and PUNSUBSCRIBE only after a subscription. */
  predicate Allowed(t: Bits, s: Server, c: Command) {
    var v := VerbOf(c.name);
    && WellFormed(c) && (v.Exec? || v.Discard? ==> s.multi) && (v.Unwatch? ==> !Subscribed(s))
    && (v.Unsubscribe? || v.PUnsubscribe? ==> SubscribeState in t)
  }

  /** Without the subscription bit no pub/sub command is queued. */
  predicate QuietQueue(t: Bits, queue: seq<Command>) {
    SubscribeState !in t ==> forall i :: 0 <= i < |queue| ==> !PubSub(VerbOf(queue[i].name))
  }

  lemma SendQuiet(t: Bits, s: Server, c: Command)
    requires Tracked(t, s) && QuietQueue(t, s.queue) && Allowed(t, s, c)
    ensures QuietQueue(Track(t, c.name), Serve(s, c).queue)
    ensures SubscribeState !in Track(t, c.name) ==> |Replies(s, c)| == 1
  {
    LookupByVerb(c.name);
    if VerbOf(c.name).Exec? {
      ApplyAllTracked(t - {WatchState, MultiState}, s.(multi := false, queue := [], watch := false), s.queue);
    }
  }

  /** A watch is recorded, or MULTI is in force and will end it. */
  predicate WatchTracked(t: Bits, s: Server) { s.watch ==> WatchState in t || s.multi }

  lemma SendWatchTracked(t: Bits, s: Server, c: Command)
    requires Tracked(t, s) && WatchTracked(t, s) && Allowed(t, s, c)
    ensures WatchTracked(Track(t, c.name), Serve(s, c))
  {
    LookupByVerb(c.name);
    if VerbOf(c.name).Exec? {
      ApplyAllTracked(t - {WatchState, MultiState}, s.(multi := false, queue := [], watch := false), s.queue);
    }
  }
}
