/**
 No lost wake-up and no early EOF.

 A live reader fetches once per notification, so these hold when no Write is longer than the
 reader's buffers, and only then: `WakeupsKeptIff` and `EofCompleteIff` give both directions.
 */
module Wakeup {
  import opened Bytes
  import opened Stream

  /** The log size just before the i-th queued message was sent; past the end, the log size now. */
  function Mark(st: State, i: nat): nat
    requires i <= |st.queue|
  {
    if i < |st.queue| then st.queue[i].mark else |st.log|
  }

  function Growth(msg: Msg, w: nat): nat { if msg.kind == Id then w else 0 }

  /** The reader is never behind the oldest message it has not consumed, and each message
      stands for at most `w` new bytes. */
  predicate Awake(st: State, w: nat) {
    && (forall i :: 0 <= i < |st.queue| ==>
          st.queue[i].mark <= Mark(st, i + 1) <= st.queue[i].mark + Growth(st.queue[i], w))
    && (st.rd.replayed && !st.rd.closed ==>
          match st.pc
          case Got(msg, len) => st.rd.offset >= msg.mark && Mark(st, 0) <= msg.mark + Growth(msg, w)
          case _ => st.rd.offset >= Mark(st, 0))
    && (st.pc.Waiting? || st.pc.Got? ==> st.pc.len >= w && st.rd.replayed && !st.rd.closed)
    && (st.pc.Got? ==> st.pc.msg.kind != Other)
  }

  /** An EOF has been preceded by a Close all of whose bytes are delivered. */
  predicate EofCovered(st: State) {
    && (st.rd.closed ==> st.eof)
    && (st.done ==> |st.log| in st.closes)
    && (forall i :: 0 <= i < |st.queue| && st.queue[i].kind == Kill ==> st.queue[i].mark in st.closes)
    && (st.pc.Got? && st.pc.msg.kind == Kill ==> st.pc.msg.mark in st.closes)
    && (st.eof ==> exists c :: c in st.closes && c <= st.rd.offset)
  }

  lemma MarksAscend(st: State, w: nat, i: nat)
    requires Awake(st, w) && i <= |st.queue|
    ensures Mark(st, i) <= |st.log|
    decreases |st.queue| - i
  {
    if i < |st.queue| { MarksAscend(st, w, i + 1); }
  }

  lemma SendKeepsMarks(st: State, w: nat, a: Action)
    requires Awake(st, w) && (a.Write? || a.Close? || a.Foreign?) && (a.Write? ==> |a.p| <= w)
    ensures Awake(Next(st, a), w)
  {
    var st' := Next(st, a);
    forall i | 0 <= i < |st'.queue|
      ensures st'.queue[i].mark <= Mark(st', i + 1) <= st'.queue[i].mark + Growth(st'.queue[i], w)
    {
      if i < |st.queue| {
        assert Mark(st', i + 1) == Mark(st, i + 1);
      }
    }
    assert Mark(st', 0) == Mark(st, 0);
  }

  /** A step that leaves the log and the queue alone and keeps the reader ahead keeps it awake. */
  lemma ReadKeepsAwake(st: State, st': State, w: nat)
    requires Awake(st, w)
    requires st'.log == st.log && st'.queue == st.queue
    requires st'.rd.replayed && !st'.rd.closed ==> st'.rd.offset >= Mark(st, 0)
    requires st'.pc.Rest? || (st'.pc.Waiting? && st'.pc.len >= w && st'.rd.replayed && !st'.rd.closed)
    ensures Awake(st', w)
  {
    assert forall i :: 0 <= i <= |st.queue| ==> Mark(st', i) == Mark(st, i);
  }

  lemma NextAwake(st: State, start: nat, w: nat, a: Action)
    requires Awake(st, w) && InOrder(st, start) && Enabled(st, a)
    requires (a.Write? ==> |a.p| <= w) && (a.Begin? ==> a.len >= w && a.len >= 1)
    ensures Awake(Next(st, a), w)
  {
    var st' := Next(st, a);
    match a
    case Begin(len) =>
      FetchFromOffset(st, len);
      MarksAscend(st, w, 0);
      ReadKeepsAwake(st, st', w);
    case Receive =>
      assert forall i :: 0 <= i <= |st'.queue| ==> Mark(st', i) == Mark(st, i + 1);
    case Finish =>
      FetchFromOffset(st, st.pc.len);
      MarksAscend(st, w, 0);
      ReadKeepsAwake(st, st', w);
    case Retry => ReadKeepsAwake(st, st', w);
    case _ => SendKeepsMarks(st, w, a);
  }

  lemma NextEofCovered(st: State, start: nat, w: nat, a: Action)
    requires Awake(st, w) && EofCovered(st) && InOrder(st, start) && Enabled(st, a)
    requires a.Begin? ==> a.len >= w && a.len >= 1
    ensures EofCovered(Next(st, a))
  {
    var st' := Next(st, a);
    assert forall c :: c in st.closes ==> c in st'.closes;
    match a
    case Begin(len) =>
      FetchWindow(st.log, st.rd.offset, len);
      if st.eof { var c :| c in st.closes && c <= st.rd.offset; assert c in st'.closes; }
    case Finish =>
      FetchWindow(st.log, st.rd.offset, st.pc.len);
      if st.eof { var c :| c in st.closes && c <= st.rd.offset; assert c in st'.closes; }
    case Close =>
      assert st'.closes[|st.closes|] == |st.log|;
      if st.eof { var c :| c in st.closes && c <= st.rd.offset; assert c in st'.closes; }
    case _ =>
      if st.eof { var c :| c in st.closes && c <= st.rd.offset; assert c in st'.closes; }
  }

  lemma {:induction false} RunAwake(st: State, start: nat, w: nat, acts: seq<Action>)
    requires Awake(st, w) && EofCovered(st) && InOrder(st, start)
    requires Valid(st, acts) && Sized(acts, w, Max(w, 1))
    ensures Awake(Run(st, acts), w) && EofCovered(Run(st, acts)) && InOrder(Run(st, acts), start)
    decreases |acts|
  {
    if acts != [] {
      var a := acts[0];
      assert a in acts;
      NextAwake(st, start, w, a);
      NextEofCovered(st, start, w, a);
      NextInOrder(st, start, a);
      RunAwake(Next(st, a), start, w, acts[1..]);
    }
  }

  lemma InitialAwake(st: State, start: nat, w: nat)
    requires Initial(st, start)
    ensures Awake(st, w) && EofCovered(st) && InOrder(st, start)
  {
  }

  // ---------------------------------------------------------------- The two promises, and exactly when they are kept

  /** With no message outstanding, a reader that has replayed has been given the whole log. */
  predicate Prompt(st: State) {
    st.rd.replayed && !st.rd.closed && !st.pc.Got? && st.queue == [] ==> st.rd.offset >= |st.log|
  }

  /** EOF comes only after some Close with every byte written before it delivered. */
  predicate EofAfterClose(st: State) {
    st.eof ==> exists c :: c in st.closes && c <= st.rd.offset
  }

  ghost predicate Promised(w: nat, l: nat, good: State -> bool) {
    forall st, start, acts :: Initial(st, start) && Valid(st, acts) && Sized(acts, w, l) ==> good(Run(st, acts))
  }

  /** Safety over whole runs: no lost wake-up, no EOF that cuts data off. */
  lemma RunsArePrompt(st: State, start: nat, w: nat, l: nat, acts: seq<Action>)
    requires Initial(st, start) && Valid(st, acts) && Sized(acts, w, l) && l >= 1 && w <= l
    ensures var end := Run(st, acts);
            && Prompt(end) && EofAfterClose(end) && InOrder(end, start)
            && (end.rd.replayed && !end.rd.closed && !end.pc.Got? ==> end.rd.offset >= Mark(end, 0))
  {
    InitialAwake(st, start, w);
    RunAwake(st, start, w, acts);
  }

  /** A live reader with nothing outstanding, and writers that are not done. */
  predicate Idle(st: State) {
    && st.rd.replayed && !st.rd.closed && st.pc.Rest? && st.queue == []
    && !st.done && !st.eof && 0 <= st.rd.offset <= |st.log|
  }

  function Zeros(n: nat): bytes { seq(n, _ => 0) }

  /** One Write of `w >= l` bytes, answered by one Read with a buffer of `l`. */
  lemma Round(st: State, w: nat, l: nat) returns (acts: seq<Action>)
    requires Idle(st) && 1 <= l <= w
    ensures Valid(st, acts) && Sized(acts, w, l)
    ensures var end := Run(st, acts);
            Idle(end) && |end.log| == |st.log| + w && end.rd.offset == st.rd.offset + l && end.closes == st.closes
  {
    var s1 := Next(st, Write(Zeros(w)));
    var s2 := Next(s1, Begin(l));
    var s3 := Next(s2, Receive);
    FetchFromOffset(s3, l);
    FetchWindow(s3.log, s3.rd.offset, l);
    acts := [Write(Zeros(w)), Begin(l), Receive, Finish];
    assert acts[1..][1..] == [Receive, Finish] && acts[1..][1..][1..] == [Finish] && acts[1..][1..][1..][1..] == [];
    assert Valid(s3, [Finish]) && Run(s3, [Finish]) == Next(s3, Finish);
    assert Valid(s2, [Receive, Finish]) && Run(s2, [Receive, Finish]) == Next(s3, Finish);
    assert Valid(s1, acts[1..]) && Run(s1, acts[1..]) == Next(s3, Finish);
  }

  lemma {:induction false} Rounds(st: State, w: nat, l: nat, k: nat) returns (acts: seq<Action>)
    requires Idle(st) && 1 <= l <= w
    ensures Valid(st, acts) && Sized(acts, w, l)
    ensures var end := Run(st, acts);
            Idle(end) && |end.log| == |st.log| + k * w && end.rd.offset == st.rd.offset + k * l
              && end.closes == st.closes
    decreases k
  {
    if k == 0 {
      acts := [];
    } else {
      var a := Round(st, w, l);
      var b := Rounds(Run(st, a), w, l, k - 1);
      RunConcat(st, a, b);
      acts := a + b;
      assert k * w == w + (k - 1) * w && k * l == l + (k - 1) * l;
    }
  }

  const FRESH := State([], false, [Msg(Other, 0)], [], Reader(0, false, false, false), Rest, [], false)

  /** `k` writes of `w` bytes to a reader that was waiting from the start. */
  lemma Lagging(w: nat, l: nat, k: nat) returns (acts: seq<Action>)
    requires 1 <= l <= w
    ensures Initial(FRESH, 0) && Valid(FRESH, acts) && Sized(acts, w, l)
    ensures var end := Run(FRESH, acts);
            Idle(end) && |end.log| == k * w && end.rd.offset == k * l && end.closes == []
  {
    var s1 := Next(FRESH, Begin(l));
    var s2 := Next(s1, Receive);
    var a := [Begin(l), Receive];
    assert a[1..] == [Receive] && a[1..][1..] == [];
    assert Valid(s1, [Receive]) && Run(s1, [Receive]) == s2;
    var b := Rounds(s2, w, l, k);
    RunConcat(FRESH, a, b);
    acts := a + b;
  }

  /** No wake-up is lost in any run with writes of at most `w` and buffers of at least `l` bytes
      exactly when `w <= l`. */
  lemma WakeupsKeptIff(w: nat, l: nat)
    requires l >= 1
    ensures Promised(w, l, Prompt) <==> w <= l
  {
    if w <= l {
      forall st, start, acts | Initial(st, start) && Valid(st, acts) && Sized(acts, w, l)
        ensures Prompt(Run(st, acts))
      {
        RunsArePrompt(st, start, w, l, acts);
      }
    } else {
      var acts := Lagging(w, l, 1);
      assert !Prompt(Run(FRESH, acts));
    }
  }

  /** A Close, and a Read that has taken its kill message. */
  lemma KillTaken(st: State, w: nat, l: nat) returns (acts: seq<Action>)
    requires Idle(st) && l >= 1
    ensures Valid(st, acts) && Sized(acts, w, l)
    ensures Run(st, acts) == st.(done := true, closes := st.closes + [|st.log|], pc := Got(Msg(Kill, |st.log|), l))
  {
    var s1 := Next(st, Close);
    var s2 := Next(s1, Begin(l));
    var s3 := Next(s2, Receive);
    acts := [Close, Begin(l), Receive];
    assert acts[1..] == [Begin(l), Receive] && acts[1..][1..] == [Receive] && acts[1..][1..][1..] == [];
    assert Valid(s2, [Receive]) && Run(s2, [Receive]) == s3;
    assert Valid(s1, acts[1..]) && Run(s1, acts[1..]) == s3;
    assert s3.queue == st.queue;
  }

  /** After `l + 1` writes the reader is so far behind that the fetch of the kill message cannot
      catch up, and Read reports EOF with bytes undelivered that were written before the only
      Close. */
  lemma CutOff(w: nat, l: nat) returns (acts: seq<Action>)
    requires 1 <= l < w
    ensures Initial(FRESH, 0) && Valid(FRESH, acts) && Sized(acts, w, l)
    ensures Run(FRESH, acts).pc.Got? && Run(FRESH, acts).pc.msg.kind == Kill
    ensures var last := Next(Run(FRESH, acts), Finish);
            last.eof && |last.closes| == 1 && last.rd.offset < last.closes[0] == Run(FRESH, acts).pc.msg.mark
  {
    var k := l + 1;
    var a := Lagging(w, l, k);
    var st := Run(FRESH, a);
    var b := KillTaken(st, w, l);
    RunConcat(FRESH, a, b);
    acts := a + b;
    Monotone(k, k, w);
    assert k * k == k * l + k;
    FetchWindow(st.log, st.rd.offset, l);
  }

  lemma Monotone(k: nat, a: nat, b: nat)
    requires a <= b
    ensures k * a <= k * b
  {
  }

  /** No EOF cuts off data in any run with writes of at most `w` and buffers of at least `l`
      bytes exactly when `w <= l`. */
  lemma EofCompleteIff(w: nat, l: nat)
    requires l >= 1
    ensures Promised(w, l, EofAfterClose) <==> w <= l
  {
    if w <= l {
      forall st, start, acts | Initial(st, start) && Valid(st, acts) && Sized(acts, w, l)
        ensures EofAfterClose(Run(st, acts))
      {
        RunsArePrompt(st, start, w, l, acts);
      }
    } else {
      var acts := CutOff(w, l);
      var all := acts + [Finish];
      assert [Finish][1..] == [] && Run(Run(FRESH, acts), [Finish]) == Next(Run(FRESH, acts), Finish);
      RunConcat(FRESH, acts, [Finish]);
      assert Sized(all, w, l) && !EofAfterClose(Run(FRESH, all));
    }
  }

  // ---------------------------------------------------------------- Each EOF by itself

  /** A Read that returns EOF has caught up: with the log as it is where the done flag says so, and
      with the log as it was at the Close whose kill message it took. */
  predicate EofEarned(st: State, a: Action)
    requires Enabled(st, a)
  {
    var st' := Next(st, a);
    && (a.Begin? && !st.rd.closed && !st.rd.replayed && Fetch(st, a.len).eof ==> st.done && st'.rd.offset >= |st.log|)
    && (a.Finish? && Fetch(st, st.pc.len).eof ==> st.done && st'.rd.offset >= |st.log|)
    && (a.Finish? && st.pc.msg.kind == Kill ==> st.pc.msg.mark in st.closes && st'.rd.offset >= st.pc.msg.mark)
  }

  lemma EofIsEarned(st: State, start: nat, w: nat, l: nat, acts: seq<Action>, a: Action)
    requires Initial(st, start) && Valid(st, acts) && Sized(acts, w, l) && l >= 1 && w <= l
    requires Enabled(Run(st, acts), a) && (a.Begin? ==> a.len >= l)
    ensures EofEarned(Run(st, acts), a)
  {
    InitialAwake(st, start, w);
    RunAwake(st, start, w, acts);
    var end := Run(st, acts);
    if a.Begin? { FetchFromOffset(end, a.len); }
    if a.Finish? { FinishEarned(end, start, w); }
  }

  lemma FinishEarned(st: State, start: nat, w: nat)
    requires Awake(st, w) && EofCovered(st) && InOrder(st, start) && Enabled(st, Finish)
    ensures EofEarned(st, Finish)
  {
    FetchFromOffset(st, st.pc.len);
    MarksAscend(st, w, 0);
  }

  ghost predicate AllEarned(w: nat, l: nat) {
    forall st, start, acts, a ::
      Initial(st, start) && Valid(st, acts) && Sized(acts, w, l) && Enabled(Run(st, acts), a)
        && (a.Begin? ==> a.len >= l) ==>
        EofEarned(Run(st, acts), a)
  }

  /** Every single EOF is earned, in all runs with writes of at most `w` and buffers of at least `l`
      bytes, exactly when `w <= l`; on streams that are closed and reopened too. */
  lemma EofsEarnedIff(w: nat, l: nat)
    requires l >= 1
    ensures AllEarned(w, l) <==> w <= l
  {
    if w <= l {
      forall st, start, acts, a |
        Initial(st, start) && Valid(st, acts) && Sized(acts, w, l) && Enabled(Run(st, acts), a)
          && (a.Begin? ==> a.len >= l)
        ensures EofEarned(Run(st, acts), a)
      {
        EofIsEarned(st, start, w, l, acts, a);
      }
    } else {
      var acts := CutOff(w, l);
      assert Enabled(Run(FRESH, acts), Finish) && !EofEarned(Run(FRESH, acts), Finish);
    }
  }
}
