/**
 What a reader sees once writing has stopped: a Read never blocks before EOF, EOF comes after
 finitely many Reads, and whether EOF stays once it has been returned.
 */
module Drain {
  import opened Bytes
  import opened Stream
  import opened Wakeup

  predicate HasKill(queue: seq<Msg>) { exists i :: 0 <= i < |queue| && queue[i].kind == Kill }

  predicate KillComing(st: State) { HasKill(st.queue) || (st.pc.Got? && st.pc.msg.kind == Kill) }

  /** A reader that went live before the channel was done has a kill message coming; a closed one
      has returned EOF. */
  predicate Stoppable(st: State) {
    && (st.done && st.rd.replayed && !st.eof ==> KillComing(st))
    && (st.rd.closed ==> st.eof)
    && (st.pc.Got? ==> st.pc.msg.kind != Other)
  }

  lemma NextStoppable(st: State, a: Action)
    requires Stoppable(st) && Enabled(st, a)
    ensures Stoppable(Next(st, a))
  {
    var st' := Next(st, a);
    if st'.done && st'.rd.replayed && !st'.eof {
      match a
      case Close => assert st'.queue[|st.queue|].kind == Kill;
      case Receive =>
        if !(st.queue[0].kind == Kill) {
          var i :| 0 <= i < |st.queue| && st.queue[i].kind == Kill;
          assert st'.queue[i - 1].kind == Kill;
        }
      case Foreign =>
        if i :| 0 <= i < |st.queue| && st.queue[i].kind == Kill {
          assert st'.queue[i].kind == Kill;
        }
      case _ =>
    }
  }

  lemma {:induction false} RunStoppable(st: State, acts: seq<Action>)
    requires Stoppable(st) && Valid(st, acts)
    ensures Stoppable(Run(st, acts))
    decreases |acts|
  {
    if acts != [] {
      NextStoppable(st, acts[0]);
      RunStoppable(Next(st, acts[0]), acts[1..]);
    }
  }

  // ---------------------------------------------------------------- After the last close

  /** The steps there are once the last writer has closed: those of the reader, and messages of
      other channels the wildcard also matches. */
  predicate AfterClose(a: Action) { a.Foreign? || a.Receive? || a.Finish? || (a.Begin? && a.len >= 1) }

  predicate AllAfterClose(acts: seq<Action>) { forall i :: 0 <= i < |acts| ==> AfterClose(acts[i]) }

  /** How many Reads are started. */
  function Reads(acts: seq<Action>): nat {
    if acts == [] then 0 else (if acts[0].Begin? then 1 else 0) + Reads(acts[1..])
  }

  /** How many steps the reader takes. */
  function Steps(acts: seq<Action>): nat {
    if acts == [] then 0 else (if acts[0].Foreign? then 0 else 1) + Steps(acts[1..])
  }

  /** The position of the first kill message, or the length of the queue. */
  function FirstKill(queue: seq<Msg>): (i: nat)
    ensures i <= |queue| && (i == |queue| <==> !HasKill(queue))
  {
    if queue == [] then 0
    else if queue[0].kind == Kill then assert queue[0] in queue; 0
    else
      assert forall i :: 1 <= i < |queue| ==> queue[i] == queue[1..][i - 1];
      assert forall i :: 0 <= i < |queue| - 1 ==> queue[1..][i] == queue[i + 1];
      1 + FirstKill(queue[1..])
  }

  lemma {:induction false} FirstKillStays(queue: seq<Msg>, more: seq<Msg>)
    requires HasKill(queue)
    ensures HasKill(queue + more) && FirstKill(queue + more) == FirstKill(queue)
  {
    var i :| 0 <= i < |queue| && queue[i].kind == Kill;
    assert (queue + more)[i] == queue[i];
    if queue[0].kind != Kill {
      assert queue[1..][i - 1] == queue[i];
      assert (queue + more)[1..] == queue[1..] + more;
      FirstKillStays(queue[1..], more);
    }
  }

  /** The Reads still to be started before EOF, at most: what is left to replay in bytes, or the
      messages up to the first kill. A Read in progress takes one of those messages itself. */
  function Remaining(st: State): nat {
    if st.eof then 0
    else if !st.rd.replayed then 1 + Max(0, |st.log| - st.rd.offset)
    else if st.pc.Waiting? then FirstKill(st.queue)
    else if st.pc.Got? && st.pc.msg.kind == Kill then 0
    else 1 + FirstKill(st.queue)
  }

  /** The steps of the reader still to come before EOF, at most. A Read takes up to three. */
  function Work(st: State): nat {
    3 * Remaining(st) + (if st.eof || st.pc.Rest? then 0 else if st.pc.Waiting? then 2 else 1)
  }

  /** A reader of a channel that is done for good. */
  predicate Draining(st: State, start: nat) { Stoppable(st) && InOrder(st, start) && st.done }

  /** Nobody waits in Receive for a message that does not come. */
  lemma NeverBlocked(st: State, start: nat)
    requires Draining(st, start) && !st.eof
    ensures Work(st) > 0 && (st.pc.Waiting? ==> Enabled(st, Receive))
  {
  }

  /** One step after the last close: EOF is reached, or a Read that starts lowers the first measure,
      every step of the reader lowers the second, and no step of other channels raises either. */
  lemma StepProgress(st: State, start: nat, a: Action)
    requires Draining(st, start) && Enabled(st, a) && AfterClose(a)
    ensures var st' := Next(st, a);
      && Draining(st', start) && st'.log == st.log && st'.closes == st.closes && (st.eof ==> st'.eof)
      && (st'.eof || Remaining(st') + (if a.Begin? then 1 else 0) <= Remaining(st))
      && (st'.eof || Work(st') + (if a.Foreign? then 0 else 1) <= Work(st))
  {
    NextStoppable(st, a);
    NextInOrder(st, start, a);
    match a
    case Foreign =>
      if HasKill(st.queue) { FirstKillStays(st.queue, [Msg(Other, |st.log|)]); }
    case Begin(len) => FetchFromOffset(st, len);
    case _ =>
  }

  lemma {:induction false} StepsProgress(st: State, start: nat, acts: seq<Action>)
    requires Draining(st, start) && Valid(st, acts) && AllAfterClose(acts)
    ensures var end := Run(st, acts);
      && Draining(end, start) && end.log == st.log && end.closes == st.closes && (st.eof ==> end.eof)
      && (end.eof || (Remaining(end) + Reads(acts) <= Remaining(st) && Work(end) + Steps(acts) <= Work(st)))
    decreases |acts|
  {
    if acts != [] {
      StepProgress(st, start, acts[0]);
      StepsProgress(Next(st, acts[0]), start, acts[1..]);
    }
  }

  /** From every reachable state in which the last writer has closed, in the middle of a Read or
      not, and whatever other channels send meanwhile: until EOF the reader always has a step to
      take, it starts at most `Remaining` Reads, and after `Work` steps it has returned EOF. */
  lemma NoDeadlockAfterClose(st: State, start: nat, before: seq<Action>, acts: seq<Action>)
    requires Initial(st, start) && Valid(st, before)
    requires forall a :: a in before && a.Begin? ==> a.len >= 1
    requires Run(st, before).done && Valid(Run(st, before), acts) && AllAfterClose(acts)
    ensures var mid, end := Run(st, before), Run(Run(st, before), acts);
      && (!end.eof && end.pc.Waiting? ==> Enabled(end, Receive))
      && (!end.eof ==> Reads(acts) <= Remaining(mid))
      && (Steps(acts) >= Work(mid) ==> end.eof)
  {
    InitialInOrder(st, start);
    DeliveryInOrder(st, start, before);
    RunStoppable(st, before);
    StepsProgress(Run(st, before), start, acts);
    var end := Run(Run(st, before), acts);
    if !end.eof { NeverBlocked(end, start); }
  }

  /** End to end: if the channel was closed once, after its last byte, then whatever the
      interleaving before, reading on has delivered the log from `start` to its end by the time EOF
      comes, and EOF has come after `Work` more steps of the reader. */
  lemma WholeStreamDelivered(st: State, start: nat, w: nat, before: seq<Action>, acts: seq<Action>)
    requires Initial(st, start) && Valid(st, before) && Sized(before, w, Max(w, 1))
    requires Run(st, before).done && Run(st, before).closes == [|Run(st, before).log|]
    requires Valid(Run(st, before), acts) && AllAfterClose(acts) && Sized(acts, w, Max(w, 1))
    requires start <= |Run(st, before).log|
    ensures var mid, end := Run(st, before), Run(Run(st, before), acts);
      && (end.eof ==> Flatten(end.chunks) == mid.log[start..])
      && (Steps(acts) >= Work(mid) ==> end.eof)
  {
    var mid, end := Run(st, before), Run(Run(st, before), acts);
    NoDeadlockAfterClose(st, start, before, acts);
    InitialAwake(st, start, w);
    RunAwake(st, start, w, before);
    RunAwake(mid, start, w, acts);
    RunStoppable(st, before);
    StepsProgress(mid, start, acts);
    if end.eof {
      assert end.rd.offset >= |mid.log|;
      DeliveredToEnd(end, start);
    }
  }

  lemma DeliveredToEnd(st: State, start: nat)
    requires InOrder(st, start) && start <= |st.log| <= st.rd.offset
    ensures Flatten(st.chunks) == st.log[start..]
  {
    assert st.log[start..|st.log|] == st.log[start..];
  }

  // ---------------------------------------------------------------- Does EOF stay?

  datatype Outcome = Blocked | Returned(st: State)

  /** One whole Read with nobody else taking a step; Blocked when Receive has nothing to hand over. */
  function ReadOnce(st: State, len: nat): Outcome
    requires st.pc.Rest?
  {
    var s1 := Next(st, Begin(len));
    if !s1.pc.Waiting? then Returned(s1)
    else if s1.queue == [] then Blocked
    else
      var s2 := Next(s1, Receive);
      Returned(if s2.pc.Got? then Next(s2, Finish) else s2)
  }

  predicate IsSend(a: Action) { a.Write? || a.Close? || a.Foreign? }

  /** Whether this very Read reports EOF. */
  predicate ReturnsEof(st: State, len: nat)
    requires st.pc.Rest?
  {
    var r := ReadOnce(st.(eof := false), len);
    r.Returned? && r.st.eof
  }

  lemma {:induction false} SendsKeepReader(st: State, sends: seq<Action>)
    requires st.pc.Rest? && forall a :: a in sends ==> IsSend(a)
    ensures Valid(st, sends)
    ensures var end := Run(st, sends);
            end.pc.Rest? && end.rd == st.rd && (st.queue != [] ==> end.queue != [] && end.queue[0] == st.queue[0])
    decreases |sends|
  {
    if sends != [] {
      assert sends[0] in sends;
      SendsKeepReader(Next(st, sends[0]), sends[1..]);
    }
  }

  ghost predicate EofStays(st: State, len: nat)
    requires st.pc.Rest?
  {
    forall sends: seq<Action> :: (forall a :: a in sends ==> IsSend(a)) ==>
      Valid(st, sends) && Run(st, sends).pc.Rest? && ReturnsEof(Run(st, sends), len)
  }

  /** After a Read has ended the replay, the next Read is sure to return EOF, whatever writers do
      in between, exactly when the reader is closed or a kill message is next in line. An EOF
      found while replaying closes nothing, so it does not stay. */
  lemma EofStaysIff(st: State, len: nat)
    requires st.pc.Rest? && st.rd.replayed && st.rd.offset >= 0 && len >= 1
    ensures EofStays(st, len) <==> st.rd.closed || (st.queue != [] && st.queue[0].kind == Kill)
  {
    if st.rd.closed || (st.queue != [] && st.queue[0].kind == Kill) {
      forall sends: seq<Action> | forall a :: a in sends ==> IsSend(a)
        ensures Valid(st, sends) && Run(st, sends).pc.Rest? && ReturnsEof(Run(st, sends), len)
      {
        SendsKeepReader(st, sends);
      }
    } else {
      var sends := if st.queue != [] && st.queue[0].kind == Id then [Write([])] else [];
      assert forall a :: a in sends ==> IsSend(a);
      assert sends != [] ==> sends[1..] == [] && Run(st, sends) == Next(st, Write([]));
      assert !(Valid(st, sends) && Run(st, sends).pc.Rest? && ReturnsEof(Run(st, sends), len));
    }
  }

  /** An EOF of the live path stays: the step that returns it closes the reader, and no other step
      does. */
  lemma LiveEofStays(st: State, start: nat, len: nat)
    requires InOrder(st, start) && st.pc.Got? && len >= 1
    ensures var st', f := Next(st, Finish), Fetch(st, st.pc.len);
      && (st'.rd.closed <==> st.rd.closed || st.pc.msg.kind == Kill || f.eof)
      && (st.pc.msg.kind == Kill || f.eof ==> st'.eof && EofStays(st', len))
  {
    FetchFromOffset(st, st.pc.len);
    EofStaysIff(Next(st, Finish), len);
  }

  /** It happens: the first Read of an empty channel that is done returns EOF, and that EOF does not
      stay. */
  lemma EofNeedNotStay(st: State, len: nat)
    requires Initial(st, 0) && st.done && st.log == [] && len >= 1
    ensures var st' := Next(st, Begin(len));
      st'.eof && st'.pc.Rest? && !st'.rd.closed && !EofStays(st', len)
  {
    EofStaysIff(Next(st, Begin(len)), len);
  }
}
