/**
 Channel isolation: no sequence of steps on other channels changes the bytes or the EOF a reader
 sees, even when its wildcard delivers their messages to it.
 */
module Isolation {
  import opened Bytes
  import opened Stream
  import opened Channels
  import Wakeup

  /** A step of the whole system: a writer's transaction, or a step of the reader. */
  datatype Step = Writes(s: Send) | Reads(a: Action)

  predicate StepEnabled(sv: Server, cl: Client, step: Step) {
    step.Reads? ==> (step.a.Begin? || step.a.Receive? || step.a.Finish?) && Enabled(View(sv, cl), step.a)
  }

  function ServerAfter(sv: Server, cl: Client, step: Step): Server
    requires StepEnabled(sv, cl, step)
  {
    if step.Writes? then Perform(sv, step.s)
    else if step.a.Receive? then sv.(inbox := sv.inbox[1..])
    else sv
  }

  function ClientAfter(sv: Server, cl: Client, step: Step): Client
    requires StepEnabled(sv, cl, step)
  {
    if step.Writes? then cl
    else
      var st := Next(View(sv, cl), step.a);
      Client(st.rd, st.pc, st.chunks, st.eof)
  }

  predicate ValidSteps(sv: Server, cl: Client, steps: seq<Step>)
    decreases |steps|
  {
    steps == [] || (StepEnabled(sv, cl, steps[0])
                    && ValidSteps(ServerAfter(sv, cl, steps[0]), ClientAfter(sv, cl, steps[0]), steps[1..]))
  }

  /** The state the single-channel machine sees after all steps. */
  function Outcome(sv: Server, cl: Client, steps: seq<Step>): State
    requires ValidSteps(sv, cl, steps)
    decreases |steps|
  {
    if steps == [] then View(sv, cl)
    else Outcome(ServerAfter(sv, cl, steps[0]), ClientAfter(sv, cl, steps[0]), steps[1..])
  }

  function OwnMessages(queue: seq<Msg>): seq<Msg> {
    if queue == [] then []
    else (if queue[0].kind == Other then [] else [queue[0]]) + OwnMessages(queue[1..])
  }

  /** The state without the messages that are not the channel's own. */
  function Quiet(st: State): State { st.(queue := OwnMessages(st.queue)) }

  /** What is left of a step when other channels do not exist. Taking a message that is not the
      channel's own becomes a Read that returns (0, nil). */
  function OwnStep(sv: Server, cl: Client, step: Step): seq<Action>
    requires StepEnabled(sv, cl, step)
  {
    if step.Writes? then
      if step.s.channel != sv.subscriber then []
      else [if step.s.op.Data? then Write(step.s.op.p) else Close]
    else if step.a.Receive? && View(sv, cl).queue[0].kind == Other then [Retry]
    else [step.a]
  }

  function OwnSteps(sv: Server, cl: Client, steps: seq<Step>): seq<Action>
    requires ValidSteps(sv, cl, steps)
    decreases |steps|
  {
    if steps == [] then []
    else OwnStep(sv, cl, steps[0])
         + OwnSteps(ServerAfter(sv, cl, steps[0]), ClientAfter(sv, cl, steps[0]), steps[1..])
  }

  lemma {:induction false} OwnMessagesConcat(a: seq<Msg>, b: seq<Msg>)
    ensures OwnMessages(a + b) == OwnMessages(a) + OwnMessages(b)
  {
    if a == [] {
      assert a + b == b;
    } else {
      OwnMessagesConcat(a[1..], b);
      assert (a + b)[0] == a[0] && (a + b)[1..] == a[1..] + b;
      var head := if a[0].kind == Other then [] else [a[0]];
      assert OwnMessages(a + b) == head + OwnMessages(a[1..] + b);
      assert head + (OwnMessages(a[1..]) + OwnMessages(b)) == head + OwnMessages(a[1..]) + OwnMessages(b);
    }
  }

  lemma QuietSend(st: State, a: Action)
    requires a.Write? || a.Close? || a.Foreign?
    ensures Quiet(Next(st, a)) == if a.Foreign? then Quiet(st) else Next(Quiet(st), a)
  {
    var msg := Next(st, a).queue[|st.queue|];
    OwnMessagesConcat(st.queue, [msg]);
    assert [msg][1..] == [];
  }

  lemma QuietRead(st: State, a: Action)
    requires Enabled(st, a) && (a.Begin? || a.Receive? || a.Finish?)
    ensures var a' := if a.Receive? && st.queue[0].kind == Other then Retry else a;
            Enabled(Quiet(st), a') && Quiet(Next(st, a)) == Next(Quiet(st), a')
  {
    if a.Receive? {
      QuietReceive(st);
    } else if a.Begin? {
      QuietBegin(st, a.len);
    } else {
      QuietFinish(st, st.pc.msg, st.pc.len);
    }
  }

  lemma QuietBegin(st: State, len: nat)
    ensures Quiet(BeginRead(st, len)) == BeginRead(Quiet(st), len)
  {
    assert Fetch(Quiet(st), len) == Fetch(st, len);
  }

  lemma QuietFinish(st: State, msg: Msg, len: nat)
    ensures Quiet(FinishRead(st, msg, len)) == FinishRead(Quiet(st), msg, len)
  {
    assert Fetch(Quiet(st), len) == Fetch(st, len);
  }

  lemma QuietReceive(st: State)
    requires Enabled(st, Receive)
    ensures var a' := if st.queue[0].kind == Other then Retry else Receive;
            Enabled(Quiet(st), a') && Quiet(Next(st, Receive)) == Next(Quiet(st), a')
  {
    var rest := OwnMessages(st.queue[1..]);
    if st.queue[0].kind == Other {
      assert OwnMessages(st.queue) == [] + rest == rest;
    } else {
      assert OwnMessages(st.queue) == [st.queue[0]] + rest;
      assert OwnMessages(st.queue)[1..] == rest;
    }
  }

  lemma StepIsOwn(sv: Server, cl: Client, step: Step)
    requires StepEnabled(sv, cl, step)
    ensures var acts := OwnStep(sv, cl, step);
            && Valid(Quiet(View(sv, cl)), acts)
            && Quiet(View(ServerAfter(sv, cl, step), ClientAfter(sv, cl, step))) == Run(Quiet(View(sv, cl)), acts)
  {
    var st := View(sv, cl);
    var acts := OwnStep(sv, cl, step);
    assert acts != [] ==> acts[1..] == [];
    if step.Writes? {
      if step.s.channel == sv.subscriber {
        PerformOwn(sv, cl, step.s);
        QuietSend(st, acts[0]);
      } else {
        PerformOther(sv, cl, step.s);
        QuietSend(st, Foreign);
      }
    } else {
      QuietRead(st, step.a);
      ReadSeen(sv, cl, step.a);
    }
  }

  /** A step of the reader is the machine's. */
  lemma ReadSeen(sv: Server, cl: Client, a: Action)
    requires StepEnabled(sv, cl, Reads(a))
    ensures View(ServerAfter(sv, cl, Reads(a)), ClientAfter(sv, cl, Reads(a))) == Next(View(sv, cl), a)
  {
    if a.Receive? {
      assert TranslateAll(sv.subscriber, sv.inbox[1..]) == TranslateAll(sv.subscriber, sv.inbox)[1..];
    }
  }

  /** Any run of the whole system is, to the reader of channel `c`, a run of the steps on `c`, with
      an empty Read for each message of another channel that it takes. */
  lemma {:induction false} OwnStepsRun(sv: Server, cl: Client, steps: seq<Step>)
    requires ValidSteps(sv, cl, steps)
    ensures Valid(Quiet(View(sv, cl)), OwnSteps(sv, cl, steps))
    ensures Quiet(Outcome(sv, cl, steps)) == Run(Quiet(View(sv, cl)), OwnSteps(sv, cl, steps))
    decreases |steps|
  {
    if steps != [] {
      var sv', cl' := ServerAfter(sv, cl, steps[0]), ClientAfter(sv, cl, steps[0]);
      StepIsOwn(sv, cl, steps[0]);
      OwnStepsRun(sv', cl', steps[1..]);
      RunConcat(Quiet(View(sv, cl)), OwnStep(sv, cl, steps[0]), OwnSteps(sv', cl', steps[1..]));
    }
  }

  // ---------------------------------------------------------------- Without the empty Reads

  /** The buffer length of a Read in progress, where each empty Read is taken as going on with the
      next: that of the last Read before a message of the channel's own is taken. */
  function LastLen(len: nat, acts: seq<Action>): nat
    decreases |acts|
  {
    if acts == [] then len
    else
      match acts[0]
      case Begin(len') => LastLen(len', acts[1..])
      case Receive => len
      case Finish => len
      case _ => LastLen(len, acts[1..])
  }

  /** The steps without empty Reads: a Read that would come back empty goes on with the Read after
      it. `open` says that it is on its way between the two, with a buffer of `held` bytes so far. */
  function Erase(st: State, acts: seq<Action>, open: bool, held: nat): seq<Action>
    requires Valid(st, acts)
    decreases |acts|
  {
    if acts == [] then []
    else
      var st', rest := Next(st, acts[0]), acts[1..];
      match acts[0]
      case Retry => Erase(st', rest, true, st.pc.len)
      case Begin(len) =>
        if open then Erase(st', rest, false, 0)
        else [Begin(if st'.pc.Waiting? then LastLen(len, rest) else len)] + Erase(st', rest, false, 0)
      case a => [a] + Erase(st', rest, open, held)
  }

  /** The state the erased steps are in. */
  function Patient(st: State, acts: seq<Action>, open: bool, held: nat): State {
    st.(pc := if open then Waiting(LastLen(held, acts))
              else if st.pc.Waiting? then Waiting(LastLen(st.pc.len, acts))
              else st.pc)
  }

  /** Only a live, open reader waits, and never with an empty buffer. */
  predicate LiveWait(st: State, open: bool, held: nat) {
    && st.rd.offset >= 0
    && (st.pc.Waiting? || open ==> st.rd.replayed && !st.rd.closed)
    && (st.pc.Waiting? ==> st.pc.len >= 1)
    && (open ==> st.pc.Rest? && held >= 1)
  }

  predicate NotEmpty(acts: seq<Action>) { forall a :: a in acts && a.Begin? ==> a.len >= 1 }

  lemma {:induction false} LastLenPositive(len: nat, acts: seq<Action>)
    requires len >= 1 && NotEmpty(acts)
    ensures LastLen(len, acts) >= 1
    decreases |acts|
  {
    if acts != [] {
      assert acts[0] in acts;
      LastLenPositive(match acts[0] case Begin(len') => len' case _ => len, acts[1..]);
    }
  }

  /** A Read that finds nothing to replay does so with any other buffer. */
  lemma AnyBufferWaits(st: State, len: nat, len': nat)
    requires st.pc.Rest? && st.rd.offset >= 0 && len >= 1 && len' >= 1 && BeginRead(st, len).pc.Waiting?
    ensures BeginRead(st, len') == BeginRead(st, len).(pc := Waiting(len'))
    ensures BeginRead(st, len).pc == Waiting(len) && BeginRead(st, len).rd.replayed && !BeginRead(st, len).rd.closed
  {
    FetchWindow(st.log, st.rd.offset, len);
    FetchWindow(st.log, st.rd.offset, len');
  }

  /** What the first step is without empty Reads. */
  function EraseOne(st: State, acts: seq<Action>, open: bool): seq<Action>
    requires Valid(st, acts) && acts != []
  {
    match acts[0]
    case Retry => []
    case Begin(len) =>
      if open then []
      else [Begin(if Next(st, acts[0]).pc.Waiting? then LastLen(len, acts[1..]) else len)]
    case a => [a]
  }

  function StillOpen(a: Action, open: bool): bool { a.Retry? || (open && !a.Begin?) }

  function HeldAfter(st: State, a: Action, held: nat): nat
    requires Enabled(st, a)
  {
    if a.Retry? then st.pc.len else if a.Begin? then 0 else held
  }

  lemma EraseStep(st: State, acts: seq<Action>, open: bool, held: nat)
    requires Valid(st, acts) && acts != [] && LiveWait(st, open, held) && NotEmpty(acts)
    ensures var a := acts[0];
            var st', open', held' := Next(st, a), StillOpen(a, open), HeldAfter(st, a, held);
      && LiveWait(st', open', held')
      && Valid(Patient(st, acts, open, held), EraseOne(st, acts, open))
      && Run(Patient(st, acts, open, held), EraseOne(st, acts, open)) == Patient(st', acts[1..], open', held')
  {
    var a, rest := acts[0], acts[1..];
    assert a in acts;
    var one := EraseOne(st, acts, open);
    assert one != [] ==> one[1..] == [];
    if a.Begin? && !open && Next(st, a).pc.Waiting? {
      LastLenPositive(a.len, rest);
      AnyBufferWaits(st, a.len, LastLen(a.len, rest));
    } else if a.Begin? {
      BeginKeepsWait(st, a.len);
    }
  }

  lemma BeginKeepsWait(st: State, len: nat)
    requires st.pc.Rest? && st.rd.offset >= 0 && len >= 1
    ensures BeginRead(st, len).rd.offset >= 0 && (BeginRead(st, len).pc.Waiting? ==> BeginRead(st, len).pc.len == len)
    ensures BeginRead(st, len).pc.Waiting? ==> BeginRead(st, len).rd.replayed && !BeginRead(st, len).rd.closed
  {
    FetchWindow(st.log, st.rd.offset, len);
  }

  /** Nothing is left but steps of the channel itself, and of Reads that come back with something. */
  predicate NoRetry(acts: seq<Action>) { forall a :: a in acts ==> !a.Retry? }

  /** The same state, but that a Read may still wait where the other has come back empty. */
  predicate SameUpToWait(end: State, patient: State) {
    patient == end || (end.pc.Rest? && patient.pc.Waiting? && patient == end.(pc := patient.pc))
  }

  lemma {:induction false} ErasedRun(st: State, acts: seq<Action>, open: bool, held: nat)
    requires Valid(st, acts) && LiveWait(st, open, held) && NotEmpty(acts)
    ensures var erased := Erase(st, acts, open, held);
      && Valid(Patient(st, acts, open, held), erased) && NoRetry(erased)
      && SameUpToWait(Run(st, acts), Run(Patient(st, acts, open, held), erased))
    decreases |acts|
  {
    if acts != [] {
      var a := acts[0];
      var st', open', held' := Next(st, a), StillOpen(a, open), HeldAfter(st, a, held);
      EraseStep(st, acts, open, held);
      ErasedRun(st', acts[1..], open', held');
      EraseIsFirst(st, acts, open, held);
      RunConcat(Patient(st, acts, open, held), EraseOne(st, acts, open), Erase(st', acts[1..], open', held'));
    }
  }

  lemma EraseIsFirst(st: State, acts: seq<Action>, open: bool, held: nat)
    requires Valid(st, acts) && acts != [] && LiveWait(st, open, held)
    ensures var a := acts[0];
      Erase(st, acts, open, held)
      == EraseOne(st, acts, open) + Erase(Next(st, a), acts[1..], StillOpen(a, open), HeldAfter(st, a, held))
  {
  }

  lemma {:induction false} SameBuffer(st: State, acts: seq<Action>)
    requires Valid(st, acts) && NoRetry(acts) && st.pc.Waiting?
    ensures LastLen(st.pc.len, acts) == st.pc.len
    decreases |acts|
  {
    if acts != [] {
      assert acts[0] in acts;
      if !acts[0].Receive? { SameBuffer(Next(st, acts[0]), acts[1..]); }
    }
  }

  /** Where no Read comes back empty, nothing is erased: the steps of a reader that never takes
      another channel's message are its erased steps. */
  lemma {:induction false} NothingToErase(st: State, acts: seq<Action>, held: nat)
    requires Valid(st, acts) && NoRetry(acts)
    ensures Erase(st, acts, false, held) == acts
    decreases |acts|
  {
    if acts != [] {
      assert acts[0] in acts;
      NothingToErase(Next(st, acts[0]), acts[1..], if acts[0].Begin? then 0 else held);
      if Next(st, acts[0]).pc.Waiting? { SameBuffer(Next(st, acts[0]), acts[1..]); }
      if acts[0].Begin? { WaitsWith(st, acts[0].len); }
    }
  }

  lemma WaitsWith(st: State, len: nat)
    ensures BeginRead(st, len).pc.Waiting? ==> st.pc.Waiting? || BeginRead(st, len).pc.len == len
  {
  }

  predicate NonEmptyReads(steps: seq<Step>) { forall s :: s in steps && s.Reads? && s.a.Begin? ==> s.a.len >= 1 }

  lemma {:induction false} OwnStepsNotEmpty(sv: Server, cl: Client, steps: seq<Step>)
    requires ValidSteps(sv, cl, steps) && NonEmptyReads(steps)
    ensures NotEmpty(OwnSteps(sv, cl, steps)) && forall a :: a in OwnSteps(sv, cl, steps) ==> !a.Foreign?
    decreases |steps|
  {
    if steps != [] {
      assert steps[0] in steps;
      OwnStepsNotEmpty(ServerAfter(sv, cl, steps[0]), ClientAfter(sv, cl, steps[0]), steps[1..]);
    }
  }

  lemma {:induction false} ErasedAreOwn(st: State, acts: seq<Action>, open: bool, held: nat)
    requires Valid(st, acts) && forall a :: a in acts ==> !a.Foreign?
    ensures forall a :: a in Erase(st, acts, open, held) ==> !a.Foreign?
    decreases |acts|
  {
    if acts != [] {
      assert acts[0] in acts;
      ErasedAreOwn(Next(st, acts[0]), acts[1..], StillOpen(acts[0], open), HeldAfter(st, acts[0], held));
    }
  }

  /** The steps of the channel itself, from a reader that is between Reads: other channels leave
      nothing in them, neither a message nor an empty Read. */
  function Own(sv: Server, cl: Client, steps: seq<Step>): seq<Action>
    requires ValidSteps(sv, cl, steps)
  {
    OwnStepsRun(sv, cl, steps);
    Erase(Quiet(View(sv, cl)), OwnSteps(sv, cl, steps), false, 0)
  }

  /** Any run of the whole system is, to the reader of channel `c`, the run in which other channels
      do not exist: same log, done flag, offset, returned chunks and EOF. The one difference is that a
      Read may still wait there where here it has come back empty. */
  lemma ChannelIsolation(sv: Server, cl: Client, steps: seq<Step>)
    requires ValidSteps(sv, cl, steps) && NonEmptyReads(steps) && cl.pc.Rest? && cl.rd.offset >= 0
    ensures var own := Own(sv, cl, steps);
      && Valid(Quiet(View(sv, cl)), own) && NoRetry(own) && (forall a :: a in own ==> !a.Foreign?)
      && SameUpToWait(Quiet(Outcome(sv, cl, steps)), Run(Quiet(View(sv, cl)), own))
  {
    OwnStepsRun(sv, cl, steps);
    OwnStepsNotEmpty(sv, cl, steps);
    ErasedRun(Quiet(View(sv, cl)), OwnSteps(sv, cl, steps), false, 0);
    ErasedAreOwn(Quiet(View(sv, cl)), OwnSteps(sv, cl, steps), false, 0);
  }

  /** Two systems that differ only in what other channels do, however many of their messages each
      reader takes, give their readers the same bytes and the same EOF. */
  lemma OthersAreInvisible(sv1: Server, cl1: Client, steps1: seq<Step>, sv2: Server, cl2: Client, steps2: seq<Step>)
    requires ValidSteps(sv1, cl1, steps1) && NonEmptyReads(steps1) && cl1.pc.Rest? && cl1.rd.offset >= 0
    requires ValidSteps(sv2, cl2, steps2) && NonEmptyReads(steps2) && cl2.pc.Rest?
    requires Quiet(View(sv1, cl1)) == Quiet(View(sv2, cl2))
    requires Own(sv1, cl1, steps1) == Own(sv2, cl2, steps2)
    ensures var end1, end2 := Outcome(sv1, cl1, steps1), Outcome(sv2, cl2, steps2);
      && end1.chunks == end2.chunks && end1.eof == end2.eof && end1.rd == end2.rd
      && end1.log == end2.log && end1.done == end2.done
  {
    ChannelIsolation(sv1, cl1, steps1);
    ChannelIsolation(sv2, cl2, steps2);
  }

  // ---------------------------------------------------------------- The promises, for the whole system

  function SeenStep(sv: Server, step: Step): seq<Action> {
    if step.Writes? then Seen(sv.subscriber, step.s) else [step.a]
  }

  function SeenSteps(sv: Server, cl: Client, steps: seq<Step>): seq<Action>
    requires ValidSteps(sv, cl, steps)
    decreases |steps|
  {
    if steps == [] then []
    else SeenStep(sv, steps[0]) + SeenSteps(ServerAfter(sv, cl, steps[0]), ClientAfter(sv, cl, steps[0]), steps[1..])
  }

  lemma StepIsSeen(sv: Server, cl: Client, step: Step)
    requires StepEnabled(sv, cl, step)
    ensures var acts := SeenStep(sv, step);
            && Valid(View(sv, cl), acts)
            && View(ServerAfter(sv, cl, step), ClientAfter(sv, cl, step)) == Run(View(sv, cl), acts)
  {
    if step.Writes? {
      PerformSeen(sv, cl, step.s);
    } else {
      assert [step.a][1..] == [];
      ReadSeen(sv, cl, step.a);
    }
  }

  lemma {:induction false} SystemIsMachine(sv: Server, cl: Client, steps: seq<Step>)
    requires ValidSteps(sv, cl, steps)
    ensures Valid(View(sv, cl), SeenSteps(sv, cl, steps))
    ensures Outcome(sv, cl, steps) == Run(View(sv, cl), SeenSteps(sv, cl, steps))
    decreases |steps|
  {
    if steps != [] {
      var step := steps[0];
      var sv', cl' := ServerAfter(sv, cl, step), ClientAfter(sv, cl, step);
      StepIsSeen(sv, cl, step);
      SystemIsMachine(sv', cl', steps[1..]);
      RunConcat(View(sv, cl), SeenStep(sv, step), SeenSteps(sv', cl', steps[1..]));
    }
  }

  /** Writes on the subscriber's channel are at most `w` bytes, buffers at least `l`. Other
      channels' writes are not limited. */
  predicate StepsSized(c: string, steps: seq<Step>, w: nat, l: nat) {
    forall s :: s in steps ==>
      && (s.Writes? && s.s.channel == c && s.s.op.Data? ==> |s.s.op.p| <= w)
      && (s.Reads? && s.a.Begin? ==> s.a.len >= l)
  }

  lemma {:induction false} SeenStepsSized(sv: Server, cl: Client, steps: seq<Step>, w: nat, l: nat)
    requires ValidSteps(sv, cl, steps) && StepsSized(sv.subscriber, steps, w, l)
    ensures Sized(SeenSteps(sv, cl, steps), w, l)
    decreases |steps|
  {
    if steps != [] {
      var step := steps[0];
      assert step in steps;
      if step.Reads? { assert !step.a.Write?; } else { PerformSeen(sv, cl, step.s); }
      SeenStepsSized(ServerAfter(sv, cl, step), ClientAfter(sv, cl, step), steps[1..], w, l);
    }
  }

  /** Any writers on any channels, interleaved in any way with one reader: its bytes come in
      order and exactly once, no wake-up is lost, and no EOF cuts data off. */
  lemma SystemKeepsPromises(sv: Server, cl: Client, start: nat, w: nat, l: nat, steps: seq<Step>)
    requires Initial(View(sv, cl), start) && ValidSteps(sv, cl, steps)
    requires StepsSized(sv.subscriber, steps, w, l) && l >= 1 && w <= l
    ensures var end := Outcome(sv, cl, steps);
            InOrder(end, start) && Wakeup.Prompt(end) && Wakeup.EofAfterClose(end)
  {
    SystemIsMachine(sv, cl, steps);
    SeenStepsSized(sv, cl, steps, w, l);
    Wakeup.RunsArePrompt(View(sv, cl), start, w, l, SeenSteps(sv, cl, steps));
  }
}
