/**
 redigo's connection pool (redis/pool.go) as a monitor: each region between taking and releasing
 the lock is one step, and any number of goroutines interleave. A goroutine is a client: one call
 of Get with the Close of what it got.
 */
module PoolMonitor {

  datatype Config = Config(maxIdle: nat, maxActive: nat, idleTimeout: int, wait: bool, testOnBorrow: bool)

  /** An idle connection and the time it was returned. */
  datatype Idle = Idle(conn: nat, t: int)

  datatype Phase =
    | Running                                        // has the lock
    | Pruning(i: nat, n: nat)                        // closing a stale connection, unlocked
    | Testing(conn: nat, t: int, i: nat, n: nat)     // TestOnBorrow, unlocked
    | Dialing                                        // Dial, unlocked
    | Waiting                                        // in cond.Wait, not signalled
    | Signalled                                      // signalled, yet to take the lock again
    | Borrowed(conn: nat)
    | Done                                           // Get failed, or the connection was closed

  /** `clients`, `clock` (the latest time read) and `dialled` (connections so far) are
      auxiliary. */
  datatype State = State(idle: seq<Idle>, active: int, closed: bool, clients: seq<Phase>, clock: int, dialled: nat)

  /** `wake` is the waiter a Signal picks; it counts only when that client waits. */
  datatype Action =
    | Get(now: int, wake: nat)
    | Pruned(c: nat, now: int, wake: nat)
    | TestOk(c: nat)
    | TestFail(c: nat, wake: nat)
    | DialOk(c: nat)
    | DialFail(c: nat, wake: nat)
    | Resume(c: nat)
    | Put(c: nat, now: int, broken: bool, wake: nat)
    | PutAgain(c: nat)
    | ClosePool

  // ---------------------------------------------------------------- Counting clients

  datatype Role = Out | Sleeping | Called

  function Weight(role: Role, ph: Phase): nat {
    match role
    case Out => if ph.Testing? || ph.Dialing? || ph.Borrowed? then 1 else 0
    case Sleeping => if ph.Waiting? then 1 else 0
    case Called => if ph.Signalled? then 1 else 0
  }

  function Sum(role: Role, clients: seq<Phase>): nat {
    if clients == [] then 0 else Weight(role, clients[0]) + Sum(role, clients[1..])
  }

  lemma {:induction false} SumUpdate(role: Role, s: seq<Phase>, i: nat, ph: Phase)
    requires i < |s|
    ensures Sum(role, s[i := ph]) == Sum(role, s) - Weight(role, s[i]) + Weight(role, ph)
  {
    if i == 0 {
      assert s[0 := ph][1..] == s[1..];
    } else {
      assert s[i := ph][1..] == s[1..][i - 1 := ph];
      SumUpdate(role, s[1..], i - 1, ph);
    }
  }

  lemma {:induction false} SumSnoc(role: Role, s: seq<Phase>, ph: Phase)
    ensures Sum(role, s + [ph]) == Sum(role, s) + Weight(role, ph)
  {
    if s == [] {
      assert [ph][1..] == [];
    } else {
      assert (s + [ph])[0] == s[0] && (s + [ph])[1..] == s[1..] + [ph];
      SumSnoc(role, s[1..], ph);
    }
  }

  lemma {:induction false} SumPositive(role: Role, s: seq<Phase>, i: nat)
    requires i < |s|
    ensures Sum(role, s) >= Weight(role, s[i])
  {
    if i > 0 { SumPositive(role, s[1..], i - 1); }
  }

  lemma {:induction false} SumWitness(role: Role, s: seq<Phase>) returns (i: nat)
    requires Sum(role, s) > 0
    ensures i < |s| && Weight(role, s[i]) > 0
  {
    if Weight(role, s[0]) > 0 {
      i := 0;
    } else {
      i := SumWitness(role, s[1..]);
      i := i + 1;
    }
  }

  // ---------------------------------------------------------------- The locked regions

  /** cond.Signal: one waiter, if there is any. */
  function Signal(clients: seq<Phase>, wake: nat): seq<Phase> {
    if wake < |clients| && clients[wake].Waiting? then clients[wake := Signalled] else clients
  }

  /** A Signal wakes somebody whenever somebody waits. */
  predicate WakesOne(clients: seq<Phase>, wake: nat) {
    Sum(Sleeping, clients) > 0 ==> wake < |clients| && clients[wake].Waiting?
  }

  function Broadcast(clients: seq<Phase>): seq<Phase> {
    seq(|clients|, i requires 0 <= i < |clients| => if clients[i].Waiting? then Signalled else clients[i])
  }

  function Release(st: State, wake: nat): State {
    st.(active := st.active - 1, clients := Signal(st.clients, wake))
  }

  function Move(st: State, c: nat, ph: Phase): State
    requires c < |st.clients|
  {
    st.(clients := st.clients[c := ph])
  }

  /** What a client does with the idle connection it has taken. */
  function Taken(cfg: Config, ic: Idle, i: nat, n: nat): Phase {
    if cfg.testOnBorrow then Testing(ic.conn, ic.t, i + 1, n) else Borrowed(ic.conn)
  }

  /** `get` from its i-th look at the idle list to the next unlock or wait. */
  function Loop(cfg: Config, st: State, c: nat, i: nat, n: nat): State
    requires c < |st.clients|
  {
    if i < n && st.idle != [] then
      var ic := st.idle[0];
      Move(st.(idle := st.idle[1..]), c, Taken(cfg, ic, i, n))
    else if st.closed then Move(st, c, Done)
    else if cfg.maxActive == 0 || st.active < cfg.maxActive then Move(st.(active := st.active + 1), c, Dialing)
    else if !cfg.wait then Move(st, c, Done)
    else Move(st, c, Waiting)
  }

  predicate Stale(cfg: Config, ic: Idle, now: int) { ic.t + cfg.idleTimeout <= now }

  /** The prune loop from its i-th look at the idle list: one stale connection taken from the
      back, or on to the main loop. */
  function Prune(cfg: Config, st: State, c: nat, i: nat, n: nat, now: int, wake: nat): State
    requires c < |st.clients|
  {
    if cfg.idleTimeout > 0 && i < n && st.idle != [] && Stale(cfg, st.idle[|st.idle| - 1], now) then
      Release(Move(st.(idle := st.idle[..|st.idle| - 1]), c, Pruning(i + 1, n)), wake)
    else Loop(cfg, st, c, 0, |st.idle|)
  }

  function PutBack(cfg: Config, st: State, conn: nat, now: int, broken: bool, wake: nat): State {
    if st.closed || broken then Release(st, wake)
    else
      var idle := [Idle(conn, now)] + st.idle;
      if |idle| > cfg.maxIdle then Release(st.(idle := idle[..|idle| - 1]), wake)
      else st.(idle := idle, clients := Signal(st.clients, wake))
  }

  predicate Enabled(st: State, a: Action) {
    match a
    case Get(now, wake) => now >= st.clock && WakesOne(st.clients, wake)
    case Pruned(c, now, wake) =>
      c < |st.clients| && st.clients[c].Pruning? && now >= st.clock && WakesOne(st.clients, wake)
    case TestOk(c) => c < |st.clients| && st.clients[c].Testing?
    case TestFail(c, wake) => c < |st.clients| && st.clients[c].Testing? && WakesOne(st.clients, wake)
    case DialOk(c) => c < |st.clients| && st.clients[c].Dialing?
    case DialFail(c, wake) => c < |st.clients| && st.clients[c].Dialing? && WakesOne(st.clients, wake)
    case Resume(c) => c < |st.clients| && st.clients[c].Signalled?
    case Put(c, now, _, wake) =>
      c < |st.clients| && st.clients[c].Borrowed? && now >= st.clock && WakesOne(st.clients, wake)
    case PutAgain(c) => c < |st.clients| && st.clients[c].Done?
    case ClosePool => true
  }

  function Next(cfg: Config, st: State, a: Action): State
    requires Enabled(st, a)
  {
    match a
    case Get(now, wake) =>
      var st1 := st.(clock := now, clients := st.clients + [Running]);
      Prune(cfg, st1, |st.clients|, 0, |st.idle|, now, wake)
    case Pruned(c, now, wake) =>
      Prune(cfg, Move(st, c, Running).(clock := now), c, st.clients[c].i, st.clients[c].n, now, wake)
    case TestOk(c) => Move(st, c, Borrowed(st.clients[c].conn))
    case TestFail(c, wake) => Loop(cfg, Release(Move(st, c, Running), wake), c, st.clients[c].i, st.clients[c].n)
    case DialOk(c) => Move(st, c, Borrowed(st.dialled)).(dialled := st.dialled + 1)
    case DialFail(c, wake) => Release(Move(st, c, Done), wake)
    case Resume(c) => Loop(cfg, st, c, 0, |st.idle|)
    case Put(c, now, broken, wake) =>
      PutBack(cfg, Move(st, c, Done).(clock := now), st.clients[c].conn, now, broken, wake)
    case PutAgain(c) => st
    case ClosePool => st.(idle := [], closed := true, active := st.active - |st.idle|, clients := Broadcast(st.clients))
  }

  predicate Valid(cfg: Config, st: State, acts: seq<Action>)
    decreases |acts|
  {
    acts == [] || (Enabled(st, acts[0]) && Valid(cfg, Next(cfg, st, acts[0]), acts[1..]))
  }

  function Run(cfg: Config, st: State, acts: seq<Action>): State
    requires Valid(cfg, st, acts)
    decreases |acts|
  {
    if acts == [] then st else Run(cfg, Next(cfg, st, acts[0]), acts[1..])
  }

  lemma RunCons(cfg: Config, st: State, a: Action, acts: seq<Action>)
    requires Enabled(st, a) && Valid(cfg, Next(cfg, st, a), acts)
    ensures Valid(cfg, st, [a] + acts) && Run(cfg, st, [a] + acts) == Run(cfg, Next(cfg, st, a), acts)
  {
    assert ([a] + acts)[1..] == acts;
  }

  const EMPTY := State([], 0, false, [], 0, 0)

  // ---------------------------------------------------------------- Conservation

  /** Every connection counted in `active` is idle, borrowed, being tested or being dialled. */
  predicate Conserved(cfg: Config, st: State) {
    && st.active == |st.idle| + Sum(Out, st.clients)
    && (cfg.maxActive > 0 ==> st.active <= cfg.maxActive)
    && |st.idle| <= cfg.maxIdle
  }

  /** A waiting client has nothing to wait for but connections that are out, or clients already
      on their way: free capacity never exceeds the signalled clients. */
  predicate NoLostWakeup(cfg: Config, st: State) {
    && (st.closed ==> Sum(Sleeping, st.clients) == 0)
    && (Sum(Sleeping, st.clients) > 0 ==>
          cfg.wait && cfg.maxActive > 0 && cfg.maxActive - Sum(Out, st.clients) <= Sum(Called, st.clients))
  }

  predicate Counted(cfg: Config, st: State) { Conserved(cfg, st) && NoLostWakeup(cfg, st) }

  lemma SumMove(st: State, c: nat, ph: Phase)
    requires c < |st.clients|
    ensures forall role ::
      Sum(role, Move(st, c, ph).clients) == Sum(role, st.clients) - Weight(role, st.clients[c]) + Weight(role, ph)
  {
    forall role { SumUpdate(role, st.clients, c, ph); }
  }

  lemma SumSignal(clients: seq<Phase>, wake: nat)
    requires WakesOne(clients, wake)
    ensures Sum(Out, Signal(clients, wake)) == Sum(Out, clients)
    ensures if Sum(Sleeping, clients) == 0 then Signal(clients, wake) == clients
            else Sum(Sleeping, Signal(clients, wake)) == Sum(Sleeping, clients) - 1
                 && Sum(Called, Signal(clients, wake)) == Sum(Called, clients) + 1
  {
    if wake < |clients| && clients[wake].Waiting? {
      SumPositive(Sleeping, clients, wake);
      SumUpdate(Out, clients, wake, Signalled);
      SumUpdate(Sleeping, clients, wake, Signalled);
      SumUpdate(Called, clients, wake, Signalled);
    }
  }

  lemma {:induction false} SumBroadcast(clients: seq<Phase>)
    ensures Sum(Out, Broadcast(clients)) == Sum(Out, clients) && Sum(Sleeping, Broadcast(clients)) == 0
  {
    if clients != [] {
      assert Broadcast(clients)[1..] == Broadcast(clients[1..]);
      SumBroadcast(clients[1..]);
    }
  }

  /** `active` is right and free capacity is spoken for, at the start of a region of client `c`. */
  predicate Settled(cfg: Config, st: State, c: nat) {
    && c < |st.clients| && Weight(Sleeping, st.clients[c]) == 0 && Weight(Out, st.clients[c]) == 0
    && Counted(cfg, st)
  }

  /** The main loop keeps the counts. A client goes to sleep only when the idle list is empty and
      every slot is out. */
  lemma LoopCounted(cfg: Config, st: State, c: nat, i: nat, n: nat)
    requires Settled(cfg, st, c)
    // a first look at the idle list, or a slot has just been released in the same region
    requires (i < n || st.idle == []) || (cfg.maxActive > 0 ==> st.active < cfg.maxActive)
    ensures var st' := Loop(cfg, st, c, i, n);
      && Counted(cfg, st')
      && (st'.clients[c].Waiting? ==>
            st.idle == [] && st.active == cfg.maxActive && Sum(Out, st'.clients) == cfg.maxActive)
  {
    var ph := Loop(cfg, st, c, i, n).clients[c];
    SumMove(st, c, ph);
    assert Loop(cfg, st, c, i, n).clients == st.clients[c := ph];
  }

  lemma ReleaseCounted(cfg: Config, st: State, wake: nat, c: nat)
    requires c < |st.clients| && Weight(Sleeping, st.clients[c]) == 0 && Weight(Out, st.clients[c]) == 0
    requires WakesOne(st.clients, wake)
    requires st.active - 1 == |st.idle| + Sum(Out, st.clients) && |st.idle| <= cfg.maxIdle
    requires cfg.maxActive > 0 ==> st.active <= cfg.maxActive
    requires st.closed ==> Sum(Sleeping, st.clients) == 0
    requires Sum(Sleeping, st.clients) > 0 ==>
      cfg.wait && cfg.maxActive > 0 && cfg.maxActive - Sum(Out, st.clients) <= Sum(Called, st.clients) + 1
    ensures Settled(cfg, Release(st, wake), c)
    ensures Release(st, wake).clients[c] == st.clients[c]
  {
    SumSignal(st.clients, wake);
  }

  lemma PruneCounted(cfg: Config, st: State, c: nat, i: nat, n: nat, now: int, wake: nat)
    requires Settled(cfg, st, c) && WakesOne(st.clients, wake)
    ensures Counted(cfg, Prune(cfg, st, c, i, n, now, wake))
  {
    if cfg.idleTimeout > 0 && i < n && st.idle != [] && Stale(cfg, st.idle[|st.idle| - 1], now) {
      var st1 := Move(st.(idle := st.idle[..|st.idle| - 1]), c, Pruning(i + 1, n));
      SumMove(st, c, Pruning(i + 1, n));
      assert st1.clients == Move(st, c, Pruning(i + 1, n)).clients;
      SleepersStay(st.clients, c, Pruning(i + 1, n), wake);
      ReleaseCounted(cfg, st1, wake, c);
    } else {
      LoopCounted(cfg, st, c, 0, |st.idle|);
    }
  }

  /** Moving a client that does not sleep leaves the waker's choice good. */
  lemma SleepersStay(clients: seq<Phase>, c: nat, ph: Phase, wake: nat)
    requires c < |clients| && !clients[c].Waiting? && !ph.Waiting? && WakesOne(clients, wake)
    ensures WakesOne(clients[c := ph], wake)
  {
    SumUpdate(Sleeping, clients, c, ph);
  }

  lemma PutBackCounted(cfg: Config, st: State, conn: nat, now: int, broken: bool, wake: nat, c: nat)
    requires c < |st.clients| && st.clients[c].Done? && WakesOne(st.clients, wake)
    requires st.active - 1 == |st.idle| + Sum(Out, st.clients) && |st.idle| <= cfg.maxIdle
    requires cfg.maxActive > 0 ==> st.active <= cfg.maxActive
    requires st.closed ==> Sum(Sleeping, st.clients) == 0
    requires Sum(Sleeping, st.clients) > 0 ==>
      cfg.wait && cfg.maxActive > 0 && cfg.maxActive - Sum(Out, st.clients) <= Sum(Called, st.clients) + 1
    ensures Counted(cfg, PutBack(cfg, st, conn, now, broken, wake))
  {
    if st.closed || broken {
      ReleaseCounted(cfg, st, wake, c);
    } else {
      var idle := [Idle(conn, now)] + st.idle;
      if |idle| > cfg.maxIdle {
        ReleaseCounted(cfg, st.(idle := idle[..|idle| - 1]), wake, c);
      } else {
        SumSignal(st.clients, wake);
      }
    }
  }

  lemma GetCounted(cfg: Config, st: State, now: int, wake: nat)
    requires Counted(cfg, st) && Enabled(st, Get(now, wake))
    ensures Counted(cfg, Next(cfg, st, Get(now, wake)))
  {
    forall role { SumSnoc(role, st.clients, Running); }
    var st1 := st.(clock := now, clients := st.clients + [Running]);
    assert WakesOne(st1.clients, wake);
    PruneCounted(cfg, st1, |st.clients|, 0, |st.idle|, now, wake);
  }

  lemma TestFailCounted(cfg: Config, st: State, c: nat, wake: nat)
    requires Counted(cfg, st) && Enabled(st, TestFail(c, wake))
    ensures Counted(cfg, Next(cfg, st, TestFail(c, wake)))
  {
    SumMove(st, c, Running);
    SleepersStay(st.clients, c, Running, wake);
    ReleaseCounted(cfg, Move(st, c, Running), wake, c);
    LoopCounted(cfg, Release(Move(st, c, Running), wake), c, st.clients[c].i, st.clients[c].n);
  }

  lemma PutCounted(cfg: Config, st: State, a: Action)
    requires Counted(cfg, st) && Enabled(st, a) && a.Put?
    ensures Counted(cfg, Next(cfg, st, a))
  {
    SumMove(st, a.c, Done);
    SleepersStay(st.clients, a.c, Done, a.wake);
    PutBackCounted(cfg, Move(st, a.c, Done).(clock := a.now), st.clients[a.c].conn, a.now, a.broken, a.wake, a.c);
  }

  lemma NextCounted(cfg: Config, st: State, a: Action)
    requires Counted(cfg, st) && Enabled(st, a)
    ensures Counted(cfg, Next(cfg, st, a))
  {
    match a
    case Get(now, wake) => GetCounted(cfg, st, now, wake);
    case Pruned(c, now, wake) =>
      SumMove(st, c, Running);
      SleepersStay(st.clients, c, Running, wake);
      PruneCounted(cfg, Move(st, c, Running).(clock := now), c, st.clients[c].i, st.clients[c].n, now, wake);
    case TestOk(c) => SumMove(st, c, Borrowed(st.clients[c].conn));
    case TestFail(c, wake) => TestFailCounted(cfg, st, c, wake);
    case DialOk(c) => SumMove(st, c, Borrowed(st.dialled));
    case DialFail(c, wake) =>
      SumMove(st, c, Done);
      SleepersStay(st.clients, c, Done, wake);
      ReleaseCounted(cfg, Move(st, c, Done), wake, c);
    case Resume(c) => LoopCounted(cfg, st, c, 0, |st.idle|);
    case Put(_, _, _, _) => PutCounted(cfg, st, a);
    case PutAgain(c) =>
    case ClosePool => SumBroadcast(st.clients);
  }

  lemma {:induction false} RunCounted(cfg: Config, st: State, acts: seq<Action>)
    requires Counted(cfg, st) && Valid(cfg, st, acts)
    ensures Counted(cfg, Run(cfg, st, acts))
    decreases |acts|
  {
    if acts != [] {
      NextCounted(cfg, st, acts[0]);
      RunCounted(cfg, Next(cfg, st, acts[0]), acts[1..]);
    }
  }

  /** At every unlocked point of every run: `active` is exactly the idle, borrowed, tested and
      dialling connections, the limits hold, and no wake-up is lost. */
  lemma PoolConservesAndWakes(cfg: Config, acts: seq<Action>)
    requires Valid(cfg, EMPTY, acts)
    ensures var st := Run(cfg, EMPTY, acts);
      && st.active == |st.idle| + Sum(Out, st.clients)
      && (cfg.maxActive > 0 ==> st.active <= cfg.maxActive) && |st.idle| <= cfg.maxIdle
      && (Sum(Sleeping, st.clients) > 0 ==>
            !st.closed && cfg.maxActive - Sum(Out, st.clients) <= Sum(Called, st.clients))
  {
    RunCounted(cfg, EMPTY, acts);
  }

  /** If somebody sleeps and nobody is signalled, every slot is out with some goroutine, whose
      next step towards the pool will signal: the pool cannot stand still with free capacity. */
  lemma SleeperHasWaker(cfg: Config, acts: seq<Action>) returns (c: nat)
    requires Valid(cfg, EMPTY, acts)
    requires Sum(Sleeping, Run(cfg, EMPTY, acts).clients) > 0 && Sum(Called, Run(cfg, EMPTY, acts).clients) == 0
    ensures var st := Run(cfg, EMPTY, acts);
      && Sum(Out, st.clients) == cfg.maxActive && st.idle == []
      && c < |st.clients| && Weight(Out, st.clients[c]) == 1
  {
    RunCounted(cfg, EMPTY, acts);
    c := SumWitness(Out, Run(cfg, EMPTY, acts).clients);
  }

  predicate Full(cfg: Config, st: State) { st.idle == [] && Sum(Out, st.clients) == cfg.maxActive }

  /** Nobody but `c` starts to wait in a region of client `c`. */
  predicate OnlyMover(before: seq<Phase>, after: seq<Phase>, c: nat) {
    |before| == |after| && forall d :: 0 <= d < |after| && d != c && after[d].Waiting? ==> before[d].Waiting?
  }

  lemma LoopSleeps(cfg: Config, st: State, c: nat, i: nat, n: nat)
    requires Settled(cfg, st, c)
    requires (i < n || st.idle == []) || (cfg.maxActive > 0 ==> st.active < cfg.maxActive)
    ensures OnlyMover(st.clients, Loop(cfg, st, c, i, n).clients, c)
    ensures Loop(cfg, st, c, i, n).clients[c].Waiting? ==> Full(cfg, Loop(cfg, st, c, i, n))
  {
    LoopCounted(cfg, st, c, i, n);
  }

  lemma PruneSleeps(cfg: Config, st: State, c: nat, i: nat, n: nat, now: int, wake: nat)
    requires Settled(cfg, st, c)
    ensures OnlyMover(st.clients, Prune(cfg, st, c, i, n, now, wake).clients, c)
    ensures Prune(cfg, st, c, i, n, now, wake).clients[c].Waiting? ==> Full(cfg, Prune(cfg, st, c, i, n, now, wake))
  {
    LoopSleeps(cfg, st, c, 0, |st.idle|);
  }

  /** No client of the steps other than these starts to wait. */
  lemma OthersDoNotSleep(cfg: Config, st: State, a: Action, c: nat)
    requires Enabled(st, a) && !a.Get? && !a.Pruned? && !a.TestFail? && !a.Resume?
    requires c < |Next(cfg, st, a).clients| && Next(cfg, st, a).clients[c].Waiting?
    ensures c < |st.clients| && st.clients[c].Waiting?
  {
  }

  lemma GetSleeps(cfg: Config, st: State, a: Action, c: nat)
    requires Counted(cfg, st) && Enabled(st, a) && a.Get?
    requires c < |Next(cfg, st, a).clients| && Next(cfg, st, a).clients[c].Waiting?
    requires c < |st.clients| ==> !st.clients[c].Waiting?
    ensures Full(cfg, Next(cfg, st, a))
  {
    forall role { SumSnoc(role, st.clients, Running); }
    var st1 := st.(clock := a.now, clients := st.clients + [Running]);
    PruneSleeps(cfg, st1, |st.clients|, 0, |st.idle|, a.now, a.wake);
  }

  lemma PrunedSleeps(cfg: Config, st: State, a: Action, c: nat)
    requires Counted(cfg, st) && Enabled(st, a) && a.Pruned?
    requires c < |Next(cfg, st, a).clients| && Next(cfg, st, a).clients[c].Waiting? && !st.clients[c].Waiting?
    ensures Full(cfg, Next(cfg, st, a))
  {
    SumMove(st, a.c, Running);
    PruneSleeps(cfg, Move(st, a.c, Running).(clock := a.now), a.c, st.clients[a.c].i, st.clients[a.c].n, a.now, a.wake);
  }

  /** A failed test puts nobody to sleep: its slot is free again when the client looks. */
  lemma TestFailSleeps(cfg: Config, st: State, a: Action, c: nat)
    requires Counted(cfg, st) && Enabled(st, a) && a.TestFail?
    requires c < |Next(cfg, st, a).clients| && Next(cfg, st, a).clients[c].Waiting?
    ensures st.clients[c].Waiting?
  {
    var st1 := Move(st, a.c, Running);
    SumMove(st, a.c, Running);
    SleepersStay(st.clients, a.c, Running, a.wake);
    ReleaseCounted(cfg, st1, a.wake, a.c);
    LoopSleeps(cfg, Release(st1, a.wake), a.c, st.clients[a.c].i, st.clients[a.c].n);
  }

  /** Whenever a step puts a client to sleep, the idle list is empty and every slot is out at
      that moment. */
  lemma SleepOnlyWhenFull(cfg: Config, st: State, a: Action, c: nat)
    requires Counted(cfg, st) && Enabled(st, a)
    requires c < |Next(cfg, st, a).clients| && Next(cfg, st, a).clients[c].Waiting?
    requires c < |st.clients| ==> !st.clients[c].Waiting?
    ensures Full(cfg, Next(cfg, st, a))
  {
    if a.Get? {
      GetSleeps(cfg, st, a, c);
    } else if a.Pruned? {
      PrunedSleeps(cfg, st, a, c);
    } else if a.TestFail? {
      TestFailSleeps(cfg, st, a, c);
    } else if a.Resume? {
      LoopSleeps(cfg, st, a.c, 0, |st.idle|);
    } else {
      OthersDoNotSleep(cfg, st, a, c);
    }
  }

  // ---------------------------------------------------------------- What a get ends with

  /** A closed pool, or one with a limit and without Wait, all of whose slots are out. */
  predicate Refusing(cfg: Config, st: State) {
    st.closed || (0 < cfg.maxActive && !cfg.wait && Full(cfg, st))
  }

  /** A client is refused only by a pool that is closed, or full and not to be waited for; and waits
      only for one that is open, full and to be waited for. Below the limit, or without one, an open
      pool serves every `get`. */
  lemma RefusedOnlyWhenFull(cfg: Config, st: State, a: Action, c: nat)
    requires Counted(cfg, st) && Enabled(st, a) && c < |Next(cfg, st, a).clients|
    requires c < |st.clients| ==> st.clients[c] != Next(cfg, st, a).clients[c]
    ensures var st' := Next(cfg, st, a);
      && (st'.clients[c].Done? ==> Refusing(cfg, st') || ((a.DialFail? || a.Put?) && a.c == c))
      && (st'.clients[c].Waiting? ==> !st'.closed && 0 < cfg.maxActive && cfg.wait && Full(cfg, st'))
  {
    NextCounted(cfg, st, a);
    var ph := Next(cfg, st, a).clients[c];
    if ph.Waiting? {
      SleepOnlyWhenFull(cfg, st, a, c);
      SleeperMeans(cfg, Next(cfg, st, a), c);
    } else if ph.Done? {
      DoneOnlyWhenFull(cfg, st, a, c);
    }
  }

  lemma SleeperMeans(cfg: Config, st: State, c: nat)
    requires Counted(cfg, st) && c < |st.clients| && st.clients[c].Waiting?
    ensures !st.closed && 0 < cfg.maxActive && cfg.wait
  {
    SumPositive(Sleeping, st.clients, c);
  }

  lemma LoopDone(cfg: Config, st: State, c: nat, i: nat, n: nat)
    requires Settled(cfg, st, c)
    requires (i < n || st.idle == []) || (cfg.maxActive > 0 ==> st.active < cfg.maxActive)
    ensures Loop(cfg, st, c, i, n).clients[c].Done? ==> Refusing(cfg, Loop(cfg, st, c, i, n))
    ensures forall d :: 0 <= d < |st.clients| && d != c ==> Loop(cfg, st, c, i, n).clients[d] == st.clients[d]
  {
    LoopCounted(cfg, st, c, i, n);
    SumMove(st, c, Done);
  }

  lemma PruneDone(cfg: Config, st: State, c: nat, i: nat, n: nat, now: int, wake: nat)
    requires Settled(cfg, st, c)
    ensures Prune(cfg, st, c, i, n, now, wake).clients[c].Done? ==> Refusing(cfg, Prune(cfg, st, c, i, n, now, wake))
    ensures forall d :: 0 <= d < |st.clients| && d != c && Prune(cfg, st, c, i, n, now, wake).clients[d].Done? ==>
      st.clients[d].Done?
  {
    LoopDone(cfg, st, c, 0, |st.idle|);
  }

  /** A client that a step has left with nothing. */
  predicate EndsDone(cfg: Config, st: State, a: Action, c: nat)
    requires Enabled(st, a)
  {
    && c < |Next(cfg, st, a).clients| && Next(cfg, st, a).clients[c].Done?
    && (c < |st.clients| ==> !st.clients[c].Done?)
  }

  lemma GetDone(cfg: Config, st: State, a: Action, c: nat)
    requires Counted(cfg, st) && Enabled(st, a) && a.Get? && EndsDone(cfg, st, a, c)
    ensures Refusing(cfg, Next(cfg, st, a))
  {
    forall role { SumSnoc(role, st.clients, Running); }
    var st1 := st.(clock := a.now, clients := st.clients + [Running]);
    PruneDone(cfg, st1, |st.clients|, 0, |st.idle|, a.now, a.wake);
  }

  lemma PrunedDone(cfg: Config, st: State, a: Action, c: nat)
    requires Counted(cfg, st) && Enabled(st, a) && a.Pruned? && EndsDone(cfg, st, a, c)
    ensures Refusing(cfg, Next(cfg, st, a))
  {
    SumMove(st, a.c, Running);
    var st1 := Move(st, a.c, Running).(clock := a.now);
    PruneDone(cfg, st1, a.c, st.clients[a.c].i, st.clients[a.c].n, a.now, a.wake);
  }

  lemma TestFailDone(cfg: Config, st: State, a: Action, c: nat)
    requires Counted(cfg, st) && Enabled(st, a) && a.TestFail? && EndsDone(cfg, st, a, c)
    ensures Refusing(cfg, Next(cfg, st, a))
  {
    var st1 := Move(st, a.c, Running);
    SumMove(st, a.c, Running);
    SleepersStay(st.clients, a.c, Running, a.wake);
    ReleaseCounted(cfg, st1, a.wake, a.c);
    LoopDone(cfg, Release(st1, a.wake), a.c, st.clients[a.c].i, st.clients[a.c].n);
  }

  lemma OtherDone(cfg: Config, st: State, a: Action, c: nat)
    requires Enabled(st, a) && !a.Get? && !a.Pruned? && !a.TestFail? && !a.Resume? && EndsDone(cfg, st, a, c)
    ensures (a.DialFail? || a.Put?) && a.c == c
  {
  }

  lemma DoneOnlyWhenFull(cfg: Config, st: State, a: Action, c: nat)
    requires Counted(cfg, st) && Enabled(st, a) && EndsDone(cfg, st, a, c)
    ensures Refusing(cfg, Next(cfg, st, a)) || ((a.DialFail? || a.Put?) && a.c == c)
  {
    if a.Get? {
      GetDone(cfg, st, a, c);
    } else if a.Pruned? {
      PrunedDone(cfg, st, a, c);
    } else if a.TestFail? {
      TestFailDone(cfg, st, a, c);
    } else if a.Resume? {
      LoopDone(cfg, st, a.c, 0, |st.idle|);
    } else {
      OtherDone(cfg, st, a, c);
    }
  }

  /** A client that has been given a connection in a region gets the newest idle one: to test, if
      there is a test, and to keep otherwise. */
  predicate GivenNewest(cfg: Config, idle: seq<Idle>, ph: Phase) {
    && (ph.Testing? ==> cfg.testOnBorrow && idle != [] && ph.conn == idle[0].conn && ph.t == idle[0].t)
    && (ph.Borrowed? ==> !cfg.testOnBorrow && idle != [] && ph.conn == idle[0].conn)
  }

  lemma PruneHands(cfg: Config, st: State, c: nat, i: nat, n: nat, now: int, wake: nat)
    requires c < |st.clients|
    ensures var st' := Prune(cfg, st, c, i, n, now, wake);
      && |st'.clients| == |st.clients| && GivenNewest(cfg, st.idle, st'.clients[c])
      && forall d :: 0 <= d < |st.clients| && d != c ==> st'.clients[d] == st.clients[d] || st'.clients[d].Signalled?
  {
  }

  lemma GetHands(cfg: Config, st: State, a: Action, c: nat)
    requires Enabled(st, a) && a.Get? && c < |Next(cfg, st, a).clients|
    requires c < |st.clients| ==> st.clients[c] != Next(cfg, st, a).clients[c]
    ensures GivenNewest(cfg, st.idle, Next(cfg, st, a).clients[c])
  {
    var st1 := st.(clock := a.now, clients := st.clients + [Running]);
    PruneHands(cfg, st1, |st.clients|, 0, |st.idle|, a.now, a.wake);
  }

  lemma PrunedHands(cfg: Config, st: State, a: Action, c: nat)
    requires Enabled(st, a) && a.Pruned? && c < |st.clients| == |Next(cfg, st, a).clients|
    requires st.clients[c] != Next(cfg, st, a).clients[c]
    ensures GivenNewest(cfg, st.idle, Next(cfg, st, a).clients[c])
  {
    var st1 := Move(st, a.c, Running).(clock := a.now);
    PruneHands(cfg, st1, a.c, st.clients[a.c].i, st.clients[a.c].n, a.now, a.wake);
  }

  lemma LoopHands(cfg: Config, st: State, c: nat, i: nat, n: nat)
    requires c < |st.clients|
    ensures var st' := Loop(cfg, st, c, i, n);
      && |st'.clients| == |st.clients| && GivenNewest(cfg, st.idle, st'.clients[c])
      && forall d :: 0 <= d < |st.clients| && d != c ==> st'.clients[d] == st.clients[d]
  {
  }

  lemma LoopStepHands(cfg: Config, st: State, a: Action, c: nat)
    requires Enabled(st, a) && (a.TestFail? || a.Resume?) && c < |Next(cfg, st, a).clients|
    requires c < |st.clients| ==> st.clients[c] != Next(cfg, st, a).clients[c]
    ensures c < |st.clients| && GivenNewest(cfg, st.idle, Next(cfg, st, a).clients[c])
  {
    if a.TestFail? {
      LoopHands(cfg, Release(Move(st, a.c, Running), a.wake), a.c, st.clients[a.c].i, st.clients[a.c].n);
    } else {
      LoopHands(cfg, st, a.c, 0, |st.idle|);
    }
  }

  lemma OtherHands(cfg: Config, st: State, a: Action, c: nat)
    requires Enabled(st, a) && !a.Get? && !a.Pruned? && !a.TestFail? && !a.Resume? && c < |Next(cfg, st, a).clients|
    requires c < |st.clients| ==> st.clients[c] != Next(cfg, st, a).clients[c]
    ensures var ph := Next(cfg, st, a).clients[c];
      && c < |st.clients|
      && (|| GivenNewest(cfg, st.idle, ph)
          || (a == TestOk(c) && st.clients[c].Testing? && ph == Borrowed(st.clients[c].conn))
          || (a == DialOk(c) && ph == Borrowed(st.dialled)))
  {
  }

  /** What a client is given in any step: the newest idle connection, to test it if there is a test;
      the one it has tested; or a new one. */
  lemma HandedOut(cfg: Config, st: State, a: Action, c: nat)
    requires Enabled(st, a) && c < |Next(cfg, st, a).clients|
    requires c < |st.clients| ==> st.clients[c] != Next(cfg, st, a).clients[c]
    ensures var ph := Next(cfg, st, a).clients[c];
      || GivenNewest(cfg, st.idle, ph)
      || (a == TestOk(c) && c < |st.clients| && st.clients[c].Testing? && ph == Borrowed(st.clients[c].conn))
      || (a == DialOk(c) && ph == Borrowed(st.dialled))
  {
    if a.Get? {
      GetHands(cfg, st, a, c);
    } else if a.Pruned? {
      SameClients(cfg, st, a);
      PrunedHands(cfg, st, a, c);
    } else if a.TestFail? || a.Resume? {
      LoopStepHands(cfg, st, a, c);
    } else {
      OtherHands(cfg, st, a, c);
    }
  }

  lemma SameClients(cfg: Config, st: State, a: Action)
    requires Enabled(st, a) && a.Pruned?
    ensures |Next(cfg, st, a).clients| == |st.clients|
  {
  }

  /** Over whole runs: in an open pool below its limit, or without one, no `get` is refused or put to
      sleep, whatever the others do. */
  lemma OpenPoolServes(cfg: Config, acts: seq<Action>, a: Action, c: nat)
    requires Valid(cfg, EMPTY, acts) && Enabled(Run(cfg, EMPTY, acts), a)
    requires var st, st' := Run(cfg, EMPTY, acts), Next(cfg, Run(cfg, EMPTY, acts), a);
      && c < |st'.clients| && (c < |st.clients| ==> st.clients[c] != st'.clients[c])
      && !st'.closed && (cfg.maxActive == 0 || st'.active < cfg.maxActive)
    ensures var st' := Next(cfg, Run(cfg, EMPTY, acts), a);
      !st'.clients[c].Waiting? && (st'.clients[c].Done? ==> (a.DialFail? || a.Put?) && a.c == c)
  {
    RunCounted(cfg, EMPTY, acts);
    NextCounted(cfg, Run(cfg, EMPTY, acts), a);
    RefusedOnlyWhenFull(cfg, Run(cfg, EMPTY, acts), a, c);
  }
}
