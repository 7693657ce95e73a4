/**
 The pool's idle list: whose connections are in it, in what order, and what pruning leaves.
 The class at the end has the fields and locked regions of redis/pool.go.
 */
module PoolIdle {
  import opened PoolMonitor

  // ---------------------------------------------------------------- No connection is in two places

  predicate Holds(ph: Phase) { ph.Testing? || ph.Borrowed? }

  /** No connection is idle twice, held by two clients, or both idle and held. */
  predicate Unique(st: State) {
    && (forall i, j :: 0 <= i < j < |st.idle| ==> st.idle[i].conn != st.idle[j].conn)
    && (forall c, d :: 0 <= c < d < |st.clients| && Holds(st.clients[c]) && Holds(st.clients[d]) ==>
          st.clients[c].conn != st.clients[d].conn)
    && (forall i, c :: 0 <= i < |st.idle| && 0 <= c < |st.clients| && Holds(st.clients[c]) ==>
          st.idle[i].conn != st.clients[c].conn)
    && (forall i :: 0 <= i < |st.idle| ==> st.idle[i].conn < st.dialled)
    && (forall c :: 0 <= c < |st.clients| && Holds(st.clients[c]) ==> st.clients[c].conn < st.dialled)
  }

  /** The idle list runs from the newest to the oldest return, none later than the clock. */
  predicate Ordered(st: State) {
    && (forall i, j :: 0 <= i < j < |st.idle| ==> st.idle[i].t >= st.idle[j].t)
    && (forall i :: 0 <= i < |st.idle| ==> st.idle[i].t <= st.clock)
  }

  predicate Orderly(st: State) { Unique(st) && Ordered(st) }

  lemma SignalKeeps(st: State, wake: nat)
    requires Orderly(st)
    ensures Orderly(st.(clients := Signal(st.clients, wake)))
  {
  }

  lemma MoveKeeps(st: State, c: nat, ph: Phase)
    requires Orderly(st) && c < |st.clients|
    requires Holds(ph) ==> ph.conn < st.dialled
    requires Holds(ph) ==>
      forall d :: 0 <= d < |st.clients| && d != c && Holds(st.clients[d]) ==> st.clients[d].conn != ph.conn
    requires Holds(ph) ==> forall i :: 0 <= i < |st.idle| ==> st.idle[i].conn != ph.conn
    ensures Orderly(Move(st, c, ph))
  {
  }

  lemma PopFrontKeeps(st: State)
    requires Orderly(st) && st.idle != []
    ensures Orderly(st.(idle := st.idle[1..]))
    ensures forall i :: 0 <= i < |st.idle| - 1 ==> st.idle[1..][i].conn != st.idle[0].conn
  {
  }

  lemma PopBackKeeps(st: State)
    requires Orderly(st) && st.idle != []
    ensures Orderly(st.(idle := st.idle[..|st.idle| - 1]))
  {
  }

  lemma ReleaseKeeps(st: State, wake: nat)
    requires Orderly(st)
    ensures Orderly(Release(st, wake))
  {
    SignalKeeps(st, wake);
  }

  lemma LoopKeeps(cfg: Config, st: State, c: nat, i: nat, n: nat)
    requires Orderly(st) && c < |st.clients|
    ensures Orderly(Loop(cfg, st, c, i, n))
  {
    if i < n && st.idle != [] {
      var ic := st.idle[0];
      PopFrontKeeps(st);
      MoveKeeps(st.(idle := st.idle[1..]), c, Taken(cfg, ic, i, n));
    } else {
      MoveKeeps(st, c, Loop(cfg, st, c, i, n).clients[c]);
    }
  }

  lemma StaleKeeps(st: State, c: nat, ph: Phase, wake: nat)
    requires Orderly(st) && c < |st.clients| && st.idle != [] && ph.Pruning?
    ensures Orderly(Release(Move(st.(idle := st.idle[..|st.idle| - 1]), c, ph), wake))
  {
    var st1 := st.(idle := st.idle[..|st.idle| - 1]);
    PopBackKeeps(st);
    MoveKeeps(st1, c, ph);
    ReleaseKeeps(Move(st1, c, ph), wake);
  }

  lemma PruneKeeps(cfg: Config, st: State, c: nat, i: nat, n: nat, now: int, wake: nat)
    requires Orderly(st) && c < |st.clients|
    ensures Orderly(Prune(cfg, st, c, i, n, now, wake))
  {
    if cfg.idleTimeout > 0 && i < n && st.idle != [] && Stale(cfg, st.idle[|st.idle| - 1], now) {
      StaleKeeps(st, c, Pruning(i + 1, n), wake);
    } else {
      LoopKeeps(cfg, st, c, 0, |st.idle|);
    }
  }

  lemma PushFrontKeeps(st: State, conn: nat, now: int)
    requires Orderly(st) && conn < st.dialled && st.clock == now
    requires forall i :: 0 <= i < |st.idle| ==> st.idle[i].conn != conn
    requires forall c :: 0 <= c < |st.clients| && Holds(st.clients[c]) ==> st.clients[c].conn != conn
    ensures Orderly(st.(idle := [Idle(conn, now)] + st.idle))
  {
  }

  lemma PutBackKeeps(cfg: Config, st: State, conn: nat, now: int, broken: bool, wake: nat)
    requires Orderly(st) && conn < st.dialled && st.clock == now
    requires forall i :: 0 <= i < |st.idle| ==> st.idle[i].conn != conn
    requires forall c :: 0 <= c < |st.clients| && Holds(st.clients[c]) ==> st.clients[c].conn != conn
    ensures Orderly(PutBack(cfg, st, conn, now, broken, wake))
  {
    var idle := [Idle(conn, now)] + st.idle;
    var st1 := st.(idle := idle);
    PushFrontKeeps(st, conn, now);
    if st.closed || broken {
      SignalKeeps(st, wake);
    } else if |idle| > cfg.maxIdle {
      PopBackKeeps(st1);
      SignalKeeps(st1.(idle := idle[..|idle| - 1]), wake);
    } else {
      SignalKeeps(st1, wake);
    }
  }

  lemma GetKeeps(cfg: Config, st: State, now: int, wake: nat)
    requires Orderly(st) && now >= st.clock && WakesOne(st.clients, wake)
    ensures Orderly(Next(cfg, st, Get(now, wake)))
  {
    var st1 := st.(clock := now, clients := st.clients + [Running]);
    assert Orderly(st1);
    PruneKeeps(cfg, st1, |st.clients|, 0, |st.idle|, now, wake);
  }

  lemma TestFailKeeps(cfg: Config, st: State, c: nat, wake: nat)
    requires Orderly(st) && Enabled(st, TestFail(c, wake))
    ensures Orderly(Next(cfg, st, TestFail(c, wake)))
  {
    MoveKeeps(st, c, Running);
    ReleaseKeeps(Move(st, c, Running), wake);
    LoopKeeps(cfg, Release(Move(st, c, Running), wake), c, st.clients[c].i, st.clients[c].n);
  }

  lemma PutKeeps(cfg: Config, st: State, a: Action)
    requires Orderly(st) && Enabled(st, a) && a.Put?
    ensures Orderly(Next(cfg, st, a))
  {
    MoveKeeps(st, a.c, Done);
    PutBackKeeps(cfg, Move(st, a.c, Done).(clock := a.now), st.clients[a.c].conn, a.now, a.broken, a.wake);
  }

  lemma PrunedKeeps(cfg: Config, st: State, c: nat, now: int, wake: nat)
    requires Orderly(st) && Enabled(st, Pruned(c, now, wake))
    ensures Orderly(Next(cfg, st, Pruned(c, now, wake)))
  {
    MoveKeeps(st, c, Running);
    var st1 := Move(st, c, Running).(clock := now);
    assert Orderly(st1);
    PruneKeeps(cfg, st1, c, st.clients[c].i, st.clients[c].n, now, wake);
  }

  lemma DialledKeeps(cfg: Config, st: State, a: Action)
    requires Orderly(st) && Enabled(st, a) && (a.DialOk? || a.DialFail?)
    ensures Orderly(Next(cfg, st, a))
  {
    if a.DialOk? {
      MoveKeeps(st.(dialled := st.dialled + 1), a.c, Borrowed(st.dialled));
    } else {
      MoveKeeps(st, a.c, Done);
      ReleaseKeeps(Move(st, a.c, Done), a.wake);
    }
  }

  lemma NextKeeps(cfg: Config, st: State, a: Action)
    requires Orderly(st) && Enabled(st, a)
    ensures Orderly(Next(cfg, st, a))
  {
    match a
    case Get(now, wake) => GetKeeps(cfg, st, now, wake);
    case Pruned(c, now, wake) => PrunedKeeps(cfg, st, c, now, wake);
    case TestOk(c) => MoveKeeps(st, c, Borrowed(st.clients[c].conn));
    case TestFail(c, wake) => TestFailKeeps(cfg, st, c, wake);
    case DialOk(_) => DialledKeeps(cfg, st, a);
    case DialFail(_, _) => DialledKeeps(cfg, st, a);
    case Resume(c) => LoopKeeps(cfg, st, c, 0, |st.idle|);
    case Put(_, _, _, _) => PutKeeps(cfg, st, a);
    case PutAgain(_) =>
    case ClosePool =>
  }

  /** In every run no connection is in two places, and the idle list stays ordered newest first. */
  lemma {:induction false} RunKeeps(cfg: Config, st: State, acts: seq<Action>)
    requires Orderly(st) && Valid(cfg, st, acts)
    ensures Orderly(Run(cfg, st, acts))
    decreases |acts|
  {
    if acts != [] {
      NextKeeps(cfg, st, acts[0]);
      RunKeeps(cfg, Next(cfg, st, acts[0]), acts[1..]);
    }
  }

  // ---------------------------------------------------------------- Pruning

  predicate Newest(idle: seq<Idle>) { forall i, j :: 0 <= i < j < |idle| ==> idle[i].t >= idle[j].t }

  /** The connections that have not been idle for the timeout. */
  function Unexpired(cfg: Config, idle: seq<Idle>, now: int): seq<Idle> {
    if idle == [] then []
    else (if Stale(cfg, idle[0], now) then [] else [idle[0]]) + Unexpired(cfg, idle[1..], now)
  }

  lemma {:induction false} UnexpiredConcat(cfg: Config, a: seq<Idle>, b: seq<Idle>, now: int)
    ensures Unexpired(cfg, a + b, now) == Unexpired(cfg, a, now) + Unexpired(cfg, b, now)
  {
    if a == [] {
      assert a + b == b;
    } else {
      assert (a + b)[0] == a[0] && (a + b)[1..] == a[1..] + b;
      UnexpiredConcat(cfg, a[1..], b, now);
    }
  }

  /** Exactly the connections whose timeout has not passed. */
  lemma {:induction false} UnexpiredIs(cfg: Config, idle: seq<Idle>, now: int, ic: Idle)
    ensures ic in Unexpired(cfg, idle, now) <==> ic in idle && ic.t + cfg.idleTimeout > now
  {
    if idle != [] { UnexpiredIs(cfg, idle[1..], now, ic); }
  }

  /** In an ordered list nothing is stale once the oldest is not. */
  lemma {:induction false} NoneStale(cfg: Config, idle: seq<Idle>, now: int)
    requires Newest(idle) && (idle != [] ==> !Stale(cfg, idle[|idle| - 1], now))
    ensures Unexpired(cfg, idle, now) == idle
  {
    if idle != [] {
      assert idle[0].t >= idle[|idle| - 1].t;
      if |idle| > 1 { assert idle[1..][|idle| - 2] == idle[|idle| - 1]; }
      NoneStale(cfg, idle[1..], now);
    }
  }

  lemma DropStale(cfg: Config, idle: seq<Idle>, now: int)
    requires idle != [] && Stale(cfg, idle[|idle| - 1], now)
    ensures Unexpired(cfg, idle[..|idle| - 1], now) == Unexpired(cfg, idle, now)
  {
    var last := idle[|idle| - 1];
    assert idle[..|idle| - 1] + [last] == idle && [last][1..] == [];
    UnexpiredConcat(cfg, idle[..|idle| - 1], [last], now);
  }

  /** A waiter for Signal to pick. */
  lemma Waker(clients: seq<Phase>) returns (wake: nat)
    ensures WakesOne(clients, wake)
  {
    if Sum(Sleeping, clients) > 0 { wake := SumWitness(Sleeping, clients); } else { wake := 0; }
  }

  /** One step of the prune loop. */
  lemma PruneStep(cfg: Config, st: State, c: nat, now: int, wake: nat)
    requires Enabled(st, Pruned(c, now, wake)) && cfg.idleTimeout > 0
    requires |st.idle| <= st.clients[c].n - st.clients[c].i
    ensures var st1 := Next(cfg, st, Pruned(c, now, wake));
      if st.idle != [] && Stale(cfg, st.idle[|st.idle| - 1], now) then
        st1.idle == st.idle[..|st.idle| - 1] && st1.active == st.active - 1 && st1.clock == now
        && c < |st1.clients| && st1.clients[c] == Pruning(st.clients[c].i + 1, st.clients[c].n)
      else st1 == Loop(cfg, Move(st, c, Running).(clock := now), c, 0, |st.idle|)
  {
  }

  /** A step that takes a stale connection leaves as much to prune. */
  lemma StaleStep(cfg: Config, st: State, c: nat, now: int, wake: nat)
    requires Enabled(st, Pruned(c, now, wake)) && cfg.idleTimeout > 0 && Newest(st.idle)
    requires |st.idle| <= st.clients[c].n - st.clients[c].i && st.idle != [] && Stale(cfg, st.idle[|st.idle| - 1], now)
    ensures var st1 := Next(cfg, st, Pruned(c, now, wake));
      && c < |st1.clients| && st1.clients[c].Pruning? && st1.clock == now && Newest(st1.idle)
      && |st1.idle| == |st.idle| - 1 <= st1.clients[c].n - st1.clients[c].i && st1.active == st.active - 1
      && Unexpired(cfg, st1.idle, now) == Unexpired(cfg, st.idle, now)
  {
    PruneStep(cfg, st, c, now, wake);
    DropStale(cfg, st.idle, now);
  }

  lemma RunOne(cfg: Config, st: State, a: Action)
    requires Enabled(st, a)
    ensures Valid(cfg, st, [a]) && Run(cfg, st, [a]) == Next(cfg, st, a)
  {
    assert [a] == [a] + [];
    RunCons(cfg, st, a, []);
  }

  /** Pruning refines filtering: when nobody else takes a step and the clock stands still, the
      prune loop of client `c` leaves exactly the unexpired connections to the main loop. */
  lemma {:induction false} PruningFilters(cfg: Config, st: State, c: nat, now: int)
    returns (acts: seq<Action>, mid: State)
    requires c < |st.clients| && st.clients[c].Pruning? && now >= st.clock && cfg.idleTimeout > 0
    requires Newest(st.idle) && |st.idle| <= st.clients[c].n - st.clients[c].i
    ensures Valid(cfg, st, acts) && c < |mid.clients| && mid.idle == Unexpired(cfg, st.idle, now)
    ensures Run(cfg, st, acts) == Loop(cfg, mid, c, 0, |mid.idle|)
    ensures mid.active - |mid.idle| == st.active - |st.idle|
    decreases |st.idle|
  {
    var wake := Waker(st.clients);
    var act := Pruned(c, now, wake);
    var st1 := Next(cfg, st, act);
    if st.idle != [] && Stale(cfg, st.idle[|st.idle| - 1], now) {
      StaleStep(cfg, st, c, now, wake);
      var rest;
      rest, mid := PruningFilters(cfg, st1, c, now);
      acts := [act] + rest;
      RunCons(cfg, st, act, rest);
    } else {
      PruneStep(cfg, st, c, now, wake);
      NoneStale(cfg, st.idle, now);
      mid := Move(st, c, Running).(clock := now);
      acts := [act];
      RunOne(cfg, st, act);
    }
  }

  /** Without a timeout nothing is pruned. */
  lemma NoTimeoutNoPruning(cfg: Config, st: State, now: int, wake: nat)
    requires Enabled(st, Get(now, wake)) && cfg.idleTimeout <= 0
    ensures var st' := Next(cfg, st, Get(now, wake));
      && !st'.clients[|st.clients|].Pruning?
      && st'.idle == (if st.idle == [] then [] else st.idle[1..]) && st'.active >= st.active
  {
  }

  /** The same from the start: a `get` that nobody interrupts and during which the clock stands still
      leaves exactly the unexpired connections to its main loop. */
  lemma GetFilters(cfg: Config, st: State, now: int) returns (acts: seq<Action>, mid: State)
    requires now >= st.clock && cfg.idleTimeout > 0 && Newest(st.idle)
    ensures acts != [] && acts[0].Get? && acts[0].now == now && Valid(cfg, st, acts)
    ensures |st.clients| < |mid.clients| && mid.idle == Unexpired(cfg, st.idle, now)
    ensures Run(cfg, st, acts) == Loop(cfg, mid, |st.clients|, 0, |mid.idle|)
    ensures mid.active - |mid.idle| == st.active - |st.idle|
  {
    var wake := Waker(st.clients);
    var act, c := Get(now, wake), |st.clients|;
    if st.idle != [] && Stale(cfg, st.idle[|st.idle| - 1], now) {
      GetTakesStale(cfg, st, now, wake);
      var rest;
      rest, mid := PruningFilters(cfg, Next(cfg, st, act), c, now);
      acts := [act] + rest;
      RunCons(cfg, st, act, rest);
    } else {
      NoneStale(cfg, st.idle, now);
      mid := st.(clock := now, clients := st.clients + [Running]);
      acts := [act];
      RunOne(cfg, st, act);
    }
  }

  /** And its main loop takes the newest connection, if that has not expired. */
  lemma GetTakesNewest(cfg: Config, st: State, now: int) returns (acts: seq<Action>)
    requires now >= st.clock && cfg.idleTimeout > 0 && Newest(st.idle)
    requires st.idle != [] && !Stale(cfg, st.idle[0], now)
    ensures Valid(cfg, st, acts) && acts != [] && acts[0].Get?
    ensures var st', ic, c := Run(cfg, st, acts), st.idle[0], |st.clients|;
      && st'.idle == Unexpired(cfg, st.idle, now)[1..] && c < |st'.clients|
      && if cfg.testOnBorrow then st'.clients[c].Testing? && st'.clients[c].conn == ic.conn && st'.clients[c].t == ic.t
         else st'.clients[c] == Borrowed(ic.conn)
  {
    var mid;
    acts, mid := GetFilters(cfg, st, now);
    LoopTakes(cfg, mid, |st.clients|);
  }

  lemma LoopTakes(cfg: Config, st: State, c: nat)
    requires c < |st.clients| && st.idle != []
    ensures var st', ic := Loop(cfg, st, c, 0, |st.idle|), st.idle[0];
      && st'.idle == st.idle[1..] && |st'.clients| == |st.clients|
      && if cfg.testOnBorrow then st'.clients[c].Testing? && st'.clients[c].conn == ic.conn && st'.clients[c].t == ic.t
         else st'.clients[c] == Borrowed(ic.conn)
  {
  }

  lemma GetTakesStale(cfg: Config, st: State, now: int, wake: nat)
    requires Enabled(st, Get(now, wake)) && cfg.idleTimeout > 0 && Newest(st.idle)
    requires st.idle != [] && Stale(cfg, st.idle[|st.idle| - 1], now)
    ensures var st1, c := Next(cfg, st, Get(now, wake)), |st.clients|;
      && c < |st1.clients| && st1.clients[c].Pruning? && st1.clock == now && Newest(st1.idle)
      && |st1.idle| == |st.idle| - 1 <= st1.clients[c].n - st1.clients[c].i && st1.active == st.active - 1
      && Unexpired(cfg, st1.idle, now) == Unexpired(cfg, st.idle, now)
  {
    DropStale(cfg, st.idle, now);
  }

  lemma OneTaken(was: seq<Idle>, idle: seq<Idle>, taken: seq<Idle>)
    requires idle + taken == was && idle != []
    ensures idle[..|idle| - 1] + ([idle[|idle| - 1]] + taken) == was && was[|idle| - 1] == idle[|idle| - 1]
  {
  }

  lemma PrefixNewest(was: seq<Idle>, idle: seq<Idle>)
    requires Newest(was) && idle <= was
    ensures Newest(idle)
  {
    assert forall k :: 0 <= k < |idle| ==> idle[k] == was[k];
  }

  /** Where all from the `m`-th on have expired and the one before has not, none before has. */
  lemma KeptAreFresh(cfg: Config, was: seq<Idle>, m: nat, now: int)
    requires Newest(was) && m <= |was| && (forall k :: m <= k < |was| ==> Stale(cfg, was[k], now))
    requires m > 0 ==> !Stale(cfg, was[m - 1], now)
    ensures forall k :: 0 <= k < |was| ==> (k < m <==> was[k].t + cfg.idleTimeout > now)
  {
    forall k | 0 <= k < m ensures was[k].t + cfg.idleTimeout > now {
      if k < m - 1 { assert was[k].t >= was[m - 1].t; }
    }
  }

  lemma {:induction false} AllStale(cfg: Config, idle: seq<Idle>, now: int)
    requires forall i :: 0 <= i < |idle| ==> Stale(cfg, idle[i], now)
    ensures Unexpired(cfg, idle, now) == []
  {
    if idle != [] { AllStale(cfg, idle[1..], now); }
  }

  lemma KeptAreUnexpired(cfg: Config, was: seq<Idle>, idle: seq<Idle>, taken: seq<Idle>, now: int)
    requires Newest(was) && was == idle + taken && (idle != [] ==> !Stale(cfg, idle[|idle| - 1], now))
    requires forall k :: |idle| <= k < |was| ==> Stale(cfg, was[k], now)
    ensures Unexpired(cfg, was, now) == idle
  {
    PrefixNewest(was, idle);
    UnexpiredConcat(cfg, idle, taken, now);
    NoneStale(cfg, idle, now);
    assert forall k :: 0 <= k < |taken| ==> taken[k] == was[|idle| + k];
    AllStale(cfg, taken, now);
  }

  // ---------------------------------------------------------------- The pool

  datatype Looked = Take(ic: Idle) | PoolClosed | Dial | Exhausted | Wait

  class Pool {
    const cfg: Config
    var idle: seq<Idle>
    var active: int
    var closed: bool
    ghost var clients: seq<Phase>
    ghost var clock: int
    ghost var dialled: nat

    ghost function View(): State
      reads this
    {
      State(idle, active, closed, clients, clock, dialled)
    }

    constructor (cfg: Config)
      ensures this.cfg == cfg && View() == EMPTY
    {
      this.cfg, idle, active, closed := cfg, [], 0, false;
      clients, clock, dialled := [], 0, 0;
    }

    method Release(ghost wake: nat)
      modifies `active, `clients
      ensures View() == PoolMonitor.Release(old(View()), wake)
      ensures active == old(active) - 1
      ensures wake < |clients| && old(clients)[wake].Waiting? ==> clients == old(clients)[wake := Signalled]
    {
      active := active - 1;
      clients := Signal(clients, wake);
    }

    /** The prune loop with nobody else taking the lock and the clock standing still: the
        back-to-front loop with its early break removes exactly the expired connections. */
    method PruneAll(now: int, ghost wakes: nat -> nat) returns (toClose: seq<Idle>)
      requires cfg.idleTimeout > 0 && Newest(idle)
      modifies `idle, `active, `clients
      ensures idle == Unexpired(cfg, old(idle), now)
      ensures idle + toClose == old(idle)
      ensures forall k :: 0 <= k < |old(idle)| ==> (k < |idle| <==> old(idle)[k].t + cfg.idleTimeout > now)
      ensures active - |idle| == old(active - |idle|)
    {
      toClose := [];
      var i, n := 0, |idle|;
      while i < n
        invariant i <= n && |idle| == n - i
        invariant idle + toClose == old(idle)
        invariant forall k :: |idle| <= k < n ==> Stale(cfg, old(idle)[k], now)
        invariant active - |idle| == old(active - |idle|)
      {
        if idle == [] { break; }
        var ic := idle[|idle| - 1];
        if ic.t + cfg.idleTimeout > now { break; }
        OneTaken(old(idle), idle, toClose);
        idle := idle[..|idle| - 1];
        Release(wakes(i));
        toClose := [ic] + toClose;
        i := i + 1;
      }
      KeptAreFresh(cfg, old(idle), |idle|, now);
      KeptAreUnexpired(cfg, old(idle), idle, toClose, now);
    }

    /** The main loop of `get` for client `c`, from one look at the idle list to the next unlock. The
        newest idle connection is taken, and tested exactly when there is a test. With none to take, a
        closed pool refuses; below the limit, or without one, it dials; and at the limit it refuses or
        waits. */
    method Look(i: nat, n: nat, ghost c: nat) returns (r: Looked)
      requires c < |clients|
      modifies this
      ensures View() == Loop(cfg, old(View()), c, i, n)
      ensures match r
              case Take(ic) =>
                && old(idle) == [ic] + idle && active == old(active)
                && clients[c] == if cfg.testOnBorrow then Testing(ic.conn, ic.t, i + 1, n) else Borrowed(ic.conn)
              case Dial => clients[c] == Dialing && idle == old(idle) && active == old(active) + 1
              case Wait => clients[c] == Waiting && idle == old(idle) && active == old(active)
              case _ => clients[c] == Done && idle == old(idle) && active == old(active)
      ensures r.Take? <==> i < n && old(idle) != []
      ensures i >= n || old(idle) == [] ==>
        && (r.PoolClosed? <==> closed)
        && (r.Dial? <==> !closed && (cfg.maxActive == 0 || old(active) < cfg.maxActive))
        && (r.Exhausted? <==> !closed && 0 < cfg.maxActive <= old(active) && !cfg.wait)
        && (r.Wait? <==> !closed && 0 < cfg.maxActive <= old(active) && cfg.wait)
      ensures closed == old(closed) && clients == old(clients)[c := clients[c]]
    {
      ghost var after := Loop(cfg, View(), c, i, n);
      clients := after.clients;
      if i < n && idle != [] {
        r := Take(idle[0]);
        idle := idle[1..];
      } else if closed {
        r := PoolClosed;
      } else if cfg.maxActive == 0 || active < cfg.maxActive {
        active := active + 1;
        r := Dial;
      } else if !cfg.wait {
        r := Exhausted;
      } else {
        r := Wait;
      }
    }

    /** `put`: the locked part of giving back client `c`'s connection; tells what to close. A good
        connection goes to the front of the idle list, and the oldest one makes room for it. */
    method Put(conn: nat, now: int, broken: bool, ghost c: nat, ghost wake: nat) returns (toClose: seq<nat>)
      requires Enabled(View(), Action.Put(c, now, broken, wake)) && clients[c] == Borrowed(conn)
      modifies this
      ensures View() == Next(cfg, old(View()), Action.Put(c, now, broken, wake))
      ensures toClose == if closed || broken then [conn]
                         else if |old(idle)| < cfg.maxIdle then []
                         else if old(idle) == [] then [conn] else [old(idle)[|old(idle)| - 1].conn]
      ensures idle == if closed || broken then old(idle)
                      else if |old(idle)| < cfg.maxIdle then [Idle(conn, now)] + old(idle)
                      else ([Idle(conn, now)] + old(idle))[..|old(idle)|]
      ensures active == old(active) - |toClose| && closed == old(closed) && clients[c] == Done
    {
      ghost var st := Move(View(), c, Done).(clock := now);
      clients, clock := st.clients, now;
      toClose := [conn];
      if !closed && !broken {
        idle := [Idle(conn, now)] + idle;
        if |idle| > cfg.maxIdle {
          toClose := [idle[|idle| - 1].conn];
          idle := idle[..|idle| - 1];
        } else {
          toClose := [];
        }
      }
      if toClose == [] {
        clients := Signal(clients, wake);
        return;
      }
      Release(wake);
    }

    method DialFailed(ghost c: nat, ghost wake: nat)
      requires Enabled(View(), DialFail(c, wake))
      modifies this
      ensures View() == Next(cfg, old(View()), DialFail(c, wake))
      ensures active == old(active) - 1 && idle == old(idle) && closed == old(closed) && clients[c] == Done
    {
      clients := clients[c := Done];
      Release(wake);
    }

    method Close() returns (toClose: seq<Idle>)
      modifies this
      ensures View() == Next(cfg, old(View()), ClosePool) && toClose == old(idle)
      ensures closed && idle == [] && active == old(active) - |toClose|
      ensures |clients| == |old(clients)|
      ensures forall c :: 0 <= c < |clients| ==>
        clients[c] == if old(clients)[c].Waiting? then Signalled else old(clients)[c]
    {
      toClose := idle;
      idle, closed := [], true;
      active := active - |toClose|;
      clients := Broadcast(clients);
    }
  }
}
