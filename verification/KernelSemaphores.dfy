/** Semaphores over whole runs: units are conserved, waiters are served in order, and each blocked
    wait gets its result exactly once. */
module KernelSemaphores {
  import opened Sequences
  import opened KernelTypes
  import opened MemorySpec
  import opened KernelSpec
  import opened KernelInv
  import opened KernelSteps
  import opened KernelProcesses
  import opened KernelMachine

  ghost predicate InUse(s: KState, n: nat)
    requires Shaped(s) && n < NR_SEM
  {
    s.sems[n].owner != FREE_SEM
  }

  // ---------- one step ----------

  /** The semaphore, its queue, and the structures of the tasks in it are as they were. */
  ghost predicate SemKept(s: KState, s': KState, n: nat)
    requires Shaped(s) && Shaped(s') && n < NR_SEM
  {
    && s'.sems[n] == s.sems[n] && s'.queues[SemQ(n)] == s.queues[SemQ(n)]
    && forall t :: t in s.queues[SemQ(n)] ==> s'.task[t] == s.task[t]
  }

  /** It was given up: all its waiters are ready with result -1, none of them running yet. */
  ghost predicate SemGone(s: KState, s': KState, n: nat)
    requires Shaped(s) && Shaped(s') && n < NR_SEM
  {
    && s'.sems[n].owner == FREE_SEM && s'.queues[SemQ(n)] == []
    && forall t :: t in s.queues[SemQ(n)] ==>
         t in s'.queues[RUNQ] && t != s'.current && s'.task[t] == Woken(s.task[t], -1)
  }

  /** No waiter is in runqueue. */
  lemma WaitersApart(s: KState, n: nat)
    requires Core(s) && n < NR_SEM
    ensures forall t :: t in s.queues[SemQ(n)] ==>
      0 <= t < NR_TASKS && t !in s.queues[RUNQ] && t !in s.queues[FREEQ] && t !in s.queues[KBDQ]
    ensures forall m, t :: 0 <= m < NR_SEM && m != n && t in s.queues[SemQ(n)] ==> t !in s.queues[SemQ(m)]
  {
  }

  lemma DispatchKept(s: KState, n: nat)
    requires Core(s) && s.queues[RUNQ] != [] && n < NR_SEM
    ensures SemKept(s, Dispatch(s), n)
  {
    WaitersApart(s, n);
  }

  lemma TickKept(s: KState, n: nat)
    requires Inv(s) && n < NR_SEM
    ensures SemKept(s, Tick(s), n)
  {
    WaitersApart(s, n);
    TickedKeeps(s);
    PauseKeeps(Ticked(s));
    DispatchKept(Pause(Ticked(s)), n);
    hide Core;
    InvShape(s);
  }

  lemma ForkKept(s: KState, n: nat)
    requires Inv(s) && n < NR_SEM
    ensures SemKept(s, Fork(s).0, n)
  {
    InvParts(s);
    WaitersApart(s, n);
    hide Core, CurrentOk, CopyPages, CopiedInto, Fork;
    if s.queues[FREEQ] == [] {
      ForkNone(s);
    } else {
      ForkShape(s);
    }
  }

  lemma BlockKept(s: KState, s0: KState, q: nat, n: nat)
    requires Inv(s) && n < NR_SEM && KBDQ <= q < NR_QUEUES && q != SemQ(n) && Shaped(s0)
    requires s0.queues == s.queues && s0.sems == s.sems && s0.current == s.current
    requires forall t :: 0 <= t < NR_TASKS && t != s.current ==> s0.task[t] == s.task[t]
    requires Core(Block(s0, q)) && Block(s0, q).queues[RUNQ] != []
    ensures SemKept(s, Dispatch(Block(s0, q)), n)
  {
    WaitersApart(s, n);
    DispatchKept(Block(s0, q), n);
  }

  lemma WaitOtherKept(s: KState, m: int, n: nat)
    requires Inv(s) && n < NR_SEM && m != n
    ensures WaitBlocks(s, m) ==> Block(s, SemQ(m)).queues[RUNQ] != []
    ensures SemKept(s, SemWait(s, m).0, n)
  {
    WaitReady(s, m);
    hide Core, CurrentOk, Block, Dispatch;
    if WaitBlocks(s, m) {
      BlockKept(s, s, SemQ(m), n);
    }
  }

  lemma ReadKept(s: KState, buff: int, size: int, n: nat)
    requires Inv(s) && n < NR_SEM && AccessOk(buff, size)
    ensures ReadBlocks(s, size) ==> ReadWaits(s, buff, size).queues[RUNQ] != []
    ensures SemKept(s, ReadKeyboard(s, buff, size).0, n)
  {
    ReadReady(s, buff, size);
    hide Core, CurrentOk, Block, Dispatch, StoreBytes;
    if ReadBlocks(s, size) {
      BlockKept(s, Wishing(s, buff, size), KBDQ, n);
    }
  }

  lemma SignalOtherKept(s: KState, m: int, n: nat)
    requires Inv(s) && n < NR_SEM && m != n
    ensures SemKept(s, SemSignal(s, m).0, n)
  {
    WaitersApart(s, n);
    hide Core, CurrentOk;
    InvShape(s);
  }

  lemma KeyKept(s: KState, c: Byte, n: nat)
    requires Inv(s) && n < NR_SEM && (s.queues[KBDQ] != [] ==> WishOk(s, First(s, KBDQ)))
    ensures SemKept(s, KeyPress(s, c), n)
  {
    WaitersApart(s, n);
    hide Core, CurrentOk, WishOk, Movable, Stored;
    InvShape(s);
    var s1 := s.(ring := RingSaved(s.ring, c));
    if Deliverable(s1) {
      WishUnmoved(s, s1, First(s, KBDQ));
      assert Stored(s1).task == s.task;
    }
  }

  // ---------- giving up ----------

  lemma DestroyedGone(s: KState, n: nat)
    requires Core(s) && n < NR_SEM && s.current in s.queues[RUNQ]
    ensures SemGone(s, Destroyed(s, n), n)
    ensures forall m :: 0 <= m < NR_SEM && m != n ==> SemKept(s, Destroyed(s, n), m)
  {
    WaitersApart(s, n);
    forall m | 0 <= m < NR_SEM && m != n ensures SemKept(s, Destroyed(s, n), m) {
      WaitersApart(s, m);
    }
  }

  /** sys_exit's loop: the semaphores of the leaving task are gone, the others as they were. */
  lemma {:induction false} OwnedGone(s: KState, pid: int, k: nat, n: nat)
    requires Core(s) && s.current in s.queues[RUNQ] && k <= NR_SEM && n < NR_SEM && pid != FREE_SEM
    ensures var s' := DestroyOwned(s, pid, k);
      if n < k && s.sems[n].owner == pid then SemGone(s, s', n) else SemKept(s, s', n)
  {
    hide Core, Destroyed, SemKept, SemGone, OnlyWaiters, Partition;
    CoreShaped(s);
    if k == 0 {
      KeptSelf(s, n);
    } else {
      DestroyOwnedKeeps(s, pid, k - 1);
      OwnedGone(s, pid, k - 1, n);
      var s1 := DestroyOwned(s, pid, k - 1);
      CoreShaped(s1);
      OnlyWaitersCurrent(s, s1);
      if s1.sems[k - 1].owner == pid {
        var already := n < k - 1 && s.sems[n].owner == pid;
        DestroyedGone(s1, k - 1);
        DestroyedRunqueue(s1, k - 1);
        if already { AlreadyApart(s, s1, n, k - 1); }
        GoneAfter(s, s1, Destroyed(s1, k - 1), n, already, n == k - 1);
      }
    }
  }

  lemma KeptSelf(s: KState, n: nat)
    requires Shaped(s) && n < NR_SEM
    ensures SemKept(s, s, n)
  {
  }

  lemma AlreadyApart(s: KState, s1: KState, n: nat, k: nat)
    requires Shaped(s) && Core(s1) && n < NR_SEM && k < NR_SEM && SemGone(s, s1, n)
    ensures forall t :: t in s.queues[SemQ(n)] ==> 0 <= t < NR_TASKS && t !in s1.queues[SemQ(k)]
  {
    WaitersApart(s1, k);
  }

  lemma OnlyWaitersCurrent(s: KState, s': KState)
    requires Shaped(s) && Shaped(s') && OnlyWaiters(s, s') && s.current in s.queues[RUNQ]
    ensures s'.current in s'.queues[RUNQ]
  {
  }

  lemma DestroyedRunqueue(s: KState, n: nat)
    requires Shaped(s) && n < NR_SEM
    ensures forall t :: t in s.queues[RUNQ] ==> t in Destroyed(s, n).queues[RUNQ]
    ensures Destroyed(s, n).current == s.current
    ensures forall t :: 0 <= t < NR_TASKS && t !in s.queues[SemQ(n)] ==> Destroyed(s, n).task[t] == s.task[t]
  {
  }

  lemma GoneAfter(s: KState, s1: KState, s2: KState, n: nat, already: bool, now: bool)
    requires Shaped(s) && Shaped(s1) && Shaped(s2) && n < NR_SEM && !(already && now)
    requires if already then SemGone(s, s1, n) else SemKept(s, s1, n)
    requires if now then SemGone(s1, s2, n) else SemKept(s1, s2, n)
    requires s2.current == s1.current && forall t :: t in s1.queues[RUNQ] ==> t in s2.queues[RUNQ]
    requires already ==> forall t :: t in s.queues[SemQ(n)] ==> s2.task[t] == s1.task[t]
    ensures if already || now then SemGone(s, s2, n) else SemKept(s, s2, n)
  {
  }

  lemma ExitSem(s: KState, n: nat)
    requires Inv(s) && n < NR_SEM && s.task[s.current].pid != 0
    ensures FramesInRange(s, s.current) && Removed(s).queues[RUNQ] != []
    ensures var s' := Dispatch(Removed(s));
      if s.sems[n].owner == s.task[s.current].pid then SemGone(s, s', n) else SemKept(s, s', n)
  {
    InvParts(s);
    ExitKeeps(s);
    RunningFrames(s);
    RemovedIsSlotFreed(s);
    OwnedGone(s, s.task[s.current].pid, NR_SEM, n);
    ExitNext(s);
    hide Core, Removed, DestroyOwned, OnlyWaiters, Inv;
    var s2, s3 := DestroyOwned(s, s.task[s.current].pid, NR_SEM), Removed(s);
    SlotFreedSem(s, s2, n, s.sems[n].owner == s.task[s.current].pid);
    WaitersApart(s3, n);
    DispatchSem(s, s3, n, s.sems[n].owner == s.task[s.current].pid);
  }

  /** The task dispatched after an exit was ready before it: woken waiters queue behind task 0. */
  lemma ExitNext(s: KState)
    requires Inv(s) && s.task[s.current].pid != 0 && FramesInRange(s, s.current) && Removed(s).queues[RUNQ] != []
    ensures First(Removed(s), RUNQ) in s.queues[RUNQ]
  {
    hide Core, CurrentOk, Removed, DestroyOwned, PidsOk;
    ZeroReady(s);
    InvParts(s);
    RemovedIsSlotFreed(s);
    var s2 := DestroyOwned(s, s.task[s.current].pid, NR_SEM);
    var q, q2 := s.queues[RUNQ], s2.queues[RUNQ];
    assert q2 == q + q2[|q|..];
    WithoutConcat(q, q2[|q|..], s.current);
    assert 0 in Without(q, s.current);
    assert (Without(q, s.current) + q2[|q|..])[0] == Without(q, s.current)[0];
  }

  lemma ZeroReady(s: KState)
    requires Inv(s)
    ensures Shaped(s) && 0 in s.queues[RUNQ] && s.task[0].pid == 0
  {
  }

  lemma SlotFreedSem(s: KState, s2: KState, n: nat, gone: bool)
    requires Shaped(s) && Core(s2) && n < NR_SEM && s2.current == s.current && s.current in s2.queues[RUNQ]
    requires FramesInRange(s2, s2.current)
    requires if gone then SemGone(s, s2, n) else SemKept(s, s2, n)
    ensures var s3 := SlotFreed(s2);
      if gone then s3.sems[n].owner == FREE_SEM && s3.queues[SemQ(n)] == []
        && forall t :: t in s.queues[SemQ(n)] ==> t in s3.queues[RUNQ] && s3.task[t] == Woken(s.task[t], -1)
      else SemKept(s, s3, n)
  {
    WaitersApart(s2, n);
  }

  lemma DispatchSem(s: KState, s3: KState, n: nat, gone: bool)
    requires Inv(s) && Shaped(s) && Core(s3) && n < NR_SEM && s3.queues[RUNQ] != [] && First(s3, RUNQ) in s.queues[RUNQ]
    requires if gone then s3.sems[n].owner == FREE_SEM && s3.queues[SemQ(n)] == []
        && forall t :: t in s.queues[SemQ(n)] ==> t in s3.queues[RUNQ] && s3.task[t] == Woken(s.task[t], -1)
      else SemKept(s, s3, n)
    ensures if gone then SemGone(s, Dispatch(s3), n) else SemKept(s, Dispatch(s3), n)
  {
    WaitersApart(s, n);
    DispatchKept(s3, n);
  }

  // ---------- all events ----------

  /** Calls other than wait and signal on n either keep the semaphore or give it up. */
  lemma OtherStep(s: KState, e: Event, n: nat)
    requires Inv(s) && Possible(e) && n < NR_SEM && InUse(s, n) && e != WaitCall(n) && e != SignalCall(n)
    ensures var s' := Step(s, e).0; SemKept(s, s', n) || SemGone(s, s', n)
  {
    hide Core, CurrentOk, SemKept, SemGone, Fork, Tick, SemWait, ReadKeyboard, KeyPress, Removed, Dispatch, Destroyed;
    InvShape(s);
    match e
    case ClockTick => TickKept(s, n);
    case ForkCall => ForkKept(s, n);
    case ExitCall =>
      ExitReady(s);
      if s.task[s.current].pid != 0 { ExitSem(s, n); } else { KeptSelf(s, n); }
    case NiceCall(q) => NiceKept(s, q, n);
    case InitCall(m, v) => InitKept(s, m, v, n);
    case WaitCall(m) => WaitOtherKept(s, m, n);
    case SignalCall(m) => SignalOtherKept(s, m, n);
    case DestroyCall(m) => DestroyKept(s, m, n);
    case ReadCall(buff, size) => ReadKept(s, buff, size, n);
    case KeyStroke(c) => KeyReady(s); KeyKept(s, c, n);
    case Store(a, b) => StoreKept(s, a, b, n);
  }

  lemma NiceKept(s: KState, q: int, n: nat)
    requires Inv(s) && n < NR_SEM
    ensures SemKept(s, Nice(s, q).0, n)
  {
    WaitersApart(s, n);
  }

  lemma InitKept(s: KState, m: int, v: int, n: nat)
    requires Inv(s) && n < NR_SEM && InUse(s, n)
    ensures SemKept(s, SemInit(s, m, v).0, n)
  {
  }

  lemma StoreKept(s: KState, a: int, b: Byte, n: nat)
    requires Inv(s) && n < NR_SEM && 0 <= a < NUM_PAG_DATA * PAGE_SIZE
    ensures SemKept(s, UserStore(s, a, b), n)
  {
  }

  lemma DestroyKept(s: KState, m: int, n: nat)
    requires Inv(s) && n < NR_SEM
    ensures SemKept(s, SemDestroy(s, m).0, n) || SemGone(s, SemDestroy(s, m).0, n)
  {
    hide SemKept, SemGone, Destroyed, Core;
    InvParts(s);
    KeptSelf(s, n);
    if SemIndex(m) {
      DestroyedGone(s, m);
    }
  }

  /** A wait on n takes a unit or queues the caller at the end; those already waiting are untouched. */
  lemma WaitStep(s: KState, n: nat)
    requires Inv(s) && n < NR_SEM && InUse(s, n)
    ensures WaitBlocks(s, n) ==> Block(s, SemQ(n)).queues[RUNQ] != []
    ensures var s' := SemWait(s, n).0;
      && s'.sems[n].owner == s.sems[n].owner
      && (s.task[s.current].pid == 0 ==> SemKept(s, s', n))
      && (s.task[s.current].pid != 0 && s.sems[n].value > 0 ==>
            s'.sems[n].value == s.sems[n].value - 1 && s'.queues[SemQ(n)] == s.queues[SemQ(n)])
      && (s.task[s.current].pid != 0 && s.sems[n].value <= 0 ==>
            s'.sems[n].value == s.sems[n].value && s'.queues[SemQ(n)] == s.queues[SemQ(n)] + [s.current])
      && forall t :: t in s.queues[SemQ(n)] ==> s'.task[t] == s.task[t]
  {
    WaitReady(s, n);
    WaitersApart(s, n);
    if WaitBlocks(s, n) {
      DispatchKept(Block(s, SemQ(n)), n);
    }
  }

  /** A signal on n adds a unit, or wakes the first waiter with result 0 and leaves the rest in order. */
  lemma SignalStep(s: KState, n: nat)
    requires Inv(s) && n < NR_SEM && InUse(s, n)
    ensures var s', q := SemSignal(s, n).0, s.queues[SemQ(n)];
      && s'.sems[n].owner == s.sems[n].owner
      && (q == [] ==> s'.sems[n].value == s.sems[n].value + 1 && s'.queues[SemQ(n)] == [])
      && (q != [] ==> s'.sems[n].value == s.sems[n].value && s'.queues[SemQ(n)] == q[1..])
      && (q != [] ==> s'.queues[RUNQ] == s.queues[RUNQ] + [q[0]])
      && (q != [] ==> First(s, SemQ(n)) == q[0] && s'.task[q[0]] == Woken(s.task[q[0]], 0))
      && (q != [] ==> forall t :: 0 <= t < NR_TASKS && t in q[1..] ==> s'.task[t] == s.task[t])
  {
    var q := s.queues[SemQ(n)];
    if q != [] {
      assert NoDup(q);
      WithoutAt(q, 0);
      assert q[..0] + q[1..] == q[1..];
      assert q[0] !in q[1..];
    }
  }

  // ---------- runs ----------

  /** The semaphore stays in use at every point of the run. */
  ghost predicate InUseThroughout(s: KState, es: seq<Event>, n: nat)
    requires Inv(s) && PossibleRun(es) && n < NR_SEM
    decreases |es|
  {
    InUse(Run(s, es), n) && (es != [] ==> InUseThroughout(s, es[..|es|-1], n))
  }

  function Signals(es: seq<Event>, n: nat): (r: nat)
    decreases |es|
  {
    if es == [] then 0 else Signals(es[..|es|-1], n) + if es[|es|-1] == SignalCall(n) then 1 else 0
  }

  /** Calls of wait on n that were let through, at once or by a later signal. */
  function Granted(s: KState, es: seq<Event>, n: nat): (r: nat)
    requires Inv(s) && PossibleRun(es) && n < NR_SEM
    decreases |es|
  {
    if es == [] then 0
    else Granted(s, es[..|es|-1], n) + Grants(Run(s, es[..|es|-1]), es[|es|-1], n)
  }

  function Grants(s: KState, e: Event, n: nat): (r: nat)
    requires Shaped(s) && n < NR_SEM
  {
    if e == WaitCall(n) && s.task[s.current].pid != 0 && s.sems[n].value > 0 then 1
    else if e == SignalCall(n) && s.queues[SemQ(n)] != [] then 1
    else 0
  }

  /** Calls of wait on n by processes that may wait. */
  function Waits(s: KState, es: seq<Event>, n: nat): (r: nat)
    requires Inv(s) && PossibleRun(es) && n < NR_SEM
    decreases |es|
  {
    if es == [] then 0
    else
      var s1 := Run(s, es[..|es|-1]);
      Waits(s, es[..|es|-1], n) + if es[|es|-1] == WaitCall(n) && s1.task[s1.current].pid != 0 then 1 else 0
  }

  /** One event's effect on the unit count and the queue length, while the semaphore stays in use. */
  lemma StepUnits(s: KState, e: Event, n: nat)
    requires Inv(s) && Possible(e) && n < NR_SEM && InUse(s, n) && InUse(Step(s, e).0, n)
    ensures var s' := Step(s, e).0;
      && s'.sems[n].owner == s.sems[n].owner
      && s'.sems[n].value == s.sems[n].value + (if e == SignalCall(n) then 1 else 0) - Grants(s, e, n)
      && |s'.queues[SemQ(n)]| == |s.queues[SemQ(n)]| - Grants(s, e, n)
           + (if e == WaitCall(n) && s.task[s.current].pid != 0 then 1 else 0)
      && (s.sems[n].value >= 0 ==> s'.sems[n].value >= 0)
  {
    SemOwner(s, n);
    hide Core, CurrentOk, Fork, Tick, ReadKeyboard, KeyPress, SemSignal, SemWait, Removed, Dispatch, Destroyed, Step;
    InvShape(s);
    if e == WaitCall(n) {
      WaitStep(s, n);
      StepIsWait(s, n);
    } else if e == SignalCall(n) {
      SignalStep(s, n);
      StepIsSignal(s, n);
    } else {
      OtherStep(s, e, n);
    }
  }

  lemma StepIsWait(s: KState, n: nat)
    requires Inv(s) && n < NR_SEM
    ensures WaitBlocks(s, n) ==> Block(s, SemQ(n)).queues[RUNQ] != []
    ensures Step(s, WaitCall(n)) == SemWait(s, n)
  {
    WaitReady(s, n);
  }

  lemma StepIsSignal(s: KState, n: nat)
    requires Inv(s) && n < NR_SEM
    ensures Step(s, SignalCall(n)) == SemSignal(s, n)
  {
  }

  lemma InUsePrefix(s: KState, es: seq<Event>, n: nat)
    requires Inv(s) && PossibleRun(es) && es != [] && n < NR_SEM && InUseThroughout(s, es, n)
    ensures PossibleRun(es[..|es|-1]) && InUseThroughout(s, es[..|es|-1], n)
    ensures InUse(Run(s, es[..|es|-1]), n) && InUse(Run(s, es), n)
  {
    hide Inv, Run;
  }

  /** Conservation: the value is the starting value plus signals minus grants, and every wait made is
      granted or still queued. */
  lemma {:induction false} UnitsConserved(s: KState, es: seq<Event>, n: nat)
    requires Inv(s) && PossibleRun(es) && n < NR_SEM && InUseThroughout(s, es, n)
    ensures var s' := Run(s, es);
      && s'.sems[n].owner == s.sems[n].owner
      && s'.sems[n].value == s.sems[n].value + Signals(es, n) - Granted(s, es, n)
      && |s'.queues[SemQ(n)]| == |s.queues[SemQ(n)]| + Waits(s, es, n) - Granted(s, es, n)
      && (s.sems[n].value >= 0 ==> s'.sems[n].value >= 0)
    decreases |es|
  {
    hide Core, CurrentOk, Step, Grants;
    if es != [] {
      var k := |es| - 1;
      InUsePrefix(s, es, n);
      UnitsConserved(s, es[..k], n);
      RunLast(s, es);
      StepUnits(Run(s, es[..k]), es[k], n);
    }
  }

  /** No wake-up is lost: in every reachable state tasks wait only while no unit is left, so with a
      starting value that is not negative a non-empty queue means a value of exactly 0. */
  lemma NoLostWakeup(s: KState, es: seq<Event>, n: nat)
    requires Inv(s) && PossibleRun(es) && n < NR_SEM && InUseThroughout(s, es, n)
    ensures Run(s, es).queues[SemQ(n)] != [] && s.sems[n].value >= 0 ==> Run(s, es).sems[n].value == 0
  {
    UnitsConserved(s, es, n);
    SemOwner(Run(s, es), n);
  }

  /** A semaphore just initialised with v starts at v, below 2^31. */
  lemma InitStarts(s: KState, n: int, v: int)
    requires Inv(s) && 0 <= v < 0x1_0000_0000 && SemInit(s, n, v).1 == Returned(0)
    ensures var s' := SemInit(s, n, v).0;
      && 0 <= n < NR_SEM && !InUse(s, n) && InUse(s', n) && s'.sems[n].owner == s.task[s.current].pid
      && s'.queues[SemQ(n)] == []
      && (s'.sems[n].value == v <==> v < 0x8000_0000) && (s'.sems[n].value >= 0 <==> v < 0x8000_0000)
  {
    RunnableFacts(s, s.current);
  }

  // ---------- order ----------

  /** The waiter at position p moves up with each signal, its structure untouched until its turn. */
  lemma {:induction false} WaiterKeepsPlace(s: KState, es: seq<Event>, n: nat, p: nat)
    requires Inv(s) && PossibleRun(es) && n < NR_SEM && InUseThroughout(s, es, n)
    requires p < |s.queues[SemQ(n)]| && Signals(es, n) <= p
    ensures var s', t := Run(s, es), s.queues[SemQ(n)][p];
      && p - Signals(es, n) < |s'.queues[SemQ(n)]| && s'.queues[SemQ(n)][p - Signals(es, n)] == t
      && 0 <= t < NR_TASKS && s'.task[t] == s.task[t]
    decreases |es|
  {
    hide Core, CurrentOk, Step;
    InvShape(s);
    var t := s.queues[SemQ(n)][p];
    assert t in s.queues[SemQ(n)];
    if es != [] {
      var k := |es| - 1;
      InUsePrefix(s, es, n);
      WaiterKeepsPlace(s, es[..k], n, p);
      RunLast(s, es);
      WaiterStep(Run(s, es[..k]), es[k], n, p - Signals(es[..k], n));
    }
  }

  /** One event, seen by the waiter at position p. */
  lemma WaiterStep(s: KState, e: Event, n: nat, p: nat)
    requires Inv(s) && Possible(e) && n < NR_SEM && InUse(s, n) && p < |s.queues[SemQ(n)]|
    ensures var s', t := Step(s, e).0, s.queues[SemQ(n)][p];
      && 0 <= t < NR_TASKS
      && (e == SignalCall(n) && p == 0 ==> s'.queues[RUNQ] == s.queues[RUNQ] + [t] && s'.task[t] == Woken(s.task[t], 0))
      && (e == SignalCall(n) && p > 0 ==>
            p - 1 < |s'.queues[SemQ(n)]| && s'.queues[SemQ(n)][p - 1] == t && s'.task[t] == s.task[t])
      && (e != SignalCall(n) && InUse(s', n) ==>
            p < |s'.queues[SemQ(n)]| && s'.queues[SemQ(n)][p] == t && s'.task[t] == s.task[t])
      && (!InUse(s', n) ==> t in s'.queues[RUNQ] && t != s'.current && s'.task[t] == Woken(s.task[t], -1))
  {
    hide Core, CurrentOk, Fork, Tick, ReadKeyboard, KeyPress, SemSignal, SemWait, Removed, Dispatch, Destroyed, Step;
    InvShape(s);
    var q := s.queues[SemQ(n)];
    assert q[p] in q;
    if e == WaitCall(n) {
      WaitStep(s, n);
      StepIsWait(s, n);
    } else if e == SignalCall(n) {
      SignalStep(s, n);
      StepIsSignal(s, n);
      if p > 0 { assert q[1..][p - 1] == q[p]; }
    } else {
      OtherStep(s, e, n);
    }
  }

  /** First come, first served: the waiter at position p is woken by exactly the (p+1)st signal, with its
      result set to 0 in that step and untouched before. */
  lemma WokenInOrder(s: KState, es: seq<Event>, n: nat, p: nat)
    requires Inv(s) && PossibleRun(es) && n < NR_SEM && InUseThroughout(s, es, n)
    requires p < |s.queues[SemQ(n)]| && Signals(es, n) == p
    ensures var s1, s2, t := Run(s, es), SemSignal(Run(s, es), n).0, s.queues[SemQ(n)][p];
      && 0 <= t < NR_TASKS && s1.task[t] == s.task[t] && s1.task[t].state == Blocked
      && s2.task[t] == Woken(s.task[t], 0) && s2.queues[RUNQ] == s1.queues[RUNQ] + [t]
  {
    WaiterKeepsPlace(s, es, n, p);
    SignalStep(Run(s, es), n);
    assert s.queues[SemQ(n)][p] in Run(s, es).queues[SemQ(n)];
  }
}
