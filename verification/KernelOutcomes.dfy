/** What each entry answers and what it changes, in terms of the state's fields: the results of the calls,
    who may do what, and the marks and counters of the tasks. */
module KernelOutcomes {
  import opened Sequences
  import opened KernelTypes
  import opened MemorySpec
  import opened KernelSpec
  import opened KernelInv
  import opened KernelProcesses
  import opened KernelMachine
  import opened KernelScheduling
  import opened KernelSemaphores
  import opened KernelStarvation

  // ---------- passing the processor on ----------

  /** Task u has been given the processor: it is marked running, has a full quantum and one more switch. */
  predicate Switched(was: Task, now: Task) {
    now == was.(state := Running, cs := was.cs + 1, remainingQuantum := was.quantum)
  }

  /** Between s and s' the processor went from the running task, left as `old`, to the first of q. */
  predicate HandedOver(s: KState, s': KState, q: seq<int>, left: Task)
    requires Shaped(s) && Shaped(s')
  {
    && s'.queues[RUNQ] == q && q != [] && s'.current == q[0]
    && Switched(if q[0] == s.current then left else s.task[q[0]], s'.task[q[0]])
    && s'.roundtics == s'.task[q[0]].quantum
    && (s.current != q[0] ==> s'.task[s.current] == left)
  }

  /** All but the listed parts is as it was. */
  predicate BuffersKept(s: KState, s': KState) {
    s'.ring == s.ring && s'.sysbuff == s.sysbuff && s'.mem.ram == s.mem.ram
  }

  predicate ProcessesKept(s: KState, s': KState) {
    s'.pidCounter == s.pidCounter && s'.mem.phys == s.mem.phys
  }

  lemma DispatchEffect(s: KState)
    requires Shaped(s) && s.queues[RUNQ] != []
    ensures var s', u := Dispatch(s), s.queues[RUNQ][0];
      && 0 <= u < NR_TASKS && s'.current == u && Switched(s.task[u], s'.task[u]) && s'.roundtics == s.task[u].quantum
      && (forall t :: 0 <= t < NR_TASKS && t != u ==> s'.task[t] == s.task[t])
      && s'.queues == s.queues && s'.sems == s.sems && BuffersKept(s, s') && ProcessesKept(s, s')
  {
    assert First(s, RUNQ) == s.queues[RUNQ][0];
    hide Window;
  }

  // ---------- the clock ----------

  /** Short of the end of the round a tick is counted and nothing else happens. */
  lemma TickCounts(s: KState)
    requires Inv(s) && s.roundtics > 1
    ensures var c := s.current;
      Step(s, ClockTick) == (s.(roundtics := s.roundtics - 1,
                                task := s.task[c := s.task[c].(tics := s.task[c].tics + 1,
                                                               remainingQuantum := s.task[c].remainingQuantum - 1)]),
                             NoResult)
  {
    hide Core;
  }

  /** At its end the running task is counted the tick, marked ready and put last, and the first takes
      over. */
  lemma TickHandsOver(s: KState)
    requires Inv(s) && s.roundtics == 1
    ensures var (s', r), c := Step(s, ClockTick), s.current;
      var left := s.task[c].(tics := s.task[c].tics + 1, remainingQuantum := 0, state := Ready);
      && r == NoResult && HandedOver(s, s', Others(s) + [c], left)
      && (forall t :: 0 <= t < NR_TASKS && t != c && t != s'.current ==> s'.task[t] == s.task[t])
      && (forall k :: FREEQ <= k < NR_QUEUES ==> s'.queues[k] == s.queues[k])
      && s'.sems == s.sems && BuffersKept(s, s') && ProcessesKept(s, s')
  {
    hide Core, Dispatch;
    InvShape(s);
    var s1 := Pause(Ticked(s));
    assert s1.queues[RUNQ] == Others(s) + [s.current];
    DispatchEffect(s1);
  }

  // ---------- nice ----------

  /** nice answers with the quantum before and changes nothing but the quantum; a second call answers with
      the first one's argument. */
  lemma NiceAnswers(s: KState, q: int, again: int)
    requires Inv(s) && Possible(NiceCall(q)) && Possible(NiceCall(again))
    ensures q <= 0 ==> Step(s, NiceCall(q)) == (s, Returned(-EINVAL))
    ensures q > 0 ==> var (s1, r1), c := Step(s, NiceCall(q)), s.current;
      && r1 == Returned(s.task[c].quantum) && s1 == s.(task := s.task[c := s.task[c].(quantum := q)])
      && Inv(s1) && (again > 0 ==> Step(s1, NiceCall(again)).1 == Returned(q))
  {
    StepKeeps(s, NiceCall(q));
    hide Inv, Core;
    InvShape(s);
  }

  // ---------- semaphores ----------

  /** Initialisation succeeds for every value exactly on a free semaphore, for the caller; a failed call
      changes nothing. */
  lemma InitAnswers(s: KState, n: int, v: int)
    requires Inv(s) && Possible(InitCall(n, v))
    ensures var (s', r) := Step(s, InitCall(n, v));
      && (r == Returned(0) <==> 0 <= n < NR_SEM && !InUse(s, n))
      && (r != Returned(0) ==> s' == s && r == Returned(if 0 <= n < NR_SEM then -EBUSY else -EINVAL))
      && (r == Returned(0) ==>
           && s' == s.(sems := s.sems[n := Sem(s.task[s.current].pid,
                                               if v < 0x8000_0000 then v else v - 0x1_0000_0000)])
           && InUse(s', n))
  {
    if 0 <= n < NR_SEM && !InUse(s, n) {
      FreeSemEmpty(s, n);
      CallerPid(s);
    }
    hide Core;
  }

  lemma FreeSemEmpty(s: KState, n: nat)
    requires Inv(s) && n < NR_SEM && !InUse(s, n)
    ensures s.queues[SemQ(n)] == [] && s.queues[SemQ(n) := []] == s.queues
  {
    assert SemOk(s, n);
  }

  lemma CallerPid(s: KState)
    requires Inv(s)
    ensures s.task[s.current].pid >= 0
  {
    InvParts(s);
    RunningFrames(s);
  }

  /** A wait fails, changing nothing, on a semaphore that is not in use and for task 0; it takes a unit and
      answers 0 if there is one; else the caller goes last among the waiters and the processor to the next. */
  lemma WaitAnswers(s: KState, n: int)
    requires Inv(s)
    ensures var (s', r), c := Step(s, WaitCall(n)), s.current;
      && (!(0 <= n < NR_SEM) || !InUse(s, n) ==> (s', r) == (s, Returned(-EINVAL)))
      && (0 <= n < NR_SEM && InUse(s, n) ==>
           && (s.task[c].pid == 0 ==> (s', r) == (s, Returned(-EPERM)))
           && (s.task[c].pid != 0 && s.sems[n].value > 0 ==>
                r == Returned(0) && s' == s.(sems := s.sems[n := s.sems[n].(value := s.sems[n].value - 1)]))
           && (s.task[c].pid != 0 && s.sems[n].value <= 0 ==> r == NoResult && WentToWait(s, s', SemQ(n), s.task[c])))
  {
    WaitReady(s, n);
    if WaitBlocks(s, n) {
      BlockEffect(s, s, SemQ(n));
    }
    hide Inv, Core, Block, Dispatch;
  }

  /** The running task, its structure as in `c`, waits last in queue q, and the next one runs. */
  predicate WentToWait(s: KState, s': KState, q: nat, c: Task)
    requires Shaped(s) && Shaped(s') && KBDQ <= q < NR_QUEUES
  {
    && HandedOver(s, s', Others(s), c.(state := Blocked))
    && s'.queues[q] == s.queues[q] + [s.current]
    && (forall k :: FREEQ <= k < NR_QUEUES && k != q ==> s'.queues[k] == s.queues[k])
    && (forall t :: 0 <= t < NR_TASKS && t != s.current && t != s'.current ==> s'.task[t] == s.task[t])
    && s'.sems == s.sems && BuffersKept(s, s') && ProcessesKept(s, s')
  }

  lemma BlockEffect(s: KState, s0: KState, q: nat)
    requires Inv(s) && Shaped(s0) && KBDQ <= q < NR_QUEUES && Block(s0, q).queues[RUNQ] != []
    requires s0 == s.(task := s.task[s.current := s0.task[s.current]])
    ensures WentToWait(s, Dispatch(Block(s0, q)), q, s0.task[s.current])
  {
    SlotsAndPids(s);
    hide Inv, Core, Dispatch;
    InvShape(s);
    var s1 := Block(s0, q);
    assert s1.queues[RUNQ] == Others(s);
    assert s1.queues[RUNQ][0] in Others(s);
    DispatchEffect(s1);
  }

  /** A waiter made ready, at the end of runqueue, with this result. */
  predicate MadeReady(was: Task, now: Task, result: int) {
    now == was.(state := Ready, remain := 0, offset := 0, eax := result)
  }

  /** A signal fails, changing nothing, on a semaphore that is not in use; else it answers 0, and adds a unit
      or wakes the first waiter with 0. */
  lemma SignalAnswers(s: KState, n: int)
    requires Inv(s)
    ensures var (s', r) := Step(s, SignalCall(n));
      && (!(0 <= n < NR_SEM) || !InUse(s, n) ==> (s', r) == (s, Returned(-EINVAL)))
      && (0 <= n < NR_SEM && InUse(s, n) ==>
           var q := s.queues[SemQ(n)];
           && r == Returned(0)
           && (q == [] ==> s' == s.(sems := s.sems[n := s.sems[n].(value := s.sems[n].value + 1)]))
           && (q != [] ==>
                && 0 <= q[0] < NR_TASKS && MadeReady(s.task[q[0]], s'.task[q[0]], 0)
                && s' == s.(task := s.task[q[0] := s'.task[q[0]]],
                            queues := s.queues[SemQ(n) := q[1..]][RUNQ := s.queues[RUNQ] + [q[0]]])))
  {
    hide Core;
    InvShape(s);
    if 0 <= n < NR_SEM && s.queues[SemQ(n)] != [] {
      FirstOut(s.queues[SemQ(n)]);
    }
  }

  lemma FirstOut(q: seq<int>)
    requires q != []
    ensures Without(q, q[0]) == q[1..]
  {
  }

  /** Only the owner can destroy a semaphore.  Its waiters go to the end of runqueue in the order they came,
      with -1. */
  lemma DestroyAnswers(s: KState, n: int)
    requires Inv(s)
    ensures var (s', r) := Step(s, DestroyCall(n));
      && (!(0 <= n < NR_SEM) || !InUse(s, n) ==> (s', r) == (s, Returned(-EINVAL)))
      && (0 <= n < NR_SEM && InUse(s, n) && s.task[s.current].pid != s.sems[n].owner ==>
           (s', r) == (s, Returned(-EPERM)))
      && (0 <= n < NR_SEM && InUse(s, n) && s.task[s.current].pid == s.sems[n].owner ==>
           && r == Returned(0) && s'.sems == s.sems[n := s.sems[n].(owner := FREE_SEM)]
           && s'.queues == s.queues[RUNQ := s.queues[RUNQ] + s.queues[SemQ(n)]][SemQ(n) := []]
           && (forall t :: 0 <= t < NR_TASKS ==>
                if t in s.queues[SemQ(n)] then MadeReady(s.task[t], s'.task[t], -1) else s'.task[t] == s.task[t])
           && s' == s.(sems := s'.sems, queues := s'.queues, task := s'.task))
  {
    hide Core;
    InvShape(s);
  }

  // ---------- fork and exit ----------

  /** Without a free slot fork changes nothing.  Else the caller gets the child's pid, a new one, and the child
      the result 0; it starts as its parent with a full quantum, clean counters and frames of its own, in front
      of runqueue.  The parent and everybody else are as they were. */
  lemma ForkAnswers(s: KState)
    requires Inv(s)
    ensures var (s', r), p := Step(s, ForkCall), s.current;
      && (s.queues[FREEQ] == [] ==> (s', r) == (s, Returned(-EAGAIN)))
      && (s.queues[FREEQ] != [] ==>
           var c := s.queues[FREEQ][0];
           && 0 <= c < NR_TASKS && c != p
           && r == Returned(s'.task[c].pid) && s'.task[c].pid == s.pidCounter + 1 == s'.pidCounter
           && s'.task[c].eax == 0
           && s'.task[c] == s.task[p].(pid := s.pidCounter + 1, tics := 0, cs := 0, eax := 0,
                                       remainingQuantum := s.task[p].quantum, frames := s'.task[c].frames)
           && (forall t :: 0 <= t < NR_TASKS && t != c ==> s'.task[t] == s.task[t])
           && s'.queues == s.queues[FREEQ := s.queues[FREEQ][1..]][RUNQ := [c] + s.queues[RUNQ]]
           && s'.current == p && s'.roundtics == s.roundtics && s'.sems == s.sems
           && s'.ring == s.ring && s'.sysbuff == s.sysbuff)
  {
    hide Core, CurrentOk, CopyPages, CopiedInto, CountFree;
    InvShape(s);
    ForkOutcome(s);
    if s.queues[FREEQ] == [] {
      ForkNone(s);
    } else {
      ForkParts(s);
    }
  }

  lemma ForkParts(s: KState)
    requires Inv(s) && s.queues[FREEQ] != []
    ensures var s', c, p := Fork(s).0, s.queues[FREEQ][0], s.current;
      && 0 <= c < NR_TASKS && c != p
      && s'.task[c] == s.task[p].(pid := s.pidCounter + 1, tics := 0, cs := 0, eax := 0,
                                  remainingQuantum := s.task[p].quantum, frames := s'.task[c].frames)
      && (forall t :: 0 <= t < NR_TASKS && t != c ==> s'.task[t] == s.task[t])
      && s'.queues == s.queues[FREEQ := s.queues[FREEQ][1..]][RUNQ := [c] + s.queues[RUNQ]]
      && s'.current == p && s'.roundtics == s.roundtics && s'.sems == s.sems
      && s'.ring == s.ring && s'.sysbuff == s.sysbuff && s'.pidCounter == s.pidCounter + 1
  {
    hide Core, CurrentOk, Fork, CopiedInto, CountFree;
    InvShape(s);
    ForkShape(s);
    FirstOut(s.queues[FREEQ]);
  }

  /** The waiters of the first n semaphores that are pid's, in order. */
  function OwnedWaiters(s: KState, pid: int, n: nat): (q: seq<int>)
    requires Shaped(s) && n <= NR_SEM
  {
    if n == 0 then []
    else OwnedWaiters(s, pid, n - 1) + if s.sems[n - 1].owner == pid then s.queues[SemQ(n - 1)] else []
  }

  lemma {:induction false} OwnedWaitersIn(s: KState, pid: int, n: nat)
    requires Shaped(s) && n <= NR_SEM
    ensures forall t :: t in OwnedWaiters(s, pid, n) ==> exists m: nat :: m < n && t in s.queues[SemQ(m)]
  {
    if n > 0 {
      OwnedWaitersIn(s, pid, n - 1);
    }
  }

  /** The waiters w of pid's first n semaphores are ready behind everybody, and those semaphores given up. */
  ghost predicate OwnedGone(s: KState, s': KState, pid: int, n: nat, w: seq<int>)
    requires Shaped(s) && Shaped(s') && n <= NR_SEM
  {
    && s'.queues[RUNQ] == s.queues[RUNQ] + w
    && (forall t :: 0 <= t < NR_TASKS ==>
         if t in w then MadeReady(s.task[t], s'.task[t], -1) else s'.task[t] == s.task[t])
    && forall m :: 0 <= m < n && s.sems[m].owner == pid ==> s'.sems[m].owner == FREE_SEM && s'.queues[SemQ(m)] == []
  }

  lemma OwnedLast(s: KState, pid: int, n: nat)
    requires Shaped(s) && n <= NR_SEM
    ensures n == 0 ==> OwnedGone(s, DestroyOwned(s, pid, 0), pid, 0, OwnedWaiters(s, pid, 0))
    ensures n > 0 ==>
      var s1, w := DestroyOwned(s, pid, n - 1), OwnedWaiters(s, pid, n - 1);
      && DestroyOwned(s, pid, n) == (if s1.sems[n - 1].owner == pid then Destroyed(s1, n - 1) else s1)
      && OwnedWaiters(s, pid, n) == if s.sems[n - 1].owner == pid then w + s.queues[SemQ(n - 1)] else w
  {
  }

  lemma NoMoreGone(s: KState, s1: KState, pid: int, n: nat, w: seq<int>)
    requires Shaped(s) && Shaped(s1) && n < NR_SEM && OwnedGone(s, s1, pid, n, w) && s.sems[n].owner != pid
    ensures OwnedGone(s, s1, pid, n + 1, w)
  {
  }

  /** The loop over the semaphores, after n of them. */
  lemma {:induction false} OwnedEffect(s: KState, pid: int, n: nat)
    requires Core(s) && n <= NR_SEM && pid != FREE_SEM
    ensures OwnedGone(s, DestroyOwned(s, pid, n), pid, n, OwnedWaiters(s, pid, n))
  {
    hide Core, DestroyOwned, OwnedWaiters, OwnedGone, OnlyWaiters;
    CoreShaped(s);
    OwnedLast(s, pid, n);
    if n > 0 {
      var s1, w := DestroyOwned(s, pid, n - 1), OwnedWaiters(s, pid, n - 1);
      OwnedEffect(s, pid, n - 1);
      DestroyOwnedKeeps(s, pid, n - 1);
      CoreShaped(s1);
      if s.sems[n - 1].owner == pid {
        OwnedWaitersIn(s, pid, n - 1);
        QueueApart(s, n - 1, w);
        OneMoreGone(s, s1, pid, n - 1, w);
      } else {
        NoMoreGone(s, s1, pid, n - 1, w);
      }
    }
  }

  lemma OneMoreGone(s: KState, s1: KState, pid: int, n: nat, w: seq<int>)
    requires Shaped(s) && Shaped(s1) && n < NR_SEM && OwnedGone(s, s1, pid, n, w)
    requires s1.queues[SemQ(n)] == s.queues[SemQ(n)] && forall t :: t in s.queues[SemQ(n)] ==> t !in w
    ensures OwnedGone(s, Destroyed(s1, n), pid, n + 1, w + s.queues[SemQ(n)])
  {
    hide Destroyed, MemShaped;
    DestroyedEffect(s1, n);
    assert (s.queues[RUNQ] + w) + s.queues[SemQ(n)] == s.queues[RUNQ] + (w + s.queues[SemQ(n)]);
  }

  lemma QueueApart(s: KState, n: nat, w: seq<int>)
    requires Core(s) && n < NR_SEM && forall t :: t in w ==> exists m: nat :: m < n && t in s.queues[SemQ(m)]
    ensures forall t :: t in s.queues[SemQ(n)] ==> t !in w
  {
  }

  lemma DestroyedEffect(s: KState, n: nat)
    requires Shaped(s) && n < NR_SEM
    ensures var s' := Destroyed(s, n);
      && s'.sems == s.sems[n := s.sems[n].(owner := FREE_SEM)]
      && s'.queues == s.queues[RUNQ := s.queues[RUNQ] + s.queues[SemQ(n)]][SemQ(n) := []]
      && (forall t :: 0 <= t < NR_TASKS ==>
           if t in s.queues[SemQ(n)] then MadeReady(s.task[t], s'.task[t], -1) else s'.task[t] == s.task[t])
      && s' == s.(sems := s'.sems, queues := s'.queues, task := s'.task)
  {
  }

  /** The state of an exit before the next task is dispatched. */
  lemma LeavingEffect(s: KState)
    requires Inv(s) && s.task[s.current].pid != 0
    ensures FramesInRange(s, s.current)
    ensures var s3, c, w := Removed(s), s.current, OwnedWaiters(s, s.task[s.current].pid, NR_SEM);
      && s3.queues[RUNQ] == Others(s) + w && s3.queues[FREEQ] == [c] + s.queues[FREEQ]
      && s3.queues[KBDQ] == s.queues[KBDQ]
      && s3.task[c] == s.task[c].(pid := NULL_PID) && c !in w
      && (forall t :: 0 <= t < NR_TASKS && t != c ==>
           if t in w then MadeReady(s.task[t], s3.task[t], -1) else s3.task[t] == s.task[t])
      && (forall n :: 0 <= n < NR_SEM ==>
           if s.sems[n].owner == s.task[c].pid then s3.sems[n].owner == FREE_SEM && s3.queues[SemQ(n)] == []
           else s3.sems[n] == s.sems[n] && s3.queues[SemQ(n)] == s.queues[SemQ(n)])
      && (forall f :: 0 <= f < TOTAL_PAGES ==> (s3.mem.phys[f] <==> s.mem.phys[f] && f !in s.task[c].frames))
      && s3.pidCounter == s.pidCounter && BuffersKept(s, s3) && s3.current == c
  {
    hide Core, CurrentOk, Removed, DestroyOwned, OwnedWaiters, Freed;
    InvParts(s);
    RemovedIsSlotFreed(s);
    var c, pid := s.current, s.task[s.current].pid;
    OwnedEffect(s, pid, NR_SEM);
    DestroyOwnedKeeps(s, pid, NR_SEM);
    OwnedWaitersIn(s, pid, NR_SEM);
    var w := OwnedWaiters(s, pid, NR_SEM);
    NotWaiting(s, w);
    WithoutConcat(s.queues[RUNQ], w, c);
    var frames := s.task[c].frames;
    assert frames[..NUM_PAG_DATA] == frames;
  }

  /** Who is in runqueue waits for no semaphore. */
  lemma NotWaiting(s: KState, w: seq<int>)
    requires Core(s) && forall t :: t in w ==> exists m: nat :: m < NR_SEM && t in s.queues[SemQ(m)]
    ensures forall t :: t in s.queues[RUNQ] ==> t !in w
  {
  }

  /** The next task was ready before. */
  lemma NextIsReady(s: KState)
    requires Inv(s) && s.task[s.current].pid != 0
    ensures Others(s) != [] && Others(s)[0] in s.queues[RUNQ] && Others(s)[0] != s.current
    ensures Others(s)[0] !in OwnedWaiters(s, s.task[s.current].pid, NR_SEM)
  {
    hide OwnedWaiters;
    InvParts(s);
    SlotsAndPids(s);
    OwnedWaitersIn(s, s.task[s.current].pid, NR_SEM);
    NotWaiting(s, OwnedWaiters(s, s.task[s.current].pid, NR_SEM));
    assert Others(s)[0] in Others(s);
  }

  /** Task 0 does not exit.  Any other task leaves its slot in front of freequeue, its pid erased, its frames
      free and its semaphores given up, their waiters ready in order with -1; the next task runs. */
  lemma ExitAnswers(s: KState)
    requires Inv(s)
    ensures var (s', r), c := Step(s, ExitCall), s.current;
      && (s.task[c].pid == 0 ==> (s', r) == (s, Returned(0)))
      && (s.task[c].pid != 0 ==>
           var w := OwnedWaiters(s, s.task[c].pid, NR_SEM);
           && r == NoResult && HandedOver(s, s', Others(s) + w, s.task[c].(pid := NULL_PID))
           && s'.queues[FREEQ] == [c] + s.queues[FREEQ] && s'.queues[KBDQ] == s.queues[KBDQ]
           && (forall t :: 0 <= t < NR_TASKS && t != c && t != s'.current ==>
                if t in w then MadeReady(s.task[t], s'.task[t], -1) else s'.task[t] == s.task[t])
           && (forall n :: 0 <= n < NR_SEM ==>
                if s.sems[n].owner == s.task[c].pid then s'.sems[n].owner == FREE_SEM && s'.queues[SemQ(n)] == []
                else s'.sems[n] == s.sems[n] && s'.queues[SemQ(n)] == s.queues[SemQ(n)])
           && (forall f :: 0 <= f < TOTAL_PAGES ==> (s'.mem.phys[f] <==> s.mem.phys[f] && f !in s.task[c].frames))
           && s'.pidCounter == s.pidCounter && BuffersKept(s, s'))
  {
    hide Core, CurrentOk, Removed, DestroyOwned, OwnedWaiters, Dispatch;
    InvParts(s);
    ExitReady(s);
    if s.task[s.current].pid != 0 {
      LeavingEffect(s);
      DispatchEffect(Removed(s));
      NextIsReady(s);
    }
  }

  // ---------- who can give up a semaphore ----------

  /** A semaphore in use stops being so exactly when its owner destroys it or leaves. */
  lemma OwnerOnly(s: KState, e: Event, n: nat)
    requires Inv(s) && Possible(e) && n < NR_SEM && InUse(s, n)
    ensures !InUse(Step(s, e).0, n) <==>
            s.task[s.current].pid == s.sems[n].owner &&
            (e == DestroyCall(n) || (e.ExitCall? && s.task[s.current].pid != 0))
  {
    hide Core, CurrentOk, Tick, Fork, Exit, SemWait, SemSignal, SemDestroy, ReadKeyboard, KeyPress, UserStore;
    InvShape(s);
    match e
    case ClockTick => TickKept(s, n);
    case ForkCall => ForkKept(s, n);
    case ExitCall => ExitOwner(s, n);
    case NiceCall(q) => NiceKept(s, q, n);
    case InitCall(m, v) => InitKept(s, m, v, n);
    case WaitCall(m) => if m == n { WaitStep(s, n); } else { WaitOther(s, m, n); }
    case SignalCall(m) => if m == n { SignalStep(s, n); } else { SignalOtherKept(s, m, n); }
    case DestroyCall(m) => DestroyOwner(s, m, n);
    case ReadCall(buff, size) => ReadKept(s, buff, size, n);
    case KeyStroke(c) => KeyReady(s); KeyKept(s, c, n);
    case Store(a, b) => StoreKept(s, a, b, n);
  }

  lemma WaitOther(s: KState, m: int, n: nat)
    requires Inv(s) && n < NR_SEM && m != n
    ensures WaitBlocks(s, m) ==> Block(s, SemQ(m)).queues[RUNQ] != []
    ensures SemKept(s, SemWait(s, m).0, n)
  {
    WaitOtherKept(s, m, n);
  }

  lemma DestroyOwner(s: KState, m: int, n: nat)
    requires Inv(s) && n < NR_SEM && InUse(s, n)
    ensures !InUse(SemDestroy(s, m).0, n) <==> m == n && s.task[s.current].pid == s.sems[n].owner
  {
    hide Core;
    InvShape(s);
  }

  lemma ExitOwner(s: KState, n: nat)
    requires Inv(s) && n < NR_SEM && InUse(s, n)
    ensures FramesInRange(s, s.current) && (s.task[s.current].pid != 0 ==> Removed(s).queues[RUNQ] != [])
    ensures !InUse(Exit(s).0, n) <==> s.task[s.current].pid == s.sems[n].owner && s.task[s.current].pid != 0
  {
    hide Core, CurrentOk, Removed, DestroyOwned, Dispatch, OwnedWaiters;
    InvParts(s);
    ExitReady(s);
    if s.task[s.current].pid != 0 {
      LeavingEffect(s);
      DispatchEffect(Removed(s));
    }
  }
}
