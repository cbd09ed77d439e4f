/** fork and exit keep the invariant, and fork never runs out of memory. */
module KernelProcesses {
  import opened Sequences
  import opened KernelTypes
  import opened MemorySpec
  import opened KernelSpec
  import opened KernelInv
  import opened KernelSteps

  // ---------- exit ----------

  lemma {:induction false} DestroyOwnedMem(s: KState, m: Mem, pid: int, n: nat)
    requires Shaped(s) && MemShaped(m) && n <= NR_SEM
    ensures DestroyOwned(s.(mem := m), pid, n) == DestroyOwned(s, pid, n).(mem := m)
  {
    if n > 0 {
      DestroyOwnedMem(s, m, pid, n - 1);
    }
  }

  /** What giving up semaphores leaves unchanged. */
  ghost predicate OnlyWaiters(s: KState, s': KState)
    requires Shaped(s) && Shaped(s')
  {
    && s'.current == s.current && s'.mem == s.mem && s'.roundtics == s.roundtics && s'.pidCounter == s.pidCounter
    && s'.ring == s.ring && s'.sysbuff == s.sysbuff
    && s'.queues[FREEQ] == s.queues[FREEQ] && s'.queues[KBDQ] == s.queues[KBDQ] && s.queues[RUNQ] <= s'.queues[RUNQ]
    && (forall t :: 0 <= t < NR_TASKS ==> s'.task[t] == s.task[t] || s'.task[t] == Woken(s.task[t], -1))
    && (forall k, t :: 0 <= k <= KBDQ && t in s.queues[k] ==> s'.task[t] == s.task[t])
  }

  lemma {:induction false} DestroyOwnedKeeps(s: KState, pid: int, n: nat)
    requires Core(s) && n <= NR_SEM && pid != FREE_SEM
    ensures var s' := DestroyOwned(s, pid, n);
      && Core(s') && OnlyWaiters(s, s')
      && (forall i :: 0 <= i < n ==> s'.sems[i].owner != pid)
      && (forall i :: 0 <= i < NR_SEM && (s.sems[i].owner != pid || i >= n) ==>
            s'.sems[i] == s.sems[i] && s'.queues[SemQ(i)] == s.queues[SemQ(i)])
  {
    hide Core, OnlyWaiters, Destroyed, Partition;
    CoreShaped(s);
    if n == 0 {
      OnlyWaitersSelf(s);
    } else {
      DestroyOwnedKeeps(s, pid, n - 1);
      var s1 := DestroyOwned(s, pid, n - 1);
      CoreShaped(s1);
      if s1.sems[n - 1].owner == pid {
        DestroyedKeeps(s1, n - 1);
        DestroyedOnlyWaiters(s1, n - 1);
        OnlyWaitersTwice(s, s1, Destroyed(s1, n - 1));
      }
    }
  }

  lemma OnlyWaitersSelf(s: KState)
    requires Shaped(s)
    ensures OnlyWaiters(s, s)
  {
  }

  lemma CoreShaped(s: KState)
    requires Core(s)
    ensures Shaped(s) && Partition(s.queues, NR_TASKS)
  {
  }

  lemma DestroyedOnlyWaiters(s: KState, n: nat)
    requires Core(s) && n < NR_SEM
    ensures OnlyWaiters(s, Destroyed(s, n))
    ensures forall i :: 0 <= i < NR_SEM && i != n ==>
      Destroyed(s, n).sems[i] == s.sems[i] && Destroyed(s, n).queues[SemQ(i)] == s.queues[SemQ(i)]
    ensures Destroyed(s, n).sems[n].owner == FREE_SEM
  {
    hide StatesOk, SemsOk, PidsOk, QuantaOk, FramesOwned, PagesOk;
  }

  lemma OnlyWaitersTwice(s: KState, s1: KState, s2: KState)
    requires Shaped(s) && Shaped(s1) && Shaped(s2)
    requires OnlyWaiters(s, s1) && OnlyWaiters(s1, s2)
    ensures OnlyWaiters(s, s2)
  {
    forall k, t | 0 <= k <= KBDQ && t in s.queues[k] ensures s2.task[t] == s.task[t] {
      assert t in s1.queues[k];
    }
  }

  /** The slot of the running task put on freequeue, its pid erased, its frames freed. */
  function SlotFreed(s: KState): (s': KState)
    requires Shaped(s) && FramesInRange(s, s.current)
    ensures Shaped(s')
  {
    s.(queues := ToFront(s.queues, s.current, RUNQ, FREEQ),
       task := s.task[s.current := s.task[s.current].(pid := NULL_PID)],
       mem := s.mem.(pages := TempClosed(s.mem.pages),
                     phys := Freed(s.mem.phys, s.task[s.current].frames, NUM_PAG_DATA)))
  }

  lemma RemovedIsSlotFreed(s: KState)
    requires Core(s) && s.current in s.queues[RUNQ]
    ensures FramesInRange(s, s.current)
    ensures s.task[s.current].pid != FREE_SEM
    ensures var s2 := DestroyOwned(s, s.task[s.current].pid, NR_SEM);
      && Core(s2) && OnlyWaiters(s, s2) && FramesInRange(s2, s2.current)
      && s2.task[s.current] == s.task[s.current] && s.current in s2.queues[RUNQ]
      && Removed(s) == SlotFreed(s2)
      && forall i :: 0 <= i < NR_SEM ==> s2.sems[i].owner != s.task[s.current].pid
  {
    RunningFrames(s);
    hide QueuesOk, StatesOk, SemsOk, QuantaOk, PagesOk, Freed, TempClosed, FramesOwned, PidsOk;
    var m := s.mem.(pages := TempClosed(s.mem.pages),
      phys := Freed(s.mem.phys, s.task[s.current].frames, NUM_PAG_DATA));
    DestroyOwnedMem(s, m, s.task[s.current].pid, NR_SEM);
    DestroyOwnedKeeps(s, s.task[s.current].pid, NR_SEM);
  }

  lemma RunningFrames(s: KState)
    requires Core(s) && s.current in s.queues[RUNQ]
    ensures FramesInRange(s, s.current) && s.task[s.current].pid >= 0 && Live(s, s.current)
  {
  }

  lemma SlotFreedKeeps(s: KState)
    requires Core(s) && s.current in s.queues[RUNQ] && s.task[s.current].pid != 0
    requires forall i :: 0 <= i < NR_SEM ==> s.sems[i].owner != s.task[s.current].pid
    ensures FramesInRange(s, s.current)
    ensures Core(SlotFreed(s)) && SlotFreed(s).queues[RUNQ] != []
  {
    RunningFrames(s);
    SlotFreedQueues(s);
    SlotFreedSems(s);
    SlotFreedFrames(s);
    hide QueuesOk, StatesOk, PidsOk, QuantaOk, SemsOk, FramesOwned;
    SlotFreedRest(s);
  }

  lemma SlotFreedQueues(s: KState)
    requires Core(s) && s.current in s.queues[RUNQ] && s.task[s.current].pid != 0 && FramesInRange(s, s.current)
    ensures QueuesOk(SlotFreed(s)) && StatesOk(SlotFreed(s)) && SlotFreed(s).queues[RUNQ] != []
    ensures forall u :: Live(SlotFreed(s), u) <==> Live(s, u) && u != s.current
  {
    var s', t := SlotFreed(s), s.current;
    ToFrontPartition(s.queues, NR_TASKS, t, RUNQ, FREEQ);
    WithoutGone(s.queues[RUNQ], t);
    assert 0 in s'.queues[RUNQ];
    RunnableFacts(s, t);
  }

  lemma SlotFreedRest(s: KState)
    requires Core(s) && s.current in s.queues[RUNQ] && s.task[s.current].pid != 0 && FramesInRange(s, s.current)
    ensures PidsOk(SlotFreed(s)) && QuantaOk(SlotFreed(s)) && WishesOk(SlotFreed(s)) && PagesOk(SlotFreed(s).mem.pages)
  {
    SlotFreedQueues(s);
    hide FramesOwned, SemsOk;
    var s' := SlotFreed(s);
    assert TempClosed(s.mem.pages) == s.mem.pages;
    assert s.current !in s.queues[KBDQ];
  }

  lemma SlotFreedSems(s: KState)
    requires Core(s) && s.current in s.queues[RUNQ] && s.task[s.current].pid != 0 && FramesInRange(s, s.current)
    requires forall i :: 0 <= i < NR_SEM ==> s.sems[i].owner != s.task[s.current].pid
    ensures SemsOk(SlotFreed(s))
  {
    SlotFreedQueues(s);
    hide FramesOwned, QuantaOk, PagesOk, WishesOk, StatesOk;
    var s' := SlotFreed(s);
    forall n | 0 <= n < NR_SEM ensures SemOk(s', n) {
      assert SemOk(s, n);
      if s.sems[n].owner != FREE_SEM {
        var t :| Live(s, t) && s.task[t].pid == s.sems[n].owner;
        assert Live(s', t) && s'.task[t].pid == s'.sems[n].owner;
      }
    }
  }

  lemma SlotFreedFrames(s: KState)
    requires Core(s) && s.current in s.queues[RUNQ] && s.task[s.current].pid != 0 && FramesInRange(s, s.current)
    ensures FramesOwned(SlotFreed(s))
  {
    hide Core, FrameGood, Owned, SlotFreed;
    FreedOwned(s);
    FreedDistinct(s);
    FreedCounted(s);
  }

  lemma FreedDistinct(s: KState)
    requires Core(s) && s.current in s.queues[RUNQ] && s.task[s.current].pid != 0 && FramesInRange(s, s.current)
    ensures var s' := SlotFreed(s);
      forall t, u, i, j | Live(s', t) && Live(s', u) && 0 <= i < NUM_PAG_DATA && 0 <= j < NUM_PAG_DATA ::
        s'.task[t].frames[i] == s'.task[u].frames[j] ==> t == u && i == j
  {
    SlotFreedQueues(s);
    hide PidsOk, QuantaOk, PagesOk, WishesOk, StatesOk, SemsOk, QueuesOk;
    var s' := SlotFreed(s);
    assert forall t :: 0 <= t < NR_TASKS ==> s'.task[t].frames == s.task[t].frames;
  }

  lemma FreedCounted(s: KState)
    requires Core(s) && s.current in s.queues[RUNQ] && s.task[s.current].pid != 0 && FramesInRange(s, s.current)
    ensures CountFree(SlotFreed(s).mem.phys, NUM_PAG_KERNEL)
         == FREE_AT_BOOT - NUM_PAG_DATA * (NR_TASKS - |SlotFreed(s).queues[FREEQ]|)
  {
    hide Core, FramesOwned, Partition;
    CoreShaped(s);
    RunningFrames(s);
    LiveFrames(s, s.current);
    FreedCount(s.mem.phys, s.task[s.current].frames, NUM_PAG_DATA, NUM_PAG_KERNEL);
    SlotCount(s);
  }

  lemma LiveFrames(s: KState, t: int)
    requires Core(s) && Live(s, t)
    ensures forall i :: 0 <= i < NUM_PAG_DATA ==> FrameGood(s.mem.phys, s.task[t].frames[i])
    ensures FramesOk(s.task[t].frames)
    ensures CountFree(s.mem.phys, NUM_PAG_KERNEL) == FREE_AT_BOOT - NUM_PAG_DATA * (NR_TASKS - |s.queues[FREEQ]|)
  {
    hide PidsOk, QuantaOk, PagesOk, WishesOk, StatesOk, SemsOk, QueuesOk;
  }

  lemma SlotCount(s: KState)
    requires Shaped(s) && FramesInRange(s, s.current)
    ensures |SlotFreed(s).queues[FREEQ]| == |s.queues[FREEQ]| + 1
    ensures NUM_PAG_DATA * (NR_TASKS - |s.queues[FREEQ]|) ==
            NUM_PAG_DATA * (NR_TASKS - (|s.queues[FREEQ]| + 1)) + NUM_PAG_DATA
  {
  }

  lemma FreedOwned(s: KState)
    requires Core(s) && s.current in s.queues[RUNQ] && s.task[s.current].pid != 0 && FramesInRange(s, s.current)
    ensures var s' := SlotFreed(s);
      && (forall f :: 0 <= f < TOTAL_PAGES && s'.mem.phys[f] ==> f < NUM_PAG_KERNEL + NUM_PAG_CODE || Owned(s', f))
      && (forall f :: 0 <= f < NUM_PAG_KERNEL + NUM_PAG_CODE ==> s'.mem.phys[f])
      && (forall u, i :: Live(s', u) && 0 <= i < NUM_PAG_DATA ==> FrameGood(s'.mem.phys, s'.task[u].frames[i]))
  {
    SlotFreedQueues(s);
    RunningFrames(s);
    hide PidsOk, QuantaOk, PagesOk, WishesOk, StatesOk, SemsOk, QueuesOk;
    var s', t := SlotFreed(s), s.current;
    var frames := s.task[t].frames;
    assert frames[..NUM_PAG_DATA] == frames;
    forall f | 0 <= f < TOTAL_PAGES && s'.mem.phys[f] && f >= NUM_PAG_KERNEL + NUM_PAG_CODE ensures Owned(s', f) {
      assert Owned(s, f);
      var u, i :| Live(s, u) && 0 <= i < NUM_PAG_DATA && s.task[u].frames[i] == f;
      assert f !in frames;
      assert Live(s', u) && s'.task[u].frames[i] == f;
    }
  }

  /** exit, when it is a process other than the first that leaves. */
  lemma ExitKeeps(s: KState)
    requires Inv(s) && s.task[s.current].pid != 0
    ensures FramesInRange(s, s.current) && Core(Removed(s)) && Removed(s).queues[RUNQ] != []
    ensures Inv(Dispatch(Removed(s)))
  {
    hide Core, Inv, CurrentOk, Removed, SlotFreed, Dispatch;
    InvParts(s);
    RemovedIsSlotFreed(s);
    SlotFreedKeeps(DestroyOwned(s, s.task[s.current].pid, NR_SEM));
    DispatchKeeps(Removed(s));
  }

  lemma InvParts(s: KState)
    requires Inv(s)
    ensures Core(s) && Shaped(s) && s.current in s.queues[RUNQ]
  {
  }

  // ---------- fork ----------

  /** With a free slot there are always enough candidate frames left for another task. */
  lemma RoomForOneMore(s: KState)
    requires Core(s) && s.queues[FREEQ] != []
    ensures CountFree(s.mem.phys, NUM_PAG_KERNEL) >= NUM_PAG_DATA
  {
    hide PidsOk, QuantaOk, PagesOk, WishesOk, StatesOk, SemsOk, QueuesOk, Owned;
    var n := |s.queues[FREEQ]|;
    RoomCounted(n);
  }

  lemma RoomCounted(n: nat)
    requires n > 0
    ensures FREE_AT_BOOT - NUM_PAG_DATA * (NR_TASKS - n) >= NUM_PAG_DATA
  {
    assert NUM_PAG_DATA * (NR_TASKS - n) == NUM_PAG_DATA * NR_TASKS - NUM_PAG_DATA * n;
    assert NUM_PAG_DATA * n >= NUM_PAG_DATA;
  }

  /** fork's copying loop, from an invariant state with a free slot. */
  lemma ForkCopies(s: KState)
    requires Inv(s) && s.queues[FREEQ] != []
    ensures var s1, c := ForkStart(s), First(s, FREEQ);
      var copy := CopyPages(s1.mem, s1.task[c].frames, NUM_PAG_DATA);
      && copy.ok && CopiedInto(s.mem, copy.mem, copy.frames)
      && CountFree(copy.mem.phys, NUM_PAG_KERNEL) == CountFree(s.mem.phys, NUM_PAG_KERNEL) - NUM_PAG_DATA
    ensures forall i :: 0 <= i < NUM_PAG_DATA ==> Source(s.mem, i) == s.task[s.current].frames[i]
  {
    hide CopyPages, CopiedInto, FreshFrames, CountFree;
    var s1, c := ForkStart(s), First(s, FREEQ);
    RoomForOneMore(s);
    RunnableFacts(s, s.current);
    LiveFrames(s, s.current);
    SourceIsCurrent(s);
    CopyPagesEffect(s1.mem, s1.task[c].frames, NUM_PAG_DATA);
    var copy := CopyPages(s1.mem, s1.task[c].frames, NUM_PAG_DATA);
    assert copy.frames[..NUM_PAG_DATA] == copy.frames;
  }

  lemma SourceIsCurrent(s: KState)
    requires Inv(s) && FramesOk(s.task[s.current].frames)
    ensures forall i :: 0 <= i < NUM_PAG_DATA ==> Source(s.mem, i) == s.task[s.current].frames[i]
    ensures forall i :: 0 <= i < NUM_PAG_DATA ==> s.mem.phys[Source(s.mem, i)]
    ensures TempAbsent(s.mem.pages)
  {
    RunnableFacts(s, s.current);
    assert forall i :: 0 <= i < NUM_PAG_DATA ==> s.mem.pages[DATA_PAGE + i] == Maps(s.task[s.current].frames[i]);
    assert forall i :: 0 <= i < NUM_PAG_DATA ==> FrameGood(s.mem.phys, s.task[s.current].frames[i]);
  }

  /** fork fails exactly when no slot is free, and never for want of memory. */
  lemma ForkOutcome(s: KState)
    requires Inv(s)
    ensures Fork(s).1 != Returned(-ENOMEM)
    ensures Fork(s).1 == Returned(-EAGAIN) <==> s.queues[FREEQ] == []
    ensures s.queues[FREEQ] != [] ==> Fork(s).1 == Returned(s.pidCounter + 1)
  {
    InvPids(s);
    if s.queues[FREEQ] != [] {
      hide Core, CurrentOk, CopyPages, CopiedInto, CountFree;
      ForkCopies(s);
    }
  }

  lemma ForkNone(s: KState)
    requires Shaped(s) && s.queues[FREEQ] == []
    ensures Fork(s) == (s, Returned(-EAGAIN))
  {
  }

  lemma InvPids(s: KState)
    requires Inv(s)
    ensures Shaped(s) && s.pidCounter >= 0
  {
  }

  /** fork keeps the invariant: the child is one more live task, with frames of its own. */
  lemma ForkKeeps(s: KState)
    requires Inv(s) && s.queues[FREEQ] != []
    ensures Inv(Fork(s).0)
  {
    hide FramesOwned, QuantaOk, PidsOk, StatesOk, SemsOk, CopyPages, CopiedInto, CountFree, Fork;
    ForkShape(s);
    ForkQueues(s);
    ForkTasks(s);
    ForkSems(s);
    ForkFrames(s);
  }

  /** The state after a successful fork, spelled out. */
  lemma ForkShape(s: KState)
    requires Inv(s) && s.queues[FREEQ] != []
    ensures var s', c := Fork(s).0, First(s, FREEQ);
      && Live(s, s.current) && c != s.current
      && s'.queues == ToFront(s.queues, c, FREEQ, RUNQ)
      && s'.task == s.task[c := ForkChild(s, c, s'.task[c].frames)]
      && s'.sems == s.sems && s'.current == s.current && s'.roundtics == s.roundtics && s'.ring == s.ring
      && s'.sysbuff == s.sysbuff && s'.pidCounter == s.pidCounter + 1
      && s'.mem.pages == s.mem.pages && CopiedInto(s.mem, s'.mem, s'.task[c].frames)
      && CountFree(s'.mem.phys, NUM_PAG_KERNEL) == CountFree(s.mem.phys, NUM_PAG_KERNEL) - NUM_PAG_DATA
  {
    hide FramesOwned, QuantaOk, PidsOk, StatesOk, SemsOk, CopyPages, CountFree, FreshFrames;
    ForkCopies(s);
    var c := First(s, FREEQ);
    assert Without(s.queues[FREEQ], c) == s.queues[FREEQ][1..];
    assert ForkStart(s).queues[RUNQ := [c] + s.queues[RUNQ]] == ToFront(s.queues, c, FREEQ, RUNQ);
  }

  lemma ForkQueues(s: KState)
    requires Inv(s) && s.queues[FREEQ] != []
    ensures QueuesOk(Fork(s).0) && StatesOk(Fork(s).0) && WishesOk(Fork(s).0) && CurrentOk(Fork(s).0)
    ensures forall u :: Live(Fork(s).0, u) <==> Live(s, u) || u == First(s, FREEQ)
  {
    hide FramesOwned, QuantaOk, PidsOk, SemsOk, CopyPages, CopiedInto, CountFree, Fork;
    ForkShape(s);
    var s', c := Fork(s).0, First(s, FREEQ);
    ToFrontPartition(s.queues, NR_TASKS, c, FREEQ, RUNQ);
    WithoutGone(s.queues[FREEQ], c);
    forall k, u | 0 <= k < NR_QUEUES && u in s'.queues[k]
      ensures s'.task[u].state == Blocked <==> k >= KBDQ
    {
      if u != c { assert u in s.queues[k]; }
    }
  }

  lemma ForkTasks(s: KState)
    requires Inv(s) && s.queues[FREEQ] != []
    ensures PidsOk(Fork(s).0) && QuantaOk(Fork(s).0)
  {
    hide FramesOwned, SemsOk, CopyPages, CopiedInto, CountFree, Fork;
    ForkShape(s);
    ForkQueues(s);
    assert Live(s, 0);
  }

  lemma ForkSems(s: KState)
    requires Inv(s) && s.queues[FREEQ] != []
    ensures SemsOk(Fork(s).0)
  {
    hide FramesOwned, QuantaOk, CopyPages, CopiedInto, CountFree, Fork;
    ForkShape(s);
    ForkQueues(s);
    var s', c := Fork(s).0, First(s, FREEQ);
    forall pid | PidLive(s, pid) ensures PidLive(s', pid) {
      var t :| Live(s, t) && s.task[t].pid == pid;
      assert Live(s', t) && s'.task[t].pid == pid;
    }
    SemsSame(s, s');
  }

  lemma ForkFrames(s: KState)
    requires Inv(s) && s.queues[FREEQ] != []
    ensures FramesOwned(Fork(s).0)
  {
    hide Core, Inv, CopyPages, CopiedInto, FreshFrames, CountFree, Fork, FrameGood, Owned, Partition;
    InvShape(s);
    ForkShape(s);
    ForkGood(s);
    ForkDistinct(s);
    ForkUsed(s);
    ForkCount(s);
  }

  lemma InvShape(s: KState)
    requires Inv(s)
    ensures Core(s) && Shaped(s) && Partition(s.queues, NR_TASKS)
  {
  }

  /** What fork did to the frames, without the rest of the invariant. */
  lemma ForkFrameFacts(s: KState)
    requires Inv(s) && s.queues[FREEQ] != []
    ensures var s', c := Fork(s).0, First(s, FREEQ);
      && CopiedInto(s.mem, s'.mem, s'.task[c].frames) && !Live(s, c)
      && (forall u :: Live(s', u) <==> Live(s, u) || u == c)
      && (forall u :: 0 <= u < NR_TASKS && u != c ==> s'.task[u].frames == s.task[u].frames)
      && FramesOwned(s)
  {
    hide QuantaOk, PidsOk, StatesOk, SemsOk, CopyPages, CopiedInto, CountFree, Fork;
    ForkShape(s);
    ForkQueues(s);
  }

  lemma ForkGood(s: KState)
    requires Inv(s) && s.queues[FREEQ] != []
    ensures forall t, i :: Live(Fork(s).0, t) && 0 <= i < NUM_PAG_DATA ==>
      FrameGood(Fork(s).0.mem.phys, Fork(s).0.task[t].frames[i])
  {
    hide Core, Inv, Fork, Owned, CopyPages;
    InvShape(s);
    ForkFrameFacts(s);
    var s', c := Fork(s).0, First(s, FREEQ);
    forall t, i | Live(s', t) && 0 <= i < NUM_PAG_DATA ensures FrameGood(s'.mem.phys, s'.task[t].frames[i]) {
      if t == c {
        assert s'.task[c].frames[i] in s'.task[c].frames;
      } else {
        assert FrameGood(s.mem.phys, s.task[t].frames[i]);
      }
    }
  }

  lemma ForkDistinct(s: KState)
    requires Inv(s) && s.queues[FREEQ] != []
    ensures forall t, u, i, j | Live(Fork(s).0, t) && Live(Fork(s).0, u) && 0 <= i < NUM_PAG_DATA &&
            0 <= j < NUM_PAG_DATA ::
      Fork(s).0.task[t].frames[i] == Fork(s).0.task[u].frames[j] ==> t == u && i == j
  {
    hide Core, Inv, Fork, Owned, CopyPages;
    InvShape(s);
    ForkFrameFacts(s);
    var s', c := Fork(s).0, First(s, FREEQ);
    forall t, i | Live(s, t) && 0 <= i < NUM_PAG_DATA ensures s.mem.phys[s.task[t].frames[i]] {
      assert FrameGood(s.mem.phys, s.task[t].frames[i]);
    }
  }

  lemma ForkUsed(s: KState)
    requires Inv(s) && s.queues[FREEQ] != []
    ensures var s' := Fork(s).0;
      && (forall f :: 0 <= f < TOTAL_PAGES && s'.mem.phys[f] ==> f < NUM_PAG_KERNEL + NUM_PAG_CODE || Owned(s', f))
      && (forall f :: 0 <= f < NUM_PAG_KERNEL + NUM_PAG_CODE ==> s'.mem.phys[f])
  {
    hide Core, Inv, Fork, CopyPages, FrameGood;
    InvShape(s);
    ForkFrameFacts(s);
    var s', c := Fork(s).0, First(s, FREEQ);
    forall f | 0 <= f < TOTAL_PAGES && s'.mem.phys[f] && f >= NUM_PAG_KERNEL + NUM_PAG_CODE ensures Owned(s', f) {
      if s.mem.phys[f] {
        assert Owned(s, f);
        var t, i :| Live(s, t) && 0 <= i < NUM_PAG_DATA && s.task[t].frames[i] == f;
        assert Live(s', t) && s'.task[t].frames[i] == f;
      } else {
        var i :| 0 <= i < NUM_PAG_DATA && s'.task[c].frames[i] == f;
        assert Live(s', c);
      }
    }
  }

  lemma ForkCount(s: KState)
    requires Inv(s) && s.queues[FREEQ] != []
    ensures CountFree(Fork(s).0.mem.phys, NUM_PAG_KERNEL)
         == FREE_AT_BOOT - NUM_PAG_DATA * (NR_TASKS - |Fork(s).0.queues[FREEQ]|)
  {
    hide QuantaOk, PidsOk, StatesOk, SemsOk, CopyPages, CopiedInto, CountFree, Fork, Owned, FrameGood;
    ForkShape(s);
    var n := |s.queues[FREEQ]|;
    assert NUM_PAG_DATA * (NR_TASKS - (n - 1)) == NUM_PAG_DATA * (NR_TASKS - n) + NUM_PAG_DATA;
  }
}
