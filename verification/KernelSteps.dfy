/** The building blocks keep the invariant's core: moving tasks between queues, dispatching, waking. */
module KernelSteps {
  import opened Sequences
  import opened KernelTypes
  import opened MemorySpec
  import opened KernelSpec
  import opened KernelInv

  /** A task of runqueue is live and not blocked. */
  lemma RunnableFacts(s: KState, t: int)
    requires Core(s) && t in s.queues[RUNQ]
    ensures Live(s, t) && s.task[t].state != Blocked && s.task[t].quantum > 0
  {
  }

  lemma WindowPages(pages: seq<Entry>, frames: seq<int>)
    requires |pages| == TOTAL_PAGES && |frames| == NUM_PAG_DATA
    ensures WindowShows(Window(pages, frames), frames)
    ensures PagesOk(pages) ==> PagesOk(Window(pages, frames))
  {
  }

  /** Whoever is dispatched, the invariant holds afterwards. */
  lemma DispatchKeeps(s: KState)
    requires Core(s) && s.queues[RUNQ] != []
    ensures Inv(Dispatch(s))
  {
    var s', t := Dispatch(s), First(s, RUNQ);
    RunnableFacts(s, t);
    WindowPages(s.mem.pages, s.task[t].frames);
    DispatchStates(s);
    DispatchSems(s);
    hide StatesOk, SemsOk, PidsOk, QuantaOk, FramesOwned, PagesOk, WindowShows;
    QuietCore(s, s');
  }

  lemma DispatchStates(s: KState)
    requires Core(s) && s.queues[RUNQ] != []
    ensures StatesOk(Dispatch(s)) && WishesOk(Dispatch(s))
  {
    RunnableFacts(s, First(s, RUNQ));
  }

  lemma DispatchSems(s: KState)
    requires Core(s) && s.queues[RUNQ] != []
    ensures SemsOk(Dispatch(s))
  {
    var s' := Dispatch(s);
    QuietKeeps(s, s');
    SemsSame(s, s');
  }

  /** Semaphores are fine where neither they nor their queues nor the live pids have changed. */
  lemma SemsSame(s: KState, s': KState)
    requires Shaped(s) && Shaped(s') && SemsOk(s) && s'.sems == s.sems
    requires forall n :: 0 <= n < NR_SEM ==> s'.queues[SemQ(n)] == s.queues[SemQ(n)]
    requires forall pid :: PidLive(s, pid) ==> PidLive(s', pid)
    ensures SemsOk(s')
  {
    forall n | 0 <= n < NR_SEM ensures SemOk(s', n) {
      assert SemOk(s, n);
    }
  }

  lemma TickedStill(s: KState)
    requires Shaped(s)
    ensures Ticked(s).queues == s.queues && Ticked(s).current == s.current && Ticked(s).roundtics == s.roundtics - 1
  {
  }

  lemma TickedKeeps(s: KState)
    requires Core(s)
    ensures Core(Ticked(s))
  {
    QuietKeeps(s, Ticked(s));
    SemsSame(s, Ticked(s));
    QuietCore(s, Ticked(s));
  }

  /** Moving a task to the tail of another queue keeps each slot in one home. */
  lemma MoveQueues(s: KState, s': KState, t: int, from: nat, to: nat)
    requires Shaped(s) && Shaped(s') && QueuesOk(s) && from < NR_QUEUES && to < NR_QUEUES && t in s.queues[from]
    requires s'.queues == ToTail(s.queues, t, from, to) && (t != 0 || to == RUNQ)
    ensures QueuesOk(s') && s'.queues[RUNQ] != []
  {
    ToTailPartition(s.queues, NR_TASKS, t, from, to);
    assert 0 in s'.queues[RUNQ];
  }

  /** If the moved task is marked as its new queue demands, the marks stay right. */
  lemma MoveStates(s: KState, s': KState, t: int, from: nat, to: nat)
    requires Shaped(s) && Shaped(s') && QueuesOk(s) && StatesOk(s)
    requires from < NR_QUEUES && to < NR_QUEUES && t in s.queues[from]
    requires s'.queues == ToTail(s.queues, t, from, to)
    requires s'.task[t].state == Blocked <==> to >= KBDQ
    requires forall u :: 0 <= u < NR_TASKS && u != t ==> s'.task[u].state == s.task[u].state
    ensures StatesOk(s')
  {
    forall k, u | 0 <= k < NR_QUEUES && u in s'.queues[k]
      ensures s'.task[u].state == Blocked <==> k >= KBDQ
    {
      WithoutGone(s.queues[from], t);
      if u != t { assert u in s.queues[k]; }
    }
  }

  lemma PauseKeeps(s: KState)
    requires Core(s) && s.current in s.queues[RUNQ]
    ensures Core(Pause(s))
  {
    var s' := Pause(s);
    MoveQueues(s, s', s.current, RUNQ, RUNQ);
    MoveStates(s, s', s.current, RUNQ, RUNQ);
    QuietKeeps(s, s');
    SemsSame(s, s');
    hide StatesOk, SemsOk, PidsOk, QuantaOk, FramesOwned, PagesOk, QueuesOk;
    QuietCore(s, s');
  }

  /** Blocking is safe for any task but task 0, on the keyboard with a proper wish, or on an owned
      semaphore without units. */
  lemma BlockKeeps(s: KState, q: nat)
    requires Core(s) && s.current in s.queues[RUNQ] && s.current != 0 && KBDQ <= q < NR_QUEUES
    requires q == KBDQ ==> WishOk(s, s.current)
    requires q > KBDQ ==> s.sems[q - 3].owner != FREE_SEM && s.sems[q - 3].value <= 0
    ensures Core(Block(s, q)) && Block(s, q).queues[RUNQ] != []
  {
    var s' := Block(s, q);
    MoveQueues(s, s', s.current, RUNQ, q);
    MoveStates(s, s', s.current, RUNQ, q);
    QuietKeeps(s, s');
    BlockSems(s, q);
    hide StatesOk, SemsOk, PidsOk, QuantaOk, FramesOwned, PagesOk, QueuesOk;
    QuietCore(s, s');
  }

  lemma BlockSems(s: KState, q: nat)
    requires Core(s) && s.current in s.queues[RUNQ] && KBDQ <= q < NR_QUEUES
    requires q > KBDQ ==> s.sems[q - 3].owner != FREE_SEM && s.sems[q - 3].value <= 0
    ensures SemsOk(Block(s, q))
  {
    var s' := Block(s, q);
    QuietKeeps(s, s');
    forall n | 0 <= n < NR_SEM ensures SemOk(s', n) {
      assert SemOk(s, n);
    }
  }

  lemma WakeKeeps(s: KState, t: int, q: nat, eax: int)
    requires Core(s) && KBDQ <= q < NR_QUEUES && t in s.queues[q]
    ensures Core(Wake(s, t, q, eax))
  {
    var s' := Wake(s, t, q, eax);
    MoveQueues(s, s', t, q, RUNQ);
    MoveStates(s, s', t, q, RUNQ);
    WakeSems(s, t, q, eax);
    WakeWishes(s, t, q, eax);
    hide StatesOk, SemsOk, PidsOk, QuantaOk, FramesOwned, PagesOk, QueuesOk;
    QuietCore(s, s');
  }

  lemma WakeSems(s: KState, t: int, q: nat, eax: int)
    requires Core(s) && KBDQ <= q < NR_QUEUES && t in s.queues[q]
    ensures SemsOk(Wake(s, t, q, eax))
  {
    var s' := Wake(s, t, q, eax);
    QuietKeeps(s, s');
    forall n | 0 <= n < NR_SEM ensures SemOk(s', n) {
      assert SemOk(s, n);
    }
  }

  lemma WakeWishes(s: KState, t: int, q: nat, eax: int)
    requires Core(s) && KBDQ <= q < NR_QUEUES && t in s.queues[q]
    ensures WishesOk(Wake(s, t, q, eax))
  {
    WithoutGone(s.queues[q], t);
  }

  lemma DestroyedKeeps(s: KState, n: nat)
    requires Core(s) && n < NR_SEM
    ensures Core(Destroyed(s, n))
  {
    var s' := Destroyed(s, n);
    DrainPartition(s.queues, NR_TASKS, SemQ(n), RUNQ);
    DestroyedStates(s, n);
    DestroyedSems(s, n);
    hide StatesOk, SemsOk, PidsOk, QuantaOk, FramesOwned, PagesOk, Partition;
    QuietCore(s, s');
  }

  lemma DestroyedStates(s: KState, n: nat)
    requires Core(s) && n < NR_SEM
    ensures StatesOk(Destroyed(s, n)) && WishesOk(Destroyed(s, n))
  {
    var s' := Destroyed(s, n);
    forall k, t | 0 <= k < NR_QUEUES && t in s'.queues[k]
      ensures s'.task[t].state == Blocked <==> k >= KBDQ
    {
      if t !in s.queues[SemQ(n)] { assert t in s.queues[k]; }
    }
  }

  lemma DestroyedSems(s: KState, n: nat)
    requires Core(s) && n < NR_SEM
    ensures SemsOk(Destroyed(s, n))
  {
    var s' := Destroyed(s, n);
    QuietKeeps(s, s');
    forall m | 0 <= m < NR_SEM ensures SemOk(s', m) {
      assert SemOk(s, m);
    }
  }

  /** A change of user bytes, or of which frames the data window shows, or of the buffers. */
  lemma BytesKeep(s: KState, s': KState)
    requires Core(s) && Shaped(s')
    requires s'.task == s.task && s'.queues == s.queues && s'.sems == s.sems && s'.pidCounter == s.pidCounter
    requires s'.mem.phys == s.mem.phys && PagesOk(s'.mem.pages)
    ensures Core(s')
  {
    QuietKeeps(s, s');
    SemsSame(s, s');
    hide PagesOk;
    QuietCore(s, s');
  }
}
