/** The invariant of the kernel state machine and its preservation by the building blocks of every
    entry point. */
module KernelInv {
  import opened Sequences
  import opened KernelTypes
  import opened MemorySpec
  import opened KernelSpec

  // ---------- the invariant ----------

  /** A task slot in use. */
  ghost predicate Live(s: KState, t: int)
    requires Shaped(s)
  {
    0 <= t < NR_TASKS && t !in s.queues[FREEQ]
  }

  /** Every slot has one home, at one position; task 0 is always ready to run. */
  ghost predicate QueuesOk(s: KState)
    requires Shaped(s)
  {
    Partition(s.queues, NR_TASKS) && 0 in s.queues[RUNQ]
  }

  /** Exactly the tasks in wait queues are marked blocked. */
  ghost predicate StatesOk(s: KState)
    requires Shaped(s)
  {
    forall k, t :: 0 <= k < NR_QUEUES && t in s.queues[k] ==> (s.task[t].state == Blocked <==> k >= KBDQ)
  }

  /** Live pids are distinct numbers handed out so far; 0 belongs to slot 0. */
  ghost predicate PidsOk(s: KState)
    requires Shaped(s)
  {
    && s.pidCounter >= 0 && s.task[0].pid == 0
    && (forall t :: Live(s, t) ==> 0 <= s.task[t].pid <= s.pidCounter)
    && forall t, u :: Live(s, t) && Live(s, u) && s.task[t].pid == s.task[u].pid ==> t == u
  }

  ghost predicate QuantaOk(s: KState)
    requires Shaped(s)
  {
    forall t :: Live(s, t) ==> s.task[t].quantum > 0
  }

  ghost predicate PidLive(s: KState, pid: int)
    requires Shaped(s)
  {
    exists t :: Live(s, t) && s.task[t].pid == pid
  }

  /** A semaphore nobody owns has no waiters, an owned one has a live owner, and tasks wait only while
      its value is not positive. */
  ghost predicate SemOk(s: KState, n: nat)
    requires Shaped(s) && n < NR_SEM
  {
    && (s.sems[n].owner == FREE_SEM ==> s.queues[SemQ(n)] == [])
    && (s.sems[n].owner != FREE_SEM ==> PidLive(s, s.sems[n].owner))
    && (s.queues[SemQ(n)] != [] ==> s.sems[n].value <= 0)
  }

  ghost predicate SemsOk(s: KState)
    requires Shaped(s)
  {
    forall n :: 0 <= n < NR_SEM ==> SemOk(s, n)
  }

  ghost predicate Owned(s: KState, f: int)
    requires Shaped(s)
  {
    exists t, i :: Live(s, t) && 0 <= i < NUM_PAG_DATA && s.task[t].frames[i] == f
  }

  /** Candidate frames left after boot's code pages. */
  const FREE_AT_BOOT: int := Allocatable(SIZES)

  /** Used frames are the kernel's, the code's, and those of live tasks, each owned once; the number of
      candidates left is exact. */
  ghost predicate FramesOwned(s: KState)
    requires Shaped(s)
  {
    && (forall t, i :: Live(s, t) && 0 <= i < NUM_PAG_DATA ==> FrameGood(s.mem.phys, s.task[t].frames[i]))
    && (forall t, u, i, j | Live(s, t) && Live(s, u) && 0 <= i < NUM_PAG_DATA && 0 <= j < NUM_PAG_DATA ::
          s.task[t].frames[i] == s.task[u].frames[j] ==> t == u && i == j)
    && (forall f :: 0 <= f < TOTAL_PAGES && s.mem.phys[f] ==> f < NUM_PAG_KERNEL + NUM_PAG_CODE || Owned(s, f))
    && (forall f :: 0 <= f < NUM_PAG_KERNEL + NUM_PAG_CODE ==> s.mem.phys[f])
    && CountFree(s.mem.phys, NUM_PAG_KERNEL) == FREE_AT_BOOT - NUM_PAG_DATA * (NR_TASKS - |s.queues[FREEQ]|)
  }

  ghost predicate FrameGood(phys: seq<bool>, f: int)
    requires |phys| == TOTAL_PAGES
  {
    NUM_PAG_KERNEL + NUM_PAG_CODE <= f < TOTAL_PAGES && (f - NUM_PAG_KERNEL) % 2 == 0 && phys[f]
  }

  /** Waiting readers wait for writable user data. */
  ghost predicate WishesOk(s: KState)
    requires Shaped(s)
  {
    forall t :: t in s.queues[KBDQ] ==> WishOk(s, t)
  }

  /** User code is mapped where it was put at boot, and fork's copying window is closed. */
  ghost predicate PagesOk(pages: seq<Entry>)
    requires |pages| == TOTAL_PAGES
  {
    && TempAbsent(pages)
    && forall p :: CODE_PAGE <= p < DATA_PAGE ==> pages[p] == Maps(NUM_PAG_KERNEL + p - CODE_PAGE)
  }

  ghost predicate Core(s: KState) {
    && Shaped(s) && QueuesOk(s) && StatesOk(s) && PidsOk(s) && QuantaOk(s) && SemsOk(s)
    && FramesOwned(s) && WishesOk(s) && PagesOk(s.mem.pages)
  }

  /** The running task is in runqueue, marked running, has ticks left, and its frames are in the data
      window. */
  ghost predicate CurrentOk(s: KState)
    requires Shaped(s)
  {
    && s.current in s.queues[RUNQ] && s.task[s.current].state == Running
    && 0 < s.roundtics == s.task[s.current].remainingQuantum
    && WindowShows(s.mem.pages, s.task[s.current].frames)
  }

  ghost predicate Inv(s: KState) {
    Core(s) && CurrentOk(s)
  }

  // ---------- what leaves most of it alone ----------

  /** Nothing about pids, frames or which slots are in use has changed. */
  ghost predicate Quiet(s: KState, s': KState)
    requires Shaped(s) && Shaped(s')
  {
    && s'.queues[FREEQ] == s.queues[FREEQ] && s'.mem.phys == s.mem.phys && s'.pidCounter == s.pidCounter
    && forall t :: 0 <= t < NR_TASKS ==> s'.task[t].pid == s.task[t].pid && s'.task[t].frames == s.task[t].frames
  }

  lemma QuietKeeps(s: KState, s': KState)
    requires Shaped(s) && Shaped(s') && Quiet(s, s')
    ensures forall t :: Live(s', t) <==> Live(s, t)
    ensures PidsOk(s) ==> PidsOk(s')
    ensures forall pid :: PidLive(s, pid) <==> PidLive(s', pid)
  {
    assert forall t :: Live(s', t) <==> Live(s, t);
    forall pid | PidLive(s, pid) ensures PidLive(s', pid) {
      var t :| Live(s, t) && s.task[t].pid == pid;
      assert Live(s', t) && s'.task[t].pid == pid;
    }
    forall pid | PidLive(s', pid) ensures PidLive(s, pid) {
      var t :| Live(s', t) && s'.task[t].pid == pid;
      assert Live(s, t) && s.task[t].pid == pid;
    }
  }

  lemma QuietFrames(s: KState, s': KState)
    requires Shaped(s) && Shaped(s') && Quiet(s, s') && FramesOwned(s)
    ensures FramesOwned(s')
  {
    assert forall t :: Live(s', t) <==> Live(s, t);
    forall f | Owned(s, f) ensures Owned(s', f) {
      var t, i :| Live(s, t) && 0 <= i < NUM_PAG_DATA && s.task[t].frames[i] == f;
      assert Live(s', t) && s'.task[t].frames[i] == f;
    }
  }

  ghost predicate SameQuanta(s: KState, s': KState)
    requires Shaped(s) && Shaped(s')
  {
    forall t :: 0 <= t < NR_TASKS ==> s'.task[t].quantum == s.task[t].quantum
  }

  lemma QuietQuanta(s: KState, s': KState)
    requires Shaped(s) && Shaped(s') && Quiet(s, s') && SameQuanta(s, s') && QuantaOk(s)
    ensures QuantaOk(s')
  {
    assert forall t :: Live(s', t) <==> Live(s, t);
  }

  /** A quiet step keeps the core once queues, states, semaphores and wishes are seen to. */
  lemma QuietCore(s: KState, s': KState)
    requires Core(s) && Shaped(s') && Quiet(s, s') && SameQuanta(s, s')
    requires QueuesOk(s') && StatesOk(s') && SemsOk(s') && WishesOk(s') && PagesOk(s'.mem.pages)
    ensures Core(s')
  {
    hide QueuesOk, StatesOk, PidsOk, QuantaOk, SemsOk, FramesOwned, WishesOk, Quiet, SameQuanta, PagesOk;
    QuietKeeps(s, s');
    QuietFrames(s, s');
    QuietQuanta(s, s');
  }
}
