/** The state the kernel starts user code in satisfies the invariant, so every reachable state does. */
module KernelBoot {
  import opened Sequences
  import opened KernelTypes
  import opened MemorySpec
  import opened KernelSpec
  import opened KernelInv
  import opened KernelProcesses
  import opened KernelMachine

  // ---------- frames at boot ----------

  /** Frames below n used, as init_frames and the static code allocation leave them. */
  function UsedBelow(n: nat): (phys: seq<bool>)
    ensures |phys| == TOTAL_PAGES
  {
    seq(TOTAL_PAGES, f => f < n)
  }

  lemma {:induction false} CountAllFree(phys: seq<bool>, i: nat)
    requires i <= |phys| + 1 && forall f :: i <= f < |phys| ==> !phys[f]
    ensures CountFree(phys, i) == (|phys| - i + 1) / 2
    decreases |phys| - i
  {
    if i < |phys| {
      CountAllFree(phys, i + 2);
    }
  }

  /** Of every second frame from i on, those from n on are free. */
  lemma {:induction false} CountBelow(phys: seq<bool>, i: nat, n: nat)
    requires i <= n <= |phys| && forall f :: 0 <= f < |phys| ==> (phys[f] <==> f < n)
    ensures CountFree(phys, i) == (|phys| - i + 1) / 2 - (n - i + 1) / 2
    decreases n - i
  {
    if i == n {
      CountAllFree(phys, i);
    } else if i + 1 == n {
      CountAllFree(phys, i + 2);
    } else {
      CountBelow(phys, i + 2, n);
    }
  }

  /** alloc_frame called n times, which set_user_pages does for task 0's data. */
  function Allocated(phys: seq<bool>, n: nat): (r: (seq<bool>, seq<int>))
    ensures |r.0| == |phys| && |r.1| == n
  {
    if n == 0 then (phys, [])
    else
      var (p, fs) := Allocated(phys, n - 1);
      var f := FirstFree(p, NUM_PAG_KERNEL);
      (if f == -1 then p else p[f := true], fs + [f])
  }

  /** p is phys with exactly the frames fs, free candidates before, taken. */
  predicate Took(phys: seq<bool>, p: seq<bool>, fs: seq<int>)
    requires |p| == |phys|
  {
    FreshFrames(phys, fs) && forall f :: 0 <= f < |phys| ==> (p[f] <==> phys[f] || f in fs)
  }

  lemma TookOne(phys: seq<bool>, p: seq<bool>, fs: seq<int>, f: int)
    requires |p| == |phys| && Took(phys, p, fs)
    requires NUM_PAG_KERNEL <= f < |phys| && (f - NUM_PAG_KERNEL) % 2 == 0 && !p[f]
    ensures Took(phys, p[f := true], fs + [f])
  {
    assert f !in fs;
  }

  lemma {:induction false} AllocatedEffect(phys: seq<bool>, n: nat)
    requires CountFree(phys, NUM_PAG_KERNEL) >= n
    ensures var (p, fs) := Allocated(phys, n);
      Took(phys, p, fs) && CountFree(p, NUM_PAG_KERNEL) == CountFree(phys, NUM_PAG_KERNEL) - n
  {
    hide CountFree, FirstFree, Took, FreshFrames;
    if n == 0 {
      TookNone(phys);
    } else {
      var (p, fs) := Allocated(phys, n - 1);
      AllocatedEffect(phys, n - 1);
      AllocOne(p);
      TookOne(phys, p, fs, FirstFree(p, NUM_PAG_KERNEL));
    }
  }

  lemma TookNone(phys: seq<bool>)
    ensures Took(phys, phys, [])
  {
  }

  // ---------- the boot state ----------

  function ZeroTask(): (t: Task)
    ensures |t.frames| == NUM_PAG_DATA
  {
    Task(0, Running, 0, 0, 0, 0, seq(NUM_PAG_DATA, i => 0), 0, 0, 0, 0)
  }

  function BootFrames(): (fs: seq<int>)
    ensures |fs| == NUM_PAG_DATA
  {
    Allocated(UsedBelow(NUM_PAG_KERNEL + NUM_PAG_CODE), NUM_PAG_DATA).1
  }

  function BootPhys(): (p: seq<bool>)
    ensures |p| == TOTAL_PAGES
  {
    Allocated(UsedBelow(NUM_PAG_KERNEL + NUM_PAG_CODE), NUM_PAG_DATA).0
  }

  /** A kernel page is mapped to itself, unless it guards a task structure. */
  function KernelPage(p: nat): (e: Entry) {
    if p in GUARDS then Absent else Maps(p)
  }

  /** The kernel mapped to itself, user code behind the kernel, task 0's data, nothing else. */
  function BootPages(): (pages: seq<Entry>)
    ensures |pages| == TOTAL_PAGES
  {
    seq(TOTAL_PAGES, p requires 0 <= p < TOTAL_PAGES =>
      if p < NUM_PAG_KERNEL then KernelPage(p)
      else if CODE_PAGE <= p < DATA_PAGE then Maps(NUM_PAG_KERNEL + p - CODE_PAGE)
      else if DATA_PAGE <= p < TEMP_PAGE then Maps(BootFrames()[p - DATA_PAGE])
      else Absent)
  }

  /** n-1, ..., 2, 1 */
  function Countdown(n: nat): (q: seq<int>)
    requires n > 0
    ensures |q| == n - 1 && forall i :: 0 <= i < n - 1 ==> q[i] == n - 1 - i
  {
    seq(n - 1, i => n - 1 - i)
  }

  function BootTask0(): (t: Task)
    ensures t.frames == BootFrames()
  {
    ZeroTask().(remainingQuantum := DEFAULT_QUANTUM, quantum := DEFAULT_QUANTUM, frames := BootFrames())
  }

  function BootTasks(): (task: seq<Task>)
    ensures |task| == NR_TASKS && task[0] == BootTask0() && forall t :: 0 < t < NR_TASKS ==> task[t] == ZeroTask()
  {
    seq(NR_TASKS, t => if t == 0 then BootTask0() else ZeroTask())
  }

  function BootQueues(): (queues: seq<seq<int>>)
    ensures |queues| == NR_QUEUES && queues[RUNQ] == [0] && queues[FREEQ] == Countdown(NR_TASKS)
    ensures forall k :: FREEQ < k < NR_QUEUES ==> queues[k] == []
  {
    seq(NR_QUEUES, k => if k == RUNQ then [0] else if k == FREEQ then Countdown(NR_TASKS) else [])
  }

  /** The state after main's initialisations; what memory and the system buffer hold is arbitrary. */
  function Boot(ram: seq<seq<Byte>>, sysbuff: seq<Byte>): (s': KState) {
    KState(BootTasks(), BootQueues(), seq(NR_SEM, _ => Sem(FREE_SEM, 0)),
           Mem(BootPhys(), BootPages(), ram), [], sysbuff, 0, DEFAULT_QUANTUM, 0)
  }

  predicate BootInput(ram: seq<seq<Byte>>, sysbuff: seq<Byte>) {
    |sysbuff| == SYSBUFF_SIZE && |ram| == TOTAL_PAGES && forall f :: 0 <= f < TOTAL_PAGES ==> |ram[f]| == PAGE_SIZE
  }

  lemma BootShaped(ram: seq<seq<Byte>>, sysbuff: seq<Byte>)
    requires BootInput(ram, sysbuff)
    ensures Shaped(Boot(ram, sysbuff))
    ensures forall t :: Live(Boot(ram, sysbuff), t) <==> t == 0
  {
    hide Allocated, UsedBelow;
    var s := Boot(ram, sysbuff);
    assert forall t :: 0 <= t < NR_TASKS ==> |s.task[t].frames| == NUM_PAG_DATA;
    forall t | 0 < t < NR_TASKS ensures t in s.queues[FREEQ] {
      assert s.queues[FREEQ][NR_TASKS - 1 - t] == t;
    }
    forall k, t | 0 <= k < NR_QUEUES && t in s.queues[k] ensures 0 <= t < NR_TASKS {
      if k == FREEQ {
        var i :| 0 <= i < |Countdown(NR_TASKS)| && Countdown(NR_TASKS)[i] == t;
      }
    }
  }

  lemma BootQueuesOk(ram: seq<seq<Byte>>, sysbuff: seq<Byte>)
    requires BootInput(ram, sysbuff)
    ensures Shaped(Boot(ram, sysbuff)) && QueuesOk(Boot(ram, sysbuff)) && StatesOk(Boot(ram, sysbuff))
  {
    hide Allocated, UsedBelow;
    BootShaped(ram, sysbuff);
    var q := BootQueues();
    forall x | 0 <= x < NR_TASKS ensures Placed(q, x) {
      if x == 0 {
        assert 0 in q[RUNQ];
      } else {
        assert q[FREEQ][NR_TASKS - 1 - x] == x && x in q[FREEQ];
      }
    }
  }

  lemma OneTaskFits()
    ensures NUM_PAG_DATA <= FREE_AT_BOOT
  {
    assert NR_TASKS * NUM_PAG_DATA >= NUM_PAG_DATA;
  }

  lemma BootFramesFacts()
    ensures FreshFrames(UsedBelow(NUM_PAG_KERNEL + NUM_PAG_CODE), BootFrames())
    ensures CountFree(BootPhys(), NUM_PAG_KERNEL) == FREE_AT_BOOT - NUM_PAG_DATA
    ensures forall f :: 0 <= f < TOTAL_PAGES ==>
            (BootPhys()[f] <==> f < NUM_PAG_KERNEL + NUM_PAG_CODE || f in BootFrames())
  {
    hide CountFree, Allocated, FirstFree;
    var used := UsedBelow(NUM_PAG_KERNEL + NUM_PAG_CODE);
    CountBelow(used, NUM_PAG_KERNEL, NUM_PAG_KERNEL + NUM_PAG_CODE);
    OneTaskFits();
    AllocatedEffect(used, NUM_PAG_DATA);
  }

  lemma BootFramesOwned(ram: seq<seq<Byte>>, sysbuff: seq<Byte>)
    requires BootInput(ram, sysbuff)
    ensures Shaped(Boot(ram, sysbuff)) && FramesOwned(Boot(ram, sysbuff))
  {
    hide Allocated, UsedBelow, CountFree, BootFrames, BootPhys, FrameGood, Owned, BootPages, Countdown, FreshFrames;
    BootShaped(ram, sysbuff);
    BootFramesFacts();
    BootOwned(ram, sysbuff);
    BootDistinct();
    BootCount();
  }

  lemma BootDistinct()
    ensures forall i, j :: 0 <= i < NUM_PAG_DATA && 0 <= j < NUM_PAG_DATA && BootFrames()[i] == BootFrames()[j] ==>
              i == j
  {
    hide Allocated, BootFrames, BootPhys, CountFree;
    BootFramesFacts();
  }

  /** All slots but one are free. */
  lemma BootCount()
    ensures NR_TASKS - |Countdown(NR_TASKS)| == 1
  {
  }

  lemma BootOwned(ram: seq<seq<Byte>>, sysbuff: seq<Byte>)
    requires BootInput(ram, sysbuff)
    ensures var s := Boot(ram, sysbuff);
      && Shaped(s) && s.task[0].frames == BootFrames()
      && (forall i :: 0 <= i < NUM_PAG_DATA ==> FrameGood(s.mem.phys, s.task[0].frames[i]))
      && forall f :: 0 <= f < TOTAL_PAGES && s.mem.phys[f] && f >= NUM_PAG_KERNEL + NUM_PAG_CODE ==> Owned(s, f)
  {
    hide Allocated, CountFree, BootFrames, BootPhys, BootPages, Countdown;
    BootShaped(ram, sysbuff);
    BootFramesFacts();
    var s := Boot(ram, sysbuff);
    forall i | 0 <= i < NUM_PAG_DATA ensures FrameGood(s.mem.phys, s.task[0].frames[i]) {
      assert BootFrames()[i] in BootFrames();
    }
    forall f | 0 <= f < TOTAL_PAGES && s.mem.phys[f] && f >= NUM_PAG_KERNEL + NUM_PAG_CODE ensures Owned(s, f) {
      var i :| 0 <= i < NUM_PAG_DATA && BootFrames()[i] == f;
      assert Live(s, 0) && s.task[0].frames[i] == f;
    }
  }

  /** main hands over to user code in a state that satisfies the invariant. */
  lemma BootInv(ram: seq<seq<Byte>>, sysbuff: seq<Byte>)
    requires BootInput(ram, sysbuff)
    ensures Inv(Boot(ram, sysbuff))
  {
    hide Allocated, UsedBelow, FramesOwned, QueuesOk, StatesOk, BootFrames, BootPhys;
    BootShaped(ram, sysbuff);
    BootQueuesOk(ram, sysbuff);
    BootFramesOwned(ram, sysbuff);
    var s := Boot(ram, sysbuff);
    assert forall n :: 0 <= n < NR_SEM ==> SemOk(s, n);
  }

  /** Used are the frames of kernel and code, and fs. */
  predicate CodeAndMore(phys: seq<bool>, fs: seq<int>) {
    |phys| == TOTAL_PAGES &&
    forall f :: 0 <= f < TOTAL_PAGES ==> (phys[f] <==> f < NUM_PAG_KERNEL + NUM_PAG_CODE || f in fs)
  }

  /** The first n frames allocated at boot are the first n candidates behind the code, every second frame. */
  lemma {:induction false} BootCandidates(n: nat)
    requires n <= NUM_PAG_DATA
    ensures var (p, fs) := Allocated(UsedBelow(NUM_PAG_KERNEL + NUM_PAG_CODE), n);
      && (forall i :: 0 <= i < n ==> fs[i] == Candidate(i))
      && CodeAndMore(p, fs)
  {
    if n > 0 {
      BootCandidates(n - 1);
      var (p, fs) := Allocated(UsedBelow(NUM_PAG_KERNEL + NUM_PAG_CODE), n - 1);
      NextCandidate(p, fs);
    }
  }

  function Candidate(i: nat): (f: int) {
    NUM_PAG_KERNEL + 2 * ((NUM_PAG_CODE + 1) / 2 + i)
  }

  lemma CandidateInRange(i: nat)
    requires i < NUM_PAG_DATA
    ensures NUM_PAG_KERNEL + NUM_PAG_CODE <= Candidate(i) < TOTAL_PAGES && (Candidate(i) - NUM_PAG_KERNEL) % 2 == 0
  {
    assert NUM_PAG_DATA <= NR_TASKS * NUM_PAG_DATA;
  }

  lemma CandidatesApart(i: nat, j: nat)
    ensures i < j ==> Candidate(i) < Candidate(j)
  {
  }

  lemma CandidateIndex(f: nat) returns (i: nat)
    requires f >= NUM_PAG_KERNEL + NUM_PAG_CODE && (f - NUM_PAG_KERNEL) % 2 == 0
    ensures f == Candidate(i)
  {
    i := (f - NUM_PAG_KERNEL) / 2 - (NUM_PAG_CODE + 1) / 2;
  }

  lemma NextCandidate(p: seq<bool>, fs: seq<int>)
    requires |fs| < NUM_PAG_DATA && CodeAndMore(p, fs) && forall i :: 0 <= i < |fs| ==> fs[i] == Candidate(i)
    ensures FirstFree(p, NUM_PAG_KERNEL) == Candidate(|fs|) < TOTAL_PAGES
  {
    hide FirstFree, Candidate;
    var c := Candidate(|fs|);
    CandidateInRange(|fs|);
    forall i | 0 <= i < |fs| ensures fs[i] != c {
      CandidatesApart(i, |fs|);
    }
    forall f | NUM_PAG_KERNEL <= f < c && (f - NUM_PAG_KERNEL) % 2 == 0 ensures p[f] {
      if f >= NUM_PAG_KERNEL + NUM_PAG_CODE {
        var i := CandidateIndex(f);
        CandidatesApart(|fs|, i);
        assert fs[i] == f;
      }
    }
    assert !p[c];
  }

  lemma BootTaken()
    ensures forall i :: 0 <= i < NUM_PAG_DATA ==> BootFrames()[i] == Candidate(i)
    ensures CodeAndMore(BootPhys(), BootFrames())
  {
    hide Allocated, UsedBelow, Candidate, CodeAndMore;
    BootCandidates(NUM_PAG_DATA);
  }

  /** What the kernel hands over to user code: task 0 alone, running with a full quantum on the first candidate
      frames behind the code; the other slots free, the last one first; no semaphore in use, nothing typed. */
  lemma BootState(ram: seq<seq<Byte>>, sysbuff: seq<Byte>)
    requires BootInput(ram, sysbuff)
    ensures var s := Boot(ram, sysbuff);
      && s.current == 0 && s.roundtics == DEFAULT_QUANTUM && s.pidCounter == 0 && s.ring == []
      && |s.task| == NR_TASKS && |s.sems| == NR_SEM && |s.queues| == NR_QUEUES
      && s.queues[RUNQ] == [0] && |s.queues[FREEQ]| == NR_TASKS - 1
      && (forall i :: 0 <= i < NR_TASKS - 1 ==> s.queues[FREEQ][i] == NR_TASKS - 1 - i)
      && (forall k :: FREEQ < k < NR_QUEUES ==> s.queues[k] == [])
      && (forall n :: 0 <= n < NR_SEM ==> s.sems[n].owner == FREE_SEM)
      && s.task[0] == Task(0, Running, 0, 0, DEFAULT_QUANTUM, DEFAULT_QUANTUM, s.task[0].frames, 0, 0, 0, 0)
      && (forall i :: 0 <= i < NUM_PAG_DATA ==> s.task[0].frames[i] == Candidate(i))
      && CodeAndMore(s.mem.phys, s.task[0].frames)
  {
    hide BootFrames, BootPhys, BootPages, Candidate;
    BootTaken();
  }

  /** Every state the kernel reaches, by any run of its entry points, satisfies the invariant. */
  lemma Reachable(ram: seq<seq<Byte>>, sysbuff: seq<Byte>, es: seq<Event>)
    requires BootInput(ram, sysbuff) && PossibleRun(es)
    ensures Inv(Boot(ram, sysbuff)) && Inv(Run(Boot(ram, sysbuff), es))
  {
    BootInv(ram, sysbuff);
  }

  // ---------- what a departed task leaves behind ----------

  /** After an exit nothing refers to the task: it is on freequeue only, its pid is no live task's, no
      semaphore is owned by it, and its frames are free again. */
  lemma ExitForgets(s: KState)
    requires Inv(s) && s.task[s.current].pid != 0
    ensures var t, s' := s.current, Step(s, ExitCall).0;
      && !Live(s', t) && s'.task[t].pid == NULL_PID &&
        (forall k :: 0 <= k < NR_QUEUES && t in s'.queues[k] ==> k == FREEQ)
      && !PidLive(s', s.task[t].pid)
      && (forall n :: 0 <= n < NR_SEM ==> s'.sems[n].owner != s.task[t].pid)
      && (forall i :: 0 <= i < NUM_PAG_DATA ==>
        0 <= s.task[t].frames[i] < TOTAL_PAGES && !s'.mem.phys[s.task[t].frames[i]])
      && CountFree(s'.mem.phys, NUM_PAG_KERNEL) == CountFree(s.mem.phys, NUM_PAG_KERNEL) + NUM_PAG_DATA
  {
    hide Core, CurrentOk, Removed, SlotFreed, DestroyOwned, OnlyWaiters;
    InvParts(s);
    ExitReady(s);
    ExitKeeps(s);
    RemovedIsSlotFreed(s);
    var s2 := DestroyOwned(s, s.task[s.current].pid, NR_SEM);
    SlotForgotten(s, s2);
    SlotFreedKeeps(s2);
    DispatchForgets(SlotFreed(s2), s.current, s.task[s.current].pid);
    CountsApart(s, Dispatch(SlotFreed(s2)));
  }

  lemma SlotForgotten(s: KState, s2: KState)
    requires Inv(s) && Core(s2) && Shaped(s2) && OnlyWaiters(s, s2) && s2.current == s.current
    requires s.current in s2.queues[RUNQ] && s2.task[s.current] == s.task[s.current] && s.task[s.current].pid != 0
    requires FramesInRange(s2, s2.current)
    ensures var s3, t := SlotFreed(s2), s.current;
      && Shaped(s3) && t in s3.queues[FREEQ] && s3.task[t].pid == NULL_PID && !PidLive(s3, s.task[t].pid)
      && s3.sems == s2.sems && |s3.queues[FREEQ]| == |s.queues[FREEQ]| + 1
      && forall i :: 0 <= i < NUM_PAG_DATA ==>
        0 <= s.task[t].frames[i] < TOTAL_PAGES && !s3.mem.phys[s.task[t].frames[i]]
  {
    SlotFreedQueues(s2);
    RunningFrames(s2);
    hide FramesOwned, SemsOk, StatesOk, QuantaOk, WishesOk, PagesOk;
    var frames := s2.task[s.current].frames;
    assert frames[..NUM_PAG_DATA] == frames;
    assert forall i :: 0 <= i < NUM_PAG_DATA ==> frames[i] in frames;
  }

  lemma DispatchForgets(s: KState, t: int, pid: int)
    requires Core(s) && s.queues[RUNQ] != [] && 0 <= t < NR_TASKS && t in s.queues[FREEQ]
    ensures var s' := Dispatch(s);
      && !Live(s', t) && s'.task[t].pid == s.task[t].pid && s'.queues == s.queues && s'.sems == s.sems
      && s'.mem.phys == s.mem.phys && (PidLive(s', pid) ==> PidLive(s, pid))
      && forall k :: 0 <= k < NR_QUEUES && t in s'.queues[k] ==> k == FREEQ
  {
    QuietKeeps(s, Dispatch(s));
  }

  lemma CountsApart(s: KState, s': KState)
    requires Inv(s) && Inv(s') && |s'.queues[FREEQ]| == |s.queues[FREEQ]| + 1
    ensures CountFree(s'.mem.phys, NUM_PAG_KERNEL) == CountFree(s.mem.phys, NUM_PAG_KERNEL) + NUM_PAG_DATA
  {
    FreeFrameCount(s);
    FreeFrameCount(s');
    var n := |s.queues[FREEQ]|;
    assert NUM_PAG_DATA * (NR_TASKS - (n + 1)) == NUM_PAG_DATA * (NR_TASKS - n) - NUM_PAG_DATA;
  }

  /** Exactly NUM_PAG_DATA candidate frames are in use for each slot in use. */
  lemma FreeFrameCount(s: KState)
    requires Inv(s)
    ensures CountFree(s.mem.phys, NUM_PAG_KERNEL) == FREE_AT_BOOT - NUM_PAG_DATA * (NR_TASKS - |s.queues[FREEQ]|)
  {
  }
}
