/** sched.c, sys.c and the keyboard path of interrupt.c and devices.c: the kernel's structures updated
    in place, each entry point performing its step of the state machine. */
module KernelCode {
  import opened Sequences
  import opened KernelTypes
  import opened MemorySpec
  import opened KernelSpec
  import opened KernelInv
  import opened KernelSteps
  import opened KernelProcesses
  import opened KernelMachine
  import opened KernelBoot
  import KernelIsolation
  import opened TaskLists
  import opened RingBuffer
  import opened MemoryManager

  /** The list heads an operation may rely on: the three global ones and those of owned semaphores. */
  ghost predicate HeadsReady(ready: set<nat>, sems: seq<Sem>) {
    && RUNQ in ready && FREEQ in ready && KBDQ in ready
    && forall n :: 0 <= n < |sems| && sems[n].owner != FREE_SEM ==> SemQ(n) in ready
  }

  /** init_queues and init_task_structs: every slot but 0 pushed onto freequeue. */
  method InitTaskStructs(lists: Lists)
    requires lists.Valid() && lists.queues == seq(NR_QUEUES, _ => [])
    modifies lists, lists.next, lists.prev
    ensures lists.Valid() && lists.ready == old(lists.ready) + {RUNQ, FREEQ}
    ensures lists.queues == seq(NR_QUEUES, _ => [])[FREEQ := Countdown(NR_TASKS)]
  {
    lists.InitHead(RUNQ);
    lists.InitHead(FREEQ);
    var i := 1;
    while i < NR_TASKS
      invariant 1 <= i <= NR_TASKS && lists.Valid() && lists.ready == old(lists.ready) + {RUNQ, FREEQ}
      invariant lists.queues == seq(NR_QUEUES, _ => [])[FREEQ := Countdown(i)]
    {
      assert Countdown(i + 1) == [i] + Countdown(i);
      lists.Add(i, FREEQ);
      i := i + 1;
    }
  }

  /** init_sems */
  method InitSems(sems: array<Sem>)
    requires sems.Length == NR_SEM
    modifies sems
    ensures forall n :: 0 <= n < NR_SEM ==> sems[n] == old(sems[n]).(owner := FREE_SEM)
  {
    for i := 0 to NR_SEM
      invariant forall n :: 0 <= n < i ==> sems[n] == old(sems[n]).(owner := FREE_SEM)
      invariant forall n :: i <= n < NR_SEM ==> sems[n] == old(sems[n])
    {
      sems[i] := sems[i].(owner := FREE_SEM);
    }
  }

  /** What main's initialisations leave in the structures is the boot state. */
  lemma BootAssembled(contents: seq<seq<Byte>>, buffer: seq<Byte>, task: seq<Task>, queues: seq<seq<int>>,
                      sems: seq<Sem>)
    requires task == seq(NR_TASKS, _ => ZeroTask())[0 := BootTask0()]
    requires queues == seq(NR_QUEUES, _ => [])[FREEQ := Countdown(NR_TASKS)][RUNQ := [0]]
    requires |sems| == NR_SEM && forall n :: 0 <= n < NR_SEM ==> sems[n] == Sem(FREE_SEM, 0)
    ensures KState(task, queues, sems, Mem(BootPhys(), BootPages(), contents), [], buffer, 0, DEFAULT_QUANTUM, 0)
            == Boot(contents, buffer)
    ensures forall ready :: RUNQ in ready && FREEQ in ready && KBDQ in ready ==> HeadsReady(ready, sems)
  {
    hide BootPhys, BootPages, BootFrames, Countdown;
    var s := Boot(contents, buffer);
    assert task == s.task;
    assert queues == s.queues;
  }

  /** The first j waiters of a queue woken. */
  ghost function WokenUpTo(s: KState, q: nat, j: nat, eax: int): (s': KState)
    requires Shaped(s) && KBDQ <= q < NR_QUEUES && j <= |s.queues[q]|
    ensures Shaped(s')
  {
    var w := s.queues[q];
    assert forall t :: t in w[j..] || t in w[..j] ==> t in w;
    s.(queues := s.queues[RUNQ := s.queues[RUNQ] + w[..j]][q := w[j..]],
       task := seq(NR_TASKS, t requires 0 <= t < NR_TASKS => if t in w[..j] then Woken(s.task[t], eax) else s.task[t]))
  }

  lemma WokenNone(s: KState, q: nat, eax: int)
    requires Shaped(s) && KBDQ <= q < NR_QUEUES
    ensures WokenUpTo(s, q, 0, eax) == s
  {
    var s' := WokenUpTo(s, q, 0, eax);
    var w, run := s.queues[q], s.queues[RUNQ];
    assert s'.task == s.task;
    assert run + w[..0] == run && w[0..] == w;
    assert s'.queues == s.queues;
  }

  lemma WokenNext(s: KState, q: nat, j: nat, eax: int)
    requires Shaped(s) && KBDQ <= q < NR_QUEUES && j < |s.queues[q]| && NoDup(s.queues[q])
    ensures 0 <= s.queues[q][j] < NR_TASKS
    ensures Wake(WokenUpTo(s, q, j, eax), s.queues[q][j], q, eax) == WokenUpTo(s, q, j + 1, eax)
    ensures WokenUpTo(s, q, j + 1, eax).queues[q] == s.queues[q][j + 1..]
    ensures WokenUpTo(s, q, j, eax).queues[q] == s.queues[q][j..]
  {
    hide WokenUpTo, Wake, NoDup;
    var a, b, t := WokenUpTo(s, q, j, eax), WokenUpTo(s, q, j + 1, eax), s.queues[q][j];
    assert t in s.queues[q];
    WokenQueues(s, q, j, eax);
    WokenTasks(s, q, j, eax);
    WakeParts(a, t, q, eax, b);
  }

  lemma WakeParts(a: KState, t: int, q: nat, eax: int, b: KState)
    requires Shaped(a) && 0 <= t < NR_TASKS && q < NR_QUEUES
    requires b == a.(queues := ToTail(a.queues, t, q, RUNQ), task := a.task[t := Woken(a.task[t], eax)])
    ensures Wake(a, t, q, eax) == b
  {
  }

  lemma WokenQueues(s: KState, q: nat, j: nat, eax: int)
    requires Shaped(s) && KBDQ <= q < NR_QUEUES && j < |s.queues[q]| && NoDup(s.queues[q])
    ensures var a, b, w := WokenUpTo(s, q, j, eax), WokenUpTo(s, q, j + 1, eax), s.queues[q];
      && a.queues[q] == w[j..] && b.queues[q] == w[j + 1..]
      && b.queues == ToTail(a.queues, w[j], q, RUNQ)
  {
    hide NoDup;
    var a, b, w := WokenUpTo(s, q, j, eax), WokenUpTo(s, q, j + 1, eax), s.queues[q];
    var run := s.queues[RUNQ];
    assert (run + w[..j]) + [w[j]] == run + w[..j + 1];
    assert w[j..][0] == w[j] && w[j..][1..] == w[j + 1..];
    assert Without(w[j..], w[j]) == w[j + 1..];
    assert b.queues == ToTail(a.queues, w[j], q, RUNQ);
  }

  lemma WokenTasks(s: KState, q: nat, j: nat, eax: int)
    requires Shaped(s) && KBDQ <= q < NR_QUEUES && j < |s.queues[q]| && NoDup(s.queues[q])
    ensures var a, b, t := WokenUpTo(s, q, j, eax), WokenUpTo(s, q, j + 1, eax), s.queues[q][j];
      0 <= t < NR_TASKS && b == a.(queues := b.queues, task := a.task[t := Woken(a.task[t], eax)])
  {
    var a, b, w := WokenUpTo(s, q, j, eax), WokenUpTo(s, q, j + 1, eax), s.queues[q];
    var t := w[j];
    assert t in w && t !in w[..j];
    assert w[..j + 1] == w[..j] + [t];
    forall u | 0 <= u < NR_TASKS ensures b.task[u] == a.task[t := Woken(a.task[t], eax)][u] {
      assert u in w[..j + 1] <==> u in w[..j] || u == t;
    }
  }

  lemma WokenEnd(s: KState, q: nat, eax: int)
    requires Shaped(s) && KBDQ <= q < NR_QUEUES
    ensures WokenUpTo(s, q, |s.queues[q]|, eax) == WakeAll(s, q, eax)
  {
    var w := s.queues[q];
    assert w[..|w|] == w && w[|w|..] == [];
    assert WokenUpTo(s, q, |w|, eax).task == WakeAll(s, q, eax).task;
  }

  lemma NothingMoved(ring: seq<Byte>, sysbuff: seq<Byte>, size: nat)
    requires |ring| == CIRC_BUFF_SIZE
    ensures Movable(ring, size) == 0 && ring[0..] == ring && ring[..0] + sysbuff[0..] == sysbuff
  {
  }

  lemma NothingStored(m: Mem, f: seq<int>, a: nat)
    requires MemShaped(m) && |f| == NUM_PAG_DATA && a <= NUM_PAG_DATA * PAGE_SIZE
    ensures var lent := m.(pages := Window(m.pages, f)); MemShaped(lent) && StoreBytes(lent, a, []) == lent
  {
    KernelIsolation.StoreNothing(m.(pages := Window(m.pages, f)), a);
  }

  /** What a key press needs and leaves: the first reader's wish is proper, the window stays current's,
      and where the reader was to be served its buffer is still in range. */
  lemma KeyFacts(s: KState, c: Byte)
    requires Inv(s)
    ensures Shaped(s) && (s.queues[KBDQ] != [] ==> WishOk(s, First(s, KBDQ)))
    ensures var s1 := s.(ring := RingSaved(s.ring, c));
      && Shaped(s1) && WindowShows(s1.mem.pages, s1.task[s1.current].frames)
      && (s.queues[KBDQ] != [] ==> WishOk(s1, First(s1, KBDQ)))
      && (Deliverable(s1) ==> var s2, t := Delivered(s1), First(s1, KBDQ);
           && s2.task[t].offset == 0 && s2.task[t].buff == s1.task[t].buff
           && s2.current == s1.current && WindowShows(s2.mem.pages, s2.task[s2.current].frames))
  {
    KeyReady(s);
    KeyPressKeeps(s, c);
    InvWindow(s);
    InvWindow(KeyPress(s, c));
    hide Inv, Core;
  }

  // ---------- fork's and exit's loops ----------

  /** The state after i rounds of fork's copying loop. */
  ghost function CopiedSoFar(s: KState, child: int, i: nat): (s': KState)
    requires Shaped(s) && 0 <= child < NR_TASKS && i <= NUM_PAG_DATA
    ensures Shaped(s')
  {
    var copy := CopyPages(s.mem, s.task[child].frames, i);
    s.(mem := copy.mem, task := s.task[child := s.task[child].(frames := copy.frames)])
  }

  lemma CopyStart(s: KState, child: int)
    requires Shaped(s) && 0 <= child < NR_TASKS
    ensures CopyPages(s.mem, s.task[child].frames, 0).ok && CopiedSoFar(s, child, 0) == s
  {
    assert s.task[child := s.task[child]] == s.task;
  }

  /** The slot's frames stay frame numbers. */
  lemma {:induction false} CopyInRange(m: Mem, frames: seq<int>, i: nat)
    requires MemShaped(m) && |frames| == NUM_PAG_DATA && i <= NUM_PAG_DATA
    requires forall j :: 0 <= j < NUM_PAG_DATA ==> 0 <= frames[j] < TOTAL_PAGES
    ensures forall j :: 0 <= j < NUM_PAG_DATA ==> 0 <= CopyPages(m, frames, i).frames[j] < TOTAL_PAGES
  {
    if i > 0 {
      CopyInRange(m, frames, i - 1);
    }
  }

  lemma PageSet(m: Mem, p: nat, f: int)
    requires MemShaped(m) && p < TOTAL_PAGES
    ensures |m.pages| == TOTAL_PAGES && MemShaped(m.(pages := m.pages[p := Maps(f)]))
  {
  }

  /** Once a round fails, the later ones do nothing. */
  lemma {:induction false} CopyStuck(m: Mem, frames: seq<int>, i: nat, n: nat)
    requires MemShaped(m) && |frames| == NUM_PAG_DATA && i <= n <= NUM_PAG_DATA && !CopyPages(m, frames, i).ok
    ensures CopyPages(m, frames, n) == CopyPages(m, frames, i)
  {
    if i < n {
      CopyStuck(m, frames, i, n - 1);
    }
  }

  lemma CopyFailed(s: KState, child: int, i: nat)
    requires Shaped(s) && 0 <= child < NR_TASKS && i < NUM_PAG_DATA && !CopyPages(s.mem, s.task[child].frames, i + 1).ok
    ensures CopyPages(s.mem, s.task[child].frames, NUM_PAG_DATA) == CopyPages(s.mem, s.task[child].frames, i + 1)
  {
    CopyStuck(s.mem, s.task[child].frames, i + 1, NUM_PAG_DATA);
  }

  /** The child's slot first holds its parent's frames. */
  lemma StartFrames(s: KState)
    requires Shaped(s) && s.queues[FREEQ] != [] && FramesInRange(s, s.current)
    ensures FramesInRange(ForkStart(s), First(s, FREEQ))
  {
  }

  ghost function Started(s: KState, child: int): (s': KState)
    requires Shaped(s) && 0 <= child < NR_TASKS
    ensures Shaped(s')
  {
    var q := s.task[s.current].quantum;
    s.(pidCounter := s.pidCounter + 1, queues := s.queues[RUNQ := [child] + s.queues[RUNQ]],
       task := s.task[child := s.task[child].(pid := s.pidCounter + 1, quantum := q, tics := 0, cs := 0,
         remainingQuantum := q, eax := 0)])
  }

  /** The first i pages of the copying window closed. */
  function Closed(pages: seq<Entry>, i: nat): (r: seq<Entry>)
    ensures |r| == |pages|
  {
    seq(|pages|, p requires 0 <= p < |pages| => if TEMP_PAGE <= p < TEMP_PAGE + i then Absent else pages[p])
  }

  lemma ClosedNext(pages: seq<Entry>, i: nat)
    requires |pages| == TOTAL_PAGES
    ensures Closed(pages, 0) == pages && Closed(pages, NUM_PAG_DATA) == TempClosed(pages)
    ensures i < NUM_PAG_DATA ==> Closed(pages, i)[TEMP_PAGE + i := Absent] == Closed(pages, i + 1)
  {
  }

  lemma FreedNext(phys: seq<bool>, frames: seq<int>, i: nat)
    requires i <= |frames| && forall j :: 0 <= j < |frames| ==> 0 <= frames[j] < |phys|
    ensures Freed(phys, frames, 0) == phys
    ensures i < |frames| ==> Freed(phys, frames, i + 1) == Freed(phys, frames, i)[frames[i] := false]
  {
  }

  lemma OwnedNone(s: KState, pid: int)
    requires Shaped(s)
    ensures DestroyOwned(s, pid, 0) == s
  {
  }

  lemma OwnedNext(s: KState, pid: int, i: nat)
    requires Shaped(s) && i < NR_SEM
    ensures var s1 := DestroyOwned(s, pid, i);
      && DestroyOwned(s, pid, i + 1) == (if s1.sems[i].owner == pid then Destroyed(s1, i) else s1)
      && s1.task[s.current].pid == s.task[s.current].pid
  {
    OwnedKeeps(s, pid, i);
  }

  /** Giving up semaphores changes no pid and takes nobody out of runqueue. */
  lemma {:induction false} OwnedKeeps(s: KState, pid: int, n: nat)
    requires Shaped(s) && n <= NR_SEM
    ensures var s' := DestroyOwned(s, pid, n);
      && s'.current == s.current && s'.task[s.current].pid == s.task[s.current].pid
      && (forall t :: t in s.queues[RUNQ] ==> t in s'.queues[RUNQ])
  {
    if n > 0 {
      OwnedKeeps(s, pid, n - 1);
    }
  }

  class Kernel {
    const task: array<Task>
    const sems: array<Sem>
    const lists: Lists
    const memory: Memory
    const ring: CircBuff
    const sysbuff: array<Byte>
    /** The task whose stack the kernel runs on. */
    var current: int
    var roundtics: int
    var pidCounter: int

    ghost function Repr(): (r: set<object>) {
      {this, task, sems, lists, lists.next, lists.prev, memory.phys, memory.pages, memory.ram, ring, ring.mem, sysbuff}
    }

    ghost function Abs(): (s': KState)
      reads Repr()
    {
      KState(task[..], lists.queues, sems[..], memory.Value(), ring.contents, sysbuff[..], current, roundtics,
        pidCounter)
    }

    ghost predicate Valid()
      reads Repr()
    {
      && lists.Valid() && memory.Valid() && ring.Valid() && ring.mem != sysbuff
      && Shaped(Abs()) && HeadsReady(lists.ready, sems[..])
    }

    // ---------- main ----------

    /** The structures as the linker leaves them; memory and the system buffer hold anything. */
    constructor Loaded(contents: seq<seq<Byte>>, buffer: seq<Byte>)
      requires BootInput(contents, buffer)
      ensures fresh(Repr()) && Fresh() && Ram() == contents && sysbuff[..] == buffer
    {
      hide Heap, Delimits, UsedBelow, KernelPages, MemShaped;
      task := new Task[NR_TASKS](_ => ZeroTask());
      sems := new Sem[NR_SEM](_ => Sem(0, 0));
      lists := new Lists();
      memory := new Memory(contents);
      ring := new CircBuff();
      sysbuff := new Byte[SYSBUFF_SIZE](i requires 0 <= i < SYSBUFF_SIZE => buffer[i]);
      current, roundtics, pidCounter := 0, 0, 0;
      new;
      assert task[..] == seq(NR_TASKS, _ => ZeroTask());
    }

    ghost function Ram(): (r: seq<seq<Byte>>)
      reads Repr()
    {
      memory.ram[..]
    }

    /** Nothing initialised yet but memory and the ring. */
    ghost predicate Fresh()
      reads Repr()
    {
      && lists.Valid() && lists.queues == seq(NR_QUEUES, _ => []) && ring.Valid() && ring.contents == [] &&
        ring.mem != sysbuff
      && memory.Valid() && memory.phys[..] == UsedBelow(NUM_PAG_KERNEL) && memory.pages[..] == KernelPages()
      && task[..] == seq(NR_TASKS, _ => ZeroTask()) && sems.Length == NR_SEM && sysbuff.Length == SYSBUFF_SIZE
      && (forall n :: 0 <= n < NR_SEM ==> sems[n].value == 0) && current == 0 && pidCounter == 0
    }

    /** main: lists, semaphores, the keyboard queue, task 0. */
    method Start()
      requires Fresh() && BootInput(Ram(), sysbuff[..])
      modifies Repr()
      ensures Valid() && Abs() == Boot(old(Ram()), old(sysbuff[..])) && Inv(Abs())
    {
      hide Heap, Delimits, UsedBelow, KernelPages, BootPhys, BootPages, BootFrames, MemShaped, Shaped, Countdown,
        Boot, HeadsReady, Inv;
      ghost var contents, buffer := Ram(), sysbuff[..];
      InitTaskStructs(lists);
      InitSems(sems);
      lists.InitHead(KBDQ);
      InitTask0();
      BootShaped(contents, buffer);
      BootInv(contents, buffer);
      BootAssembled(contents, buffer, task[..], lists.queues, sems[..]);
    }

    /** init_task0 */
    method InitTask0()
      requires task.Length == NR_TASKS && task[0] == ZeroTask() && memory.Valid() && lists.Valid()
      requires memory.phys[..] == UsedBelow(NUM_PAG_KERNEL) && memory.pages[..] == KernelPages()
      requires RUNQ in lists.ready && lists.queues[RUNQ] == []
      requires forall k :: 0 <= k < NR_QUEUES ==> 0 !in lists.queues[k]
      modifies this, task, memory.phys, memory.pages, lists, lists.next, lists.prev
      ensures memory.Valid() && memory.Value() == Mem(BootPhys(), BootPages(), old(memory.ram[..]))
      ensures task[..] == old(task[..])[0 := BootTask0()]
      ensures lists.Valid() && lists.queues == old(lists.queues)[RUNQ := [0]] && lists.ready == old(lists.ready)
      ensures roundtics == DEFAULT_QUANTUM && current == old(current) && pidCounter == old(pidCounter)
    {
      hide UsedBelow, KernelPages, BootPhys, BootPages, BootFrames;
      var frames := memory.SetUserPages();
      task[0] := task[0].(frames := frames);
      task[0] := task[0].(pid := 0, quantum := DEFAULT_QUANTUM, tics := 0, cs := 0);
      task[0] := task[0].(remainingQuantum := task[0].quantum);
      assert [0] + lists.queues[RUNQ] == [0];
      lists.Add(0, RUNQ);
      task[0] := task[0].(offset := 0, remain := 0, buff := 0);
      roundtics := task[0].quantum;
    }

    // ---------- sched.c ----------

    method SchedUpdateStatus()
      requires Valid()
      modifies Repr()
      ensures Valid() && Abs() == Ticked(old(Abs()))
    {
      roundtics := roundtics - 1;
      var tsk := current;
      task[tsk] := task[tsk].(tics := task[tsk].tics + 1);
      task[tsk] := task[tsk].(remainingQuantum := task[tsk].remainingQuantum - 1);
      assert Abs() == Ticked(old(Abs()));
    }

    method SchedSelectNext() returns (tsk: int)
      requires Valid() && lists.queues[RUNQ] != []
      ensures tsk == First(Abs(), RUNQ)
    {
      tsk := lists.FirstOf(RUNQ);
    }

    method SchedPause(tsk: int)
      requires Valid() && tsk == current && tsk in lists.queues[RUNQ]
      modifies Repr()
      ensures Valid() && Abs() == Pause(old(Abs()))
    {
      hide Heap, Delimits, MemShaped, Disjoint;
      lists.Del(tsk, RUNQ);
      lists.AddTail(tsk, RUNQ);
      task[tsk] := task[tsk].(state := Ready);
      assert Abs() == Pause(old(Abs()));
    }

    /** With task_switch: the task gets the processor and its pages the data window. */
    method SchedContinue(tsk: int)
      requires Valid() && lists.queues[RUNQ] != [] && tsk == First(Abs(), RUNQ)
      modifies Repr()
      ensures Valid() && Abs() == Dispatch(old(Abs()))
    {
      hide Heap, Delimits, MemShaped, Window;
      roundtics := task[tsk].quantum;
      task[tsk] := task[tsk].(cs := task[tsk].cs + 1);
      task[tsk] := task[tsk].(remainingQuantum := task[tsk].quantum);
      task[tsk] := task[tsk].(state := Running);
      memory.ShowFrames(task[tsk].frames);
      current := tsk;
      assert Abs() == Dispatch(old(Abs()));
    }

    method SchedBlock(tsk: int, queue: nat)
      requires Valid() && tsk == current && tsk in lists.queues[RUNQ] && queue < NR_QUEUES && queue in lists.ready
      modifies Repr()
      ensures Valid() && Abs() == Block(old(Abs()), queue)
    {
      hide Heap, Delimits, MemShaped, Disjoint;
      lists.Del(tsk, RUNQ);
      lists.AddTail(tsk, queue);
      task[tsk] := task[tsk].(state := Blocked);
      assert Abs() == Block(old(Abs()), queue);
    }

    /** The saved result of a blocked task, then sched_unblock. */
    method SchedUnblock(tsk: int, eax: int, ghost queue: nat)
      requires Valid() && queue < NR_QUEUES && tsk in lists.queues[queue]
      modifies Repr()
      ensures Valid() && Abs() == Wake(old(Abs()), tsk, queue, eax) && lists.ready == old(lists.ready)
    {
      hide Heap, Delimits, MemShaped, Disjoint;
      task[tsk] := task[tsk].(eax := eax);
      lists.Del(tsk, queue);
      lists.AddTail(tsk, RUNQ);
      task[tsk] := task[tsk].(state := Ready);
      task[tsk] := task[tsk].(remain := 0);
      task[tsk] := task[tsk].(offset := 0);
      assert Abs() == Wake(old(Abs()), tsk, queue, eax);
    }

    /** sched, the whole of a clock tick that concerns tasks. */
    method Sched()
      requires Valid() && Inv(Abs())
      modifies Repr()
      ensures Valid() && Abs() == Tick(old(Abs()))
    {
      hide Inv, Core, Heap, Delimits, Ticked, Pause, Dispatch;
      InvParts(Abs());
      TickedStill(Abs());
      SchedUpdateStatus();
      if roundtics == 0 {
        SchedPause(current);
        var tsk := SchedSelectNext();
        SchedContinue(tsk);
      }
    }

    // ---------- sys.c: nice and semaphores ----------

    method SysNice(quantum: int) returns (r: Outcome)
      requires Valid()
      modifies Repr()
      ensures Valid() && (Abs(), r) == Nice(old(Abs()), quantum)
    {
      if quantum <= 0 { return Returned(-EINVAL); }
      var oldQuantum := task[current].quantum;
      task[current] := task[current].(quantum := quantum);
      assert Abs() == Nice(old(Abs()), quantum).0;
      return Returned(oldQuantum);
    }

    method SysSemInit(n: int, value: int) returns (r: Outcome)
      requires Valid() && Inv(Abs())
      modifies Repr()
      ensures Valid() && (Abs(), r) == SemInit(old(Abs()), n, value)
    {
      hide Inv, Core, Heap, Delimits;
      if n < 0 || n >= NR_SEM { return Returned(-EINVAL); }
      if sems[n].owner != FREE_SEM { return Returned(-EBUSY); }
      SemOwner(Abs(), n);
      sems[n] := sems[n].(owner := task[current].pid);
      sems[n] := sems[n].(value := ToInt32(value));
      lists.InitHead(SemQ(n));
      assert Abs() == SemInit(old(Abs()), n, value).0;
      return Returned(0);
    }

    method SysSemWait(n: int) returns (r: Outcome)
      requires Valid() && Inv(Abs())
      modifies Repr()
      ensures WaitBlocks(old(Abs()), n) ==> Block(old(Abs()), SemQ(n)).queues[RUNQ] != []
      ensures Valid() && (Abs(), r) == SemWait(old(Abs()), n)
    {
      hide Inv, Core, Heap, Delimits, Block, Dispatch;
      InvParts(Abs());
      WaitReady(Abs(), n);
      if n < 0 || n >= NR_SEM { return Returned(-EINVAL); }
      if sems[n].owner == FREE_SEM { return Returned(-EINVAL); }
      if task[current].pid == 0 { return Returned(-EPERM); }
      if sems[n].value > 0 {
        sems[n] := sems[n].(value := sems[n].value - 1);
        assert Abs() == SemWait(old(Abs()), n).0;
      } else {
        SchedBlock(current, SemQ(n));
        var tsk := SchedSelectNext();
        SchedContinue(tsk);
        return NoResult;
      }
      return Returned(0);
    }

    method SysSemSignal(n: int) returns (r: Outcome)
      requires Valid()
      modifies Repr()
      ensures Valid() && (Abs(), r) == SemSignal(old(Abs()), n)
    {
      hide Heap, Delimits, Wake;
      if n < 0 || n >= NR_SEM { return Returned(-EINVAL); }
      if sems[n].owner == FREE_SEM { return Returned(-EINVAL); }
      var empty := lists.Empty(SemQ(n));
      if empty {
        sems[n] := sems[n].(value := sems[n].value + 1);
        assert Abs() == SemSignal(old(Abs()), n).0;
      } else {
        var tsk := lists.FirstOf(SemQ(n));
        SchedUnblock(tsk, 0, SemQ(n));
      }
      return Returned(0);
    }

    method SysSemDestroy(n: int) returns (r: Outcome)
      requires Valid()
      modifies Repr()
      ensures Valid() && (Abs(), r) == SemDestroy(old(Abs()), n)
    {
      hide Heap, Delimits, Wake, WakeAll, WokenUpTo;
      if n < 0 || n >= NR_SEM { return Returned(-EINVAL); }
      if sems[n].owner == FREE_SEM { return Returned(-EINVAL); }
      if task[current].pid != sems[n].owner { return Returned(-EPERM); }
      ghost var s := Abs().(sems := sems[..][n := sems[n].(owner := FREE_SEM)]);
      sems[n] := sems[n].(owner := FREE_SEM);
      assert Abs() == s;
      WakeAllWaiters(SemQ(n), -1);
      return Returned(0);
    }

    /** The loop of sys_sem_destroy. */
    method WakeAllWaiters(q: nat, eax: int)
      requires Valid() && KBDQ < q < NR_QUEUES && q in lists.ready
      modifies Repr()
      ensures Valid() && Abs() == WakeAll(old(Abs()), q, eax)
    {
      hide Heap, Delimits, Wake, WakeAll, WokenUpTo, HeadsReady;
      ghost var s := Abs();
      ghost var waiters := s.queues[q];
      ghost var j := 0;
      QueueNoDup(q);
      WokenNone(s, q, eax);
      var empty := lists.Empty(q);
      while !empty
        invariant 0 <= j <= |waiters| && Valid() && Abs() == WokenUpTo(s, q, j, eax)
        invariant q in lists.ready && lists.queues[q] == waiters[j..]
        invariant empty <==> j == |waiters|
        decreases |waiters| - j
      {
        var tsk := lists.FirstOf(q);
        WokenNext(s, q, j, eax);
        SchedUnblock(tsk, eax, q);
        j := j + 1;
        empty := lists.Empty(q);
      }
      WokenEnd(s, q, eax);
    }

    ghost method QueueNoDup(q: nat)
      requires Valid() && q < NR_QUEUES
      ensures NoDup(lists.queues[q])
    {
    }

    // ---------- the keyboard path ----------

    /** sys_read_keyboard */
    method SysReadKeyboard(buff: int, size: int) returns (r: Outcome)
      requires Valid() && Inv(Abs()) && AccessOk(buff, size)
      modifies Repr()
      ensures ReadBlocks(old(Abs()), size) ==> ReadWaits(old(Abs()), buff, size).queues[RUNQ] != []
      ensures Valid() && (Abs(), r) == ReadKeyboard(old(Abs()), buff, size)
    {
      hide Inv, Core, Heap, Delimits, Block, Dispatch, MemShaped, StoreBytes;
      ghost var s := Abs();
      InvParts(s);
      ReadReady(s, buff, size);
      if task[current].pid == 0 { return Returned(-EPERM); }
      var n := ring.GetSize();
      var empty := lists.Empty(KBDQ);
      if n >= size && empty {
        var read := ring.GetCharacter(sysbuff, size);
        memory.CopyToUser(sysbuff, buff, size);
        assert Abs() == ReadKeyboard(s, buff, size).0;
        return Returned(read);
      } else {
        NoteWish(buff, size);
        SchedBlock(current, KBDQ);
        var tsk := SchedSelectNext();
        SchedContinue(tsk);
        return NoResult;
      }
    }

    method NoteWish(buff: int, size: int)
      requires Valid()
      modifies task
      ensures Valid() && Abs() == Wishing(old(Abs()), buff, size)
    {
      hide Heap, Delimits, MemShaped, HeadsReady;
      task[current] := task[current].(offset := 0);
      task[current] := task[current].(remain := size);
      task[current] := task[current].(buff := buff);
      assert Abs() == Wishing(old(Abs()), buff, size);
    }

    /** The branch of keyboard_routine for a reader whose characters have all arrived. */
    method Deliver(tsk: int)
      requires Valid() && Deliverable(Abs()) && tsk == First(Abs(), KBDQ) && WishOk(Abs(), tsk)
      modifies Repr()
      ensures Valid() && Abs() == Delivered(old(Abs()))
    {
      hide Heap, Delimits, Wake, Stored, MemShaped;
      var read := FillBuffer(tsk);
      SchedUnblock(tsk, task[tsk].offset + read, KBDQ);
    }

    /** Its moves: the characters to the system buffer, and on to the reader through its own pages. */
    method FillBuffer(tsk: int) returns (read: int)
      requires Valid() && Deliverable(Abs()) && tsk == First(Abs(), KBDQ) && WishOk(Abs(), tsk)
      modifies ring, sysbuff, memory.pages, memory.ram
      ensures Valid() && Abs() == Stored(old(Abs())) && lists.ready == old(lists.ready)
      ensures read == Movable(old(ring.contents), task[tsk].remain)
    {
      hide Heap, Delimits, StoreBytes, Window, MemShaped, HeadsReady, Wake;
      ghost var s := Abs();
      read := ring.GetCharacter(sysbuff, task[tsk].remain);
      memory.ShowFrames(task[tsk].frames);
      memory.CopyToUser(sysbuff, task[tsk].buff + task[tsk].offset, task[tsk].remain);
      memory.ShowFrames(task[current].frames);
      assert task[..] == s.task && sems[..] == s.sems;
      assert Abs() == Stored(s);
    }

    /** The branch for a full ring: it looks empty, so no character moves and nothing changes. */
    method FlushFull(tsk: int)
      requires Valid() && |ring.contents| == CIRC_BUFF_SIZE && 0 <= tsk < NR_TASKS
      requires 0 <= task[tsk].buff + task[tsk].offset <= NUM_PAG_DATA * PAGE_SIZE
      requires WindowShows(memory.pages[..], task[current].frames)
      modifies task, memory.pages, memory.ram, ring, sysbuff
      ensures Valid() && Abs() == old(Abs())
    {
      hide Heap, Delimits, WindowShows, MemShaped;
      ghost var s := Abs();
      var read := MoveFromFull(tsk);
      task[tsk] := task[tsk].(remain := task[tsk].remain - read, offset := task[tsk].offset + read);
      assert task[..] == s.task;
    }

    /** Its moves, of which nothing is left to see. */
    method MoveFromFull(tsk: int) returns (read: int)
      requires Valid() && |ring.contents| == CIRC_BUFF_SIZE && 0 <= tsk < NR_TASKS
      requires 0 <= task[tsk].buff + task[tsk].offset <= NUM_PAG_DATA * PAGE_SIZE
      requires WindowShows(memory.pages[..], task[current].frames)
      modifies memory.pages, memory.ram, ring, sysbuff
      ensures Valid() && Abs() == old(Abs()) && read == 0
    {
      hide Heap, Delimits, Window, MemShaped, WindowShows, StoreBytes, Movable, HeadsReady;
      ghost var s, t := Abs(), task[tsk];
      WindowBack(s.mem.pages, t.frames, s.task[current].frames);
      NothingStored(s.mem, t.frames, t.buff + t.offset);
      memory.ShowFrames(task[tsk].frames);
      var size := ring.GetSize();
      read := ring.GetCharacter(sysbuff, size);
      NothingMoved(s.ring, s.sysbuff, size);
      memory.CopyToUser(sysbuff, task[tsk].buff + task[tsk].offset, read);
      memory.ShowFrames(task[current].frames);
      assert task[..] == s.task && sems[..] == s.sems;
      assert memory.Value() == s.mem && sysbuff[..] == s.sysbuff && ring.contents == s.ring;
    }

    /** keyboard_routine from the translated character on. */
    method KeyboardRoutine(c: Byte)
      requires Valid() && Inv(Abs())
      modifies Repr()
      ensures old(Abs()).queues[KBDQ] != [] ==> WishOk(old(Abs()), First(old(Abs()), KBDQ))
      ensures Valid() && Abs() == KeyPress(old(Abs()), c)
    {
      hide Inv, Core, Heap, Delimits, Delivered, MemShaped;
      ghost var s := Abs();
      KeyFacts(s, c);
      var full := ring.IsFull();
      if !full {
        var code := ring.SaveCharacter(c);
      }
      ghost var s1 := Abs();
      assert s1 == s.(ring := RingSaved(s.ring, c));
      var empty := lists.Empty(KBDQ);
      if !empty {
        var tsk := lists.FirstOf(KBDQ);
        var size := ring.GetSize();
        if size == task[tsk].remain {
          Deliver(tsk);
        }
        full := ring.IsFull();
        if full {
          FlushFull(tsk);
        }
      }
    }

    /** The running task stores a byte in its data. */
    method StoreUser(a: int, b: Byte)
      requires Valid() && 0 <= a < NUM_PAG_DATA * PAGE_SIZE
      modifies Repr()
      ensures Valid() && Abs() == UserStore(old(Abs()), a, b)
    {
      PageOf(a);
      memory.StoreUser(a, b);
      assert Abs() == UserStore(old(Abs()), a, b);
    }

    // ---------- sys.c: fork ----------

    /** The head of freequeue taken out, or -1. */
    method GetNewTaskStruct() returns (tsk: int)
      requires Valid()
      modifies Repr()
      ensures Valid()
      ensures old(lists.queues)[FREEQ] == [] ==> tsk == -1 && Abs() == old(Abs())
      ensures old(lists.queues)[FREEQ] != [] ==> tsk == First(old(Abs()), FREEQ) && 0 <= tsk < NR_TASKS
      ensures old(lists.queues)[FREEQ] != [] ==>
              Abs() == old(Abs()).(queues := old(lists.queues)[FREEQ := old(lists.queues)[FREEQ][1..]])
      ensures old(lists.queues)[FREEQ] != [] ==> forall k :: 0 <= k < NR_QUEUES ==> tsk !in lists.queues[k]
    {
      hide Heap, Delimits, MemShaped;
      var empty := lists.Empty(FREEQ);
      if empty { return -1; }
      tsk := lists.FirstOf(FREEQ);
      lists.Del(tsk, FREEQ);
      return tsk;
    }

    /** sys_fork's copy of the whole task structure, list links included. */
    method CopyTaskStruct(child: int)
      requires Valid() && 0 <= child < NR_TASKS && forall k :: 0 <= k < NR_QUEUES ==> child !in lists.queues[k]
      modifies task, lists.next, lists.prev
      ensures Valid() && Abs() == old(Abs()).(task := old(task[..])[child := old(task[current])])
    {
      hide Heap, Delimits, MemShaped, HeadsReady;
      task[child] := task[current];
      lists.CopyLinks(current, child);
    }

    /** sys_fork's loop: for every data page a frame, mapped behind the parent's pages, filled, unmapped. */
    method CopyDataPages(child: int) returns (ok: bool)
      requires Valid() && 0 <= child < NR_TASKS && FramesInRange(Abs(), child)
      modifies Repr()
      ensures Valid()
      ensures var s := old(Abs());
        var copy := CopyPages(s.mem, s.task[child].frames, NUM_PAG_DATA);
        && ok == copy.ok && lists.ready == old(lists.ready)
        && Abs() == s.(mem := copy.mem, task := s.task[child := s.task[child].(frames := copy.frames)])
    {
      hide Heap, Delimits, CopyPages, FirstFree, MemShaped, CleanedUp, HeadsReady;
      ghost var s := Abs();
      CopyStart(s, child);
      var i := 0;
      while i < NUM_PAG_DATA
        modifies task, memory.phys, memory.pages, memory.ram
        invariant 0 <= i <= NUM_PAG_DATA && memory.Valid() && CopyPages(s.mem, s.task[child].frames, i).ok
        invariant memory.Value() == CopiedSoFar(s, child, i).mem && task[..] == CopiedSoFar(s, child, i).task
      {
        CopyRounds(s.mem, s.task[child].frames, i);
        CopyInRange(s.mem, s.task[child].frames, i);
        var f := memory.AllocFrame();
        if f == -1 {
          CleanUp(child, i);
          CopyFailed(s, child, i);
          assert Abs() == CopiedSoFar(s, child, i + 1);
          return false;
        }
        CopyDataPage(child, i, f);
        i := i + 1;
      }
      assert Abs() == CopiedSoFar(s, child, i);
      return true;
    }

    /** One data page copied into frame f, through the page behind it. */
    method CopyDataPage(child: int, i: nat, f: int)
      requires memory.Valid() && task.Length == NR_TASKS && 0 <= child < NR_TASKS
      requires i < |task[child].frames| == NUM_PAG_DATA
      modifies task, memory.pages, memory.ram
      ensures memory.Valid()
      ensures task[..] == old(task[..])[child := old(task[child]).(frames := old(task[child]).frames[i := f])]
      ensures var mapped := old(memory.Value()).(pages := old(memory.pages[..])[TEMP_PAGE + i := Maps(f)]);
        var copied := PageCopied(mapped, DATA_PAGE + i, TEMP_PAGE + i);
        memory.Value() == copied.(pages := copied.pages[TEMP_PAGE + i := Absent])
    {
      hide Heap, Delimits, MemShaped, PageCopied, FrameAt, Valid;
      ThroughTemp(i, f);
      task[child] := task[child].(frames := task[child].frames[i := f]);
    }

    /** The page behind the data pages mapped, filled and unmapped again. */
    method ThroughTemp(i: nat, f: int)
      requires memory.Valid() && i < NUM_PAG_DATA
      modifies memory.pages, memory.ram
      ensures memory.Valid()
      ensures var mapped := old(memory.Value()).(pages := old(memory.pages[..])[TEMP_PAGE + i := Maps(f)]);
        var copied := PageCopied(mapped, DATA_PAGE + i, TEMP_PAGE + i);
        memory.Value() == copied.(pages := copied.pages[TEMP_PAGE + i := Absent])
    {
      hide Heap, Delimits, MemShaped, PageCopied, FrameAt, Valid;
      ghost var m := memory.Value();
      PageSet(m, TEMP_PAGE + i, f);
      memory.SetPage(TEMP_PAGE + i, f);
      assert memory.Value() == m.(pages := m.pages[TEMP_PAGE + i := Maps(f)]);
      memory.CopyPage(DATA_PAGE + i, TEMP_PAGE + i);
      PageSet(memory.Value(), TEMP_PAGE + i, f);
      memory.DelPage(TEMP_PAGE + i);
    }

    /** The clean-up loop of a failed fork. */
    method CleanUp(child: int, i: int)
      requires memory.Valid() && task.Length == NR_TASKS && 0 <= child < NR_TASKS && i < |task[child].frames|
      requires forall j :: 0 <= j < |task[child].frames| ==> 0 <= task[child].frames[j] < TOTAL_PAGES
      modifies memory.phys
      ensures memory.Valid() && memory.phys[..] == CleanedUp(old(memory.phys[..]), task[child].frames, i)
    {
      hide Heap, Delimits;
      var j := i;
      while j >= 0
        invariant j <= i && memory.Valid()
        invariant CleanedUp(memory.phys[..], task[child].frames, j) == CleanedUp(old(memory.phys[..]),
                task[child].frames, i)
        decreases j
      {
        memory.FreeFrame(task[child].frames[j]);
        j := j - 1;
      }
    }

    method SysFork() returns (r: Outcome)
      requires Valid() && Inv(Abs())
      modifies Repr()
      ensures Valid() && (Abs(), r) == Fork(old(Abs()))
    {
      hide Inv, Core, Heap, Delimits, CopyPages, MemShaped, FramesInRange;
      ghost var s := Abs();
      InvParts(s);
      RunningFrames(s);
      var child := GetNewTaskStruct();
      if child == -1 { return Returned(-EAGAIN); }
      CopyTaskStruct(child);
      assert Abs() == ForkStart(s);
      StartFrames(s);
      var ok := CopyDataPages(child);
      if !ok { return Returned(-ENOMEM); }
      StartChild(child);
      assert Abs() == Fork(s).0;
      return Returned(task[child].pid);
    }

    /** The rest of sys_fork: the child's pid, quantum, statistics and result, and its place at the front
        of runqueue. */
    method StartChild(child: int)
      requires Valid() && 0 <= child < NR_TASKS && forall k :: 0 <= k < NR_QUEUES ==> child !in lists.queues[k]
      modifies Repr()
      ensures Valid() && Abs() == Started(old(Abs()), child)
    {
      hide Heap, Delimits, MemShaped;
      pidCounter := pidCounter + 1;
      task[child] := task[child].(pid := pidCounter);
      task[child] := task[child].(quantum := task[current].quantum, tics := 0, cs := 0);
      task[child] := task[child].(remainingQuantum := task[child].quantum);
      task[child] := task[child].(eax := 0);
      lists.Add(child, RUNQ);
      assert Abs() == Started(old(Abs()), child);
    }

    // ---------- sys.c: exit ----------

    /** sys_exit's first loop. */
    method ReleasePages(tsk: int)
      requires Valid() && 0 <= tsk < NR_TASKS && FramesInRange(Abs(), tsk)
      modifies Repr()
      ensures Valid() && lists.ready == old(lists.ready)
      ensures var s := old(Abs());
        Abs() == s.(mem := s.mem.(pages := TempClosed(s.mem.pages),
          phys := Freed(s.mem.phys, s.task[tsk].frames, NUM_PAG_DATA)))
    {
      hide Heap, Delimits, Freed, HeadsReady, TempClosed, Closed;
      ghost var s := Abs();
      var lpag := CODE_PAGE + NUM_PAG_CODE + NUM_PAG_DATA;
      ClosedNext(s.mem.pages, 0);
      FreedNext(s.mem.phys, s.task[tsk].frames, 0);
      var i := 0;
      while i < NUM_PAG_DATA
        modifies memory.pages, memory.phys
        invariant 0 <= i <= NUM_PAG_DATA && memory.Valid()
        invariant memory.pages[..] == Closed(s.mem.pages, i)
        invariant memory.phys[..] == Freed(s.mem.phys, s.task[tsk].frames, i)
      {
        ClosedNext(s.mem.pages, i);
        FreedNext(s.mem.phys, s.task[tsk].frames, i);
        memory.DelPage(lpag + i);
        memory.FreeFrame(task[tsk].frames[i]);
        i := i + 1;
      }
      assert Abs() == s.(mem := s.mem.(pages := TempClosed(s.mem.pages),
        phys := Freed(s.mem.phys, s.task[tsk].frames, NUM_PAG_DATA)));
    }

    /** sys_exit's loop over the semaphores. */
    method DestroyOwnedSems(tsk: int)
      requires Valid() && tsk == current && task[tsk].pid != FREE_SEM
      modifies Repr()
      ensures Valid() && Abs() == DestroyOwned(old(Abs()), old(task[tsk].pid), NR_SEM)
    {
      hide Heap, Delimits, Destroyed, DestroyOwned, MemShaped;
      ghost var s, pid := Abs(), task[tsk].pid;
      OwnedNone(s, pid);
      var i := 0;
      while i < NR_SEM
        invariant 0 <= i <= NR_SEM && Valid() && Abs() == DestroyOwned(s, pid, i)
      {
        OwnedNext(s, pid, i);
        if sems[i].owner == task[tsk].pid {
          var r := SysSemDestroy(i);
        }
        i := i + 1;
      }
    }

    method FreeTaskStruct(tsk: int)
      requires Valid() && 0 <= tsk < NR_TASKS && forall k :: 0 <= k < NR_QUEUES ==> tsk !in lists.queues[k]
      modifies Repr()
      ensures Valid()
      ensures Abs() == old(Abs()).(task := old(task[..])[tsk := old(task[tsk]).(pid := NULL_PID)],
                                   queues := old(lists.queues)[FREEQ := [tsk] + old(lists.queues)[FREEQ]])
    {
      hide Heap, Delimits, MemShaped;
      task[tsk] := task[tsk].(pid := NULL_PID);
      lists.Add(tsk, FREEQ);
    }

    method SysExit() returns (r: Outcome)
      requires Valid() && Inv(Abs())
      modifies Repr()
      ensures FramesInRange(old(Abs()), old(current))
      ensures old(task[current].pid) != 0 ==> Removed(old(Abs())).queues[RUNQ] != []
      ensures Valid() && (Abs(), r) == Exit(old(Abs()))
    {
      hide Inv, Core, Heap, Delimits, MemShaped, FramesInRange, DestroyOwned, Freed, Dispatch;
      ghost var s := Abs();
      InvParts(s);
      RunningFrames(s);
      ExitReady(s);
      var tsk := current;
      if task[tsk].pid == 0 { return Returned(0); }
      ReleasePages(tsk);
      ghost var s1 := Abs();
      DestroyOwnedSems(tsk);
      OwnedKeeps(s1, s1.task[tsk].pid, NR_SEM);
      lists.Del(tsk, RUNQ);
      FreeTaskStruct(tsk);
      assert Abs() == Removed(s);
      var next := SchedSelectNext();
      SchedContinue(next);
      return NoResult;
    }

    // ---------- whole runs ----------

    /** One entry into the kernel is one step of the state machine. */
    method Enter(e: Event) returns (r: Outcome)
      requires Valid() && Inv(Abs()) && Possible(e)
      modifies Repr()
      ensures Valid() && Inv(Abs()) && (Abs(), r) == Step(old(Abs()), e)
    {
      hide Inv, Core, Heap, Delimits, MemShaped, Tick, Fork, Exit, Nice, SemInit, SemWait, SemSignal, SemDestroy,
        ReadKeyboard, KeyPress, UserStore, Valid;
      StepKeeps(Abs(), e);
      InvParts(Abs());
      r := NoResult;
      match e {
        case ClockTick => Sched();
        case ForkCall => r := SysFork();
        case ExitCall => r := SysExit();
        case NiceCall(q) => r := SysNice(q);
        case InitCall(n, v) => r := SysSemInit(n, v);
        case WaitCall(n) => r := SysSemWait(n);
        case SignalCall(n) => r := SysSemSignal(n);
        case DestroyCall(n) => r := SysSemDestroy(n);
        case ReadCall(buff, size) => r := SysReadKeyboard(buff, size);
        case KeyStroke(c) => KeyboardRoutine(c);
        case Store(a, b) => StoreUser(a, b);
      }
    }

    /** Any run of entries. */
    method Execute(es: seq<Event>)
      requires Valid() && Inv(Abs()) && PossibleRun(es)
      modifies Repr()
      ensures Valid() && Inv(Abs()) && Abs() == Run(old(Abs()), es)
    {
      hide Inv, Step, Shaped, Valid;
      ghost var s := Abs();
      var i := 0;
      while i < |es|
        invariant 0 <= i <= |es| && Valid() && Inv(Abs()) && PossibleRun(es[..i]) && Abs() == Run(s, es[..i])
      {
        assert es[..i + 1][..i] == es[..i];
        RunLast(s, es[..i + 1]);
        var r := Enter(es[i]);
        i := i + 1;
      }
      assert es[..i] == es;
    }
  }

  /** Booting and then running any entries, whatever memory held: the state is the one of the model. */
  method BootAndRun(contents: seq<seq<Byte>>, buffer: seq<Byte>, es: seq<Event>) returns (k: Kernel)
    requires BootInput(contents, buffer) && PossibleRun(es)
    ensures k.Valid() && Inv(Boot(contents, buffer)) && k.Abs() == Run(Boot(contents, buffer), es)
  {
    hide Inv, Step, Shaped, Boot;
    k := new Kernel.Loaded(contents, buffer);
    k.Start();
    k.Execute(es);
  }
}
