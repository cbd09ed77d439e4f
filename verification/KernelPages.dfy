/** The page table in every reachable state: boot's, with the running task's data in the window.  So no
    task can reach data that is not its own. */
module KernelPages {
  import opened KernelTypes
  import opened MemorySpec
  import opened KernelSpec
  import opened KernelInv
  import opened KernelSteps
  import opened KernelProcesses
  import opened KernelMachine
  import opened KernelBoot

  ghost predicate PagesExact(s: KState)
    requires Shaped(s)
  {
    s.mem.pages == Window(BootPages(), s.task[s.current].frames)
  }

  lemma WindowTwice(pages: seq<Entry>, f: seq<int>, g: seq<int>)
    requires |f| == |g| == NUM_PAG_DATA
    ensures Window(Window(pages, f), g) == Window(pages, g)
  {
  }

  /** Wherever the window was, a dispatch sets it to the task dispatched. */
  lemma DispatchPages(s: KState, f: seq<int>)
    requires Shaped(s) && s.queues[RUNQ] != [] && |f| == NUM_PAG_DATA && s.mem.pages == Window(BootPages(), f)
    ensures PagesExact(Dispatch(s))
  {
    WindowTwice(BootPages(), f, s.task[First(s, RUNQ)].frames);
  }

  lemma TickPages(s: KState)
    requires Inv(s) && PagesExact(s)
    ensures PagesExact(Tick(s))
  {
    hide Inv, Window, BootPages;
    InvShape(s);
    var s1 := Ticked(s);
    if s1.roundtics == 0 {
      DispatchPages(Pause(s1), s.task[s.current].frames);
    }
  }

  lemma ForkPages(s: KState)
    requires Inv(s) && PagesExact(s)
    ensures PagesExact(Fork(s).0)
  {
    hide Core, CurrentOk, Fork, CountFree, Window, BootPages;
    InvShape(s);
    if s.queues[FREEQ] == [] {
      ForkNone(s);
    } else {
      ForkShape(s);
    }
  }

  lemma ExitPages(s: KState)
    requires Inv(s) && PagesExact(s)
    ensures FramesInRange(s, s.current) && (s.task[s.current].pid != 0 ==> Removed(s).queues[RUNQ] != [])
    ensures PagesExact(Exit(s).0)
  {
    TempStays(s);
    hide Core, CurrentOk, Removed, DestroyOwned, Window, BootPages, TempClosed;
    InvParts(s);
    ExitReady(s);
    RemovedIsSlotFreed(s);
    if s.task[s.current].pid != 0 {
      DispatchPages(Removed(s), s.task[s.current].frames);
    }
  }

  /** fork's copying window is closed between entries. */
  lemma TempStays(s: KState)
    requires Inv(s)
    ensures TempClosed(s.mem.pages) == s.mem.pages
  {
  }

  lemma KeyPages(s: KState, c: Byte)
    requires Inv(s) && PagesExact(s) && (s.queues[KBDQ] != [] ==> WishOk(s, First(s, KBDQ)))
    ensures PagesExact(KeyPress(s, c))
  {
    InvWindow(s);
    hide Inv, Core, Window, BootPages, StoreBytes;
    InvShape(s);
    var s1 := s.(ring := RingSaved(s.ring, c));
    if Deliverable(s1) {
      StoredPages(s1);
    }
  }

  lemma BlockPages(s: KState, s0: KState, q: nat)
    requires Shaped(s) && Shaped(s0) && PagesExact(s) && s0.mem == s.mem && q < NR_QUEUES
    requires Block(s0, q).queues[RUNQ] != []
    ensures PagesExact(Dispatch(Block(s0, q)))
  {
    hide Window, BootPages;
    DispatchPages(Block(s0, q), s.task[s.current].frames);
  }

  lemma WaitPages(s: KState, n: int)
    requires Inv(s) && PagesExact(s)
    ensures WaitBlocks(s, n) ==> Block(s, SemQ(n)).queues[RUNQ] != []
    ensures PagesExact(SemWait(s, n).0)
  {
    hide Inv, Core, Window, BootPages, Dispatch, Block;
    InvShape(s);
    WaitReady(s, n);
    if WaitBlocks(s, n) {
      BlockPages(s, s, SemQ(n));
    }
  }

  lemma ReadPages(s: KState, buff: int, size: int)
    requires Inv(s) && PagesExact(s) && AccessOk(buff, size)
    ensures ReadBlocks(s, size) ==> ReadWaits(s, buff, size).queues[RUNQ] != []
    ensures PagesExact(ReadKeyboard(s, buff, size).0)
  {
    hide Inv, Core, Window, BootPages, Dispatch, Block, StoreBytes;
    InvShape(s);
    ReadReady(s, buff, size);
    if ReadBlocks(s, size) {
      BlockPages(s, Wishing(s, buff, size), KBDQ);
    }
  }

  /** Every entry point leaves the page table exact. */
  lemma StepPages(s: KState, e: Event)
    requires Inv(s) && Possible(e) && PagesExact(s)
    ensures PagesExact(Step(s, e).0)
  {
    hide Inv, Core, Window, BootPages, Tick, Fork, Exit, SemWait, ReadKeyboard, KeyPress;
    InvShape(s);
    match e
    case ClockTick => TickPages(s);
    case ForkCall => ForkPages(s);
    case ExitCall => ExitPages(s);
    case WaitCall(n) => WaitPages(s, n);
    case ReadCall(buff, size) => ReadPages(s, buff, size);
    case KeyStroke(c) => KeyReady(s); KeyPages(s, c);
    case _ =>
  }

  lemma {:induction false} RunPages(s: KState, es: seq<Event>)
    requires Inv(s) && PossibleRun(es) && PagesExact(s)
    ensures PagesExact(Run(s, es))
    decreases |es|
  {
    hide Inv, Step, PagesExact;
    if es == [] {
      RunNone(s);
    } else {
      RunPages(s, es[..|es|-1]);
      RunLast(s, es);
      StepPages(Run(s, es[..|es|-1]), es[|es|-1]);
    }
  }

  /** What the page table holds, page by page: the kernel mapped to itself but for the guards, the user code
      behind it, the running task's data, and nothing else. */
  ghost predicate PageTable(s: KState)
    requires Shaped(s)
  {
    && (forall p :: 0 <= p < NUM_PAG_KERNEL ==> s.mem.pages[p] == if p in GUARDS then Absent else Maps(p))
    && (forall p :: CODE_PAGE <= p < DATA_PAGE ==> s.mem.pages[p] == Maps(NUM_PAG_KERNEL + p - CODE_PAGE))
    && (forall p :: DATA_PAGE <= p < TEMP_PAGE ==> s.mem.pages[p] == Maps(s.task[s.current].frames[p - DATA_PAGE]))
    && forall p :: NUM_PAG_KERNEL <= p < CODE_PAGE || TEMP_PAGE <= p < TOTAL_PAGES ==> s.mem.pages[p] == Absent
  }

  lemma ExactTable(s: KState)
    requires Shaped(s) && PagesExact(s)
    ensures PageTable(s)
  {
    hide BootFrames;
  }

  /** In every reachable state the page table is boot's with the running task's frames in the window. */
  lemma ReachablePages(ram: seq<seq<Byte>>, sysbuff: seq<Byte>, es: seq<Event>)
    requires BootInput(ram, sysbuff) && PossibleRun(es)
    ensures Inv(Boot(ram, sysbuff)) && PagesExact(Run(Boot(ram, sysbuff), es))
    ensures PageTable(Run(Boot(ram, sysbuff), es))
  {
    hide Inv, PagesExact, PageTable, Boot;
    BootInv(ram, sysbuff);
    BootExact(ram, sysbuff);
    RunPages(Boot(ram, sysbuff), es);
    InvShape(Run(Boot(ram, sysbuff), es));
    ExactTable(Run(Boot(ram, sysbuff), es));
  }

  lemma BootExact(ram: seq<seq<Byte>>, sysbuff: seq<Byte>)
    requires BootInput(ram, sysbuff)
    ensures Shaped(Boot(ram, sysbuff)) && PagesExact(Boot(ram, sysbuff))
  {
    hide BootFrames;
    BootShaped(ram, sysbuff);
    assert Window(BootPages(), BootFrames()) == BootPages();
  }

  /** So a page shows a live task's data only if it is in the window and the task is running; what is
      neither kernel, code nor window faults. */
  lemma OnlyOwnData(s: KState, p: nat, t: int, i: nat)
    requires Inv(s) && PagesExact(s) && p < TOTAL_PAGES && Live(s, t) && i < NUM_PAG_DATA
    ensures s.mem.pages[p] == Maps(s.task[t].frames[i]) ==> t == s.current && p == DATA_PAGE + i
    ensures NUM_PAG_KERNEL <= p < CODE_PAGE || TEMP_PAGE <= p ==> s.mem.pages[p] == Absent
  {
    InvParts(s);
    RunnableFacts(s, s.current);
    LiveFrames(s, t);
    assert FrameGood(s.mem.phys, s.task[t].frames[i]);
    OneOwner(s, p, t, i);
  }

  lemma OneOwner(s: KState, p: nat, t: int, i: nat)
    requires Core(s) && Live(s, s.current) && Live(s, t) && i < NUM_PAG_DATA
    ensures DATA_PAGE <= p < TEMP_PAGE && s.task[s.current].frames[p - DATA_PAGE] == s.task[t].frames[i] ==>
              t == s.current && p == DATA_PAGE + i
  {
  }
}
