/** The kernel as a state machine over its entry points: every run keeps the invariant. */
module KernelMachine {
  import opened KernelTypes
  import opened MemorySpec
  import opened KernelSpec
  import opened KernelInv
  import opened KernelSteps
  import opened KernelProcesses

  datatype Event =
    | ClockTick
    | ForkCall
    | ExitCall
    | NiceCall(quantum: int)
    | InitCall(n: int, v: int)
    | WaitCall(n: int)
    | SignalCall(n: int)
    | DestroyCall(n: int)
    | ReadCall(buff: int, size: int)
    | KeyStroke(c: Byte)
    | Store(a: int, b: Byte)

  /** What the hardware, the C types and access_ok let through; a store elsewhere is a page fault, which
      ends in ExitCall. */
  predicate Possible(e: Event) {
    match e
    case NiceCall(q) => -0x8000_0000 <= q < 0x8000_0000
    case InitCall(_, v) => 0 <= v < 0x1_0000_0000
    case ReadCall(buff, size) => AccessOk(buff, size)
    case Store(a, _) => 0 <= a < NUM_PAG_DATA * PAGE_SIZE
    case _ => true
  }

  // ---------- where blocking is possible ----------

  /** A task with a pid other than 0 is not task 0, so the queue it leaves behind is not empty. */
  lemma WaitReady(s: KState, n: int)
    requires Inv(s)
    ensures WaitBlocks(s, n) ==> Core(Block(s, SemQ(n))) && Block(s, SemQ(n)).queues[RUNQ] != []
  {
    if WaitBlocks(s, n) {
      BlockKeeps(s, SemQ(n));
    }
  }

  lemma ReadReady(s: KState, buff: int, size: int)
    requires Inv(s) && AccessOk(buff, size)
    ensures ReadBlocks(s, size) ==> Core(ReadWaits(s, buff, size)) && ReadWaits(s, buff, size).queues[RUNQ] != []
  {
    if ReadBlocks(s, size) {
      WishNoted(s, buff, size);
      BlockKeeps(Wishing(s, buff, size), KBDQ);
    }
  }

  function Wishing(s: KState, buff: int, size: int): (s': KState)
    requires Shaped(s)
    ensures Shaped(s')
  {
    s.(task := s.task[s.current := s.task[s.current].(offset := 0, remain := size, buff := buff)])
  }

  lemma WishNoted(s: KState, buff: int, size: int)
    requires Inv(s)
    ensures Core(Wishing(s, buff, size))
  {
    var s' := Wishing(s, buff, size);
    QuietKeeps(s, s');
    SemsSame(s, s');
    assert s.current !in s.queues[KBDQ];
    hide FramesOwned, PidsOk, QuantaOk, SemsOk;
    QuietCore(s, s');
  }

  lemma ExitReady(s: KState)
    requires Inv(s)
    ensures FramesInRange(s, s.current)
    ensures s.task[s.current].pid != 0 ==> Removed(s).queues[RUNQ] != []
  {
    InvParts(s);
    RunningFrames(s);
    if s.task[s.current].pid != 0 {
      ExitKeeps(s);
    }
  }

  lemma KeyReady(s: KState)
    requires Inv(s)
    ensures s.queues[KBDQ] != [] ==> WishOk(s, First(s, KBDQ))
  {
  }

  // ---------- the step ----------

  function Step(s: KState, e: Event): (r: (KState, Outcome))
    requires Inv(s) && Possible(e)
    ensures Shaped(r.0)
  {
    match e
    case ClockTick => (Tick(s), NoResult)
    case ForkCall => Fork(s)
    case ExitCall => ExitReady(s); Exit(s)
    case NiceCall(q) => Nice(s, q)
    case InitCall(n, v) => SemInit(s, n, v)
    case WaitCall(n) => WaitReady(s, n); SemWait(s, n)
    case SignalCall(n) => SemSignal(s, n)
    case DestroyCall(n) => SemDestroy(s, n)
    case ReadCall(buff, size) => ReadReady(s, buff, size); ReadKeyboard(s, buff, size)
    case KeyStroke(c) => KeyReady(s); (KeyPress(s, c), NoResult)
    case Store(a, b) => (UserStore(s, a, b), NoResult)
  }

  // ---------- every step keeps the invariant ----------

  lemma TickKeeps(s: KState)
    requires Inv(s)
    ensures Inv(Tick(s))
  {
    var s1 := Ticked(s);
    TickedKeeps(s);
    if s1.roundtics == 0 {
      hide Core;
      InvShape(s);
      PauseKeeps(s1);
      DispatchKeeps(Pause(s1));
    }
  }

  lemma NiceKeeps(s: KState, q: int)
    requires Inv(s)
    ensures Inv(Nice(s, q).0)
  {
    var s' := Nice(s, q).0;
    QuietKeeps(s, s');
    QuietFrames(s, s');
    SemsSame(s, s');
    hide FramesOwned, PidsOk, SemsOk;
  }

  /** A change of one semaphore's owner and value, its queue being empty. */
  lemma SemChanged(s: KState, n: nat, x: Sem)
    requires Inv(s) && n < NR_SEM && s.queues[SemQ(n)] == [] && (x.owner != FREE_SEM ==> PidLive(s, x.owner))
    ensures Inv(s.(sems := s.sems[n := x]))
  {
    var s' := s.(sems := s.sems[n := x]);
    QuietKeeps(s, s');
    forall m | 0 <= m < NR_SEM ensures SemOk(s', m) {
      assert SemOk(s, m);
    }
    hide FramesOwned, PidsOk, QuantaOk, StatesOk;
    QuietCore(s, s');
  }

  lemma SemInitKeeps(s: KState, n: int, v: int)
    requires Inv(s)
    ensures Inv(SemInit(s, n, v).0)
  {
    if SemIndex(n) && s.sems[n].owner == FREE_SEM {
      assert SemOk(s, n);
      RunnableFacts(s, s.current);
      assert PidLive(s, s.task[s.current].pid);
      SemChanged(s, n, Sem(s.task[s.current].pid, ToInt32(v)));
      assert s.queues[SemQ(n) := []] == s.queues;
    }
  }

  lemma UnitTaken(s: KState, n: nat)
    requires Inv(s) && n < NR_SEM && s.sems[n].owner != FREE_SEM && s.sems[n].value > 0
    ensures Inv(s.(sems := s.sems[n := s.sems[n].(value := s.sems[n].value - 1)]))
  {
    assert SemOk(s, n);
    hide Core;
    SemChanged(s, n, s.sems[n].(value := s.sems[n].value - 1));
  }

  lemma SemWaitKeeps(s: KState, n: int)
    requires Inv(s)
    ensures WaitBlocks(s, n) ==> Block(s, SemQ(n)).queues[RUNQ] != []
    ensures Inv(SemWait(s, n).0)
  {
    hide Core, CurrentOk, Block, Dispatch, SemOk;
    InvShape(s);
    WaitReady(s, n);
    if WaitBlocks(s, n) {
      DispatchKeeps(Block(s, SemQ(n)));
    } else if SemIndex(n) && s.sems[n].owner != FREE_SEM && s.task[s.current].pid != 0 {
      UnitTaken(s, n);
    }
  }

  /** Waking somebody else does not disturb the running task. */
  lemma WakeCurrent(s: KState, t: int, q: nat, eax: int)
    requires Inv(s) && KBDQ <= q < NR_QUEUES && t in s.queues[q]
    ensures Inv(Wake(s, t, q, eax)) && t != s.current
  {
    WakeKeeps(s, t, q, eax);
  }

  lemma SemSignalKeeps(s: KState, n: int)
    requires Inv(s)
    ensures Inv(SemSignal(s, n).0)
  {
    hide Core, CurrentOk, SemOk, Wake;
    InvShape(s);
    if SemIndex(n) && s.sems[n].owner != FREE_SEM {
      SemOwner(s, n);
      if s.queues[SemQ(n)] == [] {
        SemChanged(s, n, s.sems[n].(value := s.sems[n].value + 1));
      } else {
        WakeCurrent(s, First(s, SemQ(n)), SemQ(n), 0);
      }
    }
  }

  lemma SemOwner(s: KState, n: nat)
    requires Inv(s) && n < NR_SEM
    ensures SemOk(s, n)
    ensures s.sems[n].owner != FREE_SEM ==> PidLive(s, s.sems[n].owner)
  {
    assert SemOk(s, n);
  }

  lemma SemDestroyKeeps(s: KState, n: int)
    requires Inv(s)
    ensures Inv(SemDestroy(s, n).0)
  {
    if SemIndex(n) && s.sems[n].owner != FREE_SEM && s.task[s.current].pid == s.sems[n].owner {
      DestroyedKeeps(s, n);
      assert s.current !in s.queues[SemQ(n)];
    }
  }

  lemma ReadKeeps(s: KState, buff: int, size: int)
    requires Inv(s) && AccessOk(buff, size)
    ensures ReadBlocks(s, size) ==> ReadWaits(s, buff, size).queues[RUNQ] != []
    ensures Inv(ReadKeyboard(s, buff, size).0)
  {
    ReadReady(s, buff, size);
    if ReadBlocks(s, size) {
      DispatchKeeps(ReadWaits(s, buff, size));
    } else {
      BytesKeep(s, ReadKeyboard(s, buff, size).0);
    }
  }

  /** The state of a delivery before the reader is woken. */
  function Stored(s: KState): (s': KState)
    requires Shaped(s) && Deliverable(s) && WishOk(s, First(s, KBDQ))
    ensures Shaped(s') && s'.task == s.task && s'.queues == s.queues && s'.sems == s.sems && s'.current == s.current
    ensures s'.pidCounter == s.pidCounter && s'.roundtics == s.roundtics && s'.mem.phys == s.mem.phys
    ensures Delivered(s) == Wake(s', First(s, KBDQ), KBDQ,
            s.task[First(s, KBDQ)].offset + Movable(s.ring, s.task[First(s, KBDQ)].remain))
  {
    var r := s.task[First(s, KBDQ)];
    var n, sysbuff := Movable(s.ring, r.remain), Fetched(s.sysbuff, s.ring, r.remain);
    var stored := StoreBytes(s.mem.(pages := Window(s.mem.pages, r.frames)), r.buff + r.offset, sysbuff[..r.remain]);
    s.(ring := s.ring[n..], sysbuff := sysbuff, mem := stored.(pages := Window(stored.pages, s.task[s.current].frames)))
  }

  /** Lending the window to the reader and taking it back leaves the page table as it was. */
  lemma StoredPages(s: KState)
    requires Shaped(s) && Deliverable(s) && WishOk(s, First(s, KBDQ))
    requires WindowShows(s.mem.pages, s.task[s.current].frames)
    ensures Stored(s).mem.pages == s.mem.pages
  {
    WindowBack(s.mem.pages, s.task[First(s, KBDQ)].frames, s.task[s.current].frames);
  }

  lemma WindowBack(pages: seq<Entry>, f: seq<int>, g: seq<int>)
    requires WindowShows(pages, g) && |f| == NUM_PAG_DATA
    ensures Window(Window(pages, f), g) == pages
  {
    forall p | 0 <= p < TOTAL_PAGES ensures Window(Window(pages, f), g)[p] == pages[p] {
      if DATA_PAGE <= p < TEMP_PAGE {
        assert pages[DATA_PAGE + (p - DATA_PAGE)] == Maps(g[p - DATA_PAGE]);
      }
    }
  }

  lemma KeyPressKeeps(s: KState, c: Byte)
    requires Inv(s) && (s.queues[KBDQ] != [] ==> WishOk(s, First(s, KBDQ)))
    ensures Inv(KeyPress(s, c))
  {
    hide Core, CurrentOk, Stored, Wake, Movable, WishOk, WindowShows;
    InvShape(s);
    SavedKeeps(s, c);
    var s1 := s.(ring := RingSaved(s.ring, c));
    if Deliverable(s1) {
      InvWindow(s1);
      WishUnmoved(s, s1, First(s, KBDQ));
      StoredPages(s1);
      StoredKeeps(s1);
      WakeCurrent(Stored(s1), First(s1, KBDQ), KBDQ,
                  s1.task[First(s1, KBDQ)].offset + Movable(s1.ring, s1.task[First(s1, KBDQ)].remain));
    }
  }

  lemma WishUnmoved(s: KState, s': KState, t: int)
    requires Shaped(s) && Shaped(s') && s'.task == s.task && 0 <= t < NR_TASKS
    ensures WishOk(s, t) <==> WishOk(s', t)
  {
  }

  lemma InvWindow(s: KState)
    requires Inv(s)
    ensures Shaped(s) && WindowShows(s.mem.pages, s.task[s.current].frames)
  {
  }

  lemma SavedKeeps(s: KState, c: Byte)
    requires Inv(s)
    ensures Shaped(s.(ring := RingSaved(s.ring, c))) && Inv(s.(ring := RingSaved(s.ring, c)))
  {
    BytesKeep(s, s.(ring := RingSaved(s.ring, c)));
  }

  lemma StoredKeeps(s: KState)
    requires Inv(s) && Deliverable(s) && WishOk(s, First(s, KBDQ)) && Stored(s).mem.pages == s.mem.pages
    ensures Inv(Stored(s))
  {
    hide Stored;
    BytesKeep(s, Stored(s));
  }

  lemma StoreKeeps(s: KState, a: int, b: Byte)
    requires Inv(s) && 0 <= a < NUM_PAG_DATA * PAGE_SIZE
    ensures Inv(UserStore(s, a, b))
  {
    BytesKeep(s, UserStore(s, a, b));
  }

  /** Every entry point keeps the invariant. */
  lemma StepKeeps(s: KState, e: Event)
    requires Inv(s) && Possible(e)
    ensures Inv(Step(s, e).0)
  {
    hide Inv;
    match e
    case ClockTick => TickKeeps(s);
    case ForkCall => ForkStays(s);
    case ExitCall => ExitStays(s);
    case NiceCall(q) => NiceKeeps(s, q);
    case InitCall(n, v) => SemInitKeeps(s, n, v);
    case WaitCall(n) => SemWaitKeeps(s, n);
    case SignalCall(n) => SemSignalKeeps(s, n);
    case DestroyCall(n) => SemDestroyKeeps(s, n);
    case ReadCall(buff, size) => ReadKeeps(s, buff, size);
    case KeyStroke(c) => KeyReady(s); KeyPressKeeps(s, c);
    case Store(a, b) => StoreKeeps(s, a, b);
  }

  lemma ForkStays(s: KState)
    requires Inv(s)
    ensures Inv(Fork(s).0)
  {
    hide Core, CurrentOk;
    InvShape(s);
    if s.queues[FREEQ] != [] {
      ForkKeeps(s);
    }
  }

  lemma ExitStays(s: KState)
    requires Inv(s)
    ensures FramesInRange(s, s.current) && (s.task[s.current].pid != 0 ==> Removed(s).queues[RUNQ] != [])
    ensures Inv(Exit(s).0)
  {
    hide Core, CurrentOk;
    InvShape(s);
    ExitReady(s);
    if s.task[s.current].pid != 0 {
      ExitKeeps(s);
    }
  }

  // ---------- runs ----------

  ghost predicate PossibleRun(es: seq<Event>) {
    forall i :: 0 <= i < |es| ==> Possible(es[i])
  }

  /** The state after a run of events. */
  function Run(s: KState, es: seq<Event>): (s': KState)
    requires Inv(s) && PossibleRun(es)
    ensures Inv(s')
    decreases |es|
  {
    if es == [] then s
    else
      var n := |es| - 1;
      StepKeeps(Run(s, es[..n]), es[n]);
      Step(Run(s, es[..n]), es[n]).0
  }

  lemma RunNone(s: KState)
    requires Inv(s)
    ensures PossibleRun([]) && Run(s, []) == s
  {
  }

  /** One run after another. */
  lemma {:induction false} RunConcat(s: KState, es: seq<Event>, fs: seq<Event>)
    requires Inv(s) && PossibleRun(es) && PossibleRun(fs)
    ensures PossibleRun(es + fs) && Run(s, es + fs) == Run(Run(s, es), fs)
    decreases |fs|
  {
    hide Inv, Step;
    if fs == [] {
      assert es + fs == es;
      RunNone(Run(s, es));
    } else {
      var n := |fs| - 1;
      RunConcat(s, es, fs[..n]);
      assert (es + fs)[..|es + fs| - 1] == es + fs[..n];
      RunLast(s, es + fs);
      RunLast(Run(s, es), fs);
    }
  }

  lemma RunPrefix(es: seq<Event>)
    requires PossibleRun(es) && es != []
    ensures PossibleRun(es[..|es|-1]) && Possible(es[|es|-1])
  {
  }

  lemma RunLast(s: KState, es: seq<Event>)
    requires Inv(s) && PossibleRun(es) && es != []
    ensures PossibleRun(es[..|es|-1]) && Possible(es[|es|-1])
    ensures Run(s, es) == Step(Run(s, es[..|es|-1]), es[|es|-1]).0
  {
    hide Inv, Step;
    RunPrefix(es);
  }
}
