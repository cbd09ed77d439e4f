/** Address spaces: what one event does to the data each task sees. */
module KernelIsolation {
  import opened Sequences
  import opened KernelTypes
  import opened MemorySpec
  import opened KernelSpec
  import opened KernelInv
  import opened KernelSteps
  import opened KernelProcesses
  import opened KernelMachine
  import opened KernelKeyboard

  /** The task's data pages and their contents are as they were. */
  ghost predicate ViewKept(s: KState, s': KState, t: int)
    requires Shaped(s) && Shaped(s') && 0 <= t < NR_TASKS && FramesInRange(s, t)
  {
    && s'.task[t].frames == s.task[t].frames
    && forall i :: 0 <= i < NUM_PAG_DATA ==> s'.mem.ram[s.task[t].frames[i]] == s.mem.ram[s.task[t].frames[i]]
  }

  ghost predicate RamKept(s: KState, s': KState)
    requires Shaped(s) && Shaped(s')
  {
    s'.mem.ram == s.mem.ram && forall t :: 0 <= t < NR_TASKS ==> s'.task[t].frames == s.task[t].frames
  }

  /** The one task an event may write data for: the storing task, a served reader; -1 for none. */
  function Target(s: KState, e: Event): (n: int)
    requires Shaped(s)
  {
    match e
    case Store(_, _) => s.current
    case ReadCall(_, size) => if s.task[s.current].pid != 0 && !ReadBlocks(s, size) then s.current else -1
    case KeyStroke(c) => if Deliverable(s.(ring := RingSaved(s.ring, c))) then First(s, KBDQ) else -1
    case _ => -1
  }

  lemma LiveInRange(s: KState, t: int)
    requires Core(s) && Live(s, t)
    ensures FramesInRange(s, t) && FramesOk(s.task[t].frames)
  {
    LiveFrames(s, t);
    assert forall i :: 0 <= i < NUM_PAG_DATA ==> FrameGood(s.mem.phys, s.task[t].frames[i]);
  }

  /** Live tasks share no frame. */
  lemma FramesApart(s: KState, t: int, u: int)
    requires Core(s) && Live(s, t) && Live(s, u) && t != u
    ensures forall i :: 0 <= i < NUM_PAG_DATA ==> s.task[t].frames[i] !in s.task[u].frames
  {
    hide PidsOk, QuantaOk, SemsOk, StatesOk, QueuesOk, WishesOk, PagesOk;
  }

  lemma TickRam(s: KState)
    requires Shaped(s)
    ensures RamKept(s, Tick(s))
  {
    hide Window, ToTail;
  }

  lemma WaitRam(s: KState, n: int)
    requires Inv(s)
    ensures WaitBlocks(s, n) ==> Block(s, SemQ(n)).queues[RUNQ] != []
    ensures RamKept(s, SemWait(s, n).0)
  {
    hide Inv, Core, Window, ToTail;
    InvShape(s);
    WaitReady(s, n);
  }

  lemma CallRam(s: KState, e: Event)
    requires Inv(s) && Possible(e)
    requires e.ClockTick? || e.NiceCall? || e.InitCall? || e.WaitCall? || e.SignalCall? || e.DestroyCall?
    ensures RamKept(s, Step(s, e).0)
  {
    hide Inv, Core, Tick, SemWait;
    InvShape(s);
    match e
    case ClockTick => TickRam(s);
    case WaitCall(n) => WaitRam(s, n);
    case _ =>
  }

  lemma ExitRam(s: KState)
    requires Inv(s)
    ensures RamKept(s, Step(s, ExitCall).0)
  {
    hide Core, CurrentOk, Removed, DestroyOwned;
    InvParts(s);
    ExitReady(s);
    if s.task[s.current].pid != 0 {
      RemovedIsSlotFreed(s);
    }
  }

  lemma StoreRam(s: KState, m: Mem, a: int, bytes: seq<Byte>, t: int, u: int)
    requires Core(s) && Live(s, t) && Live(s, u) && t != u && MemShaped(m) && m.ram == s.mem.ram
    requires WindowShows(m.pages, s.task[t].frames) && 0 <= a && a + |bytes| <= NUM_PAG_DATA * PAGE_SIZE
    ensures FramesInRange(s, u)
    ensures forall i :: 0 <= i < NUM_PAG_DATA ==>
      StoreBytes(m, a, bytes).ram[s.task[u].frames[i]] == s.mem.ram[s.task[u].frames[i]]
  {
    hide Core, StoreBytes, UserByte;
    CoreShaped(s);
    LiveInRange(s, t);
    LiveInRange(s, u);
    FramesApart(s, u, t);
    if bytes == [] {
      StoreNothing(m, a);
    } else {
      StoreBytesSeen(m, s.task[t].frames, a, bytes, a);
    }
  }

  lemma StoreNothing(m: Mem, a: nat)
    requires MemShaped(m) && a <= NUM_PAG_DATA * PAGE_SIZE
    ensures StoreBytes(m, a, []) == m
  {
  }

  lemma UserStoreKept(s: KState, a: int, b: Byte, t: int)
    requires Inv(s) && Possible(Store(a, b)) && Live(s, t) && t != s.current
    ensures FramesInRange(s, t) && ViewKept(s, UserStore(s, a, b), t)
  {
    hide Core, CurrentOk, StoreBytes;
    CurrentInRange(s);
    CurrentWindow(s);
    InvShape(s);
    StoreRam(s, s.mem, a, [b], s.current, t);
    StoreOne(s.mem, a, b);
  }

  lemma StoreOne(m: Mem, a: nat, b: Byte)
    requires MemShaped(m) && a < NUM_PAG_DATA * PAGE_SIZE
    ensures PageNo(a) < NUM_PAG_DATA && StoreBytes(m, a, [b]) == StoreByte(m, a, b)
  {
    PageOf(a);
    assert [b][..0] == [];
    StoreNothing(m, a);
  }

  lemma ReadKeptView(s: KState, buff: int, size: int, t: int)
    requires Inv(s) && AccessOk(buff, size) && Live(s, t) && t != Target(s, ReadCall(buff, size))
    ensures ReadBlocks(s, size) ==> ReadWaits(s, buff, size).queues[RUNQ] != []
    ensures FramesInRange(s, t) && ViewKept(s, ReadKeyboard(s, buff, size).0, t)
  {
    hide Core, CurrentOk, StoreBytes;
    ReadReady(s, buff, size);
    CurrentInRange(s);
    CurrentWindow(s);
    InvShape(s);
    LiveInRange(s, t);
    if !ReadBlocks(s, size) && s.task[s.current].pid != 0 {
      StoreRam(s, s.mem, buff, Fetched(s.sysbuff, s.ring, size)[..size], s.current, t);
    }
  }

  lemma KeyKeptView(s: KState, c: Byte, t: int)
    requires Inv(s) && Live(s, t) && t != Target(s, KeyStroke(c))
    requires s.queues[KBDQ] != [] ==> WishOk(s, First(s, KBDQ))
    ensures FramesInRange(s, t) && ViewKept(s, KeyPress(s, c), t)
  {
    hide Core, CurrentOk, StoreBytes, Partition;
    InvShape(s);
    LiveInRange(s, t);
    var s1 := s.(ring := RingSaved(s.ring, c));
    if Deliverable(s1) {
      var r := First(s, KBDQ);
      WaiterInRange(s, r);
      WishMeans(s, r);
      var lent := s.mem.(pages := Window(s.mem.pages, s.task[r].frames));
      WindowPages(s.mem.pages, s.task[r].frames);
      var bytes := Fetched(s1.sysbuff, s1.ring, s.task[r].remain)[..s.task[r].remain];
      StoreRam(s, lent, s.task[r].buff, bytes, r, t);
      assert KeyPress(s, c).mem.ram == StoreBytes(lent, s.task[r].buff, bytes).ram;
    }
  }

  lemma ForkKeptView(s: KState, t: int)
    requires Inv(s) && Live(s, t)
    ensures FramesInRange(s, t) && ViewKept(s, Fork(s).0, t)
  {
    hide Core, CurrentOk, CopyPages, Fork;
    InvShape(s);
    LiveInRange(s, t);
    LiveFrames(s, t);
    if s.queues[FREEQ] == [] {
      ForkNone(s);
    } else {
      ForkShape(s);
      assert forall i :: 0 <= i < NUM_PAG_DATA ==> FrameGood(s.mem.phys, s.task[t].frames[i]);
    }
  }

  /** Isolation: an event changes the data of no live task but its target. */
  lemma OthersUntouched(s: KState, e: Event, t: int)
    requires Inv(s) && Possible(e) && Live(s, t) && t != Target(s, e)
    ensures FramesInRange(s, t) && ViewKept(s, Step(s, e).0, t)
  {
    hide Core, CurrentOk, Fork, UserStore, ReadKeyboard, KeyPress, Tick, SemWait, Removed, Dispatch, Target;
    InvShape(s);
    LiveInRange(s, t);
    match e
    case ForkCall => ForkKeptView(s, t);
    case ExitCall => ExitRam(s);
    case Store(a, b) => NotTarget(s, e, t); UserStoreKept(s, a, b, t);
    case ReadCall(buff, size) => ReadReady(s, buff, size); ReadKeptView(s, buff, size, t);
    case KeyStroke(c) => KeyReady(s); KeyKeptView(s, c, t);
    case _ => CallRam(s, e);
  }

  lemma NotTarget(s: KState, e: Event, t: int)
    requires Shaped(s) && e.Store? && t != Target(s, e)
    ensures t != s.current
  {
  }

  /** A task's own store changes exactly the addressed byte of what it sees. */
  lemma StoreSeen(s: KState, a: int, b: Byte, x: nat)
    requires Inv(s) && Possible(Store(a, b)) && x < NUM_PAG_DATA * PAGE_SIZE
    ensures FramesInRange(s, s.current) && PageNo(x) < NUM_PAG_DATA
    ensures UserByte(UserStore(s, a, b).mem.ram, s.task[s.current].frames, x)
         == if x == a then b else UserByte(s.mem.ram, s.task[s.current].frames, x)
  {
    hide Core, CurrentOk, StoreByte, UserByte;
    CurrentInRange(s);
    CurrentWindow(s);
    StoreByteSeen(s.mem, s.task[s.current].frames, a, b, x);
  }

  /** fork gives the child a copy of the parent's data, page by page, in frames nobody else has. */
  lemma ForkCopy(s: KState)
    requires Inv(s) && s.queues[FREEQ] != []
    ensures var s', c := Fork(s).0, First(s, FREEQ);
      && FramesInRange(s', c) && FramesInRange(s', s.current) && Live(s', c) && Live(s', s.current) && c != s.current
      && (forall i :: 0 <= i < NUM_PAG_DATA ==>
            s'.mem.ram[s'.task[c].frames[i]] == s'.mem.ram[s'.task[s.current].frames[i]])
      && (forall i :: 0 <= i < NUM_PAG_DATA ==> s'.task[c].frames[i] !in s'.task[s.current].frames)
  {
    hide Inv, Core, CurrentOk, CopyPages, Fork;
    InvShape(s);
    ForkShape(s);
    ForkKeeps(s);
    ForkQueues(s);
    ForkCopies(s);
    var s', c := Fork(s).0, First(s, FREEQ);
    InvShape(s');
    LiveInRange(s, s.current);
    LiveInRange(s', c);
    LiveInRange(s', s.current);
    FramesApart(s', c, s.current);
    ForkKeptView(s, s.current);
  }

  // ---------- runs ----------

  /** t is never the target of the run, and does not leave. */
  ghost predicate LeftAlone(s: KState, es: seq<Event>, t: int)
    requires Inv(s) && PossibleRun(es)
    decreases |es|
  {
    es != [] ==>
      var s1 := Run(s, es[..|es|-1]);
      Target(s1, es[|es|-1]) != t && (es[|es|-1] == ExitCall ==> s1.current != t) && LeftAlone(s, es[..|es|-1], t)
  }

  lemma StaysLive(s: KState, e: Event, t: int)
    requires Inv(s) && Possible(e) && Live(s, t) && (e == ExitCall ==> s.current != t)
    ensures Live(Step(s, e).0, t)
  {
    hide Core, CurrentOk, Fork, Removed, DestroyOwned, StoreByte, StoreBytes;
    InvParts(s);
    if e.WaitCall? { WaitReady(s, e.n); }
    if e.ReadCall? { ReadReady(s, e.buff, e.size); }
    if e.KeyStroke? { KeyReady(s); }
    if e.ExitCall? {
      ExitReady(s);
      if s.task[s.current].pid != 0 { RemovedIsSlotFreed(s); }
    }
    if e.ForkCall? {
      if s.queues[FREEQ] == [] { ForkNone(s); } else { ForkQueues(s); }
    }
  }

  /** Whatever the other tasks do over a run, forks, exits and stores included, a task that is not itself
      written for sees the same data at the end. */
  lemma {:induction false} DataKept(s: KState, es: seq<Event>, t: int)
    requires Inv(s) && PossibleRun(es) && Live(s, t) && LeftAlone(s, es, t)
    ensures FramesInRange(s, t) && Live(Run(s, es), t) && ViewKept(s, Run(s, es), t)
    decreases |es|
  {
    hide Inv, Core, Step, Target;
    InvShape(s);
    LiveInRange(s, t);
    if es != [] {
      var s1 := Run(s, es[..|es|-1]);
      DataKept(s, es[..|es|-1], t);
      RunLast(s, es);
      OthersUntouched(s1, es[|es|-1], t);
      StaysLive(s1, es[|es|-1], t);
    }
  }
}
