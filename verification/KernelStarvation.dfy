/** Exactly when a ready task can be kept from the processor for good: when the free slots and the processes
    other than task 0 that come before it number two or more. */
module KernelStarvation {
  import opened Sequences
  import opened KernelTypes
  import opened MemorySpec
  import opened KernelSpec
  import opened KernelInv
  import opened KernelSteps
  import opened KernelProcesses
  import opened KernelMachine
  import opened KernelScheduling
  import opened KernelWaiting

  // ---------- the scene before a ready task ----------

  /** The tasks of q in front of t. */
  function Before(q: seq<int>, t: int): (r: seq<int>)
    ensures r <= q && t !in r
  {
    if q == [] || q[0] == t then [] else [q[0]] + Before(q[1..], t)
  }

  lemma {:induction false} BeforeTail(q: seq<int>, r: seq<int>, t: int)
    requires t in q
    ensures Before(q + r, t) == Before(q, t)
  {
    if q[0] != t {
      assert (q + r)[1..] == q[1..] + r;
      BeforeTail(q[1..], r, t);
    }
  }

  /** Who runs, who comes before t, how many slots are free, and what is left of the round. */
  datatype Scene = Scene(current: int, ahead: seq<int>, free: nat, round: int)

  function SceneOf(s: KState, t: int): (c: Scene)
    requires Shaped(s)
  {
    Scene(s.current, Before(Others(s), t), |s.queues[FREEQ]|, s.roundtics)
  }

  function CountProcesses(ahead: seq<int>): (n: nat)
    ensures n <= |ahead|
  {
    if ahead == [] then 0 else (if ahead[0] != 0 then 1 else 0) + CountProcesses(ahead[1..])
  }

  /** The processes other than task 0 that run before t. */
  function Processes(c: Scene): (n: nat) {
    (if c.current != 0 then 1 else 0) + CountProcesses(c.ahead)
  }

  /** A fork gives up a slot for a process, an exit a process for a slot: neither changes this. */
  function Reserve(c: Scene): (n: nat) {
    c.free + Processes(c)
  }

  // ---------- what one entry does to the scene ----------

  predicate Same(c: Scene, d: Scene, tick: bool) {
    d == c.(round := c.round - if tick then 1 else 0)
  }

  /** The running task gives way to the next. */
  predicate Passed(c: Scene, d: Scene, tick: bool) {
    c.ahead != [] && d == Scene(c.ahead[0], c.ahead[1..], c.free, d.round) && (tick ==> c.round == 1)
  }

  /** It leaves its slot. */
  predicate Left(c: Scene, d: Scene) {
    c.current != 0 && c.ahead != [] && d == Scene(c.ahead[0], c.ahead[1..], c.free + 1, d.round)
  }

  /** Its child comes before everybody. */
  predicate Joined(c: Scene, d: Scene) {
    c.free > 0 && d.ahead != [] && d.ahead[0] != 0 && d == c.(ahead := [d.ahead[0]] + c.ahead, free := c.free - 1)
  }

  predicate Moves(c: Scene, d: Scene, e: Event) {
    || Same(c, d, e.ClockTick?) || Passed(c, d, e.ClockTick?)
    || (e.ExitCall? && Left(c, d)) || (e.ForkCall? && Joined(c, d))
  }

  lemma StayScene(s: KState, s': KState, extra: seq<int>, t: int)
    requires Inv(s) && IsReady(s, t) && Shaped(s') && s'.current == s.current
    requires s'.queues[RUNQ] == s.queues[RUNQ] + extra && |s'.queues[FREEQ]| == |s.queues[FREEQ]|
    ensures IsReady(s', t) && SceneOf(s', t) == SceneOf(s, t).(round := s'.roundtics)
  {
    hide Core;
    InvShape(s);
    WithoutConcat(s.queues[RUNQ], extra, s.current);
    BeforeTail(Others(s), extra, t);
  }

  /** s1 has lost its running task; the others follow in order. */
  lemma DispatchScene(s: KState, s1: KState, extra: seq<int>, t: int)
    requires Inv(s) && IsReady(s, t)
    requires Shaped(s1) && s1.queues[RUNQ] == Others(s) + extra && NoDup(s1.queues[RUNQ])
    ensures Others(s) != [] && s1.queues[RUNQ] != []
    ensures var s', c := Dispatch(s1), SceneOf(s, t);
      && (s'.current == t <==> c.ahead == [])
      && (c.ahead != [] ==>
           && IsReady(s', t) && SceneOf(s', t) == Scene(c.ahead[0], c.ahead[1..], |s1.queues[FREEQ]|, s'.roundtics))
  {
    hide Core, CurrentOk;
    InvShape(s);
    var q := Others(s);
    assert t in q && (q + extra)[0] == q[0];
    var s' := Dispatch(s1);
    if q[0] != t {
      assert (q + extra)[1..] == q[1..] + extra;
      assert Others(s') == q[1..] + extra;
      BeforeTail(q[1..], extra, t);
    }
  }

  lemma TickScene(s: KState, t: int)
    requires Inv(s) && IsReady(s, t)
    ensures var s' := Tick(s);
      s'.current == t || (IsReady(s', t) && Moves(SceneOf(s, t), SceneOf(s', t), ClockTick))
    ensures s.roundtics == 1 && SceneOf(s, t).ahead != [] ==> Passed(SceneOf(s, t), SceneOf(Tick(s), t), true)
  {
    QuantaOfOthers(s);
    hide Core, Pause, Dispatch, SceneOf;
    InvShape(s);
    var s1 := Ticked(s);
    TickedStill(s);
    if s1.roundtics == 0 {
      PauseScene(s, t);
    } else {
      assert s1.queues[RUNQ] == s.queues[RUNQ] + [];
      StayScene(s, s1, [], t);
    }
  }

  lemma PauseScene(s: KState, t: int)
    requires Inv(s) && IsReady(s, t) && NoDup(s.queues[RUNQ])
    ensures var s', c := Dispatch(Pause(Ticked(s))), SceneOf(s, t);
      && (s'.current == t <==> c.ahead == [])
      && (c.ahead != [] ==> IsReady(s', t) && SceneOf(s', t) == Scene(c.ahead[0], c.ahead[1..], c.free, s'.roundtics))
  {
    hide Core;
    InvShape(s);
    WithoutGone(s.queues[RUNQ], s.current);
    ConcatNoDup(Others(s), [s.current]);
    DispatchScene(s, Pause(Ticked(s)), [s.current], t);
  }

  lemma BlockScene(s: KState, s0: KState, q: nat, t: int)
    requires Inv(s) && IsReady(s, t) && Shaped(s0) && KBDQ <= q < NR_QUEUES
    requires s0.queues == s.queues && s0.current == s.current
    ensures Block(s0, q).queues[RUNQ] != []
    ensures var s' := Dispatch(Block(s0, q));
      s'.current == t || (IsReady(s', t) && Passed(SceneOf(s, t), SceneOf(s', t), false))
  {
    QuantaOfOthers(s);
    hide Core;
    InvShape(s);
    WithoutGone(s.queues[RUNQ], s.current);
    assert Others(s) + [] == Others(s);
    DispatchScene(s, Block(s0, q), [], t);
  }

  /** A task with a slot other than 0 has a pid other than 0. */
  lemma SlotsAndPids(s: KState)
    requires Inv(s)
    ensures s.task[s.current].pid == 0 <==> s.current == 0
    ensures s.current !in Others(s)
  {
    RunnableFacts(s, s.current);
    RunnableFacts(s, 0);
    WithoutGone(s.queues[RUNQ], s.current);
  }

  lemma ExitScene(s: KState, t: int)
    requires Inv(s) && IsReady(s, t) && s.task[s.current].pid != 0
    ensures FramesInRange(s, s.current) && Removed(s).queues[RUNQ] != []
    ensures var s', c := Dispatch(Removed(s)), SceneOf(s, t);
      && (s'.current == t <==> c.ahead == [])
      && (c.ahead != [] ==> IsReady(s', t) && Left(c, SceneOf(s', t)))
  {
    hide Core, CurrentOk, Removed, DestroyOwned, SceneOf, Dispatch, FramesInRange;
    InvParts(s);
    SlotsAndPids(s);
    SceneParts(s, t);
    ExitKeeps(s);
    var extra := ExitQueues(s);
    DispatchScene(s, Removed(s), extra, t);
    SceneParts(Dispatch(Removed(s)), t);
  }

  lemma SceneParts(s: KState, t: int)
    requires Shaped(s)
    ensures var c := SceneOf(s, t); c.current == s.current && c.free == |s.queues[FREEQ]| && c.round == s.roundtics
  {
  }

  lemma ExitQueues(s: KState) returns (extra: seq<int>)
    requires Inv(s) && s.task[s.current].pid != 0
    ensures FramesInRange(s, s.current)
    ensures var s3 := Removed(s);
      s3.queues[RUNQ] == Others(s) + extra && NoDup(s3.queues[RUNQ]) && |s3.queues[FREEQ]| == |s.queues[FREEQ]| + 1
  {
    hide Core, CurrentOk, Removed, DestroyOwned;
    InvParts(s);
    ExitKeeps(s);
    RemovedIsSlotFreed(s);
    var s2 := DestroyOwned(s, s.task[s.current].pid, NR_SEM);
    extra := s2.queues[RUNQ][|s.queues[RUNQ]|..];
    assert s2.queues[RUNQ] == s.queues[RUNQ] + extra;
    WithoutConcat(s.queues[RUNQ], extra, s.current);
    RunqueueOnce(Removed(s));
    SlotCount(s2);
  }

  lemma ForkScene(s: KState, t: int)
    requires Inv(s) && IsReady(s, t)
    ensures var s', c := Fork(s).0, SceneOf(s, t);
      && IsReady(s', t) && (if s.queues[FREEQ] == [] then s' == s else Joined(c, SceneOf(s', t)))
  {
    hide Core, CurrentOk, Fork, CopiedInto, CountFree;
    InvShape(s);
    if s.queues[FREEQ] == [] {
      ForkNone(s);
    } else {
      ForkHomes(s);
      TaskZeroReady(s);
      ReadyApart(s, t);
      ForkShape(s);
      var s', c := Fork(s).0, First(s, FREEQ);
      assert Others(s') == [c] + Others(s);
      assert ([c] + Others(s))[1..] == Others(s);
      ReadyApart0(s);
    }
  }

  /** Task 0 is in no free slot. */
  lemma ReadyApart0(s: KState)
    requires Inv(s)
    ensures 0 !in s.queues[FREEQ]
  {
  }

  lemma KeyScene(s: KState, c: Byte, t: int)
    requires Inv(s) && IsReady(s, t) && (s.queues[KBDQ] != [] ==> WishOk(s, First(s, KBDQ)))
    ensures var s' := KeyPress(s, c);
      s'.current == s.current && IsReady(s', t) && SceneOf(s', t) == SceneOf(s, t)
  {
    hide Core, CurrentOk, WishOk, Movable, Stored;
    InvShape(s);
    var s1 := s.(ring := RingSaved(s.ring, c));
    if Deliverable(s1) {
      WishUnmoved(s, s1, First(s, KBDQ));
      StayScene(s, KeyPress(s, c), [First(s1, KBDQ)], t);
    } else {
      assert s1.queues[RUNQ] + [] == s.queues[RUNQ];
      StayScene(s, s1, [], t);
    }
  }

  lemma CallScene(s: KState, e: Event, t: int)
    requires Inv(s) && Possible(e) && IsReady(s, t)
    requires e.NiceCall? || e.InitCall? || e.SignalCall? || e.DestroyCall? || e.Store?
    ensures var s' := Step(s, e).0; IsReady(s', t) && SceneOf(s', t) == SceneOf(s, t)
  {
    hide Inv, Core, Step, SceneOf;
    InvShape(s);
    var s' := Step(s, e).0;
    CallQueues(s, e);
    var extra := s'.queues[RUNQ][|s.queues[RUNQ]|..];
    assert s'.queues[RUNQ] == s.queues[RUNQ] + extra;
    StayScene(s, s', extra, t);
    SceneRound(s, t);
  }

  lemma SceneRound(s: KState, t: int)
    requires Shaped(s)
    ensures SceneOf(s, t).(round := s.roundtics) == SceneOf(s, t)
  {
  }

  lemma WaitScene(s: KState, n: int, t: int)
    requires Inv(s) && IsReady(s, t)
    ensures WaitBlocks(s, n) ==> Block(s, SemQ(n)).queues[RUNQ] != []
    ensures var s' := SemWait(s, n).0;
      s'.current == t || (IsReady(s', t) && Moves(SceneOf(s, t), SceneOf(s', t), WaitCall(n)))
  {
    WaitReady(s, n);
    hide Core, CurrentOk, Dispatch, Block, SceneOf;
    InvShape(s);
    SceneRound(s, t);
    if WaitBlocks(s, n) {
      BlockScene(s, s, SemQ(n), t);
    } else {
      var s' := SemWait(s, n).0;
      assert s'.queues[RUNQ] == s.queues[RUNQ] + [];
      StayScene(s, s', [], t);
    }
  }

  lemma ReadScene(s: KState, buff: int, size: int, t: int)
    requires Inv(s) && IsReady(s, t) && AccessOk(buff, size)
    ensures ReadBlocks(s, size) ==> ReadWaits(s, buff, size).queues[RUNQ] != []
    ensures var s' := ReadKeyboard(s, buff, size).0;
      s'.current == t || (IsReady(s', t) && Moves(SceneOf(s, t), SceneOf(s', t), ReadCall(buff, size)))
  {
    ReadReady(s, buff, size);
    hide Core, CurrentOk, Dispatch, Block, StoreBytes, SceneOf;
    InvShape(s);
    SceneRound(s, t);
    if ReadBlocks(s, size) {
      BlockScene(s, Wishing(s, buff, size), KBDQ, t);
    } else {
      var s' := ReadKeyboard(s, buff, size).0;
      assert s'.queues[RUNQ] == s.queues[RUNQ] + [];
      StayScene(s, s', [], t);
    }
  }

  /** While t is not dispatched, every entry is one of these moves. */
  lemma StepScene(s: KState, e: Event, t: int)
    requires Inv(s) && Possible(e) && IsReady(s, t)
    ensures var s' := Step(s, e).0;
      s'.current == t || (IsReady(s', t) && Moves(SceneOf(s, t), SceneOf(s', t), e))
  {
    hide Core, CurrentOk, Fork, SemWait, ReadKeyboard, Tick, KeyPress, Dispatch, Removed, SceneOf;
    InvShape(s);
    SceneRound(s, t);
    match e
    case ClockTick => TickScene(s, t);
    case ForkCall => ForkScene(s, t);
    case ExitCall =>
      ExitReady(s);
      if s.task[s.current].pid != 0 {
        ExitScene(s, t);
      }
    case WaitCall(n) => WaitScene(s, n, t);
    case ReadCall(buff, size) => ReadScene(s, buff, size, t);
    case KeyStroke(c) => KeyReady(s); KeyScene(s, c, t);
    case _ => CallScene(s, e, t);
  }

  // ---------- quanta ----------

  const MAX_QUANTUM := 0x7fff_ffff

  ghost predicate QuantaAtMost(s: KState, b: int)
    requires Shaped(s)
  {
    s.roundtics <= b && forall t :: 0 <= t < NR_TASKS ==> s.task[t].quantum <= b
  }

  lemma TickQuanta(s: KState, b: int)
    requires Shaped(s) && QuantaAtMost(s, b)
    ensures QuantaAtMost(Tick(s), b)
  {
    hide Window, ToTail;
  }

  lemma ForkQuanta(s: KState, b: int)
    requires Inv(s) && QuantaAtMost(s, b)
    ensures QuantaAtMost(Fork(s).0, b)
  {
    hide Core, CurrentOk, Fork, CopiedInto, CountFree;
    InvShape(s);
    if s.queues[FREEQ] == [] {
      ForkNone(s);
    } else {
      ForkShape(s);
    }
  }

  lemma BlockQuanta(s: KState, q: nat, b: int)
    requires Shaped(s) && QuantaAtMost(s, b) && q < NR_QUEUES && Block(s, q).queues[RUNQ] != []
    ensures QuantaAtMost(Dispatch(Block(s, q)), b)
  {
    hide Window, ToTail;
  }

  lemma WaitQuanta(s: KState, n: int, b: int)
    requires Inv(s) && QuantaAtMost(s, b)
    ensures WaitBlocks(s, n) ==> Block(s, SemQ(n)).queues[RUNQ] != []
    ensures QuantaAtMost(SemWait(s, n).0, b)
  {
    hide Inv, Core, Block, Dispatch;
    InvShape(s);
    WaitReady(s, n);
    if WaitBlocks(s, n) {
      BlockQuanta(s, SemQ(n), b);
    }
  }

  lemma ReadQuanta(s: KState, buff: int, size: int, b: int)
    requires Inv(s) && QuantaAtMost(s, b) && AccessOk(buff, size)
    ensures ReadBlocks(s, size) ==> ReadWaits(s, buff, size).queues[RUNQ] != []
    ensures QuantaAtMost(ReadKeyboard(s, buff, size).0, b)
  {
    hide Inv, Core, Block, Dispatch, StoreBytes;
    InvShape(s);
    ReadReady(s, buff, size);
    if ReadBlocks(s, size) {
      BlockQuanta(Wishing(s, buff, size), KBDQ, b);
    }
  }

  lemma KeyQuanta(s: KState, c: Byte, b: int)
    requires Shaped(s) && QuantaAtMost(s, b) && (s.queues[KBDQ] != [] ==> WishOk(s, First(s, KBDQ)))
    ensures QuantaAtMost(KeyPress(s, c), b)
  {
    hide StoreBytes, Window, ToTail;
  }

  lemma CallBound(s: KState, e: Event, b: int)
    requires Inv(s) && Possible(e) && QuantaAtMost(s, b) && b >= MAX_QUANTUM
    requires e.NiceCall? || e.InitCall? || e.SignalCall? || e.DestroyCall? || e.Store?
    ensures QuantaAtMost(Step(s, e).0, b)
  {
    hide Core, CurrentOk, StoreByte, ToTail, Drain;
    InvShape(s);
  }

  lemma StepQuanta(s: KState, e: Event, b: int)
    requires Inv(s) && Possible(e) && QuantaAtMost(s, b) && b >= MAX_QUANTUM
    ensures QuantaAtMost(Step(s, e).0, b)
  {
    hide Inv, Core, Fork, Exit, Tick, SemWait, ReadKeyboard, KeyPress, Nice, SemInit, SemSignal, SemDestroy;
    InvShape(s);
    match e
    case ClockTick => TickQuanta(s, b);
    case ForkCall => ForkQuanta(s, b);
    case ExitCall => ExitQuanta(s, b);
    case WaitCall(n) => WaitQuanta(s, n, b);
    case ReadCall(buff, size) => ReadQuanta(s, buff, size, b);
    case KeyStroke(c) => KeyReady(s); KeyQuanta(s, c, b);
    case _ => CallBound(s, e, b);
  }

  lemma ExitQuanta(s: KState, b: int)
    requires Inv(s) && QuantaAtMost(s, b)
    ensures FramesInRange(s, s.current) && (s.task[s.current].pid != 0 ==> Removed(s).queues[RUNQ] != [])
    ensures QuantaAtMost(Exit(s).0, b)
  {
    hide Core, CurrentOk, Removed, DestroyOwned;
    InvParts(s);
    ExitReady(s);
    RemovedIsSlotFreed(s);
  }

  /** Every state has a bound. */
  function Bound(task: seq<Task>, least: int): (b: int)
    ensures b >= least && forall t :: 0 <= t < |task| ==> task[t].quantum <= b
  {
    if task == [] then least
    else
      var b := Bound(task[..|task| - 1], least);
      if task[|task| - 1].quantum > b then task[|task| - 1].quantum else b
  }

  // ---------- a small reserve runs out ----------

  /** How many more tasks can get their turn before t, when the reserve is at most one. */
  function Turns(c: Scene): (n: nat) {
    |c.ahead| + c.free + if c.current != 0 && 0 in c.ahead then 1 else 0
  }

  function Ticking(c: Scene, b: int): (n: int) {
    c.round + b * Turns(c)
  }

  lemma {:induction false} NoOthers(ahead: seq<int>)
    requires CountProcesses(ahead) == 0
    ensures forall x :: x in ahead ==> x == 0
  {
    if ahead != [] {
      NoOthers(ahead[1..]);
      assert ahead == [ahead[0]] + ahead[1..];
    }
  }

  /** With a reserve of at most one, no move gives t longer to wait, and each tick brings it nearer. */
  lemma SmallReserve(c: Scene, d: Scene, e: Event, b: int)
    requires Moves(c, d, e) && Reserve(c) <= 1 && (c.current == 0 ==> 0 !in c.ahead)
    requires 1 <= c.round <= b && d.round <= b
    ensures Reserve(d) <= 1 && Ticking(d, b) <= Ticking(c, b) - if e.ClockTick? then 1 else 0
  {
    if Same(c, d, e.ClockTick?) {
    } else if Passed(c, d, e.ClockTick?) {
      TurnsScaled(b, Turns(d), Turns(c) - 1);
    } else if e.ExitCall? && Left(c, d) {
      NoOthers(c.ahead);
      assert c.ahead[0] in c.ahead;
      TurnsScaled(b, Turns(d), Turns(c) - 1);
    } else {
      assert d.ahead[1..] == c.ahead;
      assert Turns(d) == Turns(c);
    }
  }

  lemma TurnsScaled(b: int, m: int, n: int)
    requires m <= n && b >= 0
    ensures b * m <= b * n && b * n == b * (n + 1) - b
  {
  }

  /** So the ticks of any run without a dispatch of t are bounded by a number known at its start. */
  lemma {:induction false} WaitEnds(s: KState, es: seq<Event>, t: int, b: int)
    requires Inv(s) && PossibleRun(es) && IsReady(s, t) && NeverRuns(s, es, t)
    requires Reserve(SceneOf(s, t)) <= 1 && QuantaAtMost(s, b) && b >= MAX_QUANTUM
    ensures var s' := Run(s, es);
      && IsReady(s', t) && Reserve(SceneOf(s', t)) <= 1 && QuantaAtMost(s', b)
      && Ticks(es) + Ticking(SceneOf(s', t), b) <= Ticking(SceneOf(s, t), b)
    decreases |es|
  {
    hide Inv, Run, Step, SceneOf, Reserve, Ticking, IsReady, Moves, QuantaAtMost;
    if es == [] {
      RunNone(s);
    } else {
      var n := |es| - 1;
      RunLast(s, es);
      forall i | 0 <= i <= n ensures Run(s, es[..n][..i]).current != t {
        assert es[..n][..i] == es[..i];
      }
      assert es[..|es|] == es;
      WaitEnds(s, es[..n], t, b);
      var s1 := Run(s, es[..n]);
      InvShape(s1);
      InvShape(Run(s, es));
      StepScene(s1, es[n], t);
      StepQuanta(s1, es[n], b);
      SceneFacts(s1, t, b);
      SceneFacts(Run(s, es), t, b);
      SmallReserve(SceneOf(s1, t), SceneOf(Run(s, es), t), es[n], b);
    }
  }

  lemma SceneFacts(s: KState, t: int, b: int)
    requires Inv(s) && QuantaAtMost(s, b)
    ensures var c := SceneOf(s, t); 1 <= c.round <= b && (c.current == 0 ==> 0 !in c.ahead)
  {
    SlotsAndPids(s);
    hide Core;
  }

  // ---------- a reserve of two is enough ----------

  /** A process with a free slot sets its quantum, forks, and leaves to its child: from there on t can
      starve. */
  lemma HandsOver(s: KState, t: int) returns (es: seq<Event>)
    requires Inv(s) && IsReady(s, t) && s.current != 0 && s.queues[FREEQ] != []
    ensures PossibleRun(es) && NeverRuns(s, es, t) && Starving(Run(s, es), t)
  {
    hide Inv, Run, Step, Core;
    var s1 := Step(s, NiceCall(2)).0;
    StepKeeps(s, NiceCall(2));
    NiceOnly(s, t);
    var s2, c := Step(s1, ForkCall).0, First(s1, FREEQ);
    StepKeeps(s1, ForkCall);
    ForkStarves(s1, t);
    var s3 := Step(s2, ExitCall).0;
    StepKeeps(s2, ExitCall);
    ExitHands(s2, c, s1.queues[RUNQ]);
    OneNever(s, NiceCall(2), t);
    OneNever(s1, ForkCall, t);
    OneNever(s2, ExitCall, t);
    NeverConcat(s, [NiceCall(2)], [ForkCall], t);
    RunConcat(s, [NiceCall(2)], [ForkCall]);
    NeverConcat(s, [NiceCall(2)] + [ForkCall], [ExitCall], t);
    RunConcat(s, [NiceCall(2)] + [ForkCall], [ExitCall]);
    es := [NiceCall(2)] + [ForkCall] + [ExitCall];
  }

  lemma NiceOnly(s: KState, t: int)
    requires Inv(s) && IsReady(s, t) && s.current != 0
    ensures var s' := Step(s, NiceCall(2)).0;
      && Shaped(s') && s'.current == s.current && s'.queues == s.queues && IsReady(s', t)
      && s'.task[s'.current].quantum == 2 && s'.task[s'.current].pid != 0
  {
    SlotsAndPids(s);
    hide Inv, Core;
    InvShape(s);
  }

  /** The running task uses up its round. */
  lemma RoundPasses(s: KState, t: int)
    requires Inv(s) && IsReady(s, t) && SceneOf(s, t).ahead != []
    ensures s.roundtics >= 1
    ensures var es := Clock(s.roundtics);
      && NeverRuns(s, es, t) && IsReady(Run(s, es), t)
      && Passed(SceneOf(s, t), SceneOf(Run(s, es), t), false)
  {
    hide Inv, Run, Step, Core, SceneOf, Before;
    RoundLeft(s);
    InvShape(s);
    var n := s.roundtics - 1;
    ClockRuns(s, n);
    var s1 := Run(s, Clock(n));
    InvShape(s1);
    assert s1.queues[RUNQ] == s.queues[RUNQ] + [];
    StayScene(s, s1, [], t);
    TickScene(s1, t);
    TickIs(s1);
    assert Clock(n + 1)[..n] == Clock(n);
    RunLast(s, Clock(n + 1));
    PassedOn(s, s1, t);
    var clock := Clock(n + 1);
    forall i | 0 <= i <= |clock| ensures Run(s, clock[..i]).current != t {
      if i <= n {
        assert clock[..i] == Clock(i);
        ClockRuns(s, i);
      } else {
        assert clock[..i] == clock;
      }
    }
  }

  lemma RoundLeft(s: KState)
    requires Inv(s)
    ensures s.roundtics >= 1
  {
  }

  lemma TickIs(s: KState)
    requires Inv(s)
    ensures Step(s, ClockTick).0 == Tick(s)
  {
  }

  lemma PassedOn(s: KState, s1: KState, t: int)
    requires Inv(s1) && IsReady(s1, t) && Shaped(s) && s1.roundtics == 1 && SceneOf(s, t).ahead != []
    requires SceneOf(s1, t) == SceneOf(s, t).(round := s1.roundtics)
    requires Tick(s1).current == t || IsReady(Tick(s1), t)
    requires Passed(SceneOf(s1, t), SceneOf(Tick(s1), t), true)
    ensures Tick(s1).current != t && IsReady(Tick(s1), t) && Passed(SceneOf(s, t), SceneOf(Tick(s1), t), false)
  {
    SceneParts(Tick(s1), t);
    assert t !in SceneOf(s1, t).ahead;
    assert SceneOf(s1, t).ahead[0] in SceneOf(s1, t).ahead;
  }

  /** How far the scene is from a process with a free slot. */
  function Distance(c: Scene): (n: nat) {
    if c.current != 0 && c.free > 0 then 0
    else if c.current != 0 then (if 0 in c.ahead then 4 else 1)
    else if c.ahead != [] then 2
    else 3
  }

  /** With a reserve of two or more some run gets there, without t. */
  lemma {:induction false} CanStarve(s: KState, t: int) returns (es: seq<Event>)
    requires Inv(s) && IsReady(s, t) && Reserve(SceneOf(s, t)) >= 2
    ensures PossibleRun(es) && NeverRuns(s, es, t) && Starving(Run(s, es), t)
    decreases Distance(SceneOf(s, t))
  {
    hide Inv, Run, Step, Core, SceneOf, Before;
    InvShape(s);
    SceneParts(s, t);
    SlotsAndPids(s);
    AheadApart(s, t);
    var c := SceneOf(s, t);
    if c.current != 0 && c.free > 0 {
      es := HandsOver(s, t);
    } else {
      var first := FirstMove(s, t);
      var s' := Run(s, first);
      InvShape(s');
      NoneAhead(c);
      var more := CanStarve(s', t);
      NeverConcat(s, first, more, t);
      RunConcat(s, first, more);
      es := first + more;
    }
  }

  lemma AheadApart(s: KState, t: int)
    requires Inv(s)
    ensures var c := SceneOf(s, t); NoDup(c.ahead) && c.current !in c.ahead
  {
    SlotsAndPids(s);
    RunqueueOnce(s);
    WithoutGone(s.queues[RUNQ], s.current);
    hide Core;
  }

  lemma {:induction false} NoneAhead(c: Scene)
    ensures c.ahead == [] ==> CountProcesses(c.ahead) == 0
    ensures CountProcesses(c.ahead) > 0 ==> c.ahead != []
  {
  }

  /** The move towards it: an exit, task 0's fork, or the end of task 0's round. */
  lemma FirstMove(s: KState, t: int) returns (es: seq<Event>)
    requires Inv(s) && IsReady(s, t) && Reserve(SceneOf(s, t)) >= 2
    requires SceneOf(s, t).current != 0 ==> SceneOf(s, t).free == 0
    ensures PossibleRun(es) && NeverRuns(s, es, t) && IsReady(Run(s, es), t)
    ensures var c, d := SceneOf(s, t), SceneOf(Run(s, es), t);
      Reserve(d) >= 2 && Distance(d) < Distance(c)
  {
    hide Inv, Run, Step, Core, SceneOf, Before;
    InvShape(s);
    SceneParts(s, t);
    SlotsAndPids(s);
    AheadApart(s, t);
    var c := SceneOf(s, t);
    if c.current != 0 {
      es := [ExitCall];
      ExitMove(s, t);
      OneNever(s, ExitCall, t);
    } else if c.ahead == [] {
      es := [ForkCall];
      ForkMove(s, t);
      OneNever(s, ForkCall, t);
    } else {
      RoundPasses(s, t);
      es := Clock(s.roundtics);
      InvShape(Run(s, es));
      PassedDistance(c, SceneOf(Run(s, es), t));
    }
  }

  lemma PassedDistance(c: Scene, d: Scene)
    requires Passed(c, d, false) && c.current == 0 && NoDup(c.ahead) && c.current !in c.ahead && Reserve(c) >= 2
    ensures Reserve(d) >= 2 && Distance(d) < Distance(c)
  {
    assert c.ahead[0] in c.ahead;
    assert forall x :: x in c.ahead[1..] ==> x in c.ahead;
  }

  lemma ExitIs(s: KState)
    requires Inv(s) && s.task[s.current].pid != 0
    ensures FramesInRange(s, s.current) && Removed(s).queues[RUNQ] != [] && Step(s, ExitCall).0 == Dispatch(Removed(s))
  {
    hide Inv, Core, Removed, Dispatch;
    InvShape(s);
    ExitReady(s);
  }

  lemma SceneAhead(c: Scene)
    requires Reserve(c) >= 2 && c.free == 0
    ensures c.ahead != []
  {
  }

  lemma LeftDistance(c: Scene, d: Scene)
    requires Left(c, d) && c.free == 0 && NoDup(c.ahead) && Reserve(c) >= 2
    ensures Reserve(d) >= 2 && Distance(d) < Distance(c)
  {
    assert c.ahead[0] in c.ahead;
    assert forall x :: x in c.ahead[1..] ==> x in c.ahead && x != c.ahead[0];
  }

  lemma ExitMove(s: KState, t: int)
    requires Inv(s) && IsReady(s, t) && Reserve(SceneOf(s, t)) >= 2
    requires SceneOf(s, t).current != 0 && SceneOf(s, t).free == 0
    ensures var s', c := Step(s, ExitCall).0, SceneOf(s, t);
      && s'.current != t && IsReady(s', t) && Reserve(SceneOf(s', t)) >= 2 && Distance(SceneOf(s', t)) < Distance(c)
  {
    hide Inv, Core, Exit, SceneOf, Distance, Reserve, Left;
    InvShape(s);
    AheadApart(s, t);
    SlotsAndPids(s);
    SceneParts(s, t);
    ExitScene(s, t);
    ExitReady(s);
    ExitIs(s);
    SceneAhead(SceneOf(s, t));
    LeftDistance(SceneOf(s, t), SceneOf(Dispatch(Removed(s)), t));
  }

  lemma ForkMove(s: KState, t: int)
    requires Inv(s) && IsReady(s, t) && Reserve(SceneOf(s, t)) >= 2
    requires SceneOf(s, t).current == 0 && SceneOf(s, t).ahead == []
    ensures var s', c := Step(s, ForkCall).0, SceneOf(s, t);
      && s'.current != t && IsReady(s', t) && Reserve(SceneOf(s', t)) >= 2 && Distance(SceneOf(s', t)) < Distance(c)
  {
    ForkScene(s, t);
    hide Inv, Core, Fork, SceneOf;
    InvShape(s);
    SceneParts(s, t);
    assert CountProcesses([]) == 0;
  }

  // ---------- exactly when ----------

  ghost predicate Delays(s: KState, es: seq<Event>, t: int, k: nat)
    requires Inv(s)
  {
    PossibleRun(es) && Ticks(es) >= k && NeverRuns(s, es, t)
  }

  /** Some run keeps t waiting for k ticks or more. */
  ghost predicate CanDelay(s: KState, t: int, k: nat)
    requires Inv(s)
  {
    exists es :: Delays(s, es, t, k)
  }

  /** A ready task can be kept waiting without bound if and only if the free slots and the processes other
      than task 0 that run before it are at least two together. */
  lemma StarvationIff(s: KState, t: int)
    requires Inv(s) && IsReady(s, t)
    ensures Reserve(SceneOf(s, t)) >= 2 <==> forall k: nat :: CanDelay(s, t, k)
  {
    hide Inv, Run, NeverRuns, SceneOf, Reserve, Ticking, Starving, IsReady;
    InvShape(s);
    if Reserve(SceneOf(s, t)) >= 2 {
      forall k: nat ensures CanDelay(s, t, k) {
        var es := CanStarve(s, t);
        Starves(Run(s, es), t, k);
        NeverConcat(s, es, Rounds(k), t);
        TicksConcat(es, Rounds(k));
        assert Delays(s, es + Rounds(k), t, k);
      }
    } else {
      var b := Bound(s.task, if s.roundtics > MAX_QUANTUM then s.roundtics else MAX_QUANTUM);
      assert QuantaAtMost(s, b);
      SceneFacts(s, t, b);
      TicksKnown(s, t, b);
      assert !CanDelay(s, t, Ticking(SceneOf(s, t), b));
    }
  }

  lemma TicksKnown(s: KState, t: int, b: int)
    requires Inv(s) && IsReady(s, t) && Reserve(SceneOf(s, t)) < 2 && QuantaAtMost(s, b) && b >= MAX_QUANTUM
    ensures Ticking(SceneOf(s, t), b) >= 0 && !CanDelay(s, t, Ticking(SceneOf(s, t), b))
  {
    hide Inv, Run, NeverRuns, SceneOf, Reserve, IsReady;
    InvShape(s);
    SceneFacts(s, t, b);
    TurnsScaled(b, 0, Turns(SceneOf(s, t)));
    forall es | PossibleRun(es) && NeverRuns(s, es, t) ensures Ticks(es) < Ticking(SceneOf(s, t), b) {
      WaitEnds(s, es, t, b);
      InvShape(Run(s, es));
      SceneFacts(Run(s, es), t, b);
      TurnsScaled(b, 0, Turns(SceneOf(Run(s, es), t)));
    }
  }
}
