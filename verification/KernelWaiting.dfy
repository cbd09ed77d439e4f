/** Ready tasks that wait: what they keep until they are dispatched, and that forks can make them wait for
    good. */
module KernelWaiting {
  import opened Sequences
  import opened KernelTypes
  import opened MemorySpec
  import opened KernelSpec
  import opened KernelInv
  import opened KernelProcesses
  import opened KernelMachine
  import opened KernelBoot
  import opened KernelScheduling

  // ---------- the saved result ----------

  /** Nothing writes the saved result of a ready task, the step that dispatches it included. */
  lemma StepSaved(s: KState, e: Event, t: int)
    requires Inv(s) && Possible(e) && IsReady(s, t)
    ensures 0 <= t < NR_TASKS && Step(s, e).0.task[t].eax == s.task[t].eax
  {
    hide Inv, Core, Exit, Fork;
    InvShape(s);
    ReadyApart(s, t);
    match e
    case ExitCall => ExitSaved(s, t);
    case ForkCall => ForkSaved(s, t);
    case KeyStroke(c) => KeyReady(s);
    case ReadCall(buff, size) => ReadReady(s, buff, size);
    case WaitCall(n) => WaitReady(s, n);
    case _ =>
  }

  /** It waits in no other queue. */
  lemma ReadyApart(s: KState, t: int)
    requires Inv(s) && IsReady(s, t)
    ensures 0 <= t < NR_TASKS && forall k :: FREEQ <= k < NR_QUEUES ==> t !in s.queues[k]
  {
  }

  lemma ForkSaved(s: KState, t: int)
    requires Inv(s) && IsReady(s, t) && 0 <= t < NR_TASKS && t !in s.queues[FREEQ]
    ensures Fork(s).0.task[t].eax == s.task[t].eax
  {
    hide Core, CurrentOk, Fork;
    InvShape(s);
    if s.queues[FREEQ] == [] {
      ForkNone(s);
    } else {
      ForkShape(s);
    }
  }

  lemma ExitSaved(s: KState, t: int)
    requires Inv(s) && IsReady(s, t) && 0 <= t < NR_TASKS
    ensures FramesInRange(s, s.current) && (s.task[s.current].pid != 0 ==> Removed(s).queues[RUNQ] != [])
    ensures Exit(s).0.task[t].eax == s.task[t].eax
  {
    hide Core, CurrentOk, Removed, DestroyOwned;
    InvParts(s);
    ExitReady(s);
    RemovedIsSlotFreed(s);
  }

  /** From its wake-up until it runs again a task keeps the result it was woken with. */
  lemma {:induction false} ResultKept(s: KState, es: seq<Event>, t: int)
    requires Inv(s) && PossibleRun(es) && IsReady(s, t) && es != [] && NeverRuns(s, es[..|es|-1], t)
    ensures 0 <= t < NR_TASKS && Run(s, es).task[t].eax == s.task[t].eax
    ensures Run(s, es).current != t ==> IsReady(Run(s, es), t)
    decreases |es|
  {
    hide Inv, Step, Run, Rank, Core;
    var n := |es| - 1;
    ReadyApart(s, t);
    RunLast(s, es);
    var s1 := Run(s, es[..n]);
    assert es[..n][..n] == es[..n];
    if n == 0 {
      RunNone(s);
    } else {
      var before := es[..n][..n - 1];
      forall i | 0 <= i <= |before| ensures Run(s, before[..i]).current != t {
        assert before[..i] == es[..n][..i];
      }
      ResultKept(s, es[..n], t);
    }
    assert s1.current != t;
    InvShape(s1);
    StepSaved(s1, es[n], t);
    StepRank(s1, es[n], t);
  }

  // ---------- starvation ----------

  /** The running process can fork, has two ticks left and a quantum of at least two; t waits. */
  ghost predicate Starving(s: KState, t: int)
    requires Shaped(s)
  {
    && IsReady(s, t) && s.queues[FREEQ] != [] && s.task[s.current].pid != 0
    && s.task[s.current].quantum >= 2 && s.roundtics >= 2
  }

  lemma TickStarves(s: KState, t: int)
    requires Inv(s) && Starving(s, t)
    ensures var s' := Step(s, ClockTick).0;
      && IsReady(s', t) && s'.current == s.current && s'.queues == s.queues
      && s'.task[s'.current].pid != 0 && s'.task[s'.current].quantum >= 2
  {
    hide Inv, Core;
    InvShape(s);
  }

  /** The child goes to the front with its parent's quantum. */
  lemma ForkStarves(s: KState, t: int)
    requires Inv(s) && IsReady(s, t) && s.queues[FREEQ] != []
    requires s.task[s.current].pid != 0 && s.task[s.current].quantum >= 2
    ensures var s', c := Step(s, ForkCall).0, First(s, FREEQ);
      && IsReady(s', t) && s'.current == s.current && s'.queues[RUNQ] == [c] + s.queues[RUNQ]
      && c != s.current && c != t && s'.task[s'.current].pid != 0
      && s'.task[c].pid != 0 && s'.task[c].quantum >= 2
  {
    ReadyApart(s, t);
    InvPids(s);
    hide Core, CurrentOk, Fork, CopiedInto, CountFree;
    InvShape(s);
    ForkShape(s);
  }

  /** When the running process leaves, the task at the front takes over. */
  lemma ExitHands(s: KState, c: int, rest: seq<int>)
    requires Inv(s) && s.queues[RUNQ] == [c] + rest && c != s.current && s.task[s.current].pid != 0
    ensures var s' := Step(s, ExitCall).0;
      && 0 <= c < NR_TASKS && s'.current == c && s'.queues[FREEQ] != [] && s'.roundtics == s.task[c].quantum
      && s'.task[c].pid == s.task[c].pid && s'.task[c].quantum == s.task[c].quantum
      && forall t :: IsReady(s, t) && t != c ==> IsReady(s', t)
  {
    hide Core, CurrentOk, Removed, DestroyOwned;
    InvParts(s);
    ExitReady(s);
    RemovedIsSlotFreed(s);
    assert s.queues[RUNQ][0] == c;
    var s2 := DestroyOwned(s, s.task[s.current].pid, NR_SEM);
    var q := s2.queues[RUNQ];
    assert q[0] == c && c in s.queues[RUNQ];
    assert Without(q, s.current) == [c] + Without(q[1..], s.current);
  }

  /** A round without t: tick, fork, and the parent leaves to its child. */
  const ROUND: seq<Event> := [ClockTick, ForkCall, ExitCall]

  lemma OneEvent(s: KState, e: Event)
    requires Inv(s) && Possible(e)
    ensures PossibleRun([e]) && Run(s, [e]) == Step(s, e).0
  {
    hide Inv, Step;
    assert [e][..0] == [];
    RunNone(s);
    RunLast(s, [e]);
  }

  lemma OneNever(s: KState, e: Event, t: int)
    requires Inv(s) && Possible(e) && s.current != t && Step(s, e).0.current != t
    ensures PossibleRun([e]) && Run(s, [e]) == Step(s, e).0 && NeverRuns(s, [e], t)
  {
    hide Inv, Step, Run;
    OneEvent(s, e);
    RunNone(s);
    assert [e][..0] == [] && [e][..1] == [e];
  }

  lemma NeverConcat(s: KState, es: seq<Event>, fs: seq<Event>, t: int)
    requires Inv(s) && PossibleRun(es) && PossibleRun(fs)
    requires NeverRuns(s, es, t) && NeverRuns(Run(s, es), fs, t)
    ensures PossibleRun(es + fs) && NeverRuns(s, es + fs, t)
  {
    hide Inv, Run;
    forall i | 0 <= i <= |es + fs| ensures Run(s, (es + fs)[..i]).current != t {
      if i <= |es| {
        assert (es + fs)[..i] == es[..i];
      } else {
        assert (es + fs)[..i] == es + fs[..i - |es|];
        RunConcat(s, es, fs[..i - |es|]);
      }
    }
  }

  lemma RoundStarves(s: KState, t: int)
    requires Inv(s) && Starving(s, t)
    ensures PossibleRun(ROUND) && NeverRuns(s, ROUND, t) && Starving(Run(s, ROUND), t)
  {
    hide Inv, Step, Run;
    var s1 := Step(s, ClockTick).0;
    StepKeeps(s, ClockTick);
    TickStarves(s, t);
    var s2, c := Step(s1, ForkCall).0, First(s1, FREEQ);
    StepKeeps(s1, ForkCall);
    ForkStarves(s1, t);
    StepKeeps(s2, ExitCall);
    ExitHands(s2, c, s1.queues[RUNQ]);
    OneNever(s, ClockTick, t);
    OneNever(s1, ForkCall, t);
    OneNever(s2, ExitCall, t);
    NeverConcat(s, [ClockTick], [ForkCall], t);
    RunConcat(s, [ClockTick], [ForkCall]);
    NeverConcat(s, [ClockTick] + [ForkCall], [ExitCall], t);
    RunConcat(s, [ClockTick] + [ForkCall], [ExitCall]);
    assert [ClockTick] + [ForkCall] + [ExitCall] == ROUND;
  }

  function Rounds(k: nat): (es: seq<Event>)
    ensures PossibleRun(es) && |es| == 3 * k
  {
    if k == 0 then [] else Rounds(k - 1) + ROUND
  }

  lemma {:induction false} TicksConcat(es: seq<Event>, fs: seq<Event>)
    ensures Ticks(es + fs) == Ticks(es) + Ticks(fs)
    decreases |fs|
  {
    if fs == [] {
      assert es + fs == es;
    } else {
      TicksConcat(es, fs[..|fs| - 1]);
      assert (es + fs)[..|es + fs| - 1] == es + fs[..|fs| - 1];
    }
  }

  /** Head insertion lets a ready task starve: however long, some run has that many ticks and never
      dispatches it. */
  lemma {:induction false} Starves(s: KState, t: int, k: nat)
    requires Inv(s) && Starving(s, t)
    ensures Ticks(Rounds(k)) == k && NeverRuns(s, Rounds(k), t) && Starving(Run(s, Rounds(k)), t)
  {
    hide Inv, Run, Starving, NeverRuns;
    if k == 0 {
      RunNone(s);
      NotNow(s, t);
    } else {
      Starves(s, t, k - 1);
      var s1 := Run(s, Rounds(k - 1));
      RoundStarves(s1, t);
      TicksConcat(Rounds(k - 1), ROUND);
      OneTick();
      NeverConcat(s, Rounds(k - 1), ROUND, t);
      RunConcat(s, Rounds(k - 1), ROUND);
    }
  }

  lemma OneTick()
    ensures Ticks(ROUND) == 1
  {
    assert ROUND[..2] == [ClockTick, ForkCall] && [ClockTick, ForkCall][..1] == [ClockTick] && [ClockTick][..0] == [];
  }

  lemma NotNow(s: KState, t: int)
    requires Inv(s) && Starving(s, t)
    ensures PossibleRun([]) && NeverRuns(s, [], t)
  {
    RunNone(s);
    var none: seq<Event> := [];
    assert none[..0] == none;
  }

  // ---------- a starving state, from boot ----------

  function Clock(n: nat): (es: seq<Event>)
    ensures |es| == n && PossibleRun(es)
  {
    seq(n, _ => ClockTick)
  }

  /** Ticks short of the end of the round change only the running task's counters. */
  lemma {:induction false} ClockRuns(s: KState, n: nat)
    requires Inv(s) && n < s.roundtics
    ensures var s' := Run(s, Clock(n));
      && s'.queues == s.queues && s'.current == s.current && s'.roundtics == s.roundtics - n
      && forall t :: 0 <= t < NR_TASKS ==> s'.task[t].pid == s.task[t].pid && s'.task[t].quantum == s.task[t].quantum
  {
    hide Inv, Core;
    InvShape(s);
    if n == 0 {
      RunNone(s);
    } else {
      ClockRuns(s, n - 1);
      assert Clock(n)[..n - 1] == Clock(n - 1);
      RunLast(s, Clock(n));
      InvShape(Run(s, Clock(n - 1)));
    }
  }

  /** At the end of the round the next in runqueue takes over. */
  lemma RoundEnds(s: KState, c: int, rest: seq<int>)
    requires Inv(s) && s.roundtics == 1 && s.queues[RUNQ] == [c] + rest && c != s.current
    ensures var s' := Step(s, ClockTick).0;
      && 0 <= c < NR_TASKS && s'.current == c
      && s'.queues[FREEQ] == s.queues[FREEQ] && s'.queues[KBDQ] == s.queues[KBDQ]
      && s'.roundtics == s.task[c].quantum == s'.task[c].quantum && s'.task[c].pid == s.task[c].pid
  {
    InvShape(s);
    hide Inv, Core;
    assert s.queues[RUNQ][0] == c && c in s.queues[RUNQ];
    assert Without([c] + rest, s.current) == [c] + Without(rest, s.current);
  }

  /** Task 0 forks and its first round ends: its child runs, and could keep task 0 waiting for good. */
  lemma StarvingReached(ram: seq<seq<Byte>>, sysbuff: seq<Byte>)
    requires BootInput(ram, sysbuff) && NR_TASKS >= 3
    ensures var es := [ForkCall] + Clock(DEFAULT_QUANTUM);
      && Inv(Boot(ram, sysbuff)) && PossibleRun(es) && Starving(Run(Boot(ram, sysbuff), es), 0)
      && Run(Boot(ram, sysbuff), es).queues[KBDQ] == []
  {
    hide Inv, Run, Boot;
    BootInv(ram, sysbuff);
    var s := Boot(ram, sysbuff);
    BootFacts(ram, sysbuff);
    InvShape(s);
    FirstFork(s);
    var s1, c := Step(s, ForkCall).0, First(s, FREEQ);
    StepKeeps(s, ForkCall);
    OneEvent(s, ForkCall);
    var n := DEFAULT_QUANTUM - 1;
    ClockRuns(s1, n);
    var s2 := Run(s1, Clock(n));
    RoundEnds(s2, c, s1.queues[RUNQ][1..]);
    var s3 := Step(s2, ClockTick).0;
    StepKeeps(s2, ClockTick);
    assert Clock(DEFAULT_QUANTUM)[..n] == Clock(n);
    RunLast(s1, Clock(DEFAULT_QUANTUM));
    RunConcat(s, [ForkCall], Clock(DEFAULT_QUANTUM));
    TaskZeroReady(s3);
  }

  lemma TaskZeroReady(s: KState)
    requires Inv(s)
    ensures 0 in s.queues[RUNQ] && s.task[0].pid == 0
  {
  }

  lemma BootFacts(ram: seq<seq<Byte>>, sysbuff: seq<Byte>)
    requires BootInput(ram, sysbuff)
    ensures var s := Boot(ram, sysbuff);
      && |s.queues| == NR_QUEUES && s.queues[RUNQ] == [0] && s.queues[KBDQ] == []
      && |s.queues[FREEQ]| == NR_TASKS - 1 && |s.task| == NR_TASKS
      && s.current == 0 && s.roundtics == DEFAULT_QUANTUM && s.pidCounter == 0 && s.task[0].quantum == DEFAULT_QUANTUM
  {
    hide BootFrames, BootPhys, BootPages;
  }

  lemma FirstFork(s: KState)
    requires Inv(s) && |s.queues[FREEQ]| >= 2
    ensures var s', c := Step(s, ForkCall).0, First(s, FREEQ);
      && s'.queues[RUNQ] == [c] + s.queues[RUNQ] && s'.queues[FREEQ] != [] && s'.current == s.current != c
      && s'.queues[KBDQ] == s.queues[KBDQ]
      && s'.roundtics == s.roundtics && s'.task[c].quantum == s.task[s.current].quantum
      && s'.task[c].pid == s.pidCounter + 1
  {
    hide Core, CurrentOk, Fork, CopiedInto, CountFree;
    InvShape(s);
    ForkShape(s);
    WithoutGone(s.queues[FREEQ], First(s, FREEQ));
  }
}
