/** Bounded waiting: a ready task's distance to the processor is known exactly, drops with every tick,
    and grows only by forks. */
module KernelScheduling {
  import opened Sequences
  import opened KernelTypes
  import opened MemorySpec
  import opened KernelSpec
  import opened KernelInv
  import opened KernelSteps
  import opened KernelProcesses
  import opened KernelMachine

  /** The quanta of the tasks in front of t. */
  function Ahead(q: seq<int>, task: seq<Task>, t: int): (n: int)
    requires forall x :: x in q ==> 0 <= x < |task|
  {
    if q == [] || q[0] == t then 0
    else
      assert q[0] in q && forall x :: x in q[1..] ==> x in q;
      task[q[0]].quantum + Ahead(q[1..], task, t)
  }

  /** Ready to run, waiting for the processor. */
  ghost predicate IsReady(s: KState, t: int)
    requires Shaped(s)
  {
    t in s.queues[RUNQ] && t != s.current
  }

  function Others(s: KState): (q: seq<int>)
    requires Shaped(s)
    ensures forall x :: x in q ==> 0 <= x < NR_TASKS
  {
    Without(s.queues[RUNQ], s.current)
  }

  /** The clock ticks until t is dispatched, if nobody forks, blocks or leaves. */
  function Rank(s: KState, t: int): (n: int)
    requires Shaped(s)
  {
    s.roundtics + Ahead(Others(s), s.task, t)
  }

  // ---------- facts about Ahead ----------

  lemma {:induction false} AheadTail(q: seq<int>, r: seq<int>, task: seq<Task>, t: int)
    requires t in q && forall x :: x in q + r ==> 0 <= x < |task|
    ensures (forall x :: x in q ==> 0 <= x < |task|) && Ahead(q + r, task, t) == Ahead(q, task, t)
  {
    assert forall x :: x in q ==> x in q + r;
    if q[0] != t {
      assert (q + r)[1..] == q[1..] + r;
      assert forall x :: x in q[1..] + r ==> x in q + r;
      AheadTail(q[1..], r, task, t);
    }
  }

  lemma {:induction false} AheadSame(q: seq<int>, task: seq<Task>, task': seq<Task>, t: int)
    requires |task'| == |task| && forall x :: x in q ==> 0 <= x < |task| && task'[x].quantum == task[x].quantum
    ensures Ahead(q, task, t) == Ahead(q, task', t)
  {
    if q != [] && q[0] != t {
      assert forall x :: x in q[1..] ==> x in q;
      AheadSame(q[1..], task, task', t);
    }
  }

  lemma {:induction false} AheadNonNegative(q: seq<int>, task: seq<Task>, t: int)
    requires forall x :: x in q ==> 0 <= x < |task| && task[x].quantum > 0
    ensures Ahead(q, task, t) >= 0
    ensures q != [] && q[0] != t ==> Ahead(q, task, t) > 0
  {
    if q != [] && q[0] != t {
      assert q[0] in q && forall x :: x in q[1..] ==> x in q;
      AheadNonNegative(q[1..], task, t);
    }
  }

  // ---------- what a change of the running task does ----------

  /** s1 has lost its running task to elsewhere: the ready ones follow in order, then perhaps others.
      After the dispatch either t runs, or it is one quantum nearer. */
  lemma DispatchRank(s: KState, s1: KState, extra: seq<int>, t: int)
    requires Inv(s) && IsReady(s, t)
    requires Shaped(s1) && s1.queues[RUNQ] == Others(s) + extra && NoDup(s1.queues[RUNQ])
    requires forall x :: x in Others(s) ==> s1.task[x].quantum == s.task[x].quantum
    ensures Others(s) != [] && s1.queues[RUNQ] != []
    ensures var s' := Dispatch(s1);
      && (s'.current == t <==> Others(s)[0] == t)
      && (s'.current != t ==> IsReady(s', t) && Rank(s', t) == Rank(s, t) - s.roundtics)
  {
    hide Core, CurrentOk;
    InvShape(s);
    var q := Others(s);
    assert t in q && (q + extra)[0] == q[0];
    var s' := Dispatch(s1);
    if q[0] != t {
      assert Without(q + extra, q[0]) == q[1..] + extra by { assert (q + extra)[1..] == q[1..] + extra; }
      assert Others(s') == q[1..] + extra;
      assert forall x :: x in q[1..] ==> x in q;
      AheadTail(q[1..], extra, s'.task, t);
      AheadSame(q[1..], s.task, s'.task, t);
    }
  }

  /** The running task stays; others may have joined the end of the queue. */
  lemma StayRank(s: KState, s': KState, extra: seq<int>, t: int)
    requires Inv(s) && IsReady(s, t) && Shaped(s')
    requires s'.current == s.current && s'.queues[RUNQ] == s.queues[RUNQ] + extra
    requires forall x :: x in Others(s) ==> s'.task[x].quantum == s.task[x].quantum
    ensures IsReady(s', t) && Rank(s', t) - s'.roundtics == Rank(s, t) - s.roundtics
  {
    hide Core;
    InvShape(s);
    WithoutConcat(s.queues[RUNQ], extra, s.current);
    AheadTail(Others(s), extra, s'.task, t);
    AheadSame(Others(s), s.task, s'.task, t);
  }

  /** A ready task is at least one tick away, and exactly one only if it is next and the running task is
      on its last tick. */
  lemma RankPositive(s: KState, t: int)
    requires Inv(s) && IsReady(s, t)
    ensures Rank(s, t) >= s.roundtics >= 1 && Others(s) != []
    ensures Rank(s, t) == s.roundtics <==> Others(s)[0] == t
  {
    QuantaOfOthers(s);
    hide Core;
    InvShape(s);
    assert t in Others(s);
    AheadNonNegative(Others(s), s.task, t);
  }

  lemma QuantaOfOthers(s: KState)
    requires Inv(s)
    ensures forall x :: x in Others(s) ==> s.task[x].quantum > 0
    ensures NoDup(s.queues[RUNQ])
  {
    forall x | x in Others(s) ensures s.task[x].quantum > 0 {
      RunnableFacts(s, x);
    }
  }

  // ---------- one step ----------

  lemma TickRank(s: KState, t: int)
    requires Inv(s) && IsReady(s, t)
    ensures var s' := Tick(s);
      && (s'.current == t <==> Rank(s, t) == 1)
      && (s'.current != t ==> IsReady(s', t) && Rank(s', t) == Rank(s, t) - 1)
  {
    RankPositive(s, t);
    hide Core, Pause, Dispatch, Rank, CurrentOk;
    InvShape(s);
    var s1 := Ticked(s);
    if s1.roundtics == 0 {
      PauseRank(s, t);
    } else {
      assert s1.queues[RUNQ] == s.queues[RUNQ] + [];
      StayRank(s, s1, [], t);
    }
  }

  lemma PauseRank(s: KState, t: int)
    requires Inv(s) && IsReady(s, t)
    ensures Others(s) != []
    ensures var s' := Dispatch(Pause(Ticked(s)));
      && (s'.current == t <==> Others(s)[0] == t)
      && (s'.current != t ==> IsReady(s', t) && Rank(s', t) == Rank(s, t) - s.roundtics)
  {
    QuantaOfOthers(s);
    hide Core;
    InvShape(s);
    WithoutGone(s.queues[RUNQ], s.current);
    ConcatNoDup(Others(s), [s.current]);
    DispatchRank(s, Pause(Ticked(s)), [s.current], t);
  }

  /** When the running task blocks. */
  lemma BlockRank(s: KState, s0: KState, q: nat, t: int)
    requires Inv(s) && IsReady(s, t) && Shaped(s0) && KBDQ <= q < NR_QUEUES
    requires s0.queues == s.queues && s0.current == s.current
    requires forall x :: x in Others(s) ==> s0.task[x].quantum == s.task[x].quantum
    ensures Block(s0, q).queues[RUNQ] != []
    ensures var s' := Dispatch(Block(s0, q));
      s'.current == t || (IsReady(s', t) && Rank(s', t) == Rank(s, t) - s.roundtics)
  {
    QuantaOfOthers(s);
    hide Core;
    InvShape(s);
    WithoutGone(s.queues[RUNQ], s.current);
    assert Others(s) + [] == Others(s);
    DispatchRank(s, Block(s0, q), [], t);
  }

  lemma ExitRank(s: KState, t: int)
    requires Inv(s) && IsReady(s, t) && s.task[s.current].pid != 0
    ensures FramesInRange(s, s.current) && Removed(s).queues[RUNQ] != []
    ensures var s' := Dispatch(Removed(s));
      s'.current == t || (IsReady(s', t) && Rank(s', t) == Rank(s, t) - s.roundtics)
  {
    hide Core, CurrentOk, Removed, DestroyOwned;
    InvParts(s);
    ExitKeeps(s);
    RemovedIsSlotFreed(s);
    var s2, s3 := DestroyOwned(s, s.task[s.current].pid, NR_SEM), Removed(s);
    var extra := s2.queues[RUNQ][|s.queues[RUNQ]|..];
    assert s2.queues[RUNQ] == s.queues[RUNQ] + extra;
    WithoutConcat(s.queues[RUNQ], extra, s.current);
    InvShape(Dispatch(s3));
    RunqueueOnce(s3);
    DispatchRank(s, s3, extra, t);
  }

  lemma RunqueueOnce(s: KState)
    requires Core(s)
    ensures NoDup(s.queues[RUNQ])
  {
  }

  /** A successful fork puts the child in front: everybody ready waits its quantum longer. */
  lemma ForkRank(s: KState, t: int)
    requires Inv(s) && IsReady(s, t) && s.queues[FREEQ] != []
    ensures var s' := Fork(s).0;
      && s'.current == s.current && IsReady(s', t)
      && Rank(s', t) == Rank(s, t) + s.task[s.current].quantum
  {
    ForkHomes(s);
    hide Core, CurrentOk, Fork, CopyPages, CopiedInto, CountFree;
    InvShape(s);
    ForkShape(s);
    var s', c := Fork(s).0, First(s, FREEQ);
    assert Others(s') == [c] + Others(s);
    assert Others(s')[1..] == Others(s);
    AheadSame(Others(s), s.task, s'.task, t);
  }

  lemma ForkHomes(s: KState)
    requires Inv(s) && s.queues[FREEQ] != []
    ensures First(s, FREEQ) !in s.queues[RUNQ]
  {
  }

  /** Steps that only bring waiting tasks back. */
  lemma WakeRank(s: KState, s0: KState, w: int, q: nat, eax: int, t: int)
    requires Inv(s) && IsReady(s, t) && Shaped(s0) && KBDQ <= q < NR_QUEUES && w in s.queues[q]
    requires s0.queues == s.queues && s0.task == s.task && s0.current == s.current && s0.roundtics == s.roundtics
    ensures var s' := Wake(s0, w, q, eax);
      s'.current == s.current && IsReady(s', t) && Rank(s', t) == Rank(s, t)
  {
    hide Core, CurrentOk;
    InvShape(s);
    StayRank(s, Wake(s0, w, q, eax), [w], t);
  }

  lemma KeyRank(s: KState, c: Byte, t: int)
    requires Inv(s) && IsReady(s, t) && (s.queues[KBDQ] != [] ==> WishOk(s, First(s, KBDQ)))
    ensures var s' := KeyPress(s, c);
      s'.current == s.current && IsReady(s', t) && Rank(s', t) == Rank(s, t)
  {
    hide Core, CurrentOk, WishOk, Movable, Stored;
    InvShape(s);
    var s1 := s.(ring := RingSaved(s.ring, c));
    if Deliverable(s1) {
      WishUnmoved(s, s1, First(s, KBDQ));
      var k := First(s1, KBDQ);
      WakeRank(s, Stored(s1), k, KBDQ, s1.task[k].offset + Movable(s1.ring, s1.task[k].remain), t);
    } else {
      assert s1.queues[RUNQ] + [] == s.queues[RUNQ];
      StayRank(s, s1, [], t);
    }
  }

  lemma QuietRank(s: KState, s': KState, extra: seq<int>, t: int)
    requires Inv(s) && IsReady(s, t) && Shaped(s') && s'.current == s.current && s'.roundtics == s.roundtics
    requires s'.queues[RUNQ] == s.queues[RUNQ] + extra
    requires forall x :: x in Others(s) ==> s'.task[x].quantum == s.task[x].quantum
    ensures IsReady(s', t) && Rank(s', t) == Rank(s, t)
  {
    StayRank(s, s', extra, t);
  }

  lemma CallQueues(s: KState, e: Event)
    requires Inv(s) && Possible(e)
    requires e.NiceCall? || e.InitCall? || e.SignalCall? || e.DestroyCall? || e.Store?
    ensures var s' := Step(s, e).0;
      && s.queues[RUNQ] <= s'.queues[RUNQ] && s'.queues[FREEQ] == s.queues[FREEQ]
      && s'.current == s.current && s'.roundtics == s.roundtics
  {
    hide Core, CurrentOk, StoreByte;
    InvShape(s);
  }

  /** Nobody but the running task has its quantum changed. */
  lemma CallQuanta(s: KState, e: Event)
    requires Inv(s) && Possible(e)
    requires e.NiceCall? || e.InitCall? || e.SignalCall? || e.DestroyCall? || e.Store?
    ensures Shaped(s)
    ensures forall x :: 0 <= x < NR_TASKS && x != s.current ==> Step(s, e).0.task[x].quantum == s.task[x].quantum
  {
    hide Core, CurrentOk, StoreByte, ToTail, Drain;
    InvShape(s);
  }

  /** Only wakers grow the queue. */
  lemma CallRank(s: KState, e: Event, t: int)
    requires Inv(s) && Possible(e) && IsReady(s, t)
    requires e.NiceCall? || e.InitCall? || e.SignalCall? || e.DestroyCall? || e.Store?
    ensures var s' := Step(s, e).0;
      s'.current == s.current && IsReady(s', t) && Rank(s', t) == Rank(s, t)
  {
    hide Inv, Core, Rank, Step, Others;
    InvShape(s);
    RunqueueAlone(s);
    var s' := Step(s, e).0;
    CallQueues(s, e);
    CallQuanta(s, e);
    var extra := s'.queues[RUNQ][|s.queues[RUNQ]|..];
    assert s'.queues[RUNQ] == s.queues[RUNQ] + extra;
    OthersQuanta(s, s');
    QuietRank(s, s', extra, t);
  }

  lemma RunqueueAlone(s: KState)
    requires Inv(s)
    ensures forall x :: x in Others(s) ==> x != s.current && 0 <= x < NR_TASKS
  {
    WithoutGone(s.queues[RUNQ], s.current);
  }

  lemma OthersQuanta(s: KState, s': KState)
    requires Inv(s) && Shaped(s')
    requires forall x :: 0 <= x < NR_TASKS && x != s.current ==> s'.task[x].quantum == s.task[x].quantum
    ensures forall x :: x in Others(s) ==> s'.task[x].quantum == s.task[x].quantum
  {
    RunqueueAlone(s);
  }

  lemma WaitRank(s: KState, n: int, t: int)
    requires Inv(s) && IsReady(s, t)
    ensures WaitBlocks(s, n) ==> Block(s, SemQ(n)).queues[RUNQ] != []
    ensures var s' := SemWait(s, n).0;
      s'.current == t || (IsReady(s', t) && Rank(s', t) <= Rank(s, t))
  {
    WaitReady(s, n);
    RankPositive(s, t);
    hide Core, CurrentOk, Rank, Dispatch, Block;
    InvShape(s);
    if WaitBlocks(s, n) {
      BlockRank(s, s, SemQ(n), t);
    } else {
      var s' := SemWait(s, n).0;
      assert s'.queues[RUNQ] == s.queues[RUNQ] + [];
      QuietRank(s, s', [], t);
    }
  }

  lemma ReadRank(s: KState, buff: int, size: int, t: int)
    requires Inv(s) && IsReady(s, t) && AccessOk(buff, size)
    ensures ReadBlocks(s, size) ==> ReadWaits(s, buff, size).queues[RUNQ] != []
    ensures var s' := ReadKeyboard(s, buff, size).0;
      s'.current == t || (IsReady(s', t) && Rank(s', t) <= Rank(s, t))
  {
    ReadReady(s, buff, size);
    RankPositive(s, t);
    hide Core, CurrentOk, Rank, Dispatch, Block, StoreBytes;
    InvShape(s);
    if ReadBlocks(s, size) {
      BlockRank(s, Wishing(s, buff, size), KBDQ, t);
    } else {
      var s' := ReadKeyboard(s, buff, size).0;
      assert s'.queues[RUNQ] == s.queues[RUNQ] + [];
      QuietRank(s, s', [], t);
    }
  }

  /** How much longer ready tasks have to wait because of this event. */
  function ForkCost(s: KState, e: Event): (n: int)
    requires Shaped(s)
  {
    if e.ForkCall? && s.queues[FREEQ] != [] then s.task[s.current].quantum else 0
  }

  /** A tick brings a ready task exactly one nearer, and dispatches it exactly when it was one away; no
      other event moves it back, except a fork, by exactly the parent's quantum. */
  lemma StepRank(s: KState, e: Event, t: int)
    requires Inv(s) && Possible(e) && IsReady(s, t)
    ensures var s' := Step(s, e).0;
      && (s'.current == t || IsReady(s', t))
      && (e.ClockTick? ==> (s'.current == t <==> Rank(s, t) == 1))
      && (e.ClockTick? && s'.current != t ==> Rank(s', t) == Rank(s, t) - 1)
      && (e.ForkCall? ==> s'.current != t && Rank(s', t) == Rank(s, t) + ForkCost(s, e))
      && (!e.ClockTick? && s'.current != t ==> Rank(s', t) <= Rank(s, t) + ForkCost(s, e))
  {
    RankPositive(s, t);
    hide Core, CurrentOk, Rank, Fork, SemWait, ReadKeyboard, Tick, KeyPress, Dispatch, Removed;
    match e
    case ClockTick => TickRank(s, t);
    case ForkCall => ForkRankAny(s, t);
    case ExitCall =>
      ExitReady(s);
      if s.task[s.current].pid != 0 {
        ExitRank(s, t);
      }
    case WaitCall(n) => WaitRank(s, n, t);
    case ReadCall(buff, size) => ReadRank(s, buff, size, t);
    case KeyStroke(c) => KeyReady(s); KeyRank(s, c, t);
    case _ => CallRank(s, e, t);
  }

  lemma ForkRankAny(s: KState, t: int)
    requires Inv(s) && IsReady(s, t)
    ensures var s' := Fork(s).0;
      && s'.current == s.current && IsReady(s', t)
      && Rank(s', t) == Rank(s, t) + if s.queues[FREEQ] != [] then s.task[s.current].quantum else 0
  {
    hide Core, CurrentOk, Rank, CopyPages;
    InvShape(s);
    if s.queues[FREEQ] != [] {
      ForkRank(s, t);
    }
  }

  // ---------- runs ----------

  function Ticks(es: seq<Event>): (n: nat)
    decreases |es|
  {
    if es == [] then 0 else Ticks(es[..|es|-1]) + if es[|es|-1].ClockTick? then 1 else 0
  }

  function ForkCosts(s: KState, es: seq<Event>): (n: int)
    requires Inv(s) && PossibleRun(es)
    decreases |es|
  {
    if es == [] then 0
    else ForkCosts(s, es[..|es|-1]) + ForkCost(Run(s, es[..|es|-1]), es[|es|-1])
  }

  /** t does not get the processor at any point of the run. */
  ghost predicate NeverRuns(s: KState, es: seq<Event>, t: int)
    requires Inv(s) && PossibleRun(es)
  {
    forall i :: 0 <= i <= |es| ==> Run(s, es[..i]).current != t
  }

  /** Over any run in which a ready task is not dispatched, the ticks that pass plus the distance left
      are at most the distance at the start plus what forks added. */
  lemma {:induction false} BoundedWait(s: KState, es: seq<Event>, t: int)
    requires Inv(s) && PossibleRun(es) && IsReady(s, t) && NeverRuns(s, es, t)
    ensures var s' := Run(s, es);
      IsReady(s', t) && Rank(s', t) >= 1 && Ticks(es) + Rank(s', t) <= Rank(s, t) + ForkCosts(s, es)
    decreases |es|
  {
    hide Inv, Rank, Run, Step, Ticks, ForkCosts, IsReady;
    if es == [] {
      RunNone(s);
      NoCosts(s);
      RankPositive(s, t);
    } else {
      var n := |es| - 1;
      RunLast(s, es);
      CostLast(s, es);
      forall i | 0 <= i <= n ensures Run(s, es[..n][..i]).current != t {
        assert es[..n][..i] == es[..i];
      }
      assert es[..|es|] == es;
      BoundedWait(s, es[..n], t);
      StepRank(Run(s, es[..n]), es[n], t);
      RankPositive(Run(s, es), t);
    }
  }

  lemma NoCosts(s: KState)
    requires Inv(s)
    ensures PossibleRun([]) && Ticks([]) == 0 && ForkCosts(s, []) == 0
  {
  }

  lemma CostLast(s: KState, es: seq<Event>)
    requires Inv(s) && PossibleRun(es) && es != [] && PossibleRun(es[..|es|-1])
    ensures Ticks(es) == Ticks(es[..|es|-1]) + if es[|es|-1].ClockTick? then 1 else 0
    ensures ForkCosts(s, es) == ForkCosts(s, es[..|es|-1]) + ForkCost(Run(s, es[..|es|-1]), es[|es|-1])
  {
  }

  /** A ready task gets the processor within as many ticks as its distance and what forks add to it. */
  lemma DispatchedInTime(s: KState, es: seq<Event>, t: int)
    requires Inv(s) && PossibleRun(es) && IsReady(s, t) && Ticks(es) >= Rank(s, t) + ForkCosts(s, es)
    ensures exists i :: 0 <= i <= |es| && Run(s, es[..i]).current == t
  {
    if NeverRuns(s, es, t) {
      BoundedWait(s, es, t);
    }
  }

  /** Without forks, that is its distance alone. */
  lemma {:induction false} NoForkNoCost(s: KState, es: seq<Event>)
    requires Inv(s) && PossibleRun(es) && forall i :: 0 <= i < |es| ==> !es[i].ForkCall?
    ensures ForkCosts(s, es) == 0
    decreases |es|
  {
    if es != [] {
      NoForkNoCost(s, es[..|es|-1]);
    }
  }
}
