/** With what result a task that was created, or had to wait, goes on when it next gets the processor. */
module KernelReturns {
  import opened KernelTypes
  import opened KernelInv
  import opened KernelProcesses
  import opened KernelMachine
  import opened KernelScheduling
  import opened KernelSemaphores
  import opened KernelWaiting
  import opened KernelOutcomes
  import opened KernelTransfers

  /** es ends with the first dispatch of t after s. */
  ghost predicate FirstRun(s: KState, es: seq<Event>, t: int)
    requires Inv(s)
  {
    && PossibleRun(es) && es != []
    && NeverRuns(s, es[..|es|-1], t) && Run(s, es).current == t
  }

  lemma ComesBack(s: KState, es: seq<Event>, t: int)
    requires Inv(s) && t in s.queues[RUNQ] && FirstRun(s, es, t)
    ensures 0 <= t < NR_TASKS && Run(s, es).task[t].eax == s.task[t].eax
  {
    hide Inv, Run;
    RunNone(s);
    assert es[..|es|-1][..0] == [];
    ResultKept(s, es, t);
  }

  /** The child of a fork is first dispatched with 0, whatever happens in between. */
  lemma ChildStartsWithZero(s: KState, es: seq<Event>)
    requires Inv(s) && s.queues[FREEQ] != []
    ensures var s', c := Step(s, ForkCall).0, s.queues[FREEQ][0];
      Inv(s') && (FirstRun(s', es, c) ==> 0 <= c < NR_TASKS && Run(s', es).task[c].eax == 0)
  {
    hide Inv, Step, Run, Core, FirstRun;
    InvShape(s);
    StepKeeps(s, ForkCall);
    ForkAnswers(s);
    var s', c := Step(s, ForkCall).0, s.queues[FREEQ][0];
    if FirstRun(s', es, c) {
      assert s'.queues[RUNQ][0] == c;
      ComesBack(s', es, c);
    }
  }

  /** The whole of a wait that blocks: the caller, with p waiters before it, comes back from sem_wait with 0
      if the semaphore stays in use until the (p+1)st signal, and with -1 if it is given up before that. */
  lemma WaitComesBack(s: KState, n: nat, es: seq<Event>, e: Event, fs: seq<Event>)
    requires Inv(s) && n < NR_SEM && InUse(s, n) && s.task[s.current].pid != 0 && s.sems[n].value <= 0
    requires var s1 := Step(s, WaitCall(n)).0;
      Inv(s1) && PossibleRun(es) && InUseThroughout(s1, es, n) && Signals(es, n) <= |s.queues[SemQ(n)]|
    requires var s2 := Run(Step(s, WaitCall(n)).0, es);
      && Possible(e) && Inv(Step(s2, e).0) && FirstRun(Step(s2, e).0, fs, s.current)
      && if e == SignalCall(n) then Signals(es, n) == |s.queues[SemQ(n)]| else !InUse(Step(s2, e).0, n)
    ensures var s3 := Step(Run(Step(s, WaitCall(n)).0, es), e).0;
      Run(s3, fs).task[s.current].eax == if e == SignalCall(n) then 0 else -1
  {
    hide Inv, Step, Run, Core, FirstRun, InUseThroughout;
    InvShape(s);
    WaitAnswers(s, n);
    var s1, p := Step(s, WaitCall(n)).0, |s.queues[SemQ(n)]|;
    InvShape(s1);
    assert s1.queues[SemQ(n)][p] == s.current;
    WaiterKeepsPlace(s1, es, n, p);
    var s2 := Run(s1, es);
    StillInUse(s1, es, n);
    WaiterStep(s2, e, n, p - Signals(es, n));
    InvShape(s2);
    ComesBack(Step(s2, e).0, fs, s.current);
  }

  lemma StillInUse(s: KState, es: seq<Event>, n: nat)
    requires Inv(s) && PossibleRun(es) && n < NR_SEM && InUseThroughout(s, es, n)
    ensures InUse(Run(s, es), n)
  {
    hide Inv, Step;
  }

  /** A reader that a key press serves comes back with the number of characters it asked for, all the buffer
      held; from a buffer the key press filled up, with 0. */
  lemma ReaderComesBack(s: KState, c: Byte, es: seq<Event>)
    requires Inv(s) && s.queues[KBDQ] != [] && 0 <= s.queues[KBDQ][0] < NR_TASKS
    requires |WithKey(s.ring, c)| == s.task[s.queues[KBDQ][0]].remain
    ensures var s', t := Step(s, KeyStroke(c)).0, s.queues[KBDQ][0];
      Inv(s') && (FirstRun(s', es, t) ==>
        Run(s', es).task[t].eax == if s.task[t].remain == CIRC_BUFF_SIZE then 0 else s.task[t].remain)
  {
    hide Inv, Step, Run, Core, FirstRun, BytesPut;
    InvShape(s);
    StepKeeps(s, KeyStroke(c));
    KeyAnswers(s, c);
    var s', t := Step(s, KeyStroke(c)).0, s.queues[KBDQ][0];
    assert t in s.queues[KBDQ];
    if FirstRun(s', es, t) {
      assert s'.queues[RUNQ][|s.queues[RUNQ]|] == t;
      ComesBack(s', es, t);
    }
  }
}
