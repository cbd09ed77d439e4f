/** States from which the keyboard path fails its readers, each reached by a run from boot. */
module KernelReached {
  import opened KernelTypes
  import opened KernelSpec
  import opened KernelInv
  import opened KernelProcesses
  import opened KernelMachine
  import opened KernelBoot
  import opened KernelWaiting
  import opened KernelKeyboard

  // ---------- the full buffer ----------

  /** Keys nobody reads stay in the buffer. */
  lemma {:induction false} KeysFill(s: KState, n: nat)
    requires Inv(s) && s.queues[KBDQ] == [] && |s.ring| + n <= CIRC_BUFF_SIZE
    ensures var s' := Run(s, Strokes(n)); s'.queues == s.queues && |s'.ring| == |s.ring| + n
  {
    hide Inv;
    InvShape(s);
    if n == 0 {
      assert Strokes(0) == [];
      RunNone(s);
    } else {
      KeysFill(s, n - 1);
      LastStroke(s, n);
      InvShape(Run(s, Strokes(n - 1)));
    }
  }

  /** As many key presses as the buffer holds, and it is full for good: the later input of any run is lost,
      and reads return 0. */
  lemma FullReached(ram: seq<seq<Byte>>, sysbuff: seq<Byte>, es: seq<Event>)
    requires BootInput(ram, sysbuff) && PossibleRun(es)
    ensures Inv(Boot(ram, sysbuff)) && PossibleRun(Strokes(CIRC_BUFF_SIZE) + es)
    ensures |Run(Boot(ram, sysbuff), Strokes(CIRC_BUFF_SIZE) + es).ring| == CIRC_BUFF_SIZE
  {
    hide Inv, Run;
    BootInv(ram, sysbuff);
    BootBuffer(ram, sysbuff);
    var s := Boot(ram, sysbuff);
    KeysFill(s, CIRC_BUFF_SIZE);
    FullForever(Run(s, Strokes(CIRC_BUFF_SIZE)), es);
    RunConcat(s, Strokes(CIRC_BUFF_SIZE), es);
  }

  lemma BootBuffer(ram: seq<seq<Byte>>, sysbuff: seq<Byte>)
    requires BootInput(ram, sysbuff)
    ensures var s := Boot(ram, sysbuff); |s.queues| == NR_QUEUES && s.queues[KBDQ] == [] && s.ring == []
  {
    hide BootFrames, BootPhys, BootPages;
  }

  // ---------- a reader that waits for good ----------

  /** The first child asks for one character more than the buffer holds. */
  lemma StuckReached(ram: seq<seq<Byte>>, sysbuff: seq<Byte>)
    requires BootInput(ram, sysbuff) && NR_TASKS >= 3 && CIRC_BUFF_SIZE + 2 <= NUM_PAG_DATA * PAGE_SIZE
    ensures var es := [ForkCall] + Clock(DEFAULT_QUANTUM) + [ReadCall(1, CIRC_BUFF_SIZE + 1)];
      && Inv(Boot(ram, sysbuff)) && PossibleRun(es)
      && var s := Run(Boot(ram, sysbuff), es);
         |s.queues[KBDQ]| == 1 && !Servable(s, 0)
         && forall more :: PossibleRun(more) ==> s.queues[KBDQ][0] in Run(s, more).queues[KBDQ]
  {
    hide Inv, Run, Servable, Step, Boot;
    BootInv(ram, sysbuff);
    StarvingReached(ram, sysbuff);
    var s, es, e := Boot(ram, sysbuff), [ForkCall] + Clock(DEFAULT_QUANTUM), ReadCall(1, CIRC_BUFF_SIZE + 1);
    var s1 := Run(s, es);
    OneEvent(s1, e);
    RunConcat(s, es, [e]);
    AsksTooMuch(s1);
    StepKeeps(s1, e);
    StuckIff(Step(s1, e).0, 0);
  }

  lemma AsksTooMuch(s: KState)
    requires Inv(s) && s.queues[KBDQ] == [] && s.task[s.current].pid != 0
    requires CIRC_BUFF_SIZE + 2 <= NUM_PAG_DATA * PAGE_SIZE
    ensures var s' := Step(s, ReadCall(1, CIRC_BUFF_SIZE + 1)).0; |s'.queues[KBDQ]| == 1 && !Servable(s', 0)
  {
    hide Inv, Core, ReadKeyboard;
    InvShape(s);
    ReadReady(s, 1, CIRC_BUFF_SIZE + 1);
    ReadJoins(s, 1, CIRC_BUFF_SIZE + 1);
    var s' := Step(s, ReadCall(1, CIRC_BUFF_SIZE + 1)).0;
    assert s'.queues[KBDQ] == [s.current];
    assert Missed(s');
  }
}
