/** The counters the kernel keeps for each task: over whole runs they are exactly the ticks the task ran for and
    the times the processor was given to it. */
module KernelAccounts {
  import opened KernelTypes
  import opened KernelSpec
  import opened KernelInv
  import opened KernelProcesses
  import opened KernelMachine
  import opened KernelScheduling
  import opened KernelOutcomes
  import opened KernelTransfers

  /** The running task's turn ends: its round is over, it leaves, or it has to wait. */
  predicate Yields(s: KState, e: Event)
    requires Shaped(s)
  {
    match e
    case ClockTick => s.roundtics == 1
    case ExitCall => s.task[s.current].pid != 0
    case WaitCall(n) =>
      0 <= n < NR_SEM && s.sems[n].owner != FREE_SEM && s.task[s.current].pid != 0 && s.sems[n].value <= 0
    case ReadCall(_, size) => s.task[s.current].pid != 0 && (|s.ring| < size || s.queues[KBDQ] != [])
    case _ => false
  }

  predicate Leaves(s: KState, e: Event, t: int)
    requires Shaped(s)
  {
    e.ExitCall? && s.current == t && s.task[s.current].pid != 0
  }

  /** Task t is in use in s'; it was charged the tick if it was running, and a switch if it was given the
      processor. */
  ghost predicate Charged(s: KState, e: Event, s': KState, t: int)
    requires Shaped(s) && Shaped(s') && 0 <= t < NR_TASKS
  {
    && Live(s', t)
    && s'.task[t].tics == s.task[t].tics + (if e.ClockTick? && s.current == t then 1 else 0)
    && s'.task[t].cs == s.task[t].cs + (if Yields(s, e) && s'.current == t then 1 else 0)
  }

  lemma TickCharged(s: KState, t: int)
    requires Inv(s) && Live(s, t)
    ensures Charged(s, ClockTick, Step(s, ClockTick).0, t)
  {
    hide Core, Step;
    InvShape(s);
    if s.roundtics == 1 {
      TickHandsOver(s);
    } else {
      TickCounts(s);
    }
  }

  lemma ForkCharged(s: KState, t: int)
    requires Inv(s) && Live(s, t)
    ensures Charged(s, ForkCall, Step(s, ForkCall).0, t)
  {
    hide Core, CurrentOk, Step;
    InvShape(s);
    ForkAnswers(s);
  }

  lemma ExitCharged(s: KState, t: int)
    requires Inv(s) && Live(s, t) && !Leaves(s, ExitCall, t)
    ensures Charged(s, ExitCall, Step(s, ExitCall).0, t)
  {
    hide Core, CurrentOk, Step, OwnedWaiters;
    InvShape(s);
    ExitAnswers(s);
    if s.task[s.current].pid != 0 {
      NextIsReady(s);
    }
  }

  lemma WaitCharged(s: KState, n: int, t: int)
    requires Inv(s) && Live(s, t)
    ensures Charged(s, WaitCall(n), Step(s, WaitCall(n)).0, t)
  {
    hide Core, CurrentOk, Step;
    InvShape(s);
    WaitAnswers(s, n);
  }

  lemma ReadCharged(s: KState, buff: int, size: int, t: int)
    requires Inv(s) && Possible(ReadCall(buff, size)) && Live(s, t)
    ensures Charged(s, ReadCall(buff, size), Step(s, ReadCall(buff, size)).0, t)
  {
    hide Core, CurrentOk, Step, BytesPut;
    InvShape(s);
    ReadAnswers(s, buff, size);
  }

  /** What one entry does to the counters of a task that it does not remove. */
  lemma StepCharged(s: KState, e: Event, t: int)
    requires Inv(s) && Possible(e) && Live(s, t) && !Leaves(s, e, t)
    ensures Charged(s, e, Step(s, e).0, t)
  {
    hide Inv, Core, Step, Charged, BytesPut;
    InvShape(s);
    match e
    case ClockTick => TickCharged(s, t);
    case ForkCall => ForkCharged(s, t);
    case ExitCall => ExitCharged(s, t);
    case WaitCall(n) => WaitCharged(s, n, t);
    case ReadCall(buff, size) => ReadCharged(s, buff, size, t);
    case _ => CallCharged(s, e, t);
  }

  lemma CallCharged(s: KState, e: Event, t: int)
    requires Inv(s) && Possible(e) && Live(s, t)
    requires !(e.ClockTick? || e.ForkCall? || e.ExitCall? || e.WaitCall? || e.ReadCall?)
    ensures Charged(s, e, Step(s, e).0, t)
  {
    hide Inv, Core, Step, BytesPut;
    InvShape(s);
    match e
    case NiceCall(q) => NiceAnswers(s, q, q);
    case InitCall(n, v) => InitAnswers(s, n, v);
    case SignalCall(n) => SignalAnswers(s, n);
    case DestroyCall(n) => DestroyAnswers(s, n);
    case KeyStroke(c) => KeyAnswers(s, c);
    case Store(a, b) => StoreAnswers(s, a, b);
  }

  /** Calls answer at once exactly when the caller keeps the processor; else it goes to the first ready task, the
      running one only if nobody else is ready. */
  lemma StepTurn(s: KState, e: Event)
    requires Inv(s) && Possible(e)
    ensures var (s', r) := Step(s, e);
      && (r == NoResult <==> Yields(s, e) || e.ClockTick? || e.KeyStroke? || e.Store?)
      && s'.current == (if !Yields(s, e) || Others(s) == [] then s.current else Others(s)[0])
      && (Yields(s, e) ==> s'.roundtics == s.task[s'.current].quantum)
  {
    hide Core, CurrentOk, Step, BytesPut, OwnedWaiters;
    InvShape(s);
    match e
    case ClockTick => if s.roundtics == 1 { TickHandsOver(s); } else { TickTurn(s); }
    case ForkCall => ForkAnswers(s);
    case ExitCall => ExitAnswers(s); if s.task[s.current].pid != 0 { NextIsReady(s); }
    case NiceCall(q) => NiceAnswers(s, q, q);
    case InitCall(n, v) => InitAnswers(s, n, v);
    case WaitCall(n) => WaitAnswers(s, n);
    case SignalCall(n) => SignalAnswers(s, n);
    case DestroyCall(n) => DestroyAnswers(s, n);
    case ReadCall(buff, size) => ReadAnswers(s, buff, size);
    case KeyStroke(c) => KeyAnswers(s, c);
    case Store(a, b) => StoreAnswers(s, a, b);
  }

  lemma TickTurn(s: KState)
    requires Inv(s) && s.roundtics != 1
    ensures Step(s, ClockTick).1 == NoResult && Step(s, ClockTick).0.current == s.current
  {
    hide Core, Step;
    TickCounts(s);
  }

  // ---------- over runs ----------

  /** The task does not exit. */
  ghost predicate Stays(s: KState, es: seq<Event>, t: int)
    requires Inv(s) && PossibleRun(es)
    decreases |es|
  {
    es != [] ==> Stays(s, es[..|es|-1], t) && !Leaves(Run(s, es[..|es|-1]), es[|es|-1], t)
  }

  /** Ticks while the task was running. */
  function TicksOf(s: KState, es: seq<Event>, t: int): (n: nat)
    requires Inv(s) && PossibleRun(es)
    decreases |es|
  {
    if es == [] then 0
    else
      var before, e := es[..|es|-1], es[|es|-1];
      TicksOf(s, before, t) + if e.ClockTick? && Run(s, before).current == t then 1 else 0
  }

  /** Entries that gave it the processor. */
  function TurnsOf(s: KState, es: seq<Event>, t: int): (n: nat)
    requires Inv(s) && PossibleRun(es)
    decreases |es|
  {
    if es == [] then 0
    else
      var before, e := es[..|es|-1], es[|es|-1];
      TurnsOf(s, before, t) + if Yields(Run(s, before), e) && Run(s, es).current == t then 1 else 0
  }

  /** The counters are exact over every run in which the task does not exit. */
  lemma {:induction false} CountersExact(s: KState, es: seq<Event>, t: int)
    requires Inv(s) && PossibleRun(es) && Live(s, t) && Stays(s, es, t)
    ensures var s' := Run(s, es);
      && Live(s', t)
      && s'.task[t].tics == s.task[t].tics + TicksOf(s, es, t)
      && s'.task[t].cs == s.task[t].cs + TurnsOf(s, es, t)
    decreases |es|
  {
    hide Inv, Step, Run, Yields, Core;
    InvShape(s);
    if es == [] {
      RunNone(s);
    } else {
      var n := |es| - 1;
      RunLast(s, es);
      var s1 := Run(s, es[..n]);
      InvShape(s1);
      CountersExact(s, es[..n], t);
      StepCharged(s1, es[n], t);
    }
  }

  /** Every tick is somebody's: over all tasks the ticks of a run add up. */
  function TicksOfFirst(s: KState, es: seq<Event>, n: nat): (sum: nat)
    requires Inv(s) && PossibleRun(es)
  {
    if n == 0 then 0 else TicksOfFirst(s, es, n - 1) + TicksOf(s, es, n - 1)
  }

  lemma {:induction false} NoTicksYet(s: KState, n: nat)
    requires Inv(s)
    ensures PossibleRun([]) && TicksOfFirst(s, [], n) == 0
  {
    if n > 0 {
      NoTicksYet(s, n - 1);
    }
  }

  lemma {:induction false} TicksOneMore(s: KState, es: seq<Event>, n: nat)
    requires Inv(s) && PossibleRun(es) && es != [] && PossibleRun(es[..|es|-1])
    ensures var before, e := es[..|es|-1], es[|es|-1];
      TicksOfFirst(s, es, n) == TicksOfFirst(s, before, n)
                                + if e.ClockTick? && 0 <= Run(s, before).current < n then 1 else 0
    decreases n
  {
    hide Inv, Run;
    if n > 0 {
      TicksOneMore(s, es, n - 1);
    }
  }

  lemma {:induction false} TicksAddUp(s: KState, es: seq<Event>)
    requires Inv(s) && PossibleRun(es)
    ensures TicksOfFirst(s, es, NR_TASKS) == Ticks(es)
    decreases |es|
  {
    hide Inv, Run, TicksOf, TicksOfFirst;
    if es == [] {
      NoTicksYet(s, NR_TASKS);
    } else {
      RunPrefix(es);
      TicksAddUp(s, es[..|es|-1]);
      TicksOneMore(s, es, NR_TASKS);
      InvShape(Run(s, es[..|es|-1]));
    }
  }
}
