/** What each kernel entry point does to the state: system calls, the clock, the keyboard, and user
    stores.  Queues are sequences here; the linked lists refine them. */
module KernelSpec {
  import opened Sequences
  import opened KernelTypes
  import opened MemorySpec

  predicate Shaped(s: KState) {
    && |s.task| == NR_TASKS && |s.queues| == NR_QUEUES && |s.sems| == NR_SEM && MemShaped(s.mem)
    && |s.ring| <= CIRC_BUFF_SIZE && |s.sysbuff| == SYSBUFF_SIZE && 0 <= s.current < NR_TASKS
    && (forall t :: 0 <= t < NR_TASKS ==> |s.task[t].frames| == NUM_PAG_DATA)
    && forall k, t :: 0 <= k < NR_QUEUES && t in s.queues[k] ==> 0 <= t < NR_TASKS
  }

  /** list_first of a non-empty queue. */
  function First(s: KState, k: nat): (t: int)
    requires Shaped(s) && k < NR_QUEUES && s.queues[k] != []
    ensures t == s.queues[k][0] && t in s.queues[k] && 0 <= t < NR_TASKS
  {
    assert s.queues[k][0] in s.queues[k];
    s.queues[k][0]
  }

  // ---------- scheduling primitives ----------

  /** sched_pause(current()) */
  function Pause(s: KState): (s': KState)
    requires Shaped(s)
    ensures Shaped(s') && s'.queues[RUNQ] != []
  {
    s.(queues := ToTail(s.queues, s.current, RUNQ, RUNQ),
       task := s.task[s.current := s.task[s.current].(state := Ready)])
  }

  /** sched_continue(sched_select_next()): the head of runqueue gets the processor and the data window. */
  function Dispatch(s: KState): (s': KState)
    requires Shaped(s) && s.queues[RUNQ] != []
    ensures Shaped(s')
  {
    var t := First(s, RUNQ);
    var next := s.task[t].(cs := s.task[t].cs + 1, remainingQuantum := s.task[t].quantum, state := Running);
    s.(task := s.task[t := next], roundtics := next.quantum, current := t,
       mem := s.mem.(pages := Window(s.mem.pages, next.frames)))
  }

  /** sched_block(current(), queue) */
  function Block(s: KState, q: nat): (s': KState)
    requires Shaped(s) && q < NR_QUEUES
    ensures Shaped(s')
  {
    s.(queues := ToTail(s.queues, s.current, RUNQ, q),
       task := s.task[s.current := s.task[s.current].(state := Blocked)])
  }

  /** A blocked task made ready, its saved result set. */
  function Woken(t: Task, eax: int): (t': Task) {
    t.(state := Ready, remain := 0, offset := 0, eax := eax)
  }

  /** The result is stored and sched_unblock(t) moves t to the end of runqueue. */
  function Wake(s: KState, t: int, q: nat, eax: int): (s': KState)
    requires Shaped(s) && q < NR_QUEUES && 0 <= t < NR_TASKS
    ensures Shaped(s')
  {
    s.(queues := ToTail(s.queues, t, q, RUNQ), task := s.task[t := Woken(s.task[t], eax)])
  }

  /** All waiters of a queue, in order, with the same result. */
  function WakeAll(s: KState, q: nat, eax: int): (s': KState)
    requires Shaped(s) && q < NR_QUEUES
    ensures Shaped(s')
  {
    s.(queues := Drain(s.queues, q, RUNQ),
       task := seq(NR_TASKS, t requires 0 <= t < NR_TASKS =>
         if t in s.queues[q] then Woken(s.task[t], eax) else s.task[t]))
  }

  // ---------- clock ----------

  function Ticked(s: KState): (s': KState)
    requires Shaped(s)
    ensures Shaped(s')
  {
    var t := s.task[s.current];
    s.(roundtics := s.roundtics - 1,
       task := s.task[s.current := t.(tics := t.tics + 1, remainingQuantum := t.remainingQuantum - 1)])
  }

  function Tick(s: KState): (s': KState)
    requires Shaped(s)
    ensures Shaped(s')
  {
    var s1 := Ticked(s);
    if s1.roundtics == 0 then Dispatch(Pause(s1)) else s1
  }

  // ---------- processes ----------

  /** The parent's structure copied into the slot, its queue links aside. */
  function ForkStart(s: KState): (s': KState)
    requires Shaped(s) && s.queues[FREEQ] != []
    ensures Shaped(s')
  {
    var c := First(s, FREEQ);
    assert forall t :: t in s.queues[FREEQ][1..] ==> t in s.queues[FREEQ];
    s.(queues := s.queues[FREEQ := s.queues[FREEQ][1..]], task := s.task[c := s.task[s.current]])
  }

  function ForkChild(s: KState, c: int, frames: seq<int>): (t': Task)
    requires Shaped(s)
  {
    var p := s.task[s.current];
    p.(pid := s.pidCounter + 1, frames := frames, tics := 0, cs := 0, remainingQuantum := p.quantum, eax := 0)
  }

  function Fork(s: KState): (r: (KState, Outcome))
    requires Shaped(s)
    ensures Shaped(r.0)
  {
    if s.queues[FREEQ] == [] then (s, Returned(-EAGAIN))
    else
      var c := First(s, FREEQ);
      var s1 := ForkStart(s);
      var copy := CopyPages(s1.mem, s1.task[c].frames, NUM_PAG_DATA);
      if !copy.ok then
        (s1.(mem := copy.mem, task := s1.task[c := s1.task[c].(frames := copy.frames)]), Returned(-ENOMEM))
      else
        var child := ForkChild(s, c, copy.frames);
        (s1.(mem := copy.mem, task := s1.task[c := child], pidCounter := s.pidCounter + 1,
             queues := s1.queues[RUNQ := [c] + s1.queues[RUNQ]]),
         Returned(child.pid))
  }

  predicate FramesInRange(s: KState, t: int)
    requires Shaped(s) && 0 <= t < NR_TASKS
  {
    forall i :: 0 <= i < NUM_PAG_DATA ==> 0 <= s.task[t].frames[i] < TOTAL_PAGES
  }

  /** sys_exit after its pid test, up to the choice of the next task: memory, semaphores, the slot. */
  function Removed(s: KState): (s': KState)
    requires Shaped(s) && FramesInRange(s, s.current)
    ensures Shaped(s')
  {
    var t := s.current;
    var s1 := s.(mem := s.mem.(pages := TempClosed(s.mem.pages),
                               phys := Freed(s.mem.phys, s.task[t].frames, NUM_PAG_DATA)));
    var s2 := DestroyOwned(s1, s.task[t].pid, NR_SEM);
    s2.(queues := ToFront(s2.queues, t, RUNQ, FREEQ), task := s2.task[t := s2.task[t].(pid := NULL_PID)])
  }

  function Exit(s: KState): (r: (KState, Outcome))
    requires Shaped(s) && FramesInRange(s, s.current)
    requires s.task[s.current].pid != 0 ==> Removed(s).queues[RUNQ] != []
    ensures Shaped(r.0)
  {
    if s.task[s.current].pid == 0 then (s, Returned(0)) else (Dispatch(Removed(s)), NoResult)
  }

  function Nice(s: KState, quantum: int): (r: (KState, Outcome))
    requires Shaped(s)
    ensures Shaped(r.0)
  {
    if quantum <= 0 then (s, Returned(-EINVAL))
    else (s.(task := s.task[s.current := s.task[s.current].(quantum := quantum)]),
          Returned(s.task[s.current].quantum))
  }

  // ---------- semaphores ----------

  /** An unsigned argument stored in a signed 32-bit field. */
  function ToInt32(v: int): (n: int) {
    if v >= 0x8000_0000 then v - 0x1_0000_0000 else v
  }

  predicate SemIndex(n: int) { 0 <= n < NR_SEM }

  function SemInit(s: KState, n: int, v: int): (r: (KState, Outcome))
    requires Shaped(s)
    ensures Shaped(r.0)
  {
    if !SemIndex(n) then (s, Returned(-EINVAL))
    else if s.sems[n].owner != FREE_SEM then (s, Returned(-EBUSY))
    else (s.(sems := s.sems[n := Sem(s.task[s.current].pid, ToInt32(v))], queues := s.queues[SemQ(n) := []]),
          Returned(0))
  }

  /** Whether sys_sem_wait blocks the caller. */
  predicate WaitBlocks(s: KState, n: int)
    requires Shaped(s)
  {
    SemIndex(n) && s.sems[n].owner != FREE_SEM && s.task[s.current].pid != 0 && s.sems[n].value <= 0
  }

  function SemWait(s: KState, n: int): (r: (KState, Outcome))
    requires Shaped(s)
    requires WaitBlocks(s, n) ==> Block(s, SemQ(n)).queues[RUNQ] != []
    ensures Shaped(r.0)
  {
    if !SemIndex(n) then (s, Returned(-EINVAL))
    else if s.sems[n].owner == FREE_SEM then (s, Returned(-EINVAL))
    else if s.task[s.current].pid == 0 then (s, Returned(-EPERM))
    else if s.sems[n].value > 0 then
      (s.(sems := s.sems[n := s.sems[n].(value := s.sems[n].value - 1)]), Returned(0))
    else (Dispatch(Block(s, SemQ(n))), NoResult)
  }

  function SemSignal(s: KState, n: int): (r: (KState, Outcome))
    requires Shaped(s)
    ensures Shaped(r.0)
  {
    if !SemIndex(n) then (s, Returned(-EINVAL))
    else if s.sems[n].owner == FREE_SEM then (s, Returned(-EINVAL))
    else if s.queues[SemQ(n)] == [] then
      (s.(sems := s.sems[n := s.sems[n].(value := s.sems[n].value + 1)]), Returned(0))
    else
      (Wake(s, First(s, SemQ(n)), SemQ(n), 0), Returned(0))
  }

  /** The semaphore is given up and its waiters are woken with -1. */
  function Destroyed(s: KState, n: nat): (s': KState)
    requires Shaped(s) && n < NR_SEM
    ensures Shaped(s')
  {
    WakeAll(s.(sems := s.sems[n := s.sems[n].(owner := FREE_SEM)]), SemQ(n), -1)
  }

  function SemDestroy(s: KState, n: int): (r: (KState, Outcome))
    requires Shaped(s)
    ensures Shaped(r.0)
  {
    if !SemIndex(n) then (s, Returned(-EINVAL))
    else if s.sems[n].owner == FREE_SEM then (s, Returned(-EINVAL))
    else if s.task[s.current].pid != s.sems[n].owner then (s, Returned(-EPERM))
    else (Destroyed(s, n), Returned(0))
  }

  /** sys_exit's loop over the first n semaphores. */
  function DestroyOwned(s: KState, pid: int, n: nat): (s': KState)
    requires Shaped(s) && n <= NR_SEM
    ensures Shaped(s') && s'.current == s.current
  {
    if n == 0 then s
    else
      var s1 := DestroyOwned(s, pid, n - 1);
      if s1.sems[n - 1].owner == pid then Destroyed(s1, n - 1) else s1
  }

  // ---------- keyboard ----------

  /** How many characters get_character(size) moves: none from a full ring, which looks empty. */
  function Movable(ring: seq<Byte>, size: nat): (n: nat)
    ensures n <= size && n <= |ring|
  {
    if |ring| == CIRC_BUFF_SIZE then 0 else Min(size, |ring|)
  }

  function RingSaved(ring: seq<Byte>, c: Byte): (r: seq<Byte>) {
    if |ring| == CIRC_BUFF_SIZE then ring else ring + [c]
  }

  /** The system buffer after get_character. */
  function Fetched(sysbuff: seq<Byte>, ring: seq<Byte>, size: nat): (r: seq<Byte>)
    requires |ring| <= CIRC_BUFF_SIZE && |sysbuff| == SYSBUFF_SIZE
    ensures |r| == SYSBUFF_SIZE
  {
    ring[..Movable(ring, size)] + sysbuff[Movable(ring, size)..]
  }

  /** A writable range of user data, as access_ok admits it. */
  predicate AccessOk(buff: int, size: int) {
    0 < buff && 0 <= size && buff + size <= NUM_PAG_DATA * PAGE_SIZE
  }

  predicate ReadBlocks(s: KState, size: int)
    requires Shaped(s)
  {
    s.task[s.current].pid != 0 && !(|s.ring| >= size && s.queues[KBDQ] == [])
  }

  /** The reader's wish noted, the reader blocked. */
  function ReadWaits(s: KState, buff: int, size: int): (s': KState)
    requires Shaped(s)
    ensures Shaped(s')
  {
    Block(s.(task := s.task[s.current := s.task[s.current].(offset := 0, remain := size, buff := buff)]), KBDQ)
  }

  function ReadKeyboard(s: KState, buff: int, size: int): (r: (KState, Outcome))
    requires Shaped(s) && AccessOk(buff, size)
    requires ReadBlocks(s, size) ==> ReadWaits(s, buff, size).queues[RUNQ] != []
    ensures Shaped(r.0)
  {
    if s.task[s.current].pid == 0 then (s, Returned(-EPERM))
    else if |s.ring| >= size && s.queues[KBDQ] == [] then
      var n, sysbuff := Movable(s.ring, size), Fetched(s.sysbuff, s.ring, size);
      (s.(ring := s.ring[n..], sysbuff := sysbuff, mem := StoreBytes(s.mem, buff, sysbuff[..size])), Returned(n))
    else (Dispatch(ReadWaits(s, buff, size)), NoResult)
  }

  /** The first reader in the queue, when the buffer holds exactly what it waits for. */
  predicate Deliverable(s: KState)
    requires Shaped(s)
  {
    s.queues[KBDQ] != [] && |s.ring| == s.task[First(s, KBDQ)].remain
  }

  /** Where the waiting reader t wants its characters is writable user data. */
  predicate WishOk(s: KState, t: int)
    requires Shaped(s) && 0 <= t < NR_TASKS
  {
    s.task[t].offset == 0 && AccessOk(s.task[t].buff, s.task[t].remain)
  }

  /** Delivery: the reader's pages are opened, the bytes stored, current's pages put back, the reader
      woken. */
  function Delivered(s: KState): (s': KState)
    requires Shaped(s) && Deliverable(s) && WishOk(s, First(s, KBDQ))
    ensures Shaped(s')
  {
    var t := First(s, KBDQ);
    var r := s.task[t];
    var n, sysbuff := Movable(s.ring, r.remain), Fetched(s.sysbuff, s.ring, r.remain);
    var lent := s.mem.(pages := Window(s.mem.pages, r.frames));
    var stored := StoreBytes(lent, r.buff + r.offset, sysbuff[..r.remain]);
    var back := stored.(pages := Window(stored.pages, s.task[s.current].frames));
    Wake(s.(ring := s.ring[n..], sysbuff := sysbuff, mem := back), t, KBDQ, r.offset + n)
  }

  /** keyboard_routine from the translated character on. */
  function KeyPress(s: KState, c: Byte): (s': KState)
    requires Shaped(s) && (s.queues[KBDQ] != [] ==> WishOk(s, First(s, KBDQ)))
    ensures Shaped(s')
  {
    var s1 := s.(ring := RingSaved(s.ring, c));
    if Deliverable(s1) then Delivered(s1) else s1
  }

  /** The running task stores a byte at a user data address. */
  function UserStore(s: KState, a: int, b: Byte): (s': KState)
    requires Shaped(s) && 0 <= a < NUM_PAG_DATA * PAGE_SIZE
    ensures Shaped(s')
  {
    PageOf(a);
    s.(mem := StoreByte(s.mem, a, b))
  }
}
