/** What reads, key presses and stores answer, and what exactly they do to the keyboard buffer and to the bytes
    of the tasks. */
module KernelTransfers {
  import opened KernelTypes
  import opened MemorySpec
  import opened KernelSpec
  import opened KernelInv
  import opened KernelSteps
  import opened KernelProcesses
  import opened KernelMachine
  import opened KernelKeyboard
  import opened KernelOutcomes

  /** Between s and s' these bytes were put where task t sees address a on; no other byte of memory has
      changed, nor which frames are used and where they are mapped. */
  ghost predicate BytesPut(s: KState, s': KState, t: int, a: int, bytes: seq<Byte>)
    requires Shaped(s) && Shaped(s') && 0 <= t < NR_TASKS && FramesInRange(s, t)
  {
    && s'.mem.phys == s.mem.phys && s'.mem.pages == s.mem.pages
    && (forall x: nat {:trigger PageNo(x)} :: PageNo(x) < NUM_PAG_DATA ==>
         UserByte(s'.mem.ram, s.task[t].frames, x)
         == if a <= x < a + |bytes| then bytes[x - a] else UserByte(s.mem.ram, s.task[t].frames, x))
    && forall f :: 0 <= f < TOTAL_PAGES && f !in s.task[t].frames ==> s'.mem.ram[f] == s.mem.ram[f]
  }

  lemma PutThroughWindow(s: KState, s': KState, t: int, m: Mem, a: int, bytes: seq<Byte>)
    requires Shaped(s) && Shaped(s') && 0 <= t < NR_TASKS && FramesInRange(s, t) && FramesOk(s.task[t].frames)
    requires MemShaped(m) && m.ram == s.mem.ram && WindowShows(m.pages, s.task[t].frames)
    requires 0 <= a && a + |bytes| <= NUM_PAG_DATA * PAGE_SIZE
    requires s'.mem == s.mem.(ram := StoreBytes(m, a, bytes).ram)
    ensures BytesPut(s, s', t, a, bytes)
  {
    hide StoreBytes, UserByte, PageNo, WindowShows, FramesOk;
    var frames := s.task[t].frames;
    forall x: nat | PageNo(x) < NUM_PAG_DATA
      ensures UserByte(s'.mem.ram, frames, x)
              == if a <= x < a + |bytes| then bytes[x - a] else UserByte(s.mem.ram, frames, x)
    {
      PageOf(x);
      StoreBytesSeen(m, frames, a, bytes, x);
    }
    ElsewhereKept(m, frames, a, bytes);
  }

  lemma ElsewhereKept(m: Mem, frames: seq<int>, a: nat, bytes: seq<Byte>)
    requires MemShaped(m) && FramesOk(frames) && WindowShows(m.pages, frames)
    requires a + |bytes| <= NUM_PAG_DATA * PAGE_SIZE
    ensures forall f :: 0 <= f < TOTAL_PAGES && f !in frames ==> StoreBytes(m, a, bytes).ram[f] == m.ram[f]
  {
    if bytes != [] {
      StoreBytesSeen(m, frames, a, bytes, a);
    }
  }

  /** A store by the running task writes its one byte, and has no result. */
  lemma StoreAnswers(s: KState, a: int, b: Byte)
    requires Inv(s) && Possible(Store(a, b))
    ensures var (s', r) := Step(s, Store(a, b));
      && r == NoResult && s' == s.(mem := s'.mem)
      && FramesInRange(s, s.current) && BytesPut(s, s', s.current, a, [b])
  {
    hide Core, CurrentOk, StoreByte, UserByte, BytesPut;
    InvShape(s);
    CurrentInRange(s);
    CurrentWindow(s);
    OneByte(s.mem, a, b);
    PutThroughWindow(s, Step(s, Store(a, b)).0, s.current, s.mem, a, [b]);
  }

  lemma OneByte(m: Mem, a: nat, b: Byte)
    requires MemShaped(m) && a < NUM_PAG_DATA * PAGE_SIZE
    ensures PageNo(a) < NUM_PAG_DATA && StoreBytes(m, a, [b]) == StoreByte(m, a, b)
  {
    PageOf(a);
    assert [b][..0] == [];
    assert StoreBytes(m, a, []) == m;
  }

  /** How many characters a request for size gets from a buffer that holds at least so many. */
  function Got(ring: seq<Byte>, size: int): (n: int) {
    if |ring| == CIRC_BUFF_SIZE then 0 else size
  }

  /** Task 0 may not read.  If nobody waits and the buffer holds enough, the oldest characters go to the caller,
      and the call returns their number; from a full buffer no character moves, and what is stored is what the
      system buffer held.  Else the caller waits, its wish noted. */
  lemma ReadAnswers(s: KState, buff: int, size: int)
    requires Inv(s) && Possible(ReadCall(buff, size))
    ensures var (s', r), c := Step(s, ReadCall(buff, size)), s.current;
      && (s.task[c].pid == 0 ==> (s', r) == (s, Returned(-EPERM)))
      && (s.task[c].pid != 0 && |s.ring| >= size && s.queues[KBDQ] == [] ==>
           var n := Got(s.ring, size);
           && r == Returned(n) && s'.ring == s.ring[n..] && s'.sysbuff == s.ring[..n] + s.sysbuff[n..]
           && FramesInRange(s, c) && BytesPut(s, s', c, buff, s'.sysbuff[..size])
           && s' == s.(ring := s'.ring, sysbuff := s'.sysbuff, mem := s'.mem))
      && (s.task[c].pid != 0 && (|s.ring| < size || s.queues[KBDQ] != []) ==>
           r == NoResult && WentToWait(s, s', KBDQ, s.task[c].(buff := buff, remain := size, offset := 0)))
  {
    hide Inv, Core, ReadWaits, Dispatch, BytesPut, WentToWait;
    InvShape(s);
    ReadReady(s, buff, size);
    if ReadBlocks(s, size) {
      WaitingRead(s, buff, size);
    } else if s.task[s.current].pid != 0 {
      ImmediateRead(s, buff, size);
    }
  }

  lemma WaitingRead(s: KState, buff: int, size: int)
    requires Inv(s) && ReadWaits(s, buff, size).queues[RUNQ] != []
    ensures WentToWait(s, Dispatch(ReadWaits(s, buff, size)), KBDQ,
                    s.task[s.current].(buff := buff, remain := size, offset := 0))
  {
    hide Inv, Core, WentToWait, Block, Dispatch;
    InvShape(s);
    var s0 := s.(task := s.task[s.current := s.task[s.current].(offset := 0, remain := size, buff := buff)]);
    BlockEffect(s, s0, KBDQ);
  }

  lemma ImmediateRead(s: KState, buff: int, size: int)
    requires Inv(s) && AccessOk(buff, size) && s.task[s.current].pid != 0 && |s.ring| >= size && s.queues[KBDQ] == []
    ensures var (s', r), n := ReadKeyboard(s, buff, size), Got(s.ring, size);
      && r == Returned(n) && s'.ring == s.ring[n..] && s'.sysbuff == s.ring[..n] + s.sysbuff[n..]
      && FramesInRange(s, s.current) && BytesPut(s, s', s.current, buff, s'.sysbuff[..size])
      && s' == s.(ring := s'.ring, sysbuff := s'.sysbuff, mem := s'.mem)
  {
    hide Inv, Core, CurrentOk, StoreBytes, BytesPut;
    InvShape(s);
    CurrentInRange(s);
    CurrentWindow(s);
    var s' := ReadKeyboard(s, buff, size).0;
    PutThroughWindow(s, s', s.current, s.mem, buff, s'.sysbuff[..size]);
  }

  function WithKey(ring: seq<Byte>, c: Byte): (r: seq<Byte>)
    ensures |ring| <= CIRC_BUFF_SIZE ==> |r| <= CIRC_BUFF_SIZE
  {
    if |ring| == CIRC_BUFF_SIZE then ring else ring + [c]
  }

  lemma KeyBytes(s: KState, c: Byte)
    requires Inv(s) && s.queues[KBDQ] != [] && WishOk(s, First(s, KBDQ))
    requires |WithKey(s.ring, c)| == s.task[First(s, KBDQ)].remain
    ensures var s', t := KeyPress(s, c), First(s, KBDQ);
      && |WithKey(s.ring, c)| <= SYSBUFF_SIZE && FramesInRange(s, t)
      && BytesPut(s, s', t, s.task[t].buff, s'.sysbuff[..|WithKey(s.ring, c)|])
  {
    hide Inv, Core, CurrentOk, StoreBytes, BytesPut, Window, WindowShows, FramesOk, FramesInRange;
    InvShape(s);
    CurrentWindow(s);
    var t, s1, s' := First(s, KBDQ), s.(ring := RingSaved(s.ring, c)), KeyPress(s, c);
    WaiterInRange(s, t);
    StoredPages(s1);
    WindowPages(s.mem.pages, s.task[t].frames);
    PutThroughWindow(s, s', t, s.mem.(pages := Window(s.mem.pages, s.task[t].frames)), s.task[t].buff,
      s'.sysbuff[..|s1.ring|]);
  }

  lemma KeyHandsOut(s: KState, c: Byte)
    requires Inv(s) && s.queues[KBDQ] != [] && WishOk(s, First(s, KBDQ))
    requires |WithKey(s.ring, c)| == s.task[First(s, KBDQ)].remain
    ensures var s', now, q, t := KeyPress(s, c), WithKey(s.ring, c), s.queues[KBDQ], First(s, KBDQ);
      var n := Got(now, |now|);
      && s'.ring == now[n..] && s'.sysbuff == now[..n] + s.sysbuff[n..]
      && FramesInRange(s, t) && BytesPut(s, s', t, s.task[t].buff, s'.sysbuff[..|now|])
      && MadeReady(s.task[t], s'.task[t], n)
      && s' == s.(ring := s'.ring, sysbuff := s'.sysbuff, mem := s'.mem, task := s.task[t := s'.task[t]],
                  queues := s.queues[KBDQ := q[1..]][RUNQ := s.queues[RUNQ] + [t]])
  {
    hide Inv, Core, CurrentOk, StoreBytes, BytesPut, Window, WindowShows, FramesOk, FramesInRange;
    InvShape(s);
    CurrentWindow(s);
    var t, s1 := First(s, KBDQ), s.(ring := RingSaved(s.ring, c));
    WaiterInRange(s, t);
    FirstOut(s.queues[KBDQ]);
    StoredPages(s1);
    KeyBytes(s, c);
  }

  /** A key press saves its character unless the buffer is full.  If that makes exactly as many as the first
      reader waits for, they go to that reader, which becomes ready, at the end of runqueue, with their number
      as its result; a full buffer hands out none.  Nothing else changes. */
  lemma KeyAnswers(s: KState, c: Byte)
    requires Inv(s)
    ensures var (s', r), now, q := Step(s, KeyStroke(c)), WithKey(s.ring, c), s.queues[KBDQ];
      && r == NoResult
      && (forall t :: t in q ==> 0 <= t < NR_TASKS && FramesInRange(s, t))
      && (q == [] || |now| != s.task[q[0]].remain ==> s' == s.(ring := now))
      && (q != [] && |now| == s.task[q[0]].remain ==>
           var t, n := q[0], Got(now, |now|);
           && s'.ring == now[n..] && s'.sysbuff == now[..n] + s.sysbuff[n..]
           && BytesPut(s, s', t, s.task[t].buff, s'.sysbuff[..|now|]) && MadeReady(s.task[t], s'.task[t], n)
           && s' == s.(ring := s'.ring, sysbuff := s'.sysbuff, mem := s'.mem, task := s.task[t := s'.task[t]],
                       queues := s.queues[KBDQ := q[1..]][RUNQ := s.queues[RUNQ] + [t]]))
  {
    hide Inv, Core, Delivered, BytesPut;
    InvShape(s);
    KeyReady(s);
    ReadersApart(s);
    forall t | t in s.queues[KBDQ] ensures 0 <= t < NR_TASKS && FramesInRange(s, t) {
      WaiterInRange(s, t);
    }
    if s.queues[KBDQ] != [] && |RingSaved(s.ring, c)| == s.task[First(s, KBDQ)].remain {
      KeyHandsOut(s, c);
    }
  }
}
