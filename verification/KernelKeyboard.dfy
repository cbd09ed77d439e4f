/** Keyboard delivery over whole runs: readers get consecutive slices of what was typed, in the order
    they asked, where they asked for them and with the length they asked for; and a full buffer never moves
    again. */
module KernelKeyboard {
  import opened Sequences
  import opened KernelTypes
  import opened MemorySpec
  import opened KernelSpec
  import opened KernelInv
  import opened KernelSteps
  import opened KernelProcesses
  import opened KernelMachine

  // ---------- what can be observed of one event ----------

  /** The n bytes task t sees from user data address a on. */
  function Seen(s: KState, t: int, a: int, n: int): (r: seq<Byte>)
    requires Shaped(s) && 0 <= t < NR_TASKS && FramesInRange(s, t) && AccessOk(a, n)
    ensures |r| == n
  {
    seq(n, i requires 0 <= i < n => PageOf(a + i); UserByte(s.mem.ram, s.task[t].frames, a + i))
  }

  /** Characters the keyboard added to the buffer. */
  function SavedBy(s: KState, e: Event): (r: seq<Byte>)
    requires Shaped(s)
  {
    if e.KeyStroke? && |s.ring| < CIRC_BUFF_SIZE then [e.c] else []
  }

  datatype Request = Request(task: int, buff: int, size: int)

  function AskedBy(s: KState, e: Event): (r: seq<Request>)
    requires Shaped(s)
  {
    if e.ReadCall? && s.task[s.current].pid != 0 then [Request(s.current, e.buff, e.size)] else []
  }

  datatype Gift = Gift(task: int, buff: int, bytes: seq<Byte>)

  /** A reader served by the event, with the bytes it then finds where it wanted them. */
  ghost function GivenBy(s: KState, e: Event): (r: seq<Gift>)
    requires Inv(s) && Possible(e)
  {
    StepKeeps(s, e);
    var s' := Step(s, e).0;
    if e.ReadCall? && s.task[s.current].pid != 0 && Step(s, e).1.Returned? then
      CurrentInRange(s');
      ReadStays(s, e);
      [Gift(s.current, e.buff, Seen(s', s.current, e.buff, e.size))]
    else if e.KeyStroke? && s.queues[KBDQ] != [] && s'.queues[KBDQ] != s.queues[KBDQ] then
      var t := First(s, KBDQ);
      WaiterInRange(s, t);
      KeyStays(s, e, t);
      [Gift(t, s.task[t].buff, Seen(s', t, s.task[t].buff, s.task[t].remain))]
    else []
  }

  lemma CurrentInRange(s: KState)
    requires Inv(s)
    ensures FramesInRange(s, s.current) && FramesOk(s.task[s.current].frames) && Live(s, s.current)
  {
    RunnableFacts(s, s.current);
    LiveFrames(s, s.current);
    assert forall i :: 0 <= i < NUM_PAG_DATA ==> FrameGood(s.mem.phys, s.task[s.current].frames[i]);
  }

  lemma WaiterInRange(s: KState, t: int)
    requires Inv(s) && t in s.queues[KBDQ]
    ensures FramesInRange(s, t) && FramesOk(s.task[t].frames) && Live(s, t) && WishOk(s, t) && t != s.current
  {
    LiveFrames(s, t);
    assert forall i :: 0 <= i < NUM_PAG_DATA ==> FrameGood(s.mem.phys, s.task[t].frames[i]);
  }

  lemma ReadStays(s: KState, e: Event)
    requires Inv(s) && Possible(e) && e.ReadCall? && Step(s, e).1.Returned?
    ensures Step(s, e).0.current == s.current && Step(s, e).0.task == s.task
  {
  }

  lemma KeyStays(s: KState, e: Event, t: int)
    requires Inv(s) && Possible(e) && e.KeyStroke? && 0 <= t < NR_TASKS
    ensures Step(s, e).0.task[t].frames == s.task[t].frames
  {
  }

  /** What a waiting reader asked for. */
  function Asking(s: KState, t: int): (r: Request)
    requires Shaped(s) && 0 <= t < NR_TASKS
  {
    Request(t, s.task[t].buff, s.task[t].remain)
  }

  /** Readers still waiting, for what and where. */
  function Pending(s: KState): (r: seq<Request>)
    requires Shaped(s)
  {
    seq(|s.queues[KBDQ]|, i requires 0 <= i < |s.queues[KBDQ]| =>
      var t := s.queues[KBDQ][i]; assert t in s.queues[KBDQ]; Asking(s, t))
  }

  function Bytes(gifts: seq<Gift>): (r: seq<Byte>) {
    if gifts == [] then [] else Bytes(gifts[..|gifts|-1]) + gifts[|gifts|-1].bytes
  }

  function Served(gifts: seq<Gift>): (r: seq<Request>) {
    seq(|gifts|, i requires 0 <= i < |gifts| => Request(gifts[i].task, gifts[i].buff, |gifts[i].bytes|))
  }

  // ---------- the discipline under which delivery works ----------

  /** Reads of at least one character and fewer than the buffer holds. */
  predicate ProperRead(e: Event) {
    e.ReadCall? ==> 1 <= e.size < CIRC_BUFF_SIZE
  }

  /** The buffer is not full, and the first waiting reader still lacks characters: the test for exactly
      enough characters has not been missed. */
  ghost predicate KeyboardOk(s: KState)
    requires Shaped(s)
  {
    && |s.ring| < CIRC_BUFF_SIZE
    && (s.queues[KBDQ] != [] ==> |s.ring| < s.task[First(s, KBDQ)].remain)
    && forall t :: t in s.queues[KBDQ] ==> 1 <= s.task[t].remain < CIRC_BUFF_SIZE
  }

  // ---------- events that leave the keyboard alone ----------

  ghost predicate KbdKept(s: KState, s': KState)
    requires Shaped(s) && Shaped(s')
  {
    && s'.ring == s.ring && s'.queues[KBDQ] == s.queues[KBDQ]
    && forall t :: t in s.queues[KBDQ] ==> SameWish(s.task[t], s'.task[t])
  }

  predicate SameWish(was: Task, now: Task) {
    now.remain == was.remain && now.buff == was.buff
  }

  lemma ReadersApart(s: KState)
    requires Core(s)
    ensures forall t :: t in s.queues[KBDQ] ==> 0 <= t < NR_TASKS && t !in s.queues[RUNQ] && t !in s.queues[FREEQ]
    ensures forall n, t :: 0 <= n < NR_SEM && t in s.queues[KBDQ] ==> t !in s.queues[SemQ(n)]
  {
  }

  lemma DispatchKbd(s: KState)
    requires Core(s) && s.queues[RUNQ] != []
    ensures KbdKept(s, Dispatch(s))
  {
    ReadersApart(s);
  }

  lemma TickKbd(s: KState)
    requires Inv(s)
    ensures KbdKept(s, Tick(s))
  {
    ReadersApart(s);
    TickedKeeps(s);
    PauseKeeps(Ticked(s));
    DispatchKbd(Pause(Ticked(s)));
    hide Core;
    InvShape(s);
  }

  lemma ForkKbd(s: KState)
    requires Inv(s)
    ensures KbdKept(s, Fork(s).0)
  {
    ReadersApart(s);
    hide Core, CurrentOk, CopyPages, CopiedInto;
    InvShape(s);
    if s.queues[FREEQ] != [] {
      ForkShape(s);
    }
  }

  lemma ExitKbd(s: KState)
    requires Inv(s) && s.task[s.current].pid != 0
    ensures FramesInRange(s, s.current) && Removed(s).queues[RUNQ] != [] && KbdKept(s, Dispatch(Removed(s)))
  {
    ReadersApart(s);
    InvParts(s);
    ExitKeeps(s);
    RemovedIsSlotFreed(s);
    DispatchKbd(Removed(s));
    hide Core, Inv, Removed, DestroyOwned, Dispatch;
    var s2 := DestroyOwned(s, s.task[s.current].pid, NR_SEM);
    SlotFreedKbd(s, s2);
    KbdTwice(s, Removed(s), Dispatch(Removed(s)));
  }

  lemma SlotFreedKbd(s: KState, s2: KState)
    requires Shaped(s) && Shaped(s2) && OnlyWaiters(s, s2) && FramesInRange(s2, s2.current)
    ensures KbdKept(s, SlotFreed(s2))
  {
  }

  lemma KbdTwice(s: KState, s1: KState, s2: KState)
    requires Shaped(s) && Shaped(s1) && Shaped(s2) && KbdKept(s, s1) && KbdKept(s1, s2)
    ensures KbdKept(s, s2)
  {
  }

  lemma WaitKbd(s: KState, n: int)
    requires Inv(s)
    ensures WaitBlocks(s, n) ==> Block(s, SemQ(n)).queues[RUNQ] != []
    ensures KbdKept(s, SemWait(s, n).0)
  {
    WaitReady(s, n);
    ReadersApart(s);
    if WaitBlocks(s, n) {
      DispatchKbd(Block(s, SemQ(n)));
    }
  }

  lemma SemaphoreKbd(s: KState, e: Event)
    requires Inv(s) && Possible(e) && (e.NiceCall? || e.InitCall? || e.SignalCall? || e.DestroyCall? || e.Store?)
    ensures KbdKept(s, Step(s, e).0)
  {
    ReadersApart(s);
    hide Core, CurrentOk, StoreByte;
    InvShape(s);
  }

  lemma OtherKbd(s: KState, e: Event)
    requires Inv(s) && Possible(e) && !e.ReadCall? && !e.KeyStroke?
    ensures KbdKept(s, Step(s, e).0)
  {
    hide Core, CurrentOk, KbdKept, Fork, Tick, SemWait, Removed, Dispatch;
    InvShape(s);
    match e
    case ClockTick => TickKbd(s);
    case ForkCall => ForkKbd(s);
    case ExitCall =>
      ExitReady(s);
      if s.task[s.current].pid != 0 { ExitKbd(s); } else { KbdSelf(s); }
    case WaitCall(n) => WaitKbd(s, n);
    case _ => SemaphoreKbd(s, e);
  }

  lemma KbdSelf(s: KState)
    requires Shaped(s)
    ensures KbdKept(s, s)
  {
  }

  // ---------- delivery, one event at a time ----------

  /** A delivery puts the whole buffer in front of the reader and empties it. */
  lemma DeliveredSeen(s: KState)
    requires Inv(s) && Deliverable(s) && |s.ring| < CIRC_BUFF_SIZE
    ensures var t := First(s, KBDQ);
      && WishOk(s, t) && FramesInRange(s, t) && FramesInRange(Delivered(s), t)
      && Seen(Delivered(s), t, s.task[t].buff, s.task[t].remain) == s.ring
      && Delivered(s).ring == [] && Delivered(s).task[t].eax == |s.ring|
  {
    hide Core, CurrentOk, UserByte, StoreBytes, Partition, WishOk;
    InvShape(s);
    var t := First(s, KBDQ);
    WaiterInRange(s, t);
    WishMeans(s, t);
    var r := s.task[t];
    var bytes := Fetched(s.sysbuff, s.ring, r.remain)[..r.remain];
    assert bytes == s.ring;
    var lent := s.mem.(pages := Window(s.mem.pages, r.frames));
    WindowPages(s.mem.pages, r.frames);
    forall i | 0 <= i < r.remain
      ensures PageNo(r.buff + i) < NUM_PAG_DATA
      ensures UserByte(StoreBytes(lent, r.buff, bytes).ram, r.frames, r.buff + i) == s.ring[i]
    {
      StoreBytesSeen(lent, r.frames, r.buff, bytes, r.buff + i);
    }
    assert Delivered(s).mem.ram == StoreBytes(lent, r.buff, bytes).ram;
    assert Delivered(s).task[t].frames == r.frames;
  }

  lemma WishMeans(s: KState, t: int)
    requires Shaped(s) && 0 <= t < NR_TASKS && WishOk(s, t)
    ensures s.task[t].offset == 0 && AccessOk(s.task[t].buff, s.task[t].remain)
  {
  }

  /** A read that need not wait gets the oldest characters. */
  lemma ReadSeen(s: KState, buff: int, size: int)
    requires Inv(s) && AccessOk(buff, size) && |s.ring| < CIRC_BUFF_SIZE && s.task[s.current].pid != 0
    requires |s.ring| >= size && s.queues[KBDQ] == []
    ensures var (s', r) := ReadKeyboard(s, buff, size);
      && FramesInRange(s', s.current) && Seen(s', s.current, buff, size) == s.ring[..size]
      && s'.ring == s.ring[size..] && r == Returned(size)
  {
    hide Inv, Core, CurrentOk, Seen, StoreBytes;
    InvShape(s);
    var bytes := Fetched(s.sysbuff, s.ring, size)[..size];
    assert bytes == s.ring[..size];
    BytesSeen(s, ReadKeyboard(s, buff, size).0, buff, bytes);
  }

  /** Bytes stored for the running task are what it then sees there. */
  lemma BytesSeen(s: KState, s': KState, buff: int, bytes: seq<Byte>)
    requires Inv(s) && Shaped(s) && Shaped(s') && AccessOk(buff, |bytes|)
    requires s'.task == s.task && s'.mem == StoreBytes(s.mem, buff, bytes)
    ensures FramesInRange(s', s.current) && Seen(s', s.current, buff, |bytes|) == bytes
  {
    hide Core, CurrentOk, UserByte, StoreBytes, Inv;
    CurrentInRange(s);
    CurrentWindow(s);
    var frames := s.task[s.current].frames;
    forall i | 0 <= i < |bytes|
      ensures PageNo(buff + i) < NUM_PAG_DATA && UserByte(s'.mem.ram, frames, buff + i) == bytes[i]
    {
      StoreBytesSeen(s.mem, frames, buff, bytes, buff + i);
    }
  }

  lemma CurrentWindow(s: KState)
    requires Inv(s)
    ensures Shaped(s) && WindowShows(s.mem.pages, s.task[s.current].frames)
  {
  }

  /** What a step must do: the buffer before plus what was typed is what was given plus the buffer
      after; requests before plus the new one are those served now plus those still pending. */
  ghost predicate Accounted(s: KState, e: Event)
    requires Inv(s) && Possible(e)
  {
    var s', g := Step(s, e).0, GivenBy(s, e);
    && s.ring + SavedBy(s, e) == Bytes(g) + s'.ring
    && Pending(s) + AskedBy(s, e) == Served(g) + Pending(s')
    && KeyboardOk(s')
    && (e.ReadCall? && g != [] ==> Step(s, e).1 == Returned(|g[0].bytes|))
    && (e.KeyStroke? && g != [] ==> s'.task[g[0].task].eax == |g[0].bytes| && g[0].task in s'.queues[RUNQ])
  }

  lemma KeyAccounted(s: KState, c: Byte)
    requires Inv(s) && KeyboardOk(s) && |Step(s, KeyStroke(c)).0.ring| < CIRC_BUFF_SIZE
    ensures Accounted(s, KeyStroke(c))
  {
    KeyReady(s);
    SavedKeeps(s, c);
    var s1 := s.(ring := RingSaved(s.ring, c));
    if Deliverable(s1) {
      KeyDelivers(s, c);
    } else {
      KeyWaits(s, c);
    }
  }

  lemma KeyWaits(s: KState, c: Byte)
    requires Inv(s) && KeyboardOk(s) && (s.queues[KBDQ] != [] ==> WishOk(s, First(s, KBDQ)))
    requires !Deliverable(s.(ring := RingSaved(s.ring, c))) && |s.ring| + 1 < CIRC_BUFF_SIZE
    ensures Accounted(s, KeyStroke(c))
  {
    hide Core, CurrentOk, Delivered, WishOk;
    InvShape(s);
    var s' := Step(s, KeyStroke(c)).0;
    assert s' == s.(ring := s.ring + [c]);
    assert GivenBy(s, KeyStroke(c)) == [];
    assert Pending(s') == Pending(s);
  }

  lemma KeyDelivers(s: KState, c: Byte)
    requires Inv(s) && KeyboardOk(s) && (s.queues[KBDQ] != [] ==> WishOk(s, First(s, KBDQ)))
    requires Inv(s.(ring := RingSaved(s.ring, c))) && Deliverable(s.(ring := RingSaved(s.ring, c)))
    ensures Accounted(s, KeyStroke(c))
  {
    hide Inv, Delivered, Seen, WishOk, Pending;
    InvShape(s);
    var e, s1 := KeyStroke(c), s.(ring := RingSaved(s.ring, c));
    assert |s1.ring| < CIRC_BUFF_SIZE;
    DeliveredSeen(s1);
    DeliveredPending(s1);
    var t := First(s, KBDQ);
    var s' := Step(s, e).0;
    assert s' == Delivered(s1) && First(s1, KBDQ) == t;
    assert s'.queues[KBDQ] == s.queues[KBDQ][1..];
    var g := Gift(t, s.task[t].buff, s1.ring);
    assert GivenBy(s, e) == [g];
    OneGift(g);
    PendingSame(s, s1);
  }

  lemma OneGift(g: Gift)
    ensures Bytes([g]) == g.bytes && Served([g]) == [Request(g.task, g.buff, |g.bytes|)] && Bytes([]) == []
  {
    assert [g][..0] == [];
  }

  lemma PendingSame(s: KState, s1: KState)
    requires Shaped(s) && Shaped(s1) && s1.task == s.task && s1.queues == s.queues
    ensures Pending(s1) == Pending(s)
  {
  }

  /** The served reader leaves the front of the queue; the others stay as they were. */
  lemma DeliveredPending(s: KState)
    requires Inv(s) && KeyboardWishes(s) && Deliverable(s) && WishOk(s, First(s, KBDQ))
    ensures var s', t := Delivered(s), First(s, KBDQ);
      && s'.queues[KBDQ] == s.queues[KBDQ][1..] && t in s'.queues[RUNQ]
      && Pending(s) == [Asking(s, t)] + Pending(s')
      && KeyboardWishes(s') && (s'.queues[KBDQ] != [] ==> 1 <= s'.task[First(s', KBDQ)].remain)
  {
    hide Inv, Delivered, Partition, WishOk;
    InvShape(s);
    ReadersOnce(s);
    DeliveredQueues(s);
    PendingRest(s, Delivered(s));
  }

  lemma DeliveredQueues(s: KState)
    requires Shaped(s) && NoDup(s.queues[KBDQ]) && Deliverable(s) && WishOk(s, First(s, KBDQ))
    ensures var s', t := Delivered(s), First(s, KBDQ);
      && s'.queues[KBDQ] == s.queues[KBDQ][1..] && t in s'.queues[RUNQ]
      && forall u :: 0 <= u < NR_TASKS && u != t ==> s'.task[u] == s.task[u]
  {
    hide StoreBytes, Window, Fetched, MemShaped, WishOk;
    WishMeans(s, First(s, KBDQ));
    var q := s.queues[KBDQ];
    WithoutAt(q, 0);
    assert q[..0] + q[1..] == q[1..];
  }

  lemma PendingShift(s: KState, s': KState)
    requires Shaped(s) && Shaped(s') && s.queues[KBDQ] != [] && s'.queues[KBDQ] == s.queues[KBDQ][1..]
    requires forall i :: 0 <= i < |s'.queues[KBDQ]| ==>
      0 <= s'.queues[KBDQ][i] < NR_TASKS && s'.task[s'.queues[KBDQ][i]] == s.task[s'.queues[KBDQ][i]]
    ensures Pending(s) == [Asking(s, First(s, KBDQ))] + Pending(s')
  {
    hide MemShaped, NoDup;
    var a, b := Pending(s), Pending(s');
    assert forall i :: 0 <= i < |b| ==> b[i] == a[i + 1];
    assert a[0] == Asking(s, First(s, KBDQ));
    Consed(a, b);
  }

  lemma Consed<T>(a: seq<T>, b: seq<T>)
    requires |a| == |b| + 1 && forall i :: 0 <= i < |b| ==> b[i] == a[i + 1]
    ensures a == [a[0]] + b
  {
  }

  lemma WishesShorter(s: KState, s': KState)
    requires Shaped(s) && Shaped(s') && KeyboardWishes(s) && s.queues[KBDQ] != []
    requires s'.queues[KBDQ] == s.queues[KBDQ][1..]
    requires forall i :: 0 <= i < |s'.queues[KBDQ]| ==>
      0 <= s'.queues[KBDQ][i] < NR_TASKS && s'.task[s'.queues[KBDQ][i]] == s.task[s'.queues[KBDQ][i]]
    ensures KeyboardWishes(s') && (s'.queues[KBDQ] != [] ==> 1 <= s'.task[First(s', KBDQ)].remain)
  {
    hide MemShaped;
    assert forall u :: u in s'.queues[KBDQ] ==> u in s.queues[KBDQ];
  }

  lemma PendingRest(s: KState, s': KState)
    requires Shaped(s) && Shaped(s') && NoDup(s.queues[KBDQ]) && KeyboardWishes(s) && s.queues[KBDQ] != []
    requires s'.queues[KBDQ] == s.queues[KBDQ][1..]
    requires forall u :: 0 <= u < NR_TASKS && u != First(s, KBDQ) ==> s'.task[u] == s.task[u]
    ensures Pending(s) == [Asking(s, First(s, KBDQ))] + Pending(s')
    ensures KeyboardWishes(s') && (s'.queues[KBDQ] != [] ==> 1 <= s'.task[First(s', KBDQ)].remain)
  {
    hide Served, MemShaped;
    var q, rest := s.queues[KBDQ], s'.queues[KBDQ];
    forall i | 0 <= i < |rest|
      ensures rest[i] == q[i + 1] && 0 <= rest[i] < NR_TASKS && s'.task[rest[i]] == s.task[rest[i]]
    {
      assert q[i + 1] in q && q[i + 1] != q[0];
    }
    PendingShift(s, s');
    WishesShorter(s, s');
  }

  lemma ReadersOnce(s: KState)
    requires Core(s)
    ensures NoDup(s.queues[KBDQ])
  {
  }

  ghost predicate KeyboardWishes(s: KState)
    requires Shaped(s)
  {
    forall t :: t in s.queues[KBDQ] ==> 1 <= s.task[t].remain < CIRC_BUFF_SIZE
  }

  lemma ReadAccounted(s: KState, buff: int, size: int)
    requires Inv(s) && KeyboardOk(s) && AccessOk(buff, size) && 1 <= size < CIRC_BUFF_SIZE
    ensures Accounted(s, ReadCall(buff, size))
  {
    ReadReady(s, buff, size);
    if ReadBlocks(s, size) {
      ReadQueues(s, buff, size);
    } else if s.task[s.current].pid != 0 {
      ReadServes(s, buff, size);
    } else {
      hide Core, CurrentOk;
      InvShape(s);
    }
  }

  lemma RoomLeft(s: KState)
    requires Shaped(s) && KeyboardOk(s)
    ensures |s.ring| < CIRC_BUFF_SIZE
  {
  }

  lemma ReadIs(s: KState, buff: int, size: int)
    requires Inv(s) && AccessOk(buff, size) && !ReadBlocks(s, size)
    ensures Step(s, ReadCall(buff, size)) == ReadKeyboard(s, buff, size)
  {
    hide Inv, ReadKeyboard;
    ReadReady(s, buff, size);
  }

  lemma ReadPending(s: KState, buff: int, size: int)
    requires Inv(s) && KeyboardOk(s) && AccessOk(buff, size) && !ReadBlocks(s, size) && s.task[s.current].pid != 0
    ensures var s' := ReadKeyboard(s, buff, size).0;
      s.queues[KBDQ] == [] && Pending(s) == Pending(s') == [] && KeyboardOk(s')
  {
    hide Inv, Core, StoreBytes;
    InvShape(s);
  }

  lemma ReadServes(s: KState, buff: int, size: int)
    requires Inv(s) && KeyboardOk(s) && AccessOk(buff, size) && !ReadBlocks(s, size) && s.task[s.current].pid != 0
    ensures Accounted(s, ReadCall(buff, size))
  {
    hide Inv, Core, CurrentOk, Seen, StoreBytes, ReadKeyboard, KeyboardOk;
    InvShape(s);
    RoomLeft(s);
    ReadSeen(s, buff, size);
    ReadIs(s, buff, size);
    var g := Gift(s.current, buff, s.ring[..size]);
    assert GivenBy(s, ReadCall(buff, size)) == [g];
    OneGift(g);
    ReadPending(s, buff, size);
    assert s.ring == s.ring[..size] + s.ring[size..];
  }

  lemma ReadQueues(s: KState, buff: int, size: int)
    requires Inv(s) && KeyboardOk(s) && AccessOk(buff, size) && 1 <= size < CIRC_BUFF_SIZE && ReadBlocks(s, size)
    requires Core(ReadWaits(s, buff, size)) && ReadWaits(s, buff, size).queues[RUNQ] != []
    ensures Accounted(s, ReadCall(buff, size))
  {
    hide Inv, Core, ReadKeyboard, Partition;
    InvShape(s);
    ReadJoins(s, buff, size);
    var s' := Step(s, ReadCall(buff, size)).0;
    assert GivenBy(s, ReadCall(buff, size)) == [];
    assert Pending(s') == Pending(s) + [Request(s.current, buff, size)];
  }

  /** A read that must wait puts the caller at the end of the readers, and changes nothing else there. */
  lemma ReadJoins(s: KState, buff: int, size: int)
    requires Inv(s) && AccessOk(buff, size) && ReadBlocks(s, size)
    requires Core(ReadWaits(s, buff, size)) && ReadWaits(s, buff, size).queues[RUNQ] != []
    ensures var (s', r) := ReadKeyboard(s, buff, size);
      && r == NoResult && s'.ring == s.ring && s'.queues[KBDQ] == s.queues[KBDQ] + [s.current]
      && s'.task[s.current].remain == size && s'.task[s.current].buff == buff
      && forall t :: t in s.queues[KBDQ] ==> SameWish(s.task[t], s'.task[t])
  {
    hide Inv, Core, Dispatch;
    InvShape(s);
    DispatchKbd(ReadWaits(s, buff, size));
    CurrentApart(s);
  }

  lemma CurrentApart(s: KState)
    requires Inv(s)
    ensures Shaped(s) && s.current !in s.queues[KBDQ]
  {
  }

  lemma OtherAccounted(s: KState, e: Event)
    requires Inv(s) && Possible(e) && KeyboardOk(s) && !e.ReadCall? && !e.KeyStroke?
    ensures Accounted(s, e)
  {
    hide Inv, Step, Core, KbdKept, KeyboardOk, Pending;
    InvShape(s);
    OtherKbd(s, e);
    KeptPending(s, Step(s, e).0);
    assert GivenBy(s, e) == [];
  }

  lemma KeptPending(s: KState, s': KState)
    requires Shaped(s) && Shaped(s') && KbdKept(s, s')
    ensures s'.ring == s.ring && Pending(s') == Pending(s) && (KeyboardOk(s) ==> KeyboardOk(s'))
  {
  }

  /** Every event of a disciplined run is accounted for. */
  lemma StepAccounted(s: KState, e: Event)
    requires Inv(s) && Possible(e) && ProperRead(e) && KeyboardOk(s) && |Step(s, e).0.ring| < CIRC_BUFF_SIZE
    ensures Accounted(s, e)
  {
    hide Inv, Accounted, KeyboardOk, Step;
    match e
    case KeyStroke(c) => KeyAccounted(s, c);
    case ReadCall(buff, size) => ReadAccounted(s, buff, size);
    case _ => OtherAccounted(s, e);
  }

  // ---------- delivery over runs ----------

  /** Only proper reads, and the buffer full at no point. */
  ghost predicate Disciplined(s: KState, es: seq<Event>)
    requires Inv(s) && PossibleRun(es)
    decreases |es|
  {
    es != [] ==>
      ProperRead(es[|es|-1]) && |Run(s, es).ring| < CIRC_BUFF_SIZE && Disciplined(s, es[..|es|-1])
  }

  /** Everything typed, asked for and given in the course of a run. */
  function Typed(s: KState, es: seq<Event>): (r: seq<Byte>)
    requires Inv(s) && PossibleRun(es)
    decreases |es|
  {
    if es == [] then [] else Typed(s, es[..|es|-1]) + SavedBy(Run(s, es[..|es|-1]), es[|es|-1])
  }

  function Asked(s: KState, es: seq<Event>): (r: seq<Request>)
    requires Inv(s) && PossibleRun(es)
    decreases |es|
  {
    if es == [] then [] else Asked(s, es[..|es|-1]) + AskedBy(Run(s, es[..|es|-1]), es[|es|-1])
  }

  ghost function Given(s: KState, es: seq<Event>): (r: seq<Gift>)
    requires Inv(s) && PossibleRun(es)
    decreases |es|
  {
    if es == [] then [] else Given(s, es[..|es|-1]) + GivenBy(Run(s, es[..|es|-1]), es[|es|-1])
  }

  lemma {:induction false} BytesConcat(g: seq<Gift>, h: seq<Gift>)
    ensures Bytes(g + h) == Bytes(g) + Bytes(h)
  {
    if h == [] {
      assert g + h == g;
    } else {
      var n := |h| - 1;
      assert (g + h)[..|g + h| - 1] == g + h[..n];
      BytesConcat(g, h[..n]);
    }
  }

  lemma SizesConcat(g: seq<Gift>, h: seq<Gift>)
    ensures Served(g + h) == Served(g) + Served(h)
  {
  }

  /** From a keyboard in order, over every disciplined run: what was in the buffer and what was typed is,
      in order, what the readers found plus what is still in the buffer; the readers served are the
      first to have asked, each with exactly the place and length asked for; the rest are still queued. */
  lemma {:induction false} Delivery(s: KState, es: seq<Event>)
    requires Inv(s) && PossibleRun(es) && KeyboardOk(s) && Disciplined(s, es)
    ensures var s', g := Run(s, es), Given(s, es);
      && s.ring + Typed(s, es) == Bytes(g) + s'.ring
      && Pending(s) + Asked(s, es) == Served(g) + Pending(s')
      && KeyboardOk(s')
    decreases |es|
  {
    hide Inv, Step, KeyboardOk, Pending, SavedBy, AskedBy, GivenBy, Served, Bytes;
    InvShape(s);
    if es == [] {
      NothingGiven(s);
    } else {
      var k := |es| - 1;
      Delivery(s, es[..k]);
      RunLast(s, es);
      var s1 := Run(s, es[..k]);
      StepAccounted(s1, es[k]);
      DeliveryStep(s, es, s1, Run(s, es));
    }
  }

  lemma NothingGiven(s: KState)
    requires Inv(s)
    ensures Bytes([]) == [] && Served([]) == [] && Run(s, []) == s && Given(s, []) == []
    ensures s.ring + Typed(s, []) == s.ring && Pending(s) + Asked(s, []) == Pending(s)
    ensures [] + s.ring == s.ring && [] + Pending(s) == Pending(s)
  {
  }

  lemma DeliveryStep(s: KState, es: seq<Event>, s1: KState, s2: KState)
    requires Inv(s) && PossibleRun(es) && es != [] && PossibleRun(es[..|es|-1])
    requires s1 == Run(s, es[..|es|-1]) && Inv(s1) && Inv(s2) && s2 == Step(s1, es[|es|-1]).0
    requires Accounted(s1, es[|es|-1])
    requires s.ring + Typed(s, es[..|es|-1]) == Bytes(Given(s, es[..|es|-1])) + s1.ring
    requires Pending(s) + Asked(s, es[..|es|-1]) == Served(Given(s, es[..|es|-1])) + Pending(s1)
    ensures s.ring + Typed(s, es) == Bytes(Given(s, es)) + s2.ring
    ensures Pending(s) + Asked(s, es) == Served(Given(s, es)) + Pending(s2)
    ensures KeyboardOk(s2)
  {
    hide Inv, Step, KeyboardOk, Pending, SavedBy, AskedBy, GivenBy, Served, Bytes, Run, Typed, Asked, Given, Partition;
    InvShape(s);
    InvShape(s1);
    InvShape(s2);
    EntriesLast(s, es);
    var g, h := Given(s, es[..|es|-1]), GivenBy(s1, es[|es|-1]);
    BytesConcat(g, h);
    SizesConcat(g, h);
    JoinBooks(s.ring, Typed(s, es[..|es|-1]), Bytes(g), s1.ring, SavedBy(s1, es[|es|-1]), Bytes(h), s2.ring);
    JoinBooks(Pending(s), Asked(s, es[..|es|-1]), Served(g), Pending(s1), AskedBy(s1, es[|es|-1]), Served(h),
      Pending(s2));
  }

  lemma EntriesLast(s: KState, es: seq<Event>)
    requires Inv(s) && PossibleRun(es) && es != [] && PossibleRun(es[..|es|-1])
    ensures var s1, e := Run(s, es[..|es|-1]), es[|es|-1];
      && Typed(s, es) == Typed(s, es[..|es|-1]) + SavedBy(s1, e)
      && Asked(s, es) == Asked(s, es[..|es|-1]) + AskedBy(s1, e)
      && Given(s, es) == Given(s, es[..|es|-1]) + GivenBy(s1, e)
  {
  }

  /** Two accounts, one after the other, are one. */
  lemma JoinBooks<T>(start: seq<T>, came: seq<T>, went: seq<T>, mid: seq<T>, came': seq<T>, went': seq<T>, end: seq<T>)
    requires start + came == went + mid && mid + came' == went' + end
    ensures start + (came + came') == (went + went') + end
  {
    assert start + (came + came') == (start + came) + came';
    assert went + (mid + came') == (went + mid) + came';
    assert went + (went' + end) == (went + went') + end;
  }

  // ---------- the full buffer ----------

  /** A full buffer looks empty to readers and full to the keyboard: nothing ever changes it. */
  lemma FullStays(s: KState, e: Event)
    requires Inv(s) && Possible(e) && |s.ring| == CIRC_BUFF_SIZE
    ensures Step(s, e).0.ring == s.ring
  {
    if e.ReadCall? {
      ReadReady(s, e.buff, e.size);
      hide Inv;
      assert s.ring[0..] == s.ring;
    } else if e.KeyStroke? {
      KeyReady(s);
      hide Inv;
      assert s.ring[0..] == s.ring;
    } else {
      OtherKbd(s, e);
    }
  }

  lemma {:induction false} FullForever(s: KState, es: seq<Event>)
    requires Inv(s) && PossibleRun(es) && |s.ring| == CIRC_BUFF_SIZE
    ensures Run(s, es).ring == s.ring
    decreases |es|
  {
    hide Inv, Step;
    if es != [] {
      FullForever(s, es[..|es|-1]);
      RunLast(s, es);
      FullStays(Run(s, es[..|es|-1]), es[|es|-1]);
    }
  }

  /** A read from a full buffer returns 0, however much was asked for, and stores as many bytes as were
      asked for all the same: whatever the system buffer held. */
  lemma FullReadsNothing(s: KState, buff: int, size: int)
    requires Inv(s) && AccessOk(buff, size) && |s.ring| == CIRC_BUFF_SIZE && size <= CIRC_BUFF_SIZE
    requires s.queues[KBDQ] == [] && s.task[s.current].pid != 0
    ensures var (s', r) := ReadKeyboard(s, buff, size);
      && r == Returned(0) && s'.ring == s.ring && s'.sysbuff == s.sysbuff
      && FramesInRange(s', s.current) && Seen(s', s.current, buff, size) == s.sysbuff[..size]
  {
    hide Inv, Core, CurrentOk, Seen, StoreBytes;
    InvShape(s);
    assert s.ring[0..] == s.ring && s.ring[..0] + s.sysbuff[0..] == s.sysbuff;
    BytesSeen(s, ReadKeyboard(s, buff, size).0, buff, s.sysbuff[..size]);
  }

  // ---------- readers that are never served ----------

  /** The first waiting reader wants more than the buffer holds, or as much as was there already when it
      came to the front: the test for exactly enough characters cannot succeed any more. */
  ghost predicate Missed(s: KState)
    requires Shaped(s)
  {
    && s.queues[KBDQ] != []
    && var n := s.task[First(s, KBDQ)].remain;
       n > CIRC_BUFF_SIZE || (n <= |s.ring| && n < CIRC_BUFF_SIZE)
  }

  lemma MissedStays(s: KState, e: Event)
    requires Inv(s) && Possible(e) && Missed(s)
    ensures var s' := Step(s, e).0; s.queues[KBDQ] <= s'.queues[KBDQ] && Missed(s')
  {
    hide Inv, Core, Dispatch, Delivered;
    InvShape(s);
    if e.ReadCall? {
      ReadReady(s, e.buff, e.size);
      if ReadBlocks(s, e.size) {
        ReadJoins(s, e.buff, e.size);
      }
    } else if e.KeyStroke? {
      KeyReady(s);
    } else {
      OtherKbd(s, e);
    }
  }

  /** Nobody in the queue is served any more, whatever happens. */
  lemma {:induction false} MissedForever(s: KState, es: seq<Event>)
    requires Inv(s) && PossibleRun(es) && Missed(s)
    ensures s.queues[KBDQ] <= Run(s, es).queues[KBDQ] && Missed(Run(s, es))
    decreases |es|
  {
    hide Inv, Step, Missed;
    if es != [] {
      MissedForever(s, es[..|es|-1]);
      RunLast(s, es);
      MissedStays(Run(s, es[..|es|-1]), es[|es|-1]);
    }
  }

  function Strokes(n: nat): (es: seq<Event>)
    ensures |es| == n && PossibleRun(es)
  {
    seq(n, _ => KeyStroke(0))
  }

  lemma OneMoreKey(s: KState)
    requires Inv(s)
    ensures Shaped(s)
    ensures s.queues[KBDQ] != [] && |s.ring| + 1 < s.task[First(s, KBDQ)].remain <= CIRC_BUFF_SIZE ==>
              var s' := Step(s, KeyStroke(0)).0;
              s'.queues == s.queues && s'.task == s.task && |s'.ring| == |s.ring| + 1
  {
    hide Inv, Core, Delivered;
    InvShape(s);
    KeyReady(s);
  }

  /** Keys struck while the first reader still lacks more pile up in the buffer. */
  lemma {:induction false} KeysPile(s: KState, n: nat)
    requires Inv(s) && s.queues[KBDQ] != [] && |s.ring| + n < s.task[First(s, KBDQ)].remain <= CIRC_BUFF_SIZE
    ensures var s' := Run(s, Strokes(n));
      s'.queues == s.queues && s'.task == s.task && |s'.ring| == |s.ring| + n
  {
    hide Inv, Step, Core;
    InvShape(s);
    if n == 0 {
      assert Strokes(0) == [];
      RunNone(s);
    } else {
      KeysPile(s, n - 1);
      LastStroke(s, n);
      OneMoreKey(Run(s, Strokes(n - 1)));
    }
  }

  lemma LastStroke(s: KState, n: nat)
    requires Inv(s) && n > 0
    ensures Run(s, Strokes(n)) == Step(Run(s, Strokes(n - 1)), KeyStroke(0)).0
  {
    hide Inv, Step;
    assert Strokes(n)[..n - 1] == Strokes(n - 1);
    RunLast(s, Strokes(n));
  }

  /** Key presses until the first reader is served: as many as it lacks characters; from a full buffer,
      which gives it nothing, one. */
  function Lacking(s: KState): (n: int)
    requires Shaped(s) && s.queues[KBDQ] != []
  {
    if |s.ring| == CIRC_BUFF_SIZE then 1 else s.task[First(s, KBDQ)].remain - |s.ring|
  }

  /** A reader that is not missed is served by that many key presses.  If it asked for less than the buffer
      holds that empties the buffer; otherwise the buffer is full from then on. */
  lemma ServedByKeys(s: KState)
    requires Inv(s) && s.queues[KBDQ] != [] && !Missed(s)
    ensures var n, s' := Lacking(s), Run(s, Strokes(Max0(Lacking(s))));
      && n > 0 && s'.queues[KBDQ] == s.queues[KBDQ][1..]
      && (forall t :: 0 <= t < NR_TASKS && t != First(s, KBDQ) ==> s'.task[t].remain == s.task[t].remain)
      && |s'.ring| == if s.task[First(s, KBDQ)].remain == CIRC_BUFF_SIZE then CIRC_BUFF_SIZE else 0
  {
    hide Inv, Core;
    InvShape(s);
    var n := Lacking(s);
    var s1 := Run(s, Strokes(n - 1));
    if n > 1 {
      KeysPile(s, n - 1);
    } else {
      assert Strokes(0) == [];
      RunNone(s);
    }
    LastStroke(s, n);
    InvShape(s1);
    KeyReady(s1);
    ReadersOnce(s1);
    FirstGone(s1);
  }

  function Max0(n: int): (m: nat) { if n < 0 then 0 else n }

  lemma FirstGone(s: KState)
    requires Shaped(s) && Inv(s) && s.queues[KBDQ] != [] && WishOk(s, First(s, KBDQ))
    requires |RingSaved(s.ring, 0)| == s.task[First(s, KBDQ)].remain
    ensures var s' := KeyPress(s, 0);
      && s'.queues[KBDQ] == s.queues[KBDQ][1..]
      && (forall t :: 0 <= t < NR_TASKS && t != First(s, KBDQ) ==> s'.task[t].remain == s.task[t].remain)
      && |s'.ring| == if s.task[First(s, KBDQ)].remain == CIRC_BUFF_SIZE then CIRC_BUFF_SIZE else 0
  {
    hide Inv, Core, StoreBytes, Window;
    InvShape(s);
    ReadersOnce(s);
    DeliveredQueues(s.(ring := RingSaved(s.ring, 0)));
  }

  /** What the reader at position i waits for. */
  function Wish(s: KState, i: nat): (n: int)
    requires Shaped(s) && i < |s.queues[KBDQ]|
  {
    assert s.queues[KBDQ][i] in s.queues[KBDQ];
    s.task[s.queues[KBDQ][i]].remain
  }

  /** The readers up to position p can all be served: the first is not missed, the others will find an
      empty buffer they can fill; and once one asks for all the buffer holds, so that it stays full, so do
      all behind it. */
  ghost predicate Servable(s: KState, p: nat)
    requires Shaped(s) && p < |s.queues[KBDQ]|
  {
    && !Missed(s)
    && (forall i :: 0 < i <= p ==> 1 <= Wish(s, i) <= CIRC_BUFF_SIZE)
    && forall i, j :: 0 <= i < j <= p && Wish(s, i) == CIRC_BUFF_SIZE ==> Wish(s, j) == CIRC_BUFF_SIZE
  }

  /** s' is s with the first reader served. */
  ghost predicate FirstServed(s: KState, s': KState)
    requires Shaped(s) && Shaped(s') && s.queues[KBDQ] != []
  {
    && s'.queues[KBDQ] == s.queues[KBDQ][1..]
    && (forall t :: 0 <= t < NR_TASKS && t != First(s, KBDQ) ==> s'.task[t].remain == s.task[t].remain)
    && |s'.ring| == if Wish(s, 0) == CIRC_BUFF_SIZE then CIRC_BUFF_SIZE else 0
  }

  lemma WishesShift(s: KState, s': KState)
    requires Shaped(s) && Shaped(s') && s.queues[KBDQ] != [] && FirstServed(s, s') && NoDup(s.queues[KBDQ])
    ensures forall i :: 0 <= i < |s'.queues[KBDQ]| ==> Wish(s', i) == Wish(s, i + 1)
    ensures forall i :: 0 < i < |s.queues[KBDQ]| ==> Wish(s', i - 1) == Wish(s, i)
  {
    var q := s.queues[KBDQ];
    forall i | 0 <= i < |q| - 1 ensures Wish(s', i) == Wish(s, i + 1) {
      assert s'.queues[KBDQ][i] == q[i + 1] && q[i + 1] in q && q[i + 1] != q[0];
    }
  }

  /** Serving the first reader keeps both the chance and the hopelessness of those behind it. */
  lemma ServableShifts(s: KState, s': KState, p: nat)
    requires Shaped(s) && Shaped(s') && s.queues[KBDQ] != [] && FirstServed(s, s') && NoDup(s.queues[KBDQ])
    requires 0 < p < |s.queues[KBDQ]| && !Missed(s)
    ensures Servable(s, p) <==> Servable(s', p - 1)
  {
    WishesShift(s, s');
    assert First(s', KBDQ) == s'.queues[KBDQ][0] && Wish(s', 0) == Wish(s, 1);
    if Servable(s', p - 1) {
      forall i | 0 < i <= p ensures 1 <= Wish(s, i) <= CIRC_BUFF_SIZE {
        assert Wish(s, i) == Wish(s', i - 1);
      }
      forall i, j | 0 <= i < j <= p && Wish(s, i) == CIRC_BUFF_SIZE ensures Wish(s, j) == CIRC_BUFF_SIZE {
        assert Wish(s, j) == Wish(s', j - 1) && Wish(s, 1) == Wish(s', 0);
        assert i > 0 ==> Wish(s, i) == Wish(s', i - 1);
      }
    }
  }

  /** Key presses alone serve everybody up to position p. */
  lemma {:induction false} AllServed(s: KState, p: nat) returns (es: seq<Event>)
    requires Inv(s) && p < |s.queues[KBDQ]| && Servable(s, p)
    ensures PossibleRun(es) && Run(s, es).queues[KBDQ] == s.queues[KBDQ][p + 1..]
    decreases p
  {
    hide Inv, Servable, Missed, Run, Core, FirstServed;
    InvShape(s);
    ReadersOnce(s);
    NotMissed(s, p);
    es := ServeFirst(s);
    var s', q := Run(s, es), s.queues[KBDQ];
    if p > 0 {
      InvShape(s');
      ServableShifts(s, s', p);
      var more := AllServed(s', p - 1);
      RunConcat(s, es, more);
      es := es + more;
      assert q[1..][p..] == q[p + 1..];
    }
  }

  lemma ServeFirst(s: KState) returns (es: seq<Event>)
    requires Inv(s) && s.queues[KBDQ] != [] && !Missed(s)
    ensures Shaped(s) && PossibleRun(es) && Shaped(Run(s, es)) && FirstServed(s, Run(s, es))
    ensures Run(s, es).queues[KBDQ] == s.queues[KBDQ][1..]
  {
    hide Inv, Missed, Run, Core;
    InvShape(s);
    ServedByKeys(s);
    es := Strokes(Max0(Lacking(s)));
    InvShape(Run(s, es));
  }

  lemma NotMissed(s: KState, p: nat)
    requires Shaped(s) && p < |s.queues[KBDQ]|
    ensures Servable(s, p) ==> !Missed(s)
    ensures p == 0 && !Servable(s, p) ==> Missed(s)
  {
  }

  /** A reader that cannot be served stays so, perhaps a place further ahead. */
  lemma UnservableStays(s: KState, e: Event, p: nat) returns (p': nat)
    requires Inv(s) && Possible(e) && p < |s.queues[KBDQ]| && !Servable(s, p)
    ensures var s' := Step(s, e).0;
      p' < |s'.queues[KBDQ]| && s'.queues[KBDQ][p'] == s.queues[KBDQ][p] && !Servable(s', p')
  {
    hide Inv, Core, Dispatch, Delivered;
    InvShape(s);
    var s' := Step(s, e).0;
    p' := p;
    if Missed(s) {
      MissedStays(s, e);
    } else if e.KeyStroke? {
      KeyReady(s);
      p' := KeyUnservable(s, e.c, p);
    } else if e.ReadCall? {
      ReadReady(s, e.buff, e.size);
      if ReadBlocks(s, e.size) {
        ReadJoins(s, e.buff, e.size);
      }
      SameWishes(s, s', p);
    } else {
      OtherKbd(s, e);
      SameWishes(s, s', p);
    }
  }

  lemma SameWishes(s: KState, s': KState, p: nat)
    requires Shaped(s) && Shaped(s') && p < |s.queues[KBDQ]| && s.queues[KBDQ] <= s'.queues[KBDQ]
    requires |s'.ring| == |s.ring| || !Missed(s)
    requires forall t :: t in s.queues[KBDQ] ==> 0 <= t < NR_TASKS && s'.task[t].remain == s.task[t].remain
    ensures !Missed(s) && !Servable(s, p) ==> !Servable(s', p)
  {
    assert forall i :: 0 <= i <= p ==> Wish(s', i) == Wish(s, i);
  }

  lemma KeyUnservable(s: KState, c: Byte, p: nat) returns (p': nat)
    requires Inv(s) && p < |s.queues[KBDQ]| && !Servable(s, p) && !Missed(s)
    requires WishOk(s, First(s, KBDQ))
    ensures var s' := KeyPress(s, c);
      p' < |s'.queues[KBDQ]| && s'.queues[KBDQ][p'] == s.queues[KBDQ][p] && !Servable(s', p')
  {
    hide Inv, Core, Delivered, Servable;
    InvShape(s);
    ReadersOnce(s);
    NotMissed(s, p);
    var s1, s' := s.(ring := RingSaved(s.ring, c)), KeyPress(s, c);
    if Deliverable(s1) {
      DeliveredFirst(s1);
      ServableShifts(s, s', p);
      p' := p - 1;
    } else {
      SameWishes(s, s', p);
      p' := p;
    }
  }

  lemma DeliveredFirst(s: KState)
    requires Shaped(s) && NoDup(s.queues[KBDQ]) && Deliverable(s) && WishOk(s, First(s, KBDQ))
    ensures FirstServed(s, Delivered(s))
  {
    DeliveredQueues(s);
    hide StoreBytes, Window;
  }

  lemma {:induction false} UnservableForever(s: KState, es: seq<Event>, p: nat) returns (p': nat)
    requires Inv(s) && PossibleRun(es) && p < |s.queues[KBDQ]| && !Servable(s, p)
    ensures var s' := Run(s, es);
      p' < |s'.queues[KBDQ]| && s'.queues[KBDQ][p'] == s.queues[KBDQ][p] && !Servable(s', p')
    decreases |es|
  {
    hide Inv, Step, Servable;
    if es == [] {
      RunNone(s);
      p' := p;
    } else {
      var q := UnservableForever(s, es[..|es|-1], p);
      RunLast(s, es);
      p' := UnservableStays(Run(s, es[..|es|-1]), es[|es|-1], q);
    }
  }

  /** Exactly the readers that are not servable wait for good, at whatever position. */
  lemma StuckIff(s: KState, p: nat)
    requires Inv(s) && p < |s.queues[KBDQ]|
    ensures !Servable(s, p) <==> forall es :: PossibleRun(es) ==> s.queues[KBDQ][p] in Run(s, es).queues[KBDQ]
  {
    hide Inv, Servable;
    InvShape(s);
    ReadersOnce(s);
    if Servable(s, p) {
      var es := AllServed(s, p);
      assert s.queues[KBDQ][p] !in s.queues[KBDQ][p + 1..];
    } else {
      forall es | PossibleRun(es) ensures s.queues[KBDQ][p] in Run(s, es).queues[KBDQ] {
        var q := UnservableForever(s, es, p);
      }
    }
  }
}
