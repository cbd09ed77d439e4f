/** The kernel's state as values: tasks, queues of task slots, semaphores, memory, keyboard buffer. */
module KernelTypes {

  newtype Byte = b: int | 0 <= b < 256

  // ---------- sizes ----------

  datatype Sizes = Sizes(
    tasks: nat, sems: nat, circBuff: nat, sysbuff: nat,
    totalPages: nat, kernelPages: nat, codePages: nat, dataPages: nat, userStart: nat, pageSize: nat,
    guards: seq<nat>)

  /** Frames alloc_frame can ever hand out: it looks at every second page from the kernel's end, and
      the code pages are taken statically. */
  function Allocatable(c: Sizes): (n: int) {
    (c.totalPages - c.kernelPages + 1) / 2 - (c.codePages + 1) / 2
  }

  /** Any sizes with room for every task's data; the witness holds the numbers the kernel is built with,
      and some places for the guard pages. */
  type KernelSizes = c: Sizes |
      && c.tasks > 0 && c.circBuff > 0 && c.sysbuff >= c.circBuff && c.pageSize > 0
      && c.kernelPages + c.codePages <= c.totalPages && c.totalPages > 0
      && c.userStart + c.codePages + 2 * c.dataPages <= c.totalPages
      && c.kernelPages <= c.userStart && c.tasks * c.dataPages <= Allocatable(c)
      && |c.guards| == c.tasks && forall i :: 0 <= i < c.tasks ==> c.guards[i] < c.kernelPages
    witness Sizes(10, 10, 80, 102400, 1024, 256, 8, 20, 256, 4096, [32, 34, 36, 38, 40, 42, 44, 46, 48, 50])

  const SIZES: KernelSizes
  const NR_TASKS: nat := SIZES.tasks
  const NR_SEM: nat := SIZES.sems
  const CIRC_BUFF_SIZE: nat := SIZES.circBuff
  const SYSBUFF_SIZE: nat := SIZES.sysbuff
  const TOTAL_PAGES: nat := SIZES.totalPages
  const NUM_PAG_KERNEL: nat := SIZES.kernelPages
  const NUM_PAG_CODE: nat := SIZES.codePages
  const NUM_PAG_DATA: nat := SIZES.dataPages
  const PAGE_SIZE: nat := SIZES.pageSize

  /** The page below each task structure, wherever the linker puts it in the kernel: never mapped, so that
      an overflowing kernel stack faults. */
  const GUARDS: seq<nat> := SIZES.guards

  /** Logical pages: user code, the data window, and the window fork copies through. */
  const CODE_PAGE: nat := SIZES.userStart
  const DATA_PAGE: nat := CODE_PAGE + NUM_PAG_CODE
  const TEMP_PAGE: nat := DATA_PAGE + NUM_PAG_DATA

  const DEFAULT_QUANTUM := 10
  const NULL_PID := -1
  const FREE_SEM := -1

  const EPERM := 1
  const EAGAIN := 11
  const ENOMEM := 12
  const EBUSY := 16
  const EINVAL := 22

  // ---------- queues ----------

  const RUNQ: nat := 0
  const FREEQ: nat := 1
  const KBDQ: nat := 2
  const NR_QUEUES: nat := 3 + NR_SEM

  function SemQ(n: nat): (r: nat) { 3 + n }

  // ---------- entities ----------

  datatype RunState = Running | Ready | Blocked

  datatype Task = Task(
    pid: int, state: RunState,
    tics: int, cs: int, remainingQuantum: int, quantum: int,
    frames: seq<int>,
    buff: int, remain: int, offset: int,
    eax: int)

  datatype Sem = Sem(owner: int, value: int)

  datatype Entry = Absent | Maps(frame: int)

  /** Used frames, the page table, and what the frames hold. */
  datatype Mem = Mem(phys: seq<bool>, pages: seq<Entry>, ram: seq<seq<Byte>>)

  datatype KState = KState(
    task: seq<Task>, queues: seq<seq<int>>, sems: seq<Sem>, mem: Mem,
    ring: seq<Byte>, sysbuff: seq<Byte>,
    current: int, roundtics: int, pidCounter: int)

  /** A call returns a value to the task that made it, or control goes to another task. */
  datatype Outcome = Returned(value: int) | NoResult

  function Min(a: int, b: int): (n: int) { if a <= b then a else b }
}
