/** mm.c and the copies of utils.c: used frames, the page table and the frames' contents, in place. */
module MemoryManager {
  import opened KernelTypes
  import opened MemorySpec
  import opened KernelBoot

  /** The page table after init_table_pages. */
  function KernelPages(): (pages: seq<Entry>)
    ensures |pages| == TOTAL_PAGES
  {
    seq(TOTAL_PAGES, p requires 0 <= p < TOTAL_PAGES => if p < NUM_PAG_KERNEL then KernelPage(p) else Absent)
  }

  /** The page table with n code pages and these data pages mapped. */
  function Mapped(n: nat, frames: seq<int>): (pages: seq<Entry>)
    ensures |pages| == TOTAL_PAGES
  {
    seq(TOTAL_PAGES, p requires 0 <= p < TOTAL_PAGES =>
      if p < NUM_PAG_KERNEL then KernelPage(p)
      else if CODE_PAGE <= p < CODE_PAGE + n then Maps(NUM_PAG_KERNEL + p - CODE_PAGE)
      else if DATA_PAGE <= p < DATA_PAGE + |frames| then Maps(frames[p - DATA_PAGE])
      else Absent)
  }

  lemma MappedGrows(n: nat, frames: seq<int>, f: int)
    ensures n < NUM_PAG_CODE ==> Mapped(n, [])[CODE_PAGE + n := Maps(NUM_PAG_KERNEL + n)] == Mapped(n + 1, [])
    ensures |frames| < NUM_PAG_DATA ==> Mapped(NUM_PAG_CODE,
            frames)[DATA_PAGE + |frames| := Maps(f)] == Mapped(NUM_PAG_CODE, frames + [f])
    ensures Mapped(0, []) == KernelPages() && Mapped(NUM_PAG_CODE, BootFrames()) == BootPages()
  {
    hide BootFrames;
  }

  lemma UsedGrows(n: nat)
    requires n < TOTAL_PAGES
    ensures UsedBelow(n)[n := true] == UsedBelow(n + 1)
  {
  }

  lemma AllocatedNext(phys: seq<bool>, n: nat)
    ensures Allocated(phys, 0) == (phys, [])
    ensures var (p, fs) := Allocated(phys, n);
      var f := FirstFree(p, NUM_PAG_KERNEL);
      Allocated(phys, n + 1) == (if f == -1 then p else p[f := true], fs + [f])
  {
  }

  lemma BootAllocated()
    ensures Allocated(UsedBelow(NUM_PAG_KERNEL + NUM_PAG_CODE), NUM_PAG_DATA) == (BootPhys(), BootFrames())
  {
  }

  class Memory {
    const phys: array<bool>
    const pages: array<Entry>
    const ram: array<seq<Byte>>

    ghost function Value(): (m': Mem)
      reads phys, pages, ram
    {
      Mem(phys[..], pages[..], ram[..])
    }

    ghost predicate Valid()
      reads phys, pages, ram
    {
      MemShaped(Value())
    }

    /** init_mm: init_table_pages and init_frames, over whatever the frames hold. */
    constructor (contents: seq<seq<Byte>>)
      requires |contents| == TOTAL_PAGES && forall f :: 0 <= f < TOTAL_PAGES ==> |contents[f]| == PAGE_SIZE
      ensures Valid() && fresh(phys) && fresh(pages) && fresh(ram)
      ensures Value() == Mem(UsedBelow(NUM_PAG_KERNEL), KernelPages(), contents)
    {
      phys := new bool[TOTAL_PAGES];
      pages := new Entry[TOTAL_PAGES](_ => Absent);
      ram := new seq<Byte>[TOTAL_PAGES](f requires 0 <= f < TOTAL_PAGES => contents[f]);
      new;
      assert ram[..] == contents;
      InitTablePages();
      InitFrames();
    }

    /** init_table_pages: nothing mapped, then the kernel's pages, then the guard pages taken out again. */
    method InitTablePages()
      requires pages.Length == TOTAL_PAGES
      modifies pages
      ensures pages[..] == KernelPages()
    {
      for i := 0 to TOTAL_PAGES
        invariant forall p :: 0 <= p < i ==> pages[p] == Absent
      {
        pages[i] := Absent;
      }
      for i := 0 to NUM_PAG_KERNEL
        invariant forall p :: 0 <= p < i ==> pages[p] == Maps(p)
        invariant forall p :: i <= p < TOTAL_PAGES ==> pages[p] == Absent
      {
        pages[i] := Maps(i);
      }
      for i := 0 to NR_TASKS
        invariant forall p :: 0 <= p < NUM_PAG_KERNEL ==> pages[p] == if p in GUARDS[..i] then Absent else Maps(p)
        invariant forall p :: NUM_PAG_KERNEL <= p < TOTAL_PAGES ==> pages[p] == Absent
      {
        assert GUARDS[..i + 1] == GUARDS[..i] + [GUARDS[i]];
        pages[GUARDS[i]] := Absent;
      }
      assert GUARDS[..NR_TASKS] == GUARDS;
      assert pages[..] == KernelPages();
    }

    /** init_frames: the kernel's frames used, all others free. */
    method InitFrames()
      requires phys.Length == TOTAL_PAGES
      modifies phys
      ensures phys[..] == UsedBelow(NUM_PAG_KERNEL)
    {
      for i := 0 to TOTAL_PAGES
        invariant forall f :: 0 <= f < i ==> !phys[f]
      {
        phys[i] := false;
      }
      for i := 0 to NUM_PAG_KERNEL
        invariant forall f :: 0 <= f < i ==> phys[f]
        invariant forall f :: i <= f < TOTAL_PAGES ==> !phys[f]
      {
        phys[i] := true;
      }
      assert phys[..] == UsedBelow(NUM_PAG_KERNEL);
    }

    /** alloc_frame: the lowest free frame of every second one, or -1. */
    method AllocFrame() returns (f: int)
      requires Valid()
      modifies phys
      ensures Valid() && f == FirstFree(old(phys[..]), NUM_PAG_KERNEL)
      ensures phys[..] == if f == -1 then old(phys[..]) else old(phys[..])[f := true]
    {
      var i := NUM_PAG_KERNEL;
      while i < TOTAL_PAGES
        invariant NUM_PAG_KERNEL <= i && phys[..] == old(phys[..])
        invariant FirstFree(phys[..], i) == FirstFree(phys[..], NUM_PAG_KERNEL)
      {
        if !phys[i] {
          phys[i] := true;
          return i;
        }
        i := i + 2;
      }
      return -1;
    }

    method FreeFrame(f: int)
      requires Valid() && 0 <= f < TOTAL_PAGES
      modifies phys
      ensures Valid() && phys[..] == old(phys[..])[f := false]
    {
      phys[f] := false;
    }

    method SetPage(p: int, frame: int)
      requires Valid() && 0 <= p < TOTAL_PAGES
      modifies pages
      ensures Valid() && pages[..] == old(pages[..])[p := Maps(frame)]
    {
      pages[p] := Maps(frame);
    }

    method DelPage(p: int)
      requires Valid() && 0 <= p < TOTAL_PAGES
      modifies pages
      ensures Valid() && pages[..] == old(pages[..])[p := Absent]
    {
      pages[p] := Absent;
    }

    /** The loop of task_switch and of a keyboard delivery: these frames into the data window. */
    method ShowFrames(frames: seq<int>)
      requires Valid() && |frames| == NUM_PAG_DATA
      modifies pages
      ensures Valid() && pages[..] == Window(old(pages[..]), frames)
    {
      var lpag := CODE_PAGE + NUM_PAG_CODE;
      for i := 0 to NUM_PAG_DATA
        invariant forall p :: 0 <= p < TOTAL_PAGES && !(lpag <= p < lpag + i) ==> pages[p] == old(pages[p])
        invariant forall p :: lpag <= p < lpag + i ==> pages[p] == Maps(frames[p - DATA_PAGE])
      {
        SetPage(lpag + i, frames[i]);
        assert forall p :: 0 <= p < TOTAL_PAGES ==> pages[p] == pages[..][p];
      }
    }

    /** copy_data of one whole logical page onto another. */
    method CopyPage(from: int, to: int)
      requires Valid() && 0 <= from < TOTAL_PAGES && 0 <= to < TOTAL_PAGES
      modifies ram
      ensures Valid() && Value() == PageCopied(old(Value()), from, to)
    {
      ram[FrameAt(pages[..], to)] := ram[FrameAt(pages[..], from)];
    }

    /** A byte stored at a user data address. */
    method StoreUser(a: nat, b: Byte)
      requires Valid() && PageNo(a) < NUM_PAG_DATA
      modifies ram
      ensures Valid() && Value() == StoreByte(old(Value()), a, b)
    {
      var f := FrameAt(pages[..], DATA_PAGE + PageNo(a));
      ram[f] := ram[f][InPage(a) := b];
    }

    /** copy_to_user, its word moves as byte moves. */
    method CopyToUser(from: array<Byte>, a: nat, size: nat)
      requires Valid() && size <= from.Length && a + size <= NUM_PAG_DATA * PAGE_SIZE
      modifies ram
      ensures Valid() && Value() == StoreBytes(old(Value()), a, from[..size])
    {
      for i := 0 to size
        invariant Valid() && Value() == StoreBytes(old(Value()), a, from[..i])
      {
        PageOf(a + i);
        assert from[..i + 1][..i] == from[..i];
        StoreUser(a + i, from[i]);
      }
    }

    /** set_user_pages: task 0's code pages taken statically, its data pages allocated. */
    method SetUserPages() returns (frames: seq<int>)
      requires Valid() && phys[..] == UsedBelow(NUM_PAG_KERNEL) && pages[..] == KernelPages()
      modifies phys, pages
      ensures Valid() && phys[..] == BootPhys() && pages[..] == BootPages() && frames == BootFrames()
    {
      hide Mapped, UsedBelow, BootPhys, BootPages, Allocated, FirstFree;
      MappedGrows(0, [], 0);
      BootAllocated();
      MapCode();
      frames := MapData();
    }

    /** Its loop over the code pages. */
    method MapCode()
      requires Valid() && phys[..] == UsedBelow(NUM_PAG_KERNEL) && pages[..] == Mapped(0, [])
      modifies phys, pages
      ensures Valid() && phys[..] == UsedBelow(NUM_PAG_KERNEL + NUM_PAG_CODE) && pages[..] == Mapped(NUM_PAG_CODE, [])
    {
      hide Mapped, UsedBelow;
      var page := CODE_PAGE;
      var first := NUM_PAG_KERNEL;
      while page < DATA_PAGE
        modifies phys, pages
        invariant CODE_PAGE <= page <= DATA_PAGE && first == NUM_PAG_KERNEL + (page - CODE_PAGE)
        invariant phys[..] == UsedBelow(first) && pages[..] == Mapped(page - CODE_PAGE, [])
      {
        MappedGrows(page - CODE_PAGE, [], 0);
        UsedGrows(first);
        pages[page] := Maps(first);
        phys[first] := true;
        first := first + 1;
        page := page + 1;
      }
    }

    /** Its loop over the data pages. */
    method MapData() returns (frames: seq<int>)
      requires Valid() && pages[..] == Mapped(NUM_PAG_CODE, [])
      modifies phys, pages
      ensures Valid() && |frames| == NUM_PAG_DATA && pages[..] == Mapped(NUM_PAG_CODE, frames)
      ensures (phys[..], frames) == Allocated(old(phys[..]), NUM_PAG_DATA)
    {
      hide Mapped, Allocated, FirstFree;
      ghost var start := phys[..];
      var page := DATA_PAGE;
      frames := [];
      AllocatedNext(start, 0);
      while page < DATA_PAGE + NUM_PAG_DATA
        modifies phys, pages
        invariant page == DATA_PAGE + |frames| && |frames| <= NUM_PAG_DATA
        invariant (phys[..], frames) == Allocated(start, |frames|)
        invariant pages[..] == Mapped(NUM_PAG_CODE, frames)
      {
        AllocatedNext(start, |frames|);
        var f := AllocFrame();
        MappedGrows(NUM_PAG_CODE, frames, f);
        pages[page] := Maps(f);
        frames := frames + [f];
        page := page + 1;
      }
    }
  }
}
