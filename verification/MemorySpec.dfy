/** Frames, the page table and user bytes, as functions on memory values. */
module MemorySpec {
  import opened KernelTypes

  predicate MemShaped(m: Mem) {
    && |m.phys| == |m.pages| == |m.ram| == TOTAL_PAGES
    && forall f :: 0 <= f < TOTAL_PAGES ==> |m.ram[f]| == PAGE_SIZE
  }

  // ---------- frames ----------

  /** The lowest free frame among i, i+2, i+4, ... or -1. */
  function FirstFree(phys: seq<bool>, i: nat): (f: int)
    ensures f == -1 || (i <= f < |phys| && !phys[f] && (f - i) % 2 == 0)
    ensures f == -1 ==> forall j :: i <= j < |phys| && (j - i) % 2 == 0 ==> phys[j]
    ensures f != -1 ==> forall j :: i <= j < f && (j - i) % 2 == 0 ==> phys[j]
    decreases |phys| - i
  {
    if i >= |phys| then -1 else if !phys[i] then i else FirstFree(phys, i + 2)
  }

  /** How many of i, i+2, i+4, ... are free. */
  function CountFree(phys: seq<bool>, i: nat): (n: nat)
    decreases |phys| - i
  {
    if i >= |phys| then 0 else (if phys[i] then 0 else 1) + CountFree(phys, i + 2)
  }

  lemma {:induction false} CountFreeUpdate(phys: seq<bool>, i: nat, f: nat, used: bool)
    requires i <= f < |phys| && (f - i) % 2 == 0
    ensures CountFree(phys[f := used], i) ==
            CountFree(phys, i) + (if phys[f] then 1 else 0) - (if used then 1 else 0)
    decreases |phys| - i
  {
    if i == f {
      CountFreeAbove(phys, i + 2, f, used);
    } else {
      CountFreeUpdate(phys, i + 2, f, used);
    }
  }

  lemma {:induction false} CountFreeAbove(phys: seq<bool>, i: nat, f: nat, used: bool)
    requires f < i && f < |phys|
    ensures CountFree(phys[f := used], i) == CountFree(phys, i)
    decreases |phys| - i
  {
    if i < |phys| {
      CountFreeAbove(phys, i + 2, f, used);
    }
  }

  /** alloc_frame finds a frame exactly when one of its candidates is free. */
  lemma {:induction false} FirstFreeCount(phys: seq<bool>, i: nat)
    ensures FirstFree(phys, i) == -1 <==> CountFree(phys, i) == 0
    decreases |phys| - i
  {
    if i < |phys| {
      FirstFreeCount(phys, i + 2);
    }
  }

  /** free_frame on frames[0], ..., frames[n-1]. */
  function Freed(phys: seq<bool>, frames: seq<int>, n: nat): (r: seq<bool>)
    requires n <= |frames| && forall i :: 0 <= i < n ==> 0 <= frames[i] < |phys|
    ensures |r| == |phys|
    ensures forall f :: 0 <= f < |phys| ==> (r[f] <==> phys[f] && f !in frames[..n])
  {
    if n == 0 then phys
    else
      assert frames[..n] == frames[..n-1] + [frames[n-1]];
      Freed(phys, frames, n - 1)[frames[n-1] := false]
  }

  lemma FreedNone(phys: seq<bool>, frames: seq<int>)
    ensures Freed(phys, frames, 0) == phys
  {
  }

  lemma FreedOne(phys: seq<bool>, frames: seq<int>, n: nat)
    requires 0 < n <= |frames| && forall i, j :: 0 <= i < j < n ==> frames[i] != frames[j]
    requires (forall i :: 0 <= i < n ==> 0 <= frames[i] < |phys|) && phys[frames[n-1]]
    ensures Freed(phys, frames, n - 1)[frames[n-1]]
    ensures Freed(phys, frames, n) == Freed(phys, frames, n - 1)[frames[n-1] := false]
  {
    assert frames[n-1] !in frames[..n-1];
  }

  lemma {:induction false} FreedCount(phys: seq<bool>, frames: seq<int>, n: nat, start: nat)
    requires n <= |frames| && forall i, j :: 0 <= i < j < n ==> frames[i] != frames[j]
    requires forall i :: 0 <= i < n ==> start <= frames[i] < |phys| && (frames[i] - start) % 2 == 0 && phys[frames[i]]
    ensures CountFree(Freed(phys, frames, n), start) == CountFree(phys, start) + n
  {
    hide CountFree, Freed;
    if n == 0 {
      FreedNone(phys, frames);
    } else {
      FreedCount(phys, frames, n - 1, start);
      FreedOne(phys, frames, n);
      CountFreeUpdate(Freed(phys, frames, n - 1), start, frames[n-1], false);
    }
  }

  // ---------- page table ----------

  /** The frame behind a logical page. */
  function FrameAt(pages: seq<Entry>, p: nat): (f: nat)
    requires p < |pages|
    ensures f < TOTAL_PAGES
  {
    if pages[p].Maps? && 0 <= pages[p].frame < TOTAL_PAGES then pages[p].frame else 0
  }

  /** The data window set to the given frames. */
  function Window(pages: seq<Entry>, frames: seq<int>): (r: seq<Entry>)
    requires |frames| == NUM_PAG_DATA
    ensures |r| == |pages|
  {
    seq(|pages|, p requires 0 <= p < |pages| =>
      if DATA_PAGE <= p < TEMP_PAGE then Maps(frames[p - DATA_PAGE]) else pages[p])
  }

  /** The copying window closed. */
  function TempClosed(pages: seq<Entry>): (r: seq<Entry>)
    ensures |r| == |pages|
  {
    seq(|pages|, p requires 0 <= p < |pages| =>
      if TEMP_PAGE <= p < TEMP_PAGE + NUM_PAG_DATA then Absent else pages[p])
  }

  // ---------- user bytes ----------

  /** User data addresses are counted from the start of the data window. */
  function PageNo(a: nat): (n: nat) { a / PAGE_SIZE }

  function InPage(a: nat): (r: nat)
    ensures r < PAGE_SIZE
  {
    a % PAGE_SIZE
  }

  /** Storing one byte at user data address a, through the data window. */
  function StoreByte(m: Mem, a: nat, b: Byte): (m': Mem)
    requires MemShaped(m) && PageNo(a) < NUM_PAG_DATA
    ensures MemShaped(m') && m'.phys == m.phys && m'.pages == m.pages
  {
    var f := FrameAt(m.pages, DATA_PAGE + PageNo(a));
    m.(ram := m.ram[f := m.ram[f][InPage(a) := b]])
  }

  /** copy_to_user: the bytes one after the other. */
  function StoreBytes(m: Mem, a: nat, bytes: seq<Byte>): (m': Mem)
    requires MemShaped(m) && a + |bytes| <= NUM_PAG_DATA * PAGE_SIZE
    ensures MemShaped(m') && m'.phys == m.phys && m'.pages == m.pages
  {
    if bytes == [] then m
    else
      var n := |bytes| - 1;
      PageOf(a + n);
      StoreByte(StoreBytes(m, a, bytes[..n]), a + n, bytes[n])
  }

  lemma PageOf(a: nat)
    ensures a < NUM_PAG_DATA * PAGE_SIZE <==> PageNo(a) < NUM_PAG_DATA
    ensures a == PageNo(a) * PAGE_SIZE + InPage(a)
  {
    PageBound(a / PAGE_SIZE, a % PAGE_SIZE, NUM_PAG_DATA);
  }

  lemma PageBound(p: nat, r: nat, d: nat)
    requires r < PAGE_SIZE
    ensures p * PAGE_SIZE + r < d * PAGE_SIZE <==> p < d
  {
    if p < d {
      PagesScaled(p + 1, d);
    } else {
      PagesScaled(d, p);
    }
  }

  lemma PagesScaled(p: nat, d: nat)
    requires p <= d
    ensures p * PAGE_SIZE <= d * PAGE_SIZE
  {
  }

  /** The byte a task with these frames sees at user data address a. */
  function UserByte(ram: seq<seq<Byte>>, frames: seq<int>, a: nat): (r: Byte)
    requires |ram| == TOTAL_PAGES && (forall f :: 0 <= f < TOTAL_PAGES ==> |ram[f]| == PAGE_SIZE)
    requires |frames| == NUM_PAG_DATA && (forall i :: 0 <= i < NUM_PAG_DATA ==> 0 <= frames[i] < TOTAL_PAGES)
    requires PageNo(a) < NUM_PAG_DATA
  {
    ram[frames[PageNo(a)]][InPage(a)]
  }

  predicate FramesOk(frames: seq<int>) {
    && |frames| == NUM_PAG_DATA
    && (forall i :: 0 <= i < NUM_PAG_DATA ==> 0 <= frames[i] < TOTAL_PAGES)
    && forall i, j :: 0 <= i < j < NUM_PAG_DATA ==> frames[i] != frames[j]
  }

  /** The data window shows exactly these frames. */
  predicate WindowShows(pages: seq<Entry>, frames: seq<int>) {
    && |pages| == TOTAL_PAGES && |frames| == NUM_PAG_DATA
    && forall i :: 0 <= i < NUM_PAG_DATA ==> pages[DATA_PAGE + i] == Maps(frames[i])
  }

  lemma StoreByteSeen(m: Mem, frames: seq<int>, a: nat, x: Byte, b: nat)
    requires MemShaped(m) && FramesOk(frames) && WindowShows(m.pages, frames)
    requires a < NUM_PAG_DATA * PAGE_SIZE && b < NUM_PAG_DATA * PAGE_SIZE
    ensures PageNo(a) < NUM_PAG_DATA && PageNo(b) < NUM_PAG_DATA
    ensures UserByte(StoreByte(m, a, x).ram, frames, b) == if b == a then x else UserByte(m.ram, frames, b)
    ensures forall f :: 0 <= f < TOTAL_PAGES && f !in frames ==> StoreByte(m, a, x).ram[f] == m.ram[f]
  {
    hide PageNo, InPage;
    PageOf(a);
    PageOf(b);
    var p := PageNo(a);
    assert m.pages[DATA_PAGE + p] == Maps(frames[p]);
    assert frames[p] in frames;
  }

  /** copy_to_user changes exactly the addressed bytes of the task in the window, and no frame outside
      it. */
  lemma {:induction false} StoreBytesSeen(m: Mem, frames: seq<int>, a: nat, bytes: seq<Byte>, b: nat)
    requires MemShaped(m) && FramesOk(frames) && WindowShows(m.pages, frames)
    requires a + |bytes| <= NUM_PAG_DATA * PAGE_SIZE && b < NUM_PAG_DATA * PAGE_SIZE
    ensures PageNo(b) < NUM_PAG_DATA
    ensures UserByte(StoreBytes(m, a, bytes).ram, frames, b) ==
            if a <= b < a + |bytes| then bytes[b - a] else UserByte(m.ram, frames, b)
    ensures forall f :: 0 <= f < TOTAL_PAGES && f !in frames ==> StoreBytes(m, a, bytes).ram[f] == m.ram[f]
  {
    PageOf(b);
    if bytes != [] {
      var n := |bytes| - 1;
      StoreBytesSeen(m, frames, a, bytes[..n], b);
      StoreByteSeen(StoreBytes(m, a, bytes[..n]), frames, a + n, bytes[n], b);
      assert a <= b < a + n ==> bytes[..n][b - a] == bytes[b - a];
    }
  }

  // ---------- fork's copy ----------

  /** Memory after copying, the child's frame list, and whether every frame could be allocated. */
  datatype Copy = Copy(mem: Mem, frames: seq<int>, ok: bool)

  /** copy_data from one logical page to another. */
  function PageCopied(m: Mem, from: nat, to: nat): (m': Mem)
    requires MemShaped(m) && from < TOTAL_PAGES && to < TOTAL_PAGES
    ensures MemShaped(m')
  {
    m.(ram := m.ram[FrameAt(m.pages, to) := m.ram[FrameAt(m.pages, from)]])
  }

  /** The clean-up of a failed fork: frames[i], frames[i-1], ..., frames[0] are freed, the slot that
      could not be filled included. */
  function CleanedUp(phys: seq<bool>, frames: seq<int>, i: int): (r: seq<bool>)
    requires i < |frames|
    ensures |r| == |phys|
    decreases i + 1
  {
    if i < 0 then phys
    else CleanedUp(if 0 <= frames[i] < |phys| then phys[frames[i] := false] else phys, frames, i - 1)
  }

  /** It frees these frames, the first i + 1, and no others. */
  lemma {:induction false} CleanedUpFrees(phys: seq<bool>, frames: seq<int>, i: int)
    requires -1 <= i < |frames|
    ensures forall f :: 0 <= f < |phys| ==> (CleanedUp(phys, frames, i)[f] <==> phys[f] && f !in frames[..i + 1])
    decreases i + 1
  {
    if i >= 0 {
      var next := if 0 <= frames[i] < |phys| then phys[frames[i] := false] else phys;
      CleanedUpFrees(next, frames, i - 1);
      assert frames[..i + 1] == frames[..i] + [frames[i]];
    }
  }

  /** The first n rounds of fork's loop over the data pages. */
  function CopyPages(m: Mem, frames: seq<int>, n: nat): (r: Copy)
    requires MemShaped(m) && |frames| == NUM_PAG_DATA && n <= NUM_PAG_DATA
    ensures MemShaped(r.mem) && |r.frames| == NUM_PAG_DATA
  {
    if n == 0 then Copy(m, frames, true)
    else
      var i, r := n - 1, CopyPages(m, frames, n - 1);
      if !r.ok then r
      else
        var f := FirstFree(r.mem.phys, NUM_PAG_KERNEL);
        if f == -1 then Copy(r.mem.(phys := CleanedUp(r.mem.phys, r.frames, i)), r.frames, false)
        else
          var mapped := r.mem.(phys := r.mem.phys[f := true], pages := r.mem.pages[TEMP_PAGE + i := Maps(f)]);
          var copied := PageCopied(mapped, DATA_PAGE + i, TEMP_PAGE + i);
          Copy(copied.(pages := copied.pages[TEMP_PAGE + i := Absent]), r.frames[i := f], true)
  }

  /** The frames now behind the data window. */
  function Source(m: Mem, i: nat): (f: nat)
    requires MemShaped(m) && i < NUM_PAG_DATA
    ensures f < TOTAL_PAGES
  {
    FrameAt(m.pages, DATA_PAGE + i)
  }

  /** Distinct frames alloc_frame could have handed out. */
  predicate FreshFrames(phys: seq<bool>, fs: seq<int>) {
    && (forall i :: 0 <= i < |fs| ==>
         NUM_PAG_KERNEL <= fs[i] < |phys| && (fs[i] - NUM_PAG_KERNEL) % 2 == 0 && !phys[fs[i]])
    && forall i, j :: 0 <= i < j < |fs| ==> fs[i] != fs[j]
  }

  predicate TempAbsent(pages: seq<Entry>) {
    forall p :: TEMP_PAGE <= p < TEMP_PAGE + NUM_PAG_DATA && p < |pages| ==> pages[p] == Absent
  }

  /** The frames fs were free, are now used, and hold copies of the first |fs| data pages; the page
      table and every other frame are as they were. */
  predicate CopiedInto(m: Mem, m': Mem, fs: seq<int>)
    requires MemShaped(m) && MemShaped(m') && |fs| <= NUM_PAG_DATA
  {
    && m'.pages == m.pages && FreshFrames(m.phys, fs)
    && (forall f :: 0 <= f < TOTAL_PAGES ==> (m'.phys[f] <==> m.phys[f] || f in fs))
    && (forall f :: 0 <= f < TOTAL_PAGES && f !in fs ==> m'.ram[f] == m.ram[f])
    && (forall i :: 0 <= i < |fs| ==> m'.ram[fs[i]] == m.ram[Source(m, i)])
  }

  lemma FreshOneMore(phys: seq<bool>, fs: seq<int>, f: int)
    requires FreshFrames(phys, fs) && f !in fs
    requires NUM_PAG_KERNEL <= f < |phys| && (f - NUM_PAG_KERNEL) % 2 == 0 && !phys[f]
    ensures FreshFrames(phys, fs + [f])
  {
  }

  lemma CopyContents(m: Mem, p: Mem, fs: seq<int>, f: int, r: Mem)
    requires MemShaped(m) && MemShaped(p) && MemShaped(r) && |fs| < NUM_PAG_DATA && f !in fs && 0 <= f < TOTAL_PAGES
    requires CopiedInto(m, p, fs) && m.phys[Source(m, |fs|)]
    requires r.ram == p.ram[f := p.ram[Source(m, |fs|)]]
    ensures forall i :: 0 <= i <= |fs| ==>
              0 <= (fs + [f])[i] < TOTAL_PAGES && r.ram[(fs + [f])[i]] == m.ram[Source(m, i)]
  {
    hide Source;
    var now := fs + [f];
    assert Source(m, |fs|) !in fs;
    forall i | 0 <= i < |now| ensures 0 <= now[i] < TOTAL_PAGES && r.ram[now[i]] == m.ram[Source(m, i)] {
      if i < |fs| {
        assert now[i] == fs[i] && fs[i] in fs;
      }
    }
  }

  lemma CopyRound(m: Mem, p: Mem, fs: seq<int>, f: int, r: Mem)
    requires MemShaped(m) && MemShaped(p) && MemShaped(r) && |fs| < NUM_PAG_DATA
    requires CopiedInto(m, p, fs) && m.phys[Source(m, |fs|)]
    requires NUM_PAG_KERNEL <= f < TOTAL_PAGES && (f - NUM_PAG_KERNEL) % 2 == 0 && !p.phys[f]
    requires r == Mem(p.phys[f := true], p.pages, p.ram[f := p.ram[Source(m, |fs|)]])
    ensures CopiedInto(m, r, fs + [f])
  {
    hide Source;
    var now := fs + [f];
    assert f !in fs && !m.phys[f];
    FreshOneMore(m.phys, fs, f);
    CopyContents(m, p, fs, f, r);
    assert forall x :: x in now <==> x in fs || x == f;
  }

  /** With n candidate frames free, n rounds succeed. */
  lemma {:induction false} CopyPagesEffect(m: Mem, frames: seq<int>, n: nat)
    requires MemShaped(m) && |frames| == NUM_PAG_DATA && n <= NUM_PAG_DATA
    requires CountFree(m.phys, NUM_PAG_KERNEL) >= n && TempAbsent(m.pages)
    requires forall i :: 0 <= i < NUM_PAG_DATA ==> m.phys[Source(m, i)]
    ensures var r := CopyPages(m, frames, n);
      && r.ok && r.frames == r.frames[..n] + frames[n..] && CopiedInto(m, r.mem, r.frames[..n])
      && CountFree(r.mem.phys, NUM_PAG_KERNEL) == CountFree(m.phys, NUM_PAG_KERNEL) - n
  {
    hide CopyPages, CopiedInto, FreshFrames, CountFree, TempAbsent, Source, FirstFree;
    if n == 0 {
      CopyNone(m, frames);
    } else {
      var p, r := CopyPages(m, frames, n - 1), CopyPages(m, frames, n);
      CopyPagesEffect(m, frames, n - 1);
      CopiedPages(m, p.mem, p.frames[..n - 1]);
      CopyStep(m, frames, n);
      AllocOne(p.mem.phys);
      var f := FirstFree(p.mem.phys, NUM_PAG_KERNEL);
      CopyRound(m, p.mem, p.frames[..n - 1], f, r.mem);
      SlotFilled(p.frames, frames, n, f);
    }
  }

  lemma CopyNone(m: Mem, frames: seq<int>)
    requires MemShaped(m) && |frames| == NUM_PAG_DATA
    ensures var r := CopyPages(m, frames, 0);
      r.ok && r.mem == m && r.frames == r.frames[..0] + frames[0..] && CopiedInto(m, m, r.frames[..0])
  {
    assert frames == frames[..0] + frames[0..];
  }

  /** Allocating succeeds while a candidate frame is free, and uses up exactly one. */
  lemma AllocOne(phys: seq<bool>)
    requires CountFree(phys, NUM_PAG_KERNEL) > 0
    ensures var f := FirstFree(phys, NUM_PAG_KERNEL);
      && NUM_PAG_KERNEL <= f < |phys| && (f - NUM_PAG_KERNEL) % 2 == 0 && !phys[f]
      && CountFree(phys[f := true], NUM_PAG_KERNEL) == CountFree(phys, NUM_PAG_KERNEL) - 1
  {
    FirstFreeCount(phys, NUM_PAG_KERNEL);
    CountFreeUpdate(phys, NUM_PAG_KERNEL, FirstFree(phys, NUM_PAG_KERNEL), true);
  }

  lemma SlotFilled(p: seq<int>, frames: seq<int>, n: nat, f: int)
    requires 0 < n <= |p| == |frames| && p == p[..n - 1] + frames[n - 1..]
    ensures p[n - 1 := f][..n] == p[..n - 1] + [f]
    ensures p[n - 1 := f] == p[n - 1 := f][..n] + frames[n..]
  {
  }

  lemma CopiedPages(m: Mem, m': Mem, fs: seq<int>)
    requires MemShaped(m) && MemShaped(m') && |fs| <= NUM_PAG_DATA && CopiedInto(m, m', fs)
    ensures m'.pages == m.pages
  {
  }

  /** A round of the loop, in the order of its steps. */
  lemma CopyRounds(m: Mem, frames: seq<int>, i: nat)
    requires MemShaped(m) && |frames| == NUM_PAG_DATA && i < NUM_PAG_DATA && CopyPages(m, frames, i).ok
    ensures var c, d := CopyPages(m, frames, i), CopyPages(m, frames, i + 1);
      var f := FirstFree(c.mem.phys, NUM_PAG_KERNEL);
      && (d.ok <==> f != -1)
      && (f != -1 ==>
           var mapped := c.mem.(phys := c.mem.phys[f := true], pages := c.mem.pages[TEMP_PAGE + i := Maps(f)]);
           var copied := PageCopied(mapped, DATA_PAGE + i, TEMP_PAGE + i);
           d.mem == copied.(pages := copied.pages[TEMP_PAGE + i := Absent]) && d.frames == c.frames[i := f])
      && (f == -1 ==> d.mem == c.mem.(phys := CleanedUp(c.mem.phys, c.frames, i)) && d.frames == c.frames)
  {
  }

  /** The page behind the data pages maps the new frame, and only that. */
  lemma TempFree(m: Mem, i: nat, f: int)
    requires MemShaped(m) && i < NUM_PAG_DATA && TempAbsent(m.pages) && 0 <= f < TOTAL_PAGES
    ensures |m.pages| == TOTAL_PAGES
    ensures var pages := m.pages[TEMP_PAGE + i := Maps(f)];
      && FrameAt(pages, TEMP_PAGE + i) == f && FrameAt(pages, DATA_PAGE + i) == Source(m, i)
      && pages[TEMP_PAGE + i := Absent] == m.pages
  {
    assert m.pages[TEMP_PAGE + i] == Absent;
  }

  /** So a round takes the frame and copies the page into it. */
  lemma RoundResult(m: Mem, i: nat, f: int)
    requires MemShaped(m) && i < NUM_PAG_DATA && TempAbsent(m.pages) && 0 <= f < TOTAL_PAGES
    ensures |m.pages| == |m.phys| == |m.ram| == TOTAL_PAGES
    ensures var mapped := m.(phys := m.phys[f := true], pages := m.pages[TEMP_PAGE + i := Maps(f)]);
      var copied := PageCopied(mapped, DATA_PAGE + i, TEMP_PAGE + i);
      copied.(pages := copied.pages[TEMP_PAGE + i := Absent])
      == Mem(m.phys[f := true], m.pages, m.ram[f := m.ram[Source(m, i)]])
  {
    hide FrameAt, TempAbsent, Source;
    TempFree(m, i, f);
  }

  lemma CopyShaped(m: Mem, frames: seq<int>, n: nat)
    requires MemShaped(m) && |frames| == NUM_PAG_DATA && n <= NUM_PAG_DATA
    ensures var r := CopyPages(m, frames, n);
      |r.mem.phys| == |r.mem.pages| == |r.mem.ram| == TOTAL_PAGES && |r.frames| == NUM_PAG_DATA
  {
    hide CopyPages;
  }

  lemma CopyStep(m: Mem, frames: seq<int>, n: nat)
    requires MemShaped(m) && |frames| == NUM_PAG_DATA && 0 < n <= NUM_PAG_DATA && TempAbsent(m.pages)
    requires CopyPages(m, frames, n - 1).ok
    requires CopyPages(m, frames, n - 1).mem.pages == m.pages
    ensures var p, r := CopyPages(m, frames, n - 1), CopyPages(m, frames, n);
      var f := FirstFree(p.mem.phys, NUM_PAG_KERNEL);
      f != -1 ==>
        && r.ok && r.frames == p.frames[n - 1 := f] && r.mem.pages == m.pages
        && r.mem.phys == p.mem.phys[f := true] && r.mem.ram == p.mem.ram[f := p.mem.ram[Source(m, n - 1)]]
  {
    hide CopyPages, FirstFree, CleanedUp, MemShaped, FrameAt, TempAbsent, PageCopied;
    CopyShaped(m, frames, n - 1);
    CopyRounds(m, frames, n - 1);
    var p, i := CopyPages(m, frames, n - 1), n - 1;
    var f := FirstFree(p.mem.phys, NUM_PAG_KERNEL);
    if f != -1 {
      RoundResult(p.mem, i, f);
    }
  }

  /** With fewer candidates, k, the loop fails in round k.  Its clean-up frees the frames it took, and what the
      list held for the page it could not copy as well: a frame of the parent's, in fork. */
  lemma {:induction false} CopyPagesFails(m: Mem, frames: seq<int>, n: nat)
    requires MemShaped(m) && |frames| == NUM_PAG_DATA && CountFree(m.phys, NUM_PAG_KERNEL) < n <= NUM_PAG_DATA
    requires TempAbsent(m.pages) && forall i :: 0 <= i < NUM_PAG_DATA ==> m.phys[Source(m, i)]
    ensures var r, k := CopyPages(m, frames, n), CountFree(m.phys, NUM_PAG_KERNEL);
      && !r.ok && r.mem.pages == m.pages
      && forall f :: 0 <= f < TOTAL_PAGES ==> (r.mem.phys[f] <==> m.phys[f] && f != frames[k])
    decreases n
  {
    hide CopyPages, CountFree, TempAbsent, Source, FirstFree, CopiedInto;
    CopyShaped(m, frames, n);
    var k := CountFree(m.phys, NUM_PAG_KERNEL);
    if k < n - 1 {
      CopyPagesFails(m, frames, n - 1);
      CopyStays(m, frames, n);
    } else {
      var p := CopyPages(m, frames, k);
      CopyPagesEffect(m, frames, k);
      CopyRounds(m, frames, k);
      FirstFreeCount(p.mem.phys, NUM_PAG_KERNEL);
      CleanUpAfter(m, p, frames, k);
    }
  }

  lemma CopyStays(m: Mem, frames: seq<int>, n: nat)
    requires MemShaped(m) && |frames| == NUM_PAG_DATA && 0 < n <= NUM_PAG_DATA && !CopyPages(m, frames, n - 1).ok
    ensures CopyPages(m, frames, n) == CopyPages(m, frames, n - 1)
  {
  }

  lemma CleanUpAfter(m: Mem, p: Copy, frames: seq<int>, k: nat)
    requires MemShaped(m) && MemShaped(p.mem) && k < |frames| == |p.frames| == NUM_PAG_DATA
    requires p.frames == p.frames[..k] + frames[k..] && CopiedInto(m, p.mem, p.frames[..k])
    ensures p.mem.pages == m.pages
    ensures forall f :: 0 <= f < TOTAL_PAGES ==>
      (CleanedUp(p.mem.phys, p.frames, k)[f] <==> m.phys[f] && f != frames[k])
  {
    hide CleanedUp, Source;
    CleanedUpFrees(p.mem.phys, p.frames, k);
    var fs := p.frames[..k];
    assert p.frames[k] == frames[k] && p.frames[..k + 1] == fs + [frames[k]];
    assert forall f :: 0 <= f < TOTAL_PAGES && f in fs ==> !m.phys[f];
  }
}
