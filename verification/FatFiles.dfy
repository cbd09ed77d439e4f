/** fat.c: the in-memory FAT file system, its fields updated in place. */
module FatFiles {
  import opened Sequences
  import opened FatLayout
  import opened FatSpec
  import opened FatWriting
  import opened FatVolume
  import opened FatRefinement
  import opened FatUnlinking
  import opened FatLinkage

  /** 0, 1, ..., n-1 */
  function Iota(n: nat): (r: seq<int>)
    ensures |r| == n && forall i :: 0 <= i < n ==> r[i] == i
  {
    seq(n, i => i)
  }

  function FormattedLayout(): (l: seq<seq<int>>)
    ensures |l| == MAX_FILES + 1
  {
    seq(MAX_FILES, _ => []) + [Iota(MAX_BLOCKS)]
  }

  /** The freshly formatted volume is well-formed. */
  lemma FormattedDescribes(fs: Fat)
    requires Shaped(fs)
    requires forall f :: 0 <= f < MAX_FILES ==> fs.root[f] == Entry(FREE_TYPE, 0)
    requires forall b :: 0 <= b < MAX_BLOCKS ==> fs.links[b] == if b == MAX_BLOCKS - 1 then EOC else b + 1
    requires fs.firstFree == 0 && fs.lastFree == MAX_BLOCKS - 1
    requires fs.freeCount == MAX_BLOCKS && fs.used == 0
    ensures Describes(fs, FormattedLayout()) && TailTrue(fs, FormattedLayout())
    ensures SizesMatch(fs, FormattedLayout()) && UnusedEmpty(fs)
  {
    var l := FormattedLayout();
    assert l[FREE] == Iota(MAX_BLOCKS);
    forall x | 0 <= x < MAX_BLOCKS ensures Placed(l, x) {
      assert l[FREE][x] == x && x in l[FREE];
    }
    assert Partition(l, MAX_BLOCKS);
    forall f | 0 <= f < MAX_FILES ensures FileChain(fs, f, l[f]) && SizeMatches(fs, l, f) {
      BlocksOfSize(0);
      DivIs(0, 0);
    }
  }

  function Opens(root: seq<DirEntry>): (r: seq<int>) {
    seq(|root|, f requires 0 <= f < |root| => root[f].opens)
  }

  class FatFs {
    const root: array<DirEntry>
    const links: array<int>
    const data: array<seq<Byte>>
    var used: int
    var firstFree: int
    var lastFree: int
    var freeCount: int
    var blockBuffer: seq<Byte>
    ghost var layout: seq<seq<int>>

    ghost function Value(): (fs': Fat)
      reads this, root, links, data
    {
      Fat(root[..], used, freeCount, firstFree, lastFree, links[..], data[..])
    }

    /** What every call keeps, whatever happened before: no block is pointed at twice, and the layout
        names the chains. */
    ghost predicate Valid()
      reads this, root, links, data
    {
      Linked(Value()) && Threaded(Value(), layout)
    }

    constructor Init()
      ensures Valid() && fresh(root) && fresh(links) && fresh(data)
      ensures Describes(Value(), layout) && layout == FormattedLayout() && TailTrue(Value(), layout)
      ensures SizesMatch(Value(), layout) && UnusedEmpty(Value())
      ensures forall f :: 0 <= f < root.Length ==> root[f] == Entry(FREE_TYPE, 0)
    {
      root := new DirEntry[MAX_FILES];
      links := new int[MAX_BLOCKS];
      data := new seq<Byte>[MAX_BLOCKS](_ => seq(BLOCK_SIZE, _ => 0));
      blockBuffer := [];
      used, firstFree, lastFree, freeCount := 0, 0, MAX_BLOCKS - 1, MAX_BLOCKS;
      layout := FormattedLayout();
      new;
      for f := 0 to MAX_FILES
        modifies root
        invariant forall g :: 0 <= g < f ==> root[g] == Entry(FREE_TYPE, 0)
      {
        root[f] := Entry(FREE_TYPE, 0);
      }
      var i := 0;
      while i < MAX_BLOCKS - 1
        modifies links
        invariant 0 <= i <= MAX_BLOCKS - 1
        invariant forall b :: 0 <= b < i ==> links[b] == b + 1
      {
        links[i] := i + 1;
        i := i + 1;
      }
      links[i] := EOC;
      FormattedDescribes(Value());
      DescribedLinked(Value(), layout);
    }

    /** The physical block behind a logical one; the end mark one past the last block and beyond. */
    method TranslateBlock(file: int, logicBlock: int) returns (block: int)
      requires Valid() && 0 <= file < MAX_FILES && logicBlock >= 0
      ensures block == At(layout[file], logicBlock)
    {
      ghost var c := layout[file];
      assert IsChain(links[..], root[file].first, c);
      block := root[file].first;
      var lb := 0;
      while lb < logicBlock
        invariant 0 <= lb <= logicBlock
        invariant block == At(c, lb)
      {
        if block == EOC { return -1; }
        block := links[block];
        lb := lb + 1;
      }
    }

    /** Takes the head of the free chain for the file, or reports that there is none. */
    method AddBlock(file: int) returns (block: int)
      requires Shaped(Value()) && 0 <= file < MAX_FILES
      requires firstFree == EOC || 0 <= firstFree < MAX_BLOCKS
      requires root[file].first == EOC || 0 <= root[file].last < MAX_BLOCKS
      modifies this`used, this`firstFree, this`lastFree, this`freeCount, root, links
      ensures old(firstFree) == EOC ==> block == -ENOSPC && Value() == old(Value())
      ensures old(firstFree) != EOC ==>
        block == old(firstFree) && Value() == BlockAdded(old(Value()), file)
    {
      if firstFree == EOC { return -ENOSPC; }

      if root[file].first == EOC {
        root[file] := root[file].(first := firstFree);
      } else {
        links[root[file].last] := firstFree;
      }
      root[file] := root[file].(last := firstFree);

      firstFree := links[firstFree];
      if firstFree == EOC {
        lastFree := EOC;
      }

      links[root[file].last] := EOC;
      used := used + 1;
      freeCount := freeCount - 1;
      return root[file].last;
    }

    method ReadBlock(block: int)
      requires 0 <= block < data.Length
      modifies this`blockBuffer
      ensures blockBuffer == data[block]
    {
      blockBuffer := data[block];
    }

    method WriteBlock(block: int)
      requires 0 <= block < data.Length
      modifies data
      ensures data[..] == old(data[..])[block := blockBuffer]
    {
      data[block] := blockBuffer;
    }

    /** From a described state the whole effect; from any other the links stay sound. */
    method Write(file: int, buffer: seq<Byte>, offset: int) returns (r: int)
      requires Valid() && 0 <= file < MAX_FILES && offset >= 0
      modifies this, root, links, data
      ensures Valid() && (r == |buffer| || r == -ENOSPC)
      ensures forall f :: 0 <= f < MAX_FILES ==> root[f].opens == old(root[f].opens)
      ensures old(Describes(Value(), layout)) ==>
                WriteEffect(old(Value()), old(layout), file, buffer, offset, r, Value(), layout)
    {
      hide Describes, Progress, WriteEffect, AfterRound, BlockObtained, Linked, Threaded, IsChain;
      ghost var was, l, k := Value(), layout, 0;
      ghost var whole := Describes(was, l);
      LinkedShape(was, l);
      if whole {
        ProgressStart(was, l, file, buffer, offset);
      }
      var written, remain := 0, |buffer|;
      var logicBlock := offset / BLOCK_SIZE;
      var blockOffset := offset % BLOCK_SIZE;
      while remain != 0
        invariant Valid() && written >= 0 && remain >= 0 && written + remain == |buffer|
        invariant logicBlock == BlockOf(offset) + k
        invariant blockOffset == if k == 0 then Within(offset) else 0
        invariant forall f :: 0 <= f < root.Length ==> root[f].opens == was.root[f].opens
        invariant whole ==> Progress(was, l, file, buffer, offset, k, written, Value(), layout)
        decreases remain
      {
        ghost var v1, m1 := Value(), layout;
        LinkedShape(v1, m1);
        if whole {
          ProgressParts(was, l, file, buffer, offset, k, written, v1, m1);
        }
        var block := BlockFor(file, logicBlock);
        if block < 0 {
          if whole {
            NoRound(was, l, file, buffer, offset, k, written, v1, m1);
            ProgressEnd(was, l, file, buffer, offset, k, written, v1, m1);
          }
          return -ENOSPC;
        }

        var blockRemain;
        if blockOffset + remain > BLOCK_SIZE {
          blockRemain := BLOCK_SIZE - blockOffset;
        } else {
          blockRemain := remain;
        }

        if whole {
          Round(was, l, file, buffer, offset, k, written, v1, m1, block, Value(), layout, blockOffset, blockRemain);
        }
        StoreChunk(file, block, blockOffset, buffer[written..written + blockRemain], offset + written + blockRemain);
        if blockOffset != 0 { blockOffset := 0; }

        written := written + blockRemain;
        remain := remain - blockRemain;
        logicBlock := logicBlock + 1;
        k := k + 1;
      }
      if whole {
        ProgressParts(was, l, file, buffer, offset, k, written, Value(), layout);
        ProgressEnd(was, l, file, buffer, offset, k, written, Value(), layout);
      }
      return written;
    }

    /** The physical block to write next: the one found, or else a free one taken for the file. */
    method BlockFor(file: int, logicBlock: int) returns (block: int)
      requires Valid() && 0 <= file < MAX_FILES && logicBlock >= 0
      requires |layout| == MAX_FILES + 1 && root.Length == MAX_FILES
      modifies this`layout, this`used, this`firstFree, this`lastFree, this`freeCount, root, links
      ensures Valid() && block < MAX_BLOCKS
      ensures forall f :: 0 <= f < root.Length ==> root[f].opens == old(root[f].opens)
      ensures block < 0 ==>
        && block == -ENOSPC && Value() == old(Value()) && layout == old(layout)
        && At(layout[file], logicBlock) == EOC && layout[FREE] == []
      ensures block >= 0 && old(Describes(Value(), layout)) ==>
                BlockObtained(old(Value()), old(layout), file, logicBlock, block, Value(), layout)
    {
      hide Describes, Linked, Threaded, IsChain;
      ghost var was, l := Value(), layout;
      LinkedShape(was, l);
      block := TranslateBlock(file, logicBlock);
      ChainBlock(was, l, file, logicBlock);
      if block == EOC {
        if firstFree != EOC {
          BlockAddedLinked(was, file);
        }
        block := AddBlock(file);
        if block >= 0 {
          layout := Threading(Value());
          if Describes(was, l) {
            TakenBlock(was, l, file, layout);
          }
        }
      } else if Describes(was, l) {
        assert Value() == was;
      }
    }

    /** Read-modify-write of one block through the block buffer, then the size. */
    method StoreChunk(file: int, block: int, blockOffset: int, chunk: seq<Byte>, end: int)
      requires 0 <= file < root.Length && 0 <= block < data.Length
      requires 0 <= blockOffset && blockOffset + |chunk| <= |data[block]|
      modifies this`blockBuffer, root, data
      ensures Value() == AfterRound(old(Value()), file, block, blockOffset, chunk, end)
      ensures old(Valid()) ==> Valid()
      ensures forall f :: 0 <= f < root.Length ==> root[f].opens == old(root[f].opens)
    {
      hide Linked, Threaded;
      ghost var was := Value();
      ReadBlock(block);
      blockBuffer := Splice(blockBuffer, blockOffset, chunk);
      WriteBlock(block);
      if end > root[file].size {
        root[file] := root[file].(size := end);
      }
      assert root[..] == old(root[..])[file := old(root[file]).(size := Max(old(root[file]).size, end))];
      if old(Valid()) {
        RoundLinked(was, layout, file, block, blockOffset, chunk, end);
      }
    }

    /** Takes the first unused directory entry for a new, empty file. */
    method Create(flags: int) returns (r: int)
      requires Valid() && flags >= 0
      modifies root, this`layout
      ensures Valid() && (r == -ENOSPC || 0 <= r < MAX_FILES)
      ensures r < 0 ==> Value() == old(Value()) && forall g :: 0 <= g < MAX_FILES ==> root[g].mode != FREE_TYPE
      ensures r >= 0 ==>
        && old(root[r].mode) == FREE_TYPE && (forall g :: 0 <= g < r ==> old(root[g].mode) != FREE_TYPE)
        && Value() == old(Value()).(root := old(root[..])[r := Entry(flags % 4, old(root[r].opens))])
      ensures old(Sound(Value(), layout)) ==>
        && Sound(Value(), layout) && layout == old(layout)
        && (old(TailTrue(Value(), layout)) ==> TailTrue(Value(), layout))
        && (View(Value(), layout), r) == FatVolume.Create(old(View(Value(), layout)))
    {
      hide Sound, View, FatVolume.Create, Describes, Linked, Threaded, IsChain, TailTrue;
      ghost var was, l := Value(), layout;
      LinkedShape(was, l);
      var i := 0;
      while i < MAX_FILES
        invariant 0 <= i <= MAX_FILES && Value() == was
        invariant forall g :: 0 <= g < i ==> was.root[g].mode != FREE_TYPE
      {
        if root[i].mode == FREE_TYPE {
          EntryLinked(was, i, Entry(flags % 4, was.root[i].opens));
          root[i] := Entry(flags % 4, root[i].opens);
          assert Value() == was.(root := was.root[i := Entry(flags % 4, was.root[i].opens)]);
          layout := Threading(Value());
          if Sound(was, l) {
            CreateRefines(was, l, flags % 4, i);
            CreateTail(was, l, flags % 4, i);
            SoundThreads(Value(), l, layout);
          }
          return i;
        }
        i := i + 1;
      }
      if Sound(was, l) {
        CreateRefines(was, l, flags % 4, i);
      }
      return -ENOSPC;
    }

    method Read(file: int, offset: int, count: int) returns (r: int, out: seq<Byte>)
      requires Valid() && 0 <= file < MAX_FILES && offset >= 0 && count >= 0
      modifies this`blockBuffer
      ensures Value() == old(Value())
      ensures BlocksIn(data[..], layout[file]) && r == |out|
      ensures out == BytesRead(Value(), layout, file, offset, count)
    {
      hide Linked, Threaded, Image, BlocksIn, NoDup;
      ReadSetup(Value(), layout, file);
      ghost var c := layout[file];
      out := [];
      if offset >= root[file].size { return 0, out; }
      var remain;
      if offset + count > root[file].size {
        remain := root[file].size - offset;
      } else {
        remain := count;
      }
      ghost var was, total := Value(), remain;
      ReadStart(offset);
      var read := 0;
      var logicBlock := offset / BLOCK_SIZE;
      var blockOffset := offset % BLOCK_SIZE;
      while remain != 0
        invariant read >= 0 && remain >= 0 && read + remain == total && logicBlock >= 0 && 0 <= blockOffset < BLOCK_SIZE
        invariant Value() == was && |out| == read
        invariant read > 0 ==> offset + read <= |Image(was.data, c)| && out == Image(was.data, c)[offset..offset + read]
        invariant remain > 0 ==> offset + read == logicBlock * BLOCK_SIZE + blockOffset
        decreases remain
      {
        var block := TranslateBlock(file, logicBlock);
        ReadBound(logicBlock, |c|);
        ChainElement(Value(), layout, file, logicBlock);
        if block == EOC { return read, out; }
        var blockRemain;
        if blockOffset + remain > BLOCK_SIZE {
          blockRemain := BLOCK_SIZE - blockOffset;
        } else {
          blockRemain := remain;
        }
        ReadBlock(block);
        ImageRange(was.data, c, logicBlock, blockOffset, blockRemain);
        out := out + blockBuffer[blockOffset..blockOffset + blockRemain];
        if blockOffset != 0 { blockOffset := 0; }
        read := read + blockRemain;
        remain := remain - blockRemain;
        logicBlock := logicBlock + 1;
      }
      return read, out;
    }

    /** As written: the chain is hung behind last_free_block, which itself is moved only when the free
        list was empty. */
    method Unlink(file: int) returns (r: int)
      requires Valid() && 0 <= file && file != MAX_FILES
      modifies this, root, links
      ensures Valid()
      ensures file > MAX_FILES || old(root[file].opens) != 0 ==>
                r == -1 && Value() == old(Value()) && layout == old(layout)
      ensures file < MAX_FILES && old(root[file].opens) == 0 ==> r == 0 && Value() == Unlinked(old(Value()), file)
      ensures file < MAX_FILES && old(root[file].opens) == 0 &&
              old(Describes(Value(), layout) && SizeMatches(Value(), layout, file) &&
                UnlinkSafe(Value(), layout, file)) ==>
                Describes(Value(), layout) && layout == Released(old(layout), file)
    {
      hide Describes, IsChain, Linked, Threaded, SizeMatches, UnlinkSafe;
      if file > MAX_FILES { return -1; }
      ghost var was, l := Value(), layout;
      LinkedShape(was, l);
      if root[file].opens != 0 { return -1; }

      if lastFree != EOC {
        links[lastFree] := root[file].first;
      } else {
        firstFree := root[file].first;
        lastFree := root[file].last;
      }
      freeCount := freeCount + root[file].size / BLOCK_SIZE;
      used := used - root[file].size / BLOCK_SIZE;
      if root[file].size % BLOCK_SIZE != 0 {
        freeCount := freeCount + 1;
        used := used - 1;
      }
      root[file] := root[file].(mode := FREE_TYPE, size := 0, first := EOC, last := EOC);
      assert root[..] == was.root[file := was.root[file].(mode := FREE_TYPE, size := 0, first := EOC, last := EOC)];
      assert Value() == Unlinked(was, file);

      UnlinkedLinked(was, file);
      layout := Threading(Value());
      if Describes(was, l) && SizeMatches(was, l, file) && UnlinkSafe(was, l, file) {
        SafeDescribes(was, l, file);
        DescribedUnique(Value(), Released(l, file), layout);
      }
      FreeChain(Value(), layout);
      WalkFree(layout[FREE]);
      return 0;
    }

    /** The walk over the free list at the end of fat_unlink. */
    method WalkFree(ghost w: seq<int>)
      requires IsChain(links[..], firstFree, w)
    {
      var b := firstFree;
      ghost var j := 0;
      while b != EOC
        invariant 0 <= j <= |w| && b == At(w, j)
        decreases |w| - j
      {
        b := links[b];
        j := j + 1;
      }
    }

    /** fat_unlink with the tail record brought up to date: a declared deviation from the source. */
    method UnlinkWithTail(file: int) returns (r: int)
      requires Sound(Value(), layout) && TailTrue(Value(), layout) && 0 <= file < MAX_FILES
      requires root[file].mode != FREE_TYPE && root[file].opens == 0
      modifies this, root, links
      ensures Sound(Value(), layout) && TailTrue(Value(), layout) && r == 0
      ensures View(Value(), layout) == FatVolume.Unlink(old(View(Value(), layout)), file)
      ensures Opens(root[..]) == old(Opens(root[..]))
    {
      hide Describes, View, FatVolume.Unlink, UnusedEmpty, Linked, Threaded;
      ghost var was, l := Value(), layout;
      Lengths(was, l);
      DescribedLinked(was, l);
      TailIsSafe(was, l, file);
      assert SizeMatches(was, l, file);
      var last, hadFree := root[file].last, lastFree != EOC;
      r := Unlink(file);
      if hadFree && last != EOC {
        lastFree := last;
      }
      assert Value() == UnlinkedWithTail(was, file);
      assert Opens(root[..]) == Opens(was.root);
      UnlinkWithTailRefines(was, l, file);
    }
  }

  // ---------- what the methods use ----------

  lemma LinkedShape(fs: Fat, m: seq<seq<int>>)
    requires Linked(fs) && Threaded(fs, m)
    ensures Shaped(fs) && |m| == MAX_FILES + 1 && EOC <= fs.lastFree < MAX_BLOCKS && EOC <= fs.firstFree < MAX_BLOCKS
    ensures forall f :: 0 <= f < MAX_FILES ==> IsChain(fs.links, fs.root[f].first, m[f])
    ensures forall f :: 0 <= f < MAX_FILES ==> fs.root[f].first == EOC || 0 <= fs.root[f].last < MAX_BLOCKS
    ensures fs.firstFree == EOC <==> m[FREE] == []
  {
    assert fs.firstFree == Pointer(fs, FREE);
  }

  lemma FreeChain(fs: Fat, m: seq<seq<int>>)
    requires Threaded(fs, m)
    ensures |m| == MAX_FILES + 1 && IsChain(fs.links, fs.firstFree, m[FREE])
  {
  }

  lemma ChainBlock(fs: Fat, m: seq<seq<int>>, f: nat, i: nat)
    requires Linked(fs) && Threaded(fs, m) && f < MAX_FILES && |m| == MAX_FILES + 1
    ensures EOC <= At(m[f], i) < MAX_BLOCKS
  {
    if i < |m[f]| {
      BlockAt(fs, m, f, i);
    }
  }

  lemma DescribedUnique(fs: Fat, l: seq<seq<int>>, m: seq<seq<int>>)
    requires Describes(fs, l) && Threaded(fs, m)
    ensures m == l
  {
    DescribedThreads(fs, l);
    ThreadsUnique(fs, l, m);
  }

  lemma SoundThreads(fs: Fat, l: seq<seq<int>>, m: seq<seq<int>>)
    requires Sound(fs, l) && Threaded(fs, m)
    ensures m == l
  {
    DescribedUnique(fs, l, m);
  }

  /** Taking a block from a described state moves the head of the free chain. */
  lemma TakenBlock(fs: Fat, l: seq<seq<int>>, f: nat, m: seq<seq<int>>)
    requires Describes(fs, l) && f < MAX_FILES && 0 <= fs.firstFree < MAX_BLOCKS && |l| == MAX_FILES + 1
    requires l[FREE] != []
    requires fs.root[f].first == EOC || 0 <= fs.root[f].last < MAX_BLOCKS
    requires Threaded(BlockAdded(fs, f), m)
    ensures fs.firstFree == l[FREE][0] && m == Grown(l, f, 1) && Describes(BlockAdded(fs, f), m)
  {
    AddBlockDescribes(fs, l, f);
    DescribedUnique(BlockAdded(fs, f), Grown(l, f, 1), m);
  }

  lemma RoundLinked(fs: Fat, m: seq<seq<int>>, f: nat, block: nat, here: nat, chunk: seq<Byte>, end: int)
    requires Linked(fs) && Threaded(fs, m) && f < |fs.root| && block < |fs.data| && here + |chunk| <= |fs.data[block]|
    ensures var fs' := AfterRound(fs, f, block, here, chunk, end); Linked(fs') && Threaded(fs', m)
  {
    SameLinks(fs, AfterRound(fs, f, block, here, chunk, end));
  }

  lemma SoundParts(fs: Fat, l: seq<seq<int>>)
    requires Sound(fs, l)
    ensures Describes(fs, l) && Shaped(fs) && |l| == MAX_FILES + 1
  {
  }

  lemma CreateTail(fs: Fat, l: seq<seq<int>>, mode: int, f: nat)
    requires Sound(fs, l) && f < MAX_FILES && fs.root[f].mode == FREE_TYPE && |l| == MAX_FILES + 1
    ensures TailTrue(fs, l) ==> TailTrue(fs.(root := fs.root[f := Entry(mode, fs.root[f].opens)]), l)
  {
  }

  lemma ReadSetup(fs: Fat, l: seq<seq<int>>, f: nat)
    requires Linked(fs) && Threaded(fs, l) && f < MAX_FILES
    ensures |l| == MAX_FILES + 1 && Shaped(fs) && BlocksIn(fs.data, l[f])
  {
    forall i | 0 <= i < |l[f]| ensures 0 <= l[f][i] < MAX_BLOCKS {
      BlockAt(fs, l, f, i);
    }
  }

  lemma ReadStart(offset: nat)
    ensures offset == (offset / BLOCK_SIZE) * BLOCK_SIZE + offset % BLOCK_SIZE
    ensures offset / BLOCK_SIZE >= 0
  {
  }

  lemma ReadBound(k: nat, n: nat)
    ensures k >= n ==> k * BLOCK_SIZE >= n * BLOCK_SIZE
    ensures (k + 1) * BLOCK_SIZE == k * BLOCK_SIZE + BLOCK_SIZE
  {
  }

  lemma ChainElement(fs: Fat, l: seq<seq<int>>, f: nat, k: nat)
    requires Linked(fs) && Threaded(fs, l) && f < MAX_FILES && |l| == MAX_FILES + 1
    ensures At(l[f], k) != EOC <==> k < |l[f]|
    ensures k < |l[f]| ==> 0 <= l[f][k] < MAX_BLOCKS && |fs.data[l[f][k]]| == BLOCK_SIZE
  {
    if k < |l[f]| {
      BlockAt(fs, l, f, k);
    }
  }
}
