/** Chains and blocks refine the plain volume: each operation of the FAT, seen through its view, is
    the plain operation. */
module FatRefinement {
  import opened Sequences
  import opened FatLayout
  import opened FatSpec
  import opened FatVolume

  // ---------- writing ----------

  lemma WrittenImage(data: seq<seq<Byte>>, data': seq<seq<Byte>>, pre: seq<int>, target: seq<int>, at: nat,
                     bytes: seq<Byte>)
    requires BlocksIn(data, pre) && BlocksIn(data, target)
    requires forall x :: x in pre ==> x !in target
    requires BytesAfter(data, data', target, at, bytes)
    ensures BlocksIn(data, pre + target) && BlocksIn(data', pre + target) && BlocksIn(data', target)
    ensures Image(data, pre + target) == Image(data, pre) + Image(data, target)
    ensures Image(data', pre + target) == Image(data, pre) + Image(data', target)
    ensures at + |bytes| <= Max(at, |Image(data, target)|)
    ensures Image(data', target) == if bytes == [] then Image(data, target) else Splice(Image(data, target), at, bytes)
  {
    assert forall i :: 0 <= i < |pre| ==> pre[i] in pre;
    ImageFrame(data, data', pre);
    ImageConcat(data, pre, target);
    ImageConcat(data', pre, target);
  }

  /** A file's chain is pre + mid, the write went through mid and on into free, of which the file
      took the first blocks: the file's bytes are the old ones with the new laid over. */
  lemma WrittenBytes(data: seq<seq<Byte>>, data': seq<seq<Byte>>, pre: seq<int>, mid: seq<int>, free: seq<int>,
                     taken: nat, size: nat, at: nat, bytes: seq<Byte>, offset: nat)
    requires taken <= |free| && BlocksIn(data, pre) && BlocksIn(data, mid + free) && BlocksIn(data, pre + mid)
    requires forall x :: x in pre ==> x !in mid + free
    requires BytesAfter(data, data', mid + free, at, bytes)
    requires BlocksIn(data', pre + mid + free[..taken])
    requires offset == |Image(data, pre)| + at && offset <= size <= |Image(data, pre + mid)|
    requires bytes != [] ==> offset + |bytes| <= |Image(data', pre + mid + free[..taken])|
    requires size <= |Image(data', pre + mid + free[..taken])|
    ensures Image(data', pre + mid + free[..taken])[..if bytes == [] then size else Max(size, offset + |bytes|)]
         == Overwrite(Image(data, pre + mid)[..size], offset, bytes)
  {
    hide BytesAfter, BlocksIn, Image, Overwrite;
    WrittenImage(data, data', pre, mid + free, at, bytes);
    assert pre + (mid + free) == pre + mid + free && pre + (mid + free) == pre + mid + free[..taken] + free[taken..];
    PrefixImage(data, pre + mid, free, size);
    PrefixImage(data', pre + mid + free[..taken], free[taken..],
      if bytes == [] then size else Max(size, offset + |bytes|));
    LaidOver(Image(data, pre), Image(data, mid + free), Image(data', mid + free), size, at, bytes);
  }

  lemma LaidOver(a: seq<Byte>, b: seq<Byte>, b': seq<Byte>, size: nat, at: nat, bytes: seq<Byte>)
    requires |a| + at <= size <= |a + b| && (bytes != [] ==> at + |bytes| <= |b|)
    requires b' == if bytes == [] then b else Splice(b, at, bytes)
    ensures (a + b')[..if bytes == [] then size else Max(size, |a| + at + |bytes|)]
            == Overwrite((a + b)[..size], |a| + at, bytes)
  {
  }

  lemma PrefixImage(data: seq<seq<Byte>>, c: seq<int>, d: seq<int>, n: nat)
    requires BlocksIn(data, c + d) && BlocksIn(data, c) && n <= |Image(data, c)|
    ensures n <= |Image(data, c + d)| && Image(data, c)[..n] == Image(data, c + d)[..n]
  {
    assert forall i :: 0 <= i < |d| ==> (c + d)[|c| + i] == d[i];
    ImageConcat(data, c, d);
  }

  predicate WriteReady(fs: Fat, l: seq<seq<int>>, f: nat, offset: nat) {
    Describes(fs, l) && SizesMatch(fs, l) && f < MAX_FILES && offset <= fs.root[f].size
  }

  lemma Lengths(fs: Fat, l: seq<seq<int>>)
    requires Describes(fs, l)
    ensures |l| == MAX_FILES + 1 && Shaped(fs)
    ensures fs.lastFree == EOC || 0 <= fs.lastFree < MAX_BLOCKS
  {
  }

  lemma ChainFacts(fs: Fat, l: seq<seq<int>>, f: nat)
    requires Describes(fs, l) && f < MAX_FILES
    ensures |l| == MAX_FILES + 1 && NoDup(l[f]) && forall x :: x in l[f] ==> x !in l[FREE]
  {
  }

  lemma WriteSizes(fs: Fat, l: seq<seq<int>>, f: nat, buffer: seq<Byte>, offset: nat, r: int, fs': Fat,
                   l': seq<seq<int>>)
    requires WriteReady(fs, l, f, offset) && |l| == MAX_FILES + 1 && |fs.root| == MAX_FILES
    requires WriteEffect(fs, l, f, buffer, offset, r, fs', l')
    ensures Describes(fs', l') && |l'| == MAX_FILES + 1 && |fs'.root| == MAX_FILES
    ensures SizesMatch(fs', l')
  {
    hide Describes, WriteEffect, BytesAfter, Fitting, Taken, CeilDiv, BlockOf;
    WriteParts(fs, l, f, buffer, offset, r, fs', l');
    SizeInChain(fs, l, f);
    OffsetInChain(offset, fs.root[f].size);
    SizeKeptIff(|l[f]|, |l[FREE]|, offset, |buffer|, fs.root[f].size);
    forall g | 0 <= g < MAX_FILES ensures SizeMatches(fs', l', g) {
      assert SizeMatches(fs, l, g);
    }
  }

  /** For any offset: the file's size goes on needing exactly its chain's blocks if and only if nothing
      was stored or the write began at most one block past the chain. */
  lemma WriteSizeIff(fs: Fat, l: seq<seq<int>>, f: nat, buffer: seq<Byte>, offset: nat, r: int, fs': Fat,
                     l': seq<seq<int>>)
    requires Describes(fs, l) && SizesMatch(fs, l) && f < MAX_FILES && |l| == MAX_FILES + 1 && |fs.root| == MAX_FILES
    requires WriteEffect(fs, l, f, buffer, offset, r, fs', l') && |l'| == MAX_FILES + 1 && |fs'.root| == MAX_FILES
    ensures SizeMatches(fs', l', f) <==>
      Fitting(|l[f]|, |l[FREE]|, offset, |buffer|) == 0 || BlockOf(offset) <= |l[f]|
  {
    hide Describes, WriteEffect, BytesAfter, Fitting, Taken, CeilDiv, BlockOf;
    WriteParts(fs, l, f, buffer, offset, r, fs', l');
    SizeInChain(fs, l, f);
    SizeKeptIff(|l[f]|, |l[FREE]|, offset, |buffer|, fs.root[f].size);
  }

  /** The write moved through the tail of the file's chain and the free chain. */
  lemma TargetSplit(fs: Fat, l: seq<seq<int>>, f: nat, offset: nat)
    requires Describes(fs, l) && f < MAX_FILES
    ensures |l| == MAX_FILES + 1
    ensures BlockOf(offset) <= |l[f]| ==>
      var q := BlockOf(offset);
      && l[f] == l[f][..q] + l[f][q..] && Target(l, f, offset) == l[f][q..] + l[FREE]
      && forall x :: x in l[f][..q] ==> x !in Target(l, f, offset)
  {
    hide Describes, BlockOf;
    ChainFacts(fs, l, f);
    var q := BlockOf(offset);
    if q <= |l[f]| {
      forall x | x in l[f][..q] ensures x !in l[f][q..] + l[FREE] {
        assert x in l[f];
        assert forall j :: 0 <= j < |l[f][q..]| ==> l[f][q..][j] == l[f][q + j];
      }
    }
  }

  lemma WriteFileBytes(fs: Fat, l: seq<seq<int>>, f: nat, buffer: seq<Byte>, offset: nat, r: int, fs': Fat,
                       l': seq<seq<int>>)
    requires WriteReady(fs, l, f, offset) && |l| == MAX_FILES + 1 && |fs.root| == MAX_FILES
    requires WriteEffect(fs, l, f, buffer, offset, r, fs', l')
    requires Describes(fs', l') && |l'| == MAX_FILES + 1 && |fs'.root| == MAX_FILES && SizesMatch(fs', l')
    requires BlocksIn(fs.data, l[f]) && BlocksIn(fs'.data, l'[f])
    requires 0 <= fs.root[f].size <= |l[f]| * BLOCK_SIZE && 0 <= fs'.root[f].size <= |l'[f]| * BLOCK_SIZE
    requires BlockOf(offset) <= |l[f]|
    ensures FileBytes(fs', l', f)
         == Overwrite(FileBytes(fs, l, f), offset, buffer[..Fitting(|l[f]|, |l[FREE]|, offset, |buffer|)])
  {
    hide Describes, WriteEffect, Fitting, Taken, Overwrite, SizesMatch, Target, Image;
    WriteParts(fs, l, f, buffer, offset, r, fs', l');
    TargetSplit(fs, l, f, offset);
    var c, q, n := l[f], BlockOf(offset), Fitting(|l[f]|, |l[FREE]|, offset, |buffer|);
    var taken := Taken(|c|, |l[FREE]|, offset, |buffer|);
    assert offset == q * BLOCK_SIZE + Within(offset);
    assert c[..q] + c[q..] + l[FREE][..taken] == l'[f];
    WrittenBytes(fs.data, fs'.data, c[..q], c[q..], l[FREE], taken, fs.root[f].size, Within(offset), buffer[..n],
      offset);
  }

  lemma WriteParts(fs: Fat, l: seq<seq<int>>, f: nat, buffer: seq<Byte>, offset: nat, r: int, fs': Fat,
                   l': seq<seq<int>>)
    requires |l| == MAX_FILES + 1 && f < MAX_FILES && |fs.root| == MAX_FILES
    requires WriteEffect(fs, l, f, buffer, offset, r, fs', l')
    ensures var n, taken := Fitting(|l[f]|, |l[FREE]|, offset, |buffer|), Taken(|l[f]|, |l[FREE]|, offset, |buffer|);
      && Describes(fs', l') && |l'| == MAX_FILES + 1 && |fs'.root| == MAX_FILES
      && 0 <= taken <= |l[FREE]| && l'[f] == l[f] + l[FREE][..taken] && l'[FREE] == l[FREE][taken..]
      && (forall g :: 0 <= g < MAX_FILES && g != f ==> l'[g] == l[g] && fs'.root[g] == fs.root[g])
      && fs'.root[f].mode == fs.root[f].mode
      && fs'.root[f].size == (if n == 0 then fs.root[f].size else Max(fs.root[f].size, offset + n))
      && fs'.lastFree == (if l'[FREE] == [] then EOC else fs.lastFree)
      && r == (if n == |buffer| then n else -ENOSPC)
      && BytesAfter(fs.data, fs'.data, Target(l, f, offset), Within(offset), buffer[..n])
  {
    hide Describes, BytesAfter, Fitting, Taken, Target;
    WriteLengths(fs, l, f, buffer, offset, r, fs', l');
  }

  lemma WriteLengths(fs: Fat, l: seq<seq<int>>, f: nat, buffer: seq<Byte>, offset: nat, r: int, fs': Fat,
                     l': seq<seq<int>>)
    requires |l| == MAX_FILES + 1 && f < MAX_FILES && |fs.root| == MAX_FILES
    requires WriteEffect(fs, l, f, buffer, offset, r, fs', l')
    ensures |l'| == MAX_FILES + 1 && |fs'.root| == MAX_FILES
  {
  }

  lemma WriteOtherBytes(fs: Fat, l: seq<seq<int>>, f: nat, buffer: seq<Byte>, offset: nat, r: int, fs': Fat,
                        l': seq<seq<int>>, g: nat)
    requires WriteReady(fs, l, f, offset) && WriteEffect(fs, l, f, buffer, offset, r, fs', l')
    requires SizesMatch(fs', l') && g < MAX_FILES && g != f
    ensures FileView(fs', l', g) == FileView(fs, l, g)
  {
    SizeInChain(fs, l, g);
    SizeInChain(fs', l', g);
    forall i | 0 <= i < |l[g]| ensures fs.data[l[g][i]] == fs'.data[l[g][i]] {
      assert l[g][i] in l[g];
      assert l[g][i] !in Target(l, f, offset) by {
        assert forall x :: x in l[f][|l[f]| - Reusable(|l[f]|, offset)..] ==> x in l[f];
      }
    }
    ImageFrame(fs.data, fs'.data, l[g]);
  }

  /** Writing through the chains is writing to the plain volume, for every offset inside or at the end
      of the file, whether or not there is room. */
  lemma WriteRefines(fs: Fat, l: seq<seq<int>>, f: nat, buffer: seq<Byte>, offset: nat, r: int, fs': Fat,
                     l': seq<seq<int>>)
    requires Sound(fs, l) && f < MAX_FILES && fs.root[f].mode != FREE_TYPE && offset <= fs.root[f].size
    requires WriteEffect(fs, l, f, buffer, offset, r, fs', l')
    ensures Sound(fs', l') && (TailTrue(fs, l) ==> TailTrue(fs', l'))
    ensures (View(fs', l'), r) == Write(View(fs, l), f, offset, buffer)
  {
    hide Describes, WriteEffect, Fitting, CeilDiv, BlockOf, Image, BytesAfter, Taken, Target, Grown;
    Lengths(fs, l);
    WriteSizes(fs, l, f, buffer, offset, r, fs', l');
    WriteParts(fs, l, f, buffer, offset, r, fs', l');
    SizeInChain(fs, l, f);
    SizeInChain(fs', l', f);
    OffsetInChain(offset, fs.root[f].size);
    WriteFileBytes(fs, l, f, buffer, offset, r, fs', l');
    FittingIsRoom(|l[f]|, |l[FREE]|, offset, |buffer|);
    forall g | 0 <= g < MAX_FILES && g != f ensures FileView(fs', l', g) == FileView(fs, l, g) {
      WriteOtherBytes(fs, l, f, buffer, offset, r, fs', l', g);
    }
    assert View(fs', l') == Write(View(fs, l), f, offset, buffer).0;
  }

  // ---------- creating, reading ----------

  function Entry(mode: int, opens: int): (e: DirEntry) {
    DirEntry(0, mode, EOC, EOC, opens)
  }

  /** Taking an unused entry touches no chain. */
  lemma EntryDescribes(fs: Fat, l: seq<seq<int>>, f: nat, mode: int)
    requires Sound(fs, l) && f < MAX_FILES && fs.root[f].mode == FREE_TYPE
    ensures l[f] == []
    ensures var fs' := fs.(root := fs.root[f := Entry(mode, fs.root[f].opens)]);
      && Describes(fs', l) && SizesMatch(fs', l) && UnusedEmpty(fs') && (TailTrue(fs, l) ==> TailTrue(fs', l))
  {
    var fs' := fs.(root := fs.root[f := Entry(mode, fs.root[f].opens)]);
    assert FileChain(fs, f, l[f]) && SizeMatches(fs, l, f);
    forall g | 0 <= g < MAX_FILES ensures FileChain(fs', g, l[g]) && SizeMatches(fs', l, g) {
      assert FileChain(fs, g, l[g]) && SizeMatches(fs, l, g);
    }
  }

  lemma CreateRefines(fs: Fat, l: seq<seq<int>>, mode: int, f: nat)
    requires Sound(fs, l) && mode != FREE_TYPE && f <= MAX_FILES
    requires forall g :: 0 <= g < f ==> fs.root[g].mode != FREE_TYPE
    requires f < MAX_FILES ==> fs.root[f].mode == FREE_TYPE
    ensures f == MAX_FILES ==> Create(View(fs, l)) == (View(fs, l), -ENOSPC)
    ensures f < MAX_FILES ==>
      var fs' := fs.(root := fs.root[f := Entry(mode, fs.root[f].opens)]);
      && Sound(fs', l) && Create(View(fs, l)) == (View(fs', l), f)
  {
    var v := View(fs, l);
    assert forall g :: 0 <= g < MAX_FILES ==> (v.files[g] == Unused <==> fs.root[g].mode == FREE_TYPE);
    if f < MAX_FILES {
      EntryDescribes(fs, l, f, mode);
      var fs' := fs.(root := fs.root[f := Entry(mode, fs.root[f].opens)]);
      assert FileView(fs', l, f) == File([]);
      forall g | 0 <= g < MAX_FILES && g != f ensures FileView(fs', l, g) == FileView(fs, l, g) {
      }
      assert View(fs', l).files == v.files[f := File([])];
    }
  }

  /** What fat_read can return: up to the requested end, the file's size, or the end of its chain. */
  function ReadEnd(fs: Fat, l: seq<seq<int>>, f: nat, offset: nat, count: nat): (n: int)
    requires f < |fs.root| && f < |l|
  {
    Min(Min(offset + count, fs.root[f].size), |l[f]| * BLOCK_SIZE)
  }

  function BytesRead(fs: Fat, l: seq<seq<int>>, f: nat, offset: nat, count: nat): (r: seq<Byte>)
    requires f < |fs.root| && f < |l| && BlocksIn(fs.data, l[f])
  {
    var end := ReadEnd(fs, l, f, offset, count);
    if offset < end then Image(fs.data, l[f])[offset..end] else []
  }

  lemma PrefixSlice(a: seq<Byte>, n: nat, i: nat, j: int)
    requires n <= |a|
    ensures i <= j <= n ==> a[..n][i..j] == a[i..j]
  {
  }

  lemma ViewOfFile(fs: Fat, l: seq<seq<int>>, f: nat)
    requires Sound(fs, l) && f < MAX_FILES && fs.root[f].mode != FREE_TYPE
    ensures f < |l| && f < |fs.root| && BlocksIn(fs.data, l[f]) && 0 <= fs.root[f].size <= |l[f]| * BLOCK_SIZE
    ensures View(fs, l).files[f] == File(Image(fs.data, l[f])[..fs.root[f].size])
  {
    hide Describes, Image, SizesMatch, BlocksIn, UnusedEmpty;
    Lengths(fs, l);
    SizeInChain(fs, l, f);
  }

  lemma ReadRefines(fs: Fat, l: seq<seq<int>>, f: nat, offset: nat, count: nat)
    requires Sound(fs, l) && f < MAX_FILES && fs.root[f].mode != FREE_TYPE
    ensures BlocksIn(fs.data, l[f]) && BytesRead(fs, l, f, offset, count) == Read(View(fs, l), f, offset, count)
  {
    hide Describes, Image, SizesMatch, BlocksIn, UnusedEmpty;
    SizeInChain(fs, l, f);
    ViewOfFile(fs, l, f);
    PrefixSlice(Image(fs.data, l[f]), fs.root[f].size, offset, ReadEnd(fs, l, f, offset, count));
  }
}
