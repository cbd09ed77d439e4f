/** The file system's value: directory entries, the one array of links that threads every chain,
    and the data blocks.  A layout names the chains: layout[f] is the chain of file f and
    layout[FREE] the free chain. */
module FatLayout {
  import opened Sequences

  newtype Byte = b: int | 0 <= b < 256

  // ---------- sizes ----------

  datatype Sizes = Sizes(maxBlocks: nat, blockSize: nat, maxFiles: nat, sysbuffSize: nat)

  /** The proofs hold for all positive sizes; the witness holds the numbers the kernel is built with. */
  type PositiveSizes = s: Sizes |
      s.maxBlocks > 0 && s.blockSize > 0 && s.maxFiles > 0 && s.sysbuffSize > 0
    witness Sizes(30, 256, 10, 102400)

  const SIZES: PositiveSizes
  const MAX_BLOCKS: nat := SIZES.maxBlocks
  const BLOCK_SIZE: nat := SIZES.blockSize
  const MAX_FILES: nat := SIZES.maxFiles
  const SYSBUFF_SIZE: nat := SIZES.sysbuffSize
  const FREE: nat := MAX_FILES

  const EOC := -1
  const FREE_TYPE := -1
  const ENOSPC := 28

  // ---------- state ----------

  datatype DirEntry = DirEntry(size: int, mode: int, first: int, last: int, opens: int)

  datatype Fat = Fat(
    root: seq<DirEntry>,
    used: int, freeCount: int, firstFree: int, lastFree: int,
    links: seq<int>,
    data: seq<seq<Byte>>)

  // ---------- chains ----------

  function At(c: seq<int>, i: nat): (n: int) {
    if i < |c| then c[i] else EOC
  }

  function Last(c: seq<int>): (n: int) {
    if c == [] then EOC else c[|c|-1]
  }

  /** Following the links from block b visits exactly c and then reaches the end mark. */
  predicate IsChain(links: seq<int>, b: int, c: seq<int>) {
    && b == At(c, 0)
    && forall i :: 0 <= i < |c| ==> 0 <= c[i] < |links| && links[c[i]] == At(c, i + 1)
  }

  /** The links determine the chain. */
  lemma {:induction false} ChainUnique(links: seq<int>, b: int, c: seq<int>, d: seq<int>)
    requires IsChain(links, b, c) && IsChain(links, b, d)
    ensures c == d
    decreases c
  {
    if c != [] && d != [] {
      ChainTail(links, b, c);
      ChainTail(links, b, d);
      ChainUnique(links, links[b], c[1..], d[1..]);
      assert c == [c[0]] + c[1..] && d == [d[0]] + d[1..];
    }
  }

  lemma ChainTail(links: seq<int>, b: int, c: seq<int>)
    requires IsChain(links, b, c) && c != []
    ensures IsChain(links, links[b], c[1..])
  {
    forall i | 0 <= i < |c[1..]| ensures links[c[1..][i]] == At(c[1..], i + 1) {
      assert c[1..][i] == c[i + 1];
    }
  }

  /** Redirecting the end of one chain to the head of a disjoint one joins them. */
  lemma ChainJoin(links: seq<int>, b: int, c: seq<int>, h: int, d: seq<int>)
    requires IsChain(links, b, c) && NoDup(c) && c != [] && IsChain(links, h, d)
    requires forall x :: x in c ==> x !in d
    ensures IsChain(links[Last(c) := h], b, c + d)
  {
    var e, links' := c + d, links[Last(c) := h];
    forall i | 0 <= i < |e| ensures 0 <= e[i] < |links'| && links'[e[i]] == At(e, i + 1) {
      if i >= |c| {
        assert e[i] == d[i - |c|] && e[i] in d;
      }
    }
  }

  // ---------- well-formed states ----------

  predicate Shaped(fs: Fat) {
    && |fs.root| == MAX_FILES && |fs.links| == MAX_BLOCKS && |fs.data| == MAX_BLOCKS
    && (forall b :: 0 <= b < MAX_BLOCKS ==> |fs.data[b]| == BLOCK_SIZE)
    && forall f :: 0 <= f < MAX_FILES ==> fs.root[f].size >= 0
  }

  predicate FileChain(fs: Fat, f: nat, c: seq<int>)
    requires f < |fs.root|
  {
    IsChain(fs.links, fs.root[f].first, c) && fs.root[f].last == Last(c)
  }

  /** The chains partition the blocks, the first/last fields of files name their ends, and the block
      counters are exact.  The recorded tail of the free chain is only required to be a block number
      exactly when the free chain is non-empty: see TailTrue. */
  predicate Describes(fs: Fat, l: seq<seq<int>>) {
    && Shaped(fs)
    && |l| == MAX_FILES + 1 && Partition(l, MAX_BLOCKS)
    && (forall f :: 0 <= f < MAX_FILES ==> FileChain(fs, f, l[f]))
    && IsChain(fs.links, fs.firstFree, l[FREE])
    && fs.freeCount == |l[FREE]| && fs.used == MAX_BLOCKS - |l[FREE]|
    && (if l[FREE] == [] then fs.lastFree == EOC else 0 <= fs.lastFree < MAX_BLOCKS)
  }

  /** last_free_block is the last block of the free chain. */
  predicate TailTrue(fs: Fat, l: seq<seq<int>>)
    requires |l| == MAX_FILES + 1
  {
    fs.lastFree == Last(l[FREE])
  }

  /** The logical block that holds byte n of a file, and its position in that block. */
  function BlockOf(n: nat): (r: nat) {
    n / BLOCK_SIZE
  }

  function Within(n: nat): (r: nat)
    ensures r < BLOCK_SIZE
  {
    n % BLOCK_SIZE
  }

  function CeilDiv(n: int): (r: int)
    requires n >= 0
  {
    (n + BLOCK_SIZE - 1) / BLOCK_SIZE
  }

  lemma CeilIs(n: int, k: int)
    requires n >= 0 && (k - 1) * BLOCK_SIZE < n <= k * BLOCK_SIZE
    ensures CeilDiv(n) == k
  {
    DivIs(n + BLOCK_SIZE - 1, k);
  }

  lemma DivIs(n: int, k: int)
    requires k * BLOCK_SIZE <= n < (k + 1) * BLOCK_SIZE
    ensures n / BLOCK_SIZE == k
  {
    var q, r := n / BLOCK_SIZE, n % BLOCK_SIZE;
    assert n == q * BLOCK_SIZE + r;
    if q < k {
      Scaled(q + 1, k);
    } else if q > k {
      Scaled(k + 1, q);
    }
  }

  lemma Scaled(a: int, b: int)
    requires a <= b
    ensures a * BLOCK_SIZE <= b * BLOCK_SIZE
  {
  }

  lemma CeilBounds(n: int)
    requires n >= 0
    ensures CeilDiv(n) >= 0 && n <= CeilDiv(n) * BLOCK_SIZE && (CeilDiv(n) - 1) * BLOCK_SIZE < n
  {
    var q := CeilDiv(n);
    assert n + BLOCK_SIZE - 1 == q * BLOCK_SIZE + (n + BLOCK_SIZE - 1) % BLOCK_SIZE;
  }

  /** A file of n bytes owns exactly the blocks n bytes need. */
  predicate SizeMatches(fs: Fat, l: seq<seq<int>>, f: nat)
    requires f < |fs.root| && f < |l|
  {
    fs.root[f].size >= 0 && |l[f]| == CeilDiv(fs.root[f].size)
  }

  predicate SizesMatch(fs: Fat, l: seq<seq<int>>)
    requires |fs.root| <= |l|
  {
    forall f :: 0 <= f < |fs.root| ==> SizeMatches(fs, l, f)
  }

  /** An unused directory entry owns nothing. */
  predicate UnusedEmpty(fs: Fat) {
    forall f :: 0 <= f < |fs.root| && fs.root[f].mode == FREE_TYPE ==>
      fs.root[f].size == 0 && fs.root[f].first == EOC
  }

  /** A state has one layout. */
  lemma LayoutUnique(fs: Fat, l: seq<seq<int>>, m: seq<seq<int>>)
    requires Describes(fs, l) && Describes(fs, m)
    ensures l == m
  {
    forall k | 0 <= k < |l| ensures l[k] == m[k] {
      if k == FREE {
        ChainUnique(fs.links, fs.firstFree, l[k], m[k]);
      } else {
        assert FileChain(fs, k, l[k]) && FileChain(fs, k, m[k]);
        ChainUnique(fs.links, fs.root[k].first, l[k], m[k]);
      }
    }
  }

  /** Blocks on the free chain and on all file chains add up to MAX_BLOCKS. */
  lemma SpaceConserved(fs: Fat, l: seq<seq<int>>)
    requires Describes(fs, l)
    ensures fs.freeCount + TotalLength(l[..MAX_FILES]) == MAX_BLOCKS
    ensures fs.used == TotalLength(l[..MAX_FILES])
  {
    PartitionCount(l, MAX_BLOCKS);
    assert l == l[..MAX_FILES] + [l[FREE]];
    TotalLengthSnoc(l[..MAX_FILES], l[FREE]);
  }

  lemma {:induction false} TotalLengthSnoc(parts: seq<seq<int>>, c: seq<int>)
    ensures TotalLength(parts + [c]) == TotalLength(parts) + |c|
  {
    if parts == [] {
      assert parts + [c] == [c];
    } else {
      TotalLengthSnoc(parts[1..], c);
      assert (parts + [c])[1..] == parts[1..] + [c];
    }
  }

  // ---------- bytes ----------

  /** src laid over dst from position at on. */
  function Splice(dst: seq<Byte>, at: nat, src: seq<Byte>): (r: seq<Byte>)
    requires at + |src| <= |dst|
    ensures |r| == |dst|
  {
    dst[..at] + src + dst[at + |src|..]
  }

  lemma SpliceTwice(dst: seq<Byte>, at: nat, x: seq<Byte>, y: seq<Byte>)
    requires at + |x| + |y| <= |dst|
    ensures Splice(Splice(dst, at, x), at + |x|, y) == Splice(dst, at, x + y)
  {
  }

  predicate BlocksIn(data: seq<seq<Byte>>, c: seq<int>) {
    forall i :: 0 <= i < |c| ==> 0 <= c[i] < |data| && |data[c[i]]| == BLOCK_SIZE
  }

  /** The bytes of the blocks of c, end to end. */
  function Image(data: seq<seq<Byte>>, c: seq<int>): (r: seq<Byte>)
    requires BlocksIn(data, c)
    ensures |r| == |c| * BLOCK_SIZE
  {
    if c == [] then [] else data[c[0]] + Image(data, c[1..])
  }

  lemma {:induction false} ImageConcat(data: seq<seq<Byte>>, c: seq<int>, d: seq<int>)
    requires BlocksIn(data, c) && BlocksIn(data, d)
    ensures BlocksIn(data, c + d) && Image(data, c + d) == Image(data, c) + Image(data, d)
  {
    if c == [] {
      assert c + d == d;
    } else {
      ImageConcat(data, c[1..], d);
      assert (c + d)[1..] == c[1..] + d;
    }
  }

  lemma {:induction false} ImageFrame(data: seq<seq<Byte>>, data': seq<seq<Byte>>, c: seq<int>)
    requires BlocksIn(data, c) && |data| == |data'|
    requires forall i :: 0 <= i < |c| ==> data[c[i]] == data'[c[i]]
    ensures BlocksIn(data', c) && Image(data, c) == Image(data', c)
  {
    if c != [] {
      assert forall i :: 0 <= i < |c[1..]| ==> c[1..][i] == c[i + 1];
      ImageFrame(data, data', c[1..]);
    }
  }

  /** Block k of a chain holds bytes k*BLOCK_SIZE up to (k+1)*BLOCK_SIZE of its image. */
  lemma ImageSplit(data: seq<seq<Byte>>, c: seq<int>, k: nat)
    requires BlocksIn(data, c) && k < |c|
    ensures BlocksIn(data, c[..k]) && BlocksIn(data, c[k+1..])
    ensures Image(data, c) == Image(data, c[..k]) + data[c[k]] + Image(data, c[k+1..])
  {
    assert c == c[..k] + ([c[k]] + c[k+1..]);
    ImageConcat(data, [c[k]], c[k+1..]);
    assert [c[k]][1..] == [];
    ImageConcat(data, c[..k], [c[k]] + c[k+1..]);
  }

  /** Rewriting part of one block splices the image. */
  lemma ImageUpdate(data: seq<seq<Byte>>, c: seq<int>, k: nat, at: nat, src: seq<Byte>)
    requires BlocksIn(data, c) && NoDup(c) && k < |c| && at + |src| <= BLOCK_SIZE
    ensures var data' := data[c[k] := Splice(data[c[k]], at, src)];
      && BlocksIn(data', c)
      && k * BLOCK_SIZE + at + |src| <= |c| * BLOCK_SIZE
      && Image(data', c) == Splice(Image(data, c), k * BLOCK_SIZE + at, src)
  {
    var data' := data[c[k] := Splice(data[c[k]], at, src)];
    BlockInside(k, |c|, at + |src|);
    ImageSplit(data, c, k);
    ImageSplit(data', c, k);
    assert c[k] !in c[..k] && c[k] !in c[k+1..];
    ImageFrame(data, data', c[..k]);
    ImageFrame(data, data', c[k+1..]);
    var before, after := Image(data, c[..k]), Image(data, c[k+1..]);
    SpliceMiddle(before, data[c[k]], after, at, src);
  }

  lemma BlockInside(k: nat, n: nat, m: nat)
    requires k < n && m <= BLOCK_SIZE
    ensures k * BLOCK_SIZE + m <= n * BLOCK_SIZE
  {
    assert (k + 1) * BLOCK_SIZE <= n * BLOCK_SIZE;
  }

  lemma SpliceMiddle(a: seq<Byte>, b: seq<Byte>, c: seq<Byte>, at: nat, src: seq<Byte>)
    requires at + |src| <= |b|
    ensures Splice(a + b + c, |a| + at, src) == a + Splice(b, at, src) + c
  {
  }

  /** A range of one block is the matching range of the image. */
  lemma ImageRange(data: seq<seq<Byte>>, c: seq<int>, k: nat, at: nat, n: nat)
    requires BlocksIn(data, c) && k < |c| && at + n <= BLOCK_SIZE
    ensures k * BLOCK_SIZE + at + n <= |c| * BLOCK_SIZE
    ensures data[c[k]][at..at + n] == Image(data, c)[k * BLOCK_SIZE + at..k * BLOCK_SIZE + at + n]
  {
    BlockInside(k, |c|, at + n);
    ImageSplit(data, c, k);
  }
}
