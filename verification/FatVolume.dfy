/** The file system seen from outside: which files exist, what bytes each holds, how many blocks are
    free.  Reading, writing and unlinking through chains and blocks refine these plain operations. */
module FatVolume {
  import opened FatLayout
  import opened FatSpec

  datatype File = Unused | File(bytes: seq<Byte>)

  datatype Volume = Volume(files: seq<File>, free: int)

  // ---------- plain operations ----------

  function Create(v: Volume): (r: (Volume, int)) {
    var i := FirstUnused(v.files, 0);
    if i < |v.files| then (v.(files := v.files[i := File([])]), i) else (v, -ENOSPC)
  }

  /** The lowest unused slot from i on, or the number of slots. */
  function FirstUnused(files: seq<File>, i: nat): (r: nat)
    requires i <= |files|
    ensures i <= r <= |files| && (r < |files| ==> files[r] == Unused)
    ensures forall j :: i <= j < r ==> files[j] != Unused
    decreases |files| - i
  {
    if i == |files| || files[i] == Unused then i else FirstUnused(files, i + 1)
  }

  /** buf over old from position at, which may be the end: the result can be longer. */
  function Overwrite(was: seq<Byte>, at: nat, buf: seq<Byte>): (r: seq<Byte>)
    requires at <= |was|
    ensures |r| == Max(|was|, at + |buf|)
  {
    was[..at] + buf + if at + |buf| < |was| then was[at + |buf|..] else []
  }

  /** Byte by byte: the buffer's bytes from position at on, the old ones before and behind. */
  lemma OverwriteAt(was: seq<Byte>, at: nat, buf: seq<Byte>, i: nat)
    requires at <= |was| && i < Max(|was|, at + |buf|)
    ensures Overwrite(was, at, buf)[i] == if at <= i < at + |buf| then buf[i - at] else was[i]
  {
  }

  /** The bytes of a write for which there is room in the file's last block and the free blocks. */
  function Room(v: Volume, f: nat, at: nat, count: nat): (n: int)
    requires f < |v.files| && v.files[f].File?
  {
    Min(count, Max(0, (CeilDiv(|v.files[f].bytes|) + v.free) * BLOCK_SIZE - at))
  }

  function Write(v: Volume, f: nat, at: nat, buf: seq<Byte>): (r: (Volume, int))
    requires f < |v.files| && v.files[f].File? && at <= |v.files[f].bytes| && v.free >= 0
  {
    var was, n := v.files[f].bytes, Room(v, f, at, |buf|);
    var bytes := Overwrite(was, at, buf[..n]);
    (Volume(v.files[f := File(bytes)], v.free - (CeilDiv(|bytes|) - CeilDiv(|was|))),
     if n == |buf| then n else -ENOSPC)
  }

  function Read(v: Volume, f: nat, at: nat, count: nat): (r: seq<Byte>)
    requires f < |v.files| && v.files[f].File?
  {
    var bytes := v.files[f].bytes;
    if at < |bytes| then bytes[at..Min(at + count, |bytes|)] else []
  }

  function Unlink(v: Volume, f: nat): (v': Volume)
    requires f < |v.files| && v.files[f].File?
  {
    Volume(v.files[f := Unused], v.free + CeilDiv(|v.files[f].bytes|))
  }

  /** A write is complete exactly when the blocks it needs beyond the file's own are free; if not,
      every free block is used and the longest prefix that fits is stored. */
  lemma WriteSpace(v: Volume, f: nat, at: nat, buf: seq<Byte>)
    requires f < |v.files| && v.files[f].File? && at <= |v.files[f].bytes| && v.free >= 0
    ensures var c, (v', r) := CeilDiv(|v.files[f].bytes|), Write(v, f, at, buf);
      && (r == |buf| <==> Max(0, CeilDiv(at + |buf|) - c) <= v.free)
      && v'.free >= 0
      && (r != |buf| ==> r == -ENOSPC && v'.free == 0)
      && (r != |buf| ==> v'.files[f].bytes == Overwrite(v.files[f].bytes, at, buf[..(c + v.free) * BLOCK_SIZE - at]))
  {
    var size := |v.files[f].bytes|;
    var c, n := CeilDiv(size), Room(v, f, at, |buf|);
    CeilBounds(size);
    OffsetInChain(at, size);
    hide CeilDiv, Overwrite;
    FittingIsRoom(c, v.free, at, |buf|);
    SpaceBound(c, v.free, at, |buf|);
    RoomBlocks(c, v.free, size, at, |buf|);
  }

  lemma RoomBlocks(c: nat, free: nat, size: nat, at: nat, count: nat)
    requires c == CeilDiv(size) && at <= size <= c * BLOCK_SIZE
    ensures var n := Min(count, Max(0, (c + free) * BLOCK_SIZE - at));
      && CeilDiv(Max(size, at + n)) <= c + free
      && (n < count ==> n == (c + free) * BLOCK_SIZE - at && CeilDiv(Max(size, at + n)) == c + free)
  {
    var n := Min(count, Max(0, (c + free) * BLOCK_SIZE - at));
    assert c * BLOCK_SIZE + free * BLOCK_SIZE == (c + free) * BLOCK_SIZE && free * BLOCK_SIZE >= 0;
    hide CeilDiv;
    CeilLeast(Max(size, at + n), c + free);
    CeilIsExact(c + free);
  }

  lemma CeilIsExact(k: nat)
    ensures CeilDiv(k * BLOCK_SIZE) == k
  {
    CeilIs(k * BLOCK_SIZE, k);
  }

  /** Reading back a write gets exactly the bytes that were stored, none behind them, however many fitted. */
  lemma WriteThenRead(v: Volume, f: nat, at: nat, buf: seq<Byte>)
    requires f < |v.files| && v.files[f].File? && at <= |v.files[f].bytes| && v.free >= 0
    ensures Read(Write(v, f, at, buf).0, f, at, |buf|) == buf[..Room(v, f, at, |buf|)]
  {
    hide CeilDiv;
    OverwriteRead(v.files[f].bytes, at, buf[..Room(v, f, at, |buf|)]);
    LastIsFull(v, f, at, buf);
  }

  /** A write that stops short ends the file. */
  lemma LastIsFull(v: Volume, f: nat, at: nat, buf: seq<Byte>)
    requires f < |v.files| && v.files[f].File? && at <= |v.files[f].bytes| && v.free >= 0
    ensures Room(v, f, at, |buf|) < |buf| ==> |v.files[f].bytes| <= at + Room(v, f, at, |buf|)
  {
    CeilBounds(|v.files[f].bytes|);
  }

  lemma OverwriteRead(was: seq<Byte>, at: nat, buf: seq<Byte>)
    requires at <= |was|
    ensures Overwrite(was, at, buf)[at..at + |buf|] == buf
  {
  }

  // ---------- the view ----------

  predicate Sound(fs: Fat, l: seq<seq<int>>) {
    Describes(fs, l) && SizesMatch(fs, l) && UnusedEmpty(fs)
  }

  function FileBytes(fs: Fat, l: seq<seq<int>>, f: nat): (r: seq<Byte>)
    requires f < |fs.root| && f < |l| && BlocksIn(fs.data, l[f])
    requires 0 <= fs.root[f].size <= |l[f]| * BLOCK_SIZE
    ensures |r| == fs.root[f].size
  {
    Image(fs.data, l[f])[..fs.root[f].size]
  }

  lemma SizeInChain(fs: Fat, l: seq<seq<int>>, f: nat)
    requires Describes(fs, l) && SizesMatch(fs, l) && f < MAX_FILES
    ensures BlocksIn(fs.data, l[f]) && 0 <= fs.root[f].size <= |l[f]| * BLOCK_SIZE
    ensures |l[f]| == CeilDiv(fs.root[f].size)
  {
    assert SizeMatches(fs, l, f);
    CeilBounds(fs.root[f].size);
    assert forall i :: 0 <= i < |l[f]| ==> l[f][i] in l[f];
  }

  ghost function FileView(fs: Fat, l: seq<seq<int>>, f: nat): (file: File)
    requires Describes(fs, l) && SizesMatch(fs, l) && f < MAX_FILES
  {
    SizeInChain(fs, l, f);
    if fs.root[f].mode == FREE_TYPE then Unused else File(FileBytes(fs, l, f))
  }

  ghost function View(fs: Fat, l: seq<seq<int>>): (v: Volume)
    requires Describes(fs, l) && SizesMatch(fs, l)
    ensures |v.files| == MAX_FILES
  {
    Volume(seq(MAX_FILES, f requires 0 <= f < MAX_FILES => FileView(fs, l, f)), |l[FREE]|)
  }

  // ---------- arithmetic of blocks ----------

  lemma CeilShift(offset: nat, n: nat)
    requires n > 0
    ensures CeilDiv(offset + n) == BlockOf(offset) + CeilDiv(Within(offset) + n)
  {
    var k := CeilDiv(Within(offset) + n);
    CeilBounds(Within(offset) + n);
    assert offset == BlockOf(offset) * BLOCK_SIZE + Within(offset);
    assert (BlockOf(offset) + k) * BLOCK_SIZE == BlockOf(offset) * BLOCK_SIZE + k * BLOCK_SIZE;
    CeilIs(offset + n, BlockOf(offset) + k);
  }

  lemma CeilLeast(n: nat, k: nat)
    ensures CeilDiv(n) <= k <==> n <= k * BLOCK_SIZE
  {
    CeilBounds(n);
    var q := CeilDiv(n);
    hide CeilDiv;
    if q <= k {
      Scaled(q, k);
    } else {
      Scaled(k, q - 1);
    }
  }

  lemma CeilMonotone(m: nat, n: nat)
    requires m <= n
    ensures CeilDiv(m) <= CeilDiv(n)
  {
    CeilLeast(n, CeilDiv(n));
    CeilLeast(m, CeilDiv(n));
  }

  /** A position inside or at the end of the file lies in the chain or one block past it. */
  lemma OffsetInChain(offset: nat, size: nat)
    requires offset <= size
    ensures BlockOf(offset) <= CeilDiv(size)
  {
    CeilMonotone(offset, size);
    CeilBounds(offset);
    assert offset == BlockOf(offset) * BLOCK_SIZE + Within(offset);
    var q, k := BlockOf(offset), CeilDiv(offset);
    assert q > k ==> q * BLOCK_SIZE >= (k + 1) * BLOCK_SIZE;
  }

  /** With the offset in reach, what fits is bounded by the blocks behind the file. */
  lemma FittingIsRoom(c: nat, free: nat, offset: nat, count: nat)
    requires BlockOf(offset) <= c
    ensures Fitting(c, free, offset, count) == Min(count, Max(0, (c + free) * BLOCK_SIZE - offset))
  {
    var q := BlockOf(offset);
    assert offset == q * BLOCK_SIZE + Within(offset);
    assert (c - q + free) * BLOCK_SIZE == (c + free) * BLOCK_SIZE - q * BLOCK_SIZE;
  }

  /** A write of count bytes completes exactly when the blocks it needs beyond the file's chain do
      not exceed the free ones. */
  lemma SpaceBound(c: nat, free: nat, offset: nat, count: nat)
    requires BlockOf(offset) <= c && offset <= c * BLOCK_SIZE
    ensures Fitting(c, free, offset, count) == count <==> Max(0, CeilDiv(offset + count) - c) <= free
  {
    FittingIsRoom(c, free, offset, count);
    CeilLeast(offset + count, c + free);
    assert free * BLOCK_SIZE >= 0;
    assert c * BLOCK_SIZE + free * BLOCK_SIZE == (c + free) * BLOCK_SIZE;

  }

  /** A write keeps "size needs exactly the chain's blocks" if and only if it stores nothing or starts
      at most one block past the chain. */
  lemma SizeKeptIff(c: nat, free: nat, offset: nat, count: nat, size: nat)
    requires c == CeilDiv(size)
    ensures var n, taken := Fitting(c, free, offset, count), Taken(c, free, offset, count);
      var size' := if n == 0 then size else Max(size, offset + n);
      c + taken == CeilDiv(size') <==> n == 0 || BlockOf(offset) <= c
  {
    var n := Fitting(c, free, offset, count);
    if n > 0 {
      CeilShift(offset, n);
      CeilMonotone(size, Max(size, offset + n));
      CeilMonotone(offset + n, Max(size, offset + n));
      CeilLeast(Within(offset) + n, 0);
      CeilLeast(size, c);
      OffsetBeyond(offset, c);
    }
  }

  lemma OffsetBeyond(offset: nat, c: nat)
    ensures BlockOf(offset) > c ==> offset > c * BLOCK_SIZE
  {
    assert offset == BlockOf(offset) * BLOCK_SIZE + Within(offset);
    assert BlockOf(offset) > c ==> BlockOf(offset) * BLOCK_SIZE >= (c + 1) * BLOCK_SIZE;
  }
}
