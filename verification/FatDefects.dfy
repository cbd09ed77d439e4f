/** The places where fat.c falls short of the plain volume, each reached by a run from formatting. */
module FatDefects {
  import opened FatLayout
  import opened FatSpec
  import opened FatVolume
  import opened FatLinkage
  import opened FatRefinement
  import opened FatUnlinking
  import opened FatFiles
  import opened FatRuns
  import opened DeviceFiles

  // ---------- runs into the defect ----------

  lemma BytesWritten(v: Volume, f: nat, k: nat, buf: seq<Byte>)
    requires f < |v.files| && v.files[f] == File([]) && k <= v.free && (k - 1) * BLOCK_SIZE < |buf| <= k * BLOCK_SIZE
    ensures Allowed(v, WriteOp(f, 0, buf))
    ensures Apply(v, WriteOp(f, 0, buf)) == Volume(v.files[f := File(buf)], v.free - k)
  {
    CeilBounds(0);
    CeilLeast(0, 0);
    CeilIs(|buf|, k);
    Scaled(k, v.free);
    assert Room(v, f, 0, |buf|) == |buf|;
    assert buf[..|buf|] == buf && Overwrite([], 0, buf) == buf;
  }

  lemma UnusedFirst(v: Volume, i: nat)
    requires i < |v.files| && v.files[i] == Unused && (forall j :: 0 <= j < i ==> v.files[j] != Unused) && v.free >= 0
    ensures Apply(v, CreateOp(3)) == v.(files := v.files[i := File([])])
  {
  }

  /** One call, and the rest of a run. */
  lemma NextCall(v: Volume, tail: Tail, op: Op, rest: seq<Op>)
    requires v.free >= 0 && Allowed(v, op) && (op.UnlinkOp? ==> Safe(v, tail, op.f))
    ensures AllowedRun(v, [op] + rest) <==> AllowedRun(Apply(v, op), rest)
    ensures SafeRun(v, tail, [op] + rest) <==> SafeRun(Apply(v, op), TailAfter(v, tail, op), rest)
    ensures AllowedRun(v, [op] + rest) ==> Run(v, [op] + rest) == Run(Apply(v, op), rest)
    ensures AllowedRun(v, [op] + rest) ==>
              TailOver(v, tail, [op] + rest) == TailOver(Apply(v, op), TailAfter(v, tail, op), rest)
  {
    assert ([op] + rest)[1..] == rest;
  }

  /** A run that begins with the calls `setup` on a formatted volume goes on as `rest` does from v, with the
      record at `tail`. */
  predicate GoesOn(setup: seq<Op>, v: Volume, tail: Tail, rest: seq<Op>)
    requires v.free >= 0
  {
    && (AllowedRun(EmptyVolume(), setup + rest) <==> AllowedRun(v, rest))
    && (SafeRun(EmptyVolume(), Exact, setup + rest) <==> SafeRun(v, tail, rest))
    && (AllowedRun(v, rest) ==>
         && Run(EmptyVolume(), setup + rest) == Run(v, rest)
         && TailOver(EmptyVolume(), Exact, setup + rest) == TailOver(v, tail, rest))
  }

  ghost predicate Reaches(setup: seq<Op>, v: Volume, tail: Tail) {
    v.free >= 0 && forall rest: seq<Op> :: GoesOn(setup, v, tail, rest)
  }

  lemma ReachesNothing()
    ensures Reaches([], EmptyVolume(), Exact)
  {
    forall rest: seq<Op> ensures GoesOn([], EmptyVolume(), Exact, rest) {
      assert [] + rest == rest;
    }
  }

  lemma ReachesNext(setup: seq<Op>, v: Volume, tail: Tail, op: Op, v': Volume)
    requires Reaches(setup, v, tail) && Allowed(v, op) && (op.UnlinkOp? ==> Safe(v, tail, op.f)) && v' == Apply(v, op)
    ensures Reaches(setup + [op], v', TailAfter(v, tail, op))
  {
    hide Apply, TailAfter, Allowed, Safe, EmptyVolume, Run, TailOver, AllowedRun, SafeRun;
    forall rest: seq<Op> ensures GoesOn(setup + [op], v', TailAfter(v, tail, op), rest) {
      assert (setup + [op]) + rest == setup + ([op] + rest);
      assert GoesOn(setup, v, tail, [op] + rest);
      NextCall(v, tail, op, rest);
    }
  }

  /** The run that has reached v. */
  lemma Reached(setup: seq<Op>, v: Volume, tail: Tail)
    requires Reaches(setup, v, tail)
    ensures SafeRun(EmptyVolume(), Exact, setup) && AllowedRun(EmptyVolume(), setup)
    ensures Run(EmptyVolume(), setup) == v && TailOver(EmptyVolume(), Exact, setup) == tail
  {
    assert GoesOn(setup, v, tail, []) && setup + [] == setup;
  }

  /** Two files of one byte each. */
  function TwoFiles(b: Byte): (ops: seq<Op>) {
    [CreateOp(3), CreateOp(3), WriteOp(0, 0, [b]), WriteOp(1, 0, [b])]
  }

  /** The formatted volume with its first files created, holding these bytes, of k0 and k1 blocks. */
  lemma TwoFilesMade(x: seq<Byte>, k0: nat, y: seq<Byte>, k1: nat) returns (v: Volume)
    requires MAX_FILES >= 2 && k0 + k1 <= MAX_BLOCKS
    requires (k0 - 1) * BLOCK_SIZE < |x| <= k0 * BLOCK_SIZE && (k1 - 1) * BLOCK_SIZE < |y| <= k1 * BLOCK_SIZE
    ensures |v.files| == MAX_FILES && v.files[0] == File(x) && v.files[1] == File(y) && v.free == MAX_BLOCKS - k0 - k1
    ensures Reaches([CreateOp(3), CreateOp(3), WriteOp(0, 0, x), WriteOp(1, 0, y)], v, Exact)
  {
    hide Write, Apply, Create, Reaches;
    var c, w0, w1 := CreateOp(3), WriteOp(0, 0, x), WriteOp(1, 0, y);
    var v0 := EmptyVolume();
    var v1 := v0.(files := v0.files[0 := File([])]);
    var v2 := v1.(files := v1.files[1 := File([])]);
    var v3 := Volume(v2.files[0 := File(x)], v2.free - k0);
    v := Volume(v3.files[1 := File(y)], v3.free - k1);
    UnusedFirst(v0, 0);
    UnusedFirst(v1, 1);
    BytesWritten(v2, 0, k0, x);
    BytesWritten(v3, 1, k1, y);
    ReachesNothing();
    ReachesNext([], v0, Exact, c, v1);
    assert [] + [c] == [c];
    ReachesNext([c], v1, Exact, c, v2);
    assert [c] + [c] == [c, c] && [c, c] + [w0] == [c, c, w0];
    ReachesNext([c, c], v2, Exact, w0, v3);
    ReachesNext([c, c, w0], v3, Exact, w1, v);
    assert [c, c, w0] + [w1] == [c, c, w0, w1];
  }

  /** Formatting a volume of at least two directory entries and three blocks, writing a byte to each of two
      files and unlinking both: every call is allowed, and the last is the first that is not safe. */
  lemma LosingRun(b: Byte)
    requires MAX_FILES >= 2 && MAX_BLOCKS >= 3
    ensures AllowedRun(EmptyVolume(), TwoFiles(b) + [UnlinkOp(0), UnlinkOp(1)])
    ensures SafeRun(EmptyVolume(), Exact, TwoFiles(b) + [UnlinkOp(0)])
    ensures !SafeRun(EmptyVolume(), Exact, TwoFiles(b) + [UnlinkOp(0), UnlinkOp(1)])
    ensures AllowedRun(EmptyVolume(), TwoFiles(b))
    ensures var v := Run(EmptyVolume(), TwoFiles(b));
      v.files[0] == v.files[1] == File([b]) && v.free == MAX_BLOCKS - 2
  {
    hide Reaches;
    var v := TwoFilesMade([b], 1, [b], 1);
    Reached(TwoFiles(b), v, Exact);
    ReachesNext(TwoFiles(b), v, Exact, UnlinkOp(0), Apply(v, UnlinkOp(0)));
    var v', tail' := Apply(v, UnlinkOp(0)), TailAfter(v, Exact, UnlinkOp(0));
    Reached(TwoFiles(b) + [UnlinkOp(0)], v', tail');
    LastUnsafe(TwoFiles(b) + [UnlinkOp(0)], v', tail', 1);
    assert (TwoFiles(b) + [UnlinkOp(0)]) + [UnlinkOp(1)] == TwoFiles(b) + [UnlinkOp(0), UnlinkOp(1)];
  }

  lemma LastUnsafe(setup: seq<Op>, v: Volume, tail: Tail, f: nat)
    requires Reaches(setup, v, tail) && f < |v.files| && v.files[f].File? && !Safe(v, tail, f)
    ensures AllowedRun(EmptyVolume(), setup + [UnlinkOp(f)]) && !SafeRun(EmptyVolume(), Exact, setup + [UnlinkOp(f)])
  {
    var last := [UnlinkOp(f)];
    assert GoesOn(setup, v, tail, last);
    assert last[1..] == [] && AllowedRun(Apply(v, last[0]), last[1..]);
  }

  // ---------- a run that overwrites another file ----------

  function Fill(n: nat, b: Byte): (bytes: seq<Byte>)
    ensures |bytes| == n && forall i :: 0 <= i < n ==> bytes[i] == b
  {
    seq(n, _ => b)
  }

  /** The free blocks after the first two writes of the run below. */
  const SPARE: int := MAX_BLOCKS - 3

  /** The first byte of the block behind them. */
  function Spot(): (at: nat)
    requires MAX_BLOCKS >= 4
    ensures at == SPARE * BLOCK_SIZE
  {
    Scaled(0, SPARE);
    SPARE * BLOCK_SIZE
  }

  /** File 0 of two blocks is unlinked, which leaves the record on the last block that was free before.  A
      new file 0 takes the blocks up to that one, and one more. */
  function BuryingRun(x: Byte, y: Byte): (ops: seq<Op>)
    requires MAX_BLOCKS >= 4
  {
    [CreateOp(3), CreateOp(3), WriteOp(0, 0, Fill(BLOCK_SIZE + 1, x)), WriteOp(1, 0, [y]),
     UnlinkOp(0), CreateOp(3), WriteOp(0, 0, Fill(Spot() + BLOCK_SIZE, x))]
  }

  lemma Buries(x: Byte, y: Byte)
    requires MAX_FILES >= 2 && MAX_BLOCKS >= 4
    ensures SafeRun(EmptyVolume(), Exact, BuryingRun(x, y)) && AllowedRun(EmptyVolume(), BuryingRun(x, y))
    ensures TailOver(EmptyVolume(), Exact, BuryingRun(x, y)) == Buried(0, SPARE - 1)
    ensures var v := Run(EmptyVolume(), BuryingRun(x, y));
      && |v.files| == MAX_FILES && v.free == 1
      && v.files[0] == File(Fill(Spot() + BLOCK_SIZE, x)) && v.files[1] == File([y])
  {
    hide Reaches, Write, Create;
    var b0, b1 := Fill(BLOCK_SIZE + 1, x), Fill(Spot() + BLOCK_SIZE, x);
    var v4 := TwoFilesMade(b0, 2, [y], 1);
    var setup := [CreateOp(3), CreateOp(3), WriteOp(0, 0, b0), WriteOp(1, 0, [y])];
    var v5 := v4.(files := v4.files[0 := Unused], free := v4.free + 2);
    CeilIs(BLOCK_SIZE + 1, 2);
    ReachesNext(setup, v4, Exact, UnlinkOp(0), v5);
    var v6 := v5.(files := v5.files[0 := File([])]);
    UnusedFirst(v5, 0);
    var t5 := Inside(SPARE - 1);
    ReachesNext(setup + [UnlinkOp(0)], v5, t5, CreateOp(3), v6);
    var v7 := Volume(v6.files[0 := File(b1)], v6.free - (SPARE + 1));
    BytesWritten(v6, 0, SPARE + 1, b1);
    CeilLeast(0, 0);
    ReachesNext(setup + [UnlinkOp(0)] + [CreateOp(3)], v6, t5, WriteOp(0, 0, b1), v7);
    assert setup + [UnlinkOp(0)] + [CreateOp(3)] + [WriteOp(0, 0, b1)] == BuryingRun(x, y);
    Reached(BuryingRun(x, y), v7, Buried(0, SPARE - 1));
  }

  /** Unlinking file 1 now puts its byte in the middle of file 0, which nobody has touched. */
  method Overwritten(x: Byte, y: Byte) returns (before: seq<Byte>, after: seq<Byte>)
    requires MAX_FILES >= 2 && MAX_BLOCKS >= 4
    ensures before == [x] && after == [y]
  {
    hide Describes, UnusedEmpty, SizesMatch, FileView, TailTrue, TailIs, Apply, Read, SafeRun, AllowedRun, Run,
      TailOver, Linked, Threaded, BuryingRun, BytesRead, Fill, Image, BlocksIn;
    Buries(x, y);
    var fs := new FatFs.Init();
    FormattedView(fs.Value());
    var _ := Execute(fs, BuryingRun(x, y));
    ghost var now, l := fs.Value(), fs.layout;
    Lengths(now, l);
    DescribedLinked(now, l);
    var at, r := Spot(), 0;
    r, before := fs.Read(0, at, 1);
    FilledByte(now, l, x);
    r := fs.Unlink(1);
    r, after := fs.Read(0, at, 1);
    ReplacedByte(now, l, fs.layout, y);
  }

  lemma FilledByte(fs: Fat, l: seq<seq<int>>, x: Byte)
    requires Sound(fs, l) && MAX_FILES >= 2 && MAX_BLOCKS >= 4
    requires View(fs, l).files[0] == File(Fill(Spot() + BLOCK_SIZE, x))
    ensures BlocksIn(fs.data, l[0]) && BytesRead(fs, l, 0, Spot(), 1) == [x]
  {
    hide Describes, UnusedEmpty, Image;
    ReadRefines(fs, l, 0, Spot(), 1);
  }

  lemma ImageBehind(data: seq<seq<Byte>>, c: seq<int>, d: seq<int>)
    requires BlocksIn(data, c) && BlocksIn(data, d) && d != []
    ensures BlocksIn(data, c + d) && |Image(data, d)| >= BLOCK_SIZE
    ensures |c| * BLOCK_SIZE < |Image(data, c + d)| && Image(data, c + d)[|c| * BLOCK_SIZE] == Image(data, d)[0]
  {
    hide Image;
    ImageConcat(data, c, d);
    Scaled(1, |d|);
    Scaled(0, |c|);
  }

  lemma EndBehind(fs: Fat, m: seq<seq<int>>)
    requires |fs.root| == MAX_FILES && |m| == MAX_FILES + 1 && MAX_FILES >= 2 && MAX_BLOCKS >= 4
    requires BlocksIn(fs.data, m[0]) && |m[0]| == SPARE + 1 && fs.root[0].size == Spot() + BLOCK_SIZE
    ensures Spot() < |Image(fs.data, m[0])| && BytesRead(fs, m, 0, Spot(), 1) == [Image(fs.data, m[0])[Spot()]]
  {
    hide Image;
    NextSpot();
  }

  lemma OneByteFile(fs: Fat, l: seq<seq<int>>, y: Byte)
    requires Sound(fs, l) && MAX_FILES >= 2 && |l| == MAX_FILES + 1 && View(fs, l).files[1] == File([y])
    ensures BlocksIn(fs.data, l[1]) && |l[1]| == 1 && |Image(fs.data, l[1])| > 0 && Image(fs.data, l[1])[0] == y
  {
    hide Describes, UnusedEmpty, Image, SizesMatch, CeilDiv;
    Lengths(fs, l);
    SizeInChain(fs, l, 1);
    CeilIs(1, 1);
    assert FileBytes(fs, l, 1) == [y];
    assert Image(fs.data, l[1])[..1] == [y];
  }

  lemma NextSpot()
    requires MAX_BLOCKS >= 4
    ensures (SPARE + 1) * BLOCK_SIZE == Spot() + BLOCK_SIZE
  {
  }

  lemma WholeBlocks(fs: Fat, l: seq<seq<int>>)
    requires Sound(fs, l) && MAX_FILES >= 2 && MAX_BLOCKS >= 4 && |l| == MAX_FILES + 1
    requires View(fs, l).files[0].File? && |View(fs, l).files[0].bytes| == Spot() + BLOCK_SIZE
    ensures BlocksIn(fs.data, l[0]) && |l[0]| == SPARE + 1 && |fs.root| == MAX_FILES
    ensures fs.root[0].size == Spot() + BLOCK_SIZE
  {
    hide Describes, UnusedEmpty, Image, SizesMatch, CeilDiv;
    Lengths(fs, l);
    SizeInChain(fs, l, 0);
    CeilIsExact(SPARE + 1);
    NextSpot();
  }

  /** After the unlink the chain of file 0 ends in the block of file 1. */
  lemma ReplacedByte(fs: Fat, l: seq<seq<int>>, m: seq<seq<int>>, y: Byte)
    requires Sound(fs, l) && MAX_FILES >= 2 && MAX_BLOCKS >= 4 && |l| == MAX_FILES + 1
    requires TailIs(fs, l, Buried(0, SPARE - 1)) && Threaded(Unlinked(fs, 1), m)
    requires View(fs, l).files[0].File? && |View(fs, l).files[0].bytes| == Spot() + BLOCK_SIZE
    requires View(fs, l).files[1] == File([y])
    ensures var fs' := Unlinked(fs, 1);
      |m| == |fs'.root| + 1 && BlocksIn(fs'.data, m[0]) && BytesRead(fs', m, 0, Spot(), 1) == [y]
  {
    hide Describes, UnusedEmpty, SizesMatch, View, Image, IsChain, TailIs, CeilDiv, BytesRead;
    Lengths(fs, l);
    OneByteFile(fs, l, y);
    WholeBlocks(fs, l);
    OtherFileAfter(fs, l, Buried(0, SPARE - 1), 1, 0, m);
    ImageBehind(fs.data, l[0][..SPARE], l[1]);
    EndBehind(Unlinked(fs, 1), m);
  }

  // ---------- a write beyond the end ----------

  /** A byte written one block past the chain of an empty file: the file now counts two blocks and has one,
      and no layout describes what unlinking it leaves. */
  lemma BeyondBreaks(fs: Fat, l: seq<seq<int>>, f: nat, b: Byte, r: int, fs': Fat, l': seq<seq<int>>)
    requires Sound(fs, l) && f < MAX_FILES && |l| == MAX_FILES + 1 && |fs.root| == MAX_FILES
    requires l[f] == [] && l[FREE] != []
    requires WriteEffect(fs, l, f, [b], BLOCK_SIZE, r, fs', l')
    ensures Describes(fs', l') && |l'| == MAX_FILES + 1 && |fs'.root| == MAX_FILES && !SizeMatches(fs', l', f)
    ensures !exists m :: Describes(Unlinked(fs', f), m)
  {
    hide Describes, SizeMatches, UnlinkSafe, BytesAfter;
    WriteParts(fs, l, f, [b], BLOCK_SIZE, r, fs', l');
    WriteSizeIff(fs, l, f, [b], BLOCK_SIZE, r, fs', l');
    DivIs(BLOCK_SIZE, 1);
    Scaled(1, |l[FREE]|);
    Lengths(fs', l');
    UnlinkReclaimsIff(fs', l', f);
  }

  /** Format, create, write there. */
  method BreakSize(b: Byte) returns (fs: FatFs)
    ensures fs.Valid() && Describes(fs.Value(), fs.layout) && MAX_FILES == |fs.Value().root|
    ensures |fs.layout| == MAX_FILES + 1 && !SizeMatches(fs.Value(), fs.layout, 0)
    ensures !exists m :: Describes(Unlinked(fs.Value(), 0), m)
  {
    hide Describes, SizesMatch, SizeMatches, UnusedEmpty, WriteEffect, View, Linked, Threaded, Create;
    fs := new FatFs.Init();
    var r := fs.Create(3);
    ghost var was, l := fs.Value(), fs.layout;
    Lengths(was, l);
    assert l[0] == [] && l[FREE] == Iota(MAX_BLOCKS);
    r := fs.Write(0, [b], BLOCK_SIZE);
    BeyondBreaks(was, l, 0, b, r, fs.Value(), fs.layout);
  }

  // ---------- a write that runs out of space ----------

  /** One byte more than the volume holds: every block is filled, and the result is not the number of bytes
      stored. */
  method ShortWrite(b: Byte) returns (written: int)
    ensures written == WriteResult(Capacity(), Capacity() + 1) != Capacity()
  {
    hide Describes, SizesMatch, UnusedEmpty, View, Linked, Threaded, Write, WriteResult, Fill;
    var fs := new FatFs.Init();
    FormattedView(fs.Value());
    var r := fs.Create(3);
    UnusedFirst(EmptyVolume(), 0);
    ghost var v := View(fs.Value(), fs.layout);
    WholeRoom(v);
    WriteResultIff(Capacity(), Capacity() + 1);
    Lengths(fs.Value(), fs.layout);
    NewFile(fs.Value(), fs.layout);
    written := SysWriteFile(fs, 0, Fill(Capacity() + 1, b), 0);
  }

  function Capacity(): (n: nat)
    ensures n == MAX_BLOCKS * BLOCK_SIZE
  {
    Scaled(0, MAX_BLOCKS);
    MAX_BLOCKS * BLOCK_SIZE
  }

  lemma WholeRoom(v: Volume)
    requires |v.files| == MAX_FILES && v.files[0] == File([]) && v.free == MAX_BLOCKS
    ensures Room(v, 0, 0, Capacity() + 1) == Capacity()
  {
    CeilBounds(0);
    CeilLeast(0, 0);
  }

  lemma NewFile(fs: Fat, l: seq<seq<int>>)
    requires Sound(fs, l) && MAX_FILES > 0 && View(fs, l).files[0] == File([])
    ensures |fs.root| == MAX_FILES && fs.root[0].mode != FREE_TYPE && fs.root[0].size == 0
  {
    SizeInChain(fs, l, 0);
  }
}
