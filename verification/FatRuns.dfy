/** Whole runs of file system calls against the plain volume, and the chunked device calls above
    them. */
module FatRuns {
  import opened FatLayout
  import opened FatSpec
  import opened FatVolume
  import opened FatRefinement
  import opened FatUnlinking
  import opened FatLinkage
  import opened FatFiles

  datatype Op = CreateOp(flags: nat) | WriteOp(f: nat, at: nat, buf: seq<Byte>) | UnlinkOp(f: nat)

  /** Calls name existing files and write inside or at the end of them. */
  predicate Allowed(v: Volume, op: Op) {
    match op
    case CreateOp(_) => true
    case WriteOp(f, at, buf) => f < |v.files| && v.files[f].File? && at <= |v.files[f].bytes|
    case UnlinkOp(f) => f < |v.files| && v.files[f].File?
  }

  function Apply(v: Volume, op: Op): (v': Volume)
    requires Allowed(v, op) && v.free >= 0
    ensures v'.free >= 0 && |v'.files| == |v.files|
  {
    match op
    case CreateOp(_) => Create(v).0
    case WriteOp(f, at, buf) => WriteSpace(v, f, at, buf); Write(v, f, at, buf).0
    case UnlinkOp(f) => CeilBounds(|v.files[f].bytes|); Unlink(v, f)
  }

  predicate AllowedRun(v: Volume, ops: seq<Op>)
    requires v.free >= 0
    decreases |ops|
  {
    ops == [] || (Allowed(v, ops[0]) && AllowedRun(Apply(v, ops[0]), ops[1..]))
  }

  function Run(v: Volume, ops: seq<Op>): (v': Volume)
    requires v.free >= 0 && AllowedRun(v, ops)
    ensures v'.free >= 0 && |v'.files| == |v.files|
    decreases |ops|
  {
    if ops == [] then v else Run(Apply(v, ops[0]), ops[1..])
  }

  // ---------- space over runs ----------

  function BlocksUsed(files: seq<File>): (n: nat) {
    if files == [] then 0
    else BlocksUsed(files[1..]) + Size(files[0])
  }

  function CeilOf(n: nat): (r: nat) {
    CeilBounds(n);
    CeilDiv(n)
  }

  lemma {:induction false} BlocksUsedUpdate(files: seq<File>, f: nat, x: File)
    requires f < |files|
    ensures BlocksUsed(files[f := x]) - Size(x) == BlocksUsed(files) - Size(files[f])
  {
    if f == 0 {
      assert files[f := x][1..] == files[1..];
    } else {
      BlocksUsedUpdate(files[1..], f - 1, x);
      assert files[f := x][1..] == files[1..][f - 1 := x];
    }
  }

  function Size(x: File): (n: nat) {
    match x case Unused => 0 case File(b) => CeilOf(|b|)
  }

  /** No run gains or loses a block: free blocks plus the blocks the files' sizes call for is constant. */
  lemma {:induction false} RunConserves(v: Volume, ops: seq<Op>)
    requires v.free >= 0 && AllowedRun(v, ops)
    ensures Run(v, ops).free + BlocksUsed(Run(v, ops).files) == v.free + BlocksUsed(v.files)
    decreases |ops|
  {
    if ops != [] {
      ApplyConserves(v, ops[0]);
      RunConserves(Apply(v, ops[0]), ops[1..]);
    }
  }

  lemma ApplyConserves(v: Volume, op: Op)
    requires v.free >= 0 && Allowed(v, op)
    ensures Apply(v, op).free + BlocksUsed(Apply(v, op).files) == v.free + BlocksUsed(v.files)
  {
    match op
    case CreateOp(_) =>
      var i := FirstUnused(v.files, 0);
      if i < |v.files| {
        BlocksUsedUpdate(v.files, i, File([]));
        CeilLeast(0, 0);
      }
    case WriteOp(f, at, buf) =>
      BlocksUsedUpdate(v.files, f, Write(v, f, at, buf).0.files[f]);
    case UnlinkOp(f) =>
      BlocksUsedUpdate(v.files, f, Unused);
  }

  // ---------- one file at a time ----------

  /** The calls that are writes to f are complete. */
  predicate Complete(v: Volume, f: nat, op: Op)
    requires Allowed(v, op) && v.free >= 0
  {
    op.WriteOp? && op.f == f ==> Write(v, op.f, op.at, op.buf).1 == |op.buf|
  }

  predicate CompleteRun(v: Volume, f: nat, ops: seq<Op>)
    requires v.free >= 0 && AllowedRun(v, ops)
    decreases |ops|
  {
    ops == [] || (Complete(v, f, ops[0]) && CompleteRun(Apply(v, ops[0]), f, ops[1..]))
  }

  /** The writes to one file, in order, over its old bytes. */
  function Written(bytes: seq<Byte>, f: nat, ops: seq<Op>): (r: seq<Byte>)
    decreases |ops|
  {
    if ops == [] then bytes
    else if ops[0].WriteOp? && ops[0].f == f && ops[0].at <= |bytes|
      then Written(Overwrite(bytes, ops[0].at, ops[0].buf), f, ops[1..])
    else Written(bytes, f, ops[1..])
  }

  predicate NeverUnlinked(f: nat, ops: seq<Op>) {
    forall i :: 0 <= i < |ops| ==> ops[i] != UnlinkOp(f)
  }

  /** A file's contents depend on the calls to that file alone, whatever happens to the others, writes that
      run out of space included. */
  lemma {:induction false} FilesIndependent(v: Volume, f: nat, ops: seq<Op>)
    requires v.free >= 0 && AllowedRun(v, ops) && CompleteRun(v, f, ops)
    requires f < |v.files| && v.files[f].File? && NeverUnlinked(f, ops)
    ensures Run(v, ops).files[f] == File(Written(v.files[f].bytes, f, ops))
    decreases |ops|
  {
    hide Apply, Write, Overwrite, Complete, Allowed;
    if ops != [] {
      assert ops[0] != UnlinkOp(f);
      OneCall(v, f, ops[0]);
      if ops[0].WriteOp? {
        WriteInside(v, ops[0]);
      }
      FilesIndependent(Apply(v, ops[0]), f, ops[1..]);
    }
  }

  lemma WriteInside(v: Volume, op: Op)
    requires Allowed(v, op) && op.WriteOp?
    ensures op.f < |v.files| && v.files[op.f].File? && op.at <= |v.files[op.f].bytes|
  {
  }

  lemma OneCall(v: Volume, f: nat, op: Op)
    requires v.free >= 0 && Allowed(v, op) && Complete(v, f, op)
    requires f < |v.files| && v.files[f].File? && op != UnlinkOp(f)
    ensures Apply(v, op).files[f] ==
            if op.WriteOp? && op.f == f then File(Overwrite(v.files[f].bytes, op.at, op.buf)) else v.files[f]
  {
    if op.WriteOp? && op.f == f {
      assert op.buf[..|op.buf|] == op.buf;
    }
  }

  // ---------- results ----------

  function Result(v: Volume, op: Op): (r: int)
    requires Allowed(v, op) && v.free >= 0
  {
    match op
    case CreateOp(_) => Create(v).1
    case WriteOp(f, at, buf) => Write(v, f, at, buf).1
    case UnlinkOp(_) => 0
  }

  /** What the calls of a run return, in order. */
  function Results(v: Volume, ops: seq<Op>): (rs: seq<int>)
    requires v.free >= 0 && AllowedRun(v, ops)
    ensures |rs| == |ops|
    decreases |ops|
  {
    if ops == [] then [] else [Result(v, ops[0])] + Results(Apply(v, ops[0]), ops[1..])
  }

  // ---------- where the tail record points ----------

  /** Where it points after a call, told from the outside: an unlink as written leaves it behind inside
      the free chain; writes take the blocks around it; running out of blocks puts it right. */
  function TailAfter(v: Volume, tail: Tail, op: Op): (tail': Tail)
    requires v.free >= 0 && Allowed(v, op)
  {
    match op
    case CreateOp(_) => tail
    case WriteOp(f, _, _) => TailAfterTaking(tail, f, CeilOf(|Bytes(v, f)|), v.free - Apply(v, op).free,
      Apply(v, op).free)
    case UnlinkOp(f) =>
      if Bytes(v, f) == [] then tail else if v.free == 0 then Exact else Inside(v.free - 1)
  }

  function Bytes(v: Volume, f: nat): (bytes: seq<Byte>)
    requires f < |v.files| && v.files[f].File?
  {
    v.files[f].bytes
  }

  /** After file f, of c blocks, has taken n blocks, with `free` left. */
  function TailAfterTaking(tail: Tail, f: nat, c: nat, n: int, free: int): (tail': Tail) {
    if free == 0 then Exact
    else match tail
      case Exact => Exact
      case Inside(p) => if n <= p then Inside(p - n) else if n == p + 1 then EndOf(f) else Buried(f, c + p)
      case EndOf(g) => if g == f && n > 0 && c > 0 then Buried(f, c - 1) else tail
      case Buried(_, _) => tail
  }

  /** Where it points after a run. */
  function TailOver(v: Volume, tail: Tail, ops: seq<Op>): (tail': Tail)
    requires v.free >= 0 && AllowedRun(v, ops)
    decreases |ops|
  {
    if ops == [] then tail else TailOver(Apply(v, ops[0]), TailAfter(v, tail, ops[0]), ops[1..])
  }

  /** An unlink with the record there leaves a sound structure. */
  predicate Safe(v: Volume, tail: Tail, f: nat)
    requires f < |v.files| && v.files[f].File?
  {
    tail.Exact? || (tail.EndOf? && Bytes(v, f) == [])
  }

  /** Every unlink of the run is safe. */
  predicate SafeRun(v: Volume, tail: Tail, ops: seq<Op>)
    requires v.free >= 0
    decreases |ops|
  {
    || ops == []
    || (&& Allowed(v, ops[0]) && (ops[0].UnlinkOp? ==> Safe(v, tail, ops[0].f))
        && SafeRun(Apply(v, ops[0]), TailAfter(v, tail, ops[0]), ops[1..]))
  }

  lemma {:induction false} SafeIsAllowed(v: Volume, tail: Tail, ops: seq<Op>)
    requires v.free >= 0 && SafeRun(v, tail, ops)
    ensures AllowedRun(v, ops)
    decreases |ops|
  {
    if ops != [] {
      SafeIsAllowed(Apply(v, ops[0]), TailAfter(v, tail, ops[0]), ops[1..]);
    }
  }

  /** The condition is exact: an unlink of a run leaves a structure some layout describes if and only if it
      is safe. */
  lemma SafeIff(fs: Fat, l: seq<seq<int>>, tail: Tail, f: nat)
    requires Sound(fs, l) && f < MAX_FILES && fs.root[f].mode != FREE_TYPE && |l| == MAX_FILES + 1
    requires TailIs(fs, l, tail)
    ensures var v := View(fs, l);
      v.files[f].File? && (Safe(v, tail, f) <==> UnlinkSafe(fs, l, f))
    ensures Safe(View(fs, l), tail, f) <==> exists m :: Describes(Unlinked(fs, f), m)
  {
    assert SizeMatches(fs, l, f);
    UnlinkReclaimsIff(fs, l, f);
    EmptyIff(fs, l, f);
    TailLink(fs, l, tail);
    hide Describes, View, SizesMatch, UnusedEmpty, IsChain;
  }

  /** A file without bytes is one without blocks. */
  lemma EmptyIff(fs: Fat, l: seq<seq<int>>, f: nat)
    requires Sound(fs, l) && f < MAX_FILES && fs.root[f].mode != FREE_TYPE
    ensures |l| == MAX_FILES + 1 && View(fs, l).files[f].File?
    ensures |Bytes(View(fs, l), f)| == fs.root[f].size && |l[f]| == CeilOf(fs.root[f].size)
    ensures Bytes(View(fs, l), f) == [] <==> l[f] == []
  {
    SizeInChain(fs, l, f);
    CeilLeast(fs.root[f].size, 0);
  }

  /** A write takes the head of the free chain; the record is found where that leaves it. */
  lemma WriteMovesTail(fs: Fat, l: seq<seq<int>>, f: nat, buffer: seq<Byte>, offset: nat,
                       r: int, fs': Fat, l': seq<seq<int>>, tail: Tail)
    requires Describes(fs, l) && |l| == MAX_FILES + 1 && f < MAX_FILES && |fs.root| == MAX_FILES
    requires WriteEffect(fs, l, f, buffer, offset, r, fs', l') && TailIs(fs, l, tail)
    ensures |l'| == MAX_FILES + 1
    ensures TailIs(fs', l', TailAfterTaking(tail, f, |l[f]|, |l[FREE]| - |l'[FREE]|, |l'[FREE]|))
  {
    hide Describes, BytesAfter, Fitting, Taken;
    WriteParts(fs, l, f, buffer, offset, r, fs', l');
    TakingMovesTail(fs, l, f, fs', l', |l[FREE]| - |l'[FREE]|, tail);
  }

  lemma TakingMovesTail(fs: Fat, l: seq<seq<int>>, f: nat, fs': Fat, l': seq<seq<int>>, n: nat, tail: Tail)
    requires |l| == |l'| == MAX_FILES + 1 && f < MAX_FILES && n <= |l[FREE]| && TailIs(fs, l, tail)
    requires l'[f] == l[f] + l[FREE][..n] && l'[FREE] == l[FREE][n..]
    requires forall g :: 0 <= g < MAX_FILES && g != f ==> l'[g] == l[g]
    requires fs'.lastFree == if l'[FREE] == [] then EOC else fs.lastFree
    ensures TailIs(fs', l', TailAfterTaking(tail, f, |l[f]|, n, |l'[FREE]|))
  {
  }

  /** A safe unlink leaves the record in place, which is no longer the end of the free chain if that grew. */
  lemma UnlinkMovesTail(fs: Fat, l: seq<seq<int>>, tail: Tail, f: nat)
    requires Sound(fs, l) && f < MAX_FILES && fs.root[f].mode != FREE_TYPE && |l| == MAX_FILES + 1
    requires TailIs(fs, l, tail) && Safe(View(fs, l), tail, f)
    ensures var v := View(fs, l);
      v.free >= 0 && TailIs(Unlinked(fs, f), Released(l, f), TailAfter(v, tail, UnlinkOp(f)))
  {
    hide Describes, SizesMatch, UnusedEmpty, IsChain, FileView, Image;
    EmptyIff(fs, l, f);
    Lengths(fs, l);
    FileEnds(fs, l, f);
    ReleasedMovesTail(fs, l, tail, f);
  }

  lemma FileEnds(fs: Fat, l: seq<seq<int>>, f: nat)
    requires Describes(fs, l) && f < MAX_FILES
    ensures fs.root[f].last == Last(l[f]) && (l[FREE] == [] <==> fs.lastFree == EOC)
  {
    assert FileChain(fs, f, l[f]);
  }

  lemma ReleasedMovesTail(fs: Fat, l: seq<seq<int>>, tail: Tail, f: nat)
    requires Shaped(fs) && |l| == MAX_FILES + 1 && f < MAX_FILES && TailIs(fs, l, tail)
    requires (fs.lastFree == EOC <==> l[FREE] == []) && EOC <= fs.lastFree < MAX_BLOCKS
    requires fs.root[f].last == Last(l[f]) && (tail.Exact? || (tail.EndOf? && l[f] == []))
    ensures TailIs(Unlinked(fs, f), Released(l, f),
                   if l[f] == [] then tail else if l[FREE] == [] then Exact else Inside(|l[FREE]| - 1))
  {
    ReleasedAt(l, f);
    assert l[FREE] + [] == l[FREE] && [] + l[f] == l[f];
  }

  lemma ExactIs(fs: Fat, l: seq<seq<int>>)
    requires |l| == MAX_FILES + 1
    ensures TailIs(fs, l, Exact) <==> TailTrue(fs, l)
  {
  }

  // ---------- the code over runs ----------

  /** The code as written, over any run of safe calls: state and results are those of the plain run. */
  method Execute(fs: FatFs, ops: seq<Op>) returns (rs: seq<int>)
    requires Sound(fs.Value(), fs.layout) && TailTrue(fs.Value(), fs.layout)
    requires forall f :: 0 <= f < fs.root.Length ==> fs.root[f].opens == 0
    requires SafeRun(View(fs.Value(), fs.layout), Exact, ops)
    modifies fs, fs.root, fs.links, fs.data
    ensures Sound(fs.Value(), fs.layout)
    ensures AllowedRun(old(View(fs.Value(), fs.layout)), ops)
    ensures View(fs.Value(), fs.layout) == Run(old(View(fs.Value(), fs.layout)), ops)
    ensures rs == Results(old(View(fs.Value(), fs.layout)), ops)
    ensures |fs.layout| == MAX_FILES + 1 && forall f :: 0 <= f < fs.root.Length ==> fs.root[f].opens == 0
    ensures TailIs(fs.Value(), fs.layout, TailOver(old(View(fs.Value(), fs.layout)), Exact, ops))
  {
    hide Describes, UnusedEmpty, SizesMatch, FileView, TailTrue, TailIs, Apply, Result, TailAfter;
    Lengths(fs.Value(), fs.layout);
    ghost var v0, tail := View(fs.Value(), fs.layout), Exact;
    SafeIsAllowed(v0, Exact, ops);
    ExactIs(fs.Value(), fs.layout);
    assert ops[0..] == ops;
    rs := [];
    for i := 0 to |ops|
      invariant Sound(fs.Value(), fs.layout) && |fs.layout| == MAX_FILES + 1
      invariant TailIs(fs.Value(), fs.layout, tail)
      invariant forall f :: 0 <= f < fs.root.Length ==> fs.root[f].opens == 0
      invariant View(fs.Value(), fs.layout).free >= 0 && SafeRun(View(fs.Value(), fs.layout), tail, ops[i..])
      invariant AllowedRun(View(fs.Value(), fs.layout), ops[i..])
      invariant Run(View(fs.Value(), fs.layout), ops[i..]) == Run(v0, ops)
      invariant TailOver(View(fs.Value(), fs.layout), tail, ops[i..]) == TailOver(v0, Exact, ops)
      invariant rs + Results(View(fs.Value(), fs.layout), ops[i..]) == Results(v0, ops)
    {
      ghost var v := View(fs.Value(), fs.layout);
      var r;
      r, tail := Perform(fs, ops[i], tail);
      rs := rs + [r];
      assert ops[i..][1..] == ops[i + 1..];
    }
  }

  /** The same for every allowed run, with unlinks that keep the tail record. */
  method ExecuteWithTail(fs: FatFs, ops: seq<Op>) returns (rs: seq<int>)
    requires Sound(fs.Value(), fs.layout) && TailTrue(fs.Value(), fs.layout)
    requires forall f :: 0 <= f < fs.root.Length ==> fs.root[f].opens == 0
    requires View(fs.Value(), fs.layout).free >= 0 && AllowedRun(View(fs.Value(), fs.layout), ops)
    modifies fs, fs.root, fs.links, fs.data
    ensures Sound(fs.Value(), fs.layout) && TailTrue(fs.Value(), fs.layout)
    ensures View(fs.Value(), fs.layout) == Run(old(View(fs.Value(), fs.layout)), ops)
    ensures rs == Results(old(View(fs.Value(), fs.layout)), ops)
  {
    hide Describes, UnusedEmpty, SizesMatch, FileView, Apply, Result;
    Lengths(fs.Value(), fs.layout);
    ghost var v0 := View(fs.Value(), fs.layout);
    assert ops[0..] == ops;
    rs := [];
    for i := 0 to |ops|
      invariant Sound(fs.Value(), fs.layout) && |fs.layout| == MAX_FILES + 1 && TailTrue(fs.Value(), fs.layout)
      invariant forall f :: 0 <= f < fs.root.Length ==> fs.root[f].opens == 0
      invariant View(fs.Value(), fs.layout).free >= 0 && AllowedRun(View(fs.Value(), fs.layout), ops[i..])
      invariant Run(View(fs.Value(), fs.layout), ops[i..]) == Run(v0, ops)
      invariant rs + Results(View(fs.Value(), fs.layout), ops[i..]) == Results(v0, ops)
    {
      assert ops[i..][1..] == ops[i + 1..];
      var r;
      if ops[i].UnlinkOp? {
        r := PerformUnlink(fs, ops[i]);
      } else {
        ghost var tail;
        r, tail := Perform(fs, ops[i], Exact);
        assert tail == Exact;
      }
      rs := rs + [r];
    }
  }

  method PerformUnlink(fs: FatFs, op: Op) returns (r: int)
    requires Sound(fs.Value(), fs.layout) && |fs.layout| == MAX_FILES + 1 && TailTrue(fs.Value(), fs.layout)
    requires forall f :: 0 <= f < fs.root.Length ==> fs.root[f].opens == 0
    requires var v := View(fs.Value(), fs.layout); v.free >= 0 && Allowed(v, op) && op.UnlinkOp?
    modifies fs, fs.root, fs.links, fs.data
    ensures Sound(fs.Value(), fs.layout) && |fs.layout| == MAX_FILES + 1 && TailTrue(fs.Value(), fs.layout)
    ensures forall f :: 0 <= f < fs.root.Length ==> fs.root[f].opens == 0
    ensures View(fs.Value(), fs.layout) == Apply(old(View(fs.Value(), fs.layout)), op)
    ensures r == Result(old(View(fs.Value(), fs.layout)), op)
  {
    hide Describes, UnusedEmpty, Unlink;
    ghost var was := fs.Value();
    Lengths(was, fs.layout);
    r := fs.UnlinkWithTail(op.f);
    Lengths(fs.Value(), fs.layout);
    OpensZero(was.root, fs.root[..]);
  }

  method Perform(fs: FatFs, op: Op, ghost tail: Tail) returns (r: int, ghost tail': Tail)
    requires Sound(fs.Value(), fs.layout) && |fs.layout| == MAX_FILES + 1
    requires TailIs(fs.Value(), fs.layout, tail)
    requires forall f :: 0 <= f < fs.root.Length ==> fs.root[f].opens == 0
    requires var v := View(fs.Value(), fs.layout);
      v.free >= 0 && Allowed(v, op) && (op.UnlinkOp? ==> Safe(v, tail, op.f))
    modifies fs, fs.root, fs.links, fs.data
    ensures Sound(fs.Value(), fs.layout) && |fs.layout| == MAX_FILES + 1
    ensures forall f :: 0 <= f < fs.root.Length ==> fs.root[f].opens == 0
    ensures View(fs.Value(), fs.layout) == Apply(old(View(fs.Value(), fs.layout)), op)
    ensures r == Result(old(View(fs.Value(), fs.layout)), op)
    ensures tail' == TailAfter(old(View(fs.Value(), fs.layout)), tail, op)
    ensures TailIs(fs.Value(), fs.layout, tail')
  {
    hide Describes, UnusedEmpty, WriteEffect, Write, Unlink, Create, Linked, Threaded, TailTrue, Safe, UnlinkSafe;
    ghost var was, l := fs.Value(), fs.layout;
    Lengths(was, l);
    DescribedLinked(was, l);
    tail' := TailAfter(View(was, l), tail, op);
    match op
    case CreateOp(flags) =>
      r := fs.Create(flags);
    case WriteOp(f, at, buf) =>
      r := fs.Write(f, buf, at);
      EmptyIff(was, l, f);
      WriteRefines(was, l, f, buf, at, r, fs.Value(), fs.layout);
      WriteMovesTail(was, l, f, buf, at, r, fs.Value(), fs.layout, tail);
    case UnlinkOp(f) =>
      assert SizeMatches(was, l, f);
      SafeIff(was, l, tail, f);
      r := fs.Unlink(f);
      UnlinkRefines(was, l, f);
      UnlinkMovesTail(was, l, tail, f);
  }

  lemma OpensZero(root: seq<DirEntry>, root': seq<DirEntry>)
    requires |root| == |root'|
    requires Opens(root) == Opens(root') || forall f :: 0 <= f < |root| ==> root'[f].opens == root[f].opens
    requires forall f :: 0 <= f < |root| ==> root[f].opens == 0
    ensures forall f :: 0 <= f < |root| ==> root'[f].opens == 0
  {
    assert Opens(root) == Opens(root') ==>
      forall f :: 0 <= f < |root| ==> Opens(root)[f] == root[f].opens && Opens(root')[f] == root'[f].opens;
  }

  // ---------- from formatting on ----------

  function EmptyVolume(): (v: Volume)
    ensures v.free >= 0 && |v.files| == MAX_FILES
  {
    Volume(seq(MAX_FILES, _ => Unused), MAX_BLOCKS)
  }

  lemma FormattedView(fs: Fat)
    requires Sound(fs, FormattedLayout())
    requires forall f :: 0 <= f < |fs.root| ==> fs.root[f].mode == FREE_TYPE
    ensures View(fs, FormattedLayout()) == EmptyVolume()
  {
    hide Describes, SizesMatch, UnusedEmpty;
    SoundParts(fs, FormattedLayout());
    assert FormattedLayout()[FREE] == Iota(MAX_BLOCKS);
    assert View(fs, FormattedLayout()).files == EmptyVolume().files;
  }

  /** Creates and writes leave nothing to beware of. */
  lemma {:induction false} NoUnlinkIsSafe(v: Volume, tail: Tail, ops: seq<Op>)
    requires v.free >= 0 && AllowedRun(v, ops) && forall i :: 0 <= i < |ops| ==> !ops[i].UnlinkOp?
    ensures SafeRun(v, tail, ops)
    decreases |ops|
  {
    if ops != [] {
      NoUnlinkIsSafe(Apply(v, ops[0]), TailAfter(v, tail, ops[0]), ops[1..]);
    }
  }

  /** Format, run any calls, read: the code as written returns exactly the bytes the plain volume holds
      there, whatever blocks they ended up in. */
  method ReadAfterRun(ops: seq<Op>, file: int, at: int, count: int) returns (r: int, out: seq<Byte>)
    requires SafeRun(EmptyVolume(), Exact, ops) && 0 <= file < MAX_FILES && at >= 0 && count >= 0
    ensures AllowedRun(EmptyVolume(), ops)
    ensures Run(EmptyVolume(), ops).files[file].File? ==>
              out == Read(Run(EmptyVolume(), ops), file, at, count) && r == |out|
  {
    hide Describes, UnusedEmpty, SizesMatch, FileView, TailTrue, Apply, Read;
    SafeIsAllowed(EmptyVolume(), Exact, ops);
    var fs := new FatFs.Init();
    FormattedView(fs.Value());
    var _ := Execute(fs, ops);
    Lengths(fs.Value(), fs.layout);
    DescribedLinked(fs.Value(), fs.layout);
    ghost var now := fs.Value();
    r, out := fs.Read(file, at, count);
    if now.root[file].mode != FREE_TYPE {
      ReadRefines(now, fs.layout, file, at, count);
    } else {
      UnusedView(now, fs.layout, file);
    }
  }

  lemma UnusedView(fs: Fat, l: seq<seq<int>>, f: nat)
    requires Sound(fs, l) && f < MAX_FILES && |fs.root| == MAX_FILES && fs.root[f].mode == FREE_TYPE
    ensures View(fs, l).files[f] == Unused
  {
  }

  // ---------- the code as written, on any calls at all ----------

  /** Calls that only name a directory entry: it need not be in use, and writes may start anywhere. */
  predicate Named(op: Op) {
    match op
    case CreateOp(_) => true
    case WriteOp(f, _, _) => f < MAX_FILES
    case UnlinkOp(f) => f < MAX_FILES
  }

  /** Whatever calls are made, unlinks with a stale record and writes beyond the end included: every
      access stays in range, every walk of the code ends, and no two files ever share a block. */
  method ExecuteAny(fs: FatFs, ops: seq<Op>) returns (rs: seq<int>)
    requires fs.Valid() && forall i :: 0 <= i < |ops| ==> Named(ops[i])
    modifies fs, fs.root, fs.links, fs.data
    ensures fs.Valid() && Separate(fs.layout) && |rs| == |ops|
  {
    hide Linked, Threaded, Separate, IsChain, Describes;
    rs := [];
    for i := 0 to |ops|
      invariant fs.Valid() && |rs| == i
    {
      var r;
      match ops[i] {
        case CreateOp(flags) => r := fs.Create(flags);
        case WriteOp(f, at, buf) => r := fs.Write(f, buf, at);
        case UnlinkOp(f) => r := fs.Unlink(f);
      }
      rs := rs + [r];
    }
    ChainsSeparate(fs.Value(), fs.layout);
  }
}
