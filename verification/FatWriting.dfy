/** The loop of fat_write, block by block: what holds after k rounds, and why one more round keeps it. */
module FatWriting {
  import opened Sequences
  import opened FatLayout
  import opened FatSpec

  // ---------- where the loop is ----------

  /** After k rounds over a write of count bytes that starts `at` bytes into its first block. */
  predicate Position(at: nat, count: nat, k: nat, done: nat) {
    && done <= count
    && (if k == 0 then done == 0 else 0 < done && (k - 1) * BLOCK_SIZE < at + done <= k * BLOCK_SIZE)
    && (0 < k && done < count ==> at + done == k * BLOCK_SIZE)
  }

  /** The bytes one round stores. */
  function ChunkSize(at: nat, count: nat, k: nat, done: nat): (n: int) {
    Min(count - done, BLOCK_SIZE - (if k == 0 then at else 0))
  }

  lemma NextPosition(at: nat, count: nat, k: nat, done: nat)
    requires at < BLOCK_SIZE && Position(at, count, k, done) && done < count
    ensures 0 < ChunkSize(at, count, k, done)
    ensures Position(at, count, k + 1, done + ChunkSize(at, count, k, done))
  {
    assert (k + 1) * BLOCK_SIZE == k * BLOCK_SIZE + BLOCK_SIZE;
  }

  /** Leaving the loop, finished or out of blocks, with everything that fits stored. */
  lemma LastPosition(at: nat, count: nat, k: nat, done: nat, blocks: nat)
    requires at < BLOCK_SIZE && Position(at, count, k, done) && k <= blocks
    requires done == count || k == blocks
    ensures done == Min(count, Max(0, blocks * BLOCK_SIZE - at))
    ensures k > 0 ==> CeilDiv(at + done) == k && at + done <= blocks * BLOCK_SIZE
  {
    assert k * BLOCK_SIZE <= blocks * BLOCK_SIZE;
    if k > 0 {
      CeilIs(at + done, k);
    }
  }

  // ---------- which block is next ----------

  lemma NextBlock(l: seq<seq<int>>, f: nat, offset: nat, k: nat, m: seq<seq<int>>)
    requires |l| == MAX_FILES + 1 && f < MAX_FILES && k <= |Target(l, f, offset)|
    requires k - Reusable(|l[f]|, offset) <= |l[FREE]|
    requires m == Grown(l, f, Max(0, k - Reusable(|l[f]|, offset)))
    requires forall x :: x in l[f] ==> 0 <= x
    ensures var base, target := Reusable(|l[f]|, offset), Target(l, f, offset);
      var found := At(m[f], BlockOf(offset) + k);
      && (k < base ==> k < |target| && found == target[k] && found != EOC && m == l)
      && (k >= base ==> found == EOC)
      && (k >= base && m[FREE] == [] ==> k == |target|)
      && (k >= base && m[FREE] != [] ==> k < |target| && m[FREE][0] == target[k])
  {
    var base, c := Reusable(|l[f]|, offset), |l[f]|;
    if k < base {
      GrownZero(l, f);
      assert l[f][c - base..][k] == l[f][c - base + k];
      assert l[f][c - base + k] in l[f];
    } else {
      assert |m[f]| == c + k - base;
    }
  }

  lemma GrownZero(l: seq<seq<int>>, f: nat)
    requires |l| == MAX_FILES + 1 && f < MAX_FILES
    ensures Grown(l, f, 0) == l
  {
    assert l[f] + l[FREE][..0] == l[f] && l[FREE][0..] == l[FREE];
  }

  // ---------- what has been stored ----------

  lemma TargetFacts(data: seq<seq<Byte>>, l: seq<seq<int>>, f: nat, offset: nat)
    requires |l| == MAX_FILES + 1 && Partition(l, MAX_BLOCKS) && f < MAX_FILES
    requires |data| == MAX_BLOCKS && forall b :: 0 <= b < MAX_BLOCKS ==> |data[b]| == BLOCK_SIZE
    ensures BlocksIn(data, Target(l, f, offset)) && NoDup(Target(l, f, offset))
  {
    var kept := l[f][|l[f]| - Reusable(|l[f]|, offset)..];
    assert forall x :: x in kept ==> x in l[f];
    ConcatNoDup(kept, l[FREE]);
    var target := Target(l, f, offset);
    forall i | 0 <= i < |target| ensures 0 <= target[i] < MAX_BLOCKS {
      assert target[i] in if i < |kept| then l[f] else l[FREE];
    }
  }

  /** One round of read-modify-write extends the spliced range by its chunk. */
  lemma RoundBytes(data: seq<seq<Byte>>, data1: seq<seq<Byte>>, target: seq<int>, at: nat,
                   buffer: seq<Byte>, k: nat, done: nat)
    requires NoDup(target) && k < |target| && at < BLOCK_SIZE
    requires Position(at, |buffer|, k, done) && done < |buffer|
    requires BytesAfter(data, data1, target, at, buffer[..done])
    ensures var b, here := target[k], if k == 0 then at else 0;
      var n := ChunkSize(at, |buffer|, k, done);
      && 0 <= b < |data1| && here + n <= |data1[b]| && done + n <= |buffer| && n > 0
      && BytesAfter(data, data1[b := Splice(data1[b], here, buffer[done..done + n])], target, at, buffer[..done + n])
  {
    hide Position, ChunkSize, NoDup, Image, Splice;
    RoundPlace(at, |buffer|, k, done);
    var here, n := if k == 0 then at else 0, ChunkSize(at, |buffer|, k, done);
    var chunk := buffer[done..done + n];
    ImageUpdate(data1, target, k, here, chunk);
    assert buffer[..done + n] == buffer[..done] + chunk;
    if done == 0 {
      assert buffer[..done] + chunk == chunk;
    } else {
      SpliceTwice(Image(data, target), at, buffer[..done], chunk);
    }
  }

  /** The next chunk starts, in its block, right behind the bytes stored so far. */
  lemma RoundPlace(at: nat, count: nat, k: nat, done: nat)
    requires at < BLOCK_SIZE && Position(at, count, k, done) && done < count
    ensures var here, n := if k == 0 then at else 0, ChunkSize(at, count, k, done);
      n > 0 && here + n <= BLOCK_SIZE && done + n <= count && k * BLOCK_SIZE + here == at + done
    ensures k == 0 <==> done == 0
  {
    NextPosition(at, count, k, done);
  }

  lemma EntryResized(v: Fat, m: seq<seq<int>>, f: nat, size: int)
    requires Describes(v, m) && f < MAX_FILES && size >= 0
    ensures Describes(v.(root := v.root[f := v.root[f].(size := size)]), m)
  {
    var v' := v.(root := v.root[f := v.root[f].(size := size)]);
    forall g | 0 <= g < MAX_FILES ensures FileChain(v', g, m[g]) {
      assert FileChain(v, g, m[g]);
    }
  }

  lemma BlockRewritten(v: Fat, m: seq<seq<int>>, b: nat, block: seq<Byte>)
    requires Describes(v, m) && b < MAX_BLOCKS && |block| == BLOCK_SIZE
    ensures Describes(v.(data := v.data[b := block]), m)
  {
    forall g | 0 <= g < MAX_FILES ensures FileChain(v.(data := v.data[b := block]), g, m[g]) {
      assert FileChain(v, g, m[g]);
    }
  }

  // ---------- the loop invariant ----------

  /** After k rounds that stored `done` bytes, starting from (fs, l), the state is (now, m). */
  predicate Progress(fs: Fat, l: seq<seq<int>>, f: nat, buffer: seq<Byte>, offset: nat,
                     k: nat, done: nat, now: Fat, m: seq<seq<int>>)
    requires |l| == MAX_FILES + 1 && f < MAX_FILES && |fs.root| == MAX_FILES
  {
    var base, at := Reusable(|l[f]|, offset), Within(offset);
    && k <= |Target(l, f, offset)| && Position(at, |buffer|, k, done)
    && k - base <= |l[FREE]| && m == Grown(l, f, Max(0, k - base))
    && Describes(now, m)
    && now.lastFree == (if m[FREE] == [] then EOC else fs.lastFree)
    && EntriesAfter(fs.root, now.root, f, offset, done)
    && BytesAfter(fs.data, now.data, Target(l, f, offset), at, buffer[..done])
  }

  lemma ProgressStart(fs: Fat, l: seq<seq<int>>, f: nat, buffer: seq<Byte>, offset: nat)
    requires Describes(fs, l) && f < MAX_FILES
    ensures |l| == MAX_FILES + 1 && |fs.root| == MAX_FILES
    ensures Progress(fs, l, f, buffer, offset, 0, 0, fs, l)
  {
    TargetFacts(fs.data, l, f, offset);
    GrownZero(l, f);
  }

  /** The state in which one round leaves the system, given the block it writes. */
  function AfterRound(v: Fat, f: nat, block: nat, here: nat, chunk: seq<Byte>, end: int): (fs': Fat)
    requires f < |v.root| && block < |v.data| && here + |chunk| <= |v.data[block]|
  {
    v.(data := v.data[block := Splice(v.data[block], here, chunk)],
       root := v.root[f := v.root[f].(size := Max(v.root[f].size, end))])
  }

  /** What the invariant says about the layout and the position. */
  lemma ProgressParts(fs: Fat, l: seq<seq<int>>, f: nat, buffer: seq<Byte>, offset: nat,
                      k: nat, done: nat, now: Fat, m: seq<seq<int>>)
    requires |l| == MAX_FILES + 1 && f < MAX_FILES && |fs.root| == MAX_FILES
    requires Progress(fs, l, f, buffer, offset, k, done, now, m)
    ensures |m| == MAX_FILES + 1 && Describes(now, m) && 0 <= Within(offset) < BLOCK_SIZE
    ensures k <= |Target(l, f, offset)| && Position(Within(offset), |buffer|, k, done)
    ensures k - Reusable(|l[f]|, offset) <= |l[FREE]| && m == Grown(l, f, Max(0, k - Reusable(|l[f]|, offset)))
    ensures now.lastFree == (if m[FREE] == [] then EOC else fs.lastFree)
    ensures EntriesAfter(fs.root, now.root, f, offset, done)
    ensures BytesAfter(fs.data, now.data, Target(l, f, offset), Within(offset), buffer[..done])
  {
    hide BytesAfter, EntriesAfter, IsChain, Partition;
  }

  lemma ChainNonNegative(fs: Fat, l: seq<seq<int>>, f: nat)
    requires Describes(fs, l) && f < MAX_FILES
    ensures |l| == MAX_FILES + 1 && forall x :: x in l[f] ==> 0 <= x
  {
  }

  lemma TargetRange(fs: Fat, l: seq<seq<int>>, f: nat, offset: nat)
    requires Describes(fs, l) && f < MAX_FILES
    ensures |l| == MAX_FILES + 1 && NoDup(Target(l, f, offset))
    ensures forall i :: 0 <= i < |Target(l, f, offset)| ==> 0 <= Target(l, f, offset)[i] < MAX_BLOCKS
  {
    TargetFacts(fs.data, l, f, offset);
  }

  /** One round keeps the invariant. */
  lemma ProgressStep(fs: Fat, l: seq<seq<int>>, f: nat, buffer: seq<Byte>, offset: nat,
                     k: nat, done: nat, v1: Fat, m1: seq<seq<int>>, v2: Fat, m2: seq<seq<int>>,
                     block: nat, here: nat, n: nat)
    requires |l| == MAX_FILES + 1 && f < MAX_FILES && |fs.root| == MAX_FILES
    requires Progress(fs, l, f, buffer, offset, k, done, v1, m1) && done < |buffer|
    requires NoDup(Target(l, f, offset)) && k < |Target(l, f, offset)| && block == Target(l, f, offset)[k]
    requires block < MAX_BLOCKS && |v1.root| == |v2.root| == MAX_FILES && |m1| == |m2| == MAX_FILES + 1
    requires Describes(v2, m2) && v2.data == v1.data && EntriesAfter(v1.root, v2.root, f, offset, 0)
    requires if k < Reusable(|l[f]|, offset) then m2 == m1 && v2.lastFree == v1.lastFree
             else m1[FREE] != [] && m2 == Grown(m1, f, 1) && v2.lastFree == if m2[FREE] == [] then EOC else v1.lastFree
    requires here == (if k == 0 then Within(offset) else 0)
    requires n == ChunkSize(Within(offset), |buffer|, k, done)
    requires |v2.data| == MAX_BLOCKS && here + n <= |v2.data[block]| == BLOCK_SIZE && done + n <= |buffer|
    ensures Progress(fs, l, f, buffer, offset, k + 1, done + n,
                     AfterRound(v2, f, block, here, buffer[done..done + n], offset + done + n), m2)
  {
    hide Describes, BytesAfter, Splice, Target, NoDup, Shaped, Reusable;
    var at, chunk := Within(offset), buffer[done..done + n];
    ProgressParts(fs, l, f, buffer, offset, k, done, v1, m1);
    NextPosition(at, |buffer|, k, done);
    RoundBytes(fs.data, v1.data, Target(l, f, offset), at, buffer, k, done);
    RoundDescribes(v2, m2, f, block, here, chunk, offset + done + n);
    if k >= Reusable(|l[f]|, offset) {
      GrownTwice(l, f, k - Reusable(|l[f]|, offset));
    }
  }

  lemma RoundSizes(v: Fat, m: seq<seq<int>>, block: nat, offset: nat, count: nat, k: nat, done: nat, here: nat, n: nat)
    requires Describes(v, m) && block < MAX_BLOCKS && done < count
    requires here == (if k == 0 then Within(offset) else 0)
    requires n == ChunkSize(Within(offset), count, k, done)
    ensures |v.data| == MAX_BLOCKS && |v.root| == MAX_FILES
    ensures here + n <= |v.data[block]| == BLOCK_SIZE && done + n <= count
  {
  }

  lemma RoundDescribes(v: Fat, m: seq<seq<int>>, f: nat, block: nat, here: nat, chunk: seq<Byte>, end: int)
    requires Describes(v, m) && f < MAX_FILES && block < MAX_BLOCKS && here + |chunk| <= BLOCK_SIZE
    ensures Describes(AfterRound(v, f, block, here, chunk, end), m)
  {
    BlockRewritten(v, m, block, Splice(v.data[block], here, chunk));
    EntryResized(v.(data := v.data[block := Splice(v.data[block], here, chunk)]), m, f, Max(v.root[f].size, end));
  }

  /** The block for the next round: found on the file's chain, or freshly taken for it. */
  predicate BlockObtained(v1: Fat, m1: seq<seq<int>>, f: nat, logicBlock: nat, block: int, v2: Fat, m2: seq<seq<int>>)
    requires |m1| == MAX_FILES + 1 && f < MAX_FILES && |v1.root| == MAX_FILES
  {
    && Describes(v2, m2)
    && if At(m1[f], logicBlock) != EOC then block == At(m1[f], logicBlock) && v2 == v1 && m2 == m1
       else
         && m1[FREE] != [] && block == m1[FREE][0] && m2 == Grown(m1, f, 1)
         && v2.data == v1.data && EntriesAfter(v1.root, v2.root, f, 0, 0)
         && v2.lastFree == (if m2[FREE] == [] then EOC else v1.lastFree)
  }

  /** One full round: whichever way the block was obtained, storing the next chunk in it keeps the
      invariant. */
  lemma Round(fs: Fat, l: seq<seq<int>>, f: nat, buffer: seq<Byte>, offset: nat, k: nat, done: nat,
              v1: Fat, m1: seq<seq<int>>, block: int, v2: Fat, m2: seq<seq<int>>, here: nat, n: nat)
    requires Describes(fs, l) && f < MAX_FILES && |v1.root| == MAX_FILES && |m1| == MAX_FILES + 1
    requires |l| == MAX_FILES + 1 && |fs.root| == MAX_FILES
    requires Progress(fs, l, f, buffer, offset, k, done, v1, m1) && done < |buffer|
    requires BlockObtained(v1, m1, f, BlockOf(offset) + k, block, v2, m2)
    requires here == (if k == 0 then Within(offset) else 0)
    requires n == ChunkSize(Within(offset), |buffer|, k, done)
    ensures |v2.data| == MAX_BLOCKS && |v2.root| == MAX_FILES && 0 <= block < MAX_BLOCKS
    ensures here + n <= |v2.data[block]| && done + n <= |buffer| && 0 < n
    ensures Progress(fs, l, f, buffer, offset, k + 1, done + n,
                     AfterRound(v2, f, block, here, buffer[done..done + n], offset + done + n), m2)
  {
    ChainNonNegative(fs, l, f);
    TargetRange(fs, l, f, offset);
    hide Describes, BytesAfter, Splice, Target, NoDup, Progress, AfterRound, Reusable, BlockOf, Within;
    ProgressParts(fs, l, f, buffer, offset, k, done, v1, m1);
    NextBlock(l, f, offset, k, m1);
    NextPosition(Within(offset), |buffer|, k, done);
    RoundSizes(v2, m2, block, offset, |buffer|, k, done, here, n);
    ProgressStep(fs, l, f, buffer, offset, k, done, v1, m1, v2, m2, block, here, n);
  }

  /** No block on either chain: the target is exhausted. */
  lemma NoRound(fs: Fat, l: seq<seq<int>>, f: nat, buffer: seq<Byte>, offset: nat, k: nat, done: nat,
                now: Fat, m: seq<seq<int>>)
    requires Describes(fs, l) && f < MAX_FILES && |m| == MAX_FILES + 1
    requires |l| == MAX_FILES + 1 && |fs.root| == MAX_FILES
    requires Progress(fs, l, f, buffer, offset, k, done, now, m)
    requires At(m[f], BlockOf(offset) + k) == EOC && m[FREE] == []
    ensures k == |Target(l, f, offset)|
  {
    ChainNonNegative(fs, l, f);
    hide Describes, BytesAfter, Target, Progress, Reusable, BlockOf, Within;
    ProgressParts(fs, l, f, buffer, offset, k, done, now, m);
    NextBlock(l, f, offset, k, m);
  }

  /** Leaving the loop is the promised effect. */
  lemma ProgressEnd(fs: Fat, l: seq<seq<int>>, f: nat, buffer: seq<Byte>, offset: nat,
                    k: nat, done: nat, now: Fat, m: seq<seq<int>>)
    requires |l| == MAX_FILES + 1 && f < MAX_FILES && |fs.root| == MAX_FILES
    requires Progress(fs, l, f, buffer, offset, k, done, now, m)
    requires done == |buffer| || k == |Target(l, f, offset)|
    ensures WriteEffect(fs, l, f, buffer, offset, if done == |buffer| then done else -ENOSPC, now, m)
  {
    hide Describes, BytesAfter, EntriesAfter, Grown, Fitting, Taken, Target, Position;
    TargetLength(l, f, offset);
    EndCounts(|l[f]|, |l[FREE]|, offset, |buffer|, k, done);
  }

  lemma TargetLength(l: seq<seq<int>>, f: nat, offset: nat)
    requires |l| == MAX_FILES + 1 && f < MAX_FILES
    ensures |Target(l, f, offset)| == Reusable(|l[f]|, offset) + |l[FREE]|
  {
  }

  lemma EndCounts(c: nat, free: nat, offset: nat, count: nat, k: nat, done: nat)
    requires Position(Within(offset), count, k, done) && k <= Reusable(c, offset) + free
    requires done == count || k == Reusable(c, offset) + free
    ensures done == Fitting(c, free, offset, count)
    ensures Max(0, k - Reusable(c, offset)) == Taken(c, free, offset, count)
  {
    hide CeilDiv;
    LastPosition(Within(offset), count, k, done, Reusable(c, offset) + free);
  }
}
