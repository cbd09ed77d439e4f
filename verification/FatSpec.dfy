/** What fat.c's operations do to the value of the file system, for every input: which blocks move,
    which bytes change, and when the structure survives. */
module FatSpec {
  import opened Sequences
  import opened FatLayout

  function Min(a: int, b: int): (r: int) { if a <= b then a else b }
  function Max(a: int, b: int): (r: int) { if a >= b then a else b }

  // ---------- taking a block ----------

  /** The layout after the head of the free chain has moved to the tail of file f, n times. */
  function Grown(l: seq<seq<int>>, f: nat, n: nat): (r: seq<seq<int>>)
    requires |l| == MAX_FILES + 1 && f < MAX_FILES && n <= |l[FREE]|
    ensures |r| == |l|
  {
    l[f := l[f] + l[FREE][..n]][FREE := l[FREE][n..]]
  }

  /** The links and entries after one block moved, as the pointer assignments leave them. */
  function BlockAdded(fs: Fat, f: nat): (fs': Fat)
    requires Shaped(fs) && f < MAX_FILES && 0 <= fs.firstFree < MAX_BLOCKS
    requires fs.root[f].first == EOC || 0 <= fs.root[f].last < MAX_BLOCKS
  {
    var b, e := fs.firstFree, fs.root[f];
    var joined := if e.first == EOC then fs.links else fs.links[e.last := b];
    fs.(root := fs.root[f := if e.first == EOC then e.(first := b, last := b) else e.(last := b)],
        firstFree := joined[b],
        lastFree := if joined[b] == EOC then EOC else fs.lastFree,
        links := joined[b := EOC],
        used := fs.used + 1, freeCount := fs.freeCount - 1)
  }

  /** Moving one block keeps the state well-formed, and keeps a true tail true. */
  lemma AddBlockDescribes(fs: Fat, l: seq<seq<int>>, f: nat)
    requires Describes(fs, l) && f < MAX_FILES && l[FREE] != []
    ensures fs.firstFree == l[FREE][0]
    ensures fs.root[f].first == EOC <==> l[f] == []
    ensures Describes(BlockAdded(fs, f), Grown(l, f, 1))
    ensures TailTrue(fs, l) ==> TailTrue(BlockAdded(fs, f), Grown(l, f, 1))
  {
    assert FileChain(fs, f, l[f]);
    var fs', l', b := BlockAdded(fs, f), Grown(l, f, 1), l[FREE][0];
    assert l[FREE][..1] == [b] && Without(l[FREE], b) == l[FREE][1..];
    assert l' == ToTail(l, b, FREE, f);
    ToTailPartition(l, MAX_BLOCKS, b, FREE, f);
    forall g | 0 <= g < MAX_FILES ensures FileChain(fs', g, l'[g]) {
      assert FileChain(fs, g, l[g]);
      if g != f {
        OtherChain(fs, l, f, g, fs'.links);
      } else {
        FileGrows(fs.links, fs.root[f].first, l[f], b);
      }
    }
    FreeShrinks(fs, l, f, fs'.links);
  }

  lemma OtherChain(fs: Fat, l: seq<seq<int>>, f: nat, g: nat, links': seq<int>)
    requires Describes(fs, l) && f < MAX_FILES && g < MAX_FILES && g != f && l[FREE] != []
    requires |links'| == MAX_BLOCKS
    requires forall x :: 0 <= x < MAX_BLOCKS && x != l[FREE][0] && x !in l[f] ==> links'[x] == fs.links[x]
    ensures IsChain(links', fs.root[g].first, l[g])
  {
    assert FileChain(fs, g, l[g]) && l[FREE][0] in l[FREE];
    forall i | 0 <= i < |l[g]| ensures links'[l[g][i]] == At(l[g], i + 1) {
      assert l[g][i] in l[g];
    }
  }

  lemma FileGrows(links: seq<int>, h: int, c: seq<int>, b: int)
    requires IsChain(links, h, c) && NoDup(c) && 0 <= b < |links| && b !in c
    ensures c == [] ==> IsChain(links[b := EOC], b, [b])
    ensures c != [] ==> IsChain(links[Last(c) := b][b := EOC], h, c + [b])
  {
    if c != [] {
      var ended := links[b := EOC];
      forall i | 0 <= i < |c| ensures ended[c[i]] == At(c, i + 1) {
        assert c[i] in c;
      }
      ChainJoin(ended, h, c, b, [b]);
      assert ended[Last(c) := b] == links[Last(c) := b][b := EOC];
    }
  }

  lemma FreeShrinks(fs: Fat, l: seq<seq<int>>, f: nat, links': seq<int>)
    requires Describes(fs, l) && f < MAX_FILES && l[FREE] != [] && |links'| == MAX_BLOCKS
    requires forall x :: 0 <= x < MAX_BLOCKS && x != l[FREE][0] && x !in l[f] ==> links'[x] == fs.links[x]
    ensures IsChain(links', fs.links[l[FREE][0]], l[FREE][1..])
  {
    var c := l[FREE];
    ChainTail(fs.links, fs.firstFree, c);
    forall i | 0 <= i < |c[1..]| ensures links'[c[1..][i]] == At(c[1..], i + 1) {
      assert c[1..][i] == c[i + 1] && c[i + 1] in c;
    }
  }

  lemma GrownTwice(l: seq<seq<int>>, f: nat, n: nat)
    requires |l| == MAX_FILES + 1 && f < MAX_FILES && n < |l[FREE]|
    ensures Grown(Grown(l, f, n), f, 1) == Grown(l, f, n + 1)
  {
    var m := Grown(l, f, n);
    assert m[FREE][..1] == [l[FREE][n]] && m[FREE][1..] == l[FREE][n+1..];
    assert l[FREE][..n+1] == l[FREE][..n] + m[FREE][..1];
    assert m[f] + m[FREE][..1] == l[f] + l[FREE][..n+1];
  }

  // ---------- writing ----------

  /** How many blocks of a chain of c blocks a write at this offset can reuse: none when the offset
      lies more than one block past the end, because there the search reports the end as well. */
  function Reusable(c: nat, offset: nat): (n: nat) {
    if BlockOf(offset) <= c then c - BlockOf(offset) else 0
  }

  /** How many of the count bytes find room. */
  function Fitting(c: nat, free: nat, offset: nat, count: nat): (n: nat)
    ensures n <= count
  {
    Min(count, Max(0, (Reusable(c, offset) + free) * BLOCK_SIZE - Within(offset)))
  }

  /** How many blocks the write takes from the free chain. */
  function Taken(c: nat, free: nat, offset: nat, count: nat): (r: int) {
    var n := Fitting(c, free, offset, count);
    if n == 0 then 0 else Max(0, CeilDiv(Within(offset) + n) - Reusable(c, offset))
  }

  /** The blocks the write goes through, in order. */
  function Target(l: seq<seq<int>>, f: nat, offset: nat): (r: seq<int>)
    requires |l| == MAX_FILES + 1 && f < MAX_FILES
  {
    l[f][|l[f]| - Reusable(|l[f]|, offset)..] + l[FREE]
  }

  /** Only the entry of f changes, and in it only the chain ends and the size: the file is as long as
      before, or up to the last byte stored. */
  predicate EntriesAfter(root: seq<DirEntry>, root': seq<DirEntry>, f: nat, offset: nat, done: nat)
    requires f < |root|
  {
    && |root'| == |root|
    && (forall g :: 0 <= g < |root| && g != f ==> root'[g] == root[g])
    && root'[f].mode == root[f].mode && root'[f].opens == root[f].opens
    && root'[f].size == (if done == 0 then root[f].size else Max(root[f].size, offset + done))
  }

  /** The bytes lie over the image of the target blocks; no other block changes. */
  predicate BytesAfter(data: seq<seq<Byte>>, data': seq<seq<Byte>>, target: seq<int>, at: nat, bytes: seq<Byte>) {
    && |data| == |data'| && BlocksIn(data, target) && BlocksIn(data', target)
    && (forall b :: 0 <= b < |data| && b !in target ==> data'[b] == data[b])
    && if bytes == [] then data' == data
       else at + |bytes| <= |target| * BLOCK_SIZE && Image(data', target) == Splice(Image(data, target), at, bytes)
  }

  /** The complete effect of a write, on every input. */
  predicate WriteEffect(fs: Fat, l: seq<seq<int>>, f: nat, buffer: seq<Byte>, offset: nat,
                        r: int, fs': Fat, l': seq<seq<int>>)
    requires |l| == MAX_FILES + 1 && f < MAX_FILES && |fs.root| == MAX_FILES
  {
    var c, free := |l[f]|, |l[FREE]|;
    var n, taken := Fitting(c, free, offset, |buffer|), Taken(c, free, offset, |buffer|);
    && Describes(fs', l')
    && 0 <= taken <= free && l' == Grown(l, f, taken)
    && fs'.lastFree == (if l'[FREE] == [] then EOC else fs.lastFree)
    && r == (if n == |buffer| then n else -ENOSPC)
    && EntriesAfter(fs.root, fs'.root, f, offset, n)
    && BytesAfter(fs.data, fs'.data, Target(l, f, offset), Within(offset), buffer[..n])
  }

  // ---------- unlinking ----------

  /** fat_unlink's assignments as written: with blocks free, the file's chain is hung behind
      last_free_block, and last_free_block stays where it is. */
  function Unlinked(fs: Fat, f: nat): (fs': Fat)
    requires Shaped(fs) && f < MAX_FILES && (fs.lastFree == EOC || 0 <= fs.lastFree < MAX_BLOCKS)
  {
    var e := fs.root[f];
    var blocks := e.size / BLOCK_SIZE + if e.size % BLOCK_SIZE != 0 then 1 else 0;
    var spliced := if fs.lastFree != EOC then fs.(links := fs.links[fs.lastFree := e.first])
                   else fs.(firstFree := e.first, lastFree := e.last);
    spliced.(freeCount := fs.freeCount + blocks, used := fs.used - blocks,
             root := fs.root[f := e.(mode := FREE_TYPE, size := 0, first := EOC, last := EOC)])
  }

  /** The same with the tail record brought up to date, the declared deviation. */
  function UnlinkedWithTail(fs: Fat, f: nat): (fs': Fat)
    requires Shaped(fs) && f < MAX_FILES && (fs.lastFree == EOC || 0 <= fs.lastFree < MAX_BLOCKS)
  {
    var out := Unlinked(fs, f);
    if fs.lastFree != EOC && fs.root[f].last != EOC then out.(lastFree := fs.root[f].last) else out
  }

  /** The file's chain joins the free chain at its end. */
  function Released(l: seq<seq<int>>, f: nat): (r: seq<seq<int>>)
    requires |l| == MAX_FILES + 1 && f < MAX_FILES
    ensures |r| == |l|
  {
    Drain(l, f, FREE)
  }

  lemma BlocksOfSize(size: int)
    requires size >= 0
    ensures size / BLOCK_SIZE + (if size % BLOCK_SIZE != 0 then 1 else 0) == CeilDiv(size)
  {
    var q, r := size / BLOCK_SIZE, size % BLOCK_SIZE;
    assert size == q * BLOCK_SIZE + r;
    if size > 0 {
      CeilIs(size, if r != 0 then q + 1 else q);
    } else {
      DivIs(0, 0);
      DivIs(BLOCK_SIZE - 1, 0);
    }
  }

  /** With a true tail, unlinking returns exactly the file's blocks, appended in order. */
  lemma UnlinkDescribes(fs: Fat, l: seq<seq<int>>, f: nat)
    requires Describes(fs, l) && f < MAX_FILES && SizeMatches(fs, l, f) && TailTrue(fs, l)
    ensures Describes(Unlinked(fs, f), Released(l, f))
    ensures Describes(UnlinkedWithTail(fs, f), Released(l, f))
    ensures TailTrue(UnlinkedWithTail(fs, f), Released(l, f))
    ensures TailTrue(Unlinked(fs, f), Released(l, f)) <==> l[FREE] == [] || l[f] == []
  {
    hide Partition, IsChain;
    UnlinkAsWritten(fs, l, f);
    assert FileChain(fs, f, l[f]);
    if l[FREE] != [] && l[f] != [] {
      assert Last(l[FREE]) in l[FREE] && Last(l[f]) in l[f];
      EndsApart(l, f);
    }
  }

  lemma EndsApart(l: seq<seq<int>>, f: nat)
    requires Partition(l, MAX_BLOCKS) && |l| == MAX_FILES + 1 && f < MAX_FILES && l[FREE] != [] && l[f] != []
    ensures Last(l[FREE]) != Last(l[f]) && 0 <= Last(l[f]) < MAX_BLOCKS
  {
    assert Last(l[FREE]) in l[FREE] && Last(l[f]) in l[f];
  }

  lemma UnlinkAsWritten(fs: Fat, l: seq<seq<int>>, f: nat)
    requires Describes(fs, l) && f < MAX_FILES && SizeMatches(fs, l, f) && TailTrue(fs, l)
    ensures Describes(Unlinked(fs, f), Released(l, f))
  {
    hide Partition, IsChain;
    assert FileChain(fs, f, l[f]);
    DrainPartition(l, MAX_BLOCKS, f, FREE);
    BlocksOfSize(fs.root[f].size);
    UnlinkChains(fs, l, f);
    LastInside(l, FREE);
    LastInside(l, f);
    EmptyChain(Unlinked(fs, f).links);
    assert l[FREE] == [] ==> l[FREE] + l[f] == l[f];
  }

  lemma LastInside(l: seq<seq<int>>, k: nat)
    requires Partition(l, MAX_BLOCKS) && k < |l|
    ensures l[k] != [] ==> 0 <= Last(l[k]) < MAX_BLOCKS
  {
    assert l[k] != [] ==> Last(l[k]) in l[k];
  }

  lemma EmptyChain(links: seq<int>)
    ensures IsChain(links, EOC, [])
  {
  }

  lemma UnlinkChains(fs: Fat, l: seq<seq<int>>, f: nat)
    requires Describes(fs, l) && f < MAX_FILES && SizeMatches(fs, l, f) && TailTrue(fs, l)
    ensures IsChain(Unlinked(fs, f).links, Unlinked(fs, f).firstFree, l[FREE] + l[f])
    ensures forall g :: 0 <= g < MAX_FILES && g != f ==> FileChain(Unlinked(fs, f), g, l[g])
  {
    assert FileChain(fs, f, l[f]);
    var fs' := Unlinked(fs, f);
    if l[FREE] == [] {
      assert l[FREE] + l[f] == l[f];
    } else {
      assert Last(l[FREE]) in l[FREE];
      ChainJoin(fs.links, fs.firstFree, l[FREE], fs.root[f].first, l[f]);
    }
    forall g | 0 <= g < MAX_FILES && g != f ensures FileChain(fs', g, l[g]) {
      assert FileChain(fs, g, l[g]);
      assert forall i :: 0 <= i < |l[g]| ==> l[g][i] in l[g];
    }
  }
}
