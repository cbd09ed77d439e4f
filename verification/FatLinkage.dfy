/** What holds of the links whatever calls are made, unlinks with a stale tail record included: no block
    is pointed at twice.  So every chain ends, and no two chains meet. */
module FatLinkage {
  import opened Sequences
  import opened FatLayout
  import opened FatSpec

  // ---------- where block numbers are stored ----------

  /** The first fields of the files, first_free_block, and the links. */
  const SLOTS: nat := MAX_FILES + 1 + MAX_BLOCKS

  function LinkSlot(b: int): (n: int) { MAX_FILES + 1 + b }

  function Pointer(fs: Fat, s: nat): (n: int)
    requires Shaped(fs) && s < SLOTS
  {
    if s < MAX_FILES then fs.root[s].first else if s == FREE then fs.firstFree else fs.links[s - MAX_FILES - 1]
  }

  predicate Numbers(fs: Fat)
    requires Shaped(fs)
  {
    && (forall s :: 0 <= s < SLOTS ==> EOC <= Pointer(fs, s) < MAX_BLOCKS)
    && (forall f :: 0 <= f < MAX_FILES ==> EOC <= fs.root[f].last < MAX_BLOCKS)
    && (forall f :: 0 <= f < MAX_FILES ==> (fs.root[f].first == EOC <==> fs.root[f].last == EOC))
    && EOC <= fs.lastFree < MAX_BLOCKS && (fs.firstFree == EOC <==> fs.lastFree == EOC)
  }

  predicate PointedOnce(fs: Fat)
    requires Shaped(fs)
  {
    forall s, t :: 0 <= s < SLOTS && 0 <= t < SLOTS && Pointer(fs, s) == Pointer(fs, t) != EOC ==> s == t
  }

  /** Everything the code follows is a block number or the end mark, and no block is pointed at twice. */
  predicate Linked(fs: Fat) {
    Shaped(fs) && Numbers(fs) && PointedOnce(fs)
  }

  /** m lists what following the links from every head visits. */
  predicate Threaded(fs: Fat, m: seq<seq<int>>) {
    && |m| == MAX_FILES + 1 && |fs.root| == MAX_FILES && IsChain(fs.links, fs.firstFree, m[FREE])
    && forall f :: 0 <= f < MAX_FILES ==> IsChain(fs.links, fs.root[f].first, m[f])
  }

  // ---------- the calls keep it ----------

  /** Taking a block, whether or not the file's last block is recorded rightly. */
  lemma BlockAddedLinked(fs: Fat, f: nat)
    requires Linked(fs) && f < MAX_FILES && fs.firstFree != EOC
    ensures fs.root[f].first == EOC || 0 <= fs.root[f].last < MAX_BLOCKS
    ensures 0 <= fs.firstFree < MAX_BLOCKS
    ensures Linked(BlockAdded(fs, f))
  {
    assert EOC <= Pointer(fs, FREE) < MAX_BLOCKS && EOC <= Pointer(fs, f);
    var fs', b := BlockAdded(fs, f), fs.firstFree;
    assert b == Pointer(fs, FREE);
    BlockAddedPointers(fs, f);
    BlockAddedNumbers(fs, f);
    hide BlockAdded, Pointer;
    forall s, t | 0 <= s < SLOTS && 0 <= t < SLOTS && Pointer(fs', s) == Pointer(fs', t) != EOC ensures s == t {
      assert Origin(fs, f, s) == Origin(fs, f, t);
    }
  }

  /** The slot that held, before, what slot s holds after a block was taken. */
  function Origin(fs: Fat, f: nat, s: nat): (n: nat)
    requires Shaped(fs) && f < MAX_FILES && s < SLOTS && 0 <= fs.firstFree < MAX_BLOCKS
    requires fs.root[f].first == EOC || 0 <= fs.root[f].last < MAX_BLOCKS
  {
    var e, b := fs.root[f], fs.firstFree;
    if e.first != EOC && e.last == b then s
    else if s == FREE then LinkSlot(b)
    else if s == (if e.first == EOC then f else LinkSlot(e.last)) then FREE
    else s
  }

  lemma BlockAddedPointers(fs: Fat, f: nat)
    requires Linked(fs) && f < MAX_FILES && 0 <= fs.firstFree < MAX_BLOCKS
    requires fs.root[f].first == EOC || 0 <= fs.root[f].last < MAX_BLOCKS
    ensures forall s | 0 <= s < SLOTS && Pointer(BlockAdded(fs, f), s) != EOC ::
              Origin(fs, f, s) < SLOTS && Pointer(BlockAdded(fs, f), s) == Pointer(fs, Origin(fs, f, s))
    ensures forall s, t | 0 <= s < SLOTS && 0 <= t < SLOTS && Origin(fs, f, s) == Origin(fs, f, t) ::
              Pointer(BlockAdded(fs, f), s) != EOC && Pointer(BlockAdded(fs, f), t) != EOC ==> s == t
  {
  }

  lemma BlockAddedNumbers(fs: Fat, f: nat)
    requires Linked(fs) && f < MAX_FILES && 0 <= fs.firstFree < MAX_BLOCKS
    requires fs.root[f].first == EOC || 0 <= fs.root[f].last < MAX_BLOCKS
    ensures Numbers(BlockAdded(fs, f))
  {
    BlockAddedPointers(fs, f);
    var fs' := BlockAdded(fs, f);
    forall s | 0 <= s < SLOTS ensures EOC <= Pointer(fs', s) < MAX_BLOCKS {
      if Pointer(fs', s) != EOC {
        assert EOC <= Pointer(fs, Origin(fs, f, s)) < MAX_BLOCKS;
      }
    }
    assert fs'.firstFree == Pointer(fs', FREE);
  }

  /** Unlinking as written, in every state. */
  lemma UnlinkedLinked(fs: Fat, f: nat)
    requires Linked(fs) && f < MAX_FILES
    ensures Linked(Unlinked(fs, f))
  {
    var fs' := Unlinked(fs, f);
    var to := if fs.lastFree != EOC then LinkSlot(fs.lastFree) else FREE;
    assert forall s :: 0 <= s < SLOTS ==>
      Pointer(fs', s) == if s == f then EOC else if s == to then Pointer(fs, f) else Pointer(fs, s);
    assert fs'.firstFree == Pointer(fs', FREE);
  }

  /** A directory entry emptied. */
  lemma EntryLinked(fs: Fat, f: nat, e: DirEntry)
    requires Linked(fs) && f < MAX_FILES && e.first == EOC && e.last == EOC && e.size >= 0
    ensures Linked(fs.(root := fs.root[f := e]))
  {
    var fs' := fs.(root := fs.root[f := e]);
    assert forall s :: 0 <= s < SLOTS ==> Pointer(fs', s) == if s == f then EOC else Pointer(fs, s);
  }

  /** Sizes, modes and data play no part. */
  lemma SameLinks(fs: Fat, fs': Fat)
    requires Linked(fs) && Shaped(fs') && fs'.links == fs.links
    requires fs'.firstFree == fs.firstFree && fs'.lastFree == fs.lastFree
    requires forall f :: 0 <= f < MAX_FILES ==>
      fs'.root[f].first == fs.root[f].first && fs'.root[f].last == fs.root[f].last
    ensures Linked(fs')
    ensures forall m :: Threaded(fs, m) ==> Threaded(fs', m)
  {
    assert forall s :: 0 <= s < SLOTS ==> Pointer(fs', s) == Pointer(fs, s);
  }

  // ---------- every chain ends ----------

  lemma SubsetSize(a: set<int>, b: set<int>)
    requires a <= b
    ensures |a| <= |b|
  {
    assert b == a + (b - a);
  }

  lemma ShortPath(c: seq<int>)
    requires NoDup(c) && forall i :: 0 <= i < |c| ==> 0 <= c[i] < MAX_BLOCKS
    ensures |c| <= MAX_BLOCKS
  {
    ElementsSize(c);
    RangeSize(MAX_BLOCKS);
    SubsetSize(Elements(c), Range(MAX_BLOCKS));
  }

  /** Blocks reached one after the other, not yet to the end. */
  predicate IsPath(links: seq<int>, b: int, c: seq<int>) {
    && c != [] && c[0] == b && NoDup(c)
    && (forall i :: 0 <= i < |c| ==> 0 <= c[i] < |links|)
    && forall i :: 0 <= i < |c| - 1 ==> links[c[i]] == c[i + 1]
  }

  /** A block met again would be pointed at twice, so the walk from a head comes to an end. */
  lemma PathEnds(fs: Fat, h: nat, c: seq<int>) returns (d: seq<int>)
    requires Linked(fs) && h <= FREE && IsPath(fs.links, Pointer(fs, h), c)
    ensures IsChain(fs.links, Pointer(fs, h), d)
    decreases MAX_BLOCKS - |c|
  {
    ShortPath(c);
    var y := Last(c);
    var x := fs.links[y];
    assert x == Pointer(fs, LinkSlot(y));
    if x == EOC {
      d := c;
    } else {
      forall i | 0 <= i < |c| ensures c[i] != x {
        if i > 0 {
          assert Pointer(fs, LinkSlot(c[i - 1])) == c[i];
        }
      }
      ShortPath(c + [x]);
      d := PathEnds(fs, h, c + [x]);
    }
  }

  /** Following the links from any head comes to an end. */
  lemma ChainExists(fs: Fat, h: nat)
    requires Linked(fs) && h <= FREE
    ensures exists c :: IsChain(fs.links, Pointer(fs, h), c)
  {
    var b := Pointer(fs, h);
    if b == EOC {
      assert IsChain(fs.links, b, []);
    } else {
      var c := PathEnds(fs, h, [b]);
    }
  }

  ghost function ChainOf(fs: Fat, h: nat): (c: seq<int>)
    requires Linked(fs) && h <= FREE
    ensures IsChain(fs.links, Pointer(fs, h), c)
  {
    ChainExists(fs, h);
    var c :| IsChain(fs.links, Pointer(fs, h), c);
    c
  }

  /** All chains of a state. */
  ghost function Threading(fs: Fat): (m: seq<seq<int>>)
    requires Linked(fs)
    ensures Threaded(fs, m)
  {
    var m := seq(MAX_FILES + 1, h requires 0 <= h <= MAX_FILES => ChainOf(fs, h));
    assert forall f :: 0 <= f < MAX_FILES ==> Pointer(fs, f) == fs.root[f].first;
    m
  }

  lemma ThreadsUnique(fs: Fat, m: seq<seq<int>>, n: seq<seq<int>>)
    requires Threaded(fs, m) && Threaded(fs, n)
    ensures m == n
  {
    forall k | 0 <= k <= MAX_FILES ensures m[k] == n[k] {
      ChainUnique(fs.links, if k == FREE then fs.firstFree else fs.root[k].first, m[k], n[k]);
    }
  }

  // ---------- no two chains meet ----------

  /** The slot pointing at place i of chain k. */
  function PlaceSlot(m: seq<seq<int>>, k: nat, i: nat): (n: int)
    requires k < |m| && i <= |m[k]|
  {
    if i == 0 then k else LinkSlot(m[k][i - 1])
  }

  lemma ChainAt(fs: Fat, m: seq<seq<int>>, k: nat)
    requires Shaped(fs) && Threaded(fs, m) && k <= MAX_FILES
    ensures |m| == MAX_FILES + 1 && IsChain(fs.links, Pointer(fs, k), m[k])
  {
    hide IsChain;
  }

  lemma PlacePointer(fs: Fat, m: seq<seq<int>>, k: nat, i: nat)
    requires Shaped(fs) && Threaded(fs, m) && k <= MAX_FILES && i <= |m[k]|
    ensures 0 <= PlaceSlot(m, k, i) < SLOTS && Pointer(fs, PlaceSlot(m, k, i)) == At(m[k], i)
    ensures PlaceSlot(m, k, i) <= FREE <==> i == 0
  {
    hide Linked, NoDup, Partition;
    ChainAt(fs, m, k);
    if i > 0 {
      var b := m[k][i - 1];
      assert 0 <= b < MAX_BLOCKS && fs.links[b] == At(m[k], i);
      assert LinkSlot(b) - MAX_FILES - 1 == b;
    }
  }

  /** The same block at two places is the same place. */
  lemma {:induction false} OnePlace(fs: Fat, m: seq<seq<int>>, k: nat, i: nat, l: nat, j: nat)
    requires Linked(fs) && Threaded(fs, m) && k <= MAX_FILES && l <= MAX_FILES && |m| == MAX_FILES + 1
    requires i < |m[k]| && j < |m[l]|
    requires m[k][i] == m[l][j]
    ensures k == l && i == j
    decreases i
  {
    hide IsChain, Threaded, Pointer;
    PlacePointer(fs, m, k, i);
    PlacePointer(fs, m, l, j);
    BlockAt(fs, m, k, i);
    assert PlaceSlot(m, k, i) == PlaceSlot(m, l, j);
    if i > 0 {
      OnePlace(fs, m, k, i - 1, l, j - 1);
    }
  }

  lemma BlockAt(fs: Fat, m: seq<seq<int>>, k: nat, i: nat)
    requires Shaped(fs) && Threaded(fs, m) && k <= MAX_FILES && i < |m[k]|
    ensures 0 <= m[k][i] < MAX_BLOCKS
  {
    assert k < MAX_FILES ==> IsChain(fs.links, fs.root[k].first, m[k]);
  }

  /** No chain meets itself or another: no two files ever share a block, or one with the free list. */
  predicate Separate(m: seq<seq<int>>) {
    && Disjoint(m)
    && forall k :: 0 <= k < |m| ==> NoDup(m[k]) && forall x :: x in m[k] ==> 0 <= x < MAX_BLOCKS
  }

  lemma ChainsSeparate(fs: Fat, m: seq<seq<int>>)
    requires Linked(fs) && Threaded(fs, m)
    ensures Separate(m)
  {
    forall k, l, x | 0 <= k < |m| && 0 <= l < |m| && x in m[k] && x in m[l] ensures k == l {
      var i :| 0 <= i < |m[k]| && m[k][i] == x;
      var j :| 0 <= j < |m[l]| && m[l][j] == x;
      OnePlace(fs, m, k, i, l, j);
    }
    forall k, i, j | 0 <= k < |m| && 0 <= i < j < |m[k]| ensures m[k][i] != m[k][j] {
      if m[k][i] == m[k][j] {
        OnePlace(fs, m, k, i, k, j);
      }
    }
    forall k, x | 0 <= k < |m| && x in m[k] ensures 0 <= x < MAX_BLOCKS {
      var i :| 0 <= i < |m[k]| && m[k][i] == x;
      BlockAt(fs, m, k, i);
    }
  }

  // ---------- described states are linked ----------

  lemma DescribedThreads(fs: Fat, l: seq<seq<int>>)
    requires Describes(fs, l)
    ensures Shaped(fs) && Threaded(fs, l)
  {
    assert forall f :: 0 <= f < MAX_FILES ==> FileChain(fs, f, l[f]);
  }

  lemma LayoutPlaces(fs: Fat, l: seq<seq<int>>)
    requires Describes(fs, l)
    ensures |l| == MAX_FILES + 1 && forall x :: 0 <= x < MAX_BLOCKS ==> Placed(l, x)
  {
  }

  /** Every slot points at one place of a layout that covers all blocks. */
  lemma SlotPlace(fs: Fat, l: seq<seq<int>>, s: nat) returns (k: nat, i: nat)
    requires Describes(fs, l) && s < SLOTS
    ensures k <= MAX_FILES && k < |l| && i <= |l[k]| && Pointer(fs, s) == At(l[k], i) && s == PlaceSlot(l, k, i)
  {
    hide IsChain, NoDup, Threaded, Pointer, Describes;
    DescribedThreads(fs, l);
    LayoutPlaces(fs, l);
    if s <= FREE {
      k, i := s, 0;
    } else {
      var b := s - MAX_FILES - 1;
      assert Placed(l, b);
      k :| 0 <= k < |l| && b in l[k];
      var p :| 0 <= p < |l[k]| && l[k][p] == b;
      i := p + 1;
    }
    PlacePointer(fs, l, k, i);
  }

  lemma PlacesApart(l: seq<seq<int>>, k: nat, i: nat, k': nat, i': nat)
    requires Partition(l, MAX_BLOCKS) && k < |l| && k' < |l| && i < |l[k]| && i' < |l[k']| && l[k][i] == l[k'][i']
    ensures k == k' && i == i'
  {
    assert l[k][i] in l[k] && l[k'][i'] in l[k'];
  }

  lemma DescribedLinked(fs: Fat, l: seq<seq<int>>)
    requires Describes(fs, l)
    ensures Linked(fs) && Threaded(fs, l)
  {
    hide Partition, IsChain;
    DescribedThreads(fs, l);
    forall s | 0 <= s < SLOTS ensures EOC <= Pointer(fs, s) < MAX_BLOCKS {
      var k, i := SlotPlace(fs, l, s);
      if i < |l[k]| {
        BlockAt(fs, l, k, i);
      }
    }
    forall s, t | 0 <= s < SLOTS && 0 <= t < SLOTS && Pointer(fs, s) == Pointer(fs, t) != EOC ensures s == t {
      var k, i := SlotPlace(fs, l, s);
      var k', i' := SlotPlace(fs, l, t);
      PlacesApart(l, k, i, k', i');
    }
    DescribedEnds(fs, l);
  }

  lemma DescribedEnds(fs: Fat, l: seq<seq<int>>)
    requires Describes(fs, l)
    ensures forall f :: 0 <= f < MAX_FILES ==> EOC <= fs.root[f].last < MAX_BLOCKS
    ensures forall f :: 0 <= f < MAX_FILES ==> (fs.root[f].first == EOC <==> fs.root[f].last == EOC)
    ensures EOC <= fs.lastFree < MAX_BLOCKS && (fs.firstFree == EOC <==> fs.lastFree == EOC)
  {
    forall f | 0 <= f < MAX_FILES
      ensures EOC <= fs.root[f].last < MAX_BLOCKS && (fs.root[f].first == EOC <==> fs.root[f].last == EOC)
    {
      assert FileChain(fs, f, l[f]);
      assert l[f] != [] ==> Last(l[f]) in l[f] && l[f][0] in l[f];
    }
    assert l[FREE] != [] ==> l[FREE][0] in l[FREE];
  }
}
