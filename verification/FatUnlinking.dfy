/** fat_unlink: exactly when the call as written gives the file's blocks back, and what it does when it does
    not. */
module FatUnlinking {
  import opened Sequences
  import opened FatLayout
  import opened FatSpec
  import opened FatWriting
  import opened FatVolume
  import opened FatLinkage
  import opened FatRefinement

  // ---------- safe calls ----------

  /** When the call as written leaves a well-formed structure: the free list is empty, or the tail
      record is true, or, for an empty file, it at least names the last block of some chain. */
  predicate UnlinkSafe(fs: Fat, l: seq<seq<int>>, f: nat)
    requires |l| == MAX_FILES + 1 && f < MAX_FILES
  {
    || l[FREE] == []
    || if l[f] == [] then 0 <= fs.lastFree < |fs.links| && fs.links[fs.lastFree] == EOC else TailTrue(fs, l)
  }

  lemma TailIsSafe(fs: Fat, l: seq<seq<int>>, f: nat)
    requires Describes(fs, l) && f < MAX_FILES
    ensures |l| == MAX_FILES + 1 && (TailTrue(fs, l) ==> UnlinkSafe(fs, l, f))
  {
  }

  /** A safe call gives back exactly the file's blocks. */
  lemma SafeDescribes(fs: Fat, l: seq<seq<int>>, f: nat)
    requires Describes(fs, l) && f < MAX_FILES && SizeMatches(fs, l, f) && UnlinkSafe(fs, l, f)
    ensures Describes(Unlinked(fs, f), Released(l, f))
  {
    hide Describes, SizeMatches, TailTrue;
    Lengths(fs, l);
    TailOfNothing(fs, l);
    if TailTrue(fs, l) {
      UnlinkDescribes(fs, l, f);
    } else {
      EmptyUnlink(fs, l, f);
      assert l[FREE] + [] == l[FREE];
      assert Released(l, f) == l;
    }
  }

  /** A safe call gives back the file's blocks and leaves every other byte alone. */
  lemma UnlinkRefines(fs: Fat, l: seq<seq<int>>, f: nat)
    requires Sound(fs, l) && f < MAX_FILES && fs.root[f].mode != FREE_TYPE && |l| == MAX_FILES + 1
    requires UnlinkSafe(fs, l, f)
    ensures Sound(Unlinked(fs, f), Released(l, f))
    ensures View(Unlinked(fs, f), Released(l, f)) == Unlink(View(fs, l), f)
  {
    hide Describes, SizeMatches, View, Unlink, UnusedEmpty, Drain;
    Lengths(fs, l);
    assert SizeMatches(fs, l, f);
    SafeDescribes(fs, l, f);
    UnlinkSizes(fs, l, f);
    UnlinkViews(fs, l, f, Unlinked(fs, f));
  }

  /** With the tail record kept up to date every call is the plain one. */
  lemma UnlinkWithTailRefines(fs: Fat, l: seq<seq<int>>, f: nat)
    requires Sound(fs, l) && f < MAX_FILES && fs.root[f].mode != FREE_TYPE && TailTrue(fs, l)
    ensures Sound(UnlinkedWithTail(fs, f), Released(l, f)) && TailTrue(UnlinkedWithTail(fs, f), Released(l, f))
    ensures View(UnlinkedWithTail(fs, f), Released(l, f)) == Unlink(View(fs, l), f)
  {
    hide Describes, SizeMatches, View, Unlink, UnusedEmpty, Drain;
    Lengths(fs, l);
    assert SizeMatches(fs, l, f);
    UnlinkDescribes(fs, l, f);
    UnlinkSizes(fs, l, f);
    UnlinkViews(fs, l, f, UnlinkedWithTail(fs, f));
  }

  lemma ReleasedAt(l: seq<seq<int>>, f: nat)
    requires |l| == MAX_FILES + 1 && f < MAX_FILES
    ensures Released(l, f)[f] == [] && Released(l, f)[FREE] == l[FREE] + l[f]
    ensures forall g :: 0 <= g < MAX_FILES && g != f ==> Released(l, f)[g] == l[g]
  {
  }

  lemma UnlinkSizes(fs: Fat, l: seq<seq<int>>, f: nat)
    requires Sound(fs, l) && f < MAX_FILES
    ensures SizesMatch(Unlinked(fs, f), Released(l, f)) && UnusedEmpty(Unlinked(fs, f))
    ensures SizesMatch(UnlinkedWithTail(fs, f), Released(l, f)) && UnusedEmpty(UnlinkedWithTail(fs, f))
  {
    hide Describes, Drain;
    Lengths(fs, l);
    var fs', l' := Unlinked(fs, f), Released(l, f);
    ReleasedAt(l, f);
    assert fs'.root[f].size == 0 && UnlinkedWithTail(fs, f).root == fs'.root;
    forall g | 0 <= g < MAX_FILES ensures SizeMatches(fs', l', g) && SizeMatches(UnlinkedWithTail(fs, f), l', g) {
      assert SizeMatches(fs, l, g);
      if g == f {
        DivIs(BLOCK_SIZE - 1, 0);
      }
    }
  }

  lemma UnlinkViews(fs: Fat, l: seq<seq<int>>, f: nat, fs': Fat)
    requires Sound(fs, l) && f < MAX_FILES && fs.root[f].mode != FREE_TYPE
    requires Describes(fs', Released(l, f)) && SizesMatch(fs', Released(l, f)) && fs'.data == fs.data
    requires fs'.root[f].mode == FREE_TYPE && forall g :: 0 <= g < MAX_FILES && g != f ==> fs'.root[g] == fs.root[g]
    ensures View(fs', Released(l, f)) == Unlink(View(fs, l), f)
  {
    var l' := Released(l, f);
    SizeInChain(fs, l, f);
    forall g | 0 <= g < MAX_FILES && g != f ensures FileView(fs', l', g) == FileView(fs, l, g) {
      SizeInChain(fs, l, g);
      SizeInChain(fs', l', g);
    }
    assert View(fs', l').files == View(fs, l).files[f := Unused];
  }

  predicate SomeBlockLost(m: seq<seq<int>>) {
    exists x :: 0 <= x < MAX_BLOCKS && !Placed(m, x)
  }

  predicate SomeEndWrong(fs: Fat, m: seq<seq<int>>)
    requires |fs.root| <= |m|
  {
    exists g :: 0 <= g < |fs.root| && fs.root[g].last != Last(m[g])
  }

  // ---------- exactly when ----------

  /** As written, in every described state: some layout describes the result if and only if the call is safe
      and the size, by which the counters are adjusted, still fits the chain. */
  lemma UnlinkReclaimsIff(fs: Fat, l: seq<seq<int>>, f: nat)
    requires Describes(fs, l) && f < MAX_FILES
    ensures |l| == MAX_FILES + 1 && |fs.root| == MAX_FILES
    ensures UnlinkSafe(fs, l, f) && SizeMatches(fs, l, f) <==> exists m :: Describes(Unlinked(fs, f), m)
  {
    hide Describes, SizeMatches, UnlinkSafe;
    Lengths(fs, l);
    if UnlinkSafe(fs, l, f) && SizeMatches(fs, l, f) {
      SafeDescribes(fs, l, f);
    }
    forall m | Describes(Unlinked(fs, f), m) ensures UnlinkSafe(fs, l, f) && SizeMatches(fs, l, f) {
      ReclaimedSafe(fs, l, f, m);
      ReclaimedSize(fs, l, f, m);
    }
  }

  lemma ReclaimedSafe(fs: Fat, l: seq<seq<int>>, f: nat, m: seq<seq<int>>)
    requires Describes(fs, l) && f < MAX_FILES && Describes(Unlinked(fs, f), m)
    ensures |l| == MAX_FILES + 1 && UnlinkSafe(fs, l, f)
  {
    hide Describes, SomeBlockLost, SomeEndWrong, TailTrue, IsChain;
    Lengths(fs, l);
    TailOfNothing(fs, l);
    EndsRight(Unlinked(fs, f), m);
    if l[FREE] != [] && l[f] == [] {
      if fs.links[fs.lastFree] != EOC {
        CutChain(fs, l, f, m);
      }
    } else if l[FREE] != [] && !TailTrue(fs, l) {
      StaleTailBreaks(fs, l, f, m);
    }
  }

  /** With the size put right the links after the call are the same, so the free chain is; and it is as long
      as the counter says only if the size was right. */
  lemma ReclaimedSize(fs: Fat, l: seq<seq<int>>, f: nat, m: seq<seq<int>>)
    requires Describes(fs, l) && f < MAX_FILES && Describes(Unlinked(fs, f), m)
    requires |l| == MAX_FILES + 1 && |fs.root| == MAX_FILES && UnlinkSafe(fs, l, f)
    ensures SizeMatches(fs, l, f)
  {
    hide Describes, IsChain, Partition, Drain, CeilDiv;
    Lengths(fs, l);
    var right := fs.(root := fs.root[f := fs.root[f].(size := |l[f]| * BLOCK_SIZE)]);
    EntryResized(fs, l, f, |l[f]| * BLOCK_SIZE);
    CeilIsExact(|l[f]|);
    SafeDescribes(right, l, f);
    BlocksOfSize(fs.root[f].size);
    BlocksOfSize(|l[f]| * BLOCK_SIZE);
    SameFree(Unlinked(fs, f), m, Unlinked(right, f), Released(l, f));
  }

  lemma SameFree(fs: Fat, m: seq<seq<int>>, fs': Fat, m': seq<seq<int>>)
    requires Describes(fs, m) && Describes(fs', m') && fs.links == fs'.links && fs.firstFree == fs'.firstFree
    ensures fs.freeCount == fs'.freeCount
  {
    ChainUnique(fs.links, fs.firstFree, m[FREE], m'[FREE]);
  }

  lemma TailOfNothing(fs: Fat, l: seq<seq<int>>)
    requires Describes(fs, l)
    ensures |l| == MAX_FILES + 1 && |fs.links| == MAX_BLOCKS && |fs.root| == MAX_FILES
    ensures if l[FREE] == [] then TailTrue(fs, l) else 0 <= fs.lastFree < MAX_BLOCKS
  {
  }

  /** Unlinking an empty file with blocks free cuts the chain the tail record points into. */
  lemma EmptyUnlink(fs: Fat, l: seq<seq<int>>, f: nat)
    requires Describes(fs, l) && f < MAX_FILES && SizeMatches(fs, l, f) && l[FREE] != [] && l[f] == []
    ensures fs.links[fs.lastFree] == EOC ==> Describes(Unlinked(fs, f), l)
    ensures forall m :: Threaded(Unlinked(fs, f), m) && fs.links[fs.lastFree] != EOC ==> SomeBlockLost(m)
  {
    assert FileChain(fs, f, l[f]);
    BlocksOfSize(fs.root[f].size);
    if fs.links[fs.lastFree] == EOC {
      assert Unlinked(fs, f).links == fs.links;
      assert forall g :: 0 <= g < MAX_FILES && g != f ==> FileChain(fs, g, l[g]);
    }
    forall m | Threaded(Unlinked(fs, f), m) && fs.links[fs.lastFree] != EOC ensures SomeBlockLost(m) {
      CutChain(fs, l, f, m);
    }
  }

  /** An empty file hung behind a block that is not the last of its chain cuts off the rest. */
  lemma CutChain(fs: Fat, l: seq<seq<int>>, f: nat, m: seq<seq<int>>)
    requires Describes(fs, l) && f < MAX_FILES && l[FREE] != [] && l[f] == []
    requires Threaded(Unlinked(fs, f), m) && fs.links[fs.lastFree] != EOC
    ensures SomeBlockLost(m)
  {
    var k, p := Whereabouts(fs, l);
    assert k != FREE ==> FileChain(fs, k, l[k]);
    OthersSame(fs, l, f, m, k);
    SplicedChain(fs, l, f, m, k, p);
    CutOff(l, f, m, k, p);
  }

  /** The place of the block the tail record names. */
  lemma Whereabouts(fs: Fat, l: seq<seq<int>>) returns (k: nat, p: nat)
    requires Describes(fs, l) && l[FREE] != []
    ensures k < |l| && p < |l[k]| && l[k][p] == fs.lastFree
  {
    assert Placed(l, fs.lastFree);
    k :| 0 <= k < |l| && fs.lastFree in l[k];
    p :| 0 <= p < |l[k]| && l[k][p] == fs.lastFree;
  }

  /** The chains the tail record does not point into are as they were; the file has none left. */
  lemma OthersSame(fs: Fat, l: seq<seq<int>>, f: nat, m: seq<seq<int>>, k: nat)
    requires Describes(fs, l) && f < MAX_FILES && l[FREE] != [] && Threaded(Unlinked(fs, f), m)
    requires k < |l| && fs.lastFree in l[k]
    ensures |m| == MAX_FILES + 1 && m[f] == []
    ensures forall g :: 0 <= g <= MAX_FILES && g != f && g != k ==> m[g] == l[g]
  {
    hide Describes;
    Lengths(fs, l);
    assert IsChain(Unlinked(fs, f).links, EOC, m[f]);
    forall g | 0 <= g <= MAX_FILES && g != f && g != k ensures m[g] == l[g] {
      OneChain(fs, l, g, k);
      UntouchedChain(fs, l, f, m, g);
    }
  }

  lemma OneChain(fs: Fat, l: seq<seq<int>>, g: nat, k: nat)
    requires Describes(fs, l) && g < |l| && k < |l| && g != k && fs.lastFree in l[k]
    ensures fs.lastFree !in l[g]
  {
  }

  /** What followed position p of chain k is lost. */
  lemma CutOff(l: seq<seq<int>>, f: nat, m: seq<seq<int>>, k: nat, p: nat)
    requires Partition(l, MAX_BLOCKS) && |l| == |m| == MAX_FILES + 1 && f < MAX_FILES && k < |l| && k != f
    requires p + 1 < |l[k]| && m[k] == l[k][..p + 1] + l[f] && m[f] == []
    requires forall g :: 0 <= g <= MAX_FILES && g != f && g != k ==> m[g] == l[g]
    ensures SomeBlockLost(m)
  {
    assert l[k][p + 1] in l[k];
    assert !Placed(m, l[k][p + 1]);
  }

  lemma EndsRight(fs: Fat, m: seq<seq<int>>)
    ensures Describes(fs, m) ==> Threaded(fs, m) && !SomeBlockLost(m) && !SomeEndWrong(fs, m)
  {
    assert Describes(fs, m) ==> forall g :: 0 <= g < MAX_FILES ==> FileChain(fs, g, m[g]);
  }

  /** With a stale tail record, hanging a non-empty file behind it leaves some block on no chain, or
      some file whose last block is misnamed. */
  lemma StaleTailBreaks(fs: Fat, l: seq<seq<int>>, f: nat, m: seq<seq<int>>)
    requires Describes(fs, l) && f < MAX_FILES && l[FREE] != [] && l[f] != []
    requires !TailTrue(fs, l) && Threaded(Unlinked(fs, f), m)
    ensures SomeBlockLost(m) || SomeEndWrong(Unlinked(fs, f), m)
  {
    hide Describes, Threaded, SomeBlockLost, IsChain;
    Lengths(fs, l);
    var k, p := Whereabouts(fs, l);
    OthersSame(fs, l, f, m, k);
    ChainsOfBlocks(fs, l);
    if k == f {
      FileLost(l, f, m);
    } else {
      SplicedChain(fs, l, f, m, k, p);
      if k == FREE {
        NotLast(fs, l, p);
        CutOff(l, f, m, k, p);
      } else {
        assert FileChain(fs, k, l[k]);
        LastsApart(l, f, k);
        assert Unlinked(fs, f).root[k].last != Last(m[k]);
      }
    }
  }

  lemma ChainsOfBlocks(fs: Fat, l: seq<seq<int>>)
    requires Describes(fs, l)
    ensures Partition(l, MAX_BLOCKS) && |l| == MAX_FILES + 1
    ensures forall g :: 0 <= g < MAX_FILES ==> FileChain(fs, g, l[g])
  {
  }

  lemma NotLast(fs: Fat, l: seq<seq<int>>, p: nat)
    requires Describes(fs, l) && !TailTrue(fs, l) && p < |l[FREE]| && l[FREE][p] == fs.lastFree
    ensures p + 1 < |l[FREE]|
  {
  }

  lemma FileLost(l: seq<seq<int>>, f: nat, m: seq<seq<int>>)
    requires Partition(l, MAX_BLOCKS) && |l| == |m| == MAX_FILES + 1 && f < MAX_FILES && l[f] != [] && m[f] == []
    requires forall g :: 0 <= g <= MAX_FILES && g != f ==> m[g] == l[g]
    ensures SomeBlockLost(m)
  {
    assert l[f][0] in l[f];
    assert !Placed(m, l[f][0]);
  }

  lemma LastsApart(l: seq<seq<int>>, f: nat, k: nat)
    requires Partition(l, MAX_BLOCKS) && f < |l| && k < |l| && f != k && l[f] != [] && l[k] != []
    ensures Last(l[f]) != Last(l[k])
  {
    assert Last(l[k]) in l[k] && Last(l[f]) in l[f];
  }

  lemma UntouchedChain(fs: Fat, l: seq<seq<int>>, f: nat, m: seq<seq<int>>, g: nat)
    requires Describes(fs, l) && f < MAX_FILES && l[FREE] != []
    requires Threaded(Unlinked(fs, f), m) && g <= MAX_FILES && g != f && fs.lastFree !in l[g]
    ensures m[g] == l[g]
  {
    var links' := Unlinked(fs, f).links;
    var h := if g == FREE then fs.firstFree else fs.root[g].first;
    assert g != FREE ==> FileChain(fs, g, l[g]);
    assert forall i :: 0 <= i < |l[g]| ==> l[g][i] in l[g];
    assert IsChain(links', h, l[g]);
    ChainUnique(links', h, l[g], m[g]);
  }

  /** Hanging the file's chain behind position p cuts off what followed p. */
  lemma SplicedChain(fs: Fat, l: seq<seq<int>>, f: nat, m: seq<seq<int>>, k: nat, p: nat)
    requires Describes(fs, l) && f < MAX_FILES && l[FREE] != []
    requires Threaded(Unlinked(fs, f), m) && k <= MAX_FILES && k != f
    requires p < |l[k]| && l[k][p] == fs.lastFree
    ensures m[k] == l[k][..p+1] + l[f]
  {
    var h := if k == FREE then fs.firstFree else fs.root[k].first;
    SplicedIsChain(fs, l, f, k, p);
    ChainUnique(Unlinked(fs, f).links, h, l[k][..p+1] + l[f], m[k]);
  }

  lemma SplicedIsChain(fs: Fat, l: seq<seq<int>>, f: nat, k: nat, p: nat)
    requires Describes(fs, l) && f < MAX_FILES && l[FREE] != [] && k <= MAX_FILES && k != f
    requires p < |l[k]| && l[k][p] == fs.lastFree
    ensures IsChain(Unlinked(fs, f).links, if k == FREE then fs.firstFree else fs.root[k].first, l[k][..p+1] + l[f])
  {
    hide Partition, NoDup, Disjoint;
    Lengths(fs, l);
    assert k != FREE ==> FileChain(fs, k, l[k]);
    assert FileChain(fs, f, l[f]);
    OnlyAt(l, f, k, p);
    ChainSpliced(fs.links, if k == FREE then fs.firstFree else fs.root[k].first, l[k], p, fs.root[f].first, l[f]);
  }

  /** A block at place p of chain k is at no other place of it, and in no other chain. */
  lemma OnlyAt(l: seq<seq<int>>, f: nat, k: nat, p: nat)
    requires Partition(l, MAX_BLOCKS) && f < |l| && k < |l| && k != f && p < |l[k]|
    ensures l[k][p] !in l[f] && l[k][p] !in l[k][..p]
  {
    assert l[k][p] in l[k];
  }

  /** Redirecting the link at place p of a chain to the head of another. */
  lemma ChainSpliced(links: seq<int>, b: int, c: seq<int>, p: nat, h: int, d: seq<int>)
    requires IsChain(links, b, c) && IsChain(links, h, d) && p < |c| && c[p] !in c[..p] && c[p] !in d
    ensures IsChain(links[c[p] := h], b, c[..p + 1] + d)
  {
    var e, links' := c[..p + 1] + d, links[c[p] := h];
    forall i | 0 <= i < |e| ensures 0 <= e[i] < |links'| && links'[e[i]] == At(e, i + 1) {
      if i > p {
        assert e[i] == d[i - p - 1] && e[i] in d;
      } else if i < p {
        assert e[i] == c[..p][i] && e[i + 1] == c[i + 1];
      } else {
        assert e[p] == c[p] && At(e, p + 1) == At(d, 0);
      }
    }
  }

  /** A tail record inside the free chain: what follows it there is lost. */
  lemma FreeCutOff(fs: Fat, l: seq<seq<int>>, f: nat, m: seq<seq<int>>)
    requires Describes(fs, l) && f < MAX_FILES && |l| == MAX_FILES + 1 && fs.lastFree in l[FREE] && !TailTrue(fs, l)
    requires Threaded(Unlinked(fs, f), m)
    ensures SomeBlockLost(m)
  {
    hide Describes, Threaded, SomeBlockLost, IsChain;
    var p :| 0 <= p < |l[FREE]| && l[FREE][p] == fs.lastFree;
    ChainsOfBlocks(fs, l);
    OthersSame(fs, l, f, m, FREE);
    SplicedChain(fs, l, f, m, FREE, p);
    NotLast(fs, l, p);
    CutOff(l, f, m, FREE, p);
  }

  /** So unlinking two non-empty files in a row, with blocks free throughout, always loses blocks: some
      block is on no chain any more. */
  lemma TwoUnlinksBreak(fs: Fat, l: seq<seq<int>>, f: nat, g: nat)
    requires Sound(fs, l) && TailTrue(fs, l) && f < MAX_FILES && g < MAX_FILES && f != g
    requires l[FREE] != [] && l[f] != [] && l[g] != []
    ensures var once := Unlinked(fs, f);
      && Describes(once, Released(l, f))
      && (forall m :: Threaded(Unlinked(once, g), m) ==> SomeBlockLost(m))
      && (exists m :: Threaded(Unlinked(once, g), m))
  {
    hide Describes, IsChain, Linked, SomeBlockLost, Threaded;
    Lengths(fs, l);
    var once, r := Unlinked(fs, f), Released(l, f);
    assert SizeMatches(fs, l, f);
    UnlinkDescribes(fs, l, f);
    Lengths(once, r);
    ReleasedAt(l, f);
    ChainsOfBlocks(fs, l);
    LastsApart(l, f, FREE);
    assert Last(l[FREE]) in l[FREE];
    forall m | Threaded(Unlinked(once, g), m) ensures SomeBlockLost(m) {
      FreeCutOff(once, r, g, m);
    }
    DescribedLinked(once, r);
    UnlinkedLinked(once, g);
    var m := Threading(Unlinked(once, g));
  }

  // ---------- where the tail record points ----------

  /** The last free block; a place inside the free chain; the last block of a file; a place inside a
      file's chain. */
  datatype Tail = Exact | Inside(p: nat) | EndOf(g: nat) | Buried(g: nat, p: nat)

  predicate TailIs(fs: Fat, l: seq<seq<int>>, tail: Tail)
    requires |l| == MAX_FILES + 1
  {
    match tail
    case Exact => TailTrue(fs, l)
    case Inside(p) => p + 1 < |l[FREE]| && l[FREE][p] == fs.lastFree
    case EndOf(g) => l[FREE] != [] && g < MAX_FILES && l[g] != [] && Last(l[g]) == fs.lastFree
    case Buried(g, p) => l[FREE] != [] && g < MAX_FILES && p + 1 < |l[g]| && l[g][p] == fs.lastFree
  }

  /** What the record's place says of the link behind it. */
  lemma TailLink(fs: Fat, l: seq<seq<int>>, tail: Tail)
    requires Describes(fs, l) && |l| == MAX_FILES + 1 && TailIs(fs, l, tail)
    ensures !tail.Exact? ==> l[FREE] != [] && !TailTrue(fs, l) && 0 <= fs.lastFree < |fs.links|
    ensures !tail.Exact? ==> (fs.links[fs.lastFree] == EOC <==> tail.EndOf?)
    ensures tail.Exact? && l[FREE] != [] ==> 0 <= fs.lastFree < |fs.links| && fs.links[fs.lastFree] == EOC
  {
    match tail
    case Exact =>
      assert l[FREE] != [] ==> fs.lastFree == l[FREE][|l[FREE]| - 1];
    case Inside(p) =>
      assert l[FREE][p + 1] in l[FREE];
    case EndOf(g) =>
      assert FileChain(fs, g, l[g]) && fs.lastFree == l[g][|l[g]| - 1] && fs.lastFree in l[g];
      assert Last(l[FREE]) in l[FREE];
    case Buried(g, p) =>
      assert FileChain(fs, g, l[g]) && l[g][p] in l[g] && l[g][p + 1] in l[g];
      assert Last(l[FREE]) in l[FREE];
  }

  /** What unlinking f leaves of another file g, in every state: if the record points inside g's chain, the
      rest of that chain is replaced by f's; otherwise the chain is there as before, with f's behind it if
      the record names its last block. */
  lemma OtherFileAfter(fs: Fat, l: seq<seq<int>>, tail: Tail, f: nat, g: nat, m: seq<seq<int>>)
    requires Describes(fs, l) && |l| == MAX_FILES + 1 && TailIs(fs, l, tail)
    requires f < MAX_FILES && g < MAX_FILES && f != g && Threaded(Unlinked(fs, f), m)
    ensures tail.Buried? && tail.g == g ==> m[g] == l[g][..tail.p + 1] + l[f]
    ensures tail == EndOf(g) ==> m[g] == l[g] + l[f]
    ensures !(tail.Buried? && tail.g == g) && tail != EndOf(g) ==> m[g] == l[g]
    ensures l[g] <= m[g] <==> !(tail.Buried? && tail.g == g)
  {
    hide Describes, IsChain;
    Lengths(fs, l);
    ChainsOfBlocks(fs, l);
    RecordIn(fs, l, tail);
    if l[FREE] == [] {
      SameChain(fs, l, f, g, m);
    } else if tail.Buried? && tail.g == g {
      SplicedChain(fs, l, f, m, g, tail.p);
      NotAPrefix(l, f, g, tail.p);
    } else if tail == EndOf(g) {
      SplicedChain(fs, l, f, m, g, |l[g]| - 1);
      assert l[g][..|l[g]|] == l[g];
    } else {
      OneChain(fs, l, g, Home(tail));
      UntouchedChain(fs, l, f, m, g);
    }
  }

  /** The chain the record points into. */
  function Home(tail: Tail): (k: nat) {
    match tail
    case Exact => FREE
    case Inside(_) => FREE
    case EndOf(g) => g
    case Buried(g, _) => g
  }

  lemma RecordIn(fs: Fat, l: seq<seq<int>>, tail: Tail)
    requires |l| == MAX_FILES + 1 && TailIs(fs, l, tail)
    ensures l[FREE] != [] ==> Home(tail) <= MAX_FILES && fs.lastFree in l[Home(tail)]
  {
    if l[FREE] != [] {
      match tail
      case Exact => assert Last(l[FREE]) in l[FREE];
      case Inside(p) => assert l[FREE][p] in l[FREE];
      case EndOf(g) => assert Last(l[g]) in l[g];
      case Buried(g, p) => assert l[g][p] in l[g];
    }
  }

  lemma SameChain(fs: Fat, l: seq<seq<int>>, f: nat, g: nat, m: seq<seq<int>>)
    requires Describes(fs, l) && |l| == MAX_FILES + 1 && l[FREE] == [] && f < MAX_FILES && g < MAX_FILES && f != g
    requires Threaded(Unlinked(fs, f), m)
    ensures m[g] == l[g]
  {
    assert FileChain(fs, g, l[g]);
    ChainUnique(fs.links, fs.root[g].first, l[g], m[g]);
  }

  lemma NotAPrefix(l: seq<seq<int>>, f: nat, g: nat, p: nat)
    requires Partition(l, MAX_BLOCKS) && f < |l| && g < |l| && f != g && p + 1 < |l[g]|
    ensures !(l[g] <= l[g][..p + 1] + l[f])
  {
    if l[f] != [] {
      assert l[f][0] in l[f] && l[g][p + 1] in l[g];
      assert (l[g][..p + 1] + l[f])[p + 1] == l[f][0];
    }
  }

  /** So every other file keeps its bytes, but for one the record points inside of. */
  lemma OtherBytesAfter(fs: Fat, l: seq<seq<int>>, tail: Tail, f: nat, g: nat, m: seq<seq<int>>)
    requires Describes(fs, l) && |l| == MAX_FILES + 1 && TailIs(fs, l, tail) && SizesMatch(fs, l)
    requires f < MAX_FILES && g < MAX_FILES && f != g && Threaded(Unlinked(fs, f), m)
    requires !(tail.Buried? && tail.g == g)
    ensures var fs' := Unlinked(fs, f);
      && BlocksIn(fs.data, l[g]) && BlocksIn(fs'.data, m[g]) && fs'.root[g] == fs.root[g]
      && 0 <= fs.root[g].size <= |l[g]| * BLOCK_SIZE <= |m[g]| * BLOCK_SIZE
      && FileBytes(fs', m, g) == FileBytes(fs, l, g)
  {
    hide Describes, TailIs, IsChain, Image;
    Lengths(fs, l);
    OtherFileAfter(fs, l, tail, f, g, m);
    SizeInChain(fs, l, g);
    DescribedBlocks(fs, l, f);
    Scaled(|l[g]|, |m[g]|);
    var more := m[g][|l[g]|..];
    assert m[g] == l[g] + more;
    assert BlocksIn(fs.data, more) by {
      assert more == [] || more == l[f];
    }
    ImageConcat(fs.data, l[g], more);
  }

  lemma DescribedBlocks(fs: Fat, l: seq<seq<int>>, f: nat)
    requires Describes(fs, l) && f < MAX_FILES
    ensures |l| == MAX_FILES + 1 && BlocksIn(fs.data, l[f])
  {
    assert forall i :: 0 <= i < |l[f]| ==> l[f][i] in l[f];
  }
}
