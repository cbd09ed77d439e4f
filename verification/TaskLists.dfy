/** include/list.h: intrusive circular doubly linked lists, over one index space of nodes. */
module TaskLists {
  import opened Sequences
  import opened KernelTypes

  /** Nodes are the task slots, then one list head per queue. */
  const NR_NODES: nat := NR_TASKS + NR_QUEUES
  const NULL := -1

  function Head(k: nat): (n: int) { NR_TASKS + k }

  /** Once around: the head, the members, the head again. */
  function Circuit(h: int, q: seq<int>): (c: seq<int>)
    ensures |c| == |q| + 2 && c[0] == c[|q| + 1] == h && forall i :: 0 <= i < |q| ==> c[i + 1] == q[i]
  {
    [h] + q + [h]
  }

  ghost predicate LinkAt(next: seq<int>, prev: seq<int>, c: seq<int>, i: nat)
    requires i + 1 < |c|
  {
    && 0 <= c[i] < |next| && 0 <= c[i + 1] < |prev|
    && next[c[i]] == c[i + 1] && prev[c[i + 1]] == c[i]
  }

  /** The list with head h holds exactly q, in both directions. */
  ghost predicate Ring(next: seq<int>, prev: seq<int>, h: int, q: seq<int>) {
    forall i :: 0 <= i <= |q| ==> LinkAt(next, prev, Circuit(h, q), i)
  }

  ghost predicate Heap(next: seq<int>, prev: seq<int>, queues: seq<seq<int>>, ready: set<nat>) {
    && |next| == |prev| == NR_NODES && |queues| == NR_QUEUES && Disjoint(queues)
    && (forall k :: 0 <= k < NR_QUEUES ==> NoDup(queues[k]))
    && (forall k, x :: 0 <= k < NR_QUEUES && x in queues[k] ==> 0 <= x < NR_TASKS)
    && (forall k :: 0 <= k < NR_QUEUES && k !in ready ==> queues[k] == [])
    && forall k :: 0 <= k < NR_QUEUES && k in ready ==> Ring(next, prev, Head(k), queues[k])
  }

  // ---------- one ring ----------

  function InsertedAt(q: seq<int>, i: nat, x: int): (r: seq<int>)
    requires i <= |q|
  {
    q[..i] + [x] + q[i..]
  }

  /** The heap after __list_add(x, p, n). */
  function LinkedNext(next: seq<int>, x: int, p: int, n: int): (r: seq<int>)
    requires 0 <= x < |next| && 0 <= p < |next|
    ensures |r| == |next|
  {
    next[x := n][p := x]
  }

  function LinkedPrev(prev: seq<int>, x: int, p: int, n: int): (r: seq<int>)
    requires 0 <= x < |prev| && 0 <= n < |prev|
    ensures |r| == |prev|
  {
    prev[n := x][x := p]
  }

  /** A node distinct from head and members. */
  ghost predicate Outside(x: int, h: int, q: seq<int>) { x != h && x !in q }

  /** Positions of a circuit hold different nodes, but for the head at both ends. */
  lemma CircuitDistinct(h: int, q: seq<int>, i: nat, j: nat)
    requires NoDup(q) && h !in q && i < j <= |q| + 1 && !(i == 0 && j == |q| + 1)
    ensures Circuit(h, q)[i] != Circuit(h, q)[j]
  {
    var c := Circuit(h, q);
    if i == 0 {
      assert c[j] == q[j - 1];
    } else if j == |q| + 1 {
      assert c[i] == q[i - 1];
    } else {
      assert c[i] == q[i - 1] && c[j] == q[j - 1];
    }
  }

  lemma InCircuit(h: int, q: seq<int>, x: int, i: nat)
    requires Outside(x, h, q) && i <= |q| + 1
    ensures Circuit(h, q)[i] != x
  {
    if 0 < i <= |q| {
      assert Circuit(h, q)[i] == q[i - 1];
    }
  }

  /** Linking x in between two neighbours of a ring gives the ring with x there. */
  lemma InsertRing(next: seq<int>, prev: seq<int>, h: int, q: seq<int>, i: nat, x: int)
    requires |next| == |prev| && 0 <= x < |next| && NoDup(q) && h !in q && Outside(x, h, q)
    requires i <= |q| && Ring(next, prev, h, q)
    requires forall j :: 0 <= j <= |q| + 1 ==> 0 <= Circuit(h, q)[j] < |next|
    ensures var p, n := Circuit(h, q)[i], Circuit(h, q)[i + 1];
      Ring(LinkedNext(next, x, p, n), LinkedPrev(prev, x, p, n), h, InsertedAt(q, i, x))
  {
    hide Circuit, InsertedAt, NoDup, Outside;
    var c, d := Circuit(h, q), Circuit(h, InsertedAt(q, i, x));
    InCircuit(h, q, x, i);
    InCircuit(h, q, x, i + 1);
    InsertedCircuit(h, q, i, x);
    var next', prev' := LinkedNext(next, x, c[i], c[i + 1]), LinkedPrev(prev, x, c[i], c[i + 1]);
    assert LinkAt(next, prev, c, i);
    forall j | 0 <= j <= |q| + 1 ensures LinkAt(next', prev', d, j) {
      if j < i {
        InsertKeeps(next, prev, h, q, i, x, j);
        assert d[j] == c[j] && d[j + 1] == c[j + 1];
      } else if j > i + 1 {
        InsertKeeps(next, prev, h, q, i, x, j - 1);
        assert d[j] == c[j - 1] && d[j + 1] == c[j];
      } else if j == i {
        assert d[j] == c[i] && d[j + 1] == x;
      } else {
        assert d[j] == x && d[j + 1] == c[i + 1];
      }
    }
  }

  lemma InsertedCircuit(h: int, q: seq<int>, i: nat, x: int)
    requires i <= |q|
    ensures var c, d := Circuit(h, q), Circuit(h, InsertedAt(q, i, x));
      |d| == |c| + 1 && forall j :: 0 <= j < |d| ==> d[j] == if j <= i then c[j] else if j == i + 1 then x else c[j - 1]
  {
  }

  /** The other links of the ring stay. */
  lemma InsertKeeps(next: seq<int>, prev: seq<int>, h: int, q: seq<int>, i: nat, x: int, j: nat)
    requires |next| == |prev| && 0 <= x < |next| && NoDup(q) && h !in q && Outside(x, h, q)
    requires i <= |q| && j <= |q| && i != j && LinkAt(next, prev, Circuit(h, q), j)
    requires 0 <= Circuit(h, q)[i] < |next| && 0 <= Circuit(h, q)[i + 1] < |next|
    ensures var c := Circuit(h, q);
      LinkAt(LinkedNext(next, x, c[i], c[i + 1]), LinkedPrev(prev, x, c[i], c[i + 1]), c, j)
  {
    CircuitDistinct(h, q, if i < j then i else j, if i < j then j else i);
    CircuitDistinct(h, q, if i < j then i + 1 else j + 1, if i < j then j + 1 else i + 1);
    InCircuit(h, q, x, j);
    InCircuit(h, q, x, j + 1);
  }

  /** The heap after list_del: neighbours joined, the node's own links cleared. */
  function UnlinkedNext(next: seq<int>, x: int, p: int, n: int): (r: seq<int>)
    requires 0 <= x < |next| && 0 <= p < |next|
    ensures |r| == |next|
  {
    next[p := n][x := NULL]
  }

  function UnlinkedPrev(prev: seq<int>, x: int, p: int, n: int): (r: seq<int>)
    requires 0 <= x < |prev| && 0 <= n < |prev|
    ensures |r| == |prev|
  {
    prev[n := p][x := NULL]
  }

  /** Unlinking the member at position i gives the ring without it. */
  lemma DeleteRing(next: seq<int>, prev: seq<int>, h: int, q: seq<int>, i: nat)
    requires |next| == |prev| && NoDup(q) && h !in q && i < |q| && Ring(next, prev, h, q)
    requires forall j :: 0 <= j <= |q| + 1 ==> 0 <= Circuit(h, q)[j] < |next|
    ensures var c := Circuit(h, q);
      && next[q[i]] == c[i + 2] && prev[q[i]] == c[i] && q[i] == c[i + 1]
      && Ring(UnlinkedNext(next, q[i], c[i], c[i + 2]), UnlinkedPrev(prev, q[i], c[i], c[i + 2]), h,
        q[..i] + q[i + 1..])
  {
    hide Circuit, NoDup;
    var c, d := Circuit(h, q), Circuit(h, q[..i] + q[i + 1..]);
    assert LinkAt(next, prev, c, i) && LinkAt(next, prev, c, i + 1);
    CircuitDistinct(h, q, i, i + 1);
    CircuitDistinct(h, q, i + 1, i + 2);
    var next', prev' := UnlinkedNext(next, q[i], c[i], c[i + 2]), UnlinkedPrev(prev, q[i], c[i], c[i + 2]);
    DeletedAt(h, q, i, 0);
    forall j | 0 <= j < |q| ensures LinkAt(next', prev', d, j) {
      DeletedAt(h, q, i, j);
      DeletedAt(h, q, i, j + 1);
      if j < i {
        DeleteKeeps(next, prev, h, q, i, j);
        assert d[j] == c[j] && d[j + 1] == c[j + 1];
      } else if j > i {
        DeleteKeeps(next, prev, h, q, i, j + 1);
        assert d[j] == c[j + 1] && d[j + 1] == c[j + 2];
      } else {
        assert d[j] == c[i] && d[j + 1] == c[i + 2];
      }
    }
  }

  /** Places of the ring without the member at position i. */
  lemma DeletedAt(h: int, q: seq<int>, i: nat, j: nat)
    requires i < |q| && j <= |q|
    ensures |Circuit(h, q[..i] + q[i + 1..])| == |q| + 1
    ensures Circuit(h, q[..i] + q[i + 1..])[j] == if j <= i then Circuit(h, q)[j] else Circuit(h, q)[j + 1]
  {
    hide Circuit;
    DeletedCircuit(h, q, i);
  }

  lemma DeletedCircuit(h: int, q: seq<int>, i: nat)
    requires i < |q|
    ensures var c, d := Circuit(h, q), Circuit(h, q[..i] + q[i + 1..]);
      |d| == |c| - 1 && c[i + 1] == q[i] && forall j :: 0 <= j < |d| ==> d[j] == if j <= i then c[j] else c[j + 1]
  {
    hide Circuit;
    var r := q[..i] + q[i + 1..];
    assert forall j :: 0 <= j < |r| ==> r[j] == if j < i then q[j] else q[j + 1];
    ShortCircuit(h, q, i, r);
  }

  lemma ShortCircuit(h: int, q: seq<int>, i: nat, r: seq<int>)
    requires i < |q| == |r| + 1 && forall j :: 0 <= j < |r| ==> r[j] == if j < i then q[j] else q[j + 1]
    ensures forall j :: 0 <= j <= |q| ==> Circuit(h, r)[j] == if j <= i then Circuit(h, q)[j] else Circuit(h, q)[j + 1]
  {
    hide Circuit;
    forall j | 0 <= j <= |q| ensures Circuit(h, r)[j] == if j <= i then Circuit(h, q)[j] else Circuit(h, q)[j + 1] {
      CircuitAt(h, r, j);
      CircuitAt(h, q, j);
      CircuitAt(h, q, j + 1);
      assert 0 < j <= |r| ==> r[j - 1] == if j <= i then q[j - 1] else q[j];
    }
  }

  lemma CircuitAt(h: int, q: seq<int>, j: nat)
    requires j <= |q| + 1
    ensures Circuit(h, q)[j] == if j == 0 || j == |q| + 1 then h else q[j - 1]
  {
  }

  lemma DeleteKeeps(next: seq<int>, prev: seq<int>, h: int, q: seq<int>, i: nat, j: nat)
    requires |next| == |prev| && NoDup(q) && h !in q && i < |q| && j <= |q| && j != i && j != i + 1
    requires LinkAt(next, prev, Circuit(h, q), j) && 0 <= q[i] < |next|
    requires 0 <= Circuit(h, q)[i] < |next| && 0 <= Circuit(h, q)[i + 2] < |next|
    ensures var c := Circuit(h, q);
      LinkAt(UnlinkedNext(next, q[i], c[i], c[i + 2]), UnlinkedPrev(prev, q[i], c[i], c[i + 2]), c, j)
  {
    hide Circuit, NoDup;
    var c := Circuit(h, q);
    assert c[i + 1] == q[i];
    Apart(h, q, i, j);
    Apart(h, q, i + 1, j);
    Apart(h, q, i + 1, j + 1);
    Apart(h, q, i + 2, j + 1);
  }

  /** Different links of a ring start, and end, at different nodes. */
  lemma Apart(h: int, q: seq<int>, i: nat, j: nat)
    requires NoDup(q) && h !in q && i != j && i <= |q| + 1 && j <= |q| + 1
    ensures i <= |q| && j <= |q| ==> Circuit(h, q)[i] != Circuit(h, q)[j]
    ensures 0 < i && 0 < j ==> Circuit(h, q)[i] != Circuit(h, q)[j]
  {
    var a, b := if i < j then i else j, if i < j then j else i;
    if !(a == 0 && b == |q| + 1) {
      CircuitDistinct(h, q, a, b);
    }
  }

  /** A ring none of whose nodes were written is still there. */
  lemma RingUntouched(next: seq<int>, prev: seq<int>, next': seq<int>, prev': seq<int>, h: int, q: seq<int>)
    requires Ring(next, prev, h, q) && |next'| == |next| && |prev'| == |prev|
    requires forall x :: 0 <= x < |next| && (x == h || x in q) ==> next'[x] == next[x]
    requires forall x :: 0 <= x < |prev| && (x == h || x in q) ==> prev'[x] == prev[x]
    ensures Ring(next', prev', h, q)
  {
    var c := Circuit(h, q);
    forall i | 0 <= i <= |q| ensures LinkAt(next', prev', c, i) {
      assert LinkAt(next, prev, c, i);
      assert i > 0 ==> c[i] == q[i - 1];
      assert i < |q| ==> c[i + 1] == q[i];
    }
  }

  // ---------- the whole heap ----------

  /** Head and members of a list, as nodes. */
  ghost predicate NodeOf(queues: seq<seq<int>>, k: nat, x: int)
    requires k < |queues|
  {
    x == Head(k) || x in queues[k]
  }

  lemma CircuitNodes(queues: seq<seq<int>>, k: nat, i: nat)
    requires |queues| == NR_QUEUES && k < NR_QUEUES && i <= |queues[k]| + 1
    requires forall k, x :: 0 <= k < NR_QUEUES && x in queues[k] ==> 0 <= x < NR_TASKS
    ensures NodeOf(queues, k, Circuit(Head(k), queues[k])[i]) && 0 <= Circuit(Head(k), queues[k])[i] < NR_NODES
  {
    if 0 < i <= |queues[k]| {
      assert Circuit(Head(k), queues[k])[i] == queues[k][i - 1];
    }
  }

  /** Only list k's nodes, and x which is in no other list, were written. */
  lemma HeapChanged(next: seq<int>, prev: seq<int>, queues: seq<seq<int>>, ready: set<nat>,
                    next': seq<int>, prev': seq<int>, k: nat, q: seq<int>, x: int)
    requires Heap(next, prev, queues, ready) && k < NR_QUEUES && k in ready
    requires |next'| == |prev'| == NR_NODES && NoDup(q) && Ring(next', prev', Head(k), q)
    requires 0 <= x < NR_TASKS && forall l :: 0 <= l < NR_QUEUES && x in queues[l] ==> l == k
    requires forall y :: y in q ==> y == x || y in queues[k]
    requires forall y :: 0 <= y < NR_NODES && y != x && !NodeOf(queues, k, y) ==>
            next'[y] == next[y] && prev'[y] == prev[y]
    ensures Heap(next', prev', queues[k := q], ready)
  {
    forall l | 0 <= l < NR_QUEUES && l in ready && l != k ensures Ring(next', prev', Head(l), queues[l]) {
      RingUntouched(next, prev, next', prev', Head(l), queues[l]);
    }
  }

  lemma HeapInsert(next: seq<int>, prev: seq<int>, queues: seq<seq<int>>, ready: set<nat>, k: nat, i: nat, x: int)
    requires Heap(next, prev, queues, ready) && k < NR_QUEUES && k in ready && i <= |queues[k]|
    requires 0 <= x < NR_TASKS && forall l :: 0 <= l < NR_QUEUES ==> x !in queues[l]
    ensures var c := Circuit(Head(k), queues[k]);
      && 0 <= c[i] < NR_NODES && 0 <= c[i + 1] < NR_NODES && x != c[i] && x != c[i + 1]
      && next[c[i]] == c[i + 1] && prev[c[i + 1]] == c[i]
      && Heap(LinkedNext(next, x, c[i], c[i + 1]), LinkedPrev(prev, x, c[i], c[i + 1]),
        queues[k := InsertedAt(queues[k], i, x)], ready)
  {
    var h, q := Head(k), queues[k];
    var c := Circuit(h, q);
    forall j | 0 <= j <= |q| + 1 ensures 0 <= c[j] < NR_NODES {
      CircuitNodes(queues, k, j);
    }
    CircuitNodes(queues, k, i);
    CircuitNodes(queues, k, i + 1);
    assert LinkAt(next, prev, c, i);
    InsertRing(next, prev, h, q, i, x);
    assert NoDup(InsertedAt(q, i, x)) by {
      InsertedNoDup(q, i, x);
    }
    hide Ring, Disjoint;
    HeapChanged(next, prev, queues, ready, LinkedNext(next, x, c[i], c[i + 1]), LinkedPrev(prev, x, c[i], c[i + 1]),
                k, InsertedAt(q, i, x), x);
  }

  lemma InsertedNoDup(q: seq<int>, i: nat, x: int)
    requires NoDup(q) && x !in q && i <= |q|
    ensures NoDup(InsertedAt(q, i, x))
  {
  }

  lemma HeapParts(next: seq<int>, prev: seq<int>, queues: seq<seq<int>>, ready: set<nat>, k: nat)
    requires Heap(next, prev, queues, ready) && k < NR_QUEUES
    ensures |next| == |prev| == NR_NODES && |queues| == NR_QUEUES && Disjoint(queues) && NoDup(queues[k])
    ensures forall l, x :: 0 <= l < NR_QUEUES && x in queues[l] ==> 0 <= x < NR_TASKS
    ensures queues[k] != [] ==> k in ready && Ring(next, prev, Head(k), queues[k])
  {
  }

  lemma HeapDelete(next: seq<int>, prev: seq<int>, queues: seq<seq<int>>, ready: set<nat>, k: nat, x: int)
    requires Heap(next, prev, queues, ready) && k < NR_QUEUES && x in queues[k]
    ensures 0 <= x < NR_TASKS && 0 <= next[x] < NR_NODES && 0 <= prev[x] < NR_NODES
    ensures Heap(UnlinkedNext(next, x, prev[x], next[x]), UnlinkedPrev(prev, x, prev[x], next[x]),
            queues[k := Without(queues[k], x)], ready)
    ensures x !in Without(queues[k], x) && forall l :: 0 <= l < NR_QUEUES && l != k ==> x !in queues[l]
  {
    hide Circuit, Ring, NoDup, Disjoint, LinkAt, Heap;
    HeapParts(next, prev, queues, ready, k);
    var h, q := Head(k), queues[k];
    var c := Circuit(h, q);
    var i :| 0 <= i < |q| && q[i] == x;
    forall j | 0 <= j <= |q| + 1 ensures 0 <= c[j] < NR_NODES {
      CircuitNodes(queues, k, j);
    }
    CircuitNodes(queues, k, i);
    CircuitNodes(queues, k, i + 2);
    DeleteRing(next, prev, h, q, i);
    WithoutAt(q, i);
    WithoutGone(q, x);
    OneHome(queues, k, x);
    HeapChanged(next, prev, queues, ready, UnlinkedNext(next, x, c[i], c[i + 2]), UnlinkedPrev(prev, x, c[i], c[i + 2]),
                k, Without(q, x), x);
  }

  lemma OneHome(queues: seq<seq<int>>, k: nat, x: int)
    requires Disjoint(queues) && k < |queues| && x in queues[k]
    ensures forall l :: 0 <= l < |queues| && x in queues[l] ==> l == k
  {
  }

  // ---------- the lists ----------

  class Lists {
    const next: array<int>
    const prev: array<int>
    /** What each list holds, first to last. */
    ghost var queues: seq<seq<int>>
    /** The lists whose heads have been initialised. */
    ghost var ready: set<nat>

    ghost predicate Valid()
      reads this, next, prev
    {
      next != prev && Heap(next[..], prev[..], queues, ready)
    }

    constructor ()
      ensures Valid() && fresh(next) && fresh(prev) && ready == {} && queues == seq(NR_QUEUES, _ => [])
    {
      next, prev := new int[NR_NODES](_ => NULL), new int[NR_NODES](_ => NULL);
      queues, ready := seq(NR_QUEUES, _ => []), {};
    }

    /** INIT_LIST_HEAD */
    method InitHead(k: nat)
      requires Valid() && k < NR_QUEUES && queues[k] == []
      modifies this, next, prev
      ensures Valid() && queues == old(queues) && ready == old(ready) + {k}
    {
      next[Head(k)] := Head(k);
      prev[Head(k)] := Head(k);
      ready := ready + {k};
      forall l | 0 <= l < NR_QUEUES && l in ready ensures Ring(next[..], prev[..], Head(l), queues[l]) {
        if l != k {
          RingUntouched(old(next[..]), old(prev[..]), next[..], prev[..], Head(l), queues[l]);
        } else {
          assert LinkAt(next[..], prev[..], Circuit(Head(k), []), 0);
        }
      }
    }

    /** __list_add: x between the nodes p and n, neighbours at place i of list k. */
    method Link(x: int, p: int, n: int, ghost k: nat, ghost i: nat)
      requires Valid() && k < NR_QUEUES && k in ready && i <= |queues[k]|
      requires 0 <= x < NR_TASKS && forall l :: 0 <= l < NR_QUEUES ==> x !in queues[l]
      requires p == Circuit(Head(k), queues[k])[i] && n == Circuit(Head(k), queues[k])[i + 1]
      modifies this, next, prev
      ensures Valid() && ready == old(ready) && queues == old(queues)[k := InsertedAt(old(queues)[k], i, x)]
    {
      HeapInsert(next[..], prev[..], queues, ready, k, i, x);
      hide Heap;
      prev[n] := x;
      next[x] := n;
      prev[x] := p;
      next[p] := x;
      queues := queues[k := InsertedAt(queues[k], i, x)];
      assert next[..] == LinkedNext(old(next[..]), x, p, n);
      assert prev[..] == LinkedPrev(old(prev[..]), x, p, n);
    }

    /** list_add: at the front. */
    method Add(x: int, k: nat)
      requires Valid() && k < NR_QUEUES && k in ready
      requires 0 <= x < NR_TASKS && forall l :: 0 <= l < NR_QUEUES ==> x !in queues[l]
      modifies this, next, prev
      ensures Valid() && ready == old(ready) && queues == old(queues)[k := [x] + old(queues)[k]]
    {
      HeapInsert(next[..], prev[..], queues, ready, k, 0, x);
      assert InsertedAt(queues[k], 0, x) == [x] + queues[k];
      Link(x, Head(k), next[Head(k)], k, 0);
    }

    /** list_add_tail: at the end. */
    method AddTail(x: int, k: nat)
      requires Valid() && k < NR_QUEUES && k in ready
      requires 0 <= x < NR_TASKS && forall l :: 0 <= l < NR_QUEUES ==> x !in queues[l]
      modifies this, next, prev
      ensures Valid() && ready == old(ready) && queues == old(queues)[k := old(queues)[k] + [x]]
    {
      HeapInsert(next[..], prev[..], queues, ready, k, |queues[k]|, x);
      assert InsertedAt(queues[k], |queues[k]|, x) == queues[k] + [x];
      Link(x, prev[Head(k)], Head(k), k, |queues[k]|);
    }

    /** list_del: x leaves whichever list it is in. */
    method Del(x: int, ghost k: nat)
      requires Valid() && k < NR_QUEUES && x in queues[k]
      modifies this, next, prev
      ensures Valid() && ready == old(ready) && queues == old(queues)[k := Without(old(queues)[k], x)]
      ensures forall l :: 0 <= l < NR_QUEUES ==> x !in queues[l]
    {
      HeapDelete(next[..], prev[..], queues, ready, k, x);
      hide Heap;
      var p, n := prev[x], next[x];
      prev[n] := p;
      next[p] := n;
      next[x] := NULL;
      prev[x] := NULL;
      queues := queues[k := Without(queues[k], x)];
      assert next[..] == UnlinkedNext(old(next[..]), x, p, n);
      assert prev[..] == UnlinkedPrev(old(prev[..]), x, p, n);
    }

    /** A task structure copied whole brings the links of its origin along. */
    method CopyLinks(from: int, to: int)
      requires Valid() && 0 <= from < NR_TASKS && 0 <= to < NR_TASKS
      requires forall l :: 0 <= l < NR_QUEUES ==> to !in queues[l]
      modifies next, prev
      ensures Valid()
    {
      next[to], prev[to] := next[from], prev[from];
      forall l | 0 <= l < NR_QUEUES && l in ready ensures Ring(next[..], prev[..], Head(l), queues[l]) {
        RingUntouched(old(next[..]), old(prev[..]), next[..], prev[..], Head(l), queues[l]);
      }
    }

    /** list_empty */
    method Empty(k: nat) returns (yes: bool)
      requires Valid() && k < NR_QUEUES && k in ready
      ensures yes <==> queues[k] == []
    {
      var c := Circuit(Head(k), queues[k]);
      assert LinkAt(next[..], prev[..], c, 0);
      assert queues[k] != [] ==> c[1] == queues[k][0] && queues[k][0] in queues[k];
      yes := next[Head(k)] == Head(k);
    }

    /** list_first of a list that is not empty is a task; of an empty one it would be the head. */
    method FirstOf(k: nat) returns (x: int)
      requires Valid() && k < NR_QUEUES && k in ready
      ensures x == if queues[k] == [] then Head(k) else queues[k][0]
    {
      assert LinkAt(next[..], prev[..], Circuit(Head(k), queues[k]), 0);
      x := next[Head(k)];
    }
  }
}
