/** Sequences without repetition, and families of them that partition 0..n-1.  Both the block
    chains of the file system and the task queues of the kernel are such families. */
module Sequences {

  predicate NoDup(q: seq<int>) {
    forall i, j :: 0 <= i < j < |q| ==> q[i] != q[j]
  }

  /** Drops the first occurrence of x. */
  function Without(q: seq<int>, x: int): (r: seq<int>)
    ensures x !in q ==> r == q
    ensures x in q ==> |r| == |q| - 1
    ensures forall y :: y in r ==> y in q
    ensures forall y :: y != x && y in q ==> y in r
  {
    if q == [] then [] else if q[0] == x then q[1..] else [q[0]] + Without(q[1..], x)
  }

  lemma {:induction false} WithoutAt(q: seq<int>, i: nat)
    requires NoDup(q) && i < |q|
    ensures Without(q, q[i]) == q[..i] + q[i+1..]
  {
    if i > 0 {
      assert q[0] != q[i];
      WithoutAt(q[1..], i - 1);
      assert q[1..][..i-1] == q[1..i] && q[1..][i..] == q[i+1..];
      assert q[..i] == [q[0]] + q[1..i];
    }
  }

  lemma SkipNoDup(q: seq<int>, i: nat)
    requires NoDup(q) && i < |q|
    ensures q[i] !in q[..i] + q[i+1..] && NoDup(q[..i] + q[i+1..])
  {
    var r := q[..i] + q[i+1..];
    assert forall j :: 0 <= j < |r| ==> r[j] == if j < i then q[j] else q[j+1];
  }

  lemma WithoutGone(q: seq<int>, x: int)
    requires NoDup(q)
    ensures x !in Without(q, x) && NoDup(Without(q, x))
  {
    if x in q {
      var i :| 0 <= i < |q| && q[i] == x;
      WithoutAt(q, i);
      SkipNoDup(q, i);
    }
  }

  lemma {:induction false} WithoutConcat(q: seq<int>, r: seq<int>, x: int)
    requires x in q
    ensures Without(q + r, x) == Without(q, x) + r
  {
    assert (q + r)[0] == q[0] && (q + r)[1..] == q[1..] + r;
    if q[0] != x {
      WithoutConcat(q[1..], r, x);
    }
  }

  lemma ConcatNoDup(q: seq<int>, r: seq<int>)
    requires NoDup(q) && NoDup(r) && forall x :: x in q ==> x !in r
    ensures NoDup(q + r)
  {
    forall i, j | 0 <= i < j < |q + r| ensures (q + r)[i] != (q + r)[j] {
      if i < |q| <= j {
        assert (q + r)[i] in q && (q + r)[j] in r;
      }
    }
  }

  // ---------- families ----------

  predicate Placed(parts: seq<seq<int>>, x: int) {
    exists k :: 0 <= k < |parts| && x in parts[k]
  }

  predicate Disjoint(parts: seq<seq<int>>) {
    forall k, l, x :: 0 <= k < |parts| && 0 <= l < |parts| && x in parts[k] && x in parts[l] ==> k == l
  }

  /** Every number below n sits in exactly one part, at exactly one position. */
  predicate Partition(parts: seq<seq<int>>, n: nat) {
    && (forall k, x :: 0 <= k < |parts| && x in parts[k] ==> 0 <= x < n)
    && (forall k :: 0 <= k < |parts| ==> NoDup(parts[k]))
    && Disjoint(parts)
    && forall x :: 0 <= x < n ==> Placed(parts, x)
  }

  /** Takes x out of one part and appends it to another (possibly the same). */
  function ToTail(parts: seq<seq<int>>, x: int, from: nat, to: nat): (r: seq<seq<int>>)
    requires from < |parts| && to < |parts|
    ensures |r| == |parts|
  {
    var out := parts[from := Without(parts[from], x)];
    out[to := out[to] + [x]]
  }

  /** Takes x out of one part and puts it at the front of another. */
  function ToFront(parts: seq<seq<int>>, x: int, from: nat, to: nat): (r: seq<seq<int>>)
    requires from < |parts| && to < |parts|
    ensures |r| == |parts|
  {
    var out := parts[from := Without(parts[from], x)];
    out[to := [x] + out[to]]
  }

  /** Appends the whole of one part, in order, to another. */
  function Drain(parts: seq<seq<int>>, from: nat, to: nat): (r: seq<seq<int>>)
    requires from < |parts| && to < |parts|
    ensures |r| == |parts|
  {
    parts[to := parts[to] + parts[from]][from := []]
  }

  lemma ToTailPartition(parts: seq<seq<int>>, n: nat, x: int, from: nat, to: nat)
    requires Partition(parts, n) && from < |parts| && to < |parts| && x in parts[from]
    ensures Partition(ToTail(parts, x, from, to), n)
  {
    var r := ToTail(parts, x, from, to);
    WithoutGone(parts[from], x);
    MovedPlaced(parts, n, x, from, to, r);
  }

  lemma ToFrontPartition(parts: seq<seq<int>>, n: nat, x: int, from: nat, to: nat)
    requires Partition(parts, n) && from < |parts| && to < |parts| && x in parts[from]
    ensures Partition(ToFront(parts, x, from, to), n)
  {
    var r := ToFront(parts, x, from, to);
    WithoutGone(parts[from], x);
    MovedPlaced(parts, n, x, from, to, r);
  }

  lemma MovedPlaced(parts: seq<seq<int>>, n: nat, x: int, from: nat, to: nat, r: seq<seq<int>>)
    requires Partition(parts, n) && from < |parts| && to < |parts| && x in parts[from]
    requires |r| == |parts| && x in r[to]
    requires forall k, y :: 0 <= k < |parts| && y in parts[k] && y != x ==> y in r[k]
    ensures forall y :: 0 <= y < n ==> Placed(r, y)
  {
    forall y | 0 <= y < n ensures Placed(r, y) {
      assert Placed(parts, y);
      var k :| 0 <= k < |parts| && y in parts[k];
      assert y in r[if y == x then to else k];
    }
  }

  lemma DrainPartition(parts: seq<seq<int>>, n: nat, from: nat, to: nat)
    requires Partition(parts, n) && from < |parts| && to < |parts| && from != to
    ensures Partition(Drain(parts, from, to), n)
  {
    var r := Drain(parts, from, to);
    assert NoDup(parts[to] + parts[from]) by {
      ConcatNoDup(parts[to], parts[from]);
    }
    forall y | 0 <= y < n ensures Placed(r, y) {
      assert Placed(parts, y);
      var k :| 0 <= k < |parts| && y in parts[k];
      assert y in r[if k == from then to else k];
    }
  }

  /** Total number of positions in the family. */
  function TotalLength(parts: seq<seq<int>>): (n: nat) {
    if parts == [] then 0 else |parts[0]| + TotalLength(parts[1..])
  }

  function Range(n: nat): (r: set<int>)
    ensures forall x :: x in r <==> 0 <= x < n
  {
    if n == 0 then {} else Range(n - 1) + {n - 1}
  }

  lemma {:induction false} RangeSize(n: nat)
    ensures |Range(n)| == n
  {
    if n > 0 {
      RangeSize(n - 1);
    }
  }

  function Elements(q: seq<int>): (r: set<int>) {
    set x | x in q
  }

  lemma {:induction false} ElementsSize(q: seq<int>)
    requires NoDup(q)
    ensures |Elements(q)| == |q|
  {
    if q != [] {
      ElementsSize(q[1..]);
      assert q == [q[0]] + q[1..];
      assert Elements(q) == {q[0]} + Elements(q[1..]);
    }
  }

  function Union(parts: seq<seq<int>>): (r: set<int>) {
    if parts == [] then {} else Elements(parts[0]) + Union(parts[1..])
  }

  lemma {:induction false} InUnion(parts: seq<seq<int>>, x: int)
    ensures x in Union(parts) <==> Placed(parts, x)
  {
    if parts != [] {
      InUnion(parts[1..], x);
      if Placed(parts, x) {
        var k :| 0 <= k < |parts| && x in parts[k];
        assert k > 0 ==> x in parts[1..][k-1];
      }
    }
  }

  lemma {:induction false} UnionSize(parts: seq<seq<int>>)
    requires Disjoint(parts) && forall k :: 0 <= k < |parts| ==> NoDup(parts[k])
    ensures |Union(parts)| == TotalLength(parts)
  {
    if parts != [] {
      UnionSize(parts[1..]);
      ElementsSize(parts[0]);
      forall x | x in parts[0] ensures x !in Union(parts[1..]) {
        InUnion(parts[1..], x);
        assert forall k :: 0 <= k < |parts[1..]| ==> parts[1..][k] == parts[k + 1];
      }
    }
  }

  /** Space accounting: the parts of a partition of 0..n-1 have n elements between them. */
  lemma PartitionCount(parts: seq<seq<int>>, n: nat)
    requires Partition(parts, n)
    ensures TotalLength(parts) == n
  {
    UnionSize(parts);
    RangeSize(n);
    forall x ensures x in Union(parts) <==> x in Range(n) {
      InUnion(parts, x);
    }
    assert Union(parts) == Range(n);
  }
}
