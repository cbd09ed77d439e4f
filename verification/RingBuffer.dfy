/** circbuff.c: the ring buffer under the keyboard, and what any sequence of its operations does. */
module RingBuffer {
  import opened KernelTypes
  import opened KernelSpec

  /** The place i steps behind position h of the ring. */
  function At(h: nat, i: nat): (p: nat)
    requires h < CIRC_BUFF_SIZE && i <= CIRC_BUFF_SIZE
    ensures p < CIRC_BUFF_SIZE
  {
    if h + i < CIRC_BUFF_SIZE then h + i else h + i - CIRC_BUFF_SIZE
  }

  lemma AtIsMod(h: nat, i: nat)
    requires h < CIRC_BUFF_SIZE && i <= CIRC_BUFF_SIZE
    ensures At(h, i) == (h + i) % CIRC_BUFF_SIZE
  {
    ModIs(h + i, if h + i < CIRC_BUFF_SIZE then 0 else 1, At(h, i));
  }

  lemma ModIs(a: nat, q: nat, r: nat)
    requires r < CIRC_BUFF_SIZE && a == q * CIRC_BUFF_SIZE + r
    ensures a % CIRC_BUFF_SIZE == r
  {
    var d := a / CIRC_BUFF_SIZE - q;
    assert d * CIRC_BUFF_SIZE == r - a % CIRC_BUFF_SIZE;
    assert d >= 1 ==> d * CIRC_BUFF_SIZE >= CIRC_BUFF_SIZE;
    assert d <= -1 ==> (d + 1) * CIRC_BUFF_SIZE <= 0;
  }

  /** Head, tail and count delimit the contents, oldest first; tail is (head + count) mod the size, so
      it meets head both when the ring is empty and when it is full. */
  ghost predicate Delimits(mem: seq<Byte>, head: int, tail: int, count: int, contents: seq<Byte>) {
    && |mem| == CIRC_BUFF_SIZE && 0 <= head < CIRC_BUFF_SIZE && count == |contents| <= CIRC_BUFF_SIZE
    && tail == At(head, count)
    && forall i :: 0 <= i < count ==> mem[At(head, i)] == contents[i]
  }

  lemma FirstOut(mem: seq<Byte>, head: int, tail: int, count: int, contents: seq<Byte>)
    requires Delimits(mem, head, tail, count, contents) && contents != []
    ensures 0 <= head < |mem| == CIRC_BUFF_SIZE && count == |contents| && mem[head] == contents[0]
    ensures Delimits(mem, At(head, 1), tail, count - 1, contents[1..])
  {
    assert mem[At(head, 0)] == contents[0];
    forall i | 0 <= i < count - 1 ensures mem[At(At(head, 1), i)] == contents[1..][i] {
      assert mem[At(head, i + 1)] == contents[i + 1];
    }
  }

  lemma RingFacts(mem: seq<Byte>, head: int, tail: int, count: int, contents: seq<Byte>)
    requires Delimits(mem, head, tail, count, contents)
    ensures 0 <= head < CIRC_BUFF_SIZE && count == |contents| <= CIRC_BUFF_SIZE
  {
  }

  /** One more character behind the first i. */
  lemma Appended(was: seq<Byte>, i: nat, before: seq<Byte>, d: seq<Byte>)
    requires i < |was| && i < |before| && d == was[..i] + before[i..]
    ensures d[i := was[i]] == was[..i + 1] + before[i + 1..]
  {
  }

  lemma LastIn(mem: seq<Byte>, head: int, tail: int, count: int, contents: seq<Byte>, c: Byte)
    requires Delimits(mem, head, tail, count, contents) && count < CIRC_BUFF_SIZE
    ensures 0 <= tail < CIRC_BUFF_SIZE
    ensures Delimits(mem[tail := c], head, At(tail, 1), count + 1, contents + [c])
  {
  }

  class CircBuff {
    const mem: array<Byte>
    var head: int
    var tail: int
    var count: int
    ghost var contents: seq<Byte>

    ghost predicate Valid()
      reads this, mem
    {
      Delimits(mem[..], head, tail, count, contents)
    }

    /** init_circ_buff */
    constructor ()
      ensures Valid() && fresh(mem) && contents == []
    {
      mem := new Byte[CIRC_BUFF_SIZE](_ => 0);
      head, tail, count, contents := 0, 0, 0, [];
    }

    /** Also true of a full ring. */
    method IsEmpty() returns (yes: bool)
      requires Valid()
      ensures yes <==> contents == [] || |contents| == CIRC_BUFF_SIZE
    {
      yes := head == tail;
    }

    method IsFull() returns (yes: bool)
      requires Valid()
      ensures yes <==> |contents| == CIRC_BUFF_SIZE
    {
      yes := count == CIRC_BUFF_SIZE;
    }

    method GetSize() returns (n: int)
      requires Valid()
      ensures n == |contents|
    {
      n := count;
    }

    /** The oldest characters, at most size of them, moved to the front of dest; none from a full ring. */
    method GetCharacter(dest: array<Byte>, size: int) returns (n: nat)
      requires Valid() && dest != mem && size <= dest.Length
      modifies this, dest
      ensures Valid() && n == (if size < 0 then 0 else Movable(old(contents), size))
      ensures contents == old(contents)[n..]
      ensures dest[..] == old(contents)[..n] + old(dest[..])[n..]
    {
      hide Delimits, At;
      ghost var was := contents;
      var i := 0;
      var stop := IsEmpty();
      RingFacts(mem[..], head, tail, count, contents);
      while i < size && !stop
        modifies this, dest
        invariant 0 <= i <= |was| <= CIRC_BUFF_SIZE && Valid()
        invariant stop <==> |contents| == 0 || |contents| == CIRC_BUFF_SIZE
        invariant i > 0 ==> |was| < CIRC_BUFF_SIZE && i <= size
        invariant contents == was[i..]
        invariant i <= dest.Length && dest[..] == was[..i] + old(dest[..])[i..]
        decreases size - i
      {
        FirstOut(mem[..], head, tail, count, contents);
        AtIsMod(head, 1);
        ghost var so := dest[..];
        dest[i] := mem[head];
        head := (head + 1) % CIRC_BUFF_SIZE;
        count := count - 1;
        contents := contents[1..];
        Appended(was, i, old(dest[..]), so);
        i := i + 1;
        stop := IsEmpty();
      }
      return i;
    }

    /** A character at the end, unless the ring is full. */
    method SaveCharacter(c: Byte) returns (code: int)
      requires Valid()
      modifies this, mem
      ensures Valid() && contents == RingSaved(old(contents), c)
      ensures code == if |old(contents)| == CIRC_BUFF_SIZE then -1 else 0
    {
      var full := IsFull();
      if full { return -1; }
      LastIn(mem[..], head, tail, count, contents, c);
      AtIsMod(tail, 1);
      mem[tail] := c;
      tail := (tail + 1) % CIRC_BUFF_SIZE;
      count := count + 1;
      contents := contents + [c];
      return 0;
    }
  }

  // ---------- sequences of operations ----------

  datatype RingOp = Save(c: Byte) | Get(size: nat)

  /** Contents and everything handed out so far. */
  datatype RingState = RingState(ring: seq<Byte>, got: seq<Byte>)

  function RingStep(s: RingState, op: RingOp): (s': RingState) {
    match op
    case Save(c) => s.(ring := RingSaved(s.ring, c))
    case Get(size) => RingState(s.ring[Movable(s.ring, size)..], s.got + s.ring[..Movable(s.ring, size)])
  }

  function RingRun(s: RingState, ops: seq<RingOp>): (s': RingState)
    decreases |ops|
  {
    if ops == [] then s else RingStep(RingRun(s, ops[..|ops| - 1]), ops[|ops| - 1])
  }

  /** The characters of the saves that found room. */
  function Kept(s: RingState, ops: seq<RingOp>): (r: seq<Byte>)
    decreases |ops|
  {
    if ops == [] then []
    else
      var was, op := ops[..|ops| - 1], ops[|ops| - 1];
      Kept(s, was) + if op.Save? && |RingRun(s, was).ring| != CIRC_BUFF_SIZE then [op.c] else []
  }

  /** First in, first out: what is handed out, followed by what is still in the ring, is what was in it
      followed by what was kept, in order. */
  lemma {:induction false} FirstInFirstOut(s: RingState, ops: seq<RingOp>)
    ensures RingRun(s, ops).got + RingRun(s, ops).ring == s.got + s.ring + Kept(s, ops)
  {
    if ops != [] {
      var was, op := ops[..|ops| - 1], ops[|ops| - 1];
      FirstInFirstOut(s, was);
      var r := RingRun(s, was);
      var k := Kept(s, was);
      match op
      case Get(size) =>
        var n := Movable(r.ring, size);
        assert (r.got + r.ring[..n]) + r.ring[n..] == r.got + r.ring;
        assert Kept(s, ops) == k;
      case Save(c) =>
        assert r.got + (r.ring + [c]) == (r.got + r.ring) + [c];
        assert (s.got + s.ring) + (k + [c]) == ((s.got + s.ring) + k) + [c];
    }
  }

  /** A full ring looks both full and empty, so nothing gets in or out any more. */
  lemma {:induction false} FullForGood(s: RingState, ops: seq<RingOp>)
    requires |s.ring| == CIRC_BUFF_SIZE
    ensures RingRun(s, ops) == s
  {
    if ops != [] {
      FullForGood(s, ops[..|ops| - 1]);
    }
  }

  // ---------- a method for a whole sequence ----------

  /** The class performs any sequence of operations as RingRun says. */
  method PerformOps(cb: CircBuff, ops: seq<RingOp>, dest: array<Byte>) returns (got: seq<Byte>)
    requires cb.Valid() && dest != cb.mem && forall i :: 0 <= i < |ops| && ops[i].Get? ==> ops[i].size <= dest.Length
    modifies cb, cb.mem, dest
    ensures cb.Valid() && RingState(cb.contents, got) == RingRun(RingState(old(cb.contents), []), ops)
  {
    got := [];
    ghost var s := RingState(cb.contents, []);
    var i := 0;
    while i < |ops|
      invariant 0 <= i <= |ops| && cb.Valid() && RingState(cb.contents, got) == RingRun(s, ops[..i])
    {
      assert ops[..i + 1][..i] == ops[..i];
      match ops[i] {
        case Save(c) =>
          var code := cb.SaveCharacter(c);
        case Get(size) =>
          var n := cb.GetCharacter(dest, size);
          got := got + dest[..n];
      }
      i := i + 1;
    }
    assert ops[..i] == ops;
  }
}
