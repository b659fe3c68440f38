/** A FIFO queue in a growing ring buffer (internal/platform/queue.go). */
module Queues {

  // ------------------------------------------------------------------ the ring

  /** Where the k-th element from `head` is stored. */
  function Slot(cap: nat, head: nat, k: nat): (i: nat)
    requires head < cap && k <= cap
    ensures i < cap
  {
    if head + k < cap then head + k else head + k - cap
  }

  /** How far slot `i` is from `head`. */
  function Offset(cap: nat, head: nat, i: nat): (k: nat)
    requires head < cap && i < cap
    ensures k < cap
  {
    if i >= head then i - head else i + cap - head
  }

  lemma Remainder(cap: nat, i: nat, q: int, m: nat)
    requires 0 < cap && i < 2 * cap && i == cap * q + m && m < cap
    ensures m == if i < cap then i else i - cap
  {
  }

  /** The remainder that the code computes. */
  lemma Wraps(cap: nat, head: nat, k: nat)
    requires head < cap && k <= cap
    ensures (head + k) % cap == Slot(cap, head, k)
  {
    Remainder(cap, head + k, (head + k) / cap, (head + k) % cap);
  }

  predicate WellPlaced(cap: nat, head: nat, len: nat) {
    len <= cap && (if cap == 0 then head == 0 else head < cap)
  }

  /** The queue that a ring holds: `len` elements from `head` on, around the end. */
  function Live<T>(buf: seq<T>, head: nat, len: nat): (q: seq<T>)
    requires WellPlaced(|buf|, head, len)
    ensures |q| == len
    ensures forall k :: 0 <= k < len ==> q[k] == buf[Slot(|buf|, head, k)]
  {
    seq(len, k requires 0 <= k < len => buf[Slot(|buf|, head, k)])
  }

  /** Every slot outside the live window holds the zero value. */
  ghost predicate Cleared<T>(buf: seq<T>, head: nat, len: nat, zero: T)
    requires WellPlaced(|buf|, head, len)
  {
    forall i :: 0 <= i < |buf| && Offset(|buf|, head, i) >= len ==> buf[i] == zero
  }

  /** Clearing the first slot and moving on drops the first element, and nothing else. */
  lemma DropFront<T>(buf: seq<T>, head: nat, len: nat, zero: T)
    requires WellPlaced(|buf|, head, len) && 0 < len && Cleared(buf, head, len, zero)
    ensures WellPlaced(|buf|, Slot(|buf|, head, 1), len - 1)
    ensures Live(buf[head := zero], Slot(|buf|, head, 1), len - 1) == Live(buf, head, len)[1..]
    ensures Cleared(buf[head := zero], Slot(|buf|, head, 1), len - 1, zero)
  {
    var cap, h := |buf|, Slot(|buf|, head, 1);
    assert forall k :: 0 <= k < len - 1 ==> Slot(cap, h, k) == Slot(cap, head, k + 1);
    assert forall i :: 0 <= i < cap && i != head ==> Offset(cap, head, i) == Offset(cap, h, i) + 1;
  }

  /** The same with the remainder that the code computes. */
  lemma Popped<T>(buf: seq<T>, head: nat, len: nat, zero: T)
    requires WellPlaced(|buf|, head, len) && 0 < len && Cleared(buf, head, len, zero)
    ensures 0 <= (head + 1) % |buf| && WellPlaced(|buf|, (head + 1) % |buf|, len - 1)
    ensures Live(buf, head, len)[0] == buf[head]
    ensures Live(buf[head := zero], (head + 1) % |buf|, len - 1) == Live(buf, head, len)[1..]
    ensures Cleared(buf[head := zero], (head + 1) % |buf|, len - 1, zero)
  {
    Wraps(|buf|, head, 1);
    DropFront(buf, head, len, zero);
    assert Slot(|buf|, head, 0) == head;
  }

  /** Writing behind the last element appends it, and nothing else. */
  lemma AddBack<T>(buf: seq<T>, head: nat, len: nat, zero: T, item: T)
    requires WellPlaced(|buf|, head, len) && len < |buf| && Cleared(buf, head, len, zero)
    ensures Live(buf[Slot(|buf|, head, len) := item], head, len + 1) == Live(buf, head, len) + [item]
    ensures Cleared(buf[Slot(|buf|, head, len) := item], head, len + 1, zero)
  {
    var cap, p := |buf|, Slot(|buf|, head, len);
    assert forall k :: 0 <= k < len ==> Slot(cap, head, k) != p;
    assert forall i :: 0 <= i < cap && i != p ==> Offset(cap, head, i) != len;
  }

  lemma Pushed<T>(buf: seq<T>, head: nat, len: nat, zero: T, item: T)
    requires WellPlaced(|buf|, head, len) && len < |buf| && Cleared(buf, head, len, zero)
    ensures 0 <= (head + len) % |buf| < |buf|
    ensures Live(buf[(head + len) % |buf| := item], head, len + 1) == Live(buf, head, len) + [item]
    ensures Cleared(buf[(head + len) % |buf| := item], head, len + 1, zero)
  {
    Wraps(|buf|, head, len);
    AddBack(buf, head, len, zero, item);
  }

  /** A ring with its elements at the front and nothing else. */
  lemma Unwrapped<T>(buf: seq<T>, q: seq<T>, zero: T)
    requires |q| < |buf|
    requires forall k :: 0 <= k < |q| ==> buf[k] == q[k]
    requires forall k :: |q| <= k < |buf| ==> buf[k] == zero
    ensures Live(buf, 0, |q|) == q && Cleared(buf, 0, |q|, zero)
  {
    assert forall k :: 0 <= k < |q| ==> Slot(|buf|, 0, k) == k;
  }

  // ------------------------------------------------------------------ the cost

  datatype Op = Pushing | Popping

  /** Capacity and length of the ring, its greatest length so far, how many elements were
      pushed, and how many were copied when it grew. */
  datatype Shape = Shape(cap: nat, len: nat, peak: nat, pushes: nat, copied: nat)

  const EMPTY := Shape(0, 0, 0, 0, 0)

  function AfterPush(s: Shape): Shape {
    var s1 := if s.len == s.cap then s.(cap := (s.cap + 1) * 2, copied := s.copied + s.len) else s;
    s1.(len := s.len + 1, peak := if s.len + 1 > s.peak then s.len + 1 else s.peak, pushes := s.pushes + 1)
  }

  function AfterPop(s: Shape): Shape {
    if s.len == 0 then s else s.(len := s.len - 1)
  }

  function After(ops: seq<Op>): Shape {
    if ops == [] then EMPTY
    else
      var s := After(ops[..|ops| - 1]);
      if ops[|ops| - 1] == Pushing then AfterPush(s) else AfterPop(s)
  }

  /** Growth is paid for: over any sequence of pushes and pops, all copying together is at
      most twice the greatest length the queue ever had, hence at most twice the pushes. */
  lemma {:induction false} CopyingIsAmortized(ops: seq<Op>)
    ensures var s := After(ops);
      && s.len <= s.cap && s.len <= s.peak <= s.pushes
      && s.copied <= s.cap <= 2 * s.peak
      && s.copied <= 2 * s.pushes
  {
    if ops != [] {
      CopyingIsAmortized(ops[..|ops| - 1]);
    }
  }

  function Growths(ops: seq<Op>): nat {
    if ops == [] then 0
    else
      var s := After(ops[..|ops| - 1]);
      Growths(ops[..|ops| - 1]) + if ops[|ops| - 1] == Pushing && s.len == s.cap then 1 else 0
  }

  /** The bound on the copies is tight: the capacity exceeds them by two for each growth. */
  lemma {:induction false} CapacityIsCopiesPlusGrowths(ops: seq<Op>)
    ensures After(ops).cap == After(ops).copied + 2 * Growths(ops)
    ensures After(ops).len <= After(ops).cap
  {
    if ops != [] {
      CapacityIsCopiesPlusGrowths(ops[..|ops| - 1]);
    }
  }

  /** What `pushes` and `peak` count: the pushes, and the greatest length that any of the
      calls left, which one of them did leave. */
  lemma {:induction false} PushesAndPeak(ops: seq<Op>)
    ensures After(ops).pushes == multiset(ops)[Pushing]
    ensures forall n :: 0 <= n <= |ops| ==> After(ops[..n]).len <= After(ops).peak
    ensures exists n :: 0 <= n <= |ops| && After(ops[..n]).len == After(ops).peak
  {
    assert ops[..|ops|] == ops;
    if ops != [] {
      var before := ops[..|ops| - 1];
      PushesAndPeak(before);
      assert ops == before + [ops[|ops| - 1]];
      assert forall n :: 0 <= n <= |before| ==> before[..n] == ops[..n];
    }
  }

  lemma OneMoreOp(ops: seq<Op>, op: Op)
    ensures After(ops + [op]) == if op == Pushing then AfterPush(After(ops)) else AfterPop(After(ops))
  {
    assert (ops + [op])[..|ops|] == ops;
  }

  // ------------------------------------------------------------------ the queue

  class Queue<T> {
    var buf: array<T>
    var head: nat
    var len: nat
    const zero: T           // the element type's zero value
    ghost var shape: Shape
    ghost var ops: seq<Op>  // the calls so far
    ghost var copied: nat   // the elements that were copied from one buffer to another

    ghost predicate Valid()
      reads this, buf
    {
      && WellPlaced(buf.Length, head, len)
      && Cleared(buf[..], head, len, zero)
      && Accounted()
    }

    ghost predicate Accounted()
      reads this, buf
    {
      shape == After(ops) && shape.cap == buf.Length && shape.len == len && shape.copied == copied
    }

    ghost method Record(op: Op)
      requires shape == After(ops)
      modifies `shape, `ops
      ensures ops == old(ops) + [op] && shape == After(ops)
      ensures shape == if op == Pushing then AfterPush(old(shape)) else AfterPop(old(shape))
    {
      OneMoreOp(ops, op);
      shape, ops := After(ops + [op]), ops + [op];
    }

    ghost function Contents(): seq<T>
      reads this, buf
      requires Valid()
    {
      Live(buf[..], head, len)
    }

    /** The zero value of the type: a queue on an empty slice. */
    constructor (zero: T)
      ensures Valid() && Contents() == [] && ops == [] && this.zero == zero && fresh(buf)
    {
      buf := new T[0];
      head, len := 0, 0;
      this.zero := zero;
      shape, ops, copied := EMPTY, [], 0;
    }

    method Peek() returns (item: T, ok: bool)
      requires Valid()
      ensures ok <==> Contents() != []
      ensures item == if Contents() != [] then Contents()[0] else zero
    {
      if len == 0 {
        return zero, false;
      }
      assert Slot(buf.Length, head, 0) == head;
      return buf[head], true;
    }

    method Pop() returns (item: T, ok: bool)
      requires Valid()
      modifies this, buf
      ensures Valid() && buf == old(buf) && ops == old(ops) + [Popping]
      ensures ok <==> old(Contents()) != []
      ensures ok ==> item == old(Contents())[0] && Contents() == old(Contents())[1..]
      ensures !ok ==> item == zero && Contents() == old(Contents())
    {
      ghost var q, was, h, n := Contents(), buf[..], head, len;
      Record(Popping);
      if len == 0 {
        return zero, false;
      }
      ghost var next, h1 := was[h := zero], (h + 1) % |was|;
      Popped(was, h, n, zero);
      item := buf[head];
      assert item == q[0];
      assert Live(next, h1, n - 1) == q[1..] && Cleared(next, h1, n - 1, zero);
      buf[head] := zero;
      head := (head + 1) % buf.Length;
      len := len - 1;
      ok := true;
      assert buf[..] == next && head == h1;
    }

    method Push(item: T)
      requires Valid()
      modifies this, buf
      ensures Valid() && (buf == old(buf) || fresh(buf)) && ops == old(ops) + [Pushing]
      ensures Contents() == old(Contents()) + [item]
    {
      Record(Pushing);
      if len == buf.Length {
        Grow();
      }
      Store(item);
    }

    /** Lines 42-44: with room for it, the item goes behind the last element. */
    method Store(item: T)
      requires WellPlaced(buf.Length, head, len) && len < buf.Length && Cleared(buf[..], head, len, zero)
      modifies `len, buf
      ensures len == old(len) + 1 && Cleared(buf[..], head, len, zero)
      ensures Live(buf[..], head, len) == old(Live(buf[..], head, len)) + [item]
    {
      ghost var was, h, n, p := buf[..], head, len, (head + len) % buf.Length;
      ghost var q := Live(was, h, n);
      Pushed(was, h, n, zero, item);
      ghost var next := was[p := item];
      assert Live(next, h, n + 1) == q + [item] && Cleared(next, h, n + 1, zero);
      var pos := (head + len) % buf.Length;
      buf[pos] := item;
      len := len + 1;
      assert buf[..] == next;
    }

    /** Moves the elements to a larger buffer, in order. */
    method Grow()
      requires WellPlaced(buf.Length, head, len)
      modifies `buf, `head, `copied
      ensures fresh(buf) && buf.Length == (old(buf.Length) + 1) * 2 && head == 0
      ensures copied == old(copied) + len
      ensures Live(buf[..], head, len) == old(Live(buf[..], head, len))
      ensures Cleared(buf[..], head, len, zero)
    {
      ghost var q := Live(buf[..], head, len);
      var bigger := new T[(buf.Length + 1) * 2](_ => zero);
      for i := 0 to len
        invariant unchanged(`buf) && unchanged(`head) && unchanged(buf) && copied == old(copied) + i
        invariant forall k :: 0 <= k < i ==> bigger[k] == q[k]
        invariant forall k :: i <= k < bigger.Length ==> bigger[k] == zero
      {
        Wraps(buf.Length, head, i);
        var pos := (head + i) % buf.Length;
        bigger[i] := buf[pos];
        copied := copied + 1;
      }
      Unwrapped(bigger[..], q, zero);
      buf := bigger;
      head := 0;
    }
  }

  /** Over any calls, the loops of Grow together have copied at most twice as many elements
      as the queue ever held at once, hence at most twice as many as were pushed. */
  lemma CopiesOf<T>(q: Queue<T>)
    requires q.Valid()
    ensures q.copied <= q.buf.Length <= 2 * q.shape.peak <= 2 * q.shape.pushes
  {
    CopyingIsAmortized(q.ops);
  }
}
