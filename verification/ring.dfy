/** A fixed ring with two free-running 32-bit indices, the shape that both a task's action queue
    (kmod/task.c) and the channel's receive ring (kmod/io.c) use: the indices are never reduced,
    only the slot they select is, so they wrap at 2^32 and not at the capacity. */
module Ring {
  const WORD := 0x1_0000_0000

  datatype Option<+T> = None | Some(value: T)

  /** What makes the indices' own wrap invisible: the capacity divides 2^32. */
  predicate Capacity(cap: nat) {
    0 < cap < WORD && WORD % cap == 0
  }

  /** x + 1 and y - x as the source's u32 computes them. */
  function Next(x: nat): nat { (x + 1) % WORD }

  function Gap(x: nat, y: nat): nat { (y - x) % WORD }

  /** The slot that the k-th index from a selects. */
  function Slot(a: nat, k: nat, cap: nat): nat
    requires 0 < cap
  {
    (a + k) % cap
  }

  /** The n elements whose indices start at head. */
  ghost function Window<T>(slots: seq<T>, head: nat, n: nat): (w: seq<T>)
    requires 0 < |slots|
    ensures |w| == n
    ensures forall k: nat {:trigger w[k]} :: k < n ==> w[k] == slots[Slot(head, k, |slots|)]
  {
    seq(n, k requires 0 <= k => slots[Slot(head, k, |slots|)])
  }

  class Ring<T(0)> {
    const slots: array<T>
    var head: nat  // next to read, a u32
    var tail: nat  // next to write, a u32

    ghost predicate Valid()
      reads this, slots
    {
      && Capacity(slots.Length)
      && head < WORD && tail < WORD
      && Gap(head, tail) <= slots.Length
    }

    /** What is waiting, oldest first. */
    ghost function Contents(): (s: seq<T>)
      requires Valid()
      reads this, slots
      ensures |s| == Gap(head, tail) <= slots.Length
    {
      Window(slots[..], head, Gap(head, tail))
    }

    constructor (capacity: nat, zero: T)
      requires Capacity(capacity)
      ensures Valid() && Contents() == [] && slots.Length == capacity
      ensures fresh(slots)
    {
      slots := new T[capacity](_ => zero);
      head, tail := 0, 0;
    }

    method Take() returns (x: Option<T>)
      requires Valid()
      modifies this`head
      ensures Valid()
      ensures old(Contents()) == [] ==> x == None && Contents() == []
      ensures old(Contents()) != [] ==> x == Some(old(Contents())[0]) && Contents() == old(Contents())[1..]
    {
      if head == tail {
        return None;
      }
      x := Some(slots[Slot(head, 0, slots.Length)]);
      Advance(head, tail);
      WindowTail(slots[..], head, Gap(head, tail));
      head := Next(head);
    }

    /** False when the ring is full, where both callers panic. */
    method Put(x: T) returns (ok: bool)
      requires Valid()
      modifies this`tail, slots
      ensures Valid()
      ensures ok <==> |old(Contents())| < slots.Length
      ensures Contents() == if ok then old(Contents()) + [x] else old(Contents())
    {
      if Gap(head, tail) >= slots.Length {
        return false;
      }
      Extend(head, tail);
      WindowSnoc(slots[..], head, tail, x);
      slots[Slot(tail, 0, slots.Length)] := x;
      tail := Next(tail);
      ok := true;
    }
  }

  /** Advancing head, wrap or not, drops the oldest. */
  lemma WindowTail<T>(slots: seq<T>, head: nat, n: nat)
    requires Capacity(|slots|) && 0 < n
    ensures Window(slots, Next(head), n - 1) == Window(slots, head, n)[1..]
  {
    var next := Next(head);
    WrapKeepsSlots(head, next, |slots|);
    forall k: nat | k < n - 1
      ensures Window(slots, next, n - 1)[k] == Window(slots, head, n)[1..][k]
    {
      assert Window(slots, head, n)[1..][k] == Window(slots, head, n)[k + 1];
    }
  }

  /** Writing at tail's slot, with room left, disturbs nothing that waits and adds x behind it. */
  lemma WindowSnoc<T>(slots: seq<T>, head: nat, tail: nat, x: T)
    requires Capacity(|slots|) && head < WORD && tail < WORD && Gap(head, tail) < |slots|
    ensures var n := Gap(head, tail);
      Window(slots[Slot(tail, 0, |slots|) := x], head, n + 1) == Window(slots, head, n) + [x]
  {
    var n := Gap(head, tail);
    TailSlot(head, tail, |slots|);
    SlotsApart(head, n, |slots|);
  }

  lemma Advance(head: nat, tail: nat)
    requires head < WORD && tail < WORD && head != tail
    ensures Next(head) < WORD && 0 < Gap(head, tail)
    ensures Gap(Next(head), tail) == Gap(head, tail) - 1
  {}

  lemma Extend(head: nat, tail: nat)
    requires head < WORD && tail < WORD && Gap(head, tail) < WORD - 1
    ensures Next(tail) < WORD
    ensures Gap(head, Next(tail)) == Gap(head, tail) + 1
  {}

  lemma Scale(cap: nat, d: int)
    ensures d >= 1 ==> cap * d >= cap
    ensures d <= -1 ==> cap * d <= 0 - cap
    ensures cap * 0 == 0
  {}

  /** Division is unique: the one fact about it the rest needs. */
  lemma SlotIs(x: nat, q: int, r: nat, cap: nat)
    requires 0 < cap && r < cap && x == cap * q + r
    ensures x % cap == r
  {
    var d := q - x / cap;
    assert x == cap * (x / cap) + x % cap;
    assert cap * d == cap * q - cap * (x / cap);
    Scale(cap, d);
  }

  /** Reducing an index modulo 2^32 first does not change the slot it selects. */
  lemma WrapKeepsSlot(a: nat, k: nat, cap: nat)
    requires Capacity(cap)
    ensures Slot(a % WORD, k, cap) == Slot(a, k, cap)
  {
    var x, w, m := a % WORD + k, WORD / cap, a / WORD;
    assert WORD == cap * w;
    assert a + k == cap * (x / cap) + x % cap + WORD * m;
    assert (cap * w) * m == cap * (w * m);
    assert cap * (x / cap + w * m) == cap * (x / cap) + cap * (w * m);
    SlotIs(a + k, x / cap + w * m, x % cap, cap);
  }

  /** What was one step away from head is where the advanced head now points. */
  lemma WrapKeepsSlots(head: nat, next: nat, cap: nat)
    requires Capacity(cap) && next == Next(head)
    ensures forall k: nat {:trigger Slot(next, k, cap)} :: Slot(next, k, cap) == Slot(head, k + 1, cap)
  {
    forall k: nat {:trigger Slot(next, k, cap)}
      ensures Slot(next, k, cap) == Slot(head, k + 1, cap)
    {
      WrapKeepsSlot(head + 1, k, cap);
      assert head + 1 + k == head + (k + 1);
    }
  }

  lemma TailSlot(head: nat, tail: nat, cap: nat)
    requires Capacity(cap) && head < WORD && tail < WORD
    ensures Slot(tail, 0, cap) == Slot(head, Gap(head, tail), cap)
  {
    var n := Gap(head, tail);
    assert (head + n) % WORD == tail;
    WrapKeepsSlot(head + n, 0, cap);
  }

  /** Fewer than cap consecutive indices select different slots. */
  lemma SlotsApart(head: nat, n: nat, cap: nat)
    requires 0 < cap && n < cap
    ensures forall k: nat :: k < n ==> Slot(head, k, cap) != Slot(head, n, cap)
  {
    forall k: nat | k < n
      ensures Slot(head, k, cap) != Slot(head, n, cap)
    {
      var q, p := (head + k) / cap, (head + n) / cap;
      assert head + k == cap * q + (head + k) % cap;
      assert head + n == cap * p + (head + n) % cap;
      assert cap * (p - q) == cap * p - cap * q;
      Scale(cap, p - q);
    }
  }
}
