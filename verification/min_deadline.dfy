/** The augmented-tree check of the min_deadline driver (kmod/drivers/min_deadline.c), under the kernel's
    wrapping comparison of 64-bit deadlines. */
module MinDeadline {

  const WORD := 0x1_0000_0000_0000_0000
  const HALF := 0x8000_0000_0000_0000

  type U64 = x: int | 0 <= x < WORD

  datatype Tree = Empty | Node(left: Tree, deadline: U64, min: U64, right: Tree)

  /** (s64)(a - b) < 0. */
  predicate Before(a: U64, b: U64) { (a - b) % WORD >= HALF }

  /** A child's min, where it comes before what is expected so far. */
  function Lower(child: Tree, expected: U64): U64 {
    if child.Node? && Before(child.min, expected) then child.min else expected
  }

  /** check_min_deadline_node: every node against itself and its children only. */
  predicate Check(t: Tree) {
    t.Empty? || (t.min == Lower(t.right, Lower(t.left, t.deadline)) && Check(t.left) && Check(t.right))
  }

  // ---- what the check is for ----

  predicate Holds(t: Tree, d: U64) { t.Node? && (t.deadline == d || Holds(t.left, d) || Holds(t.right, d)) }

  /** m is the deadline in t that no other comes before. */
  ghost predicate Least(t: Tree, m: U64) { Holds(t, m) && forall d: U64 :: Holds(t, d) ==> !Before(d, m) }

  ghost predicate AllLeast(t: Tree) { t.Empty? || (Least(t, t.min) && AllLeast(t.left) && AllLeast(t.right)) }

  /** How far d is past base, round the circle. */
  function Past(base: U64, d: U64): nat { (d - base) % WORD }

  /** All the deadlines of t lie in the half of the circle that starts at base. */
  ghost predicate HalfCircle(t: Tree, base: U64) { forall d: U64 :: Holds(t, d) ==> Past(base, d) < HALF }

  /** In one half of the circle, the wrapping comparison is the order of what is past its start. */
  lemma BeforeIsLess(base: U64, a: U64, b: U64)
    requires Past(base, a) < HALF && Past(base, b) < HALF
    ensures Before(a, b) <==> Past(base, a) < Past(base, b)
    ensures Past(base, a) == Past(base, b) <==> a == b
  {}

  lemma HalvesOfTree(t: Tree, base: U64)
    requires t.Node? && HalfCircle(t, base)
    ensures HalfCircle(t.left, base) && HalfCircle(t.right, base) && Past(base, t.deadline) < HALF
  {
    forall d: U64 | Holds(t.left, d) || Holds(t.right, d)
      ensures Past(base, d) < HALF
    {
      assert Holds(t, d);
    }
    assert Holds(t, t.deadline);
  }

  /** m is no later than anything t holds. */
  ghost predicate NoLater(t: Tree, m: U64, base: U64) { forall d: U64 :: Holds(t, d) ==> Past(base, m) <= Past(base, d) }

  lemma LeastIsNoLater(t: Tree, m: U64, base: U64)
    requires HalfCircle(t, base) && Holds(t, m)
    ensures Least(t, m) <==> NoLater(t, m, base)
  {
    forall d: U64 | Holds(t, d)
      ensures Before(d, m) <==> Past(base, d) < Past(base, m)
    {
      BeforeIsLess(base, d, m);
    }
  }

  /** One step towards a node's min: over its own deadline, or over what it was so far. */
  lemma LowerIsNoLater(child: Tree, so: U64, base: U64)
    requires HalfCircle(child, base) && Past(base, so) < HALF && (child.Node? ==> Least(child, child.min))
    ensures var m := Lower(child, so);
      Past(base, m) < HALF && Past(base, m) <= Past(base, so) && NoLater(child, m, base) && (m == so || Holds(child, m))
  {
    if child.Node? {
      LeastIsNoLater(child, child.min, base);
      BeforeIsLess(base, child.min, so);
    }
  }

  /** What a node is checked against is the least of its deadlines, if its children's mins are of theirs. */
  lemma ExpectedIsLeast(t: Tree, base: U64)
    requires t.Node? && HalfCircle(t, base)
    requires t.left.Node? ==> Least(t.left, t.left.min)
    requires t.right.Node? ==> Least(t.right, t.right.min)
    ensures Least(t, Lower(t.right, Lower(t.left, t.deadline)))
  {
    HalvesOfTree(t, base);
    var first := Lower(t.left, t.deadline);
    var m := Lower(t.right, first);
    LowerIsNoLater(t.left, t.deadline, base);
    LowerIsNoLater(t.right, first, base);
    LeastIsNoLater(t, m, base);
  }

  lemma LeastIsOne(t: Tree, a: U64, b: U64, base: U64)
    requires HalfCircle(t, base) && Least(t, a) && Least(t, b)
    ensures a == b
  {
    BeforeIsLess(base, a, b);
    BeforeIsLess(base, b, a);
  }

  /** The local check is true exactly when every node's min is the least deadline of its whole subtree. */
  lemma {:induction false} CheckExactlyWhenLeast(t: Tree, base: U64)
    requires HalfCircle(t, base)
    ensures Check(t) <==> AllLeast(t)
    decreases t
  {
    if t.Node? {
      HalvesOfTree(t, base);
      CheckExactlyWhenLeast(t.left, base);
      CheckExactlyWhenLeast(t.right, base);
      if AllLeast(t.left) && AllLeast(t.right) {
        var expected := Lower(t.right, Lower(t.left, t.deadline));
        ExpectedIsLeast(t, base);
        if Least(t, t.min) {
          LeastIsOne(t, t.min, expected, base);
        }
      }
    }
  }

  lemma LeastIsHalfCircle(t: Tree, m: U64)
    requires Least(t, m)
    ensures HalfCircle(t, m)
  {
    forall d: U64 | Holds(t, d)
      ensures Past(m, d) < HALF
    {
      assert !Before(d, m);
    }
  }

  /** And on any tree, with no assumption on its deadlines: every node's min is the least of its subtree exactly
      when the check accepts and the deadlines lie in the half circle that starts at the root's min. So the check
      never refuses a right tree, and what it accepts is right or reaches beyond that half circle. */
  lemma LeastExactlyInHalfCircle(t: Tree)
    ensures AllLeast(t) <==> Check(t) && (t.Node? ==> HalfCircle(t, t.min))
  {
    if t.Node? {
      if AllLeast(t) {
        LeastIsHalfCircle(t, t.min);
      }
      if HalfCircle(t, t.min) {
        CheckExactlyWhenLeast(t, t.min);
      }
    }
  }

  /** Trees beyond it exist: of three deadlines a third of the circle apart each comes before
      another, and the check accepts a tree that has no least. */
  lemma CheckBeyondHalfTheCircle()
    ensures exists t :: Check(t) && !AllLeast(t)
  {
    var a, b, c: U64 := 0, WORD / 3, 2 * (WORD / 3);
    var first, last := Node(Empty, b, b, Empty), Node(Empty, a, a, Empty);
    var t := Node(first, c, a, last);
    assert Before(a, b) && Before(b, c) && Before(c, a);
    assert first.min == b && last.min == a;
    assert Lower(first, c) == b;
    assert Lower(last, b) == a;
    assert Check(first) && Check(last) && Check(t);
    assert Holds(t, c) && Before(c, t.min);
  }
}
