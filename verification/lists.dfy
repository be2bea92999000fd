/** Sequences of numbers used as ordered sets. */
module Lists {

  predicate Distinct(s: seq<int>) { forall i, j :: 0 <= i < j < |s| ==> s[i] != s[j] }

  function Pos(s: seq<int>, x: int): (i: nat)
    requires x in s
    ensures i < |s| && s[i] == x && x !in s[..i]
  {
    if s[0] == x then 0 else
      assert x in s[1..];
      var i := Pos(s[1..], x) + 1;
      assert s[..i] == [s[0]] + s[1..][..i - 1];
      i
  }

  /** list.remove(x), or nothing if it is not there. */
  function Without(s: seq<int>, x: int): seq<int> {
    if s == [] then [] else if s[0] == x then s[1..] else [s[0]] + Without(s[1..], x)
  }

  lemma {:induction false} WithoutKeeps(s: seq<int>, x: int)
    requires Distinct(s)
    ensures Distinct(Without(s, x))
    ensures forall y :: y in Without(s, x) <==> y in s && y != x
  {
    if s != [] {
      assert forall y :: y in s <==> y == s[0] || y in s[1..];
      assert s[0] !in s[1..];
      WithoutKeeps(s[1..], x);
      var r := Without(s[1..], x);
      assert s[0] != x ==> Without(s, x) == [s[0]] + r && s[0] !in r;
    }
  }

  lemma {:induction false} WithoutIsShorter(s: seq<int>, x: int)
    requires x in s
    ensures |Without(s, x)| == |s| - 1
  {
    if s[0] != x {
      assert x in s[1..];
      WithoutIsShorter(s[1..], x);
    }
  }

  lemma {:induction false} DistinctFits(s: seq<int>, n: nat)
    requires Distinct(s) && forall x :: x in s ==> 0 <= x < n
    ensures |s| <= n
    decreases n
  {
    if s != [] {
      assert s[0] in s;
      WithoutKeeps(s, n - 1);
      if n - 1 in s {
        WithoutIsShorter(s, n - 1);
        DistinctFits(Without(s, n - 1), n - 1);
      } else {
        DistinctFits(s, n - 1);
      }
    }
  }

  /** Distinct elements of b are no more than b has. */
  lemma {:induction false} DistinctAmong(a: seq<int>, b: seq<int>)
    requires Distinct(a) && forall x :: x in a ==> x in b
    ensures |a| <= |b|
  {
    if a != [] {
      assert a[0] in a && a[0] !in a[1..];
      WithoutIsShorter(b, a[0]);
      forall x | x in a[1..]
        ensures x in Without(b, a[0])
      {
        assert x in a;
        WithoutHolds(b, a[0], x);
      }
      DistinctAmong(a[1..], Without(b, a[0]));
    }
  }

  lemma {:induction false} WithoutHolds(s: seq<int>, x: int, y: int)
    requires y in s && y != x
    ensures y in Without(s, x)
  {
    if s[0] != x && s[0] != y {
      assert y in s[1..];
      WithoutHolds(s[1..], x, y);
    } else if s[0] == x {
      assert y in s[1..];
    }
  }
}
