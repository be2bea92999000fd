/** The PELT rule (kmod/checkers/pelt.c): an integer floor under an exponential decay, and that it never
    accuses a signal that decays as slowly as it should. */
module Pelt {

  function Pow(b: nat, n: nat): nat { if n == 0 then 1 else b * Pow(b, n - 1) }

  // ---- powers ----

  lemma Assoc(a: int, b: int, c: int)
    ensures (a * b) * c == a * (b * c)
  {}

  lemma Regroup(a: int, b: int, x: int, y: int)
    ensures (a * b) * (x * y) == (a * x) * (b * y)
  {
    assert (a * b) * (x * y) == a * (b * (x * y));
    assert b * (x * y) == x * (b * y);
    assert a * (x * (b * y)) == (a * x) * (b * y);
  }

  lemma {:induction false} PowOfProduct(a: nat, b: nat, n: nat)
    ensures Pow(a * b, n) == Pow(a, n) * Pow(b, n)
    decreases n
  {
    if n > 0 {
      PowOfProduct(a, b, n - 1);
      Regroup(a, b, Pow(a, n - 1), Pow(b, n - 1));
    }
  }

  lemma {:induction false} PowOfSum(b: nat, m: nat, n: nat)
    ensures Pow(b, m + n) == Pow(b, m) * Pow(b, n)
    decreases m
  {
    if m > 0 {
      PowOfSum(b, m - 1, n);
      assert b * (Pow(b, m - 1) * Pow(b, n)) == (b * Pow(b, m - 1)) * Pow(b, n);
    }
  }

  lemma {:induction false} PowOfPow(b: nat, h: nat, n: nat)
    ensures Pow(Pow(b, h), n) == Pow(b, h * n)
    decreases n
  {
    if n > 0 {
      PowOfPow(b, h, n - 1);
      PowOfSum(b, h, h * (n - 1));
      assert h + h * (n - 1) == h * n;
    } else {
      assert h * 0 == 0;
    }
  }

  lemma MulUp(a: nat, b: nat, c: nat)
    requires a <= b
    ensures a * c <= b * c
  {
    assert b * c == a * c + (b - a) * c;
  }

  lemma {:induction false} PowUp(a: nat, b: nat, n: nat)
    requires a <= b
    ensures Pow(a, n) <= Pow(b, n)
    decreases n
  {
    if n > 0 {
      PowUp(a, b, n - 1);
      MulUp(a, b, Pow(a, n - 1));
      MulUp(Pow(a, n - 1), Pow(b, n - 1), b);
    }
  }

  lemma {:induction false} PowPositive(b: nat, n: nat)
    requires b > 0
    ensures Pow(b, n) > 0
    decreases n
  {
    if n > 0 {
      PowPositive(b, n - 1);
      MulUp(1, b, Pow(b, n - 1));
    }
  }

  lemma {:induction false} PowStrict(a: nat, b: nat, n: nat)
    requires a < b && n > 0
    ensures Pow(a, n) < Pow(b, n)
  {
    PowUp(a, b, n - 1);
    PowPositive(b, n - 1);
    MulUp(Pow(a, n - 1), Pow(b, n - 1), a);
    MulUp(a + 1, b, Pow(b, n - 1));
    assert (a + 1) * Pow(b, n - 1) == a * Pow(b, n - 1) + Pow(b, n - 1);
  }

  /** The first two terms of the binomial. */
  lemma {:induction false} TwoTerms(m: nat, n: nat)
    requires n > 0
    ensures Pow(m + 1, n) >= Pow(m, n) + n * Pow(m, n - 1)
    decreases n
  {
    if n > 1 {
      TwoTerms(m, n - 1);
      TwoTermsStep(m, n, Pow(m, n - 2), Pow(m, n - 1), Pow(m + 1, n - 1));
    } else {
      assert Pow(m + 1, 1) == (m + 1) * Pow(m + 1, 0) == m + 1;
      assert Pow(m, 1) == m * Pow(m, 0) == m;
    }
  }

  lemma TwoTermsStep(m: nat, n: nat, a: nat, b: nat, c: nat)
    requires n > 1 && b == m * a && c >= b + (n - 1) * a
    ensures (m + 1) * c >= m * b + n * b
  {
    var t := (n - 1) * a;
    MulUp(b + t, c, m + 1);
    Spread(b, t, m);
    assert t * m == (n - 1) * b by {
      Assoc(n - 1, a, m);
    }
    Spread(n - 1, 1, b);
  }

  lemma Spread(x: int, y: int, m: int)
    ensures (x + y) * m == x * m + y * m && (x + y) * (m + 1) == x * m + y * m + x + y
  {}

  lemma NextAtLeastDoubles(m: nat, n: nat)
    requires m <= n && n > 0
    ensures 2 * Pow(m, n) <= Pow(m + 1, n)
  {
    TwoTerms(m, n);
    MulUp(m, n, Pow(m, n - 1));
  }

  /** 1 - r/p lies under 2^(-r/p), over the integers. */
  lemma {:induction false} ChordUnderDecay(p: nat, r: nat)
    requires 0 < p && r <= p
    ensures Pow(p - r, p) * Pow(2, r) <= Pow(p, p)
    decreases r
  {
    if r > 0 {
      ChordUnderDecay(p, r - 1);
      NextAtLeastDoubles(p - r, p);
      MulUp(2 * Pow(p - r, p), Pow(p - r + 1, p), Pow(2, r - 1));
      assert Pow(p - r, p) * (2 * Pow(2, r - 1)) == (2 * Pow(p - r, p)) * Pow(2, r - 1);
    }
  }

  // ---- a signal with a half-life of at least p ----

  /** cur >= last * 2^(-dt/p). */
  predicate DecaysNoFaster(p: nat, last: nat, cur: nat, dt: nat) { Pow(last, p) <= Pow(cur, p) * Pow(2, dt) }

  lemma RootDown(a: nat, b: nat, p: nat)
    requires p > 0 && Pow(a, p) <= Pow(b, p)
    ensures a <= b
  {
    if a > b {
      PowStrict(b, a, p);
    }
  }

  lemma SplitTime(p: nat, cur: nat, h: nat, t: nat, r: nat)
    requires t == h * p
    ensures Pow(cur, p) * Pow(2, t + r) == Pow(cur * Pow(2, h), p) * Pow(2, r)
  {
    PowOfSum(2, t, r);
    PowOfPow(2, h, p);
    PowOfProduct(cur, Pow(2, h), p);
    Assoc(Pow(cur, p), Pow(2, t), Pow(2, r));
  }

  lemma ChordScales(l: nat, c: nat, two: nat, chord: nat, whole: nat)
    requires l <= c * two && chord * two <= whole
    ensures l * chord <= c * whole
  {
    MulUp(l, c * two, chord);
    MulUp(chord * two, whole, c);
    assert (c * two) * chord == (chord * two) * c;
  }

  lemma Compare(p: nat, a: nat, b: nat, l: nat, c: nat, two: nat, chord: nat, whole: nat)
    requires p > 0 && l <= c * two && chord * two <= whole
    requires Pow(a, p) == l * chord && Pow(b, p) == c * whole
    ensures a <= b
  {
    ChordScales(l, c, two, chord, whole);
    RootDown(a, b, p);
  }

  /** A signal c that was last is still above the chord, */
  lemma AboveChord(p: nat, last: nat, c: nat, r: nat, s: nat, a: nat, b: nat)
    requires p > 0 && r + s == p && Pow(last, p) <= Pow(c, p) * Pow(2, r) && a == last * s && b == c * p
    ensures a <= b
  {
    var chord, whole := Pow(s, p), Pow(p, p);
    assert chord * Pow(2, r) <= whole by { ChordUnderDecay(p, r); assert p - r == s; }
    assert Pow(a, p) == Pow(last, p) * chord by { PowOfProduct(last, s, p); }
    assert Pow(b, p) == Pow(c, p) * whole by { PowOfProduct(c, p, p); }
    Compare(p, a, b, Pow(last, p), Pow(c, p), Pow(2, r), chord, whole);
  }

  lemma CompareAll(p: nat, a: nat, b: nat, l: nat, c: nat, two: nat, all: nat)
    requires p > 0 && l <= c * two && two <= all
    requires Pow(a, p) == l && Pow(b, p) == c * all
    ensures a <= b
  {
    MulUp(two, all, c);
    RootDown(a, b, p);
  }

  lemma TwoUp(r: nat, p: nat)
    requires r <= p
    ensures Pow(2, r) <= Pow(2, p)
  {
    PowOfSum(2, r, p - r);
    PowPositive(2, p - r);
    MulUp(1, Pow(2, p - r), Pow(2, r));
  }

  /** and above half of it. */
  lemma AboveHalf(p: nat, last: nat, c: nat, r: nat)
    requires p > 0 && r < p && Pow(last, p) <= Pow(c, p) * Pow(2, r)
    ensures last <= 2 * c
  {
    TwoUp(r, p);
    PowOfProduct(c, 2, p);
    CompareAll(p, last, c * 2, Pow(last, p), Pow(c, p), Pow(2, r), Pow(2, p));
  }

  // ---- the rule ----

  const BITS := 64
  const HALF_LIFE := 32_000_000  // 32 ms, in ns

  /** x >> n. */
  function Shift(x: nat, n: nat): nat { if n == 0 then x else Shift(x / 2, n - 1) }

  lemma {:induction false} ShiftDivides(x: nat, n: nat)
    ensures Shift(x, n) * Pow(2, n) <= x
    decreases n
  {
    if n > 0 {
      ShiftDivides(x / 2, n - 1);
      Assoc(Shift(x, n), Pow(2, n - 1), 2);
    }
  }

  /** The factor, in 1024ths, of a part of a half-life. */
  function Chord(p: nat, rem: nat): (c: nat)
    requires rem < p
  {
    ChordIsRounded(p, rem);
    1024 - rem * 1024 / p
  }

  /** The floor of the check, for a half-life of p. */
  function Floor(p: nat, last: nat, dt: nat): nat
    requires p > 0
  {
    var halves, rem := dt / p, dt % p;
    var whole := if halves >= BITS then 0 else Shift(last, halves);
    Scale(whole, Chord(p, rem))
  }

  const WORD := 0x1_0000_0000_0000_0000

  /** f * c >> 10 on an unsigned long. */
  function Scale(f: nat, c: nat): nat { f * c % WORD / 1024 }

  predicate Warns(p: nat, last: nat, cur: nat, dt: nat)
    requires p > 0
  {
    var floor := Floor(p, last, dt);
    cur + 16 + floor / 16 < floor
  }

  /** The rounding of the chord, absorbed by the slack: f is the signal after whole half-lives. */
  lemma SlackAbsorbsRounding(p: nat, f: nat, cur: nat, r: nat)
    requires r < p && f * (p - r) <= cur * p && f <= 2 * cur
    ensures var floor := Scale(f, Chord(p, r)); floor <= cur + 16 + floor / 16
  {
    ChordIsRounded(p, r);
    var c := Chord(p, r);
    if c <= 512 {
      MulUp(c, 512, f);
    } else {
      RoundedUnder(p, f, cur, p - r, c);
      MulUp(512, c, f);
    }
    WrapOnlyLowers(f * c, cur);
  }

  /** A product that wraps only lowers the floor, and a lower floor asks for less. */
  lemma WrapOnlyLowers(x: nat, cur: nat)
    requires x / 1024 <= cur + 16 + x / 1024 / 16
    ensures x % WORD / 1024 <= cur + 16 + x % WORD / 1024 / 16
  {
    var y := x % WORD;
    assert y <= x;
  }

  lemma RoundedUnder(p: nat, f: nat, cur: nat, s: nat, c: nat)
    requires p > 0 && c * p <= 1024 * s + p && f * s <= cur * p
    ensures f * c <= 1024 * cur + f
  {
    MulUp(c * p, 1024 * s + p, f);
    assert (c * p) * f == (f * c) * p;
    assert (1024 * s + p) * f == 1024 * (f * s) + f * p;
    assert (1024 * cur + f) * p == 1024 * (cur * p) + f * p;
    CancelUp(f * c, 1024 * cur + f, p);
  }

  lemma CancelUp(a: nat, b: nat, p: nat)
    requires p > 0 && a * p <= b * p
    ensures a <= b
  {
    if a > b {
      assert (b + 1) * p == b * p + p;
      MulUp(b + 1, a, p);
    }
  }

  lemma ChordIsRounded(p: nat, r: nat)
    requires p > 0 && r < p
    ensures var c := 1024 - r * 1024 / p; 0 < c <= 1024 && c * p <= 1024 * (p - r) + p
  {
    var q := r * 1024 / p;
    assert r * 1024 == q * p + (r * 1024) % p;
    assert (1024 - q) * p == 1024 * p - q * p;
    if q >= 1024 {
      MulUp(1024, q, p);
    }
  }

  /** No signal with a half-life of at least p draws a warning, however long the gap and whatever it was. */
  lemma NoFalseWarning(p: nat, last: nat, cur: nat, dt: nat)
    requires p > 0 && DecaysNoFaster(p, last, cur, dt)
    ensures !Warns(p, last, cur, dt)
  {
    var h, r := dt / p, dt % p;
    if h < BITS {
      TimeSplits(p, dt);
      SplitTime(p, cur, h, h * p, r);
      PowPositive(2, h);
      ShiftDivides(last, h);
      var w, s := Pow(2, h), p - r;
      AboveChord(p, last, cur * w, r, s, last * s, (cur * w) * p);
      AboveHalf(p, last, cur * w, r);
      DropScale(p, last, cur, w, Shift(last, h), s);
      SlackAbsorbsRounding(p, Shift(last, h), cur, r);
    }
  }

  lemma TimeSplits(p: nat, dt: nat)
    requires p > 0
    ensures dt / p * p + dt % p == dt && dt % p < p
  {}

  lemma DropScale(p: nat, last: nat, cur: nat, w: nat, f: nat, s: nat)
    requires w > 0 && f * w <= last && last * s <= (cur * w) * p && last <= 2 * (cur * w)
    ensures f * s <= cur * p && f <= 2 * cur
  {
    MulUp(f * w, last, s);
    assert (f * w) * s == (f * s) * w;
    assert (cur * w) * p == (cur * p) * w;
    CancelUp(f * s, cur * p, w);
    CancelUp(f, 2 * cur, w);
  }

  // ---- and what it does accuse ----

  lemma ChordIsNotLow(p: nat, r: nat)
    requires r < p
    ensures Chord(p, r) * p >= 1024 * (p - r)
  {
    var q := r * 1024 / p;
    ChordIsRounded(p, r);
    assert r * 1024 == q * p + (r * 1024) % p;
    assert (1024 - q) * p == 1024 * p - q * p;
  }

  lemma ScaleIsNear(f: nat, c: nat)
    requires f * c < WORD
    ensures 1024 * Scale(f, c) + 1024 >= f * c
  {
    var x := f * c;
    assert x % WORD == x;
  }

  lemma ProductFits(f: nat, c: nat)
    requires c <= 1024 && f * 1024 < WORD
    ensures f * c < WORD
  {
    MulUp(c, 1024, f);
  }

  /** The floor is within one of the chord itself. */
  lemma FloorIsNearTheChord(p: nat, f: nat, s: nat, c: nat, floor: nat)
    requires c * p >= 1024 * s && 1024 * floor + 1024 >= f * c
    ensures floor * p + p >= f * s
  {
    MulUp(1024 * s, c * p, f);
    assert (1024 * s) * f == 1024 * (f * s);
    assert (c * p) * f == (f * c) * p;
    MulUp(f * c, 1024 * floor + 1024, p);
    assert (1024 * floor + 1024) * p == 1024 * (floor * p + p);
  }

  lemma LowSignalWarns(p: nat, floor: nat, cur: nat, chord: nat)
    requires p > 0 && floor * p + p >= chord && 16 * ((cur + 18) * p) <= 15 * chord
    ensures cur + 16 + floor / 16 < floor
  {
    assert 15 * (floor * p + p) == (15 * floor + 15) * p;
    assert 16 * ((cur + 18) * p) == (16 * cur + 288) * p;
    CancelUp(16 * cur + 288, 15 * floor + 15, p);
  }

  /** A signal that has fallen under fifteen sixteenths of the chord, less 18, draws a warning. */
  lemma FallIsWarned(p: nat, last: nat, cur: nat, dt: nat)
    requires p > 0 && dt / p < BITS && Shift(last, dt / p) * 1024 < WORD
    requires 16 * ((cur + 18) * p) <= 15 * (Shift(last, dt / p) * (p - dt % p))
    ensures Warns(p, last, cur, dt)
  {
    TimeSplits(p, dt);
    var f, r := Shift(last, dt / p), dt % p;
    ChordIsRounded(p, r);
    ChordIsNotLow(p, r);
    ProductFits(f, Chord(p, r));
    ScaleIsNear(f, Chord(p, r));
    FloorIsNearTheChord(p, f, p - r, Chord(p, r), Scale(f, Chord(p, r)));
    LowSignalWarns(p, Scale(f, Chord(p, r)), cur, f * (p - r));
  }

  /** The rule as 64-bit words compute it: the sum may wrap. */
  predicate WarnsInWords(p: nat, last: nat, cur: nat, dt: nat)
    requires p > 0
  {
    (cur + 16 + Floor(p, last, dt) / 16) % WORD < Floor(p, last, dt)
  }

  lemma FloorIsSmall(p: nat, last: nat, dt: nat)
    requires p > 0
    ensures Floor(p, last, dt) < WORD / 1024
  {}

  lemma SmallDivides(x: nat)
    requires x < WORD / 1024
    ensures x / 16 < WORD / 1024
  {}

  /** It does not, short of a utilization of 2^63: then the rule is the one without wrap, and a signal with a
      half-life of at least p draws no warning either. */
  lemma NoFalseWarningInWords(p: nat, last: nat, cur: nat, dt: nat)
    requires p > 0 && cur < WORD / 2
    ensures WarnsInWords(p, last, cur, dt) == Warns(p, last, cur, dt)
    ensures DecaysNoFaster(p, last, cur, dt) ==> !WarnsInWords(p, last, cur, dt)
  {
    FloorIsSmall(p, last, dt);
    SmallDivides(Floor(p, last, dt));
    if DecaysNoFaster(p, last, cur, dt) {
      NoFalseWarning(p, last, cur, dt);
    }
  }

  datatype Observation = Observation(util: nat, clock: nat, saturated: bool)

  class Checker {
    var last: seq<Observation>

    constructor (cpus: nat)
      ensures last == seq(cpus, _ => Observation(0, 0, false))
    {
      last := seq(cpus, _ => Observation(0, 0, false));
    }

    /** check, for one CPU at the end of a tick. */
    method Check(cpu: nat, cur: Observation) returns (warn: bool)
      requires cpu < |last|
      modifies this
      ensures last == old(last)[cpu := cur]
      ensures warn == (old(last)[cpu].saturated && cur.clock > old(last)[cpu].clock
        && WarnsInWords(HALF_LIFE, old(last)[cpu].util, cur.util, cur.clock - old(last)[cpu].clock))
    {
      var prev := last[cpu];
      warn := false;
      if prev.saturated && cur.clock > prev.clock {
        var dt := cur.clock - prev.clock;
        var halves, rem := dt / HALF_LIFE, dt % HALF_LIFE;
        var floor := if halves >= BITS then 0 else Shift(prev.util, halves);
        floor := floor * (1024 - rem * 1024 / HALF_LIFE) % WORD / 1024;
        assert floor == Floor(HALF_LIFE, prev.util, dt);
        warn := (cur.util + 16 + floor / 16) % WORD < floor;
      }
      last := last[cpu := cur];
    }
  }
}
