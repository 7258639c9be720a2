// Transmit power. The programs compute with watts and convert with pow and log10. Here a positive
// power is named by its level in dBm, an arbitrary real; the first half of the module shows that this
// is no loss: comparing watts is comparing levels, and std::round(10 * log10(milliwatts)) is
// rounding the level.
module Power {
  // ---- milliwatts and levels ----

  function Pow(x: real, n: nat): real {
    if n == 0 then 1.0 else x * Pow(x, n - 1)
  }

  // mw is 10^((p/q)/10), the milliwatts of the level p/q dBm. JSON numbers are rational.
  predicate IsMilliwatts(mw: real, p: nat, q: nat) {
    mw > 0.0 && q > 0 && Pow(mw, 10 * q) == Pow(10.0, p)
  }

  // std::round(10 * log10(mw)) == k, that is k - 1/2 <= 10 * log10(mw) < k + 1/2, for mw >= 1.
  predicate RoundsTo(mw: real, k: nat) {
    (k > 0 ==> Pow(10.0, 2 * k - 1) <= Pow(mw, 20)) && Pow(mw, 20) < Pow(10.0, 2 * k + 1)
  }

  // p/q rounded to the nearest integer, halves up.
  function Nearest(p: nat, q: nat): nat
    requires q > 0
  {
    (2 * p + q) / (2 * q)
  }

  lemma {:induction false} PowPositive(x: real, n: nat)
    requires x > 0.0
    ensures Pow(x, n) > 0.0
  {
    if n > 0 {
      PowPositive(x, n - 1);
    }
  }

  lemma {:induction false} PowAdd(x: real, m: nat, n: nat)
    ensures Pow(x, m + n) == Pow(x, m) * Pow(x, n)
  {
    if m > 0 {
      PowAdd(x, m - 1, n);
      assert Pow(x, m + n) == x * Pow(x, m - 1 + n);
      MulAssoc(x, Pow(x, m - 1), Pow(x, n));
    }
  }

  lemma MulAssoc(a: real, b: real, c: real)
    ensures a * (b * c) == (a * b) * c
  {
  }

  lemma {:induction false} PowMul(x: real, m: nat, n: nat)
    ensures Pow(Pow(x, m), n) == Pow(x, m * n)
  {
    if n == 0 {
      assert m * n == 0;
    } else {
      PowMul(x, m, n - 1);
      assert m * n == m + m * (n - 1);
      PowAdd(x, m, m * (n - 1));
    }
  }

  lemma {:induction false} PowMonotone(a: real, b: real, n: nat)
    requires 0.0 < a <= b
    ensures Pow(a, n) <= Pow(b, n)
    ensures a < b && n > 0 ==> Pow(a, n) < Pow(b, n)
  {
    if n > 0 {
      PowMonotone(a, b, n - 1);
      PowPositive(a, n - 1);
      MulMonotone(a, b, Pow(a, n - 1), Pow(b, n - 1));
    }
  }

  lemma MulMonotone(a: real, b: real, c: real, d: real)
    requires 0.0 < a <= b && 0.0 < c <= d
    ensures a * c <= b * d
    ensures a < b ==> a * c < b * d
  {
    assert b * d - a * c == b * (d - c) + (b - a) * c;
  }

  // Raising to the n-th power neither creates nor loses an inequality.
  lemma PowOrder(a: real, b: real, n: nat)
    requires 0.0 < a && 0.0 < b && n > 0
    ensures a < b <==> Pow(a, n) < Pow(b, n)
  {
    if a <= b {
      PowMonotone(a, b, n);
    } else {
      PowMonotone(b, a, n);
    }
  }

  lemma {:induction false} PowTenOrder(m: nat, n: nat)
    ensures m < n <==> Pow(10.0, m) < Pow(10.0, n)
  {
    if m < n {
      PowTenGrows(m, n);
    } else if n < m {
      PowTenGrows(n, m);
    }
  }

  lemma {:induction false} PowTenGrows(m: nat, n: nat)
    requires m < n
    ensures Pow(10.0, m) < Pow(10.0, n)
  {
    PowPositive(10.0, n - 1);
    if m < n - 1 {
      PowTenGrows(m, n - 1);
    }
  }

  // Comparing milliwatts is comparing levels.
  lemma LevelOrder(mw1: real, p1: nat, q1: nat, mw2: real, p2: nat, q2: nat)
    requires IsMilliwatts(mw1, p1, q1) && IsMilliwatts(mw2, p2, q2)
    ensures mw1 < mw2 <==> p1 * q2 < p2 * q1
  {
    hide Pow;
    var n := 10 * q1 * q2;
    assert n > 0 by { assert q1 * q2 > 0; assert n == 10 * (q1 * q2); }
    PowOrder(mw1, mw2, n);
    RaisedLevel(mw1, p1, q1, q2);
    RaisedLevel(mw2, p2, q2, q1);
    assert (10 * q2) * q1 == n;
    PowTenOrder(p1 * q2, p2 * q1);
  }

  lemma RaisedLevel(mw: real, p: nat, q: nat, r: nat)
    requires IsMilliwatts(mw, p, q)
    ensures Pow(mw, (10 * q) * r) == Pow(10.0, p * r)
  {
    hide Pow;
    PowMul(mw, 10 * q, r);
    PowMul(10.0, p, r);
  }

  lemma RoundingBound(mw: real, p: nat, q: nat, m: nat)
    requires IsMilliwatts(mw, p, q)
    ensures Pow(mw, 20) < Pow(10.0, m) <==> 2 * p < m * q
    ensures Pow(10.0, m) <= Pow(mw, 20) <==> m * q <= 2 * p
  {
    hide Pow;
    PowPositive(mw, 20);
    PowPositive(10.0, m);
    PowOrder(Pow(mw, 20), Pow(10.0, m), q);
    PowMul(mw, 20, q);
    PowMul(10.0, m, q);
    RaisedLevel(mw, p, q, 2);
    assert (10 * q) * 2 == 20 * q && p * 2 == 2 * p;
    PowTenOrder(2 * p, m * q);
  }

  // The integer sent to the radio, computed from milliwatts, is the level rounded: it exists, it is
  // unique, and it is Nearest(p, q).
  lemma RoundingIsNearest(mw: real, p: nat, q: nat, k: nat)
    requires IsMilliwatts(mw, p, q)
    ensures RoundsTo(mw, k) <==> k == Nearest(p, q)
  {
    hide Pow;
    RoundingBound(mw, p, q, 2 * k + 1);
    if k > 0 {
      RoundingBound(mw, p, q, 2 * k - 1);
    }
    NearestBounds(p, q, k);
  }

  lemma NearestBounds(p: nat, q: nat, k: nat)
    requires q > 0
    ensures k == Nearest(p, q) <==> (k > 0 ==> (2 * k - 1) * q <= 2 * p) && 2 * p < (2 * k + 1) * q
  {
    var n, d := 2 * p + q, 2 * q;
    var r := n / d;
    assert n == d * r + n % d;
    assert (2 * k - 1) * q == d * k - q && (2 * k + 1) * q == d * k + q;
    assert d * (k - r) == d * k - d * r;
    if k > r {
      Scale(d, k - r);
    } else if k < r {
      assert d * (r - k) == d * r - d * k;
      Scale(d, r - k);
    }
  }

  lemma Scale(d: int, x: int)
    requires d > 0 && x >= 1
    ensures d * x >= d
  {
  }

  // ---- levels in the programs ----

  // A watts value of the programs: zero or negative, or positive with its level.
  datatype Watts = NotPositive | Dbm(level: real)

  // std::round: nearest integer, halves away from zero.
  function Round(x: real): int {
    if x >= 0.0 then (x + 0.5).Floor else -(-x + 0.5).Floor
  }

  predicate Below(w: Watts, limit: real) {
    w.NotPositive? || w.level < limit
  }

  predicate Above(w: Watts, limit: real) {
    w.Dbm? && w.level > limit
  }

  // A level of p/q is rounded as the milliwatts are.
  lemma RoundIsNearest(level: real, p: nat, q: nat)
    requires q > 0 && LevelIs(level, p, q)
    ensures Round(level) == Nearest(p, q)
  {
    NearestBounds(p, q, Nearest(p, q));
    NearestBoundsReal(level, p, q, Nearest(p, q));
  }

  predicate LevelIs(level: real, p: nat, q: nat) {
    level * q as real == p as real
  }

  // mw is the milliwatts of the level, a rational number of dBm.
  ghost predicate HasMilliwatts(level: real, mw: real) {
    exists p: nat, q: nat :: IsMilliwatts(mw, p, q) && LevelIs(level, p, q)
  }

  // What std::round computes from the milliwatts of a level is the level rounded.
  lemma MilliwattsRound(level: real, mw: real, k: nat)
    requires HasMilliwatts(level, mw)
    ensures RoundsTo(mw, k) <==> k == Round(level)
  {
    hide Pow, Nearest, RoundsTo, Round;
    var p: nat, q: nat :| IsMilliwatts(mw, p, q) && LevelIs(level, p, q);
    RoundingIsNearest(mw, p, q, k);
    RoundIsNearest(level, p, q);
  }

  // And comparing it with a limit in milliwatts is comparing their levels.
  lemma MilliwattsOrder(level: real, mw: real, other: real, mw2: real)
    requires HasMilliwatts(level, mw) && HasMilliwatts(other, mw2)
    ensures level < other <==> mw < mw2
  {
    hide IsMilliwatts;
    var p: nat, q: nat :| IsMilliwatts(mw, p, q) && LevelIs(level, p, q);
    var p2: nat, q2: nat :| IsMilliwatts(mw2, p2, q2) && LevelIs(other, p2, q2);
    LevelsOrdered(level, mw, p, q, other, mw2, p2, q2);
  }

  lemma LevelsOrdered(level: real, mw: real, p: nat, q: nat, other: real, mw2: real, p2: nat, q2: nat)
    requires IsMilliwatts(mw, p, q) && LevelIs(level, p, q)
    requires IsMilliwatts(mw2, p2, q2) && LevelIs(other, p2, q2)
    ensures level < other <==> mw < mw2
  {
    hide Pow;
    LevelOrder(mw, p, q, mw2, p2, q2);
    CrossMultiply(level, p, q, other, p2, q2);
  }

  lemma CrossMultiply(x: real, p: nat, q: nat, y: real, p2: nat, q2: nat)
    requires q > 0 && q2 > 0 && x * q as real == p as real && y * q2 as real == p2 as real
    ensures x < y <==> p * q2 < p2 * q
  {
    var d := q as real * q2 as real;
    assert x * d == p as real * q2 as real by { MulAssoc(x, q as real, q2 as real); }
    assert y * d == p2 as real * q as real by { MulAssoc(y, q2 as real, q as real); }
    assert d > 0.0;
    CancelFactor(x, y, d);
    assert (p * q2) as real == p as real * q2 as real && (p2 * q) as real == p2 as real * q as real;
  }

  lemma NearestBoundsReal(x: real, p: nat, q: nat, k: nat)
    requires q > 0 && x * q as real == p as real
    requires (k > 0 ==> (2 * k - 1) * q <= 2 * p) && 2 * p < (2 * k + 1) * q
    ensures x >= 0.0 && k as real <= x + 0.5 < k as real + 1.0
  {
    var n := k * q;
    assert (2 * k - 1) * q == 2 * n - q && (2 * k + 1) * q == 2 * n + q;
    assert 2 * n - q <= 2 * p < 2 * n + q;
    HalfUnit(x, k as real, q as real, p as real, n as real);
  }

  lemma HalfUnit(x: real, z: real, y: real, p: real, n: real)
    requires y > 0.0 && p >= 0.0 && x * y == p && z * y == n
    requires 2.0 * n - y <= 2.0 * p < 2.0 * n + y
    ensures x >= 0.0 && z <= x + 0.5 < z + 1.0
  {
    var low, high := x + 0.5 - z, z + 1.0 - (x + 0.5);
    assert low * y == p + 0.5 * y - n >= 0.0;
    assert high * y == n + 0.5 * y - p > 0.0;
    assert low >= 0.0 && high > 0.0;
    CancelFactor(0.0, x, y);
  }

  lemma CancelFactor(a: real, b: real, y: real)
    requires y > 0.0
    ensures a * y < b * y <==> a < b
    ensures a * y <= b * y <==> a <= b
  {
    assert b * y - a * y == (b - a) * y;
  }

  // The integer sent is the only one within half a dB by the rounding rule; it does not decrease
  // when the request grows, and it stays inside integer limits.
  lemma RoundQuantises(x: real, y: real, k: int)
    requires 0.0 <= x <= y
    ensures -0.5 <= x - Round(x) as real <= 0.5
    ensures k as real - 0.5 <= x < k as real + 0.5 <==> k == Round(x)
    ensures Round(x) <= Round(y)
    ensures k as real <= x ==> k <= Round(x)
    ensures x <= k as real ==> Round(x) <= k
  {
    assert (x + 0.5).Floor <= (y + 0.5).Floor;
  }

  // Integer requests are sent unchanged.
  lemma RoundInteger(k: int)
    ensures Round(k as real) == k
  {
  }
}
