/** Quantising a group of activations to signed bytes: d = max|x| / 127, q = round(x / d). */
module Q8Activation {
  import opened LinearAlgebra

  function Abs(x: real): (a: real)
    ensures a >= 0.0 && (a == x || a == -x) && x <= a && -x <= a
  {
    if x < 0.0 then -x else x
  }

  /** The largest magnitude of x[start .. start + n). */
  function MaxAbs(x: Vec, start: nat, n: nat): (m: real)
    requires start + n <= |x|
    ensures m >= 0.0
  {
    if n == 0 then 0.0
    else
      var before, a := MaxAbs(x, start, n - 1), Abs(x[start + n - 1]);
      if before < a then a else before
  }

  function Sum(x: Vec, start: nat, n: nat): real
    requires start + n <= |x|
  {
    if n == 0 then 0.0 else Sum(x, start, n - 1) + x[start + n - 1]
  }

  lemma {:induction false} MaxAbsBounds(x: Vec, start: nat, n: nat, i: nat)
    requires i < n && start + n <= |x|
    ensures Abs(x[start + i]) <= MaxAbs(x, start, n)
  {
    if i < n - 1 { MaxAbsBounds(x, start, n - 1, i); }
  }

  /** ... and the bound is attained: it is the magnitude of some entry. */
  lemma {:induction false} MaxAbsAttained(x: Vec, start: nat, n: nat) returns (i: nat)
    requires 0 < n && start + n <= |x|
    ensures i < n && MaxAbs(x, start, n) == Abs(x[start + i])
  {
    if n == 1 || MaxAbs(x, start, n - 1) < Abs(x[start + n - 1]) {
      i := n - 1;
    } else {
      i := MaxAbsAttained(x, start, n - 1);
    }
  }

  /** The first loop over a group. */
  method MaxAndSum(x: Vec, start: nat, n: nat) returns (maxAbs: real, sum: real)
    requires start + n <= |x|
    ensures maxAbs == MaxAbs(x, start, n) && sum == Sum(x, start, n)
  {
    maxAbs, sum := 0.0, 0.0;
    for offset := 0 to n
      invariant maxAbs == MaxAbs(x, start, offset) && sum == Sum(x, start, offset)
    {
      var a := Abs(x[start + offset]);
      maxAbs := if maxAbs < a then a else maxAbs;
      sum := sum + x[start + offset];
    }
  }

  /** std::round: to the nearest integer, halves away from zero. */
  function Round(y: real): (r: int) {
    if y >= 0.0 then (y + 0.5).Floor else -((-y + 0.5).Floor)
  }

  function Clamp(i: int, lo: int, hi: int): int {
    if i < lo then lo else if hi < i then hi else i
  }

  function StepSize(maxAbs: real): real { if maxAbs == 0.0 then 0.0 else maxAbs / 127.0 }

  /** The quantised activation. */
  function Quantized(x: real, d: real): int {
    if d == 0.0 then 0 else Clamp(Round(x / d), -127, 127)
  }

  /** Rounding is within one half, and exact on integers. */
  lemma RoundNear(y: real)
    ensures -0.5 <= y - Round(y) as real <= 0.5
    ensures y == y.Floor as real ==> Round(y) == y.Floor
  {}

  lemma RoundUnique(y: real, i: int)
    requires -0.5 < y - i as real < 0.5
    ensures Round(y) == i
  {}

  /** No integer is nearer, and of two equally near the one farther from zero is taken. */
  lemma RoundNearest(y: real, i: int)
    ensures Abs(y - Round(y) as real) <= Abs(y - i as real)
    ensures Abs(y - Round(y) as real) == Abs(y - i as real) && i != Round(y) ==>
      Abs(i as real) < Abs(Round(y) as real)
  {
    RoundNear(y);
    if Abs(y - i as real) < 0.5 { RoundUnique(y, i); }
  }

  lemma RoundBounded(y: real, n: int)
    requires -(n as real) <= y <= n as real
    ensures -n <= Round(y) <= n
  {
    RoundMonotone(y, n as real);
    RoundMonotone(-(n as real), y);
    RoundUnique(n as real, n);
    RoundUnique(-(n as real), -n);
  }

  lemma RoundMonotone(y: real, z: real)
    requires y <= z
    ensures Round(y) <= Round(z)
  {}

  lemma QuotientBounded(x: real, m: real, d: real)
    requires m > 0.0 && d == m / 127.0 && -m <= x <= m
    ensures d > 0.0 && -127.0 <= x / d <= 127.0
  {
    var q := x / d;
    assert m == 127.0 * d && x == q * d;
    Cancels(q, 127.0, d);
    Cancels(-127.0, q, d);
  }

  lemma Cancels(a: real, b: real, d: real)
    requires d > 0.0 && a * d <= b * d
    ensures a <= b
  {}

  /** The clamp never changes a value. */
  lemma ClampIsIdle(x: real, m: real)
    requires m > 0.0 && Abs(x) <= m
    ensures StepSize(m) > 0.0 && Clamp(Round(x / StepSize(m)), -127, 127) == Round(x / StepSize(m))
  {
    hide Round;
    QuotientBounded(x, m, StepSize(m));
    RoundBounded(x / StepSize(m), 127);
  }

  /** Each restored activation is within half a step of the original. */
  lemma QuantizedNear(x: real, m: real)
    requires m >= 0.0 && Abs(x) <= m
    ensures -127 <= Quantized(x, StepSize(m)) <= 127
    ensures Abs(x - StepSize(m) * (Quantized(x, StepSize(m)) as real)) <= StepSize(m) / 2.0
  {
    hide Round;
    var d := StepSize(m);
    if m > 0.0 {
      ClampIsIdle(x, m);
      RoundNear(x / d);
      HalfStep(x, d, x / d, Round(x / d) as real);
    }
  }

  lemma Divided(x: real, d: real, n: int)
    requires d > 0.0 && x == d * (n as real)
    ensures x / d == n as real
  {
    Cancels(x / d, n as real, d);
    Cancels(n as real, x / d, d);
  }

  /** The entry of largest magnitude m becomes 127 or -127, and is restored exactly. */
  lemma PeakIsExact(x: real, m: real)
    requires m > 0.0 && Abs(x) == m
    ensures Quantized(x, StepSize(m)) == if x < 0.0 then -127 else 127
    ensures StepSize(m) * (Quantized(x, StepSize(m)) as real) == x
  {
    var d, n := StepSize(m), if x < 0.0 then -127 else 127;
    assert x == d * (n as real);
    Divided(x, d, n);
    RoundUnique(x / d, n);
    hide Round;
  }

  /** In a group that is not all zero some activation is quantised to 127 or -127. */
  lemma GroupPeaks(x: Vec, start: nat, n: nat, j: nat) returns (i: nat)
    requires start + n <= |x| && j < n && x[start + j] != 0.0
    ensures i < n && StepSize(MaxAbs(x, start, n)) > 0.0
    ensures Quantized(x[start + i], StepSize(MaxAbs(x, start, n))) in {-127, 127}
    ensures StepSize(MaxAbs(x, start, n)) * (Quantized(x[start + i], StepSize(MaxAbs(x, start, n))) as real)
         == x[start + i]
  {
    MaxAbsBounds(x, start, n, j);
    i := MaxAbsAttained(x, start, n);
    hide MaxAbs, Quantized;
    PeakIsExact(x[start + i], MaxAbs(x, start, n));
  }

  lemma HalfStep(x: real, d: real, y: real, r: real)
    requires d > 0.0 && y == x / d && -0.5 <= y - r <= 0.5
    ensures Abs(x - d * r) <= d / 2.0
  {
    TimesQuotient(x, d, y);
    Spread(d, y, r);
    ScaleOrder(d, y - r, 0.5);
    ScaleOrder(d, -0.5, y - r);
    hide *;
    AbsIs(x - d * r, d / 2.0);
  }

  lemma TimesQuotient(x: real, d: real, y: real)
    requires d > 0.0 && y == x / d
    ensures d * y == x
  {}

  lemma Spread(d: real, y: real, r: real)
    ensures d * (y - r) == d * y - d * r
  {}

  lemma AbsIs(x: real, b: real)
    requires -b <= x <= b
    ensures Abs(x) <= b
  {}

  lemma ScaleOrder(d: real, a: real, b: real)
    requires d > 0.0 && a <= b
    ensures d * a <= d * b
  {}
}
