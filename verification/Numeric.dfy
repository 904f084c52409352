/** Floating point numbers as the model sees them, and the few sums shared by
    several modules. */
module Numeric {

  datatype Option<+T> = None | Some(value: T)

  /** A float64: a finite number, or NaN. The infinities count as NaN: the program
      treats both as invalid wherever it looks. */
  datatype Num = NaN | Val(v: real)

  function Plus(a: Num, b: Num): Num {
    if a.Val? && b.Val? then Val(a.v + b.v) else NaN
  }

  function Minus(a: Num, b: Num): Num {
    if a.Val? && b.Val? then Val(a.v - b.v) else NaN
  }

  function Times(a: Num, b: Num): Num {
    if a.Val? && b.Val? then Val(a.v * b.v) else NaN
  }

  function Over(a: Num, b: Num): Num {
    if a.Val? && b.Val? && b.v != 0.0 then Val(a.v / b.v) else NaN
  }

  /** `a <= b` as float64 compares: false as soon as one side is NaN. */
  predicate AtMost(a: Num, b: Num) {
    a.Val? && b.Val? && a.v <= b.v
  }

  function MaxReal(a: real, b: real): real {
    if a >= b then a else b
  }

  function MinReal(a: real, b: real): real {
    if a <= b then a else b
  }

  function Abs(a: real): real {
    if a < 0.0 then -a else a
  }

  function MaxInt(a: int, b: int): int {
    if a >= b then a else b
  }

  function MinInt(a: int, b: int): int {
    if a <= b then a else b
  }

  /** Sum of the first `k` values. */
  function Sum(vs: seq<real>, k: nat): real
    requires k <= |vs|
  {
    if k == 0 then 0.0 else Sum(vs, k - 1) + vs[k - 1]
  }

  /** Only the first `k` values count. */
  lemma {:induction false} SumAgrees(a: seq<real>, b: seq<real>, k: nat)
    requires k <= |a| && k <= |b| && forall j :: 0 <= j < k ==> a[j] == b[j]
    ensures Sum(a, k) == Sum(b, k)
  {
    if k > 0 {
      SumAgrees(a, b, k - 1);
    }
  }

  function Pow(b: real, k: nat): real {
    if k == 0 then 1.0 else b * Pow(b, k - 1)
  }

  lemma MulNonneg(a: real, b: real)
    requires 0.0 <= a && 0.0 <= b
    ensures 0.0 <= a * b
  {
  }

  lemma ProductWithinUnit(a: real, b: real)
    requires 0.0 <= a <= 1.0 && 0.0 <= b <= 1.0
    ensures 0.0 <= a * b <= 1.0
  {
    MulNonneg(a, b);
    MulNonneg(1.0 - a, b);
    assert (1.0 - a) * b == b - a * b;
  }

  lemma {:induction false} PowWithinUnit(b: real, k: nat)
    requires 0.0 <= b <= 1.0
    ensures 0.0 <= Pow(b, k) <= 1.0
  {
    if k > 0 {
      PowWithinUnit(b, k - 1);
      ProductWithinUnit(b, Pow(b, k - 1));
    }
  }

  lemma SquareNonNegative(a: real)
    ensures 0.0 <= a * a
  {
    if a >= 0.0 {
      MulNonneg(a, a);
    } else {
      MulNonneg(-a, -a);
      assert (-a) * (-a) == a * a;
    }
  }

  lemma MulPositive(a: real, b: real)
    requires 0.0 < a && 0.0 < b
    ensures 0.0 < a * b
  {
  }

  lemma MulMono(w: real, a: real, b: real)
    requires 0.0 <= w && a <= b
    ensures w * a <= w * b
  {
    MulNonneg(w, b - a);
    assert w * (b - a) == w * b - w * a;
  }

  /** Multiplying by a positive number reflects the order. */
  lemma MulStrict(d: real, a: real, b: real)
    requires d > 0.0
    ensures a * d <= b * d <==> a <= b
  {
    if a <= b {
      MulMono(d, a, b);
      assert d * a == a * d && d * b == b * d;
    } else {
      var gap := a - b;
      assert gap * d > 0.0;
      assert a * d == b * d + gap * d;
    }
  }

  /** A sum of values within [lo, hi] lies within k*lo and k*hi. */
  lemma {:induction false} SumWithin(vs: seq<real>, k: nat, lo: real, hi: real)
    requires k <= |vs|
    requires forall j :: 0 <= j < k ==> lo <= vs[j] <= hi
    ensures lo * k as real <= Sum(vs, k) <= hi * k as real
  {
    if k > 0 {
      SumWithin(vs, k - 1, lo, hi);
      assert lo * k as real == lo * (k - 1) as real + lo;
      assert hi * k as real == hi * (k - 1) as real + hi;
    }
  }

  lemma DivWithin(x: real, d: real, lo: real, hi: real)
    requires d > 0.0
    requires lo * d <= x <= hi * d
    ensures lo <= x / d <= hi
  {
    var q := x / d;
    assert q * d == x;
    MulStrict(d, lo, q);
    MulStrict(d, q, hi);
  }

  lemma PositiveQuotient(a: real, b: real)
    requires a > 0.0 && b > 0.0
    ensures a / b > 0.0 && (a / b) * b == a
  {
    var q := a / b;
    assert q * b == a;
    if q <= 0.0 {
      MulMono(b, q, 0.0);
      assert false;
    }
  }

  lemma QuotientOfProduct(x: real, d: real)
    requires d != 0.0
    ensures (x * d) / d == x
  {
    var q := (x * d) / d;
    assert q * d == x * d;
    assert (q - x) * d == 0.0;
  }
}
