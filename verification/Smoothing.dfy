/** Weighted running averages: the recurrence shared by the EMA and Wilder indicators. */
module Smoothing {
  import opened Numeric

  function Blend(w: real, x: real, y: real): real {
    w * x + (1.0 - w) * y
  }

  lemma SumMono(w: real, u: real, x1: real, y1: real, x2: real, y2: real)
    requires 0.0 <= w && 0.0 <= u && x1 <= x2 && y1 <= y2
    ensures w * x1 + u * y1 <= w * x2 + u * y2
  {
    MulMono(w, x1, x2);
    MulMono(u, y1, y2);
  }

  lemma SplitUnit(w: real, u: real, x: real)
    requires w + u == 1.0
    ensures w * x + u * x == x
  {
    assert w * x + u * x == (w + u) * x;
  }

  lemma ConvexWithin(w: real, u: real, x: real, y: real, lo: real, hi: real)
    requires 0.0 <= w && 0.0 <= u && w + u == 1.0 && lo <= x <= hi && lo <= y <= hi
    ensures lo <= w * x + u * y <= hi
  {
    SumMono(w, u, lo, lo, x, y);
    SumMono(w, u, x, y, hi, hi);
    SplitUnit(w, u, lo);
    SplitUnit(w, u, hi);
    var lower, middle, upper := w * lo + u * lo, w * x + u * y, w * hi + u * hi;
    assert lower <= middle <= upper;
  }

  lemma BlendWithin(w: real, x: real, y: real, lo: real, hi: real)
    requires 0.0 <= w <= 1.0 && lo <= x <= hi && lo <= y <= hi
    ensures lo <= Blend(w, x, y) <= hi
  {
    var u := 1.0 - w;
    ConvexWithin(w, u, x, y, lo, hi);
  }

  /** Blending the same value into two averages shrinks their gap by 1 - w. */
  lemma BlendShrinksGap(w: real, x: real, y: real, z: real)
    ensures Blend(w, x, y) - Blend(w, x, z) == (1.0 - w) * (y - z)
  {
    assert (1.0 - w) * (y - z) == (1.0 - w) * y - (1.0 - w) * z;
  }

  /** The running average at `i`, started at `from` with value `seed`: from then on every
      value enters with weight `w`. */
  function Smoothed(w: real, seed: real, vs: seq<real>, from: nat, i: nat): real
    requires from <= i < |vs|
    decreases i
  {
    if i == from then seed else Blend(w, vs[i], Smoothed(w, seed, vs, from, i - 1))
  }

  lemma {:induction false} SmoothedWithin(w: real, seed: real, vs: seq<real>, from: nat, i: nat, lo: real, hi: real)
    requires from <= i < |vs| && 0.0 <= w <= 1.0
    requires lo <= seed <= hi
    requires forall j :: from < j <= i ==> lo <= vs[j] <= hi
    ensures lo <= Smoothed(w, seed, vs, from, i) <= hi
    decreases i
  {
    hide Blend;
    if i > from {
      SmoothedWithin(w, seed, vs, from, i - 1, lo, hi);
      BlendWithin(w, vs[i], Smoothed(w, seed, vs, from, i - 1), lo, hi);
    }
  }

  lemma Reassociate(a: real, b: real, c: real)
    ensures a * (b * c) == (a * b) * c
  {
  }

  /** Two averages over the same values, one read `shift` positions further along a longer
      list, differ by their difference at the start, shrunk by 1 - w at every step. */
  lemma {:induction false} SmoothedForgets(
      w: real, seed1: real, vs1: seq<real>, from1: nat, shift: nat,
      seed2: real, vs2: seq<real>, from2: nat, i: nat)
    requires from2 <= i < |vs2| && shift + i < |vs1| && from1 <= shift + from2
    requires forall j :: from2 < j <= i ==> vs1[shift + j] == vs2[j]
    ensures Smoothed(w, seed1, vs1, from1, shift + i) - Smoothed(w, seed2, vs2, from2, i)
            == Pow(1.0 - w, i - from2) * (Smoothed(w, seed1, vs1, from1, shift + from2) - seed2)
    decreases i
  {
    hide Blend;
    if i > from2 {
      SmoothedForgets(w, seed1, vs1, from1, shift, seed2, vs2, from2, i - 1);
      var a := Smoothed(w, seed1, vs1, from1, shift + i - 1);
      var b := Smoothed(w, seed2, vs2, from2, i - 1);
      BlendShrinksGap(w, vs2[i], a, b);
      assert Pow(1.0 - w, i - from2) == (1.0 - w) * Pow(1.0 - w, i - 1 - from2);
      assert Smoothed(w, seed1, vs1, from1, shift + i) - Smoothed(w, seed2, vs2, from2, i) == (1.0 - w) * (a - b);
      Reassociate(1.0 - w, Pow(1.0 - w, i - 1 - from2), Smoothed(w, seed1, vs1, from1, shift + from2) - seed2);
    } else {
      assert Pow(1.0 - w, 0) == 1.0;
    }
  }

  lemma AbsScaled(x: real, f: real, g: real, bound: real)
    requires 0.0 <= f && x == f * g && Abs(g) <= bound
    ensures Abs(x) <= f * bound
  {
    MulMono(f, g, bound);
    MulMono(f, -bound, g);
    assert f * (-bound) == -(f * bound);
  }

  /** The mean of the first `n` values lies among them. */
  lemma MeanWithin(vs: seq<real>, n: nat, lo: real, hi: real)
    requires 0 < n <= |vs|
    requires forall j :: 0 <= j < n ==> lo <= vs[j] <= hi
    ensures lo <= Sum(vs, n) / n as real <= hi
  {
    SumWithin(vs, n, lo, hi);
    DivWithin(Sum(vs, n), n as real, lo, hi);
  }

  /** Wilder's update, (prev * (p - 1) + x) / p, blends with weight 1/p. */
  function WilderNext(p: int, prev: real, x: real): real
    requires p >= 1
  {
    (prev * (p - 1) as real + x) / p as real
  }

  lemma WilderScaled(w: real, d: real, prev: real, x: real, q: real)
    requires d >= 1.0 && w * d == 1.0 && q * d == prev * (d - 1.0) + x
    ensures q == Blend(w, x, prev)
  {
    calc {
      q;
      q * (w * d);
      w * (q * d);
      w * (prev * (d - 1.0) + x);
      w * (prev * d - prev + x);
      prev * (w * d) - w * prev + w * x;
      prev - w * prev + w * x;
      Blend(w, x, prev);
    }
  }

  lemma WilderIsBlend(p: int, prev: real, x: real)
    requires p >= 1
    ensures WilderNext(p, prev, x) == Blend(1.0 / p as real, x, prev)
    ensures 0.0 <= 1.0 / p as real <= 1.0
  {
    var d := p as real;
    var w := 1.0 / d;
    assert w * d == 1.0;
    MulStrict(d, 0.0, w);
    MulStrict(d, w, 1.0);
    var q := WilderNext(p, prev, x);
    assert q * d == prev * (d - 1.0) + x;
    WilderScaled(w, d, prev, x, q);
  }
}
