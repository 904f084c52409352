/** Windowed statistics of the price (internal/feature/market.go). */
module Market {
  import opened Numeric

  /** Natural logarithm and square root; the model uses no law of either. */
  datatype MathLib = MathLib(ln: real -> real, sqrt: real -> real)

  /** Percentage log return; undefined unless the quotient is a positive number. */
  function LogRatio(lib: MathLib, now: real, before: real): Num {
    if before == 0.0 || now / before <= 0.0 then NaN else Val(lib.ln(now / before) * 100.0)
  }

  function LogReturnColumn(lib: MathLib, closes: seq<real>, periods: int): seq<Num> {
    seq(|closes|, i requires 0 <= i < |closes| =>
      if periods < 1 || i < periods then NaN else LogRatio(lib, closes[i], closes[i - periods]))
  }

  method LogReturn(lib: MathLib, closes: seq<real>, periods: int) returns (result: seq<Num>)
    ensures result == LogReturnColumn(lib, closes, periods)
  {
    hide LogRatio;
    var column := new Num[|closes|](_ => NaN);
    if periods < 1 || |closes| == 0 {
      return column[..];
    }
    for i := 0 to |closes|
      invariant forall j :: 0 <= j < i ==> column[j] == LogReturnColumn(lib, closes, periods)[j]
    {
      if i < periods {
        column[i] := NaN;
      } else {
        column[i] := LogRatio(lib, closes[i], closes[i - periods]);
      }
    }
    result := column[..];
  }

  function SumOf(vs: seq<Num>, k: nat): Num
    requires k <= |vs|
  {
    if k == 0 then Val(0.0) else Plus(SumOf(vs, k - 1), vs[k - 1])
  }

  function MeanOf(vs: seq<Num>): Num {
    Over(SumOf(vs, |vs|), Val(|vs| as real))
  }

  function Squared(x: Num, m: Num): Num {
    Times(Minus(x, m), Minus(x, m))
  }

  function SquaresOf(vs: seq<Num>, m: Num): seq<Num> {
    seq(|vs|, k requires 0 <= k < |vs| => Squared(vs[k], m))
  }

  /** The population standard deviation. */
  function StdDevOf(lib: MathLib, vs: seq<Num>): Num {
    match MeanOf(SquaresOf(vs, MeanOf(vs)))
    case NaN => NaN
    case Val(variance) => Val(lib.sqrt(variance))
  }

  method Mean(vs: seq<Num>) returns (m: Num)
    ensures m == MeanOf(vs)
  {
    hide Over, Plus;
    var sum := Val(0.0);
    for k := 0 to |vs|
      invariant sum == SumOf(vs, k)
    {
      sum := Plus(sum, vs[k]);
    }
    m := Over(sum, Val(|vs| as real));
  }

  lemma MeanIs(vs: seq<Num>)
    ensures MeanOf(vs) == Over(SumOf(vs, |vs|), Val(|vs| as real))
  {
  }

  method StdDev(lib: MathLib, vs: seq<Num>) returns (sd: Num)
    ensures sd == StdDevOf(lib, vs)
  {
    hide Over, Plus, MeanOf, Squared;
    var m := Mean(vs);
    ghost var squares := SquaresOf(vs, m);
    var sumSq := Val(0.0);
    for k := 0 to |vs|
      invariant sumSq == SumOf(squares, k)
    {
      sumSq := Plus(sumSq, Squared(vs[k], m));
    }
    var variance := Over(sumSq, Val(|vs| as real));
    assert variance == MeanOf(squares) by { MeanIs(squares); }
    match variance
    case NaN => sd := NaN;
    case Val(v) => sd := Val(lib.sqrt(v));
  }

  /** The `window` values ending at `i`. */
  function Window<T>(vs: seq<T>, window: int, i: nat): seq<T>
    requires 1 <= window <= i + 1 <= |vs|
  {
    vs[i + 1 - window..i + 1]
  }

  function VolatilityColumn(lib: MathLib, returns_: seq<Num>, window: int): seq<Num> {
    seq(|returns_|, i requires 0 <= i < |returns_| =>
      if window < 2 || i < window - 1 then NaN else StdDevOf(lib, Window(returns_, window, i)))
  }

  method Volatility(lib: MathLib, returns_: seq<Num>, window: int) returns (result: seq<Num>)
    ensures result == VolatilityColumn(lib, returns_, window)
    ensures |result| == |returns_|
    ensures forall i :: 0 <= i < |returns_| && (window < 2 || i < window - 1) ==> result[i] == NaN
  {
    hide StdDevOf;
    var column := new Num[|returns_|](_ => NaN);
    if window < 2 || |returns_| == 0 {
      return column[..];
    }
    for i := 0 to |returns_|
      invariant forall j :: 0 <= j < i ==> column[j] == VolatilityColumn(lib, returns_, window)[j]
      invariant forall j :: i <= j < |returns_| ==> column[j] == NaN
    {
      if i >= window - 1 {
        var sd := StdDev(lib, returns_[i - window + 1..i + 1]);
        column[i] := sd;
      }
    }
    result := column[..];
  }

  function ZScoreOf(lib: MathLib, vs: seq<Num>, x: Num): Num {
    var sd := StdDevOf(lib, vs);
    if sd == Val(0.0) then Val(0.0) else Over(Minus(x, MeanOf(vs)), sd)
  }

  function ZScoreColumn(lib: MathLib, vs: seq<Num>, window: int): seq<Num> {
    seq(|vs|, i requires 0 <= i < |vs| =>
      if window < 2 || i < window - 1 then NaN else ZScoreOf(lib, Window(vs, window, i), vs[i]))
  }

  method ZScore(lib: MathLib, vs: seq<Num>, window: int) returns (result: seq<Num>)
    ensures result == ZScoreColumn(lib, vs, window)
    ensures |result| == |vs|
    ensures forall i :: 0 <= i < |vs| && (window < 2 || i < window - 1) ==> result[i] == NaN
  {
    hide StdDevOf, MeanOf, Over, Minus;
    var column := new Num[|vs|](_ => NaN);
    if window < 2 || |vs| == 0 {
      return column[..];
    }
    for i := 0 to |vs|
      invariant forall j :: 0 <= j < i ==> column[j] == ZScoreColumn(lib, vs, window)[j]
      invariant forall j :: i <= j < |vs| ==> column[j] == NaN
    {
      if i >= window - 1 {
        var slice := vs[i - window + 1..i + 1];
        var m := Mean(slice);
        var sd := StdDev(lib, slice);
        column[i] := if sd == Val(0.0) then Val(0.0) else Over(Minus(vs[i], m), sd);
      }
    }
    result := column[..];
  }

  // ---- What a window can and cannot see ----

  /** Log returns look back `periods` values and no further, so reading them off a chunk
      that starts at `s` gives the same value from chunk index `periods` on. */
  lemma LogReturnIsLocal(lib: MathLib, closes: seq<real>, periods: int, s: nat, e: nat, i: nat)
    requires s + i < e <= |closes| && 1 <= periods <= i
    ensures LogReturnColumn(lib, closes[s..e], periods)[i] == LogReturnColumn(lib, closes, periods)[s + i]
  {
    hide LogRatio;
  }

  lemma WindowIsLocal(vs1: seq<Num>, vs2: seq<Num>, window: int, s: nat, i: nat)
    requires 1 <= window <= i + 1 <= |vs2| && s + i < |vs1|
    requires forall j :: i + 1 - window <= j <= i ==> vs2[j] == vs1[s + j]
    ensures Window(vs2, window, i) == Window(vs1, window, s + i)
  {
    var a, b := Window(vs2, window, i), Window(vs1, window, s + i);
    forall k | 0 <= k < window
      ensures a[k] == b[k]
    {
      assert a[k] == vs2[i + 1 - window + k];
    }
  }

  lemma LengthsAgree(lib: MathLib, closes: seq<real>)
    ensures |LogReturnColumn(lib, closes, 1)| == |closes|
  {
  }

  /** The volatility at a chunk index from `window` on does not depend on where the chunk
      starts; one index earlier it would read the undefined first return of the chunk. */
  lemma VolatilityIsLocal(lib: MathLib, closes: seq<real>, window: int, s: nat, e: nat, i: nat)
    requires s + i < e <= |closes| && 2 <= window <= i
    ensures VolatilityColumn(lib, LogReturnColumn(lib, closes[s..e], 1), window)[i]
            == VolatilityColumn(lib, LogReturnColumn(lib, closes, 1), window)[s + i]
  {
    hide LogReturnColumn, StdDevOf, Window;
    LengthsAgree(lib, closes[s..e]);
    LengthsAgree(lib, closes);
    var r2, r1 := LogReturnColumn(lib, closes[s..e], 1), LogReturnColumn(lib, closes, 1);
    forall j | i + 1 - window <= j <= i
      ensures r2[j] == r1[s + j]
    {
      LogReturnIsLocal(lib, closes, 1, s, e, j);
    }
    WindowIsLocal(r1, r2, window, s, i);
  }

  lemma ZScoreIsLocal(lib: MathLib, vs1: seq<Num>, vs2: seq<Num>, window: int, s: nat, i: nat)
    requires 2 <= window <= i + 1 <= |vs2| && s + i < |vs1|
    requires forall j :: i + 1 - window <= j <= i ==> vs2[j] == vs1[s + j]
    ensures ZScoreColumn(lib, vs2, window)[i] == ZScoreColumn(lib, vs1, window)[s + i]
  {
    hide ZScoreOf;
    WindowIsLocal(vs1, vs2, window, s, i);
  }

  // ---- Where the columns are defined ----

  lemma {:induction false} SumDefinedExactly(vs: seq<Num>, k: nat)
    requires k <= |vs|
    ensures SumOf(vs, k).Val? <==> forall j :: 0 <= j < k ==> vs[j].Val?
  {
    if k > 0 {
      SumDefinedExactly(vs, k - 1);
    }
  }

  /** A standard deviation is defined exactly when every value of its window is. */
  lemma StdDevDefinedExactly(lib: MathLib, vs: seq<Num>)
    requires vs != []
    ensures StdDevOf(lib, vs).Val? <==> forall j :: 0 <= j < |vs| ==> vs[j].Val?
  {
    SumDefinedExactly(vs, |vs|);
    var m := MeanOf(vs);
    var squares := SquaresOf(vs, m);
    SumDefinedExactly(squares, |squares|);
    if m.Val? {
      forall j | 0 <= j < |vs|
        ensures squares[j].Val? <==> vs[j].Val?
      {
      }
    } else {
      assert squares[0] == NaN;
    }
  }

  /** With positive closes a log return is defined exactly from index `periods` on. */
  lemma LogReturnDefinedExactly(lib: MathLib, closes: seq<real>, periods: int, i: nat)
    requires i < |closes| && 1 <= periods && forall j :: 0 <= j < |closes| ==> closes[j] > 0.0
    ensures LogReturnColumn(lib, closes, periods)[i].Val? <==> i >= periods
  {
    if i >= periods {
      PositiveQuotient(closes[i], closes[i - periods]);
    }
  }

  /** With positive closes the volatility is defined exactly from index `window` on. */
  lemma VolatilityDefinedExactly(lib: MathLib, closes: seq<real>, window: int, i: nat)
    requires i < |closes| && 2 <= window && forall j :: 0 <= j < |closes| ==> closes[j] > 0.0
    ensures VolatilityColumn(lib, LogReturnColumn(lib, closes, 1), window)[i].Val? <==> i >= window
  {
    hide LogReturnColumn, StdDevOf;
    LengthsAgree(lib, closes);
    var r := LogReturnColumn(lib, closes, 1);
    forall j | 0 <= j < |closes|
      ensures r[j].Val? <==> j >= 1
    {
      LogReturnDefinedExactly(lib, closes, 1, j);
    }
    if i >= window - 1 {
      var w := Window(r, window, i);
      StdDevDefinedExactly(lib, w);
      if i == window - 1 {
        assert w[0] == r[0];
      } else {
        forall k | 0 <= k < |w| ensures w[k].Val? {
          assert w[k] == r[i + 1 - window + k];
        }
      }
    }
  }
}
