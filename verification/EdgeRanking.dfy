/** Ranking features by five component scores (internal/edge/ranking.go). */
module EdgeRanking {
  import opened Numeric

  datatype ComponentScore = ComponentScore(
    feature: string, quantilePF: real, quantileWR: real, stability: real, regime: real, correlation: real,
    composite: Num)

  /** One rank vector per component. */
  datatype Ranks = Ranks(pf: seq<int>, wr: seq<int>, stability: seq<int>, regime: seq<int>, correlation: seq<int>)

  /** Every index below `n`, once. */
  ghost predicate IsPermutation(order: seq<nat>, n: nat) {
    && |order| == n
    && (forall k :: 0 <= k < n ==> order[k] < n)
    && (forall j, k :: 0 <= j < k < n ==> order[j] != order[k])
  }

  ghost predicate DescendingBy(order: seq<nat>, keys: seq<real>)
    requires forall k :: 0 <= k < |order| ==> order[k] < |keys|
  {
    forall j, k :: 0 <= j < k < |order| ==> keys[order[j]] >= keys[order[k]]
  }

  lemma SwapKeepsPermutation(order: seq<nat>, n: nat, i: nat, j: nat)
    requires IsPermutation(order, n) && i < n && j < n
    ensures IsPermutation(order[i := order[j]][j := order[i]], n)
  {
  }

  /** The first `upTo` indices are in descending order, leaving out place `hole`. */
  ghost predicate SortedBut(order: seq<nat>, keys: seq<real>, upTo: nat, hole: int)
    requires upTo <= |order| && IsPermutation(order, |keys|)
  {
    forall p, q :: 0 <= p < q < upTo && q != hole ==> keys[order[p]] >= keys[order[q]]
  }

  /** Sinks the index at place `i` into the sorted part before it. */
  method Insert(a: array<nat>, keys: seq<real>, i: nat)
    requires i < a.Length == |keys| && IsPermutation(a[..], |keys|)
    requires SortedBut(a[..], keys, i, -1)
    modifies a
    ensures IsPermutation(a[..], |keys|) && SortedBut(a[..], keys, i + 1, -1)
  {
    var j := i;
    while j > 0 && keys[a[j - 1]] < keys[a[j]]
      invariant 0 <= j <= i
      invariant IsPermutation(a[..], |keys|)
      invariant SortedBut(a[..], keys, i + 1, j)
    {
      ghost var before := a[..];
      SwapKeepsPermutation(before, |keys|, j - 1, j);
      a[j - 1], a[j] := a[j], a[j - 1];
      assert a[..] == before[j - 1 := before[j]][j := before[j - 1]];
      j := j - 1;
    }
    assert j > 0 ==> keys[a[..][j - 1]] >= keys[a[..][j]];
  }

  /** Sorts indices by descending key; equal keys may come out in any order. */
  method SortDescending(keys: seq<real>) returns (order: seq<nat>)
    ensures IsPermutation(order, |keys|)
    ensures DescendingBy(order, keys)
  {
    var n := |keys|;
    var a := new nat[n](i => i);
    for i := 0 to n
      invariant IsPermutation(a[..], n)
      invariant SortedBut(a[..], keys, i, -1)
    {
      Insert(a, keys, i);
    }
    order := a[..];
  }

  ghost predicate OntoOneToN(ranks: seq<int>) {
    && (forall i :: 0 <= i < |ranks| ==> 1 <= ranks[i] <= |ranks|)
    && (forall i, j :: 0 <= i < j < |ranks| ==> ranks[i] != ranks[j])
    && (forall v :: 1 <= v <= |ranks| ==> v in ranks)
  }

  /** A rank vector: a bijection onto 1..n that ranks higher values first. */
  ghost predicate IsRanking(vals: seq<real>, ranks: seq<int>) {
    && |ranks| == |vals|
    && OntoOneToN(ranks)
    && forall i, j :: 0 <= i < |vals| && 0 <= j < |vals| && vals[i] > vals[j] ==> ranks[i] < ranks[j]
  }

  lemma SameSizeSubset(a: set<nat>, b: set<nat>)
    requires a <= b && |a| == |b|
    ensures a == b
  {
    assert b == a + (b - a);
  }

  function Hit(order: seq<nat>, k: nat): (s: set<nat>)
    requires k <= |order|
    ensures forall i :: i in s <==> i in order[..k]
  {
    if k == 0 then {} else Hit(order, k - 1) + {order[k - 1]}
  }

  lemma {:induction false} CountHits(order: seq<nat>, k: nat)
    requires k <= |order| && forall i, j :: 0 <= i < j < |order| ==> order[i] != order[j]
    ensures |Hit(order, k)| == k
  {
    if k > 0 {
      CountHits(order, k - 1);
      assert order[k - 1] !in order[..k - 1];
    }
  }

  function Below(n: nat): (s: set<nat>)
    ensures |s| == n && forall i: nat :: i in s <==> i < n
  {
    if n == 0 then {} else Below(n - 1) + {n - 1}
  }

  /** An injection of n indices below n hits every one of them. */
  lemma PermutationCovers(order: seq<nat>, n: nat)
    requires IsPermutation(order, n)
    ensures forall i: nat :: i < n ==> i in order
  {
    CountHits(order, n);
    assert order[..n] == order;
    assert Hit(order, n) <= Below(n);
    SameSizeSubset(Hit(order, n), Below(n));
  }

  /** `ranks` inverts `order`. */
  ghost predicate Inverts(ranks: seq<int>, order: seq<nat>) {
    && |ranks| == |order|
    && forall i :: 0 <= i < |ranks| ==> 1 <= ranks[i] <= |ranks| && order[ranks[i] - 1] == i
  }

  lemma InverseOfOrder(order: seq<nat>, ranks: seq<int>)
    requires IsPermutation(order, |ranks|) && forall k :: 0 <= k < |ranks| ==> ranks[order[k]] == k + 1
    ensures Inverts(ranks, order) && OntoOneToN(ranks)
  {
    var n := |ranks|;
    PermutationCovers(order, n);
    forall i | 0 <= i < n
      ensures 1 <= ranks[i] <= n && order[ranks[i] - 1] == i
    {
      assert i in order;
      var k :| 0 <= k < n && order[k] == i;
    }
    forall v | 1 <= v <= n
      ensures v in ranks
    {
      assert ranks[order[v - 1]] == v;
    }
  }

  lemma InverseRanks(vals: seq<real>, order: seq<nat>, ranks: seq<int>)
    requires |order| == |vals| && (forall k :: 0 <= k < |order| ==> order[k] < |vals|) && DescendingBy(order, vals)
    requires Inverts(ranks, order) && OntoOneToN(ranks)
    ensures IsRanking(vals, ranks)
  {
    hide OntoOneToN;
    forall i, j | 0 <= i < |vals| && 0 <= j < |vals| && vals[i] > vals[j]
      ensures ranks[i] < ranks[j]
    {
      assert order[ranks[i] - 1] == i && order[ranks[j] - 1] == j;
    }
  }

  method RankValues(vals: seq<real>) returns (ranks: seq<int>)
    ensures IsRanking(vals, ranks)
  {
    var n := |vals|;
    var order := SortDescending(vals);
    var out := new int[n](_ => 0);
    for r := 0 to n
      invariant forall k :: 0 <= k < r ==> out[order[k]] == k + 1
    {
      out[order[r]] := r + 1;
    }
    ranks := out[..];
    InverseOfOrder(order, ranks);
    InverseRanks(vals, order, ranks);
  }

  // ---- Composite scores ----

  /** A rank as a fraction: 1 for the first of n, 0 for the last. A single feature has none. */
  function RankScore(rank: int, n: nat): Num {
    Minus(Val(1.0), Over(Val((rank - 1) as real), Val((n - 1) as real)))
  }

  function Weighted(pf: Num, wr: Num, stability: Num, regime: Num, correlation: Num): Num {
    Plus(Plus(Plus(Plus(Times(Val(0.40), pf), Times(Val(0.25), wr)), Times(Val(0.15), stability)),
              Times(Val(0.10), regime)), Times(Val(0.10), correlation))
  }

  predicate RanksSized(ranks: Ranks, n: nat) {
    |ranks.pf| == |ranks.wr| == |ranks.stability| == |ranks.regime| == |ranks.correlation| == n
  }

  function CompositeOf(ranks: Ranks, i: nat, n: nat): Num
    requires RanksSized(ranks, n) && i < n
  {
    Weighted(RankScore(ranks.pf[i], n), RankScore(ranks.wr[i], n), RankScore(ranks.stability[i], n),
             RankScore(ranks.regime[i], n), RankScore(ranks.correlation[i], n))
  }

  function PFs(scores: seq<ComponentScore>): seq<real> {
    seq(|scores|, i requires 0 <= i < |scores| => scores[i].quantilePF)
  }

  function WRs(scores: seq<ComponentScore>): seq<real> {
    seq(|scores|, i requires 0 <= i < |scores| => scores[i].quantileWR)
  }

  function Stabilities(scores: seq<ComponentScore>): seq<real> {
    seq(|scores|, i requires 0 <= i < |scores| => scores[i].stability)
  }

  function Regimes(scores: seq<ComponentScore>): seq<real> {
    seq(|scores|, i requires 0 <= i < |scores| => scores[i].regime)
  }

  function Correlations(scores: seq<ComponentScore>): seq<real> {
    seq(|scores|, i requires 0 <= i < |scores| => scores[i].correlation)
  }

  /** Each rank vector is a bijection onto 1..n that ranks a greater value of its component
      first. */
  ghost predicate RanksOf(scores: seq<ComponentScore>, ranks: Ranks) {
    && RanksSized(ranks, |scores|)
    && OntoOneToN(ranks.pf) && OntoOneToN(ranks.wr) && OntoOneToN(ranks.stability)
    && OntoOneToN(ranks.regime) && OntoOneToN(ranks.correlation)
    && forall i, j :: 0 <= i < |scores| && 0 <= j < |scores| ==>
         && (scores[i].quantilePF > scores[j].quantilePF ==> ranks.pf[i] < ranks.pf[j])
         && (scores[i].quantileWR > scores[j].quantileWR ==> ranks.wr[i] < ranks.wr[j])
         && (scores[i].stability > scores[j].stability ==> ranks.stability[i] < ranks.stability[j])
         && (scores[i].regime > scores[j].regime ==> ranks.regime[i] < ranks.regime[j])
         && (scores[i].correlation > scores[j].correlation ==> ranks.correlation[i] < ranks.correlation[j])
  }

  /** The composite of entry `i` among `n`: of every component the share of entries it is ranked
      before, weighted 40, 25, 15, 10 and 10 percent. */
  ghost predicate Composes(ranks: Ranks, i: nat, n: nat, composite: Num)
    requires RanksSized(ranks, n) && i < n
  {
    && (composite.Val? <==> n != 1)
    && (composite.Val? ==>
          composite.v * (n - 1) as real ==
          0.40 * (n - ranks.pf[i]) as real + 0.25 * (n - ranks.wr[i]) as real
          + 0.15 * (n - ranks.stability[i]) as real + 0.10 * (n - ranks.regime[i]) as real
          + 0.10 * (n - ranks.correlation[i]) as real)
  }

  lemma ScoreMeans(rank: int, n: nat)
    requires n >= 2
    ensures RankScore(rank, n).Val? && RankScore(rank, n).v * (n - 1) as real == (n - rank) as real
  {
    var d := (n - 1) as real;
    var q := (rank - 1) as real / d;
    assert q * d == (rank - 1) as real;
    assert (1.0 - q) * d == d - q * d;
  }

  lemma WeightedTimes(d: real, a: real, b: real, c: real, e: real, f: real)
    ensures (0.40 * a + 0.25 * b + 0.15 * c + 0.10 * e + 0.10 * f) * d
            == 0.40 * (a * d) + 0.25 * (b * d) + 0.15 * (c * d) + 0.10 * (e * d) + 0.10 * (f * d)
  {
  }

  lemma CompositeMeans(ranks: Ranks, i: nat, n: nat)
    requires RanksSized(ranks, n) && i < n
    ensures Composes(ranks, i, n, CompositeOf(ranks, i, n))
  {
    if n >= 2 {
      ScoreMeans(ranks.pf[i], n);
      ScoreMeans(ranks.wr[i], n);
      ScoreMeans(ranks.stability[i], n);
      ScoreMeans(ranks.regime[i], n);
      ScoreMeans(ranks.correlation[i], n);
      hide RankScore;
      WeightedTimes((n - 1) as real, RankScore(ranks.pf[i], n).v, RankScore(ranks.wr[i], n).v,
                    RankScore(ranks.stability[i], n).v, RankScore(ranks.regime[i], n).v,
                    RankScore(ranks.correlation[i], n).v);
    }
  }

  /** `ranked` is the input reordered, each entry with its composite, best first. */
  ghost predicate RankedBy(scores: seq<ComponentScore>, ranks: Ranks, order: seq<nat>, ranked: seq<ComponentScore>) {
    var n := |scores|;
    && RanksOf(scores, ranks) && RanksSized(ranks, n)
    && IsPermutation(order, n)
    && |ranked| == n
    && (forall k :: 0 <= k < n ==>
          && ranked[k] == scores[order[k]].(composite := CompositeOf(ranks, order[k], n))
          && Composes(ranks, order[k], n, ranked[k].composite))
    && (forall j, k :: 0 <= j < k < n && ranked[j].composite.Val? && ranked[k].composite.Val? ==>
          ranked[j].composite.v >= ranked[k].composite.v)
  }

  lemma RanksFollow(scores: seq<ComponentScore>, ranks: Ranks)
    requires IsRanking(PFs(scores), ranks.pf) && IsRanking(WRs(scores), ranks.wr)
    requires IsRanking(Stabilities(scores), ranks.stability) && IsRanking(Regimes(scores), ranks.regime)
    requires IsRanking(Correlations(scores), ranks.correlation)
    ensures RanksOf(scores, ranks)
  {
    hide OntoOneToN;
    forall i, j | 0 <= i < |scores| && 0 <= j < |scores|
      ensures scores[i].quantilePF > scores[j].quantilePF ==> ranks.pf[i] < ranks.pf[j]
      ensures scores[i].quantileWR > scores[j].quantileWR ==> ranks.wr[i] < ranks.wr[j]
      ensures scores[i].stability > scores[j].stability ==> ranks.stability[i] < ranks.stability[j]
      ensures scores[i].regime > scores[j].regime ==> ranks.regime[i] < ranks.regime[j]
      ensures scores[i].correlation > scores[j].correlation ==> ranks.correlation[i] < ranks.correlation[j]
    {
      assert PFs(scores)[i] == scores[i].quantilePF && PFs(scores)[j] == scores[j].quantilePF;
      assert WRs(scores)[i] == scores[i].quantileWR && WRs(scores)[j] == scores[j].quantileWR;
      assert Stabilities(scores)[i] == scores[i].stability && Stabilities(scores)[j] == scores[j].stability;
      assert Regimes(scores)[i] == scores[i].regime && Regimes(scores)[j] == scores[j].regime;
      assert Correlations(scores)[i] == scores[i].correlation && Correlations(scores)[j] == scores[j].correlation;
    }
  }

  /** The five rank vectors. */
  method RankAll(scores: seq<ComponentScore>) returns (ranks: Ranks)
    ensures RanksOf(scores, ranks) && RanksSized(ranks, |scores|)
  {
    hide IsRanking, RanksOf, OntoOneToN;
    var pf := RankValues(PFs(scores));
    var wr := RankValues(WRs(scores));
    var stability := RankValues(Stabilities(scores));
    var regime := RankValues(Regimes(scores));
    var correlation := RankValues(Correlations(scores));
    ranks := Ranks(pf, wr, stability, regime, correlation);
    RanksFollow(scores, ranks);
  }

  /** The input in the same order, each entry with its composite. */
  function Scored(scores: seq<ComponentScore>, ranks: Ranks): (r: seq<ComponentScore>)
    requires RanksSized(ranks, |scores|)
    ensures |r| == |scores|
  {
    seq(|scores|, i requires 0 <= i < |scores| => scores[i].(composite := CompositeOf(ranks, i, |scores|)))
  }

  method ScoreAll(scores: seq<ComponentScore>, ranks: Ranks) returns (scored: seq<ComponentScore>)
    requires RanksSized(ranks, |scores|)
    ensures scored == Scored(scores, ranks)
  {
    hide CompositeOf;
    var n := |scores|;
    var ranked := new ComponentScore[n](i requires 0 <= i < n => scores[i]);
    for i := 0 to n
      invariant forall k :: 0 <= k < i ==> ranked[k] == scores[k].(composite := CompositeOf(ranks, k, n))
      invariant forall k :: i <= k < n ==> ranked[k] == scores[k]
    {
      ranked[i] := ranked[i].(composite := CompositeOf(ranks, i, n));
    }
    scored := ranked[..];
  }

  /** What the final sort compares; with one entry there is nothing to compare. */
  function SortKeys(scored: seq<ComponentScore>): (keys: seq<real>)
    ensures |keys| == |scored|
  {
    seq(|scored|, i requires 0 <= i < |scored| => if scored[i].composite.Val? then scored[i].composite.v else 0.0)
  }

  lemma RankedByPlaces(
      scores: seq<ComponentScore>, ranks: Ranks, scored: seq<ComponentScore>, places: seq<nat>,
      ranked: seq<ComponentScore>)
    requires RanksOf(scores, ranks) && RanksSized(ranks, |scores|) && scored == Scored(scores, ranks)
    requires IsPermutation(places, |scores|) && DescendingBy(places, SortKeys(scored))
    requires |ranked| == |scores| && forall k :: 0 <= k < |scores| ==> ranked[k] == scored[places[k]]
    ensures RankedBy(scores, ranks, places, ranked)
  {
    hide RanksOf, CompositeOf, Composes;
    var keys := SortKeys(scored);
    forall k | 0 <= k < |scores|
      ensures Composes(ranks, places[k], |scores|, ranked[k].composite)
    {
      CompositeMeans(ranks, places[k], |scores|);
    }
    forall j, k | 0 <= j < k < |scores| && ranked[j].composite.Val? && ranked[k].composite.Val?
      ensures ranked[j].composite.v >= ranked[k].composite.v
    {
      assert keys[places[j]] >= keys[places[k]];
    }
  }

  // ---- What the composites are ----

  lemma ScoreWithin(rank: int, n: nat)
    requires n >= 2 && 1 <= rank <= n
    ensures RankScore(rank, n).Val? && 0.0 <= RankScore(rank, n).v <= 1.0
  {
    DivWithin((rank - 1) as real, (n - 1) as real, 0.0, 1.0);
  }

  lemma QuotientGrows(a: real, b: real, d: real)
    requires a < b && d > 0.0
    ensures a / d < b / d
  {
    var x, y := a / d, b / d;
    assert x * d == a && y * d == b;
    MulStrict(d, y, x);
  }

  lemma BetterRankScoresHigher(r1: int, r2: int, n: nat)
    requires n >= 2 && r1 < r2
    ensures RankScore(r1, n).v > RankScore(r2, n).v
  {
    var d := (n - 1) as real;
    QuotientGrows((r1 - 1) as real, (r2 - 1) as real, d);
  }

  /** Every composite of two or more features lies between 0 and 1. */
  lemma CompositeWithin(ranks: Ranks, i: nat, n: nat)
    requires n >= 2 && RanksSized(ranks, n) && i < n
    requires OntoOneToN(ranks.pf) && OntoOneToN(ranks.wr) && OntoOneToN(ranks.stability)
    requires OntoOneToN(ranks.regime) && OntoOneToN(ranks.correlation)
    ensures CompositeOf(ranks, i, n).Val? && 0.0 <= CompositeOf(ranks, i, n).v <= 1.0
  {
    hide RankScore;
    ScoreWithin(ranks.pf[i], n);
    ScoreWithin(ranks.wr[i], n);
    ScoreWithin(ranks.stability[i], n);
    ScoreWithin(ranks.regime[i], n);
    ScoreWithin(ranks.correlation[i], n);
  }

  predicate Dominates(a: ComponentScore, b: ComponentScore) {
    && a.quantilePF > b.quantilePF && a.quantileWR > b.quantileWR && a.stability > b.stability
    && a.regime > b.regime && a.correlation > b.correlation
  }

  /** A feature that beats another on all five components has the higher composite. */
  lemma DominanceScoresHigher(scores: seq<ComponentScore>, ranks: Ranks, i: nat, j: nat)
    requires |scores| >= 2 && RanksOf(scores, ranks) && i < |scores| && j < |scores|
    requires Dominates(scores[i], scores[j])
    ensures RanksSized(ranks, |scores|)
    ensures CompositeOf(ranks, i, |scores|).Val? && CompositeOf(ranks, j, |scores|).Val?
    ensures CompositeOf(ranks, i, |scores|).v > CompositeOf(ranks, j, |scores|).v
  {
    hide RankScore;
    var n := |scores|;
    BetterRankScoresHigher(ranks.pf[i], ranks.pf[j], n);
    BetterRankScoresHigher(ranks.wr[i], ranks.wr[j], n);
    BetterRankScoresHigher(ranks.stability[i], ranks.stability[j], n);
    BetterRankScoresHigher(ranks.regime[i], ranks.regime[j], n);
    BetterRankScoresHigher(ranks.correlation[i], ranks.correlation[j], n);
    CompositeWithin(ranks, i, n);
    CompositeWithin(ranks, j, n);
  }

  // ---- Their sum ----

  function IntSum(vs: seq<int>): int {
    if vs == [] then 0 else IntSum(vs[..|vs| - 1]) + vs[|vs| - 1]
  }

  lemma {:induction false} IntSumRemove(vs: seq<int>, at: nat)
    requires at < |vs|
    ensures IntSum(vs) == IntSum(vs[..at] + vs[at + 1..]) + vs[at]
  {
    var n := |vs| - 1;
    if at == n {
      assert vs[..at] + vs[at + 1..] == vs[..n];
    } else {
      IntSumRemove(vs[..n], at);
      var without := vs[..at] + vs[at + 1..];
      assert without[..|without| - 1] == vs[..n][..at] + vs[..n][at + 1..];
      assert without[|without| - 1] == vs[n];
    }
  }

  lemma WithoutTop(ranks: seq<int>, at: nat)
    requires OntoOneToN(ranks) && at < |ranks| && ranks[at] == |ranks|
    ensures OntoOneToN(ranks[..at] + ranks[at + 1..])
  {
    var n := |ranks|;
    var rest := ranks[..at] + ranks[at + 1..];
    forall i | 0 <= i < n - 1
      ensures rest[i] == ranks[if i < at then i else i + 1] && 1 <= rest[i] <= n - 1
    {
    }
    forall v | 1 <= v <= n - 1
      ensures v in rest
    {
      assert v in ranks;
      var i :| 0 <= i < n && ranks[i] == v;
      assert rest[if i < at then i else i - 1] == v;
    }
  }

  function Triangle(n: nat): nat {
    if n == 0 then 0 else Triangle(n - 1) + n
  }

  lemma {:induction false} TriangleIsHalfProduct(n: nat)
    ensures 2 * Triangle(n) == n * (n + 1)
  {
    if n > 0 {
      TriangleIsHalfProduct(n - 1);
      assert n * (n + 1) == (n - 1) * n + 2 * n;
    }
  }

  /** The ranks 1..n in any order add up to 1 + 2 + ... + n. */
  lemma {:induction false} RanksSum(ranks: seq<int>)
    requires OntoOneToN(ranks)
    ensures IntSum(ranks) == Triangle(|ranks|)
    decreases |ranks|
  {
    var n := |ranks|;
    if n > 0 {
      assert n in ranks;
      var at :| 0 <= at < n && ranks[at] == n;
      WithoutTop(ranks, at);
      IntSumRemove(ranks, at);
      RanksSum(ranks[..at] + ranks[at + 1..]);
    }
  }

  /** The sum of the first `k` rank scores of a component. */
  function ScoreSum(ranks: seq<int>, n: nat, k: nat): real
    requires k <= |ranks| && n >= 2
  {
    if k == 0 then 0.0 else ScoreSum(ranks, n, k - 1) + RankScore(ranks[k - 1], n).v
  }

  lemma AddQuotients(a: real, b: real, d: real)
    requires d != 0.0
    ensures a / d + b / d == (a + b) / d
  {
  }

  lemma {:induction false} ScoreSumFromRanks(ranks: seq<int>, n: nat, k: nat)
    requires k <= |ranks| && n >= 2
    ensures ScoreSum(ranks, n, k) == k as real - (IntSum(ranks[..k]) - k) as real / (n - 1) as real
  {
    if k > 0 {
      ScoreSumFromRanks(ranks, n, k - 1);
      assert ranks[..k][..k - 1] == ranks[..k - 1];
      AddQuotients((IntSum(ranks[..k - 1]) - (k - 1)) as real, (ranks[k - 1] - 1) as real, (n - 1) as real);
    }
  }

  lemma HalfOfProduct(x: real, n: real, d: real)
    requires d > 0.0 && 2.0 * x == n * d
    ensures x / d == n / 2.0
  {
    var q := x / d;
    assert q * d == x;
    MulStrict(d, q, n / 2.0);
    MulStrict(d, n / 2.0, q);
    assert (n / 2.0) * d == x;
  }

  /** The rank scores of a component add up to n/2. */
  lemma ScoresSumToHalf(ranks: seq<int>, n: nat)
    requires n >= 2 && |ranks| == n && OntoOneToN(ranks)
    ensures ScoreSum(ranks, n, n) == n as real / 2.0
  {
    ScoreSumFromRanks(ranks, n, n);
    assert ranks[..n] == ranks;
    RanksSum(ranks);
    TriangleIsHalfProduct(n);
    var excess := IntSum(ranks) - n;
    assert 2 * excess == n * (n - 1);
    HalfOfProduct(excess as real, n as real, (n - 1) as real);
  }

  function CompositeSum(ranks: Ranks, n: nat, k: nat): real
    requires RanksSized(ranks, n) && k <= n
  {
    if k == 0 then 0.0
    else
      var c := CompositeOf(ranks, k - 1, n);
      CompositeSum(ranks, n, k - 1) + if c.Val? then c.v else 0.0
  }

  lemma ScoresDefined(ranks: Ranks, i: nat, n: nat)
    requires n >= 2 && RanksSized(ranks, n) && i < n
    ensures RankScore(ranks.pf[i], n).Val? && RankScore(ranks.wr[i], n).Val? && RankScore(ranks.stability[i], n).Val?
    ensures RankScore(ranks.regime[i], n).Val? && RankScore(ranks.correlation[i], n).Val?
  {
  }

  lemma {:induction false} CompositeSumSplits(ranks: Ranks, n: nat, k: nat)
    requires n >= 2 && RanksSized(ranks, n) && k <= n
    ensures CompositeSum(ranks, n, k) ==
            0.40 * ScoreSum(ranks.pf, n, k) + 0.25 * ScoreSum(ranks.wr, n, k)
            + 0.15 * ScoreSum(ranks.stability, n, k) + 0.10 * ScoreSum(ranks.regime, n, k)
            + 0.10 * ScoreSum(ranks.correlation, n, k)
  {
    hide RankScore;
    if k > 0 {
      CompositeSumSplits(ranks, n, k - 1);
      ScoresDefined(ranks, k - 1, n);
    }
  }

  /** For two or more features the composites always add up to exactly n/2. */
  lemma CompositesSumToHalf(ranks: Ranks, n: nat)
    requires n >= 2 && RanksSized(ranks, n)
    requires OntoOneToN(ranks.pf) && OntoOneToN(ranks.wr) && OntoOneToN(ranks.stability)
    requires OntoOneToN(ranks.regime) && OntoOneToN(ranks.correlation)
    ensures CompositeSum(ranks, n, n) == n as real / 2.0
  {
    hide ScoreSum, CompositeSum;
    CompositeSumSplits(ranks, n, n);
    ScoresSumToHalf(ranks.pf, n);
    ScoresSumToHalf(ranks.wr, n);
    ScoresSumToHalf(ranks.stability, n);
    ScoresSumToHalf(ranks.regime, n);
    ScoresSumToHalf(ranks.correlation, n);
  }

  lemma {:induction false} KeysSumToComposites(scores: seq<ComponentScore>, ranks: Ranks, k: nat)
    requires RanksSized(ranks, |scores|) && k <= |scores|
    ensures Sum(SortKeys(Scored(scores, ranks)), k) == CompositeSum(ranks, |scores|, k)
  {
    hide CompositeOf;
    if k > 0 {
      KeysSumToComposites(scores, ranks, k - 1);
    }
  }

  lemma SumOfComposites(scores: seq<ComponentScore>, ranks: Ranks, n: nat)
    requires RanksOf(scores, ranks) && RanksSized(ranks, n) && n == |scores| && n >= 2
    ensures Sum(SortKeys(Scored(scores, ranks)), n) == n as real / 2.0
  {
    KeysSumToComposites(scores, ranks, n);
    CompositesSumToHalf(ranks, n);
  }

  // ---- Sums do not depend on the order ----

  function Placed(vs: seq<real>, order: seq<nat>): (r: seq<real>)
    requires forall k :: 0 <= k < |order| ==> order[k] < |vs|
    ensures |r| == |order| && forall k :: 0 <= k < |order| ==> r[k] == vs[order[k]]
  {
    seq(|order|, k requires 0 <= k < |order| => vs[order[k]])
  }

  lemma {:induction false} SumRemove(vs: seq<real>, at: nat, k: nat)
    requires at < k <= |vs|
    ensures Sum(vs, k) == Sum(vs[..at] + vs[at + 1..], k - 1) + vs[at]
  {
    if at == k - 1 {
      SumAgrees(vs, vs[..at] + vs[at + 1..], at);
    } else {
      SumRemove(vs, at, k - 1);
    }
  }

  lemma WithoutLast(order: seq<nat>, at: nat)
    requires IsPermutation(order, |order|) && at < |order| && order[at] == |order| - 1
    ensures IsPermutation(order[..at] + order[at + 1..], |order| - 1)
  {
    var n := |order| - 1;
    var rest := order[..at] + order[at + 1..];
    forall k | 0 <= k < n
      ensures rest[k] < n && forall j :: 0 <= j < k ==> rest[j] != rest[k]
    {
      assert rest[k] == order[if k < at then k else k + 1];
    }
  }

  lemma PlacedWithout(vs: seq<real>, order: seq<nat>, at: nat, rest: seq<nat>)
    requires at < |order| == |vs| && IsPermutation(order, |vs|)
    requires rest == order[..at] + order[at + 1..] && IsPermutation(rest, |vs| - 1)
    ensures Placed(vs, order)[..at] + Placed(vs, order)[at + 1..] == Placed(vs[..|vs| - 1], rest)
  {
    hide Placed;
  }

  lemma SumUnfolds(vs: seq<real>)
    requires vs != []
    ensures Sum(vs, |vs|) == Sum(vs, |vs| - 1) + vs[|vs| - 1]
  {
  }

  lemma {:induction false} PlacedSum(vs: seq<real>, order: seq<nat>)
    requires IsPermutation(order, |vs|)
    ensures Sum(Placed(vs, order), |vs|) == Sum(vs, |vs|)
    decreases |vs|
  {
    hide Placed, Sum;
    if vs != [] {
      var n := |vs| - 1;
      PermutationCovers(order, |vs|);
      assert n in order;
      var at :| 0 <= at < |order| && order[at] == n;
      var rest := order[..at] + order[at + 1..];
      WithoutLast(order, at);
      PlacedSum(vs[..n], rest);
      SumAgrees(vs[..n], vs, n);
      SumRemove(Placed(vs, order), at, |vs|);
      PlacedWithout(vs, order, at, rest);
      SumUnfolds(vs);
    } else {
      assert Placed(vs, order) == vs;
    }
  }

  /** One feature alone has no composite: its only rank score is 0/0. */
  lemma SingleFeatureUndefined(ranks: Ranks)
    requires RanksSized(ranks, 1)
    ensures CompositeOf(ranks, 0, 1) == NaN
  {
  }

  // ---- The ranking ----

  lemma PlacedWithin(
      scores: seq<ComponentScore>, ranks: Ranks, order: seq<nat>, ranked: seq<ComponentScore>, k: nat)
    requires RankedBy(scores, ranks, order, ranked) && k < |scores| && |scores| >= 2
    ensures ranked[k].composite.Val? && 0.0 <= ranked[k].composite.v <= 1.0
  {
    hide CompositeOf;
    CompositeWithin(ranks, order[k], |scores|);
  }

  /** A feature that beats another in every component is placed strictly earlier. */
  lemma NoneBeforeBetter(
      scores: seq<ComponentScore>, ranks: Ranks, order: seq<nat>, ranked: seq<ComponentScore>, p: nat, q: nat)
    requires RankedBy(scores, ranks, order, ranked) && p < q < |scores|
    ensures !Dominates(ranked[q], ranked[p])
  {
    hide RanksOf, CompositeOf;
    if Dominates(scores[order[q]], scores[order[p]]) {
      DominanceScoresHigher(scores, ranks, order[q], order[p]);
      assert false;
    }
  }

  /** The ranking: the input reordered by descending composites, which from two entries on lie
      in [0, 1] and sum to exactly half their number; and no entry stands before one that beats
      it in every component. */
  method ComputeRanking(scores: seq<ComponentScore>) returns (ranked: seq<ComponentScore>)
    ensures |ranked| == |scores|
    ensures exists ranks: Ranks, order: seq<nat> :: RankedBy(scores, ranks, order, ranked)
    ensures |scores| >= 2 ==>
              forall k :: 0 <= k < |ranked| ==> ranked[k].composite.Val? && 0.0 <= ranked[k].composite.v <= 1.0
    ensures |scores| >= 2 ==> Sum(SortKeys(ranked), |ranked|) == |ranked| as real / 2.0
    ensures forall p, q :: 0 <= p < q < |ranked| ==> !Dominates(ranked[q], ranked[p])
  {
    hide RanksOf, CompositeOf, RankedBy;
    var n := |scores|;
    var rs := RankAll(scores);
    var scored := ScoreAll(scores, rs);
    var keys := SortKeys(scored);
    var places := SortDescending(keys);
    ranked := seq(n, k requires 0 <= k < n && IsPermutation(places, n) => scored[places[k]]);
    RankedByPlaces(scores, rs, scored, places, ranked);
    forall k | 0 <= k < n && n >= 2
      ensures ranked[k].composite.Val? && 0.0 <= ranked[k].composite.v <= 1.0
    {
      PlacedWithin(scores, rs, places, ranked, k);
    }
    if n >= 2 {
      SumOfComposites(scores, rs, n);
      PlacedSum(keys, places);
      assert SortKeys(ranked) == Placed(keys, places);
    }
    forall p, q | 0 <= p < q < n
      ensures !Dominates(ranked[q], ranked[p])
    {
      NoneBeforeBetter(scores, rs, places, ranked, p, q);
    }
  }
}
