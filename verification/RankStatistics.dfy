/** The two test statistics, computed from ranks as the program does and characterised without them. */
module RankStatistics {
  import opened Ranks
  import opened RankTests
  import opened RankSpread

  // ---------- ranks keep ties and nothing else ----------

  lemma {:induction false} BelowGrows(data: seq<real>, x: real, y: real)
    requires x < y
    ensures Tally(data, Below(y)) >= Tally(data, Below(x)) + Tally(data, Same(x))
  {
    if data != [] { BelowGrows(data[1..], x, y); }
  }

  lemma RankMonotone(data: seq<real>, x: real, y: real)
    requires x in data && y in data
    ensures x < y ==> Rank(data, x) < Rank(data, y)
    ensures Rank(data, x) == Rank(data, y) <==> x == y
  {
    TallyBound(data, x);
    TallyBound(data, y);
    if x < y { BelowGrows(data, x, y); }
    if y < x { BelowGrows(data, y, x); }
  }

  ghost predicate AreRanks(data: seq<real>, xs: seq<real>, ranks: seq<real>) {
    |ranks| == |xs| && forall k | 0 <= k < |xs| :: xs[k] in data && ranks[k] == Rank(data, xs[k])
  }

  lemma {:induction false} RankTally(data: seq<real>, xs: seq<real>, ranks: seq<real>, x: real)
    requires AreRanks(data, xs, ranks) && x in data
    ensures Tally(ranks, Same(Rank(data, x))) == Tally(xs, Same(x))
  {
    if xs != [] {
      RankMonotone(data, xs[0], x);
      RankTally(data, xs[1..], ranks[1..], x);
    }
  }

  lemma {:induction false} RankTies(data: seq<real>, all: seq<real>, xs: seq<real>, ranks: seq<real>)
    requires AreRanks(data, data, all) && AreRanks(data, xs, ranks)
    ensures TieSum(all, ranks) == TieSum(data, xs)
  {
    if xs != [] {
      RankTally(data, data, all, xs[0]);
      RankTies(data, all, xs[1..], ranks[1..]);
    }
  }

  /** The tie correction of the data. */
  function Correction(data: seq<real>): real
    requires |data| >= 2
  {
    CubeSign(|data|);
    1.0 - TieSum(data, data) as real / Cube(|data|) as real
  }

  /** Ranked data have the same ties as the data, so the callers' test for a zero correction is a test for identical data. */
  lemma RankedIdentical(data: seq<real>, ranks: seq<real>)
    requires AreRanks(data, data, ranks)
    ensures TieSum(ranks, ranks) == TieSum(data, data) && (Identical(ranks) <==> Identical(data))
  {
    RankTies(data, ranks, data, ranks);
    forall i, j | 0 <= i < j < |data| ensures ranks[i] == ranks[j] <==> data[i] == data[j] {
      RankMonotone(data, data[i], data[j]);
    }
  }

  // ---------- Mann-Whitney ----------

  lemma PairCountsComplement(x: seq<real>, y: seq<real>)
    ensures PairCount2(x, y) + PairCount2(y, x) == 2 * (|x| * |y|)
  {
    hide PairsBelow, PairsSame, PairsAbove;
    PairsTotal(x, y);
    PairsTotal(y, x);
    PairsFlip(x, y);
    PairsFlip(y, x);
    assert |x| * |y| == |y| * |x|;
  }

  function Least(a: nat, b: nat): nat {
    if a < b then a else b
  }

  /** U as the program computes it from the ranks of the joint sample. */
  lemma RankU(x: seq<real>, y: seq<real>, rankx: seq<real>)
    requires |rankx| == |x| && forall k | 0 <= k < |x| :: rankx[k] == Rank(x + y, x[k])
    ensures (|x| * |y|) as real + (|x| * (|x| + 1)) as real / 2.0 - Sum(rankx) == PairCount2(x, y) as real / 2.0
  {
    SumOfRanks(x + y, x, rankx);
    RankFormulaIsPairCount(x, y);
  }

  /** How far U for x is from its mean, half the number of pairs. */
  function Deviation(x: seq<real>, y: seq<real>): real {
    PairCount2(x, y) as real / 2.0 - (|x| * |y|) as real / 2.0
  }

  /** The squared z of the program, given the square root of the tie correction. */
  function ZSquared(x: seq<real>, y: seq<real>, root: real): real
    requires x != [] && y != [] && root > 0.0
  {
    var v := UntiedVariance(|x|, |y|);
    PositiveProduct(root, v, root * v);
    Deviation(x, y) * Deviation(x, y) / (root * v)
  }

  function UntiedVariance(n1: nat, n2: nat): (v: real)
    requires n1 > 0 && n2 > 0
    ensures v > 0.0
  {
    PositiveProduct(n1 as real, n2 as real, n1 as real * n2 as real);
    Variance(n1 as real * n2 as real, n1 as real + n2 as real)
  }

  /** The variance of U without ties, from the number of pairs and the number of values. */
  function Variance(pairs: real, N: real): (v: real)
    requires pairs > 0.0 && N > 0.0
    ensures v > 0.0
  {
    PositiveProduct(pairs, N + 1.0, pairs * (N + 1.0));
    pairs * (N + 1.0) / 12.0
  }

  lemma PositiveProduct(a: real, b: real, p: real)
    requires a > 0.0 && b > 0.0 && a * b == p
    ensures p > 0.0
  {
  }

  /** A square root, as the program takes it from the library, without rounding. */
  ghost predicate IsSqrt(sqrt: real -> real) {
    forall t | t >= 0.0 :: sqrt(t) >= 0.0 && sqrt(t) * sqrt(t) == t
  }

  lemma SqrtAt(sqrt: real -> real, t: real)
    requires IsSqrt(sqrt) && t >= 0.0
    ensures sqrt(t) >= 0.0 && sqrt(t) * sqrt(t) == t && (t > 0.0 ==> sqrt(t) > 0.0) && (t == 0.0 ==> sqrt(t) == 0.0)
  {
    var r := sqrt(t);
    assert r >= 0.0 && r * r == t;
    if r == 0.0 { assert r * r == 0.0; }
    if r > 0.0 { PositiveProduct(r, r, t); }
  }

  /** The statistic and its distance from the mean in standard deviations. */
  datatype UTest = UTest(smallu: real, z: real)

  function Abs(r: real): (a: real)
    ensures a >= 0.0
  {
    if r < 0.0 then -r else r
  }

  lemma SquareOfQuotient(d: real, big: real, w: real, sd: real)
    requires (big == d || big == -d) && w > 0.0 && sd > 0.0 && sd * sd == w
    ensures Abs(big / sd) * Abs(big / sd) == d * d / w
  {
    var q := big / sd;
    assert q * sd == big;
    assert Abs(q) * Abs(q) == q * q;
    assert q * q * w == (q * sd) * (q * sd) == big * big == d * d;
  }

  /** The bigger of two values that add up to pairs is as far from half of it as either. */
  lemma BigDeviation(u1: real, pairs: real)
    ensures var u2 := pairs - u1; var bigu := if u2 > u1 then u2 else u1;
            bigu - pairs / 2.0 == u1 - pairs / 2.0 || bigu - pairs / 2.0 == -(u1 - pairs / 2.0)
  {
  }

  /** The variance of U as the program computes it, with the correction T for ties. */
  function TiedVariance(T: real, n1: nat, n2: nat): real {
    T * n1 as real * n2 as real * (n1 + n2 + 1) as real / 12.0
  }

  lemma VarianceUnderRoot(n1: nat, n2: nat, T: real)
    requires n1 > 0 && n2 > 0
    ensures TiedVariance(T, n1, n2) == T * UntiedVariance(n1, n2)
  {
    var a, b := n1 as real, n2 as real;
    PositiveProduct(a, b, a * b);
    assert (n1 + n2 + 1) as real == a + b + 1.0;
    assert T * a * b * (a + b + 1.0) == T * (a * b * (a + b + 1.0));
  }

  lemma ZIs(x: seq<real>, y: seq<real>, root: real, v: real, w: real, d: real)
    requires x != [] && y != [] && root > 0.0 && d == Deviation(x, y)
    requires v == UntiedVariance(|x|, |y|) && w == root * v
    ensures w > 0.0 && ZSquared(x, y, root) == d * d / w
  {
    hide UntiedVariance, Deviation;
    PositiveProduct(root, v, w);
  }

  /** The normal approximation: z as the program computes it squares to the specification. */
  method NormalScore(x: seq<real>, y: seq<real>, bigu: real, T: real, sqrt: real -> real) returns (z: real)
    requires x != [] && y != [] && T > 0.0 && IsSqrt(sqrt)
    requires bigu - (|x| * |y|) as real / 2.0 == Deviation(x, y) || bigu - (|x| * |y|) as real / 2.0 == -Deviation(x, y)
    ensures z >= 0.0 && z * z == ZSquared(x, y, T)
  {
    hide IsSqrt, UntiedVariance, Deviation, ZSquared, Abs, TiedVariance;
    VarianceUnderRoot(|x|, |y|, T);
    ghost var v := UntiedVariance(|x|, |y|);
    PositiveProduct(T, v, T * v);
    var variance := TiedVariance(T, |x|, |y|);
    assert variance == T * v;
    SqrtAt(sqrt, variance);
    var sd := sqrt(variance);
    var deviation := bigu - (|x| * |y|) as real / 2.0;
    SquareOfQuotient(Deviation(x, y), deviation, variance, sd);
    ZIs(x, y, T, v, variance, Deviation(x, y));
    z := Abs(deviation / sd);
  }

  /** The smaller U is the smaller of the two pair counts, each counting a tie as one half: so it is symmetric in
      its samples and lies between zero and half the number of pairs.  Beside it stands z, whose square is the
      squared deviation of U over its variance times the square root of the tie correction. */
  method MannWhitneyU(x: seq<real>, y: seq<real>, sqrt: real -> real) returns (r: Result<UTest>)
    requires IsSqrt(sqrt)
    ensures x == [] || y == [] ==> r == Fails(DivisionByZero)
    ensures x != [] && y != [] && Identical(x + y) ==> r == Fails(AllIdentical)
    ensures x != [] && y != [] && !Identical(x + y) ==>
              && r.Success? && r.value.smallu == Least(PairCount2(x, y), PairCount2(y, x)) as real / 2.0
              && sqrt(Correction(x + y)) > 0.0 && r.value.z >= 0.0
              && r.value.z * r.value.z == ZSquared(x, y, sqrt(Correction(x + y)))
  {
    hide IsSqrt, ZSquared, Identical, PairCount2, TieSum, Cube;
    var n1, n2 := |x|, |y|;
    var data := x + y;
    var ranked := RankData(data);
    var rankx := ranked[..n1];
    var u1 := (n1 * n2) as real + (n1 * (n1 + 1)) as real / 2.0 - Sum(rankx);
    var u2 := (n1 * n2) as real - u1;
    var bigu := if u2 > u1 then u2 else u1;
    var smallu := if u2 < u1 then u2 else u1;
    RankU(x, y, rankx);
    PairCountsComplement(x, y);
    if n1 * n2 == 0 {
      return Fails(DivisionByZero);
    }
    assert AreRanks(data, data, ranked);
    RankedIdentical(data, ranked);
    var correction := TieCorrect(ranked);
    assert correction.value == Correction(data);
    SqrtAt(sqrt, correction.value);
    var T := sqrt(correction.value);
    if T == 0.0 {
      return Fails(AllIdentical);
    }
    BigDeviation(u1, (n1 * n2) as real);
    var z := NormalScore(x, y, bigu, T, sqrt);
    r := Success(UTest(smallu, z));
  }

  lemma UBounds(x: seq<real>, y: seq<real>)
    ensures 0.0 <= Least(PairCount2(x, y), PairCount2(y, x)) as real / 2.0 <= (|x| * |y|) as real / 2.0
    ensures Least(PairCount2(x, y), PairCount2(y, x)) == Least(PairCount2(y, x), PairCount2(x, y))
  {
    PairCountsComplement(x, y);
  }

  // ---------- Kruskal-Wallis ----------

  function Concat(groups: seq<seq<real>>): seq<real> {
    if groups == [] then [] else groups[0] + Concat(groups[1..])
  }

  predicate NoneEmpty(groups: seq<seq<real>>) {
    forall i | 0 <= i < |groups| :: groups[i] != []
  }

  /** The rank sum of each group, among all the data, and the sizes. */
  function GroupSums(data: seq<real>, groups: seq<seq<real>>): seq<real> {
    seq(|groups|, i requires 0 <= i < |groups| => RankSum2(data, groups[i]) as real / 2.0)
  }

  function GroupSizes(groups: seq<seq<real>>): seq<real> {
    seq(|groups|, i requires 0 <= i < |groups| => |groups[i]| as real)
  }

  lemma {:induction false} RankSumConcat(data: seq<real>, a: seq<real>, b: seq<real>)
    ensures RankSum2(data, a + b) == RankSum2(data, a) + RankSum2(data, b)
  {
    if a == [] {
      assert a + b == b;
    } else {
      assert (a + b)[1..] == a[1..] + b;
      RankSumConcat(data, a[1..], b);
    }
  }

  /** Cutting the ranks into groups loses none of them. */
  lemma {:induction false} GroupSumsTotal(data: seq<real>, groups: seq<seq<real>>)
    ensures Sum(GroupSums(data, groups)) == RankSum2(data, Concat(groups)) as real / 2.0
  {
    if groups != [] {
      GroupSumsTotal(data, groups[1..]);
      RankSumConcat(data, groups[0], Concat(groups[1..]));
      assert GroupSums(data, groups)[1..] == GroupSums(data, groups[1..]);
    }
  }

  lemma {:induction false} GroupSizesTotal(groups: seq<seq<real>>)
    ensures Sum(GroupSizes(groups)) == |Concat(groups)| as real
  {
    if groups != [] {
      GroupSizesTotal(groups[1..]);
      assert GroupSizes(groups)[1..] == GroupSizes(groups[1..]);
    }
  }

  lemma RankMean(data: seq<real>)
    ensures var N := |data| as real; RankSum2(data, data) as real / 2.0 == N * ((N + 1.0) / 2.0)
  {
    RankSumTotal(data);
    assert (|data| * (|data| + 1)) as real == |data| as real * (|data| as real + 1.0);
  }

  /** H before the tie correction: the spread of the mean ranks of the groups around the mean of all ranks,
      each group weighted by its size. */
  function RawH(groups: seq<seq<real>>): real
    requires NoneEmpty(groups) && Concat(groups) != []
  {
    var data := Concat(groups);
    var N := |data| as real;
    ScaledSpread(Sum(Distances(GroupSums(data, groups), GroupSizes(groups), (N + 1.0) / 2.0)), N)
  }

  /** The formula of the program computes that spread, so it is never negative. */
  lemma HIsSpread(groups: seq<seq<real>>)
    requires NoneEmpty(groups) && Concat(groups) != []
    ensures var data := Concat(groups);
            RankFormula(Sum(Squares(GroupSums(data, groups), GroupSizes(groups))), |data| as real) == RawH(groups)
    ensures RawH(groups) >= 0.0
  {
    hide Concat, RankSum2, Sum, Squares, Distances, RankFormula, ScaledSpread;
    var data := Concat(groups);
    var N := |data| as real;
    GroupSumsTotal(data, groups);
    GroupSizesTotal(groups);
    RankMean(data);
    SpreadFormula(GroupSums(data, groups), GroupSizes(groups), N, (N + 1.0) / 2.0);
  }

  function SquareOver(sum: real, n: nat): real
    requires n > 0
  {
    sum * sum / n as real
  }

  /** One group: its rank sum squared, over its size. */
  lemma GroupSquare(data: seq<real>, groups: seq<seq<real>>, i: nat, ranks: seq<real>)
    requires NoneEmpty(groups) && i < |groups| && AreRanks(data, groups[i], ranks)
    ensures SquareOver(Sum(ranks), |groups[i]|) ==
            Squares(GroupSums(data, groups), GroupSizes(groups))[i]
  {
    hide Sum, RankSum2, Rank, SquareOver;
    SumOfRanks(data, groups[i], ranks);
    var sums, sizes := GroupSums(data, groups), GroupSizes(groups);
    assert sums[i] == Sum(ranks) && sizes[i] == |groups[i]| as real;
    SquareAt(sums, sizes, i, |groups[i]|);
  }

  lemma SquareAt(sums: seq<real>, sizes: seq<real>, i: nat, n: nat)
    requires Sized(sums, sizes) && i < |sums| && sizes[i] == n as real
    ensures n > 0 && Squares(sums, sizes)[i] == SquareOver(sums[i], n)
  {
  }

  lemma ConcatSplit(groups: seq<seq<real>>, i: nat)
    requires i < |groups|
    ensures Concat(groups[i..]) == groups[i] + Concat(groups[i + 1..])
  {
    assert groups[i..][1..] == groups[i + 1..];
  }

  lemma {:induction false} SumAppend(s: seq<real>, x: real)
    ensures Sum(s + [x]) == Sum(s) + x
  {
    if s == [] {
      assert s + [x] == [x];
    } else {
      assert (s + [x])[1..] == s[1..] + [x];
      SumAppend(s[1..], x);
    }
  }

  /** The sum of the squares of the first i groups. */
  ghost function SquaresUpTo(data: seq<real>, groups: seq<seq<real>>, i: nat): real
    requires NoneEmpty(groups) && i <= |groups|
  {
    Sum(Squares(GroupSums(data, groups), GroupSizes(groups))[..i])
  }

  lemma OneMoreSquare(data: seq<real>, groups: seq<seq<real>>, i: nat, ranks: seq<real>)
    requires NoneEmpty(groups) && i < |groups| && AreRanks(data, groups[i], ranks)
    ensures SquaresUpTo(data, groups, i + 1) == SquaresUpTo(data, groups, i) + SquareOver(Sum(ranks), |groups[i]|)
  {
    var squares := Squares(GroupSums(data, groups), GroupSizes(groups));
    GroupSquare(data, groups, i, ranks);
    SumAppend(squares[..i], squares[i]);
    assert squares[..i + 1] == squares[..i] + [squares[i]];
  }

  lemma AllSquares(data: seq<real>, groups: seq<seq<real>>)
    requires NoneEmpty(groups)
    ensures SquaresUpTo(data, groups, |groups|) == Sum(Squares(GroupSums(data, groups), GroupSizes(groups)))
  {
    var squares := Squares(GroupSums(data, groups), GroupSizes(groups));
    assert squares[..|groups|] == squares;
  }

  /** The loops that cut the ranks into groups and add up the squares; an empty group divides by zero. */
  method SumSquares(data: seq<real>, groups: seq<seq<real>>, ranked: seq<real>) returns (r: Result<real>)
    requires AreRanks(data, Concat(groups), ranked)
    ensures NoneEmpty(groups) ==> r == Success(Sum(Squares(GroupSums(data, groups), GroupSizes(groups))))
    ensures !NoneEmpty(groups) ==> r == Fails(DivisionByZero)
  {
    hide Sum, Squares, Concat, GroupSums, GroupSizes, AreRanks, SquaresUpTo, SquareOver;
    var rest, total, i := ranked, 0.0, 0;
    assert groups[0..] == groups;
    NoSquares(data, groups);
    while i < |groups|
      invariant i <= |groups| && AreRanks(data, Concat(groups[i..]), rest) && forall j | 0 <= j < i :: groups[j] != []
      invariant NoneEmpty(groups) ==> total == SquaresUpTo(data, groups, i)
    {
      var n := |groups[i]|;
      if n == 0 {
        return Fails(DivisionByZero);
      }
      ConcatSplit(groups, i);
      HeadRanks(data, groups[i], Concat(groups[i + 1..]), rest);
      var head := rest[..n];
      if NoneEmpty(groups) { OneMoreSquare(data, groups, i, head); }
      total := total + SquareOver(Sum(head), n);
      rest := rest[n..];
      i := i + 1;
    }
    AllSquares(data, groups);
    r := Success(total);
  }

  lemma NoSquares(data: seq<real>, groups: seq<seq<real>>)
    ensures NoneEmpty(groups) ==> SquaresUpTo(data, groups, 0) == 0.0
  {
  }

  lemma HeadRanks(data: seq<real>, g: seq<real>, rest: seq<real>, ranks: seq<real>)
    requires AreRanks(data, g + rest, ranks)
    ensures |ranks| >= |g| && AreRanks(data, g, ranks[..|g|]) && AreRanks(data, rest, ranks[|g|..])
  {
    forall k | 0 <= k < |g| ensures g[k] in data && ranks[k] == Rank(data, g[k]) {
      assert (g + rest)[k] == g[k];
    }
    forall k | 0 <= k < |rest| ensures rest[k] in data && ranks[|g| + k] == Rank(data, rest[k]) {
      assert (g + rest)[|g| + k] == rest[k];
    }
  }

  /** H, corrected for ties, is the weighted spread of the group mean ranks over the tie correction of the data, and is
      never negative; it fails exactly for an empty group, fewer than two values, or identical values. */
  method KruskalWallisH(groups: seq<seq<real>>) returns (r: Result<real>)
    ensures !NoneEmpty(groups) || |Concat(groups)| < 2 ==> r == Fails(DivisionByZero)
    ensures NoneEmpty(groups) && |Concat(groups)| >= 2 ==>
              if Identical(Concat(groups)) then r == Fails(AllIdentical)
              else Correction(Concat(groups)) > 0.0 && r == Success(RawH(groups) / Correction(Concat(groups))) && r.value >= 0.0
  {
    var data := Concat(groups);
    var ranked := RankData(data);
    assert AreRanks(data, data, ranked);
    RankedIdentical(data, ranked);
    var T := TieCorrect(ranked);
    if T.Fails? {
      return T;
    }
    var squares := SumSquares(data, groups, ranked);
    if squares.Fails? {
      return squares;
    }
    HIsSpread(groups);
    var h := RankFormula(squares.value, |data| as real);
    if T.value == 0.0 {
      return Fails(AllIdentical);
    }
    QuotientSign(h, T.value);
    r := Success(h / T.value);
  }

  lemma QuotientSign(h: real, t: real)
    requires h >= 0.0 && t > 0.0
    ensures h / t >= 0.0
  {
  }
}
