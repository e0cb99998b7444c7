/** Two samples: how the normal approximation of Mann-Whitney relates to Kruskal-Wallis.

    The documentation of the former calls it equivalent to the latter with two groups.  The program takes
    the square root of the tie correction before it enters the variance, so this holds only without ties. */
module TwoSamples {
  import opened Ranks
  import opened RankSpread
  import opened RankTests
  import opened RankStatistics

  // ---------- two groups ----------

  lemma DistanceCentred(R: real, n: real, c: real)
    requires n > 0.0
    ensures Distance(R, n, c) == (R - n * c) * (R - n * c) / n
  {
    var m := R / n;
    assert R == m * n;
    assert (R - n * c) * (R - n * c) == n * (n * ((m - c) * (m - c)));
  }

  lemma RealProduct(a: nat, b: nat)
    ensures (a * b) as real == a as real * b as real
  {
  }

  lemma DeviationArithmetic(a: nat, b: nat, n1: real, n2: real, R: int, P: int)
    requires n1 == a as real && n2 == b as real && R == 2 * (a * b) + a * (a + 1) - P
    ensures R as real / 2.0 - n1 * ((n1 + n2 + 1.0) / 2.0) == -(P as real / 2.0 - (a * b) as real / 2.0)
  {
    RealProduct(a, b);
    RealProduct(a, a + 1);
    assert R as real == 2.0 * (n1 * n2) + n1 * (n1 + 1.0) - P as real;
    assert n1 * ((n1 + n2 + 1.0) / 2.0) == (n1 * (n1 + 1.0) + n1 * n2) / 2.0;
  }

  /** The rank sum of a sample is off its mean by as much as its U is, the other way. */
  lemma RankSumDeviation(x: seq<real>, y: seq<real>)
    ensures var n1, n2 := |x| as real, |y| as real;
            RankSum2(x + y, x) as real / 2.0 - n1 * ((n1 + n2 + 1.0) / 2.0) == -Deviation(x, y)
  {
    hide RankSum2, PairCount2;
    RankFormulaIsPairCount(x, y);
    DeviationArithmetic(|x|, |y|, |x| as real, |y| as real, RankSum2(x + y, x), PairCount2(x, y));
  }

  lemma OtherArithmetic(a: nat, b: nat, n1: real, n2: real, R1: int, R2: int, d: real)
    requires n1 == a as real && n2 == b as real && R1 + R2 == (a + b) * (a + b + 1)
    requires R1 as real / 2.0 - n1 * ((n1 + n2 + 1.0) / 2.0) == -d
    ensures R2 as real / 2.0 - n2 * ((n1 + n2 + 1.0) / 2.0) == d
  {
    RealProduct(a + b, a + b + 1);
    var N := n1 + n2;
    assert R1 as real + R2 as real == N * (N + 1.0);
    assert n1 * ((N + 1.0) / 2.0) + n2 * ((N + 1.0) / 2.0) == N * (N + 1.0) / 2.0;
  }

  lemma OtherDeviation(x: seq<real>, y: seq<real>)
    ensures var n1, n2 := |x| as real, |y| as real;
            RankSum2(x + y, y) as real / 2.0 - n2 * ((n1 + n2 + 1.0) / 2.0) == Deviation(x, y)
  {
    hide RankSum2, Deviation;
    RankSumDeviation(x, y);
    RankSumTotal(x + y);
    RankSumConcat(x + y, x, y);
    OtherArithmetic(|x|, |y|, |x| as real, |y| as real, RankSum2(x + y, x), RankSum2(x + y, y), Deviation(x, y));
  }

  /** The squared deviation of U over its untied variance. */
  function Standardised(d: real, n1: real, n2: real): real
    requires n1 > 0.0 && n2 > 0.0
  {
    PositiveProduct(n1, n2, n1 * n2);
    d * d / Variance(n1 * n2, n1 + n2)
  }

  lemma TwoTerms(q: real, n1: real, n2: real)
    requires n1 > 0.0 && n2 > 0.0
    ensures (q / n1 + q / n2) * (n1 * n2) == q * (n1 + n2)
  {
    var p, r := q / n1, q / n2;
    assert q == p * n1 && q == r * n2;
    assert q * (n1 + n2) == q * n1 + q * n2 == (r * n2) * n1 + (p * n1) * n2 == (p + r) * (n1 * n2);
  }

  lemma Cancel(S: real, D: real, N: real, p: real)
    requires N > 0.0 && p > 0.0 && S * p == D * N
    ensures ScaledSpread(S, N) == D / Variance(p, N)
  {
    var k := N * (N + 1.0);
    PositiveProduct(N, N + 1.0, k);
    var v := 12.0 / k * S;
    assert 12.0 / k * k == 12.0;
    assert v * k == 12.0 * S;
    assert v * k * p == 12.0 * (D * N);
    assert v * (p * (N + 1.0)) * N == 12.0 * D * N;
    assert v * (p * (N + 1.0)) == 12.0 * D;
    assert v * Variance(p, N) == D;
  }

  lemma DistancesOfTwo(R1: real, R2: real, n1: real, n2: real, c: real, d: real, q: real)
    requires n1 > 0.0 && n2 > 0.0 && R1 - n1 * c == -d && R2 - n2 * c == d && d * d == q
    ensures (Distance(R1, n1, c) + Distance(R2, n2, c)) * (n1 * n2) == q * (n1 + n2)
  {
    hide Distance;
    DistanceCentred(R1, n1, c);
    DistanceCentred(R2, n2, c);
    assert (-d) * (-d) == q;
    TwoTerms(q, n1, n2);
  }

  lemma SquareTerms(R1: real, R2: real, n1: real, n2: real, c: real, d: real)
    requires n1 > 0.0 && n2 > 0.0 && R1 - n1 * c == -d && R2 - n2 * c == d
    ensures ScaledSpread(Distance(R1, n1, c) + Distance(R2, n2, c), n1 + n2) == Standardised(d, n1, n2)
  {
    hide ScaledSpread, Distance, Variance;
    DistancesOfTwo(R1, R2, n1, n2, c, d, d * d);
    PositiveProduct(n1, n2, n1 * n2);
    Cancel(Distance(R1, n1, c) + Distance(R2, n2, c), d * d, n1 + n2, n1 * n2);
  }

  lemma TwoDistances(R1: real, R2: real, n1: real, n2: real, c: real)
    requires n1 > 0.0 && n2 > 0.0
    ensures Sized([R1, R2], [n1, n2])
    ensures Sum(Distances([R1, R2], [n1, n2], c)) == Distance(R1, n1, c) + Distance(R2, n2, c)
  {
    hide Distance;
    var a, b := Distance(R1, n1, c), Distance(R2, n2, c);
    assert Distances([R1, R2], [n1, n2], c) == [a, b];
    assert [a, b][1..] == [b] && [b][1..] == [];
    assert Sum([b]) == b;
  }

  lemma TwoGroups(x: seq<real>, y: seq<real>)
    ensures Concat([x, y]) == x + y
    ensures GroupSizes([x, y]) == [|x| as real, |y| as real]
    ensures GroupSums(x + y, [x, y]) == [RankSum2(x + y, x) as real / 2.0, RankSum2(x + y, y) as real / 2.0]
  {
    hide RankSum2;
    assert [x, y][1..] == [y] && [y][1..] == [];
    assert Concat([y]) == y;
  }

  /** H of two groups, before the tie correction, is the squared deviation of U over its untied variance. */
  lemma TwoGroupH(x: seq<real>, y: seq<real>)
    requires x != [] && y != []
    ensures Concat([x, y]) == x + y && RawH([x, y]) == Standardised(Deviation(x, y), |x| as real, |y| as real)
  {
    hide Deviation, Distance, Distances, GroupSums, GroupSizes, Sum, ScaledSpread, Concat, Standardised, RankSum2, Sized;
    var n1, n2 := |x| as real, |y| as real;
    TwoGroups(x, y);
    RankSumDeviation(x, y);
    OtherDeviation(x, y);
    assert |x + y| as real == n1 + n2;
    var c := (n1 + n2 + 1.0) / 2.0;
    var R1, R2 := RankSum2(x + y, x) as real / 2.0, RankSum2(x + y, y) as real / 2.0;
    TwoDistances(R1, R2, n1, n2, c);
    SquareTerms(R1, R2, n1, n2, c, Deviation(x, y));
  }

  // ---------- the claim of equivalence ----------

  lemma RootDivides(A: real, t: real, root: real)
    requires root > 0.0 && root * root == t
    ensures t > 0.0 && (A / root == A / t <==> A == 0.0 || t == 1.0)
  {
    PositiveProduct(root, root, t);
    var p, q := A / root, A / t;
    assert p * root == A && q * root * root == A;
    assert p == q * root;
    if p == q && A != 0.0 {
      assert q != 0.0;
      assert q * (root - 1.0) == 0.0;
      assert root == 1.0;
    }
    if t == 1.0 {
      assert (root - 1.0) * (root + 1.0) == 0.0;
      assert root == 1.0;
    }
  }

  lemma ZOverRoot(x: seq<real>, y: seq<real>, root: real)
    requires x != [] && y != [] && root > 0.0
    ensures Concat([x, y]) == x + y && ZSquared(x, y, root) == RawH([x, y]) / root
  {
    hide Deviation, RawH, Concat, UntiedVariance;
    TwoGroupH(x, y);
    StandardisedIs(Deviation(x, y), |x|, |y|);
    DivideTwice(Deviation(x, y) * Deviation(x, y), root, UntiedVariance(|x|, |y|));
  }

  lemma StandardisedIs(d: real, n1: nat, n2: nat)
    requires n1 > 0 && n2 > 0
    ensures Standardised(d, n1 as real, n2 as real) == d * d / UntiedVariance(n1, n2)
    ensures Standardised(d, n1 as real, n2 as real) == 0.0 <==> d == 0.0
  {
    hide Variance;
    var v, q := UntiedVariance(n1, n2), d * d / UntiedVariance(n1, n2);
    assert q * v == d * d;
    if d != 0.0 { PositiveProduct(if d > 0.0 then d else -d, if d > 0.0 then d else -d, d * d); }
  }

  lemma DivideTwice(a: real, root: real, v: real)
    requires root > 0.0 && v > 0.0
    ensures root * v > 0.0 && a / (root * v) == a / v / root
  {
    var q := a / v / root;
    assert q * root * v == a;
    assert q * (root * v) == a;
  }

  /** U is at its mean: as many pairs with x < y as with x > y. */
  predicate Even(x: seq<real>, y: seq<real>) {
    PairCount2(x, y) == |x| * |y|
  }

  predicate AllDifferent(data: seq<real>) {
    forall i, j | 0 <= i < j < |data| :: data[i] != data[j]
  }

  lemma EvenIff(x: seq<real>, y: seq<real>)
    requires x != [] && y != []
    ensures Concat([x, y]) == x + y && (RawH([x, y]) == 0.0 <==> Even(x, y))
  {
    hide RawH, Concat, Standardised, PairCount2;
    TwoGroupH(x, y);
    StandardisedIs(Deviation(x, y), |x|, |y|);
  }

  /** The squared z and H agree exactly when all values differ, or U is at its mean and both are zero. */
  lemma EquivalentIffNoTies(x: seq<real>, y: seq<real>, root: real)
    requires x != [] && y != [] && root > 0.0 && root * root == Correction(x + y)
    ensures Correction(x + y) > 0.0
    ensures Concat([x, y]) == x + y && NoneEmpty([x, y])
    ensures ZSquared(x, y, root) == RawH([x, y]) / Correction(x + y) <==> Even(x, y) || AllDifferent(x + y)
  {
    hide Deviation, RawH, Concat, ZSquared, Correction, TieSum, Even, AllDifferent;
    ZOverRoot(x, y, root);
    RootDivides(RawH([x, y]), Correction(x + y), root);
    CorrectionIsOne(x + y);
    NoTies(x + y);
    EvenIff(x, y);
  }

  /** The documented equivalence, on what the two functions return: for samples that both accept, z squared is H
      if and only if all values differ or as many pairs have x < y as x > y. */
  method BothTests(x: seq<real>, y: seq<real>, sqrt: real -> real) returns (u: UTest, h: real)
    requires x != [] && y != [] && !Identical(x + y) && IsSqrt(sqrt)
    ensures u.z * u.z == h <==> Even(x, y) || AllDifferent(x + y)
  {
    hide IsSqrt, Correction, ZSquared, RawH, Identical, Concat, PairCount2, Even, AllDifferent;
    var a := MannWhitneyU(x, y, sqrt);
    var b := KruskalWallisH([x, y]);
    TwoGroups(x, y);
    CorrectionRange(x + y);
    SqrtAt(sqrt, Correction(x + y));
    EquivalentIffNoTies(x, y, sqrt(Correction(x + y)));
    u, h := a.value, b.value;
  }

  lemma CorrectionRange(data: seq<real>)
    requires |data| >= 2
    ensures Correction(data) >= 0.0
  {
    hide TieSum;
    TieSumIdentical(data);
    CubeSign(|data|);
    RatioBounds(TieSum(data, data), Cube(|data|));
  }

  /** Ties do make them differ: one value against two equal larger ones. */
  lemma TiesMakeThemDiffer(root: real)
    requires root > 0.0 && root * root == Correction([0.0] + [1.0, 1.0])
    ensures var x, y := [0.0], [1.0, 1.0];
            && Concat([x, y]) == x + y && NoneEmpty([x, y]) && Correction(x + y) > 0.0
            && ZSquared(x, y, root) != RawH([x, y]) / Correction(x + y)
  {
    hide RawH, ZSquared, Correction, Concat;
    var x, y := [0.0], [1.0, 1.0];
    EquivalentIffNoTies(x, y, root);
    assert (x + y)[1] == (x + y)[2];
    assert y[1..] == [1.0] && [1.0][1..] == [] && x[1..] == [];
    assert Tally([1.0], Above(0.0)) == 1 && Tally([1.0], Same(0.0)) == 0;
    assert Tally(y, Above(0.0)) == 2 && Tally(y, Same(0.0)) == 0;
    assert PairsAbove(y, x) == 2 && PairsSame(y, x) == 0;
  }

  lemma CorrectionIsOne(data: seq<real>)
    requires |data| >= 2
    ensures Correction(data) == 1.0 <==> TieSum(data, data) == 0
  {
    CubeSign(|data|);
    var d, T := Cube(|data|) as real, TieSum(data, data) as real;
    assert T / d * d == T;
  }

  /** The tie sum is zero exactly when the values are all different. */
  lemma NoTies(data: seq<real>)
    ensures TieSum(data, data) == 0 <==> AllDifferent(data)
  {
    hide Tally, TieSum;
    NoTiesAmong(data, data);
    forall k | 0 <= k < |data|
      ensures Tally(data, Same(data[k])) == 1 <==> forall j | 0 <= j < |data| && j != k :: data[j] != data[k]
    {
      TallyOne(data, k);
    }
  }

  lemma {:induction false} TallyZero(s: seq<real>, v: real)
    ensures Tally(s, Same(v)) == 0 <==> v !in s
  {
    if s != [] { TallyZero(s[1..], v); }
  }

  lemma TallyOne(data: seq<real>, k: nat)
    requires k < |data|
    ensures Tally(data, Same(data[k])) == 1 <==> forall j | 0 <= j < |data| && j != k :: data[j] != data[k]
  {
    var v, left, right := data[k], data[..k], data[k + 1..];
    assert data == left + ([v] + right);
    TallyAppend(left, [v] + right, Same(v));
    assert ([v] + right)[1..] == right;
    TallyZero(left, v);
    TallyZero(right, v);
    OneOccurrence(data, k);
  }

  lemma OneOccurrence(data: seq<real>, k: nat)
    requires k < |data|
    ensures data[k] !in data[..k] && data[k] !in data[k + 1..] <==> forall j | 0 <= j < |data| && j != k :: data[j] != data[k]
  {
    forall j | 0 <= j < |data| && j != k ensures data[j] in data[..k] || data[j] in data[k + 1..] {
      if j < k { assert data[..k][j] == data[j]; } else { assert data[k + 1..][j - k - 1] == data[j]; }
    }
  }

  lemma {:induction false} NoTiesAmong(s: seq<real>, xs: seq<real>)
    requires forall k | 0 <= k < |xs| :: xs[k] in s
    ensures TieSum(s, xs) >= 0 && (TieSum(s, xs) == 0 <==> forall k | 0 <= k < |xs| :: Tally(s, Same(xs[k])) == 1)
  {
    if xs != [] {
      var t := Tally(s, Same(xs[0]));
      TallyBound(s, xs[0]);
      SquareMonotone(1, t);
      NoTiesAmong(s, xs[1..]);
      assert forall k | 1 <= k < |xs| :: xs[k] == xs[1..][k - 1];
    }
  }
}
