/** The algebra behind Kruskal-Wallis: sums of squares over groups, and the spread of group means. */
module RankSpread {

  function Sum(s: seq<real>): real {
    if s == [] then 0.0 else s[0] + Sum(s[1..])
  }

  /** Sizes of groups are positive, and there is one for each rank sum. */
  predicate Sized(sums: seq<real>, sizes: seq<real>) {
    |sums| == |sizes| && forall i | 0 <= i < |sizes| :: sizes[i] > 0.0
  }

  /** The rank sum of each group, squared and over its size. */
  function Squares(sums: seq<real>, sizes: seq<real>): seq<real>
    requires Sized(sums, sizes)
  {
    seq(|sums|, i requires 0 <= i < |sums| => sums[i] * sums[i] / sizes[i])
  }

  /** The distance of a group from c: its size times the squared distance of its mean. */
  function Distance(sum: real, size: real, c: real): real
    requires size > 0.0
  {
    size * ((sum / size - c) * (sum / size - c))
  }

  function Distances(sums: seq<real>, sizes: seq<real>, c: real): seq<real>
    requires Sized(sums, sizes)
  {
    seq(|sums|, i requires 0 <= i < |sums| => Distance(sums[i], sizes[i], c))
  }

  lemma DistanceExpanded(R: real, n: real, c: real)
    requires n > 0.0
    ensures Distance(R, n, c) == R * R / n - 2.0 * c * R + c * c * n && Distance(R, n, c) >= 0.0
  {
    var m := R / n;
    assert R == m * n;
    assert R * R / n == m * R;
    assert (m - c) * (m - c) >= 0.0;
    assert n * ((m - c) * (m - c)) == m * (m * n) - 2.0 * c * (m * n) + c * c * n;
  }

  lemma {:induction false} SumCombines(d: seq<real>, s: seq<real>, x: seq<real>, y: seq<real>)
    requires |d| == |s| == |x| == |y| && forall i | 0 <= i < |d| :: d[i] == s[i] - x[i] + y[i]
    ensures Sum(d) == Sum(s) - Sum(x) + Sum(y)
  {
    if d != [] { SumCombines(d[1..], s[1..], x[1..], y[1..]); }
  }

  lemma {:induction false} SumScales(x: seq<real>, r: seq<real>, k: real)
    requires |x| == |r| && forall i | 0 <= i < |x| :: x[i] == k * r[i]
    ensures Sum(x) == k * Sum(r)
  {
    if x != [] {
      SumScales(x[1..], r[1..], k);
      assert k * (r[0] + Sum(r[1..])) == k * r[0] + k * Sum(r[1..]);
    }
  }

  lemma {:induction false} SumNonNegative(d: seq<real>)
    requires forall i | 0 <= i < |d| :: d[i] >= 0.0
    ensures Sum(d) >= 0.0
  {
    if d != [] { SumNonNegative(d[1..]); }
  }

  function Scaled(r: seq<real>, k: real): seq<real> {
    seq(|r|, i requires 0 <= i < |r| => k * r[i])
  }

  lemma ScaledSum(r: seq<real>, k: real)
    ensures Sum(Scaled(r, k)) == k * Sum(r)
  {
    SumScales(Scaled(r, k), r, k);
  }

  lemma DistancesSplit(sums: seq<real>, sizes: seq<real>, c: real)
    requires Sized(sums, sizes)
    ensures Sum(Distances(sums, sizes, c)) ==
            Sum(Squares(sums, sizes)) - Sum(Scaled(sums, 2.0 * c)) + Sum(Scaled(sizes, c * c))
    ensures Sum(Distances(sums, sizes, c)) >= 0.0
  {
    var d, s, x, y := Distances(sums, sizes, c), Squares(sums, sizes), Scaled(sums, 2.0 * c), Scaled(sizes, c * c);
    forall i | 0 <= i < |d| ensures d[i] == s[i] - x[i] + y[i] && d[i] >= 0.0 {
      DistanceExpanded(sums[i], sizes[i], c);
    }
    SumCombines(d, s, x, y);
    SumNonNegative(d);
  }

  /** The spread of the group means around any c, expanded. */
  lemma SpreadExpanded(sums: seq<real>, sizes: seq<real>, c: real)
    requires Sized(sums, sizes)
    ensures Sum(Distances(sums, sizes, c)) == Sum(Squares(sums, sizes)) - 2.0 * c * Sum(sums) + c * c * Sum(sizes)
    ensures Sum(Distances(sums, sizes, c)) >= 0.0
  {
    hide Sum, Distances, Squares, Scaled;
    DistancesSplit(sums, sizes, c);
    ScaledSum(sums, 2.0 * c);
    ScaledSum(sizes, c * c);
  }

  /** Dividing by N (N + 1) / 12 turns the centred sum into the formula of the program. */
  lemma Rescale(S: real, N: real, c: real, D: real)
    requires N > 0.0 && c == (N + 1.0) / 2.0 && D == S - 2.0 * c * (N * c) + c * c * N
    ensures RankFormula(S, N) == ScaledSpread(D, N) && (D >= 0.0 ==> ScaledSpread(D, N) >= 0.0)
  {
    var k := N * (N + 1.0);
    assert k > 0.0;
    assert D == S - c * c * N;
    assert c * c * N == (N + 1.0) * k / 4.0;
    var q := 12.0 / k;
    assert q * k == 12.0 && q > 0.0;
    assert q * ((N + 1.0) * k / 4.0) == q * k * ((N + 1.0) / 4.0) == 3.0 * (N + 1.0);
    assert q * (S - c * c * N) == q * S - q * (c * c * N);
  }

  lemma CentredSpread(sums: seq<real>, sizes: seq<real>, N: real, c: real)
    requires Sized(sums, sizes) && Sum(sizes) == N && Sum(sums) == N * c
    ensures Sum(Distances(sums, sizes, c)) == Sum(Squares(sums, sizes)) - 2.0 * c * (N * c) + c * c * N
    ensures Sum(Distances(sums, sizes, c)) >= 0.0
  {
    hide Sum, Distances, Squares, Scaled;
    SpreadExpanded(sums, sizes, c);
  }

  /** H as the program computes it from the sum of the squares. */
  function RankFormula(S: real, N: real): real
    requires N > 0.0
  {
    assert N * (N + 1.0) > 0.0;
    12.0 / (N * (N + 1.0)) * S - 3.0 * (N + 1.0)
  }

  function ScaledSpread(D: real, N: real): real
    requires N > 0.0
  {
    assert N * (N + 1.0) > 0.0;
    12.0 / (N * (N + 1.0)) * D
  }

  /** When the rank sums of N values add up to N times the mean rank (N + 1) / 2, the rank formula is the scaled
      spread around the mean rank, and is not negative. */
  lemma SpreadFormula(sums: seq<real>, sizes: seq<real>, N: real, c: real)
    requires Sized(sums, sizes) && N > 0.0 && c == (N + 1.0) / 2.0 && Sum(sizes) == N && Sum(sums) == N * c
    ensures RankFormula(Sum(Squares(sums, sizes)), N) == ScaledSpread(Sum(Distances(sums, sizes, c)), N)
    ensures ScaledSpread(Sum(Distances(sums, sizes, c)), N) >= 0.0
  {
    CentredSpread(sums, sizes, N, c);
    Rescale(Sum(Squares(sums, sizes)), N, c, Sum(Distances(sums, sizes, c)));
  }
}
