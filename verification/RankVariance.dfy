/** The variance of ranks, and what H is when every value stands alone: the statistic is scaled to have a known greatest value. */
module RankVariance {
  import opened Ranks
  import opened RankTests
  import opened RankSpread
  import opened RankStatistics

  /** How many more values lie below x than above it. */
  function Lead(data: seq<real>, x: real): int {
    Tally(data, Below(x)) - Tally(data, Above(x))
  }

  function Sign(x: real, y: real): int {
    if y < x then 1 else if x < y then -1 else 0
  }

  /** The sum of the squared leads, among the data, of the values of xs. */
  function LeadSquares(data: seq<real>, xs: seq<real>): int {
    if xs == [] then 0 else Lead(data, xs[0]) * Lead(data, xs[0]) + LeadSquares(data, xs[1..])
  }

  /** The leads of the values of xs, added for those above a and subtracted for those below. */
  function Cross(data: seq<real>, xs: seq<real>, a: real): int {
    if xs == [] then 0 else Sign(xs[0], a) * Lead(data, xs[0]) + Cross(data, xs[1..], a)
  }

  function SignProducts(xs: seq<real>, a: real, b: real): int {
    if xs == [] then 0 else Sign(xs[0], a) * Sign(xs[0], b) + SignProducts(xs[1..], a, b)
  }

  lemma LeadCons(data: seq<real>, a: real, x: real)
    ensures Lead([a] + data, x) == Lead(data, x) + Sign(x, a)
  {
    assert ([a] + data)[1..] == data;
  }

  // ---------- one more value ----------

  lemma SquareOfSum(u: int, s: int)
    requires s == 0 || s == 1 || s == -1
    ensures (u + s) * (u + s) == u * u + 2 * (s * u) + s * s
  {
  }

  lemma {:induction false} SquaresGrow(data: seq<real>, a: real, xs: seq<real>)
    ensures LeadSquares([a] + data, xs) ==
            LeadSquares(data, xs) + 2 * Cross(data, xs, a) + Tally(xs, Below(a)) + Tally(xs, Above(a))
  {
    if xs != [] {
      LeadCons(data, a, xs[0]);
      SquareOfSum(Lead(data, xs[0]), Sign(xs[0], a));
      SquaresGrow(data, a, xs[1..]);
    }
  }

  lemma {:induction false} CrossGrows(data: seq<real>, b: real, xs: seq<real>, a: real)
    ensures Cross([b] + data, xs, a) == Cross(data, xs, a) + SignProducts(xs, a, b)
  {
    if xs != [] {
      LeadCons(data, b, xs[0]);
      var s, u := Sign(xs[0], a), Lead(data, xs[0]);
      assert s * (u + Sign(xs[0], b)) == s * u + s * Sign(xs[0], b);
      CrossGrows(data, b, xs[1..], a);
    }
  }

  /** Each value counts by how many of a and b, taken as one place, lie between it and b. */
  lemma {:induction false} Between(xs: seq<real>, a: real, b: real)
    ensures var l, e, g := Tally(xs, Below(a)), Tally(xs, Same(a)), Tally(xs, Above(a));
            Sign(b, a) * Lead(xs, b) + SignProducts(xs, a, b) == if a < b then e + 2 * l else if b < a then e + 2 * g else l + g
  {
    if xs != [] {
      Between(xs[1..], a, b);
      LeadCons(xs[1..], xs[0], b);
      assert [xs[0]] + xs[1..] == xs;
      hide Lead;
      var s, u := Sign(b, a), Lead(xs[1..], b);
      assert s * (u + Sign(b, xs[0])) == s * u + s * Sign(b, xs[0]);
    }
  }

  function CrossValue(l: int, e: int, g: int): int {
    2 * (l * g) + e * (l + g)
  }

  lemma CrossValueGrows(l: int, e: int, g: int)
    ensures CrossValue(l + 1, e, g) == CrossValue(l, e, g) + 2 * g + e
    ensures CrossValue(l, e + 1, g) == CrossValue(l, e, g) + l + g
    ensures CrossValue(l, e, g + 1) == CrossValue(l, e, g) + 2 * l + e
  {
  }

  lemma {:induction false} CrossIs(data: seq<real>, a: real)
    ensures Cross(data, data, a) == CrossValue(Tally(data, Below(a)), Tally(data, Same(a)), Tally(data, Above(a)))
  {
    hide CrossValue;
    if data == [] {
      CrossZero();
    } else {
      var b, rest := data[0], data[1..];
      assert [b] + rest == data;
      CrossIs(rest, a);
      CrossGrows(rest, b, rest, a);
      Between(rest, a, b);
      LeadCons(rest, b, b);
      assert Sign(b, b) == 0 && Lead(data, b) == Lead(rest, b);
      CrossValueGrows(Tally(rest, Below(a)), Tally(rest, Same(a)), Tally(rest, Above(a)));
    }
  }

  lemma CrossZero()
    ensures CrossValue(0, 0, 0) == 0
  {
  }

  lemma OneTieMore(same: bool, t: int, e: int, n: int)
    requires same ==> t == e
    ensures var t', n' := if same then t + 1 else t, if same then n + 1 else n;
            t' * t' - 1 + n * (2 * e + 1) == t * t - 1 + n' * (2 * e + 1)
  {
  }

  lemma {:induction false} TiesGrow(s: seq<real>, a: real, xs: seq<real>)
    ensures TieSum([a] + s, xs) == TieSum(s, xs) + Tally(xs, Same(a)) * (2 * Tally(s, Same(a)) + 1)
  {
    if xs != [] {
      assert ([a] + s)[1..] == s;
      TiesGrow(s, a, xs[1..]);
      OneTieMore(xs[0] == a, Tally(s, Same(xs[0])), Tally(s, Same(a)), Tally(xs[1..], Same(a)));
      hide Tally;
    }
  }

  lemma GrowthAgrees(l: int, e: int, g: int, n: int, squares: int, ties: int)
    requires n == l + e + g && 3 * squares + ties == n * n * n - n
    ensures var m := n + 1;
            3 * ((l - g) * (l - g) + squares + 2 * CrossValue(l, e, g) + l + g) + ((e + 1) * (e + 1) - 1 + ties + e * (2 * e + 1))
              == m * m * m - m
  {
    assert (l - g) * (l - g) + 2 * CrossValue(l, e, g) == (l + g) * (l + g) + 2 * (e * (l + g));
    var d := l + g;
    assert n == d + e;
    assert (n + 1) * (n + 1) * (n + 1) - (n + 1) == n * n * n - n + 3 * (n * n) + 3 * n;
    assert n * n == d * d + 2 * (e * d) + e * e;
    assert (e + 1) * (e + 1) - 1 + e * (2 * e + 1) == 3 * (e * e) + 3 * e;
  }

  lemma SquaresOfMore(a: real, rest: seq<real>)
    ensures var l, e, g := Tally(rest, Below(a)), Tally(rest, Same(a)), Tally(rest, Above(a));
            LeadSquares([a] + rest, [a] + rest) == (l - g) * (l - g) + LeadSquares(rest, rest) + 2 * CrossValue(l, e, g) + l + g
  {
    hide CrossValue;
    var data := [a] + rest;
    assert data[1..] == rest;
    SquaresGrow(rest, a, rest);
    CrossIs(rest, a);
    LeadCons(rest, a, a);
  }

  lemma TiesOfMore(a: real, rest: seq<real>)
    ensures var e := Tally(rest, Same(a));
            TieSum([a] + rest, [a] + rest) == (e + 1) * (e + 1) - 1 + TieSum(rest, rest) + e * (2 * e + 1)
  {
    var data := [a] + rest;
    assert data[1..] == rest;
    TiesGrow(rest, a, rest);
    assert Tally(data, Same(a)) == Tally(rest, Same(a)) + 1;
  }

  /** However the values are tied: three times the squared leads and the tie total make up n^3 - n. */
  lemma {:induction false} LeadsAndTies(data: seq<real>)
    ensures 3 * LeadSquares(data, data) + TieSum(data, data) == |data| * |data| * |data| - |data|
  {
    if data != [] {
      var a, rest := data[0], data[1..];
      assert [a] + rest == data;
      LeadsAndTies(rest);
      TallyBound(rest, a);
      SquaresOfMore(a, rest);
      TiesOfMore(a, rest);
      hide LeadSquares, TieSum, CrossValue, Tally;
      GrowthAgrees(Tally(rest, Below(a)), Tally(rest, Same(a)), Tally(rest, Above(a)), |rest|, LeadSquares(rest, rest), TieSum(rest, rest));
    }
  }

  // ---------- groups ----------

  function LeadSum(data: seq<real>, xs: seq<real>): int {
    if xs == [] then 0 else Lead(data, xs[0]) + LeadSum(data, xs[1..])
  }

  lemma Commute(a: int, b: int)
    ensures a * b == b * a
  {
  }

  /** The lead of a value is twice the distance of its rank from the mean rank. */
  lemma {:induction false} RankSumIsLead(data: seq<real>, xs: seq<real>)
    ensures RankSum2(data, xs) == LeadSum(data, xs) + |xs| * (|data| + 1)
  {
    if xs != [] {
      TallyBound(data, xs[0]);
      RankSumIsLead(data, xs[1..]);
      hide Tally;
      OneMore(|data| + 1, |xs[1..]|, |xs|);
      Commute(|xs|, |data| + 1);
      Commute(|xs[1..]|, |data| + 1);
    }
  }

  lemma CauchyGap(n: int, sum: int, squares: int, u: int)
    requires n > 0 && sum * sum <= n * squares
    ensures squares - 2 * (sum * u) + n * (u * u) >= 0
  {
    var w, d := sum - n * u, squares - 2 * (sum * u) + n * (u * u);
    SquareOfGap(n, sum, u);
    assert n * d == n * squares - 2 * (n * (sum * u)) + n * (n * (u * u));
    assert n * d >= w * w >= 0;
    if d < 0 { Negative(n, d); }
  }

  lemma Square(w: int)
    ensures w * w >= 0
  {
  }

  lemma SquareOfDifference(x: int, y: int)
    ensures (x - y) * (x - y) == x * x - 2 * (x * y) + y * y
  {
  }

  lemma SquareOfGap(n: int, sum: int, u: int)
    ensures (sum - n * u) * (sum - n * u) == sum * sum - 2 * (n * (sum * u)) + n * (n * (u * u))
    ensures (sum - n * u) * (sum - n * u) >= 0
  {
    var v := n * u;
    SquareOfDifference(sum, v);
    Square(sum - v);
    Regroup(n, u, n, u);
    Regroup(n, u, 1, sum);
  }

  lemma Regroup(a: int, b: int, c: int, d: int)
    ensures (a * b) * (c * d) == a * (c * (b * d))
  {
  }

  lemma Negative(n: int, d: int)
    requires n > 0 && d < 0
    ensures n * d < 0
  {
  }

  lemma CauchyStep(n: nat, sum: int, squares: int, u: int)
    requires sum * sum <= n * squares && squares >= 0 && (n == 0 ==> sum == 0)
    ensures (sum + u) * (sum + u) <= (n + 1) * (squares + u * u)
  {
    if n > 0 { CauchyGap(n, sum, squares, u); }
    assert (sum + u) * (sum + u) == sum * sum + 2 * (sum * u) + u * u;
    assert (n + 1) * (squares + u * u) == n * squares + n * (u * u) + squares + u * u;
  }

  lemma {:induction false} Cauchy(data: seq<real>, xs: seq<real>)
    ensures LeadSquares(data, xs) >= 0 && LeadSum(data, xs) * LeadSum(data, xs) <= |xs| * LeadSquares(data, xs)
  {
    if xs != [] {
      Cauchy(data, xs[1..]);
      CauchyStep(|xs[1..]|, LeadSum(data, xs[1..]), LeadSquares(data, xs[1..]), Lead(data, xs[0]));
    }
  }

  lemma {:induction false} LeadSquaresAppend(data: seq<real>, a: seq<real>, b: seq<real>)
    ensures LeadSquares(data, a + b) == LeadSquares(data, a) + LeadSquares(data, b)
  {
    if a == [] {
      assert a + b == b;
    } else {
      assert (a + b)[1..] == a[1..] + b;
      LeadSquaresAppend(data, a[1..], b);
    }
  }

  lemma SquareScales(m: real, d: real)
    ensures m * (d * d) * (4.0 * m) == 4.0 * ((d * m) * (d * m))
  {
    var e := d * m;
    assert m * (d * d) == e * d;
    assert e * d * (4.0 * m) == 4.0 * (e * (d * m));
  }

  lemma Deviates(r: real, m: real, k: real, t: real)
    requires m > 0.0 && r == t + m * k
    ensures ((r / 2.0) / m - k / 2.0) * m == t / 2.0
  {
    var q := (r / 2.0) / m;
    assert q * m == r / 2.0;
    assert (q - k / 2.0) * m == q * m - m * k / 2.0;
  }

  lemma RealProduct(a: int, b: int)
    ensures (a * b) as real == a as real * b as real
  {
  }

  /** The distance of a group from the mean rank, from the sum of its leads. */
  lemma DistanceIs(R: int, n: nat, N: nat, s: int)
    requires n > 0 && R == s + n * (N + 1)
    ensures Distance(R as real / 2.0, n as real, (N as real + 1.0) / 2.0) * (4.0 * n as real) == (s * s) as real
  {
    var m, t, k := n as real, s as real, N as real + 1.0;
    RealProduct(n, N + 1);
    RealProduct(s, s);
    Deviates(R as real, m, k, t);
    var d := (R as real / 2.0) / m - k / 2.0;
    SquareScales(m, d);
    assert (d * m) * (d * m) == (t / 2.0) * (t / 2.0) == t * t / 4.0;
    assert Distance(R as real / 2.0, m, k / 2.0) == m * (d * d);
  }

  lemma AtMost(x: real, n: nat, y: int, q: int)
    requires n > 0 && x * (4.0 * n as real) == y as real && y <= n * q
    ensures x * 4.0 <= q as real
  {
    var m := n as real;
    assert (n * q) as real == m * q as real;
    assert (x * 4.0) * m <= (q as real) * m;
    if x * 4.0 > q as real { Scales(q as real, x * 4.0, m); }
  }

  lemma Scales(x: real, y: real, k: real)
    requires k > 0.0 && x < y
    ensures x * k < y * k
  {
    assert (y - x) * k > 0.0;
  }

  lemma GroupAtMost(data: seq<real>, g: seq<real>)
    requires g != []
    ensures Distance(RankSum2(data, g) as real / 2.0, |g| as real, (|data| as real + 1.0) / 2.0) * 4.0 <= LeadSquares(data, g) as real
  {
    hide Distance, RankSum2, LeadSum, LeadSquares;
    RankSumIsLead(data, g);
    Cauchy(data, g);
    var s := LeadSum(data, g);
    DistanceIs(RankSum2(data, g), |g|, |data|, s);
    AtMost(Distance(RankSum2(data, g) as real / 2.0, |g| as real, (|data| as real + 1.0) / 2.0), |g|, s * s, LeadSquares(data, g));
  }

  /** The first group and the others. */
  lemma HeadDistance(data: seq<real>, groups: seq<seq<real>>, c: real)
    requires NoneEmpty(groups) && groups != []
    ensures Sum(Distances(GroupSums(data, groups), GroupSizes(groups), c)) ==
            Distance(RankSum2(data, groups[0]) as real / 2.0, |groups[0]| as real, c) +
            Sum(Distances(GroupSums(data, groups[1..]), GroupSizes(groups[1..]), c))
  {
    hide RankSum2, Distance;
    var d := Distances(GroupSums(data, groups), GroupSizes(groups), c);
    assert d[1..] == Distances(GroupSums(data, groups[1..]), GroupSizes(groups[1..]), c);
  }

  lemma {:induction false} GroupsAtMost(data: seq<real>, groups: seq<seq<real>>)
    requires NoneEmpty(groups)
    ensures var c := (|data| as real + 1.0) / 2.0;
            Sum(Distances(GroupSums(data, groups), GroupSizes(groups), c)) * 4.0 <= LeadSquares(data, Concat(groups)) as real
  {
    if groups != [] {
      hide RankSum2, Distance, Distances, LeadSquares, GroupSums, GroupSizes;
      GroupsAtMost(data, groups[1..]);
      GroupAtMost(data, groups[0]);
      LeadSquaresAppend(data, groups[0], Concat(groups[1..]));
      HeadDistance(data, groups, (|data| as real + 1.0) / 2.0);
    }
  }

  // ---------- every value on its own ----------

  function Singles(xs: seq<real>): seq<seq<real>> {
    seq(|xs|, i requires 0 <= i < |xs| => [xs[i]])
  }

  lemma {:induction false} ConcatSingles(xs: seq<real>)
    ensures Concat(Singles(xs)) == xs && NoneEmpty(Singles(xs))
  {
    if xs != [] {
      ConcatSingles(xs[1..]);
      assert Singles(xs)[1..] == Singles(xs[1..]);
    }
  }

  lemma SingleDistance(data: seq<real>, x: real)
    ensures Distance(RankSum2(data, [x]) as real / 2.0, 1.0, (|data| as real + 1.0) / 2.0) * 4.0 == (Lead(data, x) * Lead(data, x)) as real
  {
    TallyBound(data, x);
    assert RankSum2(data, [x]) == Lead(data, x) + 1 * (|data| + 1);
    DistanceIs(RankSum2(data, [x]), 1, |data|, Lead(data, x));
  }

  lemma {:induction false} SinglesExact(data: seq<real>, xs: seq<real>)
    ensures NoneEmpty(Singles(xs))
    ensures var c := (|data| as real + 1.0) / 2.0;
            Sum(Distances(GroupSums(data, Singles(xs)), GroupSizes(Singles(xs)), c)) * 4.0 == LeadSquares(data, xs) as real
  {
    if xs != [] {
      var groups := Singles(xs);
      assert groups[1..] == Singles(xs[1..]) && groups[0] == [xs[0]];
      hide RankSum2, Distance, Distances, GroupSums, GroupSizes, Singles;
      SinglesExact(data, xs[1..]);
      SingleDistance(data, xs[0]);
      HeadDistance(data, groups, (|data| as real + 1.0) / 2.0);
    }
  }

  // ---------- the greatest value of H ----------

  /** Three times the squared leads over N (N + 1) is the correction times N - 1. */
  lemma TopValue(n: nat, squares: int, ties: int, correction: real, top: real)
    requires n >= 2 && 3 * squares + ties == Cube(n) && Cube(n) > 0
    requires correction == 1.0 - ties as real / Cube(n) as real && top == ScaledSpread(squares as real / 4.0, n as real)
    ensures top == correction * (n as real - 1.0)
  {
    var N, C := n as real, Cube(n) as real;
    var k := N * (N + 1.0);
    assert k > 0.0;
    CubeIs(n);
    assert correction * C == C - ties as real == 3.0 * squares as real;
    var q := 12.0 / k;
    assert q * k == 12.0 && top == q * (squares as real / 4.0);
    assert top * k == (q * k) * (squares as real / 4.0) == 3.0 * squares as real;
    assert top * k == correction * (k * (N - 1.0)) == (correction * (N - 1.0)) * k;
    Cancel(top, correction * (N - 1.0), k);
  }

  lemma CubeIs(n: nat)
    ensures Cube(n) as real == n as real * (n as real + 1.0) * (n as real - 1.0)
  {
    assert Cube(n) == n * (n + 1) * (n - 1);
    var N := n as real;
    assert (n * (n + 1)) as real == N * (N + 1.0);
    assert (n * (n + 1) * (n - 1)) as real == (n * (n + 1)) as real * (n - 1) as real;
  }

  lemma Cancel(x: real, y: real, k: real)
    requires k > 0.0 && x * k == y * k
    ensures x == y
  {
    assert (x - y) * k == 0.0;
  }

  lemma SpreadMonotone(D: real, E: real, N: real)
    requires N > 0.0 && D <= E
    ensures ScaledSpread(D, N) <= ScaledSpread(E, N)
  {
    var k := N * (N + 1.0);
    assert k > 0.0;
    var q := 12.0 / k;
    assert q > 0.0;
    assert q * (E - D) >= 0.0;
  }

  lemma Divided(x: real, T: real, m: real)
    requires T > 0.0
    ensures x == T * m ==> x / T == m
    ensures x <= T * m ==> x / T <= m
  {
    var q := x / T;
    assert q * T == x;
    if x <= T * m && q > m { Scales(m, q, T); }
    if x == T * m { Cancel(q, m, T); }
  }

  /** The scale of H, ties or not: for n values that are not all identical H is at most n - 1, however they are grouped, and it
      is n - 1 when every value is a group of its own. */
  lemma HScale(groups: seq<seq<real>>)
    requires NoneEmpty(groups) && |Concat(groups)| >= 2 && !Identical(Concat(groups))
    ensures Correction(Concat(groups)) > 0.0
    ensures var data := Concat(groups); var n := |data|;
            && RawH(groups) / Correction(data) <= n as real - 1.0
            && Concat(Singles(data)) == data && NoneEmpty(Singles(data)) && RawH(Singles(data)) / Correction(data) == n as real - 1.0
  {
    hide Concat, Sum, Distances, RankSum2, ScaledSpread, LeadSquares, TieSum, Singles, Identical, Cube;
    var data := Concat(groups);
    var n := |data|;
    LeadsAndTies(data);
    CubeAt(n);
    CorrectionPositive(data);
    var squares := LeadSquares(data, data);
    var top := ScaledSpread(squares as real / 4.0, n as real);
    TopValue(n, squares, TieSum(data, data), Correction(data), top);
    ConcatSingles(data);
    GroupsAtMost(data, groups);
    SinglesExact(data, data);
    var c := (n as real + 1.0) / 2.0;
    SpreadMonotone(Sum(Distances(GroupSums(data, groups), GroupSizes(groups), c)), squares as real / 4.0, n as real);
    assert Sum(Distances(GroupSums(data, Singles(data)), GroupSizes(Singles(data)), c)) == squares as real / 4.0;
    Divided(RawH(groups), Correction(data), n as real - 1.0);
    Divided(RawH(Singles(data)), Correction(data), n as real - 1.0);
  }

  lemma CorrectionPositive(data: seq<real>)
    requires |data| >= 2 && !Identical(data)
    ensures Correction(data) > 0.0
  {
    hide Identical, TieSum;
    TieSumIdentical(data);
    CubeAt(|data|);
    var t, c := TieSum(data, data) as real, Cube(|data|) as real;
    assert (t / c) * c == t;
    if t / c >= 1.0 { AtLeast(t / c, c); }
  }

  lemma AtLeast(q: real, c: real)
    requires c > 0.0 && q >= 1.0
    ensures q * c >= c
  {
    assert (q - 1.0) * c >= 0.0;
  }

  lemma CubeAt(n: nat)
    ensures Cube(n) == n * n * n - n && (n >= 2 ==> Cube(n) > 0)
  {
    CubeSign(n);
  }
}
