/** The rank tests: Mann-Whitney U, the tie correction and Kruskal-Wallis H, in exact arithmetic. */
module RankTests {
  import opened ShellSort
  import opened Ranks
  import opened RankSpread

  datatype Failure = DivisionByZero | AllIdentical
  datatype Result<T> = Success(value: T) | Fails(failure: Failure)

  // ---------- pairs ----------

  /** Pairs (u, x) with u from a, x from b, and u below, equal to or above x. */
  function PairsBelow(a: seq<real>, b: seq<real>): nat {
    if b == [] then 0 else Tally(a, Below(b[0])) + PairsBelow(a, b[1..])
  }

  function PairsSame(a: seq<real>, b: seq<real>): nat {
    if b == [] then 0 else Tally(a, Same(b[0])) + PairsSame(a, b[1..])
  }

  function PairsAbove(a: seq<real>, b: seq<real>): nat {
    if b == [] then 0 else Tally(a, Above(b[0])) + PairsAbove(a, b[1..])
  }

  lemma {:induction false} PairsTotal(a: seq<real>, b: seq<real>)
    ensures PairsBelow(a, b) + PairsSame(a, b) + PairsAbove(a, b) == |a| * |b|
  {
    hide Tally;
    if b != [] {
      TallyBound(a, b[0]);
      PairsTotal(a, b[1..]);
      OneMore(|a|, |b[1..]|, |b|);
    }
  }

  lemma OneMore(n: nat, k: nat, m: nat)
    requires m == k + 1
    ensures n * m == n * k + n
  {
  }

  lemma {:induction false} PairsBelowCons(u: real, a: seq<real>, b: seq<real>)
    ensures PairsBelow([u] + a, b) == PairsBelow(a, b) + Tally(b, Above(u))
  {
    if b != [] {
      PairsBelowCons(u, a, b[1..]);
      assert ([u] + a)[1..] == a;
    }
  }

  /** Looked at from the other side, below is above. */
  lemma {:induction false} PairsFlip(a: seq<real>, b: seq<real>)
    ensures PairsBelow(a, b) == PairsAbove(b, a)
  {
    if a == [] {
      NoPairs(b);
    } else {
      PairsBelowCons(a[0], a[1..], b);
      assert [a[0]] + a[1..] == a;
      PairsFlip(a[1..], b);
    }
  }

  lemma {:induction false} NoPairs(b: seq<real>)
    ensures PairsBelow([], b) == 0
  {
    if b != [] { NoPairs(b[1..]); }
  }

  // ---------- sums of ranks ----------

  /** Twice the sum of the ranks, among the data, of the values in xs. */
  function RankSum2(data: seq<real>, xs: seq<real>): nat {
    if xs == [] then 0 else Rank2(data, xs[0]) + RankSum2(data, xs[1..])
  }

  lemma {:induction false} RankSumPairs(data: seq<real>, xs: seq<real>)
    ensures RankSum2(data, xs) == 2 * PairsBelow(data, xs) + PairsSame(data, xs) + |xs|
  {
    if xs != [] { RankSumPairs(data, xs[1..]); }
  }

  /** The ranks of n values sum to n (n + 1) / 2, however many are tied. */
  lemma RankSumTotal(data: seq<real>)
    ensures RankSum2(data, data) == |data| * (|data| + 1)
  {
    RankSumPairs(data, data);
    PairsTotal(data, data);
    PairsFlip(data, data);
    assert |data| * (|data| + 1) == |data| * |data| + |data|;
  }

  lemma {:induction false} RankSumAppend(x: seq<real>, y: seq<real>, xs: seq<real>)
    ensures RankSum2(x + y, xs) == RankSum2(x, xs) + 2 * PairsBelow(y, xs) + PairsSame(y, xs)
  {
    if xs != [] {
      TallyAppend(x, y, Below(xs[0]));
      TallyAppend(x, y, Same(xs[0]));
      RankSumAppend(x, y, xs[1..]);
    }
  }

  lemma {:induction false} SumOfRanks(data: seq<real>, xs: seq<real>, ranks: seq<real>)
    requires |ranks| == |xs| && forall k | 0 <= k < |xs| :: ranks[k] == Rank(data, xs[k])
    ensures Sum(ranks) == RankSum2(data, xs) as real / 2.0
  {
    if xs != [] { SumOfRanks(data, xs[1..], ranks[1..]); }
  }

  // ---------- Mann-Whitney ----------

  /** Twice U for x by its meaning: pairs with x below y count twice, ties once. */
  function PairCount2(x: seq<real>, y: seq<real>): nat {
    2 * PairsAbove(y, x) + PairsSame(y, x)
  }

  /** The rank formula for U equals the pair count. */
  lemma RankFormulaIsPairCount(x: seq<real>, y: seq<real>)
    ensures 2 * (|x| * |y|) + |x| * (|x| + 1) - RankSum2(x + y, x) == PairCount2(x, y)
  {
    RankSumAppend(x, y, x);
    RankSumTotal(x);
    PairsTotal(y, x);
  }

  // ---------- the tie correction ----------

  /** The sum, over the values of xs, of (number of equals in s) squared less one; over all of s this is the
      sum of t^3 - t over its groups of t tied values. */
  function TieSum(s: seq<real>, xs: seq<real>): int {
    if xs == [] then 0 else Tally(s, Same(xs[0])) * Tally(s, Same(xs[0])) - 1 + TieSum(s, xs[1..])
  }

  lemma {:induction false} TieSumAppend(s: seq<real>, a: seq<real>, b: seq<real>)
    ensures TieSum(s, a + b) == TieSum(s, a) + TieSum(s, b)
  {
    if a == [] {
      assert a + b == b;
    } else {
      assert (a + b)[1..] == a[1..] + b;
      TieSumAppend(s, a[1..], b);
    }
  }

  lemma {:induction false} TieSumUniform(s: seq<real>, xs: seq<real>, t: nat)
    requires forall k | 0 <= k < |xs| :: Tally(s, Same(xs[k])) == t
    ensures TieSum(s, xs) == |xs| * (t * t - 1)
  {
    if xs != [] {
      TieSumUniform(s, xs[1..], t);
      assert |xs| * (t * t - 1) == (|xs| - 1) * (t * t - 1) + (t * t - 1);
    }
  }

  lemma {:induction false} TieSumSame(s: seq<real>, t: seq<real>, xs: seq<real>)
    requires multiset(s) == multiset(t)
    ensures TieSum(s, xs) == TieSum(t, xs)
  {
    if xs != [] {
      TallyPermutes(s, t, Same(xs[0]));
      TieSumSame(s, t, xs[1..]);
    }
  }

  /** Where the first of xs stands in a permutation of xs. */
  lemma FirstIn(xs: seq<real>, ys: seq<real>) returns (i: nat)
    requires multiset(xs) == multiset(ys) && xs != []
    ensures i < |ys| && ys[i] == xs[0] && multiset(xs[1..]) == multiset(ys[..i] + ys[i + 1..])
  {
    assert xs == [xs[0]] + xs[1..];
    assert xs[0] in multiset(ys);
    i :| 0 <= i < |ys| && ys[i] == xs[0];
    MultisetRemove(ys, i);
    assert multiset(xs[1..]) == multiset(xs) - multiset{xs[0]};
  }

  lemma MultisetRemove(ys: seq<real>, i: nat)
    requires i < |ys|
    ensures multiset(ys[..i] + ys[i + 1..]) == multiset(ys) - multiset{ys[i]}
  {
    assert ys == ys[..i] + ([ys[i]] + ys[i + 1..]);
  }

  lemma TieSumRemove(s: seq<real>, ys: seq<real>, i: nat)
    requires i < |ys|
    ensures TieSum(s, ys) == TieSum(s, [ys[i]]) + TieSum(s, ys[..i] + ys[i + 1..])
  {
    assert ys == ys[..i] + ([ys[i]] + ys[i + 1..]);
    TieSumAppend(s, ys[..i], [ys[i]] + ys[i + 1..]);
    TieSumAppend(s, [ys[i]], ys[i + 1..]);
    TieSumAppend(s, ys[..i], ys[i + 1..]);
  }

  lemma {:induction false} TieSumPermutes(s: seq<real>, xs: seq<real>, ys: seq<real>)
    requires multiset(xs) == multiset(ys)
    ensures TieSum(s, xs) == TieSum(s, ys)
  {
    if xs == [] {
      assert |multiset(ys)| == 0;
    } else {
      var i := FirstIn(xs, ys);
      TieSumRemove(s, ys, i);
      TieSumRemove(s, xs, 0);
      assert xs[..0] + xs[1..] == xs[1..];
      TieSumPermutes(s, xs[1..], ys[..i] + ys[i + 1..]);
    }
  }

  predicate Identical(s: seq<real>) {
    forall i, j | 0 <= i < j < |s| :: s[i] == s[j]
  }

  lemma {:induction false} TieSumBounds(s: seq<real>, xs: seq<real>)
    requires forall k | 0 <= k < |xs| :: xs[k] in s
    ensures 0 <= TieSum(s, xs) <= |xs| * (|s| * |s| - 1)
    ensures TieSum(s, xs) == |xs| * (|s| * |s| - 1) <==> forall k | 0 <= k < |xs| :: Tally(s, Same(xs[k])) == |s|
  {
    if xs != [] {
      var t, n := Tally(s, Same(xs[0])), |s|;
      TallyBound(s, xs[0]);
      SquareMonotone(t, n);
      TieSumBounds(s, xs[1..]);
      assert |xs| * (n * n - 1) == (|xs| - 1) * (n * n - 1) + (n * n - 1);
      assert (forall k | 0 <= k < |xs| :: Tally(s, Same(xs[k])) == n) <==>
             t == n && forall k | 0 <= k < |xs[1..]| :: Tally(s, Same(xs[1..][k])) == n by {
        assert forall k | 1 <= k < |xs| :: xs[k] == xs[1..][k - 1];
      }
    }
  }

  lemma SquareMonotone(t: nat, n: nat)
    requires 1 <= t <= n
    ensures 1 <= t * t <= n * n && (t * t == n * n <==> t == n)
  {
    if t < n {
      assert t * t <= t * n <= n * n;
      assert t * n < n * n;
    }
  }

  /** Among at least two values the tie sum is largest exactly when all are identical. */
  lemma TieSumIdentical(s: seq<real>)
    ensures 0 <= TieSum(s, s) <= |s| * (|s| * |s| - 1)
    ensures TieSum(s, s) == |s| * (|s| * |s| - 1) <==> Identical(s)
  {
    TieSumBounds(s, s);
    if Identical(s) {
      forall k | 0 <= k < |s| ensures Tally(s, Same(s[k])) == |s| { TallyBound(s, s[k]); }
    } else {
      var i, j :| 0 <= i < j < |s| && s[i] != s[j];
      TallyBound(s, s[i]);
      assert Tally(s, Same(s[i])) != |s|;
    }
  }

  /** A run of t tied values contributes t^3 - t. */
  lemma RunTieSum(s: seq<real>, a: nat, b: nat)
    requires IsRun(s, a, b)
    ensures TieSum(s, s[..b]) == TieSum(s, s[..a]) + Cube(b - a)
  {
    hide TieSum, Tally, Cube;
    RunTally(s, a, b);
    TieSumRun(s, s[a..b]);
    assert s[..b] == s[..a] + s[a..b];
    TieSumAppend(s, s[..a], s[a..b]);
  }

  lemma TieSumRun(s: seq<real>, xs: seq<real>)
    requires forall k | 0 <= k < |xs| :: Tally(s, Same(xs[k])) == |xs|
    ensures TieSum(s, xs) == Cube(|xs|)
  {
    TieSumUniform(s, xs, |xs|);
    CubeSign(|xs|);
  }

  /** A position where a new run starts, or the end. */
  ghost predicate RunStarts(s: seq<real>, i: nat) {
    Sorted(s) && i <= |s| && (0 < i < |s| ==> s[i - 1] < s[i])
  }

  /** The inner loop: walk to the last value equal to the one at i. */
  method CountTies(s: seq<real>, i: nat) returns (j: nat, nties: nat)
    requires RunStarts(s, i) && i < |s|
    ensures i <= j < |s| && nties == j + 1 - i && IsRun(s, i, j + 1) && RunStarts(s, j + 1)
  {
    j, nties := i, 1;
    while j < |s| - 1 && s[j] == s[j + 1]
      invariant i <= j < |s| && nties == j - i + 1 && forall k | i <= k <= j :: s[k] == s[i]
    {
      nties := nties + 1;
      j := j + 1;
    }
  }

  /** The loop over the runs of the sorted values. */
  method TieTotal(s: seq<real>) returns (T: int)
    requires Sorted(s)
    ensures T == TieSum(s, s)
  {
    var n, i := |s|, 0;
    T := 0;
    while i < n - 1
      invariant RunStarts(s, i) && T == TieSum(s, s[..i])
    {
      if s[i] == s[i + 1] {
        var j, nties := CountTies(s, i);
        RunTieSum(s, i, j + 1);
        T := T + Cube(nties);
        i := j;
      } else {
        RunTieSum(s, i, i + 1);
      }
      i := i + 1;
    }
    if i == n - 1 { RunTieSum(s, i, n); }
    assert s[..n] == s;
  }

  lemma CubeSign(n: nat)
    ensures n * n * n - n == n * (n * n - 1) && (n >= 2 ==> n * n * n - n > 0) && (n < 2 ==> n * n * n - n == 0)
  {
    if n >= 2 {
      assert n * n >= 4;
      assert n * (n * n - 1) >= 2 * 3;
    }
  }

  lemma RatioBounds(T: int, d: int)
    requires d > 0 && 0 <= T <= d
    ensures var q := T as real / d as real; 0.0 <= q <= 1.0 && (q == 1.0 <==> T == d)
  {
    var q := T as real / d as real;
    assert q * d as real == T as real;
  }

  /** The tie correction: one minus the tie sum over its largest possible value.  Fewer than two values make it
      divide by zero; otherwise it lies between zero and one and is zero exactly when all values are identical. */
  method TieCorrect(values: seq<real>) returns (r: Result<real>)
    ensures |values| < 2 ==> r == Fails(DivisionByZero)
    ensures |values| >= 2 ==>
              && Cube(|values|) > 0 && r == Success(1.0 - TieSum(values, values) as real / Cube(|values|) as real)
              && 0.0 <= r.value <= 1.0 && (r.value == 0.0 <==> Identical(values))
  {
    var s, _ := ShellSort.ShellSort(values);
    var T := TieTotal(s);
    CubeSign(|values|);
    var divisor := Cube(|s|);
    if divisor == 0 {
      return Fails(DivisionByZero);
    }
    TieSumSame(s, values, s);
    TieSumPermutes(values, s, values);
    TieSumIdentical(values);
    RatioBounds(T, divisor);
    r := Success(1.0 - T as real / divisor as real);
  }

  function Cube(n: nat): int {
    n * n * n - n
  }
}
