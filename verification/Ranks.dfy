/** Ranks with ties averaged, and what they mean in terms of counts. */
module Ranks {
  import opened ShellSort
  import opened Sets

  // ---------- counting ----------

  /** How many of the values pass the test g. */
  function Tally(s: seq<real>, g: real -> bool): nat {
    if s == [] then 0 else (if g(s[0]) then 1 else 0) + Tally(s[1..], g)
  }

  function Below(x: real): real -> bool {
    y => y < x
  }

  function Above(x: real): real -> bool {
    y => y > x
  }

  function Same(x: real): real -> bool {
    y => y == x
  }

  lemma {:induction false} TallyAppend(a: seq<real>, b: seq<real>, g: real -> bool)
    ensures Tally(a + b, g) == Tally(a, g) + Tally(b, g)
  {
    if a == [] {
      assert a + b == b;
    } else {
      assert (a + b)[1..] == a[1..] + b;
      TallyAppend(a[1..], b, g);
    }
  }

  lemma {:induction false} TallyUniform(s: seq<real>, g: real -> bool, all: bool)
    requires forall i | 0 <= i < |s| :: g(s[i]) == all
    ensures Tally(s, g) == if all then |s| else 0
  {
    if s != [] { TallyUniform(s[1..], g, all); }
  }

  lemma {:induction false} TallyBound(s: seq<real>, x: real)
    ensures Tally(s, Same(x)) <= |s|
    ensures Tally(s, Same(x)) == |s| <==> forall i | 0 <= i < |s| :: s[i] == x
    ensures x in s ==> Tally(s, Same(x)) >= 1
    ensures Tally(s, Below(x)) + Tally(s, Same(x)) + Tally(s, Above(x)) == |s|
  {
    if s != [] {
      TallyBound(s[1..], x);
      assert (forall i | 0 <= i < |s| :: s[i] == x) <==> s[0] == x && forall i | 0 <= i < |s[1..]| :: s[1..][i] == x by {
        assert forall i | 0 <= i < |s[1..]| :: s[1..][i] == s[i + 1];
        assert forall i | 1 <= i < |s| :: s[i] == s[1..][i - 1];
      }
    }
  }

  lemma {:induction false} TallyPermutes(s: seq<real>, t: seq<real>, g: real -> bool)
    requires multiset(s) == multiset(t)
    ensures Tally(s, g) == Tally(t, g)
  {
    if s == [] {
      assert |multiset(t)| == 0;
    } else {
      assert s[0] in multiset(t);
      var i :| 0 <= i < |t| && t[i] == s[0];
      WithoutOne(s, t, i);
      TallyPermutes(s[1..], t[..i] + t[i + 1..], g);
      TallyWithout(t, i, g);
    }
  }

  lemma WithoutOne(s: seq<real>, t: seq<real>, i: nat)
    requires multiset(s) == multiset(t) && s != [] && i < |t| && t[i] == s[0]
    ensures multiset(s[1..]) == multiset(t[..i] + t[i + 1..])
  {
    assert t == t[..i] + ([t[i]] + t[i + 1..]) && s == [s[0]] + s[1..];
    assert multiset(s[1..]) == multiset(s) - multiset{s[0]};
  }

  lemma TallyWithout(t: seq<real>, i: nat, g: real -> bool)
    requires i < |t|
    ensures Tally(t, g) == Tally(t[..i] + t[i + 1..], g) + (if g(t[i]) then 1 else 0)
  {
    hide Tally;
    assert t == t[..i] + ([t[i]] + t[i + 1..]);
    TallyAppend(t[..i], [t[i]] + t[i + 1..], g);
    TallyAppend(t[..i], t[i + 1..], g);
    TallyCons(t[i], t[i + 1..], g);
  }

  lemma TallyCons(x: real, s: seq<real>, g: real -> bool)
    ensures Tally([x] + s, g) == (if g(x) then 1 else 0) + Tally(s, g)
  {
    assert ([x] + s)[1..] == s;
  }

  /** Twice the rank of x among the data: 2 (number below) + (number equal) + 1. */
  function Rank2(data: seq<real>, x: real): nat {
    2 * Tally(data, Below(x)) + Tally(data, Same(x)) + 1
  }

  /** The rank of x: the number of values below it plus half of one more than the number equal to it. */
  function Rank(data: seq<real>, x: real): real {
    Rank2(data, x) as real / 2.0
  }

  // ---------- runs of equal values ----------

  /** A maximal run of equal values in a sorted vector. */
  ghost predicate IsRun(s: seq<real>, a: nat, b: nat) {
    && Sorted(s) && a < b <= |s| && (forall k | a <= k < b :: s[k] == s[a])
    && (a > 0 ==> s[a - 1] < s[a]) && (b < |s| ==> s[a] < s[b])
  }

  lemma RunTally(s: seq<real>, a: nat, b: nat)
    requires IsRun(s, a, b)
    ensures Tally(s, Below(s[a])) == a && Tally(s, Same(s[a])) == b - a
  {
    var x := s[a];
    assert forall k | 0 <= k < a :: s[k] <= s[a - 1] < x;
    assert forall k | b <= k < |s| :: x < s[b] <= s[k];
    RunPiece(s, a, b, Below(x), true, false, false);
    RunPiece(s, a, b, Same(x), false, true, false);
  }

  lemma RunPiece(s: seq<real>, a: nat, b: nat, g: real -> bool, l: bool, m: bool, r: bool)
    requires a <= b <= |s|
    requires forall k | 0 <= k < a :: g(s[k]) == l
    requires forall k | a <= k < b :: g(s[k]) == m
    requires forall k | b <= k < |s| :: g(s[k]) == r
    ensures Tally(s, g) == (if l then a else 0) + (if m then b - a else 0) + (if r then |s| - b else 0)
  {
    hide Tally;
    assert s == s[..a] + (s[a..b] + s[b..]);
    TallyAppend(s[..a], s[a..b] + s[b..], g);
    TallyAppend(s[a..b], s[b..], g);
    TallyUniform(s[..a], g, l);
    TallyUniform(s[a..b], g, m);
    TallyUniform(s[b..], g, r);
  }

  // ---------- the index vector is onto ----------

  function UpTo(n: nat): (r: set<nat>)
    ensures |r| == n && forall k: nat :: k in r <==> k < n
  {
    if n == 0 then {} else UpTo(n - 1) + {n - 1}
  }

  function Image(v: seq<nat>): set<nat> {
    set x | x in v
  }

  lemma {:induction false} ImageSize(v: seq<nat>)
    requires Injective(v)
    ensures |Image(v)| == |v|
  {
    if v != [] {
      assert Image(v) == Image(v[1..]) + {v[0]};
      assert v[0] !in v[1..];
      ImageSize(v[1..]);
    }
  }

  lemma InjectiveIsOnto(v: seq<nat>, k: nat)
    requires Injective(v) && (forall i | 0 <= i < |v| :: v[i] < |v|) && k < |v|
    ensures k in v
  {
    ImageSize(v);
    var others := UpTo(|v|) - {k};
    assert |others| == |v| - 1;
    if k !in v { SubsetSize(Image(v), others); }
  }

  // ---------- ranking ----------

  /** The average of the positions a, a+1, ..., a+d-1, counted from one, given their sum counted from zero. */
  lemma AverageRank(sum: nat, a: nat, d: nat)
    requires d > 0 && 2 * sum == d * (2 * a + d - 1)
    ensures sum as real / d as real + 1.0 == (2 * a + d + 1) as real / 2.0
  {
    var D, S := d as real, sum as real;
    assert 2.0 * S == (d * (2 * a + d - 1)) as real == D * (2 * a + d - 1) as real;
    assert S / D == (2 * a + d - 1) as real / 2.0;
  }

  method AssignRun(newList: array<real>, v: seq<nat>, a: nat, b: nat, rank: real)
    requires a <= b <= |v| == newList.Length && Injective(v) && forall k | 0 <= k < |v| :: v[k] < |v|
    modifies newList
    ensures forall k | a <= k < b :: newList[v[k]] == rank
    ensures forall k | 0 <= k < |v| && !(a <= k < b) :: newList[v[k]] == old(newList[v[k]])
  {
    var j := a;
    while j < b
      invariant a <= j <= b
      invariant forall k | a <= k < j :: newList[v[k]] == rank
      invariant forall k | 0 <= k < |v| && !(a <= k < j) :: newList[v[k]] == old(newList[v[k]])
    {
      newList[v[j]] := rank;
      j := j + 1;
    }
  }

  /** The run under way: d equal values before position i, starting where the values change, with the sum of their positions. */
  ghost predicate UnderWay(s: seq<real>, i: nat, d: nat, sum: nat) {
    && d <= i <= |s| && 2 * sum == d * (2 * (i - d) + d - 1)
    && (d > 0 ==> i < |s|) && (forall k | i - d <= k < i :: s[k] == s[i])
    && (0 < i - d < |s| ==> s[i - d - 1] < s[i - d])
  }

  lemma RunGrows(s: seq<real>, i: nat, d: nat, sum: nat)
    requires Sorted(s) && UnderWay(s, i, d, sum) && i < |s|
    ensures 2 * (sum + i) == (d + 1) * (2 * (i - d) + d)
    ensures if i == |s| - 1 || s[i] != s[i + 1] then IsRun(s, i - d, i + 1) && UnderWay(s, i + 1, 0, 0)
            else UnderWay(s, i + 1, d + 1, sum + i)
  {
    SumStep(sum, i - d, d);
  }

  ghost predicate RankedUpTo(data: seq<real>, s: seq<real>, v: seq<nat>, ranks: seq<real>, m: nat)
    requires Indexed(data, s, v) && |ranks| == |data|
  {
    m <= |s| && forall k | 0 <= k < m :: ranks[v[k]] == Rank(data, s[k])
  }

  lemma RankedAll(data: seq<real>, s: seq<real>, v: seq<nat>, ranks: seq<real>)
    requires Indexed(data, s, v) && |ranks| == |data| && RankedUpTo(data, s, v, ranks, |s|)
    ensures forall k | 0 <= k < |data| :: ranks[k] == Rank(data, data[k])
  {
    forall k | 0 <= k < |data| ensures ranks[k] == Rank(data, data[k]) {
      InjectiveIsOnto(v, k);
      var j :| 0 <= j < |v| && v[j] == k;
    }
  }

  /** A run is closed: all its values get the average of its positions. */
  method CloseRun(newList: array<real>, ghost data: seq<real>, ghost s: seq<real>, v: seq<nat>, i: nat, sum: nat, d: nat)
    requires Indexed(data, s, v) && newList.Length == |data| && 0 < d <= i + 1 <= |s|
    requires IsRun(s, i + 1 - d, i + 1) && 2 * sum == d * (2 * (i + 1 - d) + d - 1)
    requires RankedUpTo(data, s, v, newList[..], i + 1 - d)
    modifies newList
    ensures RankedUpTo(data, s, v, newList[..], i + 1)
  {
    var average := sum as real / d as real + 1.0;
    AverageRank(sum, i + 1 - d, d);
    RunRank(data, s, i + 1 - d, i + 1);
    AssignRun(newList, v, i - d + 1, i + 1, average);
  }

  /** Every value gets the rank its counts give. */
  method RankData(data: seq<real>) returns (ranks: seq<real>)
    ensures |ranks| == |data| && forall k | 0 <= k < |data| :: ranks[k] == Rank(data, data[k])
  {
    hide Rank, IsRun;
    var n := |data|;
    var s, v := ShellSort.ShellSort(data);
    var sumRanks, dupCount := 0, 0;
    var newList := new real[n](_ => 0.0);
    var i := 0;
    while i < n
      invariant i <= n && UnderWay(s, i, dupCount, sumRanks) && RankedUpTo(data, s, v, newList[..], i - dupCount)
    {
      RunGrows(s, i, dupCount, sumRanks);
      sumRanks := sumRanks + i;
      dupCount := dupCount + 1;
      if i == n - 1 || s[i] != s[i + 1] {
        CloseRun(newList, data, s, v, i, sumRanks, dupCount);
        sumRanks := 0;
        dupCount := 0;
      }
      i := i + 1;
    }
    ranks := newList[..];
    RankedAll(data, s, v, ranks);
  }

  lemma SumStep(sum: nat, a: nat, d: nat)
    requires 2 * sum == d * (2 * a + d - 1)
    ensures 2 * (sum + a + d) == (d + 1) * (2 * a + d)
  {
  }

  lemma RunRank(data: seq<real>, s: seq<real>, a: nat, b: nat)
    requires multiset(s) == multiset(data) && IsRun(s, a, b)
    ensures forall k | a <= k < b :: Rank(data, s[k]) == (2 * a + (b - a) + 1) as real / 2.0
  {
    RunTally(s, a, b);
    TallyPermutes(s, data, Below(s[a]));
    TallyPermutes(s, data, Same(s[a]));
  }
}
