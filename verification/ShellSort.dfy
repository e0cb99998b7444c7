/** The sort of the statistics package: Shell's method, carrying along the vector of original positions. */
module ShellSort {

  predicate Sorted(s: seq<real>) {
    forall a, b | 0 <= a < b < |s| :: s[a] <= s[b]
  }

  predicate Injective(v: seq<nat>) {
    forall a, b | 0 <= a < b < |v| :: v[a] != v[b]
  }

  /** The sorted vector holds the data, and the index vector says where each value came from. */
  ghost predicate Indexed(data: seq<real>, s: seq<real>, v: seq<nat>) {
    && |s| == |v| == |data| && Injective(v) && multiset(s) == multiset(data)
    && forall k | 0 <= k < |s| :: v[k] < |data| && s[k] == data[v[k]]
  }

  method Swap(svec: array<real>, ivec: array<nat>, j: nat, k: nat, ghost data: seq<real>)
    requires svec.Length == ivec.Length && j < k < svec.Length && Indexed(data, svec[..], ivec[..])
    modifies svec, ivec
    ensures Indexed(data, svec[..], ivec[..])
    ensures svec[..] == old(svec[..])[j := old(svec[k])][k := old(svec[j])]
  {
    ghost var s := svec[..];
    svec[j], svec[k] := svec[k], svec[j];
    ivec[j], ivec[k] := ivec[k], ivec[j];
    assert svec[..] == s[j := s[k]][k := s[j]];
    SwapMultiset(s, j, k);
  }

  lemma SwapMultiset(s: seq<real>, j: nat, k: nat)
    requires j < k < |s|
    ensures multiset(s[j := s[k]][k := s[j]]) == multiset(s)
  {
  }

  /** Sorted up to i, except that the value at m may be too small for what stands before it. */
  predicate SortedBut(s: seq<real>, i: nat, m: int) {
    i < |s| && forall a, b | 0 <= a < b <= i && b != m :: s[a] <= s[b]
  }

  /** The inner loops for one i: let its value move down in steps of the gap. */
  method Sift(svec: array<real>, ivec: array<nat>, i: nat, gap: nat, ghost data: seq<real>)
    requires svec.Length == ivec.Length && 0 < gap <= i < svec.Length && Indexed(data, svec[..], ivec[..])
    modifies svec, ivec
    ensures Indexed(data, svec[..], ivec[..])
    ensures gap == 1 && Sorted(old(svec[..i])) ==> Sorted(svec[..i + 1])
  {
    var j: int := i - gap;
    ghost var insertion := gap == 1 && Sorted(svec[..i]);
    while j >= 0
      invariant 0 <= j + gap <= i && Indexed(data, svec[..], ivec[..])
      invariant insertion ==> SortedBut(svec[..], i, j + 1)
    {
      while j >= 0 && svec[j] > svec[j + gap]
        invariant Indexed(data, svec[..], ivec[..])
        invariant insertion ==> SortedBut(svec[..], i, j + 1) || (svec[j] <= svec[j + 1] && SortedBut(svec[..], i, j))
        decreases if svec[j] > svec[j + gap] then 1 else 0
      {
        ghost var s := svec[..];
        Swap(svec, ivec, j, j + gap, data);
        if insertion { SwapInserts(s, i, j); }
      }
      j := j - gap;
    }
  }

  lemma SwapInserts(s: seq<real>, i: nat, j: nat)
    requires j < i && SortedBut(s, i, j + 1) && s[j] > s[j + 1]
    ensures SortedBut(s[j := s[j + 1]][j + 1 := s[j]], i, j)
  {
  }

  /** One pass over the data with a fixed gap; the pass with gap one sorts. */
  method Pass(svec: array<real>, ivec: array<nat>, gap: nat, ghost data: seq<real>)
    requires svec.Length == ivec.Length && 0 < gap <= svec.Length && Indexed(data, svec[..], ivec[..])
    modifies svec, ivec
    ensures Indexed(data, svec[..], ivec[..])
    ensures gap == 1 ==> Sorted(svec[..])
  {
    var i := gap;
    while i < svec.Length
      invariant gap <= i <= svec.Length && Indexed(data, svec[..], ivec[..])
      invariant gap == 1 ==> Sorted(svec[..i])
    {
      Sift(svec, ivec, i, gap, data);
      i := i + 1;
    }
    assert svec[..svec.Length] == svec[..];
  }

  method Copy(data: seq<real>) returns (svec: array<real>, ivec: array<nat>)
    ensures fresh(svec) && fresh(ivec) && svec.Length == ivec.Length == |data|
    ensures Indexed(data, svec[..], ivec[..])
  {
    svec := new real[|data|](i requires 0 <= i < |data| => data[i]);
    ivec := new nat[|data|](i => i);
    assert svec[..] == data;
  }

  method ShellSort(data: seq<real>) returns (s: seq<real>, v: seq<nat>)
    ensures Indexed(data, s, v) && Sorted(s)
  {
    var svec, ivec := Copy(data);
    var gap := |data| / 2;
    while gap > 0
      invariant 0 <= gap <= |data| && Indexed(data, svec[..], ivec[..])
      invariant gap == 0 ==> Sorted(svec[..])
    {
      Pass(svec, ivec, gap, data);
      gap := gap / 2;
    }
    return svec[..], ivec[..];
  }
}
