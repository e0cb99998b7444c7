/** The binary searcher with skipped points: the window of a bisection and how a status narrows it. */
module BinarySearcher {

  const GOOD := 0
  const BAD := 1
  const SKIP := 125

  predicate IsStatus(status: int) {
    status == GOOD || status == BAD || status == SKIP
  }

  /** The state of a search: the first bad index lies in [lo, hi]. */
  datatype Window = Window(lo: nat, hi: nat, current: nat, skipped: seq<nat>)

  /** The window after a status for its current index. */
  function Record(w: Window, status: int): Window {
    if status == GOOD then w.(lo := w.current + 1, current := (w.current + 1 + w.hi) / 2)
    else if status == BAD then w.(hi := w.current, current := (w.lo + w.current) / 2)
    else if status == SKIP then w.(skipped := w.skipped + [w.current])
    else w
  }

  predicate AllSkipped(w: Window) {
    forall i | w.lo <= i < w.hi :: i in w.skipped
  }

  /** Nothing is left to test. */
  predicate Complete(w: Window) {
    w.lo == w.hi || AllSkipped(w)
  }

  // ---------- the fallback search for a point that is not skipped ----------

  /** An entry of the fallback queue: an interval and its midpoint. */
  datatype Span = Span(a: nat, m: nat, b: nat)

  predicate InSpan(s: Span, t: nat) {
    s.a <= t < s.b
  }

  function Mid(a: nat, b: nat): Span {
    Span(a, (a + b) / 2, b)
  }

  /** Spans lie in [lo, hi] with their midpoint; an empty one sits at a skipped point. */
  predicate Healthy(q: seq<Span>, lo: nat, hi: nat, skipped: seq<nat>) {
    forall s | s in q :: lo <= s.a <= s.b <= hi && s.m == (s.a + s.b) / 2 && (s.a == s.b ==> s.a in skipped)
  }

  /** The first span that holds t, or the length of the queue. */
  function Holder(q: seq<Span>, t: nat): (k: nat)
    ensures k <= |q| && (k < |q| ==> InSpan(q[k], t))
    ensures forall j | 0 <= j < k :: !InSpan(q[j], t)
  {
    if q == [] || InSpan(q[0], t) then 0 else 1 + Holder(q[1..], t)
  }

  function Split(s: Span): seq<Span> {
    [Mid(s.a, s.m), Mid(s.m, s.b)]
  }

  /** Exactly one span holds t. */
  predicate Tracked(q: seq<Span>, t: nat) {
    Holder(q, t) < |q| && forall i | Holder(q, t) < i < |q| :: !InSpan(q[i], t)
  }

  function Width(q: seq<Span>, t: nat): nat
    requires Tracked(q, t)
  {
    q[Holder(q, t)].b - q[Holder(q, t)].a
  }

  lemma HolderIs(q: seq<Span>, t: nat, k: nat)
    requires k < |q| && InSpan(q[k], t) && forall i | 0 <= i < |q| && i != k :: !InSpan(q[i], t)
    ensures Tracked(q, t) && Holder(q, t) == k
  {
  }

  /** A round of the fallback loop whose head is skipped: spans stay healthy, the target stays in exactly
      one of them, and that one gets narrower or moves towards the head of the queue. */
  lemma SplitDescends(q: seq<Span>, lo: nat, hi: nat, skipped: seq<nat>, t: nat)
    requires Healthy(q, lo, hi, skipped) && Tracked(q, t) && q[0].m in skipped && t !in skipped
    ensures var r := q[1..] + Split(q[0]);
            && Healthy(r, lo, hi, skipped) && Tracked(r, t)
            && (Width(r, t) < Width(q, t) || (Width(r, t) == Width(q, t) && Holder(r, t) < Holder(q, t)))
  {
    var r, k := q[1..] + Split(q[0]), Holder(q, t);
    assert q[0] in q;
    forall s | s in r ensures lo <= s.a <= s.b <= hi && s.m == (s.a + s.b) / 2 && (s.a == s.b ==> s.a in skipped) {
      if s in q[1..] { assert s in q; }
    }
    if k > 0 {
      HolderIs(r, t, k - 1);
    } else {
      HolderIs(r, t, if t < q[0].m then |q| - 1 else |q|);
    }
  }

  /** The index the fallback loop settles on; t is any point of the queue that is not skipped. */
  function Pick(q: seq<Span>, lo: nat, hi: nat, skipped: seq<nat>, ghost t: nat): (i: nat)
    requires Healthy(q, lo, hi, skipped) && Tracked(q, t) && t !in skipped
    ensures lo <= i < hi && i !in skipped
    decreases Width(q, t), Holder(q, t)
  {
    if q[0].m in skipped then
      SplitDescends(q, lo, hi, skipped, t);
      Pick(q[1..] + Split(q[0]), lo, hi, skipped, t)
    else
      assert q[0] in q;
      q[0].m
  }

  lemma PickHead(q: seq<Span>, lo: nat, hi: nat, skipped: seq<nat>, t: nat)
    requires Healthy(q, lo, hi, skipped) && Tracked(q, t) && t !in skipped
    ensures q != []
    ensures q[0].m !in skipped ==> Pick(q, lo, hi, skipped, t) == q[0].m
    ensures q[0].m in skipped ==>
              var r := q[1..] + Split(q[0]);
              Healthy(r, lo, hi, skipped) && Tracked(r, t) && Pick(q, lo, hi, skipped, t) == Pick(r, lo, hi, skipped, t)
  {
    if q[0].m in skipped { SplitDescends(q, lo, hi, skipped, t); }
  }

  /** The choice does not depend on the point that shows there is one. */
  lemma {:induction false} PickUnique(q: seq<Span>, lo: nat, hi: nat, skipped: seq<nat>, t: nat, u: nat)
    requires Healthy(q, lo, hi, skipped) && Tracked(q, t) && t !in skipped && Tracked(q, u) && u !in skipped
    ensures Pick(q, lo, hi, skipped, t) == Pick(q, lo, hi, skipped, u)
    decreases Width(q, t), Holder(q, t)
  {
    if q[0].m in skipped {
      SplitDescends(q, lo, hi, skipped, t);
      SplitDescends(q, lo, hi, skipped, u);
      PickUnique(q[1..] + Split(q[0]), lo, hi, skipped, t, u);
    }
  }

  /** The queue after n rounds, unless the loop has returned. */
  function Rounds(q: seq<Span>, skipped: seq<nat>, n: nat): seq<Span>
    decreases n
  {
    if n == 0 || q == [] || q[0].m !in skipped then q else Rounds(q[1..] + Split(q[0]), skipped, n - 1)
  }

  /** With every point of the interval skipped the fallback loop never returns and never runs dry. */
  lemma {:induction false} AllSkippedLoopsForever(q: seq<Span>, lo: nat, hi: nat, skipped: seq<nat>, n: nat)
    requires Healthy(q, lo, hi, skipped) && q != [] && forall i | lo <= i < hi :: i in skipped
    ensures var r := Rounds(q, skipped, n); |r| == |q| + n && r[0].m in skipped && Healthy(r, lo, hi, skipped)
    decreases n
  {
    assert q[0] in q;
    if n > 0 {
      var r := q[1..] + Split(q[0]);
      assert forall s | s in q[1..] :: s in q;
      AllSkippedLoopsForever(r, lo, hi, skipped, n - 1);
    }
  }

  // ---------- the next index ----------

  function FirstUnskipped(lo: nat, hi: nat, skipped: seq<nat>): (t: nat)
    requires exists i :: lo <= i < hi && i !in skipped
    ensures lo <= t < hi && t !in skipped
    decreases hi - lo
  {
    if lo !in skipped then lo else FirstUnskipped(lo + 1, hi, skipped)
  }

  predicate Open(w: Window) {
    w.lo < w.hi && !AllSkipped(w)
  }

  lemma SpanStart(lo: nat, hi: nat, skipped: seq<nat>, t: nat)
    requires lo <= t < hi
    ensures Healthy([Mid(lo, hi)], lo, hi, skipped) && Tracked([Mid(lo, hi)], t)
  {
    HolderIs([Mid(lo, hi)], t, 0);
  }

  /** The index that is tested next. */
  function NextIndex(w: Window): (i: nat)
    requires Open(w)
    ensures w.lo <= i < w.hi && i !in w.skipped
  {
    var m := (w.lo + w.hi) / 2;
    if m !in w.skipped then m else
    var t := FirstUnskipped(w.lo, w.hi, w.skipped);
    SpanStart(w.lo, w.hi, w.skipped, t);
    Pick([Mid(w.lo, w.hi)], w.lo, w.hi, w.skipped, t)
  }

  /** The intervals of the bisection of [lo, hi], numbered level by level and from left to right: number k is halved into
      the numbers 2k and 2k + 1. */
  function Node(lo: nat, hi: nat, k: nat): (s: Span)
    requires lo <= hi && k >= 1
    ensures s.a <= s.b && s.m == (s.a + s.b) / 2
  {
    if k == 1 then Mid(lo, hi)
    else
      var parent := Node(lo, hi, k / 2);
      if k % 2 == 0 then Mid(parent.a, parent.m) else Mid(parent.m, parent.b)
  }

  /** The queue when the first n - 1 intervals have been found skipped. */
  function Nodes(lo: nat, hi: nat, n: nat): seq<Span>
    requires lo <= hi && n >= 1
  {
    seq(n, i requires 0 <= i < n => Node(lo, hi, n + i))
  }

  lemma NodesSplit(lo: nat, hi: nat, n: nat)
    requires lo <= hi && n >= 1
    ensures Nodes(lo, hi, n)[1..] + Split(Node(lo, hi, n)) == Nodes(lo, hi, n + 1)
  {
    assert Split(Node(lo, hi, n)) == [Node(lo, hi, 2 * n), Node(lo, hi, 2 * n + 1)];
  }

  lemma {:induction false} PickInOrder(lo: nat, hi: nat, skipped: seq<nat>, t: nat, n: nat) returns (k: nat)
    requires lo <= hi && n >= 1 && Healthy(Nodes(lo, hi, n), lo, hi, skipped) && Tracked(Nodes(lo, hi, n), t) && t !in skipped
    ensures k >= n && Pick(Nodes(lo, hi, n), lo, hi, skipped, t) == Node(lo, hi, k).m && Node(lo, hi, k).m !in skipped
    ensures forall j | n <= j < k :: Node(lo, hi, j).m in skipped
    decreases Width(Nodes(lo, hi, n), t), Holder(Nodes(lo, hi, n), t)
  {
    hide Pick, Healthy, Tracked, Width, Holder, Node, Split;
    var q := Nodes(lo, hi, n);
    assert q[0] == Node(lo, hi, n);
    hide Nodes;
    PickHead(q, lo, hi, skipped, t);
    k := n;
    if q[0].m in skipped {
      SplitDescends(q, lo, hi, skipped, t);
      NodesSplit(lo, hi, n);
      k := PickInOrder(lo, hi, skipped, t, n + 1);
    }
  }

  /** Which index is tested next, whatever is skipped: the first midpoint that is not skipped when the halves of the window,
      their halves and so on are gone through level by level and from left to right. */
  lemma NextIsFirstInOrder(w: Window) returns (k: nat)
    requires Open(w)
    ensures k >= 1 && NextIndex(w) == Node(w.lo, w.hi, k).m
    ensures forall j | 1 <= j < k :: Node(w.lo, w.hi, j).m in w.skipped
  {
    k := 1;
    if (w.lo + w.hi) / 2 in w.skipped {
      var t := FirstUnskipped(w.lo, w.hi, w.skipped);
      SpanStart(w.lo, w.hi, w.skipped, t);
      assert Nodes(w.lo, w.hi, 1) == [Mid(w.lo, w.hi)];
      k := PickInOrder(w.lo, w.hi, w.skipped, t, 1);
    }
  }

  // ---------- whole searches ----------

  function Unskipped(lo: nat, hi: nat, skipped: seq<nat>): nat
    decreases hi - lo
  {
    if lo >= hi then 0 else (if lo in skipped then 0 else 1) + Unskipped(lo + 1, hi, skipped)
  }

  lemma {:induction false} UnskippedSplit(lo: nat, m: nat, hi: nat, skipped: seq<nat>)
    requires lo <= m <= hi
    ensures Unskipped(lo, hi, skipped) == Unskipped(lo, m, skipped) + Unskipped(m, hi, skipped)
    decreases m - lo
  {
    if lo < m { UnskippedSplit(lo + 1, m, hi, skipped); }
  }

  lemma {:induction false} UnskippedMore(lo: nat, hi: nat, skipped: seq<nat>, i: nat)
    ensures Unskipped(lo, hi, skipped + [i]) == Unskipped(lo, hi, skipped) - (if lo <= i < hi && i !in skipped then 1 else 0)
    decreases hi - lo
  {
    if lo < hi { UnskippedMore(lo + 1, hi, skipped, i); }
  }

  function Tested(w: Window, status: int): Window
    requires Open(w)
  {
    Record(w.(current := NextIndex(w)), status)
  }

  /** Each round, whatever its status, leaves strictly fewer points to test. */
  lemma RoundNarrows(w: Window, status: int)
    requires Open(w) && IsStatus(status)
    ensures var w' := Tested(w, status);
            Unskipped(w'.lo, w'.hi, w'.skipped) < Unskipped(w.lo, w.hi, w.skipped) && w.lo <= w'.lo <= w'.hi <= w.hi
  {
    var i := NextIndex(w);
    UnskippedSplit(w.lo, i, w.hi, w.skipped);
    UnskippedSplit(i, i + 1, w.hi, w.skipped);
    UnskippedMore(w.lo, w.hi, w.skipped, i);
  }

  /** A test that is good before the first bad index and bad from it on, wherever it gives a verdict. */
  ghost predicate Monotone(verdict: nat -> int, first: nat) {
    forall i: nat :: IsStatus(verdict(i)) && (verdict(i) == GOOD ==> i < first) && (verdict(i) == BAD ==> first <= i)
  }

  /** The window when the search ends. */
  function Search(w: Window, verdict: nat -> int): Window
    requires w.lo <= w.hi && forall i: nat :: IsStatus(verdict(i))
    decreases Unskipped(w.lo, w.hi, w.skipped)
  {
    if Complete(w) then w else
    RoundNarrows(w, verdict(NextIndex(w)));
    Search(Tested(w, verdict(NextIndex(w))), verdict)
  }

  /** Each round keeps the first bad index in the window, and a window of one point is at that point. */
  lemma RoundBracketsFirstBad(w: Window, verdict: nat -> int, first: nat)
    requires Monotone(verdict, first) && Open(w) && w.lo <= first <= w.hi
    ensures IsStatus(verdict(NextIndex(w)))
    ensures var v := Tested(w, verdict(NextIndex(w)));
            v.lo <= first <= v.hi && w.lo <= v.lo && v.hi <= w.hi && (v.lo == v.hi ==> v.current == v.lo == first)
  {
    assert IsStatus(verdict(NextIndex(w)));
    RoundNarrows(w, verdict(NextIndex(w)));
  }

  /** For every monotone test and every pattern of skips the first bad index never leaves the window, and
      the search ends either exactly there or with every point before hi skipped. */
  lemma {:induction false} SearchBracketsFirstBad(w: Window, verdict: nat -> int, first: nat)
    requires Monotone(verdict, first) && w.lo <= first <= w.hi && (w.lo == w.hi ==> w.current == w.lo)
    ensures var v := Search(w, verdict);
            && v.lo <= first <= v.hi && w.lo <= v.lo && v.hi <= w.hi
            && ((v.lo == v.hi == v.current == first) || (v.lo < v.hi && AllSkipped(v)))
    decreases Unskipped(w.lo, w.hi, w.skipped)
  {
    if !Complete(w) {
      var i := NextIndex(w);
      RoundBracketsFirstBad(w, verdict, first);
      RoundNarrows(w, verdict(i));
      SearchBracketsFirstBad(Tested(w, verdict(i)), verdict, first);
    }
  }

  // ---------- how long a search takes ----------

  function Pow2(k: nat): (p: nat)
    ensures p >= 1
  {
    if k == 0 then 1 else 2 * Pow2(k - 1)
  }

  /** The number of tests a search takes. */
  function Tests(w: Window, verdict: nat -> int): nat
    requires w.lo <= w.hi && forall i: nat :: IsStatus(verdict(i))
    decreases Unskipped(w.lo, w.hi, w.skipped)
  {
    if Complete(w) then 0 else
    RoundNarrows(w, verdict(NextIndex(w)));
    1 + Tests(Tested(w, verdict(NextIndex(w))), verdict)
  }

  /** A test that never asks to skip. */
  ghost predicate TwoWay(verdict: nat -> int) {
    forall i: nat :: verdict(i) == GOOD || verdict(i) == BAD
  }

  /** Without skips, k tests are enough for any window of width below 2^k. */
  lemma {:induction false} TestsAtMost(w: Window, verdict: nat -> int, k: nat)
    requires w.lo <= w.hi && w.skipped == [] && w.hi - w.lo < Pow2(k)
    requires TwoWay(verdict)
    ensures Tests(w, verdict) <= k
    decreases k
  {
    if !Complete(w) {
      var i := NextIndex(w);
      RoundNarrows(w, verdict(i));
      TestsAtMost(Tested(w, verdict(i)), verdict, k - 1);
    }
  }

  /** And they are needed: a search in which every test is bad takes k tests unless the width is below 2^(k-1). */
  lemma {:induction false} TestsAtLeast(w: Window, verdict: nat -> int, k: nat)
    requires w.lo <= w.hi && w.skipped == [] && Pow2(k) <= w.hi - w.lo
    requires forall i: nat :: verdict(i) == BAD
    ensures Tests(w, verdict) > k
    decreases k
  {
    assert w.lo !in w.skipped;
    var i := NextIndex(w);
    RoundNarrows(w, verdict(i));
    if k > 0 { TestsAtLeast(Tested(w, verdict(i)), verdict, k - 1); }
  }

  /** The printed estimate is exact: without skips, k tests are enough for every test of a list of n items
      if and only if n <= 2^k. */
  lemma EstimateIsExact(n: nat, k: nat)
    requires n >= 1
    ensures (forall verdict: nat -> int | TwoWay(verdict) :: Tests(Window(0, n - 1, 0, []), verdict) <= k) <==> n <= Pow2(k)
  {
    var w := Window(0, n - 1, 0, []);
    if n <= Pow2(k) {
      forall verdict: nat -> int | TwoWay(verdict) ensures Tests(w, verdict) <= k { TestsAtMost(w, verdict, k); }
    } else {
      var allBad: nat -> int := _ => BAD;
      TestsAtLeast(w, allBad, k);
      assert TwoWay(allBad);
    }
  }

  class BinarySearcher {
    var sortedList: seq<string>
    var indexLog: seq<nat>
    var statusLog: seq<int>
    var skippedIndices: seq<nat>
    var current: nat
    var lo: nat
    var hi: nat

    function View(): Window
      reads this
    {
      Window(lo, hi, current, skippedIndices)
    }

    constructor ()
      ensures sortedList == [] && indexLog == [] && statusLog == [] && View() == Window(0, 0, 0, [])
    {
      sortedList, indexLog, statusLog, skippedIndices, current, lo, hi := [], [], [], [], 0, 0, 0;
    }

    method SetSortedList(list: seq<string>)
      requires |list| > 0
      modifies this
      ensures sortedList == list && indexLog == [] && statusLog == old(statusLog)
      ensures View() == Window(0, |list| - 1, old(current), old(skippedIndices))
    {
      sortedList, indexLog := list, [];
      hi, lo := |list| - 1, 0;
    }

    /** Narrow the window by a status; true exactly when nothing is left to test. */
    method SetStatus(status: int) returns (terminated: bool)
      requires IsStatus(status)
      modifies this
      ensures View() == Record(old(View()), status) && terminated == Complete(View())
      ensures sortedList == old(sortedList)
      ensures indexLog == old(indexLog) + [old(current)] && statusLog == old(statusLog) + [status]
    {
      indexLog, statusLog := indexLog + [current], statusLog + [status];
      if status == SKIP {
        skippedIndices := skippedIndices + [current];
      }
      if status == GOOD || status == BAD {
        if status == GOOD {
          lo := current + 1;
        } else {
          hi := current;
        }
        current := (lo + hi) / 2;
      }
      if lo == hi {
        return true;
      }
      var index := lo;
      while index < hi
        invariant lo <= index && forall i | lo <= i < index && i < hi :: i in skippedIndices
      {
        if index !in skippedIndices {
          return false;
        }
        index := index + 1;
      }
      return true;
    }

    /** Breadth-first over halves; it ends because some point is not skipped. */
    method GetNextFlakyBinary()
      requires Open(View()) && current == (lo + hi) / 2
      modifies this`current
      ensures lo <= current < hi && current !in skippedIndices
      ensures forall t | old(lo) <= t < old(hi) && t !in skippedIndices ::
                Healthy([Mid(lo, hi)], lo, hi, skippedIndices) && Tracked([Mid(lo, hi)], t) &&
                current == Pick([Mid(lo, hi)], lo, hi, skippedIndices, t)
    {
      hide Pick, Healthy, Tracked, Width, Holder, FirstUnskipped;
      ghost var t := FirstUnskipped(lo, hi, skippedIndices);
      SpanStart(lo, hi, skippedIndices, t);
      ghost var start := [Mid(lo, hi)];
      ghost var goal := Pick(start, lo, hi, skippedIndices, t);
      var q := [Span(lo, current, hi)];
      var found := false;
      while !found
        invariant !found ==> Healthy(q, lo, hi, skippedIndices) && Tracked(q, t) && Pick(q, lo, hi, skippedIndices, t) == goal
        invariant found ==> current == goal
        decreases !found, if found then 0 else Width(q, t), if found then 0 else Holder(q, t)
      {
        PickHead(q, lo, hi, skippedIndices, t);
        var element := q[0];
        if element.m in skippedIndices {
          SplitDescends(q, lo, hi, skippedIndices, t);
          q := q[1..] + [Span(element.a, (element.a + element.m) / 2, element.m), Span(element.m, (element.m + element.b) / 2, element.b)];
        } else {
          current := element.m;
          found := true;
        }
      }
      forall u | lo <= u < hi && u !in skippedIndices
        ensures Healthy(start, lo, hi, skippedIndices) && Tracked(start, u) && current == Pick(start, lo, hi, skippedIndices, u)
      {
        SpanStart(lo, hi, skippedIndices, u);
        PickUnique(start, lo, hi, skippedIndices, t, u);
      }
    }

    /** Choose the next index to test, which lies in the window and is not skipped. */
    method GetNext() returns (item: string)
      requires Open(View()) && hi < |sortedList|
      modifies this`current
      ensures View() == old(View()).(current := NextIndex(old(View())))
      ensures item == sortedList[current]
    {
      current := (hi + lo) / 2;
      if current in skippedIndices {
        GetNextFlakyBinary();
      }
      item := sortedList[current];
    }
  }
}
