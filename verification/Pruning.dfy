/** Finding all culprits: the prune loop against a test that is bad exactly when some culprit is bad. */
module Pruning {
  import opened Tasks
  import opened BinarySearcher
  import opened Bisection
  import opened BinarySearchState

  ghost predicate Blames(cfg: Config, culprits: set<string>) {
    forall bad :: Verdict(cfg, bad) == if bad !! culprits then GOOD else BAD
  }

  // ---------- one search ----------

  /** The first culprit before the last item, or the last index; the last item is never tested. */
  function FirstCulprit(items: seq<string>, culprits: set<string>): (i: nat)
    requires items != []
    ensures i < |items| && (i < |items| - 1 ==> items[i] in culprits)
    ensures forall j | 0 <= j < i :: items[j] !in culprits
  {
    if |items| == 1 || items[0] in culprits then 0 else 1 + FirstCulprit(items[1..], culprits)
  }

  /** The test as a function of the border index. */
  function AtIndex(items: seq<string>, culprits: set<string>): nat -> int
    requires items != []
  {
    var first := FirstCulprit(items, culprits);
    (i: nat) => if i < first then GOOD else BAD
  }

  lemma AtIndexIsVerdict(cfg: Config, items: seq<string>, culprits: set<string>, i: nat)
    requires Blames(cfg, culprits) && i < |items| - 1
    ensures Verdict(cfg, SetOf(items[..i + 1])) == AtIndex(items, culprits)(i)
  {
    var first, bad := FirstCulprit(items, culprits), SetOf(items[..i + 1]);
    if i < first {
      assert bad !! culprits;
    } else {
      assert items[first] in items[..i + 1];
      assert items[first] in bad * culprits;
    }
  }

  /** With iterations enough, the loop of the tool is the search of the searcher. */
  lemma {:induction false} LoopIsSearch(cfg: Config, p: Progress, culprits: set<string>)
    requires Blames(cfg, culprits) && WellFormed(p)
    requires p.searchCycles + Tests(p.window, AtIndex(p.items, culprits)) <= cfg.iterations
    ensures SearchLoop(cfg, p).window == Search(p.window, AtIndex(p.items, culprits))
    decreases Unskipped(p.window.lo, p.window.hi, p.window.skipped)
  {
    if !Complete(p.window) {
      var i := NextIndex(p.window);
      AtIndexIsVerdict(cfg, p.items, culprits, i);
      TestStepOk(cfg, p);
      LoopIsSearch(cfg, TestStep(cfg, p), culprits);
    }
  }

  /** One search of a fresh list ends at its first culprit. */
  lemma SearchFindsFirstCulprit(cfg: Config, p: Progress, culprits: set<string>)
    requires Blames(cfg, culprits) && p.items != [] && p.window == NewWindow(|p.items|) && p.searchCycles == 0
    requires cfg.iterations >= 0 && |p.items| <= Pow2(cfg.iterations)
    ensures var q := SearchLoop(cfg, p);
            Complete(q.window) && q.window.current == FirstCulprit(p.items, culprits)
  {
    var v, first := AtIndex(p.items, culprits), FirstCulprit(p.items, culprits);
    TestsAtMost(p.window, v, cfg.iterations);
    LoopIsSearch(cfg, p, culprits);
    NeverSkips(p.window, v);
    SearchBracketsFirstBad(p.window, v, first);
  }

  lemma {:induction false} NeverSkips(w: Window, verdict: nat -> int)
    requires w.lo <= w.hi && w.skipped == [] && TwoWay(verdict)
    ensures Search(w, verdict).skipped == [] && Search(w, verdict).lo == Search(w, verdict).hi
    decreases Unskipped(w.lo, w.hi, w.skipped)
  {
    assert w.lo !in w.skipped;
    if !Complete(w) {
      var i := NextIndex(w);
      RoundNarrows(w, verdict(i));
      NeverSkips(Tested(w, verdict(i)), verdict);
    }
  }

  // ---------- all searches ----------

  /** The found items are culprits and stand at the end of the list. */
  ghost predicate FoundLast(p: Progress, culprits: set<string>) {
    p.found <= culprits && |p.found| <= |p.items| && p.found == SetOf(p.items[|p.items| - |p.found|..])
  }

  /** Found items are culprits at the end of the list, nothing known good is a culprit, and the list and
      the known good items together are the original items. */
  ghost predicate PruneInv(p: Progress, culprits: set<string>, universe: set<string>) {
    && p.items != [] && p.window == NewWindow(|p.items|) && FoundLast(p, culprits)
    && ItemsOk(p.items, p.knownGood, universe) && p.knownGood !! culprits && culprits <= universe
  }

  function Remaining(p: Progress, culprits: set<string>): (r: nat)
    requires p.items != []
    ensures r >= 1
  {
    if culprits == {p.items[|p.items| - 1]} then 1 else |culprits - p.found| + 1
  }

  /** No culprit lies outside the list from the first culprit on. */
  lemma CulpritsFromFirst(p: Progress, culprits: set<string>, universe: set<string>)
    requires PruneInv(p, culprits, universe)
    ensures culprits <= SetOf(p.items[FirstCulprit(p.items, culprits)..])
  {
    var first := FirstCulprit(p.items, culprits);
    forall x | x in culprits ensures x in SetOf(p.items[first..]) {
      assert x in SetOf(p.items);
      var j :| 0 <= j < |p.items| && p.items[j] == x;
      assert p.items[first..][j - first] == x;
    }
  }

  /** If the first culprit is last, it is the only one; if it has been found before, all have. */
  lemma FirstCulpritTells(p: Progress, culprits: set<string>, universe: set<string>)
    requires PruneInv(p, culprits, universe) && culprits != {}
    ensures var i := FirstCulprit(p.items, culprits);
            && (i == |p.items| - 1 ==> culprits == {p.items[i]})
            && (i < |p.items| - 1 && p.items[i] in p.found ==> culprits == p.found)
            && (i < |p.items| - 1 ==> culprits != {p.items[|p.items| - 1]})
  {
    hide FirstCulprit, ItemsOk, NewWindow;
    var n, i := |p.items|, FirstCulprit(p.items, culprits);
    CulpritsFromFirst(p, culprits, universe);
    FirstIsCulprit(p, culprits, universe);
    if i == n - 1 {
      assert p.items[i..] == [p.items[i]];
    } else {
      assert p.items[i] != p.items[n - 1];
      if p.items[i] in p.found { FoundToTheEnd(p, culprits, i); }
    }
  }

  lemma FirstIsCulprit(p: Progress, culprits: set<string>, universe: set<string>)
    requires PruneInv(p, culprits, universe) && culprits != {}
    ensures var i := FirstCulprit(p.items, culprits); i < |p.items| && p.items[i] in culprits
    ensures Distinct(p.items)
  {
    var x :| x in culprits;
    assert x in SetOf(p.items);
  }

  /** A found item has only found items behind it. */
  lemma FoundToTheEnd(p: Progress, culprits: set<string>, i: nat)
    requires FoundLast(p, culprits) && Distinct(p.items) && i < |p.items| && p.items[i] in p.found
    requires culprits <= SetOf(p.items[i..])
    ensures culprits == p.found
  {
    var n := |p.items|;
    var k := n - |p.found|;
    assert p.items[i] in p.items[k..];
    var j :| k <= j < n && p.items[j] == p.items[i];
    assert i == j;
    forall x | x in culprits ensures x in p.found {
      assert x in p.items[i..];
      var l :| i <= l < n && p.items[l] == x;
      assert x in p.items[k..];
    }
  }

  /** Found items stay a suffix when another one is moved behind them. */
  lemma SuffixGrows(items: seq<string>, found: set<string>, i: nat)
    requires |found| <= |items| && found == SetOf(items[|items| - |found|..]) && i < |items| && items[i] !in found
    ensures var rest, more := items[i + 1..] + [items[i]], found + {items[i]};
            |more| == |found| + 1 && |more| <= |rest| && more == SetOf(rest[|rest| - |more|..])
  {
    var k := |items| - |found|;
    var rest := items[i + 1..] + [items[i]];
    assert rest[|rest| - |found| - 1..] == items[k..] + [items[i]];
    assert SetOf(items[k..] + [items[i]]) == found + {items[i]};
  }

  function Pruned(p: Progress, i: nat): Progress
    requires i < |p.items|
  {
    p.(items := p.items[i + 1..] + [p.items[i]], found := p.found + {p.items[i]},
       knownGood := p.knownGood + SetOf(p.items[..i]), window := NewWindow(|p.items| - i))
  }

  lemma PrunedFoundLast(p: Progress, culprits: set<string>, i: nat)
    requires FoundLast(p, culprits) && i < |p.items| && p.items[i] in culprits && p.items[i] !in p.found
    ensures FoundLast(Pruned(p, i), culprits) && |Pruned(p, i).found| == |p.found| + 1
  {
    SuffixGrows(p.items, p.found, i);
  }

  lemma PrunedKnownGood(p: Progress, culprits: set<string>)
    requires p.items != [] && p.knownGood !! culprits
    ensures Pruned(p, FirstCulprit(p.items, culprits)).knownGood !! culprits
  {
  }

  /** A new culprit is moved to the end, and what stood before it is known good. */
  lemma PruneStepInv(p: Progress, culprits: set<string>, universe: set<string>)
    requires PruneInv(p, culprits, universe)
    requires var i := FirstCulprit(p.items, culprits); i < |p.items| - 1 && p.items[i] !in p.found
    ensures PruneInv(Pruned(p, FirstCulprit(p.items, culprits)), culprits, universe)
  {
    var i := FirstCulprit(p.items, culprits);
    PruneKeepsItems(p.items, p.knownGood, universe, i);
    PrunedFoundLast(p, culprits, i);
    PrunedKnownGood(p, culprits);
  }

  lemma RemainingDrops(p: Progress, culprits: set<string>, i: nat)
    requires i < |p.items| - 1 && p.items[i] in culprits && p.items[i] !in p.found && p.found <= culprits
    requires culprits != {p.items[|p.items| - 1]}
    ensures Remaining(Pruned(p, i), culprits) == Remaining(p, culprits) - 1
    ensures |culprits - Pruned(p, i).found| == |culprits - p.found| - 1
  {
    var q := Pruned(p, i);
    assert culprits - q.found == (culprits - p.found) - {p.items[i]};
    if culprits == {p.items[i]} { assert culprits - q.found == {}; }
  }

  /** One prune cycle: a search and what is done with its outcome. */
  ghost function Cycle(cfg: Config, p: Progress): Turn
    requires WellFormed(p) && Legal(cfg)
  {
    AfterSearch(cfg, SearchLoop(cfg, p.(searchCycles := 0)))
  }

  /** One more culprit is found and one cycle fewer remains. */
  ghost predicate OneMore(p: Progress, q: Progress, culprits: set<string>)
    requires p.items != []
  {
    && 1 < |q.items| <= |p.items| && q.report == p.report && p.found <= q.found && |q.found| == |p.found| + 1
    && Remaining(q, culprits) == Remaining(p, culprits) - 1 && Remaining(p, culprits) > 1
  }

  /** The last cycle reports the culprits; any other finds a new one. */
  ghost predicate CycleTells(p: Progress, t: Turn, culprits: set<string>, universe: set<string>)
    requires p.items != []
  {
    var q := t.progress;
    && q.pruneCycles == p.pruneCycles + 1
    && if t.goesOn then
         PruneInv(q, culprits, universe) && OneMore(p, q, culprits)
       else
         && q.report == Some(culprits) && q.found == p.found && q.knownGood == p.knownGood
         && Remaining(p, culprits) == 1 && (q.found == culprits || q.found == {})
  }

  /** The state in which a search that found index i leaves its progress. */
  ghost predicate FoundAt(p: Progress, s: Progress, i: nat) {
    WellFormed(s) && s == p.(window := s.window, searchCycles := s.searchCycles) && Complete(s.window) && s.window.current == i
  }

  /** The first culprit is the last item, or has been found before. */
  lemma LastCycle(cfg: Config, p: Progress, s: Progress, culprits: set<string>, universe: set<string>, i: nat)
    requires FoundAt(p, s, i) && p.found <= culprits && i < |p.items|
    requires if i == |p.items| - 1 then culprits == {p.items[i]} else p.items[i] in p.found && culprits == p.found
    ensures CycleTells(p, AfterSearch(cfg, s), culprits, universe)
  {
    if i == |p.items| - 1 {
      LoneCulprit(p, culprits);
    } else {
      assert culprits - p.found == {};
    }
  }

  lemma PrunedOneMore(p: Progress, culprits: set<string>, i: nat)
    requires FoundLast(p, culprits) && i < |p.items| - 1 && p.items[i] in culprits && p.items[i] !in p.found
    requires culprits != {p.items[|p.items| - 1]}
    ensures OneMore(p, Pruned(p, i), culprits)
  {
    PrunedFoundLast(p, culprits, i);
    RemainingDrops(p, culprits, i);
  }

  lemma StillOneMore(p: Progress, q: Progress, r: Progress, culprits: set<string>)
    requires p.items != [] && OneMore(p, q, culprits) && r == q.(searchCycles := r.searchCycles, pruneCycles := r.pruneCycles)
    ensures OneMore(p, r, culprits)
  {
  }

  /** Every cycle of the prune loop either finds one more culprit or is the last and reports them all. */
  lemma CycleOutcome(cfg: Config, p: Progress, culprits: set<string>, universe: set<string>)
    requires Blames(cfg, culprits) && cfg.prune && culprits != {}
    requires PruneInv(p, culprits, universe) && |p.items| > 1
    requires cfg.iterations >= 0 && |p.items| <= Pow2(cfg.iterations)
    ensures CycleTells(p, Cycle(cfg, p), culprits, universe)
  {
    hide AfterSearch, OneMore, FirstCulprit, Pow2;
    var i, s := FirstCulprit(p.items, culprits), SearchLoop(cfg, p.(searchCycles := 0));
    SearchFindsFirstCulprit(cfg, p.(searchCycles := 0), culprits);
    FirstCulpritTells(p, culprits, universe);
    if i == |p.items| - 1 || p.items[i] in p.found {
      LastCycle(cfg, p, s, culprits, universe, i);
    } else {
      PruneStepInv(p, culprits, universe);
      PrunedOneMore(p, culprits, i);
      GoesOn(cfg, p, s, i);
      var q := AfterSearch(cfg, s).progress;
      CyclesDoNotMatter(Pruned(p, i), q, culprits, universe);
      StillOneMore(p, Pruned(p, i), q, culprits);
    }
  }

  lemma LoneCulprit(p: Progress, culprits: set<string>)
    requires p.items != [] && p.found <= culprits && culprits == {p.items[|p.items| - 1]}
    ensures p.found == culprits || p.found == {}
  {
    if p.found != {} {
      var x :| x in p.found;
      assert x in culprits;
    }
  }

  lemma GoesOn(cfg: Config, p: Progress, s: Progress, i: nat)
    requires FoundAt(p, s, i) && i < |p.items| - 1 && p.items[i] !in p.found && cfg.prune
    ensures var t := AfterSearch(cfg, s);
            t.goesOn && t.progress == Pruned(p, i).(searchCycles := s.searchCycles, pruneCycles := p.pruneCycles + 1)
  {
  }

  lemma CyclesDoNotMatter(p: Progress, q: Progress, culprits: set<string>, universe: set<string>)
    requires PruneInv(p, culprits, universe) && q == p.(searchCycles := q.searchCycles, pruneCycles := q.pruneCycles)
    ensures PruneInv(q, culprits, universe)
  {
  }

  /** What SearchAll amounts to, with left prune cycles to go. */
  ghost predicate Outcome(p: Progress, q: Progress, culprits: set<string>, left: nat)
    requires p.items != []
  {
    && p.found <= q.found
    && if Remaining(p, culprits) <= left then
         q.report == Some(culprits) && q.pruneCycles == p.pruneCycles + Remaining(p, culprits) && (q.found == culprits || q.found == {})
       else
         q.report == p.report && q.pruneCycles == p.pruneCycles + left && |q.found| == |p.found| + left && q.found <= culprits
  }

  /** From any top of the prune loop: with prune cycles enough, the culprits are reported after exactly
      the remaining number of cycles; with fewer, each cycle has found one more culprit and none is reported. */
  lemma {:induction false} PruneFindsAll(cfg: Config, p: Progress, culprits: set<string>, universe: set<string>, left: nat)
    requires Blames(cfg, culprits) && cfg.prune && culprits != {}
    requires PruneInv(p, culprits, universe) && |p.items| > 1 && left == cfg.pruneIterations - p.pruneCycles
    requires cfg.iterations >= 0 && |p.items| <= Pow2(cfg.iterations)
    ensures Outcome(p, SearchAll(cfg, p), culprits, left)
    decreases left
  {
    hide ItemsOk, Pow2, Remaining, AfterSearch, SetOf;
    if left > 0 {
      CycleOutcome(cfg, p, culprits, universe);
      var t := Cycle(cfg, p);
      if t.goesOn { PruneFindsAll(cfg, t.progress, culprits, universe, left - 1); }
    }
  }

  // ---------- whatever the limits ----------

  /** How far a search can be: the first culprit is in the window, and nothing is skipped. */
  ghost predicate OnTheWay(p: Progress, culprits: set<string>) {
    && WellFormed(p) && p.window.skipped == []
    && p.window.lo <= FirstCulprit(p.items, culprits) <= p.window.hi
    && (p.window.lo == p.window.hi ==> p.window.current == p.window.lo)
  }

  lemma {:induction false} StaysOnTheWay(cfg: Config, p: Progress, culprits: set<string>)
    requires Blames(cfg, culprits) && OnTheWay(p, culprits)
    ensures OnTheWay(SearchLoop(cfg, p), culprits)
    decreases Unskipped(p.window.lo, p.window.hi, p.window.skipped)
  {
    if Searching(cfg, p) {
      var v := AtIndex(p.items, culprits);
      AtIndexIsVerdict(cfg, p.items, culprits, NextIndex(p.window));
      RoundBracketsFirstBad(p.window, v, FirstCulprit(p.items, culprits));
      TestStepOk(cfg, p);
      StaysOnTheWay(cfg, TestStep(cfg, p), culprits);
    }
  }

  /** However few iterations it has, a search that completes has found the first culprit. */
  lemma CompleteIsFirstCulprit(cfg: Config, p: Progress, culprits: set<string>)
    requires Blames(cfg, culprits) && OnTheWay(p, culprits)
    ensures var q := SearchLoop(cfg, p); Complete(q.window) ==> q.window.current == FirstCulprit(p.items, culprits)
  {
    StaysOnTheWay(cfg, p, culprits);
    var w := SearchLoop(cfg, p).window;
    assert w.lo !in w.skipped;
  }

  /** A search makes as many tests as it needs, if the limit allows that many; otherwise it makes as many as the
      limit allows, and is not complete. */
  lemma {:induction false} RunsOutIff(cfg: Config, p: Progress, culprits: set<string>)
    requires Blames(cfg, culprits) && WellFormed(p)
    ensures var q, need := SearchLoop(cfg, p), Tests(p.window, AtIndex(p.items, culprits));
            && (Complete(q.window) <==> need == 0 || p.searchCycles + need <= cfg.iterations)
            && q.searchCycles == if Complete(q.window) then p.searchCycles + need
                                 else if p.searchCycles <= cfg.iterations then cfg.iterations else p.searchCycles
    decreases Unskipped(p.window.lo, p.window.hi, p.window.skipped)
  {
    if Searching(cfg, p) {
      AtIndexIsVerdict(cfg, p.items, culprits, NextIndex(p.window));
      TestStepOk(cfg, p);
      RunsOutIff(cfg, TestStep(cfg, p), culprits);
    }
  }

  /** For every test: a run whose search is not complete when it ends stops there, and has learnt nothing from it. */
  lemma OutOfIterationsStops(cfg: Config, p: Progress)
    requires WellFormed(p) && Legal(cfg) && p.pruneCycles < cfg.pruneIterations && !Complete(SearchLoop(cfg, p).window)
    ensures var q := FromInside(cfg, p);
            && q.items == p.items && q.found == p.found && q.knownGood == p.knownGood && q.report == p.report
            && q.pruneCycles == p.pruneCycles + 1 && q.searchCycles >= cfg.iterations && !Complete(q.window)
    ensures |p.items| > 1 && p.searchCycles == 0 ==> SearchAll(cfg, p) == FromInside(cfg, p)
  {
  }

  lemma {:induction false} OnlyCulpritsFound(cfg: Config, p: Progress, culprits: set<string>)
    requires Blames(cfg, culprits) && p.items != [] && p.window == NewWindow(|p.items|)
    requires p.found <= culprits && p.knownGood !! culprits
    ensures SearchAll(cfg, p).found <= culprits && SearchAll(cfg, p).knownGood !! culprits
    decreases cfg.pruneIterations - p.pruneCycles
  {
    if Pruning(cfg, p) {
      CompleteIsFirstCulprit(cfg, p.(searchCycles := 0), culprits);
      var t := Cycle(cfg, p);
      if t.goesOn { OnlyCulpritsFound(cfg, t.progress, culprits); }
    }
  }

  /** Whatever the limits on iterations and prune cycles, with pruning or without: every item found is a
      culprit, and no item taken to be good is one. */
  lemma NoInnocentBlamed(cfg: Config, items: seq<string>, culprits: set<string>)
    requires Blames(cfg, culprits) && items != []
    ensures var q := SearchAll(cfg, Begin(items)); q.found <= culprits && q.knownGood !! culprits
  {
    OnlyCulpritsFound(cfg, Begin(items), culprits);
  }

  /** One cycle under any limits: no list is printed but that of the culprits, or the last item where there is none. */
  lemma CycleReports(cfg: Config, p: Progress, culprits: set<string>, universe: set<string>)
    requires Blames(cfg, culprits) && PruneInv(p, culprits, universe) && |p.items| > 1
    ensures var t := Cycle(cfg, p);
            && (t.goesOn ==> PruneInv(t.progress, culprits, universe) && t.progress.report == p.report)
            && (t.progress.report == p.report
                || t.progress.report == Some(if culprits == {} then {p.items[|p.items| - 1]} else culprits))
            && (culprits == {} ==> !t.goesOn)
  {
    hide FirstCulprit, ItemsOk, FoundLast, AfterSearch;
    var s, i := SearchLoop(cfg, p.(searchCycles := 0)), FirstCulprit(p.items, culprits);
    CompleteIsFirstCulprit(cfg, p.(searchCycles := 0), culprits);
    if Complete(s.window) && i < |p.items| - 1 && p.items[i] !in p.found && cfg.prune {
      GoesOn(cfg, p, s, i);
      PruneStepInv(p, culprits, universe);
      CyclesDoNotMatter(Pruned(p, i), AfterSearch(cfg, s).progress, culprits, universe);
    } else {
      if Complete(s.window) && culprits != {} { FirstCulpritTells(p, culprits, universe); }
      StopsWith(cfg, p, s, i);
    }
  }

  /** When a cycle is the last, and what it prints. */
  lemma StopsWith(cfg: Config, p: Progress, s: Progress, i: nat)
    requires WellFormed(s) && s == p.(window := s.window, searchCycles := s.searchCycles) && i < |p.items|
    requires Complete(s.window) ==> s.window.current == i
    requires !(Complete(s.window) && i < |p.items| - 1 && p.items[i] !in p.found && cfg.prune)
    ensures var t := AfterSearch(cfg, s);
            !t.goesOn && t.progress.report == if !Complete(s.window) then p.report
                                              else if i == |p.items| - 1 then Some({p.items[i]})
                                              else if p.items[i] in p.found then Some(p.found) else p.report
  {
  }

  lemma {:induction false} ReportFrom(cfg: Config, p: Progress, culprits: set<string>, universe: set<string>)
    requires Blames(cfg, culprits) && PruneInv(p, culprits, universe) && p.report.None?
    ensures var r := SearchAll(cfg, p).report;
            r == None || r == Some(if culprits == {} then {p.items[|p.items| - 1]} else culprits)
    decreases cfg.pruneIterations - p.pruneCycles
  {
    hide ItemsOk, FoundLast, AfterSearch;
    if Pruning(cfg, p) {
      CycleReports(cfg, p, culprits, universe);
      var t := Cycle(cfg, p);
      if t.goesOn { ReportFrom(cfg, t.progress, culprits, universe); }
    }
  }

  /** Whatever the limits, with pruning or without, a run that reports anything reports exactly the culprits, as long
      as there is one; without a culprit it can only report the last item. */
  lemma ReportsNothingElse(cfg: Config, items: seq<string>, culprits: set<string>)
    requires Blames(cfg, culprits) && items != [] && Distinct(items) && culprits <= SetOf(items)
    ensures var r := SearchAll(cfg, Begin(items)).report;
            r == None || r == Some(if culprits == {} then {items[|items| - 1]} else culprits)
  {
    BeginInv(items, culprits);
    ReportFrom(cfg, Begin(items), culprits, SetOf(items));
  }

  // ---------- the run from its start ----------

  lemma BeginInv(items: seq<string>, culprits: set<string>)
    requires items != [] && Distinct(items) && culprits <= SetOf(items)
    ensures PruneInv(Begin(items), culprits, SetOf(items))
  {
    assert SetOf(items) + {} == SetOf(items);
  }

  /** The number of prune cycles a run needs: one if the last item is the only culprit, else one more
      than the number of culprits. */
  function Needed(items: seq<string>, culprits: set<string>): nat
    requires items != []
  {
    if culprits == {items[|items| - 1]} then 1 else |culprits| + 1
  }

  /** With pruning on and iterations enough, a search of at least two items for at least one culprit
      reports exactly the culprits, after exactly the needed number of prune cycles, if it has that many;
      otherwise it stops with one culprit found for each cycle it had and reports nothing. */
  lemma SearchReportsCulprits(cfg: Config, items: seq<string>, culprits: set<string>)
    requires Blames(cfg, culprits) && cfg.prune
    requires |items| > 1 && Distinct(items) && culprits <= SetOf(items) && culprits != {}
    requires cfg.iterations >= 0 && |items| <= Pow2(cfg.iterations) && cfg.pruneIterations >= 0
    ensures var q := SearchAll(cfg, Begin(items));
            if Needed(items, culprits) <= cfg.pruneIterations then
              q.report == Some(culprits) && q.pruneCycles == Needed(items, culprits) && (q.found == culprits || q.found == {})
            else
              q.report == None && q.pruneCycles == cfg.pruneIterations == |q.found| && q.found <= culprits
  {
    BeginInv(items, culprits);
    assert culprits - {} == culprits;
    PruneFindsAll(cfg, Begin(items), culprits, SetOf(items), cfg.pruneIterations);
  }

  /** Without pruning there is one search: it leaves the first culprit before the last item as the one found, with the
      items before it known good, and prints no list; if there is none, it blames the last item and finds nothing. */
  lemma OneSearchFindsFirst(cfg: Config, items: seq<string>, culprits: set<string>)
    requires Blames(cfg, culprits) && !cfg.prune && |items| > 1
    requires cfg.iterations >= 0 && |items| <= Pow2(cfg.iterations) && cfg.pruneIterations >= 1
    ensures var q, i := SearchAll(cfg, Begin(items)), FirstCulprit(items, culprits);
            && q.pruneCycles == 1 && q.items == items
            && if i < |items| - 1 then q.found == {items[i]} && q.knownGood == SetOf(items[..i]) && q.report.None?
               else q.found == {} && q.knownGood == {} && q.report == Some({items[i]})
  {
    hide FirstCulprit, Pow2;
    SearchFindsFirstCulprit(cfg, Begin(items), culprits);
  }

  /** With no culprit at all the last item is blamed: it is never tested, the tool takes it to be bad. */
  lemma NoCulpritBlamesLast(cfg: Config, items: seq<string>)
    requires Blames(cfg, {}) && |items| > 1
    requires cfg.iterations >= 0 && |items| <= Pow2(cfg.iterations) && cfg.pruneIterations >= 1
    ensures SearchAll(cfg, Begin(items)).report == Some({items[|items| - 1]})
  {
    SearchFindsFirstCulprit(cfg, Begin(items), {});
    assert FirstCulprit(items, {}) == |items| - 1;
  }

  /** When the report is right: for every list and every set of culprits among its items, given cycles and
      iterations enough, the reported items are the culprits if and only if there are at least two
      items and at least one culprit; a single item is never reported. */
  lemma ReportIsRightIff(cfg: Config, items: seq<string>, culprits: set<string>)
    requires Blames(cfg, culprits) && cfg.prune
    requires items != [] && Distinct(items) && culprits <= SetOf(items)
    requires cfg.iterations >= 0 && |items| <= Pow2(cfg.iterations) && cfg.pruneIterations >= |culprits| + 1
    ensures SearchAll(cfg, Begin(items)).report == Some(culprits) <==> |items| > 1 && culprits != {}
  {
    if |items| > 1 {
      if culprits == {} { NoCulpritBlamesLast(cfg, items); } else { SearchReportsCulprits(cfg, items, culprits); }
    }
  }
}
