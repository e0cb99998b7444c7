/** What the two search algorithms have in common: each generation is the untried flag sets one step from a
    centre, and the cheapest of an improving generation is the next centre. */
module Searches {
  import opened Tasks
  import opened Sets
  import opened FlagSpace

  /** The first generation, what it is compared with if anything, the flag sets one step from a centre, and the
      centres after which the algorithm stops of its own accord. */
  datatype Algorithm = Algorithm(seeds: set<FlagSet>, parent: Option<FlagSet>, next: FlagSet -> set<FlagSet>, quits: FlagSet -> bool)

  /** A parent is measured with the first generation, and there is nothing to try where the algorithm quits. */
  ghost predicate Proper(a: Algorithm) {
    (a.parent.Some? ==> a.parent.value in a.seeds) && forall f | a.quits(f) :: a.next(f) == {}
  }

  /** All that has been measured, or is about to be, when the given centres have been chosen. */
  function Evaluated(a: Algorithm, trail: seq<FlagSet>): set<FlagSet> {
    if trail == [] then a.seeds else Evaluated(a, trail[..|trail| - 1]) + a.next(trail[|trail| - 1])
  }

  /** The generation under way. */
  function Pool(a: Algorithm, trail: seq<FlagSet>): set<FlagSet> {
    if trail == [] then a.seeds else a.next(trail[|trail| - 1]) - Evaluated(a, trail[..|trail| - 1])
  }

  /** What it is compared with. */
  function Centre(a: Algorithm, trail: seq<FlagSet>): Option<FlagSet> {
    if trail == [] then a.parent else Some(trail[|trail| - 1])
  }

  ghost predicate Cheapest(cost: FlagSet -> real, f: FlagSet, among: set<FlagSet>) {
    forall g | g in among :: cost(f) <= cost(g)
  }

  /** The generation improves, and f is chosen from it. */
  ghost predicate Chooses(a: Algorithm, cost: FlagSet -> real, trail: seq<FlagSet>, f: FlagSet) {
    && f in Pool(a, trail) && Cheapest(cost, f, Pool(a, trail))
    && (Centre(a, trail).Some? ==> cost(f) < cost(Centre(a, trail).value))
  }

  ghost predicate IsTrail(a: Algorithm, cost: FlagSet -> real, trail: seq<FlagSet>) {
    trail != [] ==>
      IsTrail(a, cost, trail[..|trail| - 1]) && Chooses(a, cost, trail[..|trail| - 1], trail[|trail| - 1])
  }

  /** The run is over: its last generation is empty or does not improve. */
  ghost predicate Settles(a: Algorithm, cost: FlagSet -> real, trail: seq<FlagSet>) {
    IsTrail(a, cost, trail) && forall f :: !Chooses(a, cost, trail, f)
  }

  /** The last centre has given rise to an empty generation, which Steering asserts not to happen. */
  predicate Trips(a: Algorithm, trail: seq<FlagSet>) {
    trail != [] && !a.quits(trail[|trail| - 1]) && Pool(a, trail) == {}
  }

  lemma PoolIsEvaluated(a: Algorithm, trail: seq<FlagSet>)
    ensures Pool(a, trail) <= Evaluated(a, trail)
    ensures trail != [] ==> Evaluated(a, trail) == Evaluated(a, trail[..|trail| - 1]) + Pool(a, trail)
    ensures trail != [] ==> Evaluated(a, trail[..|trail| - 1]) !! Pool(a, trail)
  {
  }

  lemma Extend(a: Algorithm, cost: FlagSet -> real, trail: seq<FlagSet>, f: FlagSet)
    ensures Evaluated(a, trail + [f]) == Evaluated(a, trail) + a.next(f)
    ensures Pool(a, trail + [f]) == a.next(f) - Evaluated(a, trail)
    ensures Centre(a, trail + [f]) == Some(f)
    ensures IsTrail(a, cost, trail + [f]) <==> IsTrail(a, cost, trail) && Chooses(a, cost, trail, f)
  {
    assert (trail + [f])[..|trail|] == trail;
  }

  lemma {:induction false} Minimum(cost: FlagSet -> real, among: set<FlagSet>) returns (f: FlagSet)
    requires among != {}
    ensures f in among && Cheapest(cost, f, among)
  {
    f :| f in among;
    var rest := among - {f};
    assert forall h | h in among :: h == f || h in rest;
    if rest != {} {
      var g := Minimum(cost, rest);
      f := if cost(g) < cost(f) then g else f;
    }
  }

  /** A generation improves exactly when something in it is cheaper than the centre. */
  lemma ImprovesIff(a: Algorithm, cost: FlagSet -> real, trail: seq<FlagSet>)
    requires Centre(a, trail).Some?
    ensures (exists f :: Chooses(a, cost, trail, f)) <==> exists f :: f in Pool(a, trail) && cost(f) < cost(Centre(a, trail).value)
    ensures (forall f :: !Chooses(a, cost, trail, f)) <==> Cheapest(cost, Centre(a, trail).value, Pool(a, trail))
  {
    if Pool(a, trail) != {} {
      var f := Minimum(cost, Pool(a, trail));
      assert Chooses(a, cost, trail, f) <==> cost(f) < cost(Centre(a, trail).value);
    }
  }

  /** A chosen centre is the cheapest of all that was measured before its own neighbourhood. */
  lemma {:induction false} CentreIsCheapest(a: Algorithm, cost: FlagSet -> real, trail: seq<FlagSet>)
    requires IsTrail(a, cost, trail) && trail != []
    ensures var front, f := trail[..|trail| - 1], trail[|trail| - 1];
            f in Evaluated(a, front) && Cheapest(cost, f, Evaluated(a, front))
  {
    var front, f := trail[..|trail| - 1], trail[|trail| - 1];
    PoolIsEvaluated(a, front);
    if front != [] { CentreIsCheapest(a, cost, front); }
  }

  /** Where a run settles: the centre is the cheapest of all that was ever measured, and so of all one step from it,
      the ones skipped because they had been tried included. */
  lemma SettledIsCheapest(a: Algorithm, cost: FlagSet -> real, trail: seq<FlagSet>)
    requires Proper(a) && Settles(a, cost, trail) && Centre(a, trail).Some?
    ensures var best := Centre(a, trail).value;
            && best in Evaluated(a, trail) && Cheapest(cost, best, Evaluated(a, trail))
            && (trail != [] ==> a.next(best) <= Evaluated(a, trail) && Cheapest(cost, best, a.next(best)))
  {
    ImprovesIff(a, cost, trail);
    PoolIsEvaluated(a, trail);
    if trail != [] { CentreIsCheapest(a, cost, trail); }
  }

  // ---------- measured generations ----------

  /** Every task has come back with the cost of its flags. */
  ghost predicate Costed(cost: FlagSet -> real, pool: map<FlagSet, Task>) {
    forall f | f in pool :: pool[f].flags == f && pool[f].exe == Some(cost(f))
  }

  /** Task.IsImproved. */
  predicate Improves(t: Task, other: Task)
    requires t.exe.Some? && other.exe.Some?
  {
    t.exe.value < other.exe.value
  }

  function CostedPool(cost: FlagSet -> real, flags: set<FlagSet>): map<FlagSet, Task> {
    map f | f in flags :: Task(f, None, Some(cost(f)))
  }

  // ---------- walks ----------

  /** Any way of moving to untried flag sets. */
  predicate IsWalk(a: Algorithm, walk: seq<FlagSet>) {
    walk != [] ==> IsWalk(a, walk[..|walk| - 1]) && walk[|walk| - 1] in Pool(a, walk[..|walk| - 1])
  }

  lemma {:induction false} WalkAt(a: Algorithm, walk: seq<FlagSet>, k: nat)
    requires IsWalk(a, walk) && k <= |walk|
    ensures IsWalk(a, walk[..k]) && Evaluated(a, walk[..k]) <= Evaluated(a, walk)
    ensures k < |walk| ==> walk[k] in Pool(a, walk[..k]) && walk[k] in Evaluated(a, walk[..k])
  {
    if k == |walk| {
      assert walk[..k] == walk;
    } else {
      var front := walk[..|walk| - 1];
      assert front[..k] == walk[..k];
      WalkAt(a, front, k);
      PoolIsEvaluated(a, walk[..k]);
    }
  }

  /** A later generation holds nothing that had been measured earlier. */
  lemma LaterIsNew(a: Algorithm, walk: seq<FlagSet>, j: nat, l: nat)
    requires IsWalk(a, walk) && j < l <= |walk|
    ensures Pool(a, walk[..l]) !! Evaluated(a, walk[..j])
  {
    assert walk[..l][..l - 1] == walk[..l - 1] && walk[..l - 1][..j] == walk[..j];
    WalkAt(a, walk, l - 1);
    WalkAt(a, walk[..l - 1], j);
    PoolIsEvaluated(a, walk[..l]);
  }

  /** What a walk meets in one generation it has not met before and does not meet again, but for the next centre. */
  lemma MetOnce(a: Algorithm, walk: seq<FlagSet>, k: nat, i: nat)
    requires IsWalk(a, walk) && k < |walk| && i < |walk| && walk[i] in Pool(a, walk[..k])
    ensures i == k
  {
    WalkAt(a, walk, i);
    PoolIsEvaluated(a, walk[..k]);
    if i < k {
      LaterIsNew(a, walk, i, k);
    } else if k < i {
      LaterIsNew(a, walk, k, i);
    }
  }

  /** How far along the walk a flag set is met, or minus one. */
  function Place(walk: seq<FlagSet>, f: FlagSet): (i: int)
    ensures -1 <= i < |walk| && (i >= 0 ==> walk[i] == f) && (i == -1 ==> f !in walk)
  {
    if walk == [] then -1
    else if walk[|walk| - 1] == f then |walk| - 1
    else
      assert walk == walk[..|walk| - 1] + [walk[|walk| - 1]];
      Place(walk[..|walk| - 1], f)
  }

  /** The walk does not come back to what the first generation is compared with. */
  predicate NotBack(a: Algorithm, walk: seq<FlagSet>) {
    a.parent.Some? ==> a.parent.value !in walk
  }

  /** A cost that falls along the walk. */
  function Downhill(walk: seq<FlagSet>): FlagSet -> real {
    (f: FlagSet) => -(Place(walk, f) as real)
  }

  /** With that cost, the walk is what the algorithm does. */
  lemma OnlyTheWalk(a: Algorithm, walk: seq<FlagSet>, k: nat, f: FlagSet)
    requires NotBack(a, walk) && IsWalk(a, walk) && k < |walk|
    ensures Chooses(a, Downhill(walk), walk[..k], f) <==> f == walk[k]
  {
    WalkAt(a, walk, k);
    var cost := Downhill(walk);
    assert cost(walk[k]) == -(k as real) by { MetOnce(a, walk, k, Place(walk, walk[k])); }
    forall g | g in Pool(a, walk[..k]) && g != walk[k] ensures cost(g) == 1.0 {
      if Place(walk, g) >= 0 { MetOnce(a, walk, k, Place(walk, g)); }
    }
    if k > 0 {
      WalkAt(a, walk, k - 1);
      assert Centre(a, walk[..k]) == Some(walk[k - 1]);
      assert cost(walk[k - 1]) == -((k - 1) as real) by { MetOnce(a, walk, k - 1, Place(walk, walk[k - 1])); }
    }
  }

  lemma {:induction false} TrailIsWalk(a: Algorithm, walk: seq<FlagSet>, trail: seq<FlagSet>)
    requires NotBack(a, walk) && IsWalk(a, walk) && Pool(a, walk) == {} && IsTrail(a, Downhill(walk), trail)
    ensures trail <= walk
  {
    hide Cheapest, Downhill, Place, Evaluated;
    if trail != [] {
      var front := trail[..|trail| - 1];
      TrailIsWalk(a, walk, front);
      assert walk[..|front|] == front && (|front| == |walk| ==> front == walk);
      OnlyTheWalk(a, walk, |front|, trail[|front|]);
    }
  }

  lemma {:induction false} WalkIsTrail(a: Algorithm, walk: seq<FlagSet>, k: nat)
    requires NotBack(a, walk) && IsWalk(a, walk) && k <= |walk|
    ensures IsTrail(a, Downhill(walk), walk[..k])
  {
    if k > 0 {
      WalkIsTrail(a, walk, k - 1);
      OnlyTheWalk(a, walk, k - 1, walk[k - 1]);
      assert walk[..k][..k - 1] == walk[..k - 1];
    }
  }

  /** With that cost a walk that can go no further is the one run there is, and it ends at an empty generation. */
  lemma WalkTrips(a: Algorithm, walk: seq<FlagSet>)
    requires NotBack(a, walk) && IsWalk(a, walk) && Pool(a, walk) == {}
    ensures forall trail :: Settles(a, Downhill(walk), trail) <==> trail == walk
  {
    WalkIsTrail(a, walk, |walk|);
    assert walk[..|walk|] == walk;
    forall trail | IsTrail(a, Downhill(walk), trail) && trail != walk ensures !Settles(a, Downhill(walk), trail) {
      TrailIsWalk(a, walk, trail);
      assert walk[..|trail|] == trail;
      OnlyTheWalk(a, walk, |trail|, walk[|trail|]);
    }
  }

  // ---------- in a finite space ----------

  /** The algorithm never leaves the space. */
  ghost predicate Confined(a: Algorithm, keys: set<Spec>, lo: int, hi: int) {
    AllBounded(a.seeds, keys, lo, hi) && forall f | Bounded(f, keys, lo, hi) :: AllBounded(a.next(f), keys, lo, hi)
  }

  lemma {:induction false} TrailIsAWalk(a: Algorithm, cost: FlagSet -> real, trail: seq<FlagSet>)
    requires IsTrail(a, cost, trail)
    ensures IsWalk(a, trail)
  {
    if trail != [] { TrailIsAWalk(a, cost, trail[..|trail| - 1]); }
  }

  lemma {:induction false} WalkConfined(a: Algorithm, walk: seq<FlagSet>, keys: set<Spec>, lo: int, hi: int)
    requires IsWalk(a, walk) && Confined(a, keys, lo, hi)
    ensures AllBounded(Evaluated(a, walk), keys, lo, hi)
  {
    hide Bounded;
    if walk != [] {
      var front := walk[..|walk| - 1];
      WalkConfined(a, front, keys, lo, hi);
      PoolIsEvaluated(a, front);
    }
  }

  /** What has been evaluated is a seed or one step from a centre. */
  lemma {:induction false} EvaluatedFrom(a: Algorithm, walk: seq<FlagSet>, f: FlagSet) returns (m: nat)
    requires f in Evaluated(a, walk) && f !in a.seeds
    ensures m < |walk| && f in a.next(walk[m])
  {
    m := |walk| - 1;
    if f !in a.next(walk[m]) { m := EvaluatedFrom(a, walk[..m], f); }
  }

  /** Every move of a walk finds something new. */
  lemma {:induction false} WalkFindsNew(a: Algorithm, walk: seq<FlagSet>)
    requires IsWalk(a, walk) && walk != []
    ensures |walk| <= |Evaluated(a, walk[..|walk| - 1])|
  {
    var front, f := walk[..|walk| - 1], walk[|walk| - 1];
    PoolIsEvaluated(a, front);
    if front == [] {
      SubsetSize({f}, a.seeds);
    } else {
      WalkFindsNew(a, front);
      var before := Evaluated(a, front[..|front| - 1]);
      assert |before + {f}| == |before| + 1;
      SubsetSize(before + {f}, Evaluated(a, front));
    }
  }

  /** So in a finite space every walk, and so every run, is bounded, and so is what it measures. */
  lemma WalkBound(a: Algorithm, walk: seq<FlagSet>, keys: set<Spec>, lo: int, hi: int)
    requires IsWalk(a, walk) && Confined(a, keys, lo, hi)
    ensures |walk| <= |Universe(keys, lo, hi)| && |Evaluated(a, walk)| <= |Universe(keys, lo, hi)|
  {
    WalkConfined(a, walk, keys, lo, hi);
    BoundedSize(Evaluated(a, walk), keys, lo, hi);
    if walk != [] {
      var front := walk[..|walk| - 1];
      WalkFindsNew(a, walk);
      WalkConfined(a, front, keys, lo, hi);
      BoundedSize(Evaluated(a, front), keys, lo, hi);
    }
  }

  /** Every walk can be prolonged until it can go no further. */
  lemma {:induction false} MaximalWalk(a: Algorithm, start: seq<FlagSet>, keys: set<Spec>, lo: int, hi: int) returns (walk: seq<FlagSet>)
    requires IsWalk(a, start) && Confined(a, keys, lo, hi)
    ensures IsWalk(a, walk) && start <= walk && Pool(a, walk) == {}
    decreases |Universe(keys, lo, hi)| - |start|
  {
    walk := start;
    if Pool(a, start) != {} {
      var f :| f in Pool(a, start);
      assert (start + [f])[..|start|] == start;
      WalkBound(a, start + [f], keys, lo, hi);
      walk := MaximalWalk(a, start + [f], keys, lo, hi);
    }
  }
}
