/** Hill climbing: measure all neighbours of the current flag set and move to the cheapest, while it is cheaper. */
module HillClimbing {
  import opened Tasks
  import opened FlagSpace
  import opened Searches

  /** The flag sets one step away along one specification. */
  function ClimbNext(fs: FlagSet, spec: Spec): seq<FlagSet> {
    if spec !in fs then
      [fs[spec := if spec.Numeric? then spec.start else 0]]
    else if spec.Boolean? then
      [fs - {spec}]
    else
      (if fs[spec] + 1 < spec.end then [fs[spec := fs[spec] + 1]] else []) +
      (if fs[spec] > spec.start then [fs[spec := fs[spec] - 1]] else [fs - {spec}])
  }

  function Neighbours(fs: FlagSet, specs: seq<Spec>): set<FlagSet> {
    set spec, n | spec in specs && n in ClimbNext(fs, spec) :: n
  }

  /** Within its range a flag set is a neighbour of each of its neighbours: every climb can be undone. */
  lemma ClimbBack(fs: FlagSet, spec: Spec, n: FlagSet)
    requires n in ClimbNext(fs, spec)
    requires spec in fs ==> if spec.Boolean? then fs[spec] == 0 else spec.start <= fs[spec] < spec.end
    ensures fs in ClimbNext(n, spec)
  {
    if spec !in fs {
      assert n - {spec} == fs;
      assert fs == ClimbNext(n, spec)[|ClimbNext(n, spec)| - 1];
    } else if spec !in n {
      assert n[spec := fs[spec]] == fs;
      assert fs == ClimbNext(n, spec)[0];
    } else {
      assert n[spec := fs[spec]] == fs;
      assert fs == ClimbNext(n, spec)[0] || fs == ClimbNext(n, spec)[|ClimbNext(n, spec)| - 1];
    }
  }

  // ---------- ranges ----------

  /** Climbing never takes a flag out of its own range, from any flag set, if and only if no range is empty. */
  lemma StaysInRangeIff(specs: seq<Spec>)
    ensures (forall fs, n | InRanges(fs) && n in Neighbours(fs, specs) :: InRanges(n)) <==> ValidRanges(specs)
  {
    if spec :| spec in specs && spec.Numeric? && spec.start >= spec.end {
      var fs: FlagSet := map[];
      var n := fs[spec := spec.start as int];
      assert n in ClimbNext(fs, spec) by { assert ClimbNext(fs, spec)[0] == n; }
      assert InRanges(fs) && n in Neighbours(fs, specs) && spec in n && n[spec] == spec.start;
      assert !InRanges(n);
    }
  }

  // ---------- a finite world ----------

  ghost predicate SpecsBounded(specs: seq<Spec>, keys: set<Spec>, lo: int, hi: int) {
    lo <= 0 <= hi && forall spec | spec in specs :: spec in keys && (spec.Numeric? ==> lo <= spec.start && spec.start <= hi && spec.end <= hi)
  }

  /** Climbing stays within the bounds. */
  lemma ClimbBounded(fs: FlagSet, specs: seq<Spec>, keys: set<Spec>, lo: int, hi: int)
    requires Bounded(fs, keys, lo, hi) && SpecsBounded(specs, keys, lo, hi)
    ensures forall n | n in Neighbours(fs, specs) :: Bounded(n, keys, lo, hi)
  {
  }

  lemma {:induction false} AllBounds(specs: seq<Spec>, seeds: set<FlagSet>) returns (keys: set<Spec>, lo: int, hi: int)
    ensures SpecsBounded(specs, keys, lo, hi) && forall fs | fs in seeds :: Bounded(fs, keys, lo, hi)
  {
    if specs == [] {
      keys, lo, hi := SeedBounds(seeds);
    } else {
      keys, lo, hi := AllBounds(specs[1..], seeds);
      keys := keys + {specs[0]};
      if specs[0].Numeric? {
        hi := if specs[0].start > hi then specs[0].start else hi;
        hi := if specs[0].end > hi then specs[0].end else hi;
      }
    }
  }

  // ---------- the neighbour relation ----------

  /** The positions of one flag are one apart, and the flag sets agree in all the others. */
  ghost predicate OneStep(fs: FlagSet, n: FlagSet, spec: Spec) {
    n - {spec} == fs - {spec} && (Position(n, spec) == Position(fs, spec) + 1 || Position(n, spec) == Position(fs, spec) - 1)
  }

  lemma ClimbNextSteps(fs: FlagSet, n: FlagSet, spec: Spec)
    requires InRanges(fs) && (spec.Numeric? ==> spec.start < spec.end) && n in ClimbNext(fs, spec)
    ensures InRanges(n) && OneStep(fs, n, spec)
  {
    assert n - {spec} == fs - {spec};
  }

  lemma StepIsClimbNext(fs: FlagSet, n: FlagSet, spec: Spec)
    requires InRanges(fs) && (spec.Numeric? ==> spec.start < spec.end) && InRanges(n) && OneStep(fs, n, spec)
    ensures n in ClimbNext(fs, spec)
  {
    Restored(fs, n, spec);
    var next := ClimbNext(fs, spec);
    if spec !in n || (spec in fs && n[spec] == fs[spec] - 1) {
      assert n == next[|next| - 1];
    } else {
      assert n == next[0];
    }
  }

  /** With a flag at position 0 where it is off, 1 where it is on and boolean, and value - start + 1 where it is on and
      numeric, the neighbours of a flag set in range are exactly the flag sets in range that differ from it in the
      position of one of the specified flags, by one. */
  lemma NeighboursIff(fs: FlagSet, n: FlagSet, specs: seq<Spec>)
    requires InRanges(fs) && ValidRanges(specs)
    ensures n in Neighbours(fs, specs) <==> InRanges(n) && exists spec :: spec in specs && OneStep(fs, n, spec)
  {
    hide ClimbNext, OneStep, InRanges;
    forall spec | spec in specs ensures n in ClimbNext(fs, spec) <==> InRanges(n) && OneStep(fs, n, spec) {
      if n in ClimbNext(fs, spec) { ClimbNextSteps(fs, n, spec); }
      if InRanges(n) && OneStep(fs, n, spec) { StepIsClimbNext(fs, n, spec); }
    }
  }

  lemma {:induction false} TrailInRanges(specs: seq<Spec>, seeds: set<FlagSet>, cost: FlagSet -> real, trail: seq<FlagSet>)
    requires ValidRanges(specs) && (forall f | f in seeds :: InRanges(f))
    requires IsTrail(Climber(specs, seeds), cost, trail) && trail != []
    ensures InRanges(trail[|trail| - 1])
  {
    hide Neighbours, InRanges;
    var front, f := trail[..|trail| - 1], trail[|trail| - 1];
    if front != [] {
      TrailInRanges(specs, seeds, cost, front);
      NeighboursIff(front[|front| - 1], f, specs);
    }
  }

  /** What a settled climb from seeds in range has found, said without the neighbour relation: no flag set in range that
      differs from it in the position of one flag, by one, is cheaper. */
  lemma ClimbedToOptimum(specs: seq<Spec>, seeds: set<FlagSet>, cost: FlagSet -> real, trail: seq<FlagSet>, n: FlagSet, spec: Spec)
    requires ValidRanges(specs) && (forall f | f in seeds :: InRanges(f))
    requires Settles(Climber(specs, seeds), cost, trail) && trail != []
    requires InRanges(n) && spec in specs && OneStep(trail[|trail| - 1], n, spec)
    ensures cost(trail[|trail| - 1]) <= cost(n) && n in Evaluated(Climber(specs, seeds), trail)
  {
    hide Neighbours, InRanges, OneStep;
    ClimberProper(specs, seeds);
    SettledIsCheapest(Climber(specs, seeds), cost, trail);
    TrailInRanges(specs, seeds, cost, trail);
    NeighboursIff(trail[|trail| - 1], n, specs);
  }

  // ---------- the generation ----------

  class ClimbGeneration {
    var exeSet: map<FlagSet, Task>
    var parents: Option<Task>
    var nextTask: Option<Task>
    const cost: FlagSet -> real

    constructor (pool: set<FlagSet>, parents: Option<Task>, cost: FlagSet -> real)
      requires parents.Some? ==> parents.value.exe == Some(cost(parents.value.flags))
      ensures Ready() && exeSet.Keys == pool && this.parents == parents && nextTask.None? && this.cost == cost
    {
      exeSet, this.parents, nextTask, this.cost := CostedPool(cost, pool), parents, None, cost;
    }

    ghost predicate Ready()
      reads this
    {
      Costed(cost, exeSet) && (parents.Some? ==> parents.value.exe == Some(cost(parents.value.flags)))
    }

    /** Whether the cheapest task of the pool is cheaper than the parent; it becomes the next centre. */
    method IsImproved() returns (improved: bool)
      requires Ready()
      modifies this`nextTask
      ensures exeSet == map[] ==> !improved && nextTask == old(nextTask)
      ensures exeSet != map[] ==>
                && nextTask.Some? && nextTask.value.flags in exeSet && nextTask.value == exeSet[nextTask.value.flags]
                && Cheapest(cost, nextTask.value.flags, exeSet.Keys)
                && (improved <==> parents.None? || cost(nextTask.value.flags) < cost(parents.value.flags))
    {
      var best: Option<Task> := None;
      var todo := exeSet.Keys;
      while todo != {}
        invariant todo <= exeSet.Keys && (best.None? ==> todo == exeSet.Keys)
        invariant best.Some? ==> best.value.flags in exeSet && best.value == exeSet[best.value.flags]
        invariant best.Some? ==> forall f | f in exeSet && f !in todo :: cost(best.value.flags) <= cost(f)
      {
        var f :| f in todo;
        if best.None? || Improves(exeSet[f], best.value) {
          best := Some(exeSet[f]);
        }
        todo := todo - {f};
      }
      if best.None? {
        assert exeSet.Keys == {};
        return false;
      }
      nextTask := best;
      if parents.Some? {
        return Improves(best.value, parents.value);
      }
      return true;
    }

    /** The untried neighbours of the next centre. */
    method Next(specs: seq<Spec>, cache: set<FlagSet>) returns (children: set<FlagSet>)
      requires nextTask.Some?
      ensures children == Neighbours(nextTask.value.flags, specs) - cache
    {
      var fs := nextTask.value.flags;
      children := {};
      for i := 0 to |specs|
        invariant children == Neighbours(fs, specs[..i]) - cache
      {
        var next := ClimbNext(fs, specs[i]);
        NeighboursOne(fs, specs, i);
        for j := 0 to |next|
          invariant children == (Neighbours(fs, specs[..i]) + set n | n in next[..j]) - cache
        {
          assert next[..j + 1] == next[..j] + [next[j]];
          if next[j] !in cache {
            children := children + {next[j]};
          }
        }
        assert next[..|next|] == next;
      }
      assert specs[..|specs|] == specs;
    }
  }

  lemma NeighboursOne(fs: FlagSet, specs: seq<Spec>, i: nat)
    requires i < |specs|
    ensures Neighbours(fs, specs[..i + 1]) == Neighbours(fs, specs[..i]) + set n | n in ClimbNext(fs, specs[i])
  {
    assert specs[..i + 1] == specs[..i] + [specs[i]];
  }

  // ---------- a whole run ----------

  function Climber(specs: seq<Spec>, seeds: set<FlagSet>): Algorithm {
    Algorithm(seeds, None, (f: FlagSet) => Neighbours(f, specs), (f: FlagSet) => false)
  }

  lemma ClimberConfined(specs: seq<Spec>, seeds: set<FlagSet>) returns (keys: set<Spec>, lo: int, hi: int)
    ensures Confined(Climber(specs, seeds), keys, lo, hi)
  {
    hide Neighbours, Bounded, SpecsBounded;
    keys, lo, hi := AllBounds(specs, seeds);
    forall f | Bounded(f, keys, lo, hi) ensures AllBounded(Neighbours(f, specs), keys, lo, hi) {
      ClimbBounded(f, specs, keys, lo, hi);
    }
  }

  /** How a climb ends: by a generation that does not improve, or at the assertion that a child
      generation is not empty.  There is nothing to climb from without a seed. */
  datatype Ending = NoSeeds | LocalOptimum(centre: FlagSet) | EmptyGeneration(centre: FlagSet)

  /** The ending that belongs to a settled run. */
  function EndingOf(a: Algorithm, trail: seq<FlagSet>): Ending {
    if trail == [] then NoSeeds
    else if Trips(a, trail) then EmptyGeneration(trail[|trail| - 1])
    else LocalOptimum(trail[|trail| - 1])
  }

  /** The generation is about to give rise to the neighbours of the last centre of the trail. */
  ghost predicate Standing(a: Algorithm, trail: seq<FlagSet>, evaluated: set<FlagSet>, g: ClimbGeneration)
    reads g
  {
    && trail != [] && IsTrail(a, g.cost, trail) && evaluated == Evaluated(a, trail[..|trail| - 1])
    && g.nextTask.Some? && g.nextTask.value.flags == trail[|trail| - 1]
    && g.nextTask.value.exe == Some(g.cost(g.nextTask.value.flags))
  }

  /** Measure the untried neighbours of the centre, and stop there or move to the cheapest of them. */
  method Explore(specs: seq<Spec>, seeds: set<FlagSet>, g: ClimbGeneration, trail: seq<FlagSet>, evaluated: set<FlagSet>)
    returns (h: ClimbGeneration, children: set<FlagSet>, end: Option<Ending>)
    requires Standing(Climber(specs, seeds), trail, evaluated, g)
    ensures h.cost == g.cost && evaluated + children == Evaluated(Climber(specs, seeds), trail)
    ensures end.Some? <==> Settles(Climber(specs, seeds), g.cost, trail)
    ensures end.Some? ==> end.value == EndingOf(Climber(specs, seeds), trail)
    ensures end.None? ==> h.nextTask.Some? && Standing(Climber(specs, seeds), trail + [h.nextTask.value.flags], evaluated + children, h)
  {
    hide Neighbours;
    ghost var a := Climber(specs, seeds);
    var centre := g.nextTask.value.flags;
    children := g.Next(specs, evaluated);
    assert children == Pool(a, trail);
    ImprovesIff(a, g.cost, trail);
    if children == {} {
      return g, children, Some(EmptyGeneration(centre));
    }
    h := new ClimbGeneration(children, g.nextTask, g.cost);
    var improved := h.IsImproved();
    if !improved {
      assert Cheapest(g.cost, centre, children);
      return h, children, Some(LocalOptimum(centre));
    }
    assert Chooses(a, g.cost, trail, h.nextTask.value.flags);
    Extend(a, g.cost, trail, h.nextTask.value.flags);
    assert (trail + [h.nextTask.value.flags])[..|trail|] == trail;
    end := None;
  }

  lemma ClimberProper(specs: seq<Spec>, seeds: set<FlagSet>)
    ensures Proper(Climber(specs, seeds))
  {
  }

  /** The run of the algorithm as the loop carries it out.  It always ends, and as the last child generation says: at
      the assertion exactly when that generation is empty, otherwise because it does not improve.  However it ends,
      the centre is the cheapest task ever measured and no neighbour of it is cheaper, counting the neighbours that
      were skipped because they had been tried before. */
  method Climb(specs: seq<Spec>, seeds: set<FlagSet>, cost: FlagSet -> real)
    returns (end: Ending, trail: seq<FlagSet>, evaluated: set<FlagSet>)
    ensures Settles(Climber(specs, seeds), cost, trail) && end == EndingOf(Climber(specs, seeds), trail)
    ensures evaluated == Evaluated(Climber(specs, seeds), trail) && (trail == [] <==> seeds == {})
    ensures trail != [] ==>
              var centre := trail[|trail| - 1];
              && centre in evaluated && Cheapest(cost, centre, evaluated)
              && Neighbours(centre, specs) <= evaluated && Cheapest(cost, centre, Neighbours(centre, specs))
  {
    hide Neighbours, Chooses, Cheapest, Confined;
    ghost var a := Climber(specs, seeds);
    ClimberProper(specs, seeds);
    evaluated, trail := seeds, [];
    if seeds == {} {
      NothingToChoose(a, cost);
      return NoSeeds, trail, evaluated;
    }
    ghost var keys, lo, hi := ClimberConfined(specs, seeds);
    var g := FirstGeneration(specs, seeds, cost);
    trail := [g.nextTask.value.flags];
    var stop: Option<Ending> := None;
    while stop.None?
      invariant g.cost == cost && trail != [] && IsTrail(a, cost, trail)
      invariant stop.None? ==> Standing(a, trail, evaluated, g)
      invariant stop.Some? ==> Settles(a, cost, trail) && stop.value == EndingOf(a, trail) && evaluated == Evaluated(a, trail)
      decreases stop.None?, |Universe(keys, lo, hi)| - |trail|
    {
      var children;
      g, children, stop := Explore(specs, seeds, g, trail, evaluated);
      evaluated := evaluated + children;
      if stop.None? {
        trail := trail + [g.nextTask.value.flags];
        TrailIsAWalk(a, cost, trail);
        WalkBound(a, trail, keys, lo, hi);
      }
    }
    end := stop.value;
    SettledIsCheapest(a, cost, trail);
  }

  lemma NothingToChoose(a: Algorithm, cost: FlagSet -> real)
    ensures a.seeds == {} ==> Settles(a, cost, [])
  {
  }

  /** The seeds are measured, and the cheapest of them is the first centre. */
  method FirstGeneration(specs: seq<Spec>, seeds: set<FlagSet>, cost: FlagSet -> real) returns (g: ClimbGeneration)
    requires seeds != {}
    ensures g.cost == cost && g.nextTask.Some? && Standing(Climber(specs, seeds), [g.nextTask.value.flags], seeds, g)
  {
    hide Neighbours;
    g := new ClimbGeneration(seeds, None, cost);
    var improved := g.IsImproved();
    var f := g.nextTask.value.flags;
    ghost var a := Climber(specs, seeds);
    assert Chooses(a, cost, [], f);
    Extend(a, cost, [], f);
    assert [] + [f] == [f] && [f][..|[f]| - 1] == [];
  }

  // ---------- the assertion on an empty generation ----------

  /** No check of the specifications and the seeds can exclude the assertion: for all of them there is a cost with
      which the climb has just one run, and that one ends at an empty generation. */
  lemma SomeCostTrips(specs: seq<Spec>, seeds: set<FlagSet>) returns (cost: FlagSet -> real, walk: seq<FlagSet>)
    requires seeds != {}
    ensures Trips(Climber(specs, seeds), walk)
    ensures forall trail :: Settles(Climber(specs, seeds), cost, trail) <==> trail == walk
  {
    hide Neighbours, Confined;
    var a := Climber(specs, seeds);
    var keys, lo, hi := ClimberConfined(specs, seeds);
    var seed :| seed in seeds;
    assert [seed][..0] == [];
    walk := MaximalWalk(a, [seed], keys, lo, hi);
    cost := Downhill(walk);
    WalkTrips(a, walk);
  }

  /** One boolean flag, started without it: the climb ends at an empty generation exactly when the flag pays off. */
  lemma OneFlagTripsIff(flag: Spec, cost: FlagSet -> real, trail: seq<FlagSet>)
    requires flag.Boolean? && Settles(Climber([flag], {map[]}), cost, trail)
    ensures Trips(Climber([flag], {map[]}), trail) <==> cost(map[flag := 0]) < cost(map[])
  {
    var a := Climber([flag], {map[]});
    var off: FlagSet, on: FlagSet := map[], map[flag := 0];
    NeighboursOfOne(off, flag);
    NeighboursOfOne(on, flag);
    assert ClimbNext(off, flag) == [on] && ClimbNext(on, flag) == [off];
    hide Neighbours, ClimbNext;
    assert Chooses(a, cost, [], off);
    OnePlace(a, cost, trail, off, on);
  }

  lemma NeighboursOfOne(fs: FlagSet, spec: Spec)
    ensures Neighbours(fs, [spec]) == set n | n in ClimbNext(fs, spec)
  {
    assert forall n | n in ClimbNext(fs, spec) :: spec in [spec] && n in Neighbours(fs, [spec]);
  }

  /** From one seed with one neighbour there is nowhere to go but back. */
  lemma OnePlace(a: Algorithm, cost: FlagSet -> real, trail: seq<FlagSet>, off: FlagSet, on: FlagSet)
    requires a.parent.None? && a.seeds == {off} && a.next(off) == {on} && a.next(on) == {off} && off != on && !a.quits(off) && !a.quits(on)
    requires Settles(a, cost, trail)
    ensures Trips(a, trail) <==> cost(on) < cost(off)
  {
    assert Chooses(a, cost, [], off);
    var one, two := [off], [off, on];
    assert one[..0] == [] && two[..1] == one;
    assert Pool(a, one) == {on};
    assert Chooses(a, cost, one, on) <==> cost(on) < cost(off);
    assert Evaluated(a, one) == {off, on} && Pool(a, two) == {};
    AtMostTwo(a, cost, trail, off, on);
    assert trail == [] || trail == one || trail == two;
  }

  lemma {:induction false} AtMostTwo(a: Algorithm, cost: FlagSet -> real, trail: seq<FlagSet>, off: FlagSet, on: FlagSet)
    requires a.parent.None? && a.seeds == {off} && a.next(off) == {on} && a.next(on) == {off} && off != on
    requires IsTrail(a, cost, trail)
    ensures trail <= [off, on]
  {
    if trail != [] {
      var front := trail[..|trail| - 1];
      AtMostTwo(a, cost, front, off, on);
      assert [off][..0] == [] && [off, on][..1] == [off];
      assert Evaluated(a, [off]) == {off, on};
      assert front == [] || front == [off] || front == [off, on];
    }
  }
}
