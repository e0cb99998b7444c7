/** Iterative elimination: from all flags at their highest, lower the flag that hurts most, until none does. */
module Elimination {
  import opened Tasks
  import opened Sets
  import opened FlagSpace
  import opened Searches

  /** What is drawn when a flag set is made with the value -1 for a numeric flag, which stands for a random value. */
  type Picker = (FlagSet, Spec) -> int

  /** A draw lies between the bounds of a specification that is not empty, both included. */
  ghost predicate Draws(pick: Picker) {
    forall fs, spec: Spec | spec.Numeric? && spec.start < spec.end :: spec.start <= pick(fs, spec) <= spec.end
  }

  function Made(v: int, drawn: int): int {
    if v == -1 then drawn else v
  }

  /** Lower one flag: a boolean flag, or a numeric one at its lowest value, is turned off. */
  function DecreaseFlag(fs: FlagSet, spec: Spec, pick: Picker): FlagSet
    requires spec in fs
  {
    if spec.Boolean? || fs[spec] == spec.start then fs - {spec} else fs[spec := Made(fs[spec] - 1, pick(fs, spec))]
  }

  function Children(fs: FlagSet, pick: Picker): set<FlagSet> {
    set spec | spec in fs :: DecreaseFlag(fs, spec, pick)
  }

  predicate AboveStart(fs: FlagSet) {
    forall spec | spec in fs && spec.Numeric? :: spec.start <= fs[spec]
  }

  // ---------- the seed generation ----------

  function Top(spec: Spec): int {
    if spec.Boolean? then 0 else spec.end - 1
  }

  function Baseline(specs: seq<Spec>): FlagSet {
    map spec | spec in specs :: Top(spec)
  }

  /** All flags at their highest, except that the given one is left out or one lower. */
  function InitialFlags(specs: seq<Spec>, spec: Spec, pick: Picker): FlagSet {
    map other | other in specs && !(other == spec && spec.Boolean?) ::
      if other == spec then Made(Top(other) - 1, pick(Baseline(specs), other)) else Top(other)
  }

  function Seeds(specs: seq<Spec>, pick: Picker): set<FlagSet> {
    {Baseline(specs)} + set spec | spec in specs :: InitialFlags(specs, spec, pick)
  }

  /** Every numeric range holds at least two values. */
  predicate WideRanges(specs: seq<Spec>) {
    forall spec | spec in specs && spec.Numeric? :: spec.start + 2 <= spec.end
  }

  /** The seed tasks are the baseline and its single decreases if and only if every numeric range holds at least two
      values; with a one-value range, turning that flag off is not among them. */
  lemma SeedsAreChildren(specs: seq<Spec>, pick: Picker)
    requires ValidRanges(specs)
    ensures Seeds(specs, pick) == {Baseline(specs)} + Children(Baseline(specs), pick) <==> WideRanges(specs)
  {
    var base := Baseline(specs);
    if spec :| spec in specs && spec.Numeric? && spec.start + 2 > spec.end {
      OffIsNoSeed(specs, spec, pick);
    } else {
      forall spec | spec in specs ensures InitialFlags(specs, spec, pick) == DecreaseFlag(base, spec, pick) {
        SeedIsChild(specs, spec, pick);
      }
      assert forall f :: f in Seeds(specs, pick) <==> f in {base} + Children(base, pick);
    }
  }

  lemma SeedIsChild(specs: seq<Spec>, spec: Spec, pick: Picker)
    requires spec in specs && (spec.Numeric? ==> spec.start + 2 <= spec.end)
    ensures InitialFlags(specs, spec, pick) == DecreaseFlag(Baseline(specs), spec, pick)
  {
    var base, f := Baseline(specs), InitialFlags(specs, spec, pick);
    if spec.Boolean? {
      assert f == base - {spec};
    } else {
      assert f == base[spec := Top(spec) - 1];
    }
  }

  /** Every seed has every numeric flag on. */
  lemma NumericSeeds(specs: seq<Spec>, spec: Spec, pick: Picker)
    requires spec in specs && spec.Numeric?
    ensures forall f | f in Seeds(specs, pick) :: spec in f
  {
    forall other ensures spec in InitialFlags(specs, other, pick) { }
    assert spec in Baseline(specs);
    hide InitialFlags, Baseline;
    assert forall f | f in Seeds(specs, pick) :: f == Baseline(specs) || exists other :: f == InitialFlags(specs, other, pick);
  }

  lemma OffIsNoSeed(specs: seq<Spec>, spec: Spec, pick: Picker)
    requires spec in specs && spec.Numeric? && spec.end == spec.start + 1
    ensures var off := DecreaseFlag(Baseline(specs), spec, pick);
            off == Baseline(specs) - {spec} && off in Children(Baseline(specs), pick) && off !in Seeds(specs, pick)
  {
    hide Seeds;
    NumericSeeds(specs, spec, pick);
  }

  /** With a one-value range the algorithm can stop at once although a single decrease is better:
      turning that flag off is not among the seeds, so some cost function hides it. */
  lemma LowSeedMissesDecrease(specs: seq<Spec>, spec: Spec, pick: Picker) returns (cost: FlagSet -> real)
    requires spec in specs && spec.Numeric? && spec.end == spec.start + 1
    ensures forall f | f in Seeds(specs, pick) :: cost(Baseline(specs)) <= cost(f)
    ensures DecreaseFlag(Baseline(specs), spec, pick) in Children(Baseline(specs), pick)
    ensures cost(DecreaseFlag(Baseline(specs), spec, pick)) < cost(Baseline(specs))
  {
    OffIsNoSeed(specs, spec, pick);
    hide Seeds, Children, DecreaseFlag;
    var off := DecreaseFlag(Baseline(specs), spec, pick);
    cost := (f: FlagSet) => if f == off then 0.0 else 1.0;
    assert spec in Baseline(specs) && spec !in off;
  }

  // ---------- weight ----------

  /** How many single decreases lead from a flag set to the empty one. */
  ghost function Weight(fs: FlagSet): int {
    if fs == map[] then 0
    else var spec :| spec in fs; assert spec in fs.Keys; Part(spec, fs[spec]) + Weight(fs - {spec})
  }

  lemma {:induction false} WeightSplit(fs: FlagSet, spec: Spec)
    requires spec in fs
    ensures Weight(fs) == Part(spec, fs[spec]) + Weight(fs - {spec})
    decreases |fs|
  {
    var p :| p in fs && Weight(fs) == Part(p, fs[p]) + Weight(fs - {p});
    if p != spec {
      assert p in fs.Keys && spec in fs.Keys;
      assert |fs - {p}| < |fs| && |fs - {spec}| < |fs|;
      WeightSplit(fs - {p}, spec);
      WeightSplit(fs - {spec}, p);
      assert fs - {p} - {spec} == fs - {spec} - {p};
    }
  }

  /** A single decrease lowers the weight by exactly one and stays in range. */
  lemma DecreaseWeight(fs: FlagSet, spec: Spec, pick: Picker)
    requires spec in fs && AboveStart(fs)
    ensures Weight(DecreaseFlag(fs, spec, pick)) == Weight(fs) - 1 && AboveStart(DecreaseFlag(fs, spec, pick))
  {
    WeightSplit(fs, spec);
    var lower := DecreaseFlag(fs, spec, pick);
    if spec in lower {
      WeightSplit(lower, spec);
      assert lower - {spec} == fs - {spec};
    }
  }

  /** The single decreases, said without the code: those that leave one flag one position lower and all others as they are. */
  lemma ChildrenIff(fs: FlagSet, child: FlagSet, pick: Picker)
    requires AboveStart(fs)
    ensures child in Children(fs, pick) <==>
            AboveStart(child) && exists spec :: spec in fs && Down(fs, child, spec)
  {
    if child in Children(fs, pick) {
      var spec :| spec in fs && child == DecreaseFlag(fs, spec, pick);
      DecreaseIsDown(fs, spec, pick);
    }
    if AboveStart(child) {
      forall spec | spec in fs && Down(fs, child, spec) ensures child == DecreaseFlag(fs, spec, pick) { DownIsDecrease(fs, child, spec, pick); }
    }
  }

  /** One flag is a position lower, and all others are as they are. */
  ghost predicate Down(fs: FlagSet, child: FlagSet, spec: Spec) {
    child - {spec} == fs - {spec} && Position(child, spec) == Position(fs, spec) - 1
  }

  lemma DecreaseIsDown(fs: FlagSet, spec: Spec, pick: Picker)
    requires AboveStart(fs) && spec in fs
    ensures Down(fs, DecreaseFlag(fs, spec, pick), spec) && AboveStart(DecreaseFlag(fs, spec, pick))
  {
    assert DecreaseFlag(fs, spec, pick) - {spec} == fs - {spec};
  }

  lemma DownIsDecrease(fs: FlagSet, child: FlagSet, spec: Spec, pick: Picker)
    requires AboveStart(fs) && AboveStart(child) && spec in fs && Down(fs, child, spec)
    ensures child == DecreaseFlag(fs, spec, pick)
  {
    Restored(fs, child, spec);
  }

  lemma {:induction false} WeightBoundsSize(fs: FlagSet)
    requires AboveStart(fs)
    ensures |fs| <= Weight(fs)
    ensures (forall spec | spec in fs :: spec.Boolean?) ==> Weight(fs) == |fs|
    decreases |fs|
  {
    if fs != map[] {
      var spec :| spec in fs;
      assert spec in fs.Keys && |fs - {spec}| == |fs| - 1;
      WeightSplit(fs, spec);
      WeightBoundsSize(fs - {spec});
    }
  }

  // ---------- the baseline is the top ----------

  /** With flags left out or lower the weight is no greater. */
  lemma {:induction false} WeightMonotone(low: FlagSet, high: FlagSet)
    requires AboveStart(high) && low.Keys <= high.Keys && forall spec | spec in low :: low[spec] <= high[spec]
    ensures Weight(low) <= Weight(high)
    decreases |low|
  {
    if low == map[] {
      WeightBoundsSize(high);
    } else {
      var spec :| spec in low;
      assert spec in low.Keys && |low - {spec}| < |low|;
      WeightSplit(low, spec);
      WeightSplit(high, spec);
      WeightMonotone(low - {spec}, high - {spec});
    }
  }

  /** The number of positions of a flag above off. */
  function Height(spec: Spec): int {
    if spec.Boolean? then 1 else spec.end - spec.start
  }

  /** The sum over the specifications, each counted once. */
  function TotalHeight(specs: seq<Spec>): int {
    if specs == [] then 0 else (if specs[0] in specs[1..] then 0 else Height(specs[0])) + TotalHeight(specs[1..])
  }

  lemma {:induction false} BaselineWeight(specs: seq<Spec>)
    ensures Weight(Baseline(specs)) == TotalHeight(specs)
  {
    if specs == [] {
      assert Baseline(specs) == map[];
    } else {
      var spec, rest := specs[0], specs[1..];
      BaselineWeight(rest);
      if spec in rest {
        assert Baseline(specs) == Baseline(rest);
      } else {
        WeightSplit(Baseline(specs), spec);
        assert Baseline(specs) - {spec} == Baseline(rest);
      }
    }
  }

  /** The baseline is the greatest flag set in range: it has every flag on, and no flag set over the specifications has a flag
      higher or weighs more.  It weighs 1 for each boolean flag and the length of the range for each numeric one. */
  lemma BaselineIsHighest(specs: seq<Spec>)
    requires ValidRanges(specs)
    ensures InRanges(Baseline(specs)) && Baseline(specs).Keys == set spec | spec in specs
    ensures forall fs: FlagSet, spec | InRanges(fs) && spec in fs && spec in specs :: fs[spec] <= Baseline(specs)[spec]
    ensures forall fs: FlagSet | InRanges(fs) && (forall spec | spec in fs :: spec in specs) :: Weight(fs) <= Weight(Baseline(specs))
    ensures Weight(Baseline(specs)) == TotalHeight(specs)
  {
    var base := Baseline(specs);
    BaselineWeight(specs);
    forall fs: FlagSet | InRanges(fs) && forall spec | spec in fs :: spec in specs ensures Weight(fs) <= Weight(base) {
      WeightMonotone(fs, base);
    }
  }

  lemma ChildrenSize(fs: FlagSet, pick: Picker)
    ensures |Children(fs, pick)| <= |fs|
  {
    ImageSize(fs, fs.Keys, pick);
    assert Children(fs, pick) == set spec | spec in fs.Keys :: DecreaseFlag(fs, spec, pick);
  }

  lemma {:induction false} ImageSize(fs: FlagSet, keys: set<Spec>, pick: Picker)
    requires keys <= fs.Keys
    ensures |set spec | spec in keys :: DecreaseFlag(fs, spec, pick)| <= |keys|
  {
    if keys != {} {
      var k :| k in keys;
      ImageSize(fs, keys - {k}, pick);
      assert (set spec | spec in keys :: DecreaseFlag(fs, spec, pick)) ==
             (set spec | spec in keys - {k} :: DecreaseFlag(fs, spec, pick)) + {DecreaseFlag(fs, k, pick)};
    }
  }

  // ---------- the generation ----------

  class EliminationGeneration {
    var exeSet: map<FlagSet, Task>
    var parentTask: Task
    const cost: FlagSet -> real

    constructor (pool: map<FlagSet, Task>, parent: Task, cost: FlagSet -> real)
      ensures exeSet == pool && parentTask == parent && this.cost == cost
    {
      exeSet, parentTask, this.cost := pool, parent, cost;
    }

    ghost predicate Ready()
      reads this
    {
      Costed(cost, exeSet) && parentTask.exe == Some(cost(parentTask.flags))
    }

    /** Some task costs less than the parent. */
    method IsImproved() returns (improved: bool)
      requires Ready()
      ensures improved <==> exists f :: f in exeSet && cost(f) < cost(parentTask.flags)
    {
      var todo := exeSet.Keys - {parentTask.flags};
      while todo != {}
        invariant todo <= exeSet.Keys
        invariant forall f | f in exeSet && f !in todo :: !(cost(f) < cost(parentTask.flags))
      {
        var f :| f in todo;
        if Improves(exeSet[f], parentTask) {
          return true;
        }
        todo := todo - {f};
      }
      return false;
    }

    /** The first generation measures its own parent, and takes it from the pool. */
    method FirstIsImproved() returns (improved: bool)
      requires Costed(cost, exeSet) && parentTask.flags in exeSet
      modifies this
      ensures Ready() && exeSet == old(exeSet) && parentTask == old(exeSet[parentTask.flags])
      ensures improved <==> exists f :: f in exeSet && cost(f) < cost(parentTask.flags)
    {
      parentTask := exeSet[parentTask.flags];
      improved := IsImproved();
    }

    /** The cheapest task is the next parent, and the next pool is its untried decreases;
        there is no next generation when it has no flag left. */
    method Next(cache: set<FlagSet>, pick: Picker) returns (worst: Task, pool: Option<set<FlagSet>>)
      requires Ready() && exists f :: f in exeSet && cost(f) < cost(parentTask.flags)
      ensures worst.flags in exeSet && worst == exeSet[worst.flags] && cost(worst.flags) < cost(parentTask.flags)
      ensures forall f | f in exeSet :: cost(worst.flags) <= cost(f)
      ensures pool == if worst.flags == map[] then None else Some(Children(worst.flags, pick) - cache)
    {
      worst := parentTask;
      var todo := exeSet.Keys - {parentTask.flags};
      while todo != {}
        invariant todo <= exeSet.Keys
        invariant worst == parentTask || (worst.flags in exeSet && worst == exeSet[worst.flags] && cost(worst.flags) < cost(parentTask.flags))
        invariant worst.exe == Some(cost(worst.flags))
        invariant forall f | f in exeSet && f !in todo :: cost(worst.flags) <= cost(f)
      {
        var f :| f in todo;
        if Improves(exeSet[f], worst) {
          worst := exeSet[f];
        }
        todo := todo - {f};
      }
      if worst.flags == map[] {
        return worst, None;
      }
      var results := {};
      var specs := worst.flags.Keys;
      while specs != {}
        invariant specs <= worst.flags.Keys
        invariant results == (set spec | spec in worst.flags && spec !in specs :: DecreaseFlag(worst.flags, spec, pick)) - cache
      {
        var spec :| spec in specs;
        var flagSet := DecreaseFlag(worst.flags, spec, pick);
        if flagSet !in cache {
          results := results + {flagSet};
        }
        specs := specs - {spec};
      }
      assert results == Children(worst.flags, pick) - cache;
      return worst, Some(results);
    }
  }

  // ---------- a whole run ----------

  /** 1 + 2 + ... + n. */
  function Triangle(n: nat): nat {
    if n == 0 then 0 else n + Triangle(n - 1)
  }

  lemma {:induction false} TriangleFormula(n: nat)
    ensures 2 * Triangle(n) == n * (n + 1)
  {
    if n > 0 { TriangleFormula(n - 1); }
  }

  ghost predicate AllHeavier(among: set<FlagSet>, w: int) {
    forall g | g in among :: w <= Weight(g)
  }

  function Eliminator(specs: seq<Spec>, pick: Picker): Algorithm {
    Algorithm(Seeds(specs, pick), Some(Baseline(specs)), (f: FlagSet) => Children(f, pick), (f: FlagSet) => f == map[])
  }

  lemma EliminatorProper(specs: seq<Spec>, pick: Picker)
    ensures Proper(Eliminator(specs, pick))
  {
  }

  lemma ChildWeight(fs: FlagSet, child: FlagSet, pick: Picker)
    requires child in Children(fs, pick) && AboveStart(fs)
    ensures Weight(child) == Weight(fs) - 1 && AboveStart(child)
  {
    var spec :| spec in fs && child == DecreaseFlag(fs, spec, pick);
    DecreaseWeight(fs, spec, pick);
  }

  /** The first choice, if there is one, is a single decrease of the baseline. */
  ghost predicate StartsDown(specs: seq<Spec>, pick: Picker, trail: seq<FlagSet>) {
    ValidRanges(specs) && Draws(pick) && (trail != [] ==> trail[0] in Children(Baseline(specs), pick))
  }

  lemma {:induction false} FirstChoice(a: Algorithm, cost: FlagSet -> real, trail: seq<FlagSet>)
    requires IsTrail(a, cost, trail) && trail != []
    ensures Chooses(a, cost, [], trail[0])
  {
    if |trail| == 1 {
      assert trail[..0] == [];
    } else {
      FirstChoice(a, cost, trail[..|trail| - 1]);
    }
  }

  lemma WideStartsDown(specs: seq<Spec>, pick: Picker, cost: FlagSet -> real, trail: seq<FlagSet>)
    requires WideRanges(specs) && Draws(pick) && IsTrail(Eliminator(specs, pick), cost, trail)
    ensures StartsDown(specs, pick, trail)
  {
    if trail != [] {
      FirstChoice(Eliminator(specs, pick), cost, trail);
      SeedsAreChildren(specs, pick);
    }
  }

  /** Each centre is one unit lighter than the one before, and nothing measured so far is lighter than its decreases. */
  lemma {:induction false} TrailWeight(specs: seq<Spec>, pick: Picker, cost: FlagSet -> real, trail: seq<FlagSet>)
    requires StartsDown(specs, pick, trail) && IsTrail(Eliminator(specs, pick), cost, trail)
    ensures var centre := Centre(Eliminator(specs, pick), trail).value;
            && AboveStart(centre) && Weight(centre) == Weight(Baseline(specs)) - |trail|
            && AllHeavier(Evaluated(Eliminator(specs, pick), trail), Weight(centre) - 1)
  {
    hide Weight, Children, Baseline, Seeds, AboveStart, Cheapest, AllHeavier, ValidRanges, Draws;
    if trail == [] {
      SeedsAreHeavy(specs, pick);
    } else {
      var a, front, f := Eliminator(specs, pick), trail[..|trail| - 1], trail[|trail| - 1];
      TrailWeight(specs, pick, cost, front);
      ChildWeight(Centre(a, front).value, f, pick);
      StillHeavy(Evaluated(a, front), f, pick);
    }
  }

  lemma SeedsAreHeavy(specs: seq<Spec>, pick: Picker)
    requires ValidRanges(specs) && Draws(pick)
    ensures AboveStart(Baseline(specs)) && AllHeavier(Seeds(specs, pick), Weight(Baseline(specs)) - 1)
  {
    var base := Baseline(specs);
    assert AboveStart(base);
    hide Weight, Baseline, InitialFlags, AboveStart, Draws, ValidRanges;
    forall f | f in Seeds(specs, pick) ensures Weight(base) - 1 <= Weight(f) {
      if f != base {
        var spec :| spec in specs && f == InitialFlags(specs, spec, pick);
        SeedWeight(specs, spec, pick);
      }
    }
  }

  /** A seed is at most one unit lighter than the baseline. */
  lemma SeedWeight(specs: seq<Spec>, spec: Spec, pick: Picker)
    requires spec in specs && ValidRanges(specs) && Draws(pick)
    ensures Weight(InitialFlags(specs, spec, pick)) >= Weight(Baseline(specs)) - 1
  {
    var base, f := Baseline(specs), InitialFlags(specs, spec, pick);
    WeightSplit(base, spec);
    assert spec.Numeric? ==> spec.start <= pick(base, spec) <= spec.end;
    if spec.Boolean? {
      assert f == base - {spec};
    } else {
      WeightSplit(f, spec);
      assert f - {spec} == base - {spec};
    }
  }

  lemma StillHeavy(before: set<FlagSet>, f: FlagSet, pick: Picker)
    requires AboveStart(f) && AllHeavier(before, Weight(f))
    ensures AllHeavier(before + Children(f, pick), Weight(f) - 1)
  {
    hide Weight, Children, AboveStart;
    HeavyChildren(f, pick);
  }

  lemma HeavyChildren(fs: FlagSet, pick: Picker)
    requires AboveStart(fs)
    ensures forall child | child in Children(fs, pick) :: Weight(child) == Weight(fs) - 1
  {
    forall child | child in Children(fs, pick) ensures Weight(child) == Weight(fs) - 1 { ChildWeight(fs, child, pick); }
  }

  /** No child is ever dropped as already tried. */
  lemma NothingDropped(specs: seq<Spec>, pick: Picker, cost: FlagSet -> real, trail: seq<FlagSet>)
    requires StartsDown(specs, pick, trail) && IsTrail(Eliminator(specs, pick), cost, trail) && trail != []
    ensures Pool(Eliminator(specs, pick), trail) == Children(trail[|trail| - 1], pick)
  {
    hide Weight, Children, Baseline, Seeds, AboveStart, Chooses, ValidRanges, Draws;
    var front, f := trail[..|trail| - 1], trail[|trail| - 1];
    TrailWeight(specs, pick, cost, front);
    TrailWeight(specs, pick, cost, trail);
    HeavyChildren(f, pick);
  }

  /** Once it has lowered a flag within its range elimination never makes an empty generation, whatever the cost. */
  lemma DownNeverTrips(specs: seq<Spec>, pick: Picker, cost: FlagSet -> real, trail: seq<FlagSet>)
    requires StartsDown(specs, pick, trail) && IsTrail(Eliminator(specs, pick), cost, trail)
    ensures !Trips(Eliminator(specs, pick), trail)
  {
    if trail != [] {
      NothingDropped(specs, pick, cost, trail);
      var f := trail[|trail| - 1];
      if f != map[] {
        var spec :| spec in f;
        assert DecreaseFlag(f, spec, pick) in Children(f, pick);
      }
    }
  }

  /** With wide ranges it never does. */
  lemma EliminationNeverTrips(specs: seq<Spec>, pick: Picker, cost: FlagSet -> real, trail: seq<FlagSet>)
    requires WideRanges(specs) && Draws(pick) && IsTrail(Eliminator(specs, pick), cost, trail)
    ensures !Trips(Eliminator(specs, pick), trail)
  {
    WideStartsDown(specs, pick, cost, trail);
    DownNeverTrips(specs, pick, cost, trail);
  }

  // ---------- how long a run takes ----------

  /** What has been measured when a centre of weight w has been reached from one of weight w0. */
  ghost predicate Within(size: nat, w: int, w0: nat) {
    0 <= w <= w0 && size + (if w == 0 then 0 else Triangle(w - 1)) <= 1 + Triangle(w0)
  }

  lemma WithinGoesOn(size: nat, size': nat, w: int, w0: nat)
    requires Within(size, w, w0) && w > 0 && size' <= size + w - 1
    ensures Within(size', w - 1, w0)
  {
  }

  lemma UnionSize(a: set<FlagSet>, b: set<FlagSet>)
    ensures |a + b| <= |a| + |b|
  {
    assert a + b == a + (b - a);
    SubsetSize(b - a, b);
  }

  lemma FewChildren(fs: FlagSet, pick: Picker)
    requires AboveStart(fs)
    ensures |Children(fs, pick)| <= Weight(fs)
  {
    ChildrenSize(fs, pick);
    WeightBoundsSize(fs);
  }

  lemma SeedsWithin(specs: seq<Spec>, pick: Picker)
    requires WideRanges(specs)
    ensures AboveStart(Baseline(specs)) && Weight(Baseline(specs)) >= 0
    ensures Within(|Seeds(specs, pick)|, Weight(Baseline(specs)), Weight(Baseline(specs)))
  {
    var base := Baseline(specs);
    assert AboveStart(base);
    hide Weight, Children, Seeds;
    SeedsAreChildren(specs, pick);
    FewChildren(base, pick);
    UnionSize({base}, Children(base, pick));
  }

  lemma {:induction false} TrailSize(specs: seq<Spec>, pick: Picker, cost: FlagSet -> real, trail: seq<FlagSet>)
    requires WideRanges(specs) && Draws(pick) && IsTrail(Eliminator(specs, pick), cost, trail)
    ensures Weight(Baseline(specs)) >= 0
    ensures Within(|Evaluated(Eliminator(specs, pick), trail)|, Weight(Centre(Eliminator(specs, pick), trail).value), Weight(Baseline(specs)))
  {
    hide Weight, Children, Baseline, Seeds, AboveStart, Chooses, Within, AllHeavier;
    SeedsWithin(specs, pick);
    if trail != [] {
      var a, front, f := Eliminator(specs, pick), trail[..|trail| - 1], trail[|trail| - 1];
      TrailSize(specs, pick, cost, front);
      WideStartsDown(specs, pick, cost, trail);
      TrailWeight(specs, pick, cost, front);
      TrailWeight(specs, pick, cost, trail);
      FewChildren(f, pick);
      UnionSize(Evaluated(a, front), Children(f, pick));
      WithinGoesOn(|Evaluated(a, front)|, |Evaluated(a, trail)|, Weight(Centre(a, front).value), Weight(Baseline(specs)));
    }
  }

  /** With wide ranges a run makes at most w choices and measures at most 1 + w(w+1)/2 tasks, for a baseline of weight w. */
  lemma EliminationBound(specs: seq<Spec>, pick: Picker, cost: FlagSet -> real, trail: seq<FlagSet>)
    requires WideRanges(specs) && Draws(pick) && IsTrail(Eliminator(specs, pick), cost, trail)
    ensures |trail| <= Weight(Baseline(specs)) && |Evaluated(Eliminator(specs, pick), trail)| <= 1 + Triangle(Weight(Baseline(specs)))
  {
    TrailSize(specs, pick, cost, trail);
    WideStartsDown(specs, pick, cost, trail);
    TrailWeight(specs, pick, cost, trail);
  }

  ghost predicate Below(specs: seq<Spec>, hi: int) {
    0 <= hi && forall spec | spec in specs && spec.Numeric? :: spec.end <= hi
  }

  lemma {:induction false} HighestEnd(specs: seq<Spec>) returns (hi: int)
    ensures Below(specs, hi)
  {
    hi := 0;
    if specs != [] {
      hi := HighestEnd(specs[1..]);
      if specs[0].Numeric? && specs[0].end > hi { hi := specs[0].end; }
    }
  }

  function Keys(specs: seq<Spec>): set<Spec> {
    set spec | spec in specs
  }

  lemma ChildrenBounded(specs: seq<Spec>, pick: Picker, hi: int, fs: FlagSet)
    requires Draws(pick) && Below(specs, hi) && ValidRanges(specs) && Bounded(fs, Keys(specs), 0, hi)
    ensures AllBounded(Children(fs, pick), Keys(specs), 0, hi)
  {
    forall child | child in Children(fs, pick) ensures Bounded(child, Keys(specs), 0, hi) {
      var spec :| spec in fs && child == DecreaseFlag(fs, spec, pick);
      assert spec in specs && (spec.Numeric? ==> spec.start <= pick(fs, spec) <= spec.end);
    }
  }

  lemma SeedsBounded(specs: seq<Spec>, pick: Picker, hi: int)
    requires Draws(pick) && Below(specs, hi) && ValidRanges(specs)
    ensures AllBounded(Seeds(specs, pick), Keys(specs), 0, hi)
  {
    forall f | f in Seeds(specs, pick) ensures Bounded(f, Keys(specs), 0, hi) {
      if f != Baseline(specs) {
        var spec :| spec in specs && f == InitialFlags(specs, spec, pick);
        assert spec.Numeric? ==> spec.start <= pick(Baseline(specs), spec) <= spec.end;
      }
    }
  }

  /** For all ranges, since no value is ever negative, the runs are confined to a finite space. */
  lemma EliminatorConfined(specs: seq<Spec>, pick: Picker) returns (hi: int)
    requires Draws(pick) && ValidRanges(specs)
    ensures Confined(Eliminator(specs, pick), Keys(specs), 0, hi)
  {
    hide Draws, Below, Children, Seeds, Bounded;
    hi := HighestEnd(specs);
    SeedsBounded(specs, pick, hi);
    forall f | Bounded(f, Keys(specs), 0, hi) ensures AllBounded(Children(f, pick), Keys(specs), 0, hi) {
      ChildrenBounded(specs, pick, hi, f);
    }
  }

  // ---------- the program ----------

  /** A generation with every task of its pool measured. */
  method Measure(pool: set<FlagSet>, parent: Task, cost: FlagSet -> real) returns (g: EliminationGeneration)
    requires parent.exe == Some(cost(parent.flags))
    ensures fresh(g) && g.Ready() && g.cost == cost && g.parentTask == parent && g.exeSet.Keys == pool
  {
    g := new EliminationGeneration(CostedPool(cost, pool), parent, cost);
  }

  /** The generation is the one the trail leads to, and knows whether it improves. */
  ghost predicate Standing(a: Algorithm, cost: FlagSet -> real, trail: seq<FlagSet>, evaluated: set<FlagSet>,
                           g: EliminationGeneration, improved: bool)
    reads g
  {
    && IsTrail(a, cost, trail) && evaluated == Evaluated(a, trail)
    && g.Ready() && g.cost == cost && Some(g.parentTask.flags) == Centre(a, trail) && g.exeSet.Keys == Pool(a, trail)
    && (improved <==> exists f :: f in g.exeSet && cost(f) < cost(g.parentTask.flags))
  }

  /** Ask an improving generation for the next one and measure it.  When Next gives none, the
      cheapest task is left as a parent with nothing to try; an empty generation is where Steering stops. */
  method Advance(specs: seq<Spec>, pick: Picker, g: EliminationGeneration, trail: seq<FlagSet>, evaluated: set<FlagSet>)
    returns (h: EliminationGeneration, worst: Task, pool: set<FlagSet>, improved: bool, trips: bool)
    requires Standing(Eliminator(specs, pick), g.cost, trail, evaluated, g, true)
    ensures Standing(Eliminator(specs, pick), g.cost, trail + [worst.flags], evaluated + pool, h, improved)
    ensures trips <==> Trips(Eliminator(specs, pick), trail + [worst.flags])
    ensures trips ==> !improved
  {
    hide Weight, Baseline, Seeds;
    ghost var a := Eliminator(specs, pick);
    var next;
    worst, next := g.Next(evaluated, pick);
    assert Chooses(a, g.cost, trail, worst.flags);
    Extend(a, g.cost, trail, worst.flags);
    pool := if next.None? then {} else next.value;
    trips := next == Some({});
    EliminatorProper(specs, pick);
    assert pool == Children(worst.flags, pick) - evaluated;
    h := Measure(pool, worst, g.cost);
    improved := h.IsImproved();
  }

  /** What a settled run of elimination has found. */
  lemma SettledElimination(specs: seq<Spec>, pick: Picker, cost: FlagSet -> real, trail: seq<FlagSet>)
    requires Draws(pick) && Settles(Eliminator(specs, pick), cost, trail)
    ensures var best, evaluated := Centre(Eliminator(specs, pick), trail).value, Evaluated(Eliminator(specs, pick), trail);
            && best in evaluated && Cheapest(cost, best, evaluated)
            && (WideRanges(specs) ==>
                  && Children(best, pick) <= evaluated && !Trips(Eliminator(specs, pick), trail)
                  && Weight(Baseline(specs)) >= 0 && |evaluated| <= 1 + Triangle(Weight(Baseline(specs))))
  {
    hide Weight, Baseline, Seeds, Triangle, Children, Chooses, Cheapest;
    EliminatorProper(specs, pick);
    SettledIsCheapest(Eliminator(specs, pick), cost, trail);
    if WideRanges(specs) {
      EliminationBound(specs, pick, cost, trail);
      EliminationNeverTrips(specs, pick, cost, trail);
      TrailSize(specs, pick, cost, trail);
      if trail == [] { SeedsAreChildren(specs, pick); }
    }
  }

  /** The run of the algorithm as the loop carries it out: each generation is measured as a whole, then
      asked whether it improves, then asked for the next one.

      For all ranges and all draws it ends, at the cheapest flag set ever measured.  With wide ranges no single
      decrease improves that one, no generation is empty, and there are at most 1 + w(w+1)/2 tasks for a baseline of
      weight w, which is the number of flags when all of them are boolean. */
  method Eliminate(specs: seq<Spec>, pick: Picker, cost: FlagSet -> real)
    returns (trail: seq<FlagSet>, evaluated: set<FlagSet>, trips: bool)
    requires ValidRanges(specs) && Draws(pick)
    ensures Settles(Eliminator(specs, pick), cost, trail) && evaluated == Evaluated(Eliminator(specs, pick), trail)
    ensures trips <==> Trips(Eliminator(specs, pick), trail)
    ensures var best := Centre(Eliminator(specs, pick), trail).value;
            && best in evaluated && Cheapest(cost, best, evaluated)
            && (WideRanges(specs) ==>
                  && Children(best, pick) <= evaluated && !trips
                  && Weight(Baseline(specs)) >= 0 && |evaluated| <= 1 + Triangle(Weight(Baseline(specs))))
  {
    hide Weight, Triangle, Children, Chooses, Draws, Confined, Cheapest, Trips;
    ghost var a := Eliminator(specs, pick);
    ghost var hi := EliminatorConfined(specs, pick);
    trail, evaluated, trips := [], Seeds(specs, pick), false;
    var g := new EliminationGeneration(CostedPool(cost, evaluated), Fresh(Baseline(specs)), cost);
    assert g.exeSet.Keys == evaluated;
    var improved := g.FirstIsImproved();
    NoTripYet(a);
    while improved
      invariant Standing(a, cost, trail, evaluated, g, improved) && trips == Trips(a, trail)
      decreases |Universe(Keys(specs), 0, hi)| - |trail|
    {
      var worst, pool;
      g, worst, pool, improved, trips := Advance(specs, pick, g, trail, evaluated);
      trail, evaluated := trail + [worst.flags], evaluated + pool;
      TrailIsAWalk(a, cost, trail);
      WalkBound(a, trail, Keys(specs), 0, hi);
    }
    ImprovesIff(a, cost, trail);
    SettledElimination(specs, pick, cost, trail);
  }

  lemma NoTripYet(a: Algorithm)
    ensures !Trips(a, [])
  {
  }

  /** For boolean flags the bound is quadratic in the number of flags. */
  lemma BooleanBound(specs: seq<Spec>)
    requires forall spec | spec in specs :: spec.Boolean?
    ensures var n := |Baseline(specs)|; Weight(Baseline(specs)) == n && 2 * Triangle(n) == n * (n + 1)
  {
    WeightBoundsSize(Baseline(specs));
    TriangleFormula(|Baseline(specs)|);
  }
}
