/** When elimination makes an empty generation, at which Steering stops.

    The first generation lowers a flag with a one-value range to below its range.  From there it is not turned off
    but lowered to zero, and then its value is drawn anew from its range: so a flag set that has been tried can come
    up again.  This module shows for which specifications such a run can end with nothing untried. */
module EliminationTrips {
  import opened Tasks
  import opened Searches
  import opened FlagSpace
  import opened Elimination

  /** A range of one value. */
  predicate OneValue(b: Spec) {
    b.Numeric? && b.end == b.start + 1
  }

  // ---------- the way down ----------

  /** How many decreases of one flag are left at most: below its range it still has to come back to it. */
  function Rung(b: Spec, fs: FlagSet): int
    requires b.Numeric?
  {
    if b !in fs then 0 else if fs[b] >= b.start then fs[b] - b.start + 1 else fs[b] + 3
  }

  /** The weight of the other flags. */
  ghost function Rest(b: Spec, fs: FlagSet): int {
    Weight(fs - {b})
  }

  ghost function Height(b: Spec, fs: FlagSet): int
    requires b.Numeric?
  {
    Rest(b, fs) + Rung(b, fs)
  }

  predicate OnLadder(b: Spec, fs: FlagSet)
    requires b.Numeric?
  {
    AboveStart(fs - {b}) && (b in fs ==> 0 <= fs[b] <= b.start + 1)
  }

  /** Another flag is lowered: its own weight falls by one, and the flag itself stays. */
  lemma OtherStep(b: Spec, fs: FlagSet, spec: Spec, pick: Picker)
    requires OneValue(b) && OnLadder(b, fs) && spec in fs && spec != b
    ensures var d := DecreaseFlag(fs, spec, pick);
            && OnLadder(b, d) && Rest(b, d) == Rest(b, fs) - 1 && Rung(b, d) == Rung(b, fs)
            && (b in d <==> b in fs) && (b in fs ==> d[b] == fs[b])
  {
    var d, others := DecreaseFlag(fs, spec, pick), fs - {b};
    assert spec in others && others[spec] == fs[spec];
    assert d - {b} == DecreaseFlag(others, spec, pick);
    DecreaseWeight(others, spec, pick);
  }

  /** The flag itself is lowered: one rung down, or two when it is drawn at its lowest. */
  lemma OwnStep(b: Spec, fs: FlagSet, pick: Picker)
    requires OneValue(b) && OnLadder(b, fs) && b in fs && Draws(pick)
    ensures var d := DecreaseFlag(fs, b, pick);
            && d - {b} == fs - {b} && OnLadder(b, d) && Rung(b, fs) - 2 <= Rung(b, d) <= Rung(b, fs) - 1
  {
    assert b.start <= pick(fs, b) <= b.end;
    assert DecreaseFlag(fs, b, pick) - {b} == fs - {b};
  }

  lemma ChildHeight(b: Spec, fs: FlagSet, d: FlagSet, pick: Picker)
    requires OneValue(b) && OnLadder(b, fs) && Draws(pick) && d in Children(fs, pick)
    ensures OnLadder(b, d) && Height(b, fs) - 2 <= Height(b, d) <= Height(b, fs) - 1
    ensures (d == Own(b, fs, pick) && Rest(b, d) == Rest(b, fs)) || (Rest(b, d) == Rest(b, fs) - 1 && Height(b, d) == Height(b, fs) - 1)
    ensures Rest(b, d) == Rest(b, fs) ==> d - {b} == fs - {b}
  {
    hide Weight, Draws, OnLadder, Rung, DecreaseFlag;
    var spec :| spec in fs && d == DecreaseFlag(fs, spec, pick);
    if spec == b { OwnStep(b, fs, pick); } else { OtherStep(b, fs, spec, pick); }
  }

  /** The flag set with the flag itself lowered, if it is on. */
  function Own(b: Spec, fs: FlagSet, pick: Picker): FlagSet {
    if b in fs then DecreaseFlag(fs, b, pick) else fs
  }

  // ---------- walks down the ladder ----------

  /** A walk of the algorithm that starts with a flag set on the ladder. */
  ghost predicate Descent(specs: seq<Spec>, b: Spec, pick: Picker, walk: seq<FlagSet>) {
    && OneValue(b) && Draws(pick) && walk != [] && IsWalk(Eliminator(specs, pick), walk) && OnLadder(b, walk[0])
  }

  lemma {:induction false} DescentAt(specs: seq<Spec>, b: Spec, pick: Picker, walk: seq<FlagSet>, n: nat)
    requires Descent(specs, b, pick, walk) && n < |walk|
    ensures OnLadder(b, walk[n])
    ensures n > 0 ==> walk[n] in Children(walk[n - 1], pick)
  {
    hide OnLadder, Draws, Children, Seeds;
    if n > 0 {
      DescentAt(specs, b, pick, walk, n - 1);
      WalkAt(Eliminator(specs, pick), walk, n);
      ChildHeight(b, walk[n - 1], walk[n], pick);
    }
  }

  lemma {:induction false} DescentFalls(specs: seq<Spec>, b: Spec, pick: Picker, walk: seq<FlagSet>, m: nat, n: nat)
    requires Descent(specs, b, pick, walk) && m <= n < |walk|
    ensures Height(b, walk[n]) <= Height(b, walk[m]) - (n - m) && Rest(b, walk[n]) <= Rest(b, walk[m])
    ensures Rest(b, walk[n]) == Rest(b, walk[m]) ==> walk[n] - {b} == walk[m] - {b}
  {
    hide OnLadder, Draws, Children, Seeds, Descent, Height, Rest;
    if m < n {
      DescentFalls(specs, b, pick, walk, m, n - 1);
      DescentKept(specs, b, pick, walk);
      DescentAt(specs, b, pick, walk, n - 1);
      DescentAt(specs, b, pick, walk, n);
      ChildHeight(b, walk[n - 1], walk[n], pick);
    }
  }

  lemma DescentKept(specs: seq<Spec>, b: Spec, pick: Picker, walk: seq<FlagSet>)
    requires Descent(specs, b, pick, walk)
    ensures OneValue(b) && Draws(pick) && walk != [] && IsWalk(Eliminator(specs, pick), walk)
  {
  }

  /** Two centres of a descent have no child in common. */
  lemma NoCommonChild(specs: seq<Spec>, b: Spec, pick: Picker, walk: seq<FlagSet>, m: nat, n: nat, d: FlagSet)
    requires Descent(specs, b, pick, walk) && m < n < |walk| && d in Children(walk[m], pick)
    ensures d !in Children(walk[n], pick)
  {
    hide OnLadder, Draws, Children, Seeds, Descent, Rest, Rung, Own;
    DescentKept(specs, b, pick, walk);
    DescentAt(specs, b, pick, walk, m);
    DescentAt(specs, b, pick, walk, m + 1);
    DescentAt(specs, b, pick, walk, n);
    DescentFalls(specs, b, pick, walk, m + 1, n);
    ChildHeight(b, walk[m], d, pick);
    ChildHeight(b, walk[m], walk[m + 1], pick);
    if d in Children(walk[n], pick) {
      ChildHeight(b, walk[n], d, pick);
    }
  }

  /** So what a descent drops as already tried was among the seeds. */
  lemma DescentPool(specs: seq<Spec>, b: Spec, pick: Picker, walk: seq<FlagSet>)
    requires Descent(specs, b, pick, walk)
    ensures Pool(Eliminator(specs, pick), walk) == Children(walk[|walk| - 1], pick) - Seeds(specs, pick)
  {
    hide OnLadder, Draws, Children, Seeds, Descent, IsWalk;
    DescentKept(specs, b, pick, walk);
    var a, n := Eliminator(specs, pick), |walk| - 1;
    forall d | d in Children(walk[n], pick) && d in Evaluated(a, walk[..n]) ensures d in Seeds(specs, pick) {
      if d !in a.seeds {
        var m := EvaluatedFrom(a, walk[..n], d);
        NoCommonChild(specs, b, pick, walk, m, n, d);
      }
    }
    forall d | d in Seeds(specs, pick) ensures d in Evaluated(a, walk[..n]) { SeedsEvaluated(a, walk[..n]); }
  }

  lemma {:induction false} SeedsEvaluated(a: Algorithm, walk: seq<FlagSet>)
    ensures a.seeds <= Evaluated(a, walk)
  {
    if walk != [] { SeedsEvaluated(a, walk[..|walk| - 1]); }
  }

  // ---------- it trips only there ----------

  /** One flag has a range of one value, and beside it there is at most one flag, which is boolean. */
  predicate Lonely(specs: seq<Spec>, b: Spec) {
    && b in specs && OneValue(b)
    && (Keys(specs) == {b} || exists x | x in specs :: x.Boolean? && Keys(specs) == {b, x})
  }

  /** The first generation holds the flag at its one value, except where it is the flag that was lowered. */
  lemma SeedsNearTop(specs: seq<Spec>, b: Spec, pick: Picker, d: FlagSet)
    requires ValidRanges(specs) && Draws(pick) && b in specs && OneValue(b) && d in Seeds(specs, pick)
    ensures b in d && (d - {b} == Baseline(specs) - {b} || (d[b] == b.start && Rest(b, d) >= Rest(b, Baseline(specs)) - 1))
  {
    hide Weight, Baseline, InitialFlags, Draws, ValidRanges, OnLadder;
    NumericSeeds(specs, b, pick);
    if d != Baseline(specs) {
      var spec :| spec in specs && d == InitialFlags(specs, spec, pick);
      if spec == b {
        LowSeedOnLadder(specs, b, pick);
      } else {
        OtherSeed(specs, b, spec, pick);
      }
    }
  }

  lemma OtherSeed(specs: seq<Spec>, b: Spec, spec: Spec, pick: Picker)
    requires ValidRanges(specs) && Draws(pick) && b in specs && OneValue(b) && spec in specs && spec != b
    ensures var d := InitialFlags(specs, spec, pick);
            b in d && d[b] == b.start && Rest(b, d) >= Rest(b, Baseline(specs)) - 1
  {
    var base, d := Baseline(specs), InitialFlags(specs, spec, pick);
    var others := base - {b};
    WeightSplit(others, spec);
    assert spec.Numeric? ==> spec.start <= pick(base, spec) <= spec.end;
    if spec.Boolean? {
      assert d - {b} == others - {spec};
    } else {
      WeightSplit(d - {b}, spec);
      assert d - {b} - {spec} == others - {spec};
    }
  }

  /** A seed that has nothing on but the flag shows that there was at most one boolean flag beside it. */
  lemma BareSeed(specs: seq<Spec>, b: Spec, pick: Picker, d: FlagSet)
    requires b in specs && OneValue(b) && d in Seeds(specs, pick) && d.Keys == {b}
    ensures Lonely(specs, b)
  {
    if d == Baseline(specs) {
      assert Keys(specs) == d.Keys;
    } else {
      var spec :| spec in specs && d == InitialFlags(specs, spec, pick);
      if spec.Boolean? {
        assert Keys(specs) == d.Keys + {spec};
      } else {
        assert Keys(specs) == d.Keys;
      }
    }
  }

  lemma LowSeedOnLadder(specs: seq<Spec>, b: Spec, pick: Picker)
    requires ValidRanges(specs) && Draws(pick) && b in specs && OneValue(b)
    ensures OnLadder(b, InitialFlags(specs, b, pick)) && InitialFlags(specs, b, pick) - {b} == Baseline(specs) - {b}
  {
    assert b.start <= pick(Baseline(specs), b) <= b.end;
    assert InitialFlags(specs, b, pick) - {b} == Baseline(specs) - {b};
  }

  /** While another flag is on, lowering that one is untried. */
  lemma OtherIsUntried(specs: seq<Spec>, b: Spec, pick: Picker, walk: seq<FlagSet>, spec: Spec)
    requires ValidRanges(specs) && b in specs && Descent(specs, b, pick, walk) && walk[0] - {b} == Baseline(specs) - {b}
    requires var last := walk[|walk| - 1]; spec in last && spec != b && last != Baseline(specs)
    ensures DecreaseFlag(walk[|walk| - 1], spec, pick) !in Seeds(specs, pick)
  {
    hide Weight, OnLadder, Draws, Children, Seeds, DecreaseFlag, Rung, ValidRanges, IsWalk, Baseline;
    var base, last := Baseline(specs), walk[|walk| - 1];
    var d := DecreaseFlag(last, spec, pick);
    DescentAt(specs, b, pick, walk, |walk| - 1);
    DescentFalls(specs, b, pick, walk, 0, |walk| - 1);
    OtherStep(b, last, spec, pick);
    if d in Seeds(specs, pick) {
      SeedsNearTop(specs, b, pick, d);
      AtTheTop(specs, b, last);
    }
  }

  lemma AtTheTop(specs: seq<Spec>, b: Spec, fs: FlagSet)
    requires b in specs && OneValue(b)
    ensures fs - {b} == Baseline(specs) - {b} && b in fs && fs[b] == b.start ==> fs == Baseline(specs)
  {
    var base := Baseline(specs);
    if fs - {b} == base - {b} && b in fs && fs[b] == b.start {
      forall spec ensures spec in fs <==> spec in base { assert spec in fs - {b} <==> spec in base - {b}; }
      forall spec | spec in fs ensures fs[spec] == base[spec] {
        if spec != b { assert (fs - {b})[spec] == (base - {b})[spec]; }
      }
    }
  }

  lemma {:induction false} CheaperThanParent(a: Algorithm, cost: FlagSet -> real, trail: seq<FlagSet>)
    requires IsTrail(a, cost, trail) && trail != [] && a.parent.Some?
    ensures cost(trail[|trail| - 1]) < cost(a.parent.value)
  {
    if |trail| > 1 { CheaperThanParent(a, cost, trail[..|trail| - 1]); }
  }

  lemma LowStartTrips(specs: seq<Spec>, b: Spec, pick: Picker, cost: FlagSet -> real, trail: seq<FlagSet>)
    requires ValidRanges(specs) && Draws(pick) && IsTrail(Eliminator(specs, pick), cost, trail) && Trips(Eliminator(specs, pick), trail)
    requires b in specs && OneValue(b) && trail[0] == InitialFlags(specs, b, pick)
    ensures Lonely(specs, b)
  {
    hide Weight, OnLadder, Draws, Children, Seeds, DecreaseFlag, ValidRanges, Baseline, InitialFlags, Cheapest, Lonely;
    var a, last := Eliminator(specs, pick), trail[|trail| - 1];
    TrailIsAWalk(a, cost, trail);
    LowSeedOnLadder(specs, b, pick);
    CheaperThanParent(a, cost, trail);
    DescentPool(specs, b, pick, trail);
    assert last != map[] && last != Baseline(specs);
    assert Children(last, pick) - Seeds(specs, pick) == {};
    assert forall d | d in Children(last, pick) :: d in Seeds(specs, pick) by {
      assert forall d | d in Children(last, pick) && d !in Seeds(specs, pick) :: d in Children(last, pick) - Seeds(specs, pick);
    }
    if spec :| spec in last && spec != b {
      OtherIsUntried(specs, b, pick, trail, spec);
      IsChild(last, spec, pick);
    } else {
      OnlyOne(last, b);
      IsChild(last, b, pick);
      var d := DecreaseFlag(last, b, pick);
      SeedsNearTop(specs, b, pick, d);
      LoweredKeys(last, b, pick);
      BareSeed(specs, b, pick, d);
    }
  }

  lemma IsChild(fs: FlagSet, spec: Spec, pick: Picker)
    requires spec in fs
    ensures DecreaseFlag(fs, spec, pick) in Children(fs, pick)
  {
  }

  lemma OnlyOne(fs: FlagSet, b: Spec)
    requires fs != map[] && forall spec | spec in fs :: spec == b
    ensures b in fs && fs.Keys == {b}
  {
    assert fs.Keys != {};
    var spec :| spec in fs.Keys;
  }

  lemma LoweredKeys(fs: FlagSet, b: Spec, pick: Picker)
    requires b in fs && fs.Keys == {b}
    ensures b in DecreaseFlag(fs, b, pick) ==> DecreaseFlag(fs, b, pick).Keys == {b}
  {
  }

  /** A run that ends at an empty generation has lowered a flag with a range of one value beside which there was at
      most one flag, a boolean one. */
  lemma TripsOnlyIfLonely(specs: seq<Spec>, pick: Picker, cost: FlagSet -> real, trail: seq<FlagSet>) returns (b: Spec)
    requires ValidRanges(specs) && Draws(pick) && IsTrail(Eliminator(specs, pick), cost, trail) && Trips(Eliminator(specs, pick), trail)
    ensures Lonely(specs, b)
  {
    hide Draws, Children, DecreaseFlag, InitialFlags, Baseline, Lonely, Cheapest;
    FirstChoice(Eliminator(specs, pick), cost, trail);
    b :| b in specs && trail[0] == InitialFlags(specs, b, pick);
    if OneValue(b) {
      LowStartTrips(specs, b, pick, cost, trail);
    } else {
      SeedIsChild(specs, b, pick);
      assert b in Baseline(specs) by { InBaseline(specs, b); }
      IsChild(Baseline(specs), b, pick);
      DownNeverTrips(specs, pick, cost, trail);
    }
  }

  lemma InBaseline(specs: seq<Spec>, b: Spec)
    requires b in specs
    ensures b in Baseline(specs)
  {
  }

  // ---------- and there it can ----------

  /** Draws the lowest value, or the highest where the lowest is zero. */
  function Unlucky(): Picker {
    (fs: FlagSet, spec: Spec) => if spec.Boolean? then 0 else if spec.start == 0 then spec.end else spec.start
  }

  lemma UnluckyDraws()
    ensures Draws(Unlucky())
  {
  }

  function Bare(b: Spec, v: int): FlagSet {
    map[b := v]
  }

  /** A value that the flag can have been lowered or drawn to. */
  predicate Low(b: Spec, v: int)
    requires b.Numeric?
  {
    if b.start == 0 then v == 1 else 0 <= v < b.start
  }

  /** The flag is on, and not at its one value. */
  predicate Off(b: Spec, walk: seq<FlagSet>) {
    b.Numeric? && forall f | f in walk :: b in f && f[b] != b.start
  }

  lemma BareChild(b: Spec, v: int)
    requires OneValue(b) && Low(b, v)
    ensures var d := DecreaseFlag(Bare(b, v), b, Unlucky());
            Children(Bare(b, v), Unlucky()) == {d} && d == Bare(b, if v == 0 || b.start == 0 then b.start else v - 1)
  {
    assert Bare(b, v).Keys == {b};
  }

  /** The flag alone at its one value is among the seeds. */
  lemma BareStartIsSeed(specs: seq<Spec>, b: Spec, pick: Picker)
    requires Lonely(specs, b)
    ensures Bare(b, b.start) in Seeds(specs, pick)
  {
    if Keys(specs) == {b} {
      assert Baseline(specs) == Bare(b, b.start) by {
        assert forall spec :: spec in specs <==> spec in Keys(specs);
      }
    } else {
      var x :| x in specs && x.Boolean? && Keys(specs) == {b, x};
      assert InitialFlags(specs, x, pick) == Bare(b, b.start) by {
        assert forall spec :: spec in specs <==> spec in Keys(specs);
      }
    }
  }

  lemma SeedValue(specs: seq<Spec>, b: Spec, pick: Picker, d: FlagSet)
    requires b in specs && OneValue(b) && d in Seeds(specs, pick)
    ensures b in d && (d[b] == b.start || d[b] == InitialFlags(specs, b, pick)[b])
  {
    forall other | other != b ensures b in InitialFlags(specs, other, pick) && InitialFlags(specs, other, pick)[b] == b.start { }
    BaselineAtStart(specs, b);
    NumericSeeds(specs, b, pick);
    hide InitialFlags, Baseline;
    assert d == Baseline(specs) || exists other :: other in specs && d == InitialFlags(specs, other, pick);
  }

  lemma FirstLow(specs: seq<Spec>, b: Spec)
    requires b in specs && OneValue(b)
    ensures var f := InitialFlags(specs, b, Unlucky()); b in f && f[b] == (if b.start == 0 then 1 else b.start - 1)
    ensures InitialFlags(specs, b, Unlucky()) in Seeds(specs, Unlucky())
  {
  }

  lemma Longer(specs: seq<Spec>, b: Spec, pick: Picker, walk: seq<FlagSet>, f: FlagSet)
    requires Descent(specs, b, pick, walk) && f in Children(walk[|walk| - 1], pick) && f !in Seeds(specs, pick)
    ensures Descent(specs, b, pick, walk + [f])
  {
    hide OnLadder, Draws, Children, Seeds;
    DescentPool(specs, b, pick, walk);
    assert (walk + [f])[..|walk|] == walk;
  }

  /** With only that flag on the walk goes down to where a draw brings back a seed. */
  lemma {:induction false} ToTheEnd(specs: seq<Spec>, b: Spec, walk: seq<FlagSet>, v: int) returns (long: seq<FlagSet>)
    requires Lonely(specs, b) && Descent(specs, b, Unlucky(), walk) && walk[|walk| - 1] == Bare(b, v) && Low(b, v) && Off(b, walk)
    ensures IsWalk(Eliminator(specs, Unlucky()), long) && long != [] && Pool(Eliminator(specs, Unlucky()), long) == {} && Off(b, long)
    decreases v
  {
    hide OnLadder, Draws, Children, Seeds, DecreaseFlag, Unlucky, Lonely, InitialFlags;
    long := walk;
    var pick, n := Unlucky(), |walk| - 1;
    LonelyHas(specs, b);
    DescentPool(specs, b, pick, walk);
    BareChild(b, v);
    if v == 0 || b.start == 0 {
      BareStartIsSeed(specs, b, pick);
    } else {
      var f := Bare(b, v - 1);
      FirstLow(specs, b);
      if f in Seeds(specs, pick) { SeedValue(specs, b, pick, f); }
      Longer(specs, b, pick, walk, f);
      long := ToTheEnd(specs, b, walk + [f], v - 1);
    }
  }

  lemma LonelyHas(specs: seq<Spec>, b: Spec)
    requires Lonely(specs, b)
    ensures b in specs && OneValue(b)
  {
  }

  /** From the seed that lowers the flag there is a way to that flag alone. */
  lemma ToBare(specs: seq<Spec>, b: Spec) returns (walk: seq<FlagSet>, v: int)
    requires ValidRanges(specs) && Lonely(specs, b)
    ensures Descent(specs, b, Unlucky(), walk) && walk[|walk| - 1] == Bare(b, v) && Low(b, v) && Off(b, walk)
  {
    var pick := Unlucky();
    var first := InitialFlags(specs, b, pick);
    UnluckyDraws();
    FirstLow(specs, b);
    LowSeedOnLadder(specs, b, pick);
    walk, v := [first], first[b];
    assert walk[..0] == [];
    assert Descent(specs, b, pick, walk);
    assert forall spec :: spec in specs <==> spec in Keys(specs);
    if Keys(specs) == {b} {
      assert first == Bare(b, v);
    } else {
      var x :| x in specs && x.Boolean? && Keys(specs) == {b, x};
      var f := Bare(b, v);
      WithoutOther(first, b, x, pick);
      assert first.Keys == {b, x};
      assert x in Baseline(specs) - {b} && x !in f - {b};
      if f in Seeds(specs, pick) { SeedsNearTop(specs, b, pick, f); }
      Longer(specs, b, pick, walk, f);
      walk := walk + [f];
    }
  }

  lemma WithoutOther(fs: FlagSet, b: Spec, x: Spec, pick: Picker)
    requires b in fs && x in fs && x.Boolean? && b != x
    ensures fs.Keys == {b, x} ==> Bare(b, fs[b]) in Children(fs, pick)
  {
    if fs.Keys == {b, x} {
      assert DecreaseFlag(fs, x, pick) == Bare(b, fs[b]);
      IsChild(fs, x, pick);
    }
  }

  /** Such a run: the cheaper the further down the walk, it ends at an empty generation. */
  lemma LonelyTrips(specs: seq<Spec>, b: Spec) returns (pick: Picker, cost: FlagSet -> real, trail: seq<FlagSet>)
    requires ValidRanges(specs) && Lonely(specs, b)
    ensures Draws(pick) && IsTrail(Eliminator(specs, pick), cost, trail) && Trips(Eliminator(specs, pick), trail)
  {
    hide OnLadder, Children, Seeds, DecreaseFlag, Unlucky, Lonely, Draws, Descent;
    var walk, v := ToBare(specs, b);
    UnluckyDraws();
    pick := Unlucky();
    trail := ToTheEnd(specs, b, walk, v);
    cost := Downhill(trail);
    LonelyHas(specs, b);
    BaselineAtStart(specs, b);
    WalkIsTrail(Eliminator(specs, pick), trail, |trail|);
    assert trail[..|trail|] == trail;
    assert trail[|trail| - 1] in trail;
  }

  lemma BaselineAtStart(specs: seq<Spec>, b: Spec)
    requires b in specs && OneValue(b)
    ensures b in Baseline(specs) && Baseline(specs)[b] == b.start
  {
  }

  /** Some run, with some cost and some draws, ends at an empty generation. */
  ghost predicate CanTrip(specs: seq<Spec>) {
    exists pick, cost, trail :: Draws(pick) && IsTrail(Eliminator(specs, pick), cost, trail) && Trips(Eliminator(specs, pick), trail)
  }

  /** Elimination can meet the assertion on an empty generation if and only if some flag has a range of one value and
      beside it there is at most one flag, a boolean one. */
  lemma TripsIffLonely(specs: seq<Spec>)
    requires ValidRanges(specs)
    ensures CanTrip(specs) <==> exists b | b in specs :: Lonely(specs, b)
  {
    hide Lonely, Draws, Eliminator, IsTrail, Trips;
    if CanTrip(specs) {
      var pick, cost, trail :| Draws(pick) && IsTrail(Eliminator(specs, pick), cost, trail) && Trips(Eliminator(specs, pick), trail);
      var b := TripsOnlyIfLonely(specs, pick, cost, trail);
      LonelyHas(specs, b);
    }
    if b :| b in specs && Lonely(specs, b) {
      var pick, cost, trail := LonelyTrips(specs, b);
    }
  }
}
