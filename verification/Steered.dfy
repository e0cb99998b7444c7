/** The search algorithms at the wheel of the feedback loop: what a whole tuning run does, over all interleavings of
    its processes. */
module Steered {
  import opened Tasks
  import opened Stage
  import opened StageRuns
  import opened Generations
  import opened Loop
  import opened LoopRuns
  import opened LoopTheorems
  import opened Searches
  import opened FlagSpace
  import S = LoopStalls
  import E = Elimination
  import T = EliminationTrips
  import H = HillClimbing

  function CostOf(c: Commands): FlagSet -> real {
    (f: FlagSet) => Cost(c, f)
  }

  /** What an algorithm makes of a complete generation: nothing if it does not improve; otherwise a new centre, and
      the generation of its untried flag sets unless it quits. */
  ghost predicate Answers(c: Commands, a: Algorithm, cache: set<FlagSet>, trail: seq<FlagSet>, children: seq<Gen>, trail': seq<FlagSet>) {
    || (trail' == trail && children == [] && forall f :: !Chooses(a, CostOf(c), trail, f))
    || (exists f :: Chooses(a, CostOf(c), trail, f) && trail' == trail + [f] && children == NextGenerations(a, f, cache))
  }

  function NextGenerations(a: Algorithm, f: FlagSet, cache: set<FlagSet>): seq<Gen> {
    if a.quits(f) then [] else [NewGen(a.next(f) - cache)]
  }

  ghost predicate Completing(s: Loop, l: Label) {
    l.Receive? && s.toSteer != [] && Completes(s)
  }

  /** The move is one the algorithm agrees with. */
  ghost predicate Follows(c: Commands, a: Algorithm, s: Loop, trail: seq<FlagSet>, l: Label, trail': seq<FlagSet>) {
    if Completing(s, l) then Answers(c, a, s.steering.cache, trail, l.children, trail') else trail' == trail
  }

  function OutFlags(outbox: seq<Task>): set<FlagSet> {
    set t | t in outbox :: t.flags
  }

  /** How the loop and the search go together: what has been sent or is about to be is what the search has evaluated,
      the one waiting generation is the pool of the search, and Steering has failed exactly when the search trips. */
  ghost predicate InStep(c: Commands, a: Algorithm, st: Steering, trail: seq<FlagSet>) {
    && IsTrail(a, CostOf(c), trail)
    && st.cache + OutFlags(st.outbox) == Evaluated(a, trail)
    && (st.waiting != [] ==> |st.waiting| == 1 && st.waiting[0].pool.Keys == Pool(a, trail) && Pool(a, trail) != {} && !st.status.Failing?)
    && (st.waiting == [] ==> st.outbox == [] && Settles(a, CostOf(c), trail) && (st.status.Failing? <==> Trips(a, trail)))
  }

  // ---------- one move ----------

  lemma OutFlagsHead(outbox: seq<Task>)
    requires outbox != []
    ensures OutFlags(outbox) == {outbox[0].flags} + OutFlags(outbox[1..])
  {
    assert forall t | t in outbox :: t == outbox[0] || t in outbox[1..];
  }

  lemma OutFlagsFresh(order: seq<FlagSet>)
    ensures OutFlags(FreshTasks(order)) == set f | f in order
  {
    forall f | f in order ensures f in OutFlags(FreshTasks(order)) {
      var j :| 0 <= j < |order| && order[j] == f;
      assert FreshTasks(order)[j] == Fresh(f);
    }
  }

  /** A complete generation has been measured as a whole, so it is judged by the costs of its flags. */
  lemma CompleteIsMeasured(c: Commands, s: Loop)
    requires LoopInv(c, s) && s.steering.status.Running? && s.toSteer != [] && Completes(s)
    ensures var t := s.toSteer[0].task; var g := Updated(s.steering.waiting[Owner(s.steering.waiting, t.flags)], t);
            && g.pending == 0
            && forall f | f in g.pool ::
                 var built := c.compile(c.format(f));
                 g.pool[f] == Task(f, Some(built), Some(c.run(built.checksum))) && g.pool[f].exe == Some(CostOf(c)(f))
  {
    hide StageInv, Shapes, Conserved, PillPassed, Places;
    ExactlyOneAccepts(c, s);
    var w, t := s.steering.waiting, s.toSteer[0].task;
    var g := w[Owner(w, t.flags)];
    UpdateAccounted(c, g, t.flags);
    forall f | f in g.pool ensures Updated(g, t).pool[f] == TestedTask(c, f) {
      assert f !in Unreturned(Updated(g, t).pool);
    }
    forall f ensures var built := c.compile(c.format(f));
                     TestedTask(c, f) == Task(f, Some(built), Some(c.run(built.checksum))) && TestedTask(c, f).exe == Some(Cost(c, f))
    {
      TestedTaskCost(c, f);
    }
  }

  /** Steering after it has received the last task of the one waiting generation. */
  lemma Completed(c: Commands, s: Loop, children: seq<Gen>, order: seq<FlagSet>)
    requires LoopInv(c, s) && Can(s, Receive(children, order)) && Completes(s) && |s.steering.waiting| == 1
    ensures Received(s.steering, s.toSteer[0], children, order) == WithChildren(s.steering, children, order)
  {
    hide StageInv, Shapes, Conserved, PillPassed;
    ExactlyOneAccepts(c, s);
    var w := s.steering.waiting;
    assert RemoveAt(w, 0) + Live(children) == Live(children);
  }

  lemma PoolFlagsOfOne(flags: set<FlagSet>)
    ensures PoolFlags([NewGen(flags)]) == flags && PoolFlags([]) == {}
    ensures NewGen(flags).pool == map[] <==> flags == {}
  {
    assert NewGen(flags).pool.Keys == flags;
    assert forall f | f in flags :: f in [NewGen(flags)][0].pool;
    if flags == {} { assert NewGen(flags).pool == map[]; }
  }

  lemma EmptyOrder(order: seq<FlagSet>)
    requires Enumerates(order, {})
    ensures order == []
  {
    S.OrderSize(order, {});
  }

  /** Steering with the new generations. */
  function WithChildren(st: Steering, children: seq<Gen>, order: seq<FlagSet>): Steering {
    st.(waiting := Live(children), outbox := FreshTasks(order), status := if Live(children) == children then Running else Failing)
  }

  lemma OrderIs(order: seq<FlagSet>, flags: set<FlagSet>)
    requires Enumerates(order, flags)
    ensures |order| == |flags| && OutFlags(FreshTasks(order)) == flags
  {
    S.OrderSize(order, flags);
    OutFlagsFresh(order);
  }

  lemma OneChild(st: Steering, pool: set<FlagSet>, order: seq<FlagSet>)
    requires Enumerates(order, PoolFlags(Live([NewGen(pool)])))
    ensures NewGen(pool).pool.Keys == pool && |order| == |pool| && OutFlags(FreshTasks(order)) == pool
    ensures WithChildren(st, [NewGen(pool)], order) ==
            if pool == {} then st.(waiting := [], outbox := [], status := Failing)
            else st.(waiting := [NewGen(pool)], outbox := FreshTasks(order), status := Running)
  {
    hide Enumerates;
    PoolFlagsOfOne(pool);
    assert Live([NewGen(pool)]) == if pool == {} then [] else [NewGen(pool)];
    OrderIs(order, pool);
  }

  lemma NoChild(st: Steering, order: seq<FlagSet>)
    requires Enumerates(order, PoolFlags(Live([])))
    ensures order == [] && WithChildren(st, [], order) == st.(waiting := [], outbox := [], status := Running)
  {
    PoolFlagsOfOne({});
    EmptyOrder(order);
  }

  /** The search moves on to a new centre. */
  lemma SearchStep(a: Algorithm, cost: FlagSet -> real, trail: seq<FlagSet>, f: FlagSet, cache: set<FlagSet>)
    requires IsTrail(a, cost, trail) && Chooses(a, cost, trail, f) && cache == Evaluated(a, trail)
    ensures IsTrail(a, cost, trail + [f])
    ensures Evaluated(a, trail + [f]) == cache + (a.next(f) - cache) && Pool(a, trail + [f]) == a.next(f) - cache
    ensures a.next(f) - cache == {} ==> Settles(a, cost, trail + [f])
    ensures Trips(a, trail + [f]) <==> !a.quits(f) && a.next(f) - cache == {}
  {
    hide Chooses;
    Extend(a, cost, trail, f);
    if a.next(f) - cache == {} { NothingChosen(a, cost, trail + [f]); }
  }

  lemma QuittingCentre(c: Commands, a: Algorithm, st: Steering, trail: seq<FlagSet>, f: FlagSet, order: seq<FlagSet>)
    requires Proper(a) && InStep(c, a, st, trail) && st.outbox == [] && Chooses(a, CostOf(c), trail, f) && a.quits(f)
    requires Enumerates(order, PoolFlags(Live([])))
    ensures InStep(c, a, WithChildren(st, [], order), trail + [f]) && order == []
    ensures Evaluated(a, trail + [f]) == Evaluated(a, trail)
  {
    hide Chooses, Enumerates, WithChildren, Live, PoolFlags, IsTrail, Settles, Evaluated, Pool, Trips;
    assert OutFlags([]) == {};
    SearchStep(a, CostOf(c), trail, f, st.cache);
    NoChild(st, order);
  }

  lemma ParentCentre(c: Commands, a: Algorithm, st: Steering, trail: seq<FlagSet>, f: FlagSet, order: seq<FlagSet>)
    requires InStep(c, a, st, trail) && st.outbox == [] && Chooses(a, CostOf(c), trail, f) && !a.quits(f)
    requires Enumerates(order, PoolFlags(Live([NewGen(a.next(f) - st.cache)])))
    ensures InStep(c, a, WithChildren(st, [NewGen(a.next(f) - st.cache)], order), trail + [f])
    ensures |Evaluated(a, trail + [f])| == |Evaluated(a, trail)| + |order|
  {
    hide Chooses, Enumerates, WithChildren, Live, PoolFlags, IsTrail, Settles, Evaluated, Pool, Trips, FreshTasks, NewGen;
    assert OutFlags([]) == {};
    var cache, pool := st.cache, a.next(f) - st.cache;
    SearchStep(a, CostOf(c), trail, f, cache);
    DisjointSize(cache, pool);
    OneChild(st, pool, order);
  }

  lemma DisjointSize(a: set<FlagSet>, b: set<FlagSet>)
    requires a !! b
    ensures |a + b| == |a| + |b|
  {
  }

  /** The new generations of an improving generation, and what Steering does with them. */
  lemma NewCentre(c: Commands, a: Algorithm, st: Steering, trail: seq<FlagSet>, f: FlagSet, order: seq<FlagSet>)
    requires Proper(a) && InStep(c, a, st, trail) && st.outbox == [] && Chooses(a, CostOf(c), trail, f)
    requires Enumerates(order, PoolFlags(Live(NextGenerations(a, f, st.cache))))
    ensures InStep(c, a, WithChildren(st, NextGenerations(a, f, st.cache), order), trail + [f])
    ensures |Evaluated(a, trail + [f])| == |Evaluated(a, trail)| + |order|
  {
    hide Chooses, InStep, Enumerates, WithChildren, Live, PoolFlags, Proper;
    if a.quits(f) {
      QuittingCentre(c, a, st, trail, f, order);
    } else {
      ParentCentre(c, a, st, trail, f, order);
    }
  }

  lemma NothingChosen(a: Algorithm, cost: FlagSet -> real, trail: seq<FlagSet>)
    requires Pool(a, trail) == {}
    ensures forall f :: !Chooses(a, cost, trail, f)
  {
  }

  lemma CompletingStaysInStep(c: Commands, a: Algorithm, s: Loop, trail: seq<FlagSet>, l: Label, trail': seq<FlagSet>)
    requires Proper(a) && LoopInv(c, s) && InStep(c, a, s.steering, trail) && Can(s, l)
    requires Completing(s, l) && Answers(c, a, s.steering.cache, trail, l.children, trail')
    ensures InStep(c, a, Go(c, s, l).steering, trail') && |Evaluated(a, trail')| == |Evaluated(a, trail)| + Births(l)
  {
    hide LoopInv, IsTrail, Chooses, Trips, Settles, RespectsCache, WithChildren, Received, Evaluated, Pool, InStep, Live, PoolFlags, Enumerates;
    StillOne(c, a, s.steering, trail);
    Completed(c, s, l.children, l.order);
    if trail' == trail {
      NoChild(s.steering, l.order);
      NotImproved(c, a, s.steering, trail, l);
    } else {
      var f :| Chooses(a, CostOf(c), trail, f) && trail' == trail + [f] && l.children == NextGenerations(a, f, s.steering.cache);
      NewCentre(c, a, s.steering, trail, f, l.order);
    }
  }

  lemma StillOne(c: Commands, a: Algorithm, st: Steering, trail: seq<FlagSet>)
    requires InStep(c, a, st, trail) && st.waiting != []
    ensures |st.waiting| == 1
  {
  }

  lemma NotImproved(c: Commands, a: Algorithm, st: Steering, trail: seq<FlagSet>, l: Label)
    requires InStep(c, a, st, trail) && st.outbox == [] && st.waiting != [] && forall f :: !Chooses(a, CostOf(c), trail, f)
    ensures InStep(c, a, st.(waiting := [], outbox := [], status := Running), trail)
  {
    hide Chooses;
  }

  lemma OtherMovesStayInStep(c: Commands, a: Algorithm, s: Loop, trail: seq<FlagSet>, l: Label)
    requires LoopInv(c, s) && InStep(c, a, s.steering, trail) && Can(s, l) && !Completing(s, l)
    ensures InStep(c, a, Go(c, s, l).steering, trail) && Births(l) == 0
  {
    hide StageInv, Shapes, Conserved, PillPassed, IsTrail, Chooses, Trips, Settles, Enabled, Step;
    match l
    case InBuild(_) =>
    case InTest(_) =>
    case Submit => OutFlagsHead(s.steering.outbox);
    case SendPill =>
    case Receive(_, _) =>
      ExactlyOneAccepts(c, s);
      var w, t := s.steering.waiting, s.toSteer[0].task;
      UpdateAccounted(c, w[Owner(w, t.flags)], t.flags);
  }

  /** Every move of every process that the algorithm agrees with keeps loop and search in step. */
  lemma MoveStaysInStep(c: Commands, a: Algorithm, s: Loop, trail: seq<FlagSet>, l: Label, trail': seq<FlagSet>)
    requires Proper(a) && LoopInv(c, s) && InStep(c, a, s.steering, trail) && Can(s, l) && Follows(c, a, s, trail, l, trail')
    ensures LoopInv(c, Go(c, s, l)) && InStep(c, a, Go(c, s, l).steering, trail')
    ensures |Evaluated(a, trail')| == |Evaluated(a, trail)| + Births(l)
  {
    hide LoopInv, InStep, Answers, Can, Go;
    GoKeepsInv(c, s, l);
    if Completing(s, l) {
      CompletingStaysInStep(c, a, s, trail, l, trail');
    } else {
      OtherMovesStayInStep(c, a, s, trail, l);
    }
  }

  // ---------- whole runs ----------

  /** A run of the loop from the first generation of the algorithm, each move of which the algorithm agrees with. */
  ghost predicate Driven(c: Commands, a: Algorithm, s0: Loop, order: seq<FlagSet>, run: seq<Label>, trails: seq<seq<FlagSet>>) {
    && Initial(c, s0, [NewGen(a.seeds)], {}, order) && After(c, s0, run).Some?
    && |trails| == |run| + 1 && trails[0] == []
    && forall k | 0 <= k < |run| ::
         After(c, s0, run[..k]).Some? && Follows(c, a, After(c, s0, run[..k]).value, trails[k], run[k], trails[k + 1])
  }

  lemma DrivenPrefix(c: Commands, a: Algorithm, s0: Loop, order: seq<FlagSet>, run: seq<Label>, trails: seq<seq<FlagSet>>)
    requires Driven(c, a, s0, order, run, trails) && run != []
    ensures Driven(c, a, s0, order, run[..|run| - 1], trails[..|run|])
  {
    hide Initial, Follows, Can, Go;
    var n := |run| - 1;
    var front := run[..n];
    assert forall k | 0 <= k <= n :: front[..k] == run[..k];
    forall k | 0 <= k < n
      ensures After(c, s0, front[..k]).Some? && Follows(c, a, After(c, s0, front[..k]).value, trails[..n + 1][k], front[k], trails[..n + 1][k + 1])
    {
      assert front[..k] == run[..k];
    }
  }

  lemma StartsInStep(c: Commands, a: Algorithm, s0: Loop, order: seq<FlagSet>)
    requires Initial(c, s0, [NewGen(a.seeds)], {}, order)
    ensures LoopInv(c, s0) && InStep(c, a, s0.steering, []) && |order| == |a.seeds|
  {
    hide Starts, LoopInv, Chooses, Cheapest, Enumerates, PoolFlags;
    var gens := [NewGen(a.seeds)];
    PoolFlagsOfOne(a.seeds);
    assert PoolFlags(gens) - {} == a.seeds;
    OrderIs(order, a.seeds);
    assert NewGen(a.seeds).pool.Keys == a.seeds;
    InitialInv(c, s0, gens, {}, order);
    if order == [] { NothingChosen(a, CostOf(c), []); }
  }

  /** Over every run, loop and search stay in step, and the loop has sent exactly the tasks the search evaluates. */
  lemma {:induction false} DrivenStaysInStep(c: Commands, a: Algorithm, s0: Loop, order: seq<FlagSet>, run: seq<Label>, trails: seq<seq<FlagSet>>)
    requires Proper(a) && Driven(c, a, s0, order, run, trails)
    ensures var s := After(c, s0, run).value; LoopInv(c, s) && InStep(c, a, s.steering, trails[|run|])
    ensures |a.seeds| + TotalBirths(run) == |Evaluated(a, trails[|run|])|
  {
    hide LoopInv, InStep, Initial, Follows, Can, Go, Proper;
    if run == [] {
      StartsInStep(c, a, s0, order);
    } else {
      var n := |run| - 1;
      DrivenPrefix(c, a, s0, order, run, trails);
      DrivenStaysInStep(c, a, s0, order, run[..n], trails[..n + 1]);
      MoveStaysInStep(c, a, After(c, s0, run[..n]).value, trails[n], run[n], trails[n + 1]);
    }
  }

  /** A tuning run is no longer than a multiple of what its search evaluates. */
  lemma DrivenLength(c: Commands, a: Algorithm, s0: Loop, order: seq<FlagSet>, run: seq<Label>, trails: seq<seq<FlagSet>>)
    requires Proper(a) && Driven(c, a, s0, order, run, trails)
    ensures |run| <= LoopEffort(s0) + 200 * |Evaluated(a, trails[|run|])|
  {
    hide LoopInv, InStep, Initial, Follows, Proper;
    DrivenStaysInStep(c, a, s0, order, run, trails);
    RunLength(c, s0, run);
  }

  /** All processes have ended, and nothing is left anywhere but the pill that went through. */
  ghost predicate AllEnded(s: Loop) {
    && s.steering.status.Finished? && s.steering.waiting == [] && Quiet(s) && s.toSteer == [Pill]
    && s.build.phase.Stopped? && s.test.phase.Stopped?
  }

  ghost predicate AtRest(s: Loop) {
    forall l :: !Can(s, l)
  }

  lemma DrivenSome(c: Commands, a: Algorithm, s0: Loop, order: seq<FlagSet>, run: seq<Label>, trails: seq<seq<FlagSet>>)
    requires Driven(c, a, s0, order, run, trails)
    ensures After(c, s0, run).Some? && |trails| == |run| + 1
  {
  }

  lemma RestInStep(c: Commands, a: Algorithm, s: Loop, trail: seq<FlagSet>)
    requires LoopInv(c, s) && InStep(c, a, s.steering, trail) && AtRest(s)
    ensures Settles(a, CostOf(c), trail) && s.steering.cache == Evaluated(a, trail)
    ensures if Trips(a, trail) then s.steering.status.Failing? else AllEnded(s)
  {
    hide LoopInv, Can, Settles, Trips, Quiet;
    StuckMeansStopped(c, s);
    assert OutFlags([]) == {};
  }

  /** A tuning run that has come to rest has settled its search; it has stopped at the assertion on an empty
      generation exactly when the search trips, and otherwise every process has ended. */
  lemma DrivenComesToRest(c: Commands, a: Algorithm, s0: Loop, order: seq<FlagSet>, run: seq<Label>, trails: seq<seq<FlagSet>>)
    requires Proper(a) && Driven(c, a, s0, order, run, trails) && AtRest(After(c, s0, run).value)
    ensures var s, trail := After(c, s0, run).value, trails[|run|];
            && Settles(a, CostOf(c), trail) && s.steering.cache == Evaluated(a, trail)
            && if Trips(a, trail) then s.steering.status.Failing? else AllEnded(s)
  {
    hide LoopInv, InStep, Proper, Driven, AtRest, Settles, Trips, AllEnded;
    DrivenSome(c, a, s0, order, run, trails);
    DrivenStaysInStep(c, a, s0, order, run, trails);
    RestInStep(c, a, After(c, s0, run).value, trails[|run|]);
  }

  // ---------- the algorithm always has an answer ----------

  lemma {:induction false} Enumeration(flags: set<FlagSet>) returns (order: seq<FlagSet>)
    ensures Enumerates(order, flags)
  {
    order := [];
    if flags != {} {
      var f :| f in flags;
      var rest := Enumeration(flags - {f});
      order := [f] + rest;
      assert forall g :: g in order <==> g == f || g in rest;
    }
  }

  /** What an algorithm makes of a generation respects the cache, which is all the loop asks of it. */
  lemma NextRespectsCache(a: Algorithm, f: FlagSet, cache: set<FlagSet>)
    ensures RespectsCache(cache, NextGenerations(a, f, cache)) && RespectsCache(cache, [])
  {
    assert NewGen(a.next(f) - cache).pool.Keys == a.next(f) - cache;
  }

  /** While the loop can move at all, it can move as the algorithm has it. */
  lemma DrivenGoesOn(c: Commands, a: Algorithm, s: Loop, trail: seq<FlagSet>, l: Label) returns (l': Label, trail': seq<FlagSet>)
    requires LoopInv(c, s) && InStep(c, a, s.steering, trail) && Can(s, l)
    ensures Can(s, l') && Follows(c, a, s, trail, l', trail')
  {
    hide LoopInv, InStep, Chooses, RespectsCache, Enumerates, Live, PoolFlags;
    l', trail' := l, trail;
    if Completing(s, l) {
      var cache := s.steering.cache;
      var children: seq<Gen> := [];
      if f :| Chooses(a, CostOf(c), trail, f) {
        children, trail' := NextGenerations(a, f, cache), trail + [f];
        NextRespectsCache(a, f, cache);
      } else {
        NextRespectsCache(a, map[], cache);
      }
      var order := Enumeration(PoolFlags(Live(children)));
      l' := Receive(children, order);
    }
  }

  // ---------- the two algorithms ----------

  lemma FailingTrips(c: Commands, a: Algorithm, st: Steering, trail: seq<FlagSet>)
    requires InStep(c, a, st, trail) && st.status.Failing?
    ensures Trips(a, trail)
  {
  }

  lemma InStepIsTrail(c: Commands, a: Algorithm, st: Steering, trail: seq<FlagSet>)
    requires InStep(c, a, st, trail)
    ensures IsTrail(a, CostOf(c), trail)
  {
  }

  lemma EliminationTrail(c: Commands, specs: seq<Spec>, pick: E.Picker, s0: Loop, order: seq<FlagSet>, run: seq<Label>, trails: seq<seq<FlagSet>>)
    requires Driven(c, E.Eliminator(specs, pick), s0, order, run, trails)
    ensures IsTrail(E.Eliminator(specs, pick), CostOf(c), trails[|run|])
    ensures After(c, s0, run).value.steering.status.Failing? ==> Trips(E.Eliminator(specs, pick), trails[|run|])
  {
    hide LoopInv, InStep, Driven, Proper, Trips, IsTrail, E.Eliminator;
    var a := E.Eliminator(specs, pick);
    E.EliminatorProper(specs, pick);
    DrivenSome(c, a, s0, order, run, trails);
    DrivenStaysInStep(c, a, s0, order, run, trails);
    var st, trail := After(c, s0, run).value.steering, trails[|run|];
    InStepIsTrail(c, a, st, trail);
    if st.status.Failing? { FailingTrips(c, a, st, trail); }
  }

  /** Iterative elimination in the loop, over every interleaving: its runs are bounded, and it meets the assertion on
      an empty generation only where a flag has a range of one value and at most a boolean flag beside it. */
  lemma EliminationInTheLoop(c: Commands, specs: seq<Spec>, pick: E.Picker, s0: Loop, order: seq<FlagSet>, run: seq<Label>, trails: seq<seq<FlagSet>>, hi: int)
    requires ValidRanges(specs) && E.Draws(pick) && Driven(c, E.Eliminator(specs, pick), s0, order, run, trails)
    requires Confined(E.Eliminator(specs, pick), E.Keys(specs), 0, hi)
    ensures |run| <= LoopEffort(s0) + 200 * |Universe(E.Keys(specs), 0, hi)|
    ensures After(c, s0, run).value.steering.status.Failing? ==> exists b | b in specs :: T.Lonely(specs, b)
  {
    hide LoopInv, InStep, Driven, Proper, Trips, IsTrail, E.Eliminator, T.Lonely, ValidRanges, E.Draws, Evaluated, Confined, Universe;
    DrivenSome(c, E.Eliminator(specs, pick), s0, order, run, trails);
    var a, trail := E.Eliminator(specs, pick), trails[|run|];
    E.EliminatorProper(specs, pick);
    EliminationTrail(c, specs, pick, s0, order, run, trails);
    DrivenLength(c, a, s0, order, run, trails);
    TrailIsAWalk(a, CostOf(c), trail);
    WalkBound(a, trail, E.Keys(specs), 0, hi);
    if Trips(a, trail) {
      var b := T.TripsOnlyIfLonely(specs, pick, CostOf(c), trail);
      T.LonelyHas(specs, b);
    }
  }

  /** With wide ranges the bound is in the weight of the baseline alone, and the assertion is never met. */
  lemma WideEliminationInTheLoop(c: Commands, specs: seq<Spec>, pick: E.Picker, s0: Loop, order: seq<FlagSet>, run: seq<Label>, trails: seq<seq<FlagSet>>)
    requires E.WideRanges(specs) && E.Draws(pick) && Driven(c, E.Eliminator(specs, pick), s0, order, run, trails)
    ensures var w := E.Weight(E.Baseline(specs)); w >= 0 && |run| <= LoopEffort(s0) + 200 * (1 + E.Triangle(w))
    ensures !After(c, s0, run).value.steering.status.Failing?
  {
    hide LoopInv, InStep, Driven, Proper, Trips, IsTrail, E.Eliminator, E.Weight, E.Baseline, E.Triangle, E.WideRanges, E.Draws, Evaluated;
    DrivenSome(c, E.Eliminator(specs, pick), s0, order, run, trails);
    var trail := trails[|run|];
    E.EliminatorProper(specs, pick);
    EliminationTrail(c, specs, pick, s0, order, run, trails);
    DrivenLength(c, E.Eliminator(specs, pick), s0, order, run, trails);
    E.EliminationBound(specs, pick, CostOf(c), trail);
    E.EliminationNeverTrips(specs, pick, CostOf(c), trail);
  }

  /** When it has come to rest, at that assertion or with every process ended, the last centre is the cheapest of all
      that was measured; with wide ranges every process has ended, and no single decrease is cheaper. */
  lemma EliminationComesToRest(c: Commands, specs: seq<Spec>, pick: E.Picker, s0: Loop, order: seq<FlagSet>, run: seq<Label>, trails: seq<seq<FlagSet>>)
    requires ValidRanges(specs) && E.Draws(pick) && Driven(c, E.Eliminator(specs, pick), s0, order, run, trails) && AtRest(After(c, s0, run).value)
    ensures var a, s, trail := E.Eliminator(specs, pick), After(c, s0, run).value, trails[|run|];
            var best := Centre(a, trail).value;
            && (if Trips(a, trail) then s.steering.status.Failing? else AllEnded(s))
            && best in s.steering.cache && Cheapest(CostOf(c), best, s.steering.cache)
            && (E.WideRanges(specs) ==> AllEnded(s) && E.Children(best, pick) <= s.steering.cache)
  {
    hide Driven, Proper, Trips, Settles, AllEnded, AtRest, Cheapest, E.Children, E.WideRanges, E.Draws, Evaluated, E.Triangle, E.Weight;
    var a := E.Eliminator(specs, pick);
    E.EliminatorProper(specs, pick);
    DrivenSome(c, a, s0, order, run, trails);
    DrivenComesToRest(c, a, s0, order, run, trails);
    E.SettledElimination(specs, pick, CostOf(c), trails[|run|]);
  }

  /** Hill climbing in the loop, over every interleaving: its runs are bounded by the flag sets there are. */
  lemma ClimbingInTheLoop(c: Commands, specs: seq<Spec>, seeds: set<FlagSet>, s0: Loop, order: seq<FlagSet>, run: seq<Label>, trails: seq<seq<FlagSet>>,
                          keys: set<Spec>, lo: int, hi: int)
    requires Driven(c, H.Climber(specs, seeds), s0, order, run, trails) && Confined(H.Climber(specs, seeds), keys, lo, hi)
    ensures |run| <= LoopEffort(s0) + 200 * |Universe(keys, lo, hi)|
  {
    hide LoopInv, InStep, Driven, Proper, IsTrail, H.Climber, Confined, Universe, Evaluated;
    var a := H.Climber(specs, seeds);
    H.ClimberProper(specs, seeds);
    DrivenSome(c, a, s0, order, run, trails);
    DrivenStaysInStep(c, a, s0, order, run, trails);
    DrivenLength(c, a, s0, order, run, trails);
    InStepIsTrail(c, a, After(c, s0, run).value.steering, trails[|run|]);
    TrailIsAWalk(a, CostOf(c), trails[|run|]);
    WalkBound(a, trails[|run|], keys, lo, hi);
  }

  lemma FirstAlwaysImproves(a: Algorithm, cost: FlagSet -> real, trail: seq<FlagSet>)
    requires a.parent.None? && a.seeds != {} && Settles(a, cost, trail)
    ensures trail != []
  {
    var f := Minimum(cost, a.seeds);
    assert Chooses(a, cost, [], f);
  }

  /** When it has come to rest, at the assertion on an empty generation exactly when the search trips and else with
      every process ended, the last centre is the cheapest of all that was measured, neighbours included. */
  lemma ClimbingComesToRest(c: Commands, specs: seq<Spec>, seeds: set<FlagSet>, s0: Loop, order: seq<FlagSet>, run: seq<Label>, trails: seq<seq<FlagSet>>)
    requires Driven(c, H.Climber(specs, seeds), s0, order, run, trails) && AtRest(After(c, s0, run).value) && seeds != {}
    ensures trails[|run|] != []
    ensures var a, s, trail := H.Climber(specs, seeds), After(c, s0, run).value, trails[|run|];
            var best := trail[|trail| - 1];
            && (if Trips(a, trail) then s.steering.status.Failing? else AllEnded(s))
            && best in s.steering.cache && Cheapest(CostOf(c), best, s.steering.cache) && H.Neighbours(best, specs) <= s.steering.cache
  {
    hide Driven, Proper, Trips, Settles, AllEnded, AtRest, Cheapest, H.Neighbours, Evaluated;
    var a := H.Climber(specs, seeds);
    H.ClimberProper(specs, seeds);
    DrivenSome(c, a, s0, order, run, trails);
    DrivenComesToRest(c, a, s0, order, run, trails);
    FirstAlwaysImproves(a, CostOf(c), trails[|run|]);
    SettledIsCheapest(a, CostOf(c), trails[|run|]);
  }
}
