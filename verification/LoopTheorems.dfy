/** What holds of every run of the feedback loop. */
module LoopTheorems {
  import opened Tasks
  import opened Stage
  import opened StageRuns
  import opened Generations
  import opened Loop
  import opened LoopRuns
  import D = Helper

  // ---------- runs ----------

  /** The loop as it starts: every task of the initial generations that is not in the cache is
      sent out once; if there is none, the pill goes out at once. */
  ghost predicate Initial(c: Commands, s: Loop, gens: seq<Gen>, cache: set<FlagSet>, order: seq<FlagSet>) {
    && (forall i | 0 <= i < |gens| :: gens[i] == NewGen(gens[i].pool.Keys))
    && Enumerates(order, PoolFlags(gens) - cache)
    && Starts(c, Build, s.build) && Starts(c, Test, s.test) && s.toTest == [] && s.toSteer == []
    && if order == [] then s.steering == Steering(cache, [], [], Finished) && s.toBuild == [Pill]
       else s.steering == Steering(cache, gens, FreshTasks(order), Running) && s.toBuild == []
  }

  /** The initial generations can all be completed: no task is shared, cached or missing. */
  ghost predicate WellPosed(gens: seq<Gen>, cache: set<FlagSet>) {
    && Apart(gens) && (forall i | 0 <= i < |gens| :: gens[i].pool.Keys !! cache)
    && (forall i | 0 <= i < |gens| :: gens[i].pool != map[])
  }

  /** The state after a run, if each of its moves was possible in turn. */
  ghost function After(c: Commands, s: Loop, run: seq<Label>): Option<Loop> {
    if run == [] then Some(s) else
    match After(c, s, run[..|run| - 1])
    case None => None
    case Some(r) => if Can(r, run[|run| - 1]) then Some(Go(c, r, run[|run| - 1])) else None
  }

  lemma InitialConserves(c: Commands, s: Loop, gens: seq<Gen>, cache: set<FlagSet>, order: seq<FlagSet>)
    requires Initial(c, s, gens, cache, order) && (order != [] ==> WellPosed(gens, cache))
    ensures Conserved(c, s)
  {
    forall f ensures Places(c, s, f) == One(IsOwed(s.steering.waiting, f)) {
      FreshCount(order, f);
      if order == [] {
        assert TasksOf([Pill]) == TasksOf([Pill][1..]) == [];
      } else {
        OwedAtFirst(gens, f);
        if f in PoolFlags(gens) {
          var i :| 0 <= i < |gens| && f in gens[i].pool;
          assert f in gens[i].pool.Keys;
        }
      }
    }
  }

  lemma OwedAtFirst(gens: seq<Gen>, f: FlagSet)
    requires forall i | 0 <= i < |gens| :: gens[i] == NewGen(gens[i].pool.Keys)
    ensures IsOwed(gens, f) <==> f in PoolFlags(gens)
  {
    forall i | 0 <= i < |gens| ensures f in Unreturned(gens[i].pool) <==> f in gens[i].pool {
      assert gens[i].pool == NewGen(gens[i].pool.Keys).pool;
    }
  }

  lemma InitialInv(c: Commands, s: Loop, gens: seq<Gen>, cache: set<FlagSet>, order: seq<FlagSet>)
    requires Initial(c, s, gens, cache, order) && (order != [] ==> WellPosed(gens, cache))
    ensures LoopInv(c, s)
  {
    StartInv(c, Build, s.build);
    StartInv(c, Test, s.test);
    InitialConserves(c, s, gens, cache, order);
    if order != [] {
      forall i | 0 <= i < |gens| ensures Accounted(c, gens[i]) && gens[i].pending >= 1 {
        NewGenAccounted(c, gens[i].pool.Keys);
        assert gens[i].pool.Keys != {};
      }
      forall i, f | 0 <= i < |gens| && f in gens[i].pool ensures f in cache || Fresh(f) in FreshTasks(order) {
        assert f in PoolFlags(gens);
        if f !in cache {
          assert f in order;
          var j :| 0 <= j < |order| && order[j] == f;
          assert FreshTasks(order)[j] == Fresh(f);
        }
      }
    }
  }

  /** The loop never goes wrong: from a well-posed start, over every run of all its processes,
      each task still owed to a waiting generation is in exactly one place and no other task is in
      any place, each count is right, and Steering never meets a task that nobody waits for. */
  lemma {:induction false} RunKeepsInv(c: Commands, s0: Loop, gens: seq<Gen>, cache: set<FlagSet>, order: seq<FlagSet>, run: seq<Label>)
    requires Initial(c, s0, gens, cache, order) && (order != [] ==> WellPosed(gens, cache))
    requires After(c, s0, run).Some?
    ensures LoopInv(c, After(c, s0, run).value)
  {
    if run == [] {
      InitialInv(c, s0, gens, cache, order);
    } else {
      var n := |run| - 1;
      RunKeepsInv(c, s0, gens, cache, order, run[..n]);
      GoKeepsInv(c, After(c, s0, run[..n]).value, run[n]);
    }
  }

  /** In every such run the drain loop of either helper has what it needs. */
  lemma HelpersCanDrain(c: Commands, s: Loop)
    requires LoopInv(c, s)
    ensures s.build.mode.Draining? && s.build.resolving.None? ==> D.ResultsAhead(c, Build, s.build)
    ensures s.test.mode.Draining? && s.test.resolving.None? ==> D.ResultsAhead(c, Test, s.test)
  {
    hide StageInv, D.ResultsAhead;
    if s.build.mode.Draining? && s.build.resolving.None? { D.JoinedStageCanDrain(c, Build, s.build); }
    if s.test.mode.Draining? && s.test.resolving.None? { D.JoinedStageCanDrain(c, Test, s.test); }
  }

  // ---------- progress ----------

  /** An upper bound on the moves left before a generation must produce new tasks. */
  function LoopEffort(s: Loop): nat {
    200 * |s.steering.outbox| + 20 * Effort(BuildPort(s)) + 2 * Effort(TestPort(s)) + |s.toSteer| +
    (if s.steering.status.Running? then 200 else 0)
  }

  /** The new tasks a move brings into the loop. */
  function Births(l: Label): nat {
    if l.Receive? then |l.order| else 0
  }

  lemma StepEmits(c: Commands, id: StageId, p: Port, a: Action)
    requires Enabled(p, a)
    ensures |Step(c, id, p, a).output| <= |p.output| + 1
  {
  }

  lemma GoTakesEffort(c: Commands, s: Loop, l: Label)
    requires Can(s, l)
    ensures LoopEffort(Go(c, s, l)) < LoopEffort(s) + 200 * Births(l)
  {
    hide Step, Enabled, Effort, RespectsCache, Enumerates, Owner, Live;
    var s' := Go(c, s, l);
    EffortOfInput(BuildPort(s), BuildPort(s'));
    EffortOfInput(TestPort(s), TestPort(s'));
    match l
    case InBuild(a) =>
      StepTakesEffort(c, Build, BuildPort(s), a);
      StepEmits(c, Build, BuildPort(s), a);
      assert Effort(BuildPort(s')) < Effort(BuildPort(s)) by { EffortOfOutput(Step(c, Build, BuildPort(s), a), BuildPort(s')); }
    case InTest(a) =>
      StepTakesEffort(c, Test, TestPort(s), a);
      StepEmits(c, Test, TestPort(s), a);
      assert Effort(BuildPort(s')) == Effort(BuildPort(s)) by { EffortOfOutput(BuildPort(s), BuildPort(s')); }
    case _ =>
  }

  /** Effort counts what waits in the input queue, and not what has been put out. */
  lemma EffortOfInput(p: Port, q: Port)
    ensures p.stage == q.stage ==> Effort(q) - Effort(p) == 8 * (|q.input| - |p.input|)
  {
  }

  lemma EffortOfOutput(p: Port, q: Port)
    ensures p.stage == q.stage && p.input == q.input ==> Effort(q) == Effort(p)
  {
  }

  function TotalBirths(run: seq<Label>): nat {
    if run == [] then 0 else TotalBirths(run[..|run| - 1]) + Births(run[|run| - 1])
  }

  /** A run is no longer than a fixed multiple of the tasks it is given and brings into the loop:
      only an algorithm that never stops producing tasks can keep the loop from ending. */
  lemma {:induction false} RunLength(c: Commands, s0: Loop, run: seq<Label>)
    requires After(c, s0, run).Some?
    ensures |run| + LoopEffort(After(c, s0, run).value) <= LoopEffort(s0) + 200 * TotalBirths(run)
  {
    if run != [] {
      var n := |run| - 1;
      RunLength(c, s0, run[..n]);
      GoTakesEffort(c, After(c, s0, run[..n]).value, run[n]);
    }
  }

  lemma StuckStages(c: Commands, s: Loop)
    requires LoopInv(c, s) && forall l :: !Can(s, l)
    ensures s.build.phase.Stopped? || (s.build.phase.Pulling? && s.toBuild == [])
    ensures s.test.phase.Stopped? || (s.test.phase.Pulling? && s.toTest == [])
    ensures Idle(s.build) && Idle(s.test)
  {
    forall a ensures !Enabled(BuildPort(s), a) { assert !Can(s, InBuild(a)); }
    forall a ensures !Enabled(TestPort(s), a) { assert !Can(s, InTest(a)); }
    StuckMeansIdle(c, Build, BuildPort(s));
    StuckMeansIdle(c, Test, TestPort(s));
  }

  /** There is no deadlock: a run that cannot go on has either stopped cleanly, with every task back, the
      pill through and all processes ended, or met the assertion on an empty child generation. */
  lemma StuckMeansStopped(c: Commands, s: Loop)
    requires LoopInv(c, s) && forall l :: !Can(s, l)
    ensures s.steering.status.Failing? ||
            (s.steering.status.Finished? && s.steering.waiting == [] && Quiet(s) && s.toSteer == [Pill] &&
             s.build.phase.Stopped? && s.test.phase.Stopped?)
  {
    StuckStages(c, s);
    assert !Can(s, Submit) && !Can(s, SendPill) && !Can(s, Receive([], []));
    if s.steering.status.Finished? {
      NothingOwedIsQuiet(c, s);
    } else if s.steering.status.Running? {
      StuckNotRunning(c, s);
    }
  }

  lemma StuckNotRunning(c: Commands, s: Loop)
    requires LoopInv(c, s) && s.steering.status.Running? && s.steering.outbox == []
    requires s.toBuild == [] && s.toTest == [] && Idle(s.build) && Idle(s.test) && !Can(s, SendPill)
    ensures Can(s, Receive([], []))
  {
    hide StageInv, Shapes, Places, TestedTask;
    var w := s.steering.waiting;
    assert w != [];
    assert w[0].pending >= 1 && Unreturned(w[0].pool) != {};
    var f :| f in Unreturned(w[0].pool);
    assert IsOwed(w, f) && Places(c, s, f) == 1;
    NoWorkCount(c, s, f);
    assert PoolFlags([]) == {};
  }

  lemma NoWorkCount(c: Commands, s: Loop, f: FlagSet)
    requires s.steering.outbox == [] && s.toBuild == [] && s.toTest == [] && Idle(s.build) && Idle(s.test)
    requires Places(c, s, f) > 0
    ensures s.toSteer != []
  {
    NoWorkTasks(s.build.duplicates);
    NoWorkTasks(s.test.duplicates);
  }
}
