/** The start conditions of the loop are necessary: if an initial generation is empty, or shares
    a task with the cache or with another initial generation, while there is anything to send,
    Steering never gets to send the pill. */
module LoopStalls {
  import opened Tasks
  import opened Stage
  import opened StageRuns
  import opened Generations
  import opened Loop
  import opened LoopRuns
  import opened LoopTheorems

  /** The number of tasks anywhere in the loop. */
  function InFlight(c: Commands, s: Loop): nat {
    Count(s.steering.outbox, Any()) + QueueCount(s.toBuild, Any()) + Inside(c, Build, s.build, Any()) +
    QueueCount(s.toTest, Any()) + Inside(c, Test, s.test, Any()) + QueueCount(s.toSteer, Any())
  }

  /** The number of results that the waiting generations count on. */
  function Awaited(gens: seq<Gen>): int {
    if gens == [] then 0 else gens[0].pending + Awaited(gens[1..])
  }

  ghost predicate Short(c: Commands, s: Loop) {
    || InFlight(c, s) < Awaited(s.steering.waiting)
    || exists i :: 0 <= i < |s.steering.waiting| && s.steering.waiting[i].pool == map[]
  }

  ghost predicate NoPill(s: Loop) {
    Pill !in s.toBuild && Pill !in s.toTest && Pill !in s.toSteer && s.build.phase.Pulling? && s.test.phase.Pulling?
  }

  ghost predicate Stalled(c: Commands, s: Loop) {
    && StageInv(c, Build, s.build) && StageInv(c, Test, s.test) && Shapes(c, s)
    && !s.steering.status.Finished? && (s.steering.status.Running? ==> Short(c, s)) && NoPill(s)
  }

  lemma StepKeepsTotal(c: Commands, id: StageId, p: Port, a: Action)
    requires StageInv(c, id, p.stage) && Enabled(p, a)
    ensures var p' := Step(c, id, p, a);
            QueueCount(p'.input, Any()) + Inside(c, id, p'.stage, Any()) + QueueCount(p'.output, Any()) ==
            QueueCount(p.input, Any()) + Inside(c, id, p.stage, Any()) + QueueCount(p.output, Any())
  {
    StepConserves(c, id, p, a, Any());
    DueAny(c, id, TasksOf(p.input));
    DueAny(c, id, TasksOf(Step(c, id, p, a).input));
  }

  lemma {:induction false} AwaitedAppend(a: seq<Gen>, b: seq<Gen>)
    ensures Awaited(a + b) == Awaited(a) + Awaited(b)
  {
    if a == [] {
      assert a + b == b;
    } else {
      assert (a + b)[1..] == a[1..] + b;
      AwaitedAppend(a[1..], b);
    }
  }

  lemma AwaitedSplit(w: seq<Gen>, i: nat, g: Gen)
    requires i < |w|
    ensures Awaited(RemoveAt(w, i)) == Awaited(w) - w[i].pending
    ensures Awaited(w[i := g]) == Awaited(w) - w[i].pending + g.pending
  {
    assert w == w[..i] + ([w[i]] + w[i + 1..]) && w[i := g] == w[..i] + ([g] + w[i + 1..]);
    AwaitedAppend(w[..i], [w[i]] + w[i + 1..]);
    AwaitedAppend(w[..i], [g] + w[i + 1..]);
    AwaitedAppend(w[..i], w[i + 1..]);
    AwaitedAppend([w[i]], w[i + 1..]);
    AwaitedAppend([g], w[i + 1..]);
  }

  // ---------- sizes ----------

  lemma PoolFlagsSplit(gens: seq<Gen>)
    requires gens != []
    ensures PoolFlags(gens) == gens[0].pool.Keys + PoolFlags(gens[1..])
  {
    forall f ensures f in PoolFlags(gens) <==> f in gens[0].pool.Keys + PoolFlags(gens[1..]) {
      if f in PoolFlags(gens) {
        var i :| 0 <= i < |gens| && f in gens[i].pool;
        if i > 0 { assert f in gens[1..][i - 1].pool; }
      }
      if f in PoolFlags(gens[1..]) {
        var i :| 0 <= i < |gens[1..]| && f in gens[1..][i].pool;
        assert f in gens[i + 1].pool;
      }
      if f in gens[0].pool.Keys { assert f in gens[0].pool; }
    }
  }

  lemma UnionSize<T>(a: set<T>, b: set<T>, cache: set<T>)
    ensures |(a + b) - cache| <= |a| + |b - cache|
    ensures |(a + b) - cache| == |a| + |b - cache| <==> a !! cache && a !! (b - cache)
  {
    var rest := b - cache - a;
    assert (a + b) - cache == (a - cache) + rest;
    assert a == (a - cache) + (a * cache) && b - cache == rest + (b - cache) * a;
    assert |(a + b) - cache| == |a - cache| + |rest|;
    assert |a| == |a - cache| + |a * cache| && |b - cache| == |rest| + |(b - cache) * a|;
  }

  /** The generations of a start await at least as many results as there are tasks to send, and
      exactly as many only if no task is shared or cached. */
  lemma {:induction false} AwaitedSize(gens: seq<Gen>, cache: set<FlagSet>)
    requires forall i | 0 <= i < |gens| :: gens[i].pending == |gens[i].pool.Keys|
    ensures |PoolFlags(gens) - cache| <= Awaited(gens)
    ensures |PoolFlags(gens) - cache| == Awaited(gens) ==>
              Apart(gens) && forall i | 0 <= i < |gens| :: gens[i].pool.Keys !! cache
  {
    if gens == [] {
      assert PoolFlags(gens) == {};
    } else {
      var rest := gens[1..];
      AwaitedSize(rest, cache);
      PoolFlagsSplit(gens);
      UnionSize(gens[0].pool.Keys, PoolFlags(rest), cache);
      if |PoolFlags(gens) - cache| == Awaited(gens) {
        ApartCons(gens, cache);
      }
    }
  }

  lemma ApartCons(gens: seq<Gen>, cache: set<FlagSet>)
    requires gens != [] && Apart(gens[1..]) && gens[0].pool.Keys !! cache
    requires gens[0].pool.Keys !! (PoolFlags(gens[1..]) - cache)
    requires forall i | 0 <= i < |gens[1..]| :: gens[1..][i].pool.Keys !! cache
    ensures Apart(gens) && forall i | 0 <= i < |gens| :: gens[i].pool.Keys !! cache
  {
    var rest := gens[1..];
    forall i | 0 < i < |gens| ensures gens[0].pool.Keys !! gens[i].pool.Keys && gens[i].pool.Keys !! cache {
      assert gens[i] == rest[i - 1];
      forall f | f in gens[i].pool.Keys ensures f !in gens[0].pool.Keys {
        assert f in rest[i - 1].pool && f in PoolFlags(rest);
      }
    }
    assert forall i, j | 0 < i < j < |gens| :: gens[i] == rest[i - 1] && gens[j] == rest[j - 1];
  }

  lemma {:induction false} OrderSize(order: seq<FlagSet>, flags: set<FlagSet>)
    requires Enumerates(order, flags)
    ensures |order| == |flags|
  {
    if order == [] {
      assert flags == {};
    } else {
      var f := order[0];
      assert f in order;
      assert forall h | h in flags - {f} :: h in order && h in order[1..];
      OrderSize(order[1..], flags - {f});
    }
  }

  // ---------- the stall ----------

  lemma StageMoveStalls(c: Commands, s: Loop, l: Label)
    requires Stalled(c, s) && Can(s, l) && (l.InBuild? || l.InTest?)
    ensures Stalled(c, Go(c, s, l))
  {
    hide StageInv, Enabled, Inside, StageShaped, QueueShaped, QueueCount, Step;
    if l.InBuild? {
      ShapedFits(c, 0, BuildPort(s));
      StepKeepsInv(c, Build, BuildPort(s), l.a);
      StepShapes(c, 0, BuildPort(s), l.a);
      StepPills(c, Build, BuildPort(s), l.a);
      StepKeepsTotal(c, Build, BuildPort(s), l.a);
    } else {
      ShapedFits(c, 1, TestPort(s));
      StepKeepsInv(c, Test, TestPort(s), l.a);
      StepShapes(c, 1, TestPort(s), l.a);
      StepPills(c, Test, TestPort(s), l.a);
      StepKeepsTotal(c, Test, TestPort(s), l.a);
    }
  }

  lemma SubmitStalls(c: Commands, s: Loop)
    requires Stalled(c, s) && Can(s, Submit)
    ensures Stalled(c, Go(c, s, Submit))
  {
    var t := s.steering.outbox[0];
    PutCount(s.toBuild, t, Any());
    PutShape(c, 0, s.toBuild, Work(t));
  }

  lemma ReceiveShort(c: Commands, s: Loop, children: seq<Gen>, order: seq<FlagSet>)
    requires Short(c, s) && Can(s, Receive(children, order))
    ensures var s' := Go(c, s, Receive(children, order)); s'.steering.status.Running? ==> Short(c, s')
  {
    var st, m := s.steering, s.toSteer[0];
    var s' := Go(c, s, Receive(children, order));
    if s'.steering.status.Running? {
      var i := Owner(st.waiting, m.task.flags);
      var g := Updated(st.waiting[i], m.task);
      AwaitedSplit(st.waiting, i, g);
      GetCount(s.toSteer, Any());
      if g.pending == 0 {
        LivePrefix(children);
        AwaitedAppend(RemoveAt(st.waiting, i), children);
        AwaitedSize(children, {});
        assert PoolFlags(children) - {} == PoolFlags(children);
        OrderSize(order, PoolFlags(children));
        CountAny(FreshTasks(order));
      }
      ReceiveKeepsEmpty(s, children, order, i);
    }
  }

  lemma ReceiveKeepsEmpty(s: Loop, children: seq<Gen>, order: seq<FlagSet>, i: nat)
    requires s.toSteer != [] && s.toSteer[0].Work? && i == Owner(s.steering.waiting, s.toSteer[0].task.flags) < |s.steering.waiting|
    requires Received(s.steering, s.toSteer[0], children, order).status.Running?
    ensures (exists k :: 0 <= k < |s.steering.waiting| && s.steering.waiting[k].pool == map[]) ==>
            var w' := Received(s.steering, s.toSteer[0], children, order).waiting;
            exists k :: 0 <= k < |w'| && w'[k].pool == map[]
  {
    var w, w' := s.steering.waiting, Received(s.steering, s.toSteer[0], children, order).waiting;
    if k :| 0 <= k < |w| && w[k].pool == map[] {
      if Updated(w[i], s.toSteer[0].task).pending != 0 {
        assert w'[k] == w[k];
      } else {
        assert w'[if k < i then k else k - 1] == w[k];
      }
    }
  }

  lemma ReceiveStalls(c: Commands, s: Loop, children: seq<Gen>, order: seq<FlagSet>)
    requires Stalled(c, s) && Can(s, Receive(children, order))
    ensures Stalled(c, Go(c, s, Receive(children, order)))
  {
    hide StageInv, StageShaped, Short, Owner, Live, RespectsCache, Enumerates;
    ReceiveShort(c, s, children, order);
    var s' := Go(c, s, Receive(children, order));
    assert forall t | t in FreshTasks(order) :: Shaped(c, 0, t);
  }

  lemma StallStays(c: Commands, s: Loop, l: Label)
    requires Stalled(c, s) && Can(s, l)
    ensures Stalled(c, Go(c, s, l))
  {
    match l
    case InBuild(a) => StageMoveStalls(c, s, l);
    case InTest(a) => StageMoveStalls(c, s, l);
    case Submit => SubmitStalls(c, s);
    case Receive(children, order) => ReceiveStalls(c, s, children, order);
    case SendPill => assert false;
  }

  lemma StartInFlight(c: Commands, s: Loop)
    requires s.toBuild == [] && s.toTest == [] && s.toSteer == [] && Starts(c, Build, s.build) && Starts(c, Test, s.test)
    ensures InFlight(c, s) == |s.steering.outbox|
  {
    CountAny(s.steering.outbox);
  }

  lemma StartShort(gens: seq<Gen>, cache: set<FlagSet>, order: seq<FlagSet>)
    requires forall i | 0 <= i < |gens| :: gens[i] == NewGen(gens[i].pool.Keys)
    requires Enumerates(order, PoolFlags(gens) - cache) && !WellPosed(gens, cache)
    ensures |order| < Awaited(gens) || exists i :: 0 <= i < |gens| && gens[i].pool == map[]
  {
    OrderSize(order, PoolFlags(gens) - cache);
    AwaitedSize(gens, cache);
  }

  lemma StartsStalled(c: Commands, s: Loop, gens: seq<Gen>, cache: set<FlagSet>, order: seq<FlagSet>)
    requires Initial(c, s, gens, cache, order) && order != [] && !WellPosed(gens, cache)
    ensures Stalled(c, s)
  {
    hide StageInv, WellPosed, Enumerates, InFlight;
    StartInv(c, Build, s.build);
    StartInv(c, Test, s.test);
    StartInFlight(c, s);
    StartShort(gens, cache, order);
    assert forall t | t in s.steering.outbox :: Shaped(c, 0, t);
  }

  /** If there is anything to send and the start is not well posed, no run ever sends the pill. */
  lemma {:induction false} IllPosedNeverFinishes(c: Commands, s0: Loop, gens: seq<Gen>, cache: set<FlagSet>, order: seq<FlagSet>, run: seq<Label>)
    requires Initial(c, s0, gens, cache, order) && order != [] && !WellPosed(gens, cache)
    requires After(c, s0, run).Some?
    ensures Stalled(c, After(c, s0, run).value) && !After(c, s0, run).value.steering.status.Finished?
  {
    if run == [] {
      StartsStalled(c, s0, gens, cache, order);
    } else {
      var n := |run| - 1;
      IllPosedNeverFinishes(c, s0, gens, cache, order, run[..n]);
      StallStays(c, After(c, s0, run[..n]).value, run[n]);
    }
  }

  /** The eagerly forwarded pill overtakes nothing, from any start: whenever it is anywhere in the loop, no task is. */
  lemma PillOvertakesNothing(c: Commands, s0: Loop, gens: seq<Gen>, cache: set<FlagSet>, order: seq<FlagSet>, run: seq<Label>)
    requires Initial(c, s0, gens, cache, order) && After(c, s0, run).Some?
    ensures var s := After(c, s0, run).value;
            NoPill(s) || (s.steering.status.Finished? && s.steering.waiting == [] && Quiet(s))
  {
    hide StageInv, Shapes, GensOk, Initial, WellPosed, After, Short;
    var s := After(c, s0, run).value;
    if order == [] || WellPosed(gens, cache) {
      RunKeepsInv(c, s0, gens, cache, order, run);
      if s.steering.status.Finished? { NothingOwedIsQuiet(c, s); }
    } else {
      IllPosedNeverFinishes(c, s0, gens, cache, order, run);
    }
  }

  /** With nothing to send, Steering has finished before the first move. */
  lemma {:induction false} NothingToSendIsFinished(c: Commands, s0: Loop, gens: seq<Gen>, cache: set<FlagSet>, order: seq<FlagSet>, run: seq<Label>)
    requires Initial(c, s0, gens, cache, order) && order == [] && After(c, s0, run).Some?
    ensures After(c, s0, run).value.steering == s0.steering && s0.steering.status.Finished?
  {
    if run != [] {
      hide Step, Enabled, Starts;
      NothingToSendIsFinished(c, s0, gens, cache, order, run[..|run| - 1]);
    }
  }

  /** How a run that cannot go on has ended: unless an empty child generation has stopped Steering, it has finished
      exactly when there was nothing to send or the start was well posed. */
  lemma FinishesIffWellPosed(c: Commands, s0: Loop, gens: seq<Gen>, cache: set<FlagSet>, order: seq<FlagSet>, run: seq<Label>)
    requires Initial(c, s0, gens, cache, order) && After(c, s0, run).Some?
    requires forall l :: !Can(After(c, s0, run).value, l)
    ensures var status := After(c, s0, run).value.steering.status;
            status.Finished? <==> (order == [] || WellPosed(gens, cache)) && !status.Failing?
  {
    hide Initial, WellPosed, Can, Stalled, LoopInv, Quiet;
    if order == [] {
      NothingToSendIsFinished(c, s0, gens, cache, order, run);
    } else if WellPosed(gens, cache) {
      RunKeepsInv(c, s0, gens, cache, order, run);
      StuckMeansStopped(c, After(c, s0, run).value);
    } else {
      IllPosedNeverFinishes(c, s0, gens, cache, order, run);
    }
  }
}
