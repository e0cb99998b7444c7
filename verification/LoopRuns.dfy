/** The invariant of the feedback loop over all its runs, and what follows from it. */
module LoopRuns {
  import opened Tasks
  import opened Stage
  import opened StageRuns
  import opened Generations
  import opened Loop

  // ---------- a stage inside the loop ----------

  ghost predicate PortShaped(c: Commands, n: nat, p: Port) {
    QueueShaped(c, n, p.input) && StageShaped(c, n, p.stage) && QueueShaped(c, n + 1, p.output)
  }

  lemma FinishShaped(c: Commands, n: nat, t: Task)
    requires Shaped(c, n, t)
    ensures Shaped(c, n + 1, Finish(c, StageAt(n), t))
  {
  }

  lemma PutShape(c: Commands, n: nat, q: seq<Message>, m: Message)
    requires QueueShaped(c, n, q) && (m.Work? ==> Shaped(c, n, m.task))
    ensures QueueShaped(c, n, q + [m])
  {
  }

  lemma PollShapes(c: Commands, n: nat, p: Port)
    requires StageInv(c, StageAt(n), p.stage) && Enabled(p, Poll) && PortShaped(c, n, p)
    ensures PortShaped(c, n, Polled(c, StageAt(n), p))
  {
    var m := p.stage.duplicates[0];
    assert m in p.stage.duplicates;
    if m.Work? {
      FinishShaped(c, n, m.task);
      PutShape(c, n + 1, p.output, Work(Finish(c, StageAt(n), m.task)));
    }
  }

  lemma ResolveShapes(c: Commands, n: nat, p: Port)
    requires StageInv(c, StageAt(n), p.stage) && Enabled(p, Resolve) && PortShaped(c, n, p)
    ensures PortShaped(c, n, Resolved(StageAt(n), p))
  {
    hide StageInv, Matching, RemoveEqual, Finish, Shaped, QueueShaped;
    var id, s := StageAt(n), p.stage;
    var i := FirstWith(c, id, s.waiting, s.resolving.value.entry.key);
    InvBatch(c, id, s);
    RemovesTheResolved(c, id, p);
    ResultIsFinish(c, id, p);
    if i < |s.waiting| {
      assert s.waiting[i] in s.waiting && forall t | t in RemoveAt(s.waiting, i) :: t in s.waiting;
      FinishShaped(c, n, s.waiting[i]);
      PutShape(c, n + 1, p.output, Work(Finish(c, id, s.waiting[i])));
    }
  }

  lemma PullShapes(c: Commands, n: nat, p: Port)
    requires Enabled(p, Pull) && PortShaped(c, n, p)
    ensures PortShaped(c, n, Pulled(c, StageAt(n), p))
  {
    PutShape(c, n, p.stage.duplicates, p.input[0]);
    PutShape(c, n + 1, p.output, Pill);
  }

  lemma PoolShapes(c: Commands, n: nat, p: Port, i: nat)
    requires PortShaped(c, n, p)
    ensures i < |p.stage.pool| ==> PortShaped(c, n, Step(c, StageAt(n), p, DoWork(i)))
    ensures i < |p.stage.reported| ==> PortShaped(c, n, Step(c, StageAt(n), p, PutOut(i)))
  {
    var s := p.stage;
    if i < |s.pool| {
      assert s.pool[i] in s.pool;
      FinishShaped(c, n, s.pool[i]);
    }
    if i < |s.reported| {
      assert s.reported[i] in s.reported && forall t | t in RemoveAt(s.reported, i) :: t in s.reported;
      PutShape(c, n + 1, p.output, Work(s.reported[i]));
    }
  }

  /** A stage takes each task one stage further, whichever of its processes moves. */
  lemma StepShapes(c: Commands, n: nat, p: Port, a: Action)
    requires StageInv(c, StageAt(n), p.stage) && Enabled(p, a) && PortShaped(c, n, p)
    ensures PortShaped(c, n, Step(c, StageAt(n), p, a))
  {
    match a
    case Pull => PullShapes(c, n, p);
    case DoWork(i) => PoolShapes(c, n, p, i);
    case PutOut(i) => PoolShapes(c, n, p, i);
    case Join => PutShape(c, n, p.stage.duplicates, Pill);
    case Poll => PollShapes(c, n, p);
    case Collect =>
    case Resolve => ResolveShapes(c, n, p);
    case Leave =>
    case Stop =>
  }

  /** In the loop a task in hand is fixed by its flags, so equal flags mean equal keys. */
  lemma ShapedFits(c: Commands, n: nat, p: Port)
    requires n < 2 && QueueShaped(c, n, p.input) && StageShaped(c, n, p.stage)
    ensures InputFits(c, StageAt(n), p)
  {
    forall m | m in p.input && m.Work? ensures Ready(StageAt(n), m.task) {
      assert Form(c, 0, m.task.flags) == Fresh(m.task.flags);
      assert m.task == Form(c, n, m.task.flags);
    }
    forall t | AtHand(p, t) ensures t == Form(c, n, t.flags) {
      assert Work(t) in p.input ==> Shaped(c, n, Work(t).task);
      assert Work(t) in p.stage.duplicates ==> Shaped(c, n, Work(t).task);
    }
  }

  /** How an action moves the pill. */
  ghost predicate PillMoves(p: Port, a: Action, p': Port) {
    if a.Pull? && p.input != [] && p.input[0].Pill? then
      p'.input == p.input[1..] && p'.stage.phase.Joining? && p'.output == p.output + [Pill]
    else
      && p'.stage.phase.Pulling? == p.stage.phase.Pulling? && (Pill in p'.output <==> Pill in p.output)
      && (Pill !in p.input ==> Pill !in p'.input)
      && (Idle(p.stage) && NoWork(p.input) ==> p'.input == p.input && p'.output == p.output)
  }

  lemma StepPills(c: Commands, id: StageId, p: Port, a: Action)
    requires Enabled(p, a)
    ensures PillMoves(p, a, Step(c, id, p, a))
  {
    match a
    case Pull => assert p.input[0] in p.input;
    case Poll => assert p.stage.duplicates[0] in p.stage.duplicates;
    case _ =>
  }

  lemma StepKeepsPlaces(c: Commands, id: StageId, p: Port, a: Action, f: FlagSet)
    requires StageInv(c, id, p.stage) && Enabled(p, a)
    ensures var p', g := Step(c, id, p, a), HasFlags(f);
            QueueCount(p'.input, g) + Inside(c, id, p'.stage, g) + QueueCount(p'.output, g) ==
            QueueCount(p.input, g) + Inside(c, id, p.stage, g) + QueueCount(p.output, g)
  {
    StepConserves(c, id, p, a, HasFlags(f));
    DueIsCount(c, id, TasksOf(p.input), f);
    DueIsCount(c, id, TasksOf(Step(c, id, p, a).input), f);
  }

  function WithBuild(s: Loop, p: Port): Loop {
    s.(toBuild := p.input, build := p.stage, toTest := p.output)
  }

  function WithTest(s: Loop, p: Port): Loop {
    s.(toTest := p.input, test := p.stage, toSteer := p.output)
  }

  lemma BuildConserves(c: Commands, s: Loop, a: Action)
    requires StageInv(c, Build, s.build) && Conserved(c, s) && Enabled(BuildPort(s), a)
    ensures Conserved(c, WithBuild(s, Step(c, Build, BuildPort(s), a)))
  {
    var s' := WithBuild(s, Step(c, Build, BuildPort(s), a));
    forall f ensures Places(c, s', f) == One(IsOwed(s'.steering.waiting, f)) {
      StepKeepsPlaces(c, Build, BuildPort(s), a, f);
      assert Places(c, s, f) == One(IsOwed(s.steering.waiting, f));
    }
  }

  lemma TestConserves(c: Commands, s: Loop, a: Action)
    requires StageInv(c, Test, s.test) && Conserved(c, s) && Enabled(TestPort(s), a)
    ensures Conserved(c, WithTest(s, Step(c, Test, TestPort(s), a)))
  {
    var s' := WithTest(s, Step(c, Test, TestPort(s), a));
    forall f ensures Places(c, s', f) == One(IsOwed(s'.steering.waiting, f)) {
      StepKeepsPlaces(c, Test, TestPort(s), a, f);
      assert Places(c, s, f) == One(IsOwed(s.steering.waiting, f));
    }
  }

  /** Once the pill is sent nothing is in flight, so all a stage can still pass on is the pill. */
  lemma BuildPassesPill(s: Loop, a: Action, p: Port)
    requires PillPassed(s) && (s.steering.status.Finished? ==> Quiet(s))
    requires Enabled(BuildPort(s), a) && PillMoves(BuildPort(s), a, p)
    ensures PillPassed(WithBuild(s, p))
  {
  }

  lemma TestPassesPill(s: Loop, a: Action, p: Port)
    requires PillPassed(s) && (s.steering.status.Finished? ==> Quiet(s))
    requires Enabled(TestPort(s), a) && PillMoves(TestPort(s), a, p)
    ensures PillPassed(WithTest(s, p))
  {
  }

  lemma BuildKeepsInv(c: Commands, s: Loop, a: Action)
    requires LoopInv(c, s) && Enabled(BuildPort(s), a)
    ensures LoopInv(c, WithBuild(s, Step(c, Build, BuildPort(s), a)))
  {
    var p := BuildPort(s);
    ShapedFits(c, 0, p);
    StepKeepsInv(c, Build, p, a);
    StepShapes(c, 0, p, a);
    BuildConserves(c, s, a);
    if s.steering.status.Finished? { NothingOwedIsQuiet(c, s); }
    StepPills(c, Build, p, a);
    BuildPassesPill(s, a, Step(c, Build, p, a));
  }

  lemma TestKeepsInv(c: Commands, s: Loop, a: Action)
    requires LoopInv(c, s) && Enabled(TestPort(s), a)
    ensures LoopInv(c, WithTest(s, Step(c, Test, TestPort(s), a)))
  {
    var p := TestPort(s);
    ShapedFits(c, 1, p);
    StepKeepsInv(c, Test, p, a);
    StepShapes(c, 1, p, a);
    TestConserves(c, s, a);
    if s.steering.status.Finished? { NothingOwedIsQuiet(c, s); }
    StepPills(c, Test, p, a);
    TestPassesPill(s, a, Step(c, Test, p, a));
  }

  // ---------- Steering ----------

  lemma GetCount(q: seq<Message>, g: Task -> bool)
    requires q != []
    ensures QueueCount(q, g) == QueueCount(q[1..], g) + One(q[0].Work? && g(q[0].task))
  {
    if q[0].Work? {
      assert TasksOf(q)[1..] == TasksOf(q[1..]);
    } else {
      assert TasksOf(q) == TasksOf(q[1..]);
    }
  }

  lemma SubmitKeepsInv(c: Commands, s: Loop)
    requires LoopInv(c, s) && Can(s, Submit)
    ensures LoopInv(c, Go(c, s, Submit))
  {
    var s', t := Go(c, s, Submit), s.steering.outbox[0];
    if s.steering.status.Finished? { NothingOwedIsQuiet(c, s); }
    assert s.steering.outbox == [t] + s'.steering.outbox;
    forall f ensures Places(c, s', f) == One(IsOwed(s'.steering.waiting, f)) {
      PutCount(s.toBuild, t, HasFlags(f));
      assert Places(c, s, f) == One(IsOwed(s.steering.waiting, f));
    }
  }

  lemma SendPillKeepsInv(c: Commands, s: Loop)
    requires LoopInv(c, s) && Can(s, SendPill)
    ensures LoopInv(c, Go(c, s, SendPill)) && Quiet(s)
  {
    hide StageInv, StageShaped, Inside, Count, Accounted;
    var s' := Go(c, s, SendPill);
    NothingOwedIsQuiet(c, s);
    assert s.toBuild == [] && s.toTest == [] && s.toSteer == [] by { NoWorkNoPill(s.toBuild); NoWorkNoPill(s.toTest); NoWorkNoPill(s.toSteer); }
    TasksOfOne(s.toBuild, Pill);
    forall f ensures Places(c, s', f) == One(IsOwed(s'.steering.waiting, f)) {
      assert Places(c, s, f) == One(IsOwed(s.steering.waiting, f));
    }
  }

  lemma NoWorkNoPill(q: seq<Message>)
    ensures NoWork(q) && Pill !in q ==> q == []
  {
    if q != [] { assert q[0] in q; }
  }

  /** Exactly one waiting generation accepts a returned task, and it is one that still owes it. */
  lemma ExactlyOneAccepts(c: Commands, s: Loop)
    requires LoopInv(c, s) && !s.steering.status.Finished? && s.toSteer != []
    ensures var m, w := s.toSteer[0], s.steering.waiting;
            && m.Work? && m.task == TestedTask(c, m.task.flags)
            && (var built := c.compile(c.format(m.task.flags)); m.task == Task(m.task.flags, Some(built), Some(c.run(built.checksum))))
            && var i := Owner(w, m.task.flags);
               && i < |w| && m.task.flags in Unreturned(w[i].pool)
               && (forall j | 0 <= j < |w| && j != i :: m.task.flags !in w[j].pool)
  {
    hide StageInv, Shapes, Conserved, TestedTask, PillPassed, IsOwed, Apart;
    HeadIsOwed(c, s);
    TestedTaskCost(c, s.toSteer[0].task.flags);
    OwnerOwes(s.steering.waiting, s.toSteer[0].task.flags);
  }

  lemma OwnerOwes(w: seq<Gen>, f: FlagSet)
    requires Apart(w) && IsOwed(w, f)
    ensures var i := Owner(w, f);
            i < |w| && f in Unreturned(w[i].pool) && forall j | 0 <= j < |w| && j != i :: f !in w[j].pool
  {
    hide Owner;
    var i :| 0 <= i < |w| && f in Unreturned(w[i].pool);
    assert f in w[i].pool.Keys;
    assert forall j | 0 <= j < |w| && f in w[j].pool :: f in w[j].pool.Keys;
  }

  lemma HeadIsOwed(c: Commands, s: Loop)
    requires Shapes(c, s) && Conserved(c, s) && PillPassed(s) && !s.steering.status.Finished? && s.toSteer != []
    ensures var m := s.toSteer[0];
            m.Work? && m.task == TestedTask(c, m.task.flags) && IsOwed(s.steering.waiting, m.task.flags)
  {
    hide IsOwed, StageShaped, Inside, Count, QueueCount, TasksOf;
    var m := s.toSteer[0];
    assert m in s.toSteer;
    GetCount(s.toSteer, HasFlags(m.task.flags));
    assert Places(c, s, m.task.flags) == One(IsOwed(s.steering.waiting, m.task.flags));
  }

  // ---------- a task comes back ----------

  /** The waiting list with generation i brought up to date. */
  lemma UpdatedGens(c: Commands, w: seq<Gen>, i: nat, f: FlagSet)
    requires Apart(w) && i < |w| && f in Unreturned(w[i].pool) && forall k | 0 <= k < |w| :: Accounted(c, w[k])
    ensures var w' := w[i := Updated(w[i], TestedTask(c, f))];
            && Apart(w') && (forall k | 0 <= k < |w| :: Accounted(c, w'[k]) && w'[k].pool.Keys == w[k].pool.Keys)
            && w'[i].pending >= 0
            && (forall h :: IsOwed(w', h) <==> IsOwed(w, h) && h != f)
  {
    hide TestedTask, Accounted;
    var w' := w[i := Updated(w[i], TestedTask(c, f))];
    UpdateAccounted(c, w[i], f);
    forall h ensures IsOwed(w', h) <==> IsOwed(w, h) && h != f {
      if IsOwed(w', h) {
        var k :| 0 <= k < |w'| && h in Unreturned(w'[k].pool);
        assert h in Unreturned(w[k].pool) && h in w[k].pool.Keys && f in w[i].pool.Keys;
      }
      if IsOwed(w, h) && h != f {
        var k :| 0 <= k < |w| && h in Unreturned(w[k].pool);
        assert h in Unreturned(w'[k].pool);
      }
    }
  }

  /** Dropping a generation that has everything back changes nothing that is owed. */
  lemma DroppedGen(w: seq<Gen>, i: nat)
    requires Apart(w) && i < |w| && Unreturned(w[i].pool) == {}
    ensures Apart(RemoveAt(w, i)) && forall h :: IsOwed(RemoveAt(w, i), h) <==> IsOwed(w, h)
  {
    hide Unreturned;
    var w' := RemoveAt(w, i);
    forall h ensures IsOwed(w', h) <==> IsOwed(w, h) {
      if IsOwed(w', h) {
        var k :| 0 <= k < |w'| && h in Unreturned(w'[k].pool);
        assert h in Unreturned(w[if k < i then k else k + 1].pool);
      }
      if IsOwed(w, h) {
        var k :| 0 <= k < |w| && h in Unreturned(w[k].pool);
        assert h in Unreturned(w'[if k < i then k else k - 1].pool);
      }
    }
  }

  lemma {:induction false} LivePrefix(children: seq<Gen>)
    ensures Live(children) <= children && forall k | 0 <= k < |Live(children)| :: Live(children)[k].pool != map[]
  {
    if children != [] && children[0].pool != map[] { LivePrefix(children[1..]); }
  }

  /** New generations add exactly their own tasks to what is owed. */
  lemma AddedGens(c: Commands, cache: set<FlagSet>, w: seq<Gen>, live: seq<Gen>)
    requires Apart(w) && RespectsCache(cache, live) && forall k, f | 0 <= k < |w| && f in w[k].pool :: f in cache
    requires forall k | 0 <= k < |live| :: live[k].pool != map[]
    ensures Apart(w + live)
    ensures forall k | 0 <= k < |live| :: Accounted(c, live[k]) && live[k].pending >= 1
    ensures forall h :: IsOwed(w + live, h) <==> IsOwed(w, h) || h in PoolFlags(live)
  {
    hide Accounted, Unreturned;
    forall k | 0 <= k < |live| ensures Accounted(c, live[k]) && live[k].pending >= 1 && Unreturned(live[k].pool) == live[k].pool.Keys {
      NewGenAccounted(c, live[k].pool.Keys);
      assert live[k].pool.Keys != {};
    }
    forall h ensures IsOwed(w + live, h) <==> IsOwed(w, h) || h in PoolFlags(live) {
      if IsOwed(w, h) {
        var k :| 0 <= k < |w| && h in Unreturned(w[k].pool);
        assert h in Unreturned((w + live)[k].pool);
      }
      if h in PoolFlags(live) {
        var k :| 0 <= k < |live| && h in live[k].pool;
        assert h in Unreturned((w + live)[|w| + k].pool);
      }
      if IsOwed(w + live, h) {
        var k :| 0 <= k < |w + live| && h in Unreturned((w + live)[k].pool);
        if k >= |w| { assert h in live[k - |w|].pool; }
      }
    }
  }

  lemma {:induction false} FreshCount(order: seq<FlagSet>, f: FlagSet)
    requires NoRepeat(order)
    ensures Count(FreshTasks(order), HasFlags(f)) == One(f in order)
  {
    if order != [] {
      assert FreshTasks(order)[1..] == FreshTasks(order[1..]);
      FreshCount(order[1..], f);
    }
  }

  /** Taking the head off the return queue, with Steering left as st. */
  lemma TakenPlaces(c: Commands, s: Loop, st: Steering, h: FlagSet)
    requires s.toSteer != [] && s.toSteer[0].Work? && s.steering.outbox == []
    ensures Places(c, s.(steering := st, toSteer := s.toSteer[1..]), h) + One(h == s.toSteer[0].task.flags) ==
            Places(c, s, h) + Count(st.outbox, HasFlags(h))
  {
    GetCount(s.toSteer, HasFlags(h));
  }

  lemma ReceiveOneConserves(c: Commands, s: Loop, i: nat)
    requires LoopInv(c, s) && s.steering.outbox == [] && s.toSteer != [] && s.toSteer[0].Work?
    requires i < |s.steering.waiting| && s.toSteer[0].task.flags in Unreturned(s.steering.waiting[i].pool)
    requires s.toSteer[0].task == TestedTask(c, s.toSteer[0].task.flags)
    ensures var st := s.steering.(waiting := s.steering.waiting[i := Updated(s.steering.waiting[i], s.toSteer[0].task)]);
            && Conserved(c, s.(steering := st, toSteer := s.toSteer[1..]))
            && Apart(st.waiting) && st.waiting[i].pending >= 0
            && (forall k | 0 <= k < |st.waiting| :: Accounted(c, st.waiting[k]) && st.waiting[k].pool.Keys == s.steering.waiting[k].pool.Keys)
  {
    hide StageInv, Shapes, Places, Apart, Accounted;
    var f, w := s.toSteer[0].task.flags, s.steering.waiting;
    UpdatedGens(c, w, i, f);
    var st := s.steering.(waiting := w[i := Updated(w[i], TestedTask(c, f))]);
    var s' := s.(steering := st, toSteer := s.toSteer[1..]);
    forall h ensures Places(c, s', h) == One(IsOwed(st.waiting, h)) {
      TakenPlaces(c, s, st, h);
      assert Places(c, s, h) == One(IsOwed(w, h));
      if h == f { assert IsOwed(w, h); }
    }
  }

  lemma ReceiveOne(c: Commands, s: Loop)
    requires LoopInv(c, s) && Can(s, Receive([], [])) && !Completes(s)
    ensures LoopInv(c, Go(c, s, Receive([], [])))
  {
    hide StageInv, StageShaped, Owner, IsOwed, Conserved, Apart, Accounted;
    ExactlyOneAccepts(c, s);
    var t, w := s.toSteer[0].task, s.steering.waiting;
    var i := Owner(w, t.flags);
    ReceiveOneConserves(c, s, i);
    var s' := Go(c, s, Receive([], []));
    assert s'.steering.waiting == w[i := Updated(w[i], t)];
    assert forall k, f | 0 <= k < |w| && f in s'.steering.waiting[k].pool :: f in w[k].pool.Keys;
  }

  lemma RestConserves(c: Commands, s: Loop, s': Loop, live: seq<Gen>, order: seq<FlagSet>)
    requires Conserved(c, s) && s.steering.outbox == [] && Enumerates(order, PoolFlags(live))
    requires s' == s.(steering := s'.steering) && s'.steering.outbox == FreshTasks(order)
    requires forall h :: IsOwed(s'.steering.waiting, h) <==> IsOwed(s.steering.waiting, h) || h in PoolFlags(live)
    requires forall h | h in PoolFlags(live) :: !IsOwed(s.steering.waiting, h)
    ensures Conserved(c, s')
  {
    forall h ensures Places(c, s', h) == One(IsOwed(s'.steering.waiting, h)) {
      FreshCount(order, h);
      assert Places(c, s, h) == One(IsOwed(s.steering.waiting, h));
    }
  }

  /** A finished generation makes way for its children. */
  lemma ReplacedGens(c: Commands, cache: set<FlagSet>, w: seq<Gen>, i: nat, live: seq<Gen>)
    requires Apart(w) && i < |w| && w[i].pending == 0
    requires forall k | 0 <= k < |w| :: Accounted(c, w[k]) && (k != i ==> w[k].pending >= 1)
    requires forall k, f | 0 <= k < |w| && f in w[k].pool :: f in cache
    requires RespectsCache(cache, live) && forall k | 0 <= k < |live| :: live[k].pool != map[]
    ensures var w' := RemoveAt(w, i) + live;
            && Apart(w') && (forall k | 0 <= k < |w'| :: Accounted(c, w'[k]) && w'[k].pending >= 1)
            && (forall h :: IsOwed(w', h) <==> IsOwed(w, h) || h in PoolFlags(live))
            && (forall k, f | 0 <= k < |w'| && f in w'[k].pool :: f in cache || f in PoolFlags(live))
  {
    var rest := RemoveAt(w, i);
    DroppedGen(w, i);
    assert forall k | 0 <= k < |rest| :: rest[k] == w[if k < i then k else k + 1];
    AddedGens(c, cache, rest, live);
  }

  lemma LiveRespects(cache: set<FlagSet>, children: seq<Gen>)
    requires RespectsCache(cache, children)
    ensures RespectsCache(cache, Live(children)) && forall k | 0 <= k < |Live(children)| :: Live(children)[k].pool != map[]
  {
    LivePrefix(children);
  }

  lemma ReceiveLastGens(c: Commands, s: Loop, children: seq<Gen>, order: seq<FlagSet>)
    requires LoopInv(c, s) && Can(s, Receive(children, order)) && Completes(s)
    ensures var s' := Go(c, s, Receive(children, order)); GensOk(c, s'.steering) && Conserved(c, s')
    ensures var st := Go(c, s, Receive(children, order)).steering; st.status.Running? || st.status.Failing?
  {
    hide StageInv, Shapes, Owner, Places, IsOwed, Conserved, Apart, Accounted, PoolFlags;
    ExactlyOneAccepts(c, s);
    var t, w, live, cache := s.toSteer[0].task, s.steering.waiting, Live(children), s.steering.cache;
    var i := Owner(w, t.flags);
    ReceiveOneConserves(c, s, i);
    var w1 := w[i := Updated(w[i], t)];
    var s1 := s.(steering := s.steering.(waiting := w1), toSteer := s.toSteer[1..]);
    InCache(c, s.steering, w1);
    LiveRespects(cache, children);
    ReplacedGens(c, cache, w1, i, live);
    var s' := Go(c, s, Receive(children, order));
    assert RemoveAt(w1, i) == RemoveAt(w, i);
    NewNotOwed(cache, w1, live);
    RestConserves(c, s1, s', live, order);
    NewInOutbox(live, order);
  }

  lemma InCache(c: Commands, st: Steering, w: seq<Gen>)
    requires GensOk(c, st) && st.outbox == [] && |w| == |st.waiting|
    requires forall k | 0 <= k < |w| :: w[k].pool.Keys == st.waiting[k].pool.Keys
    ensures forall k, f | 0 <= k < |w| && f in w[k].pool :: f in st.cache
  {
    forall k, f | 0 <= k < |w| && f in w[k].pool ensures f in st.cache {
      assert f in w[k].pool.Keys && f in st.waiting[k].pool;
    }
  }

  lemma NewNotOwed(cache: set<FlagSet>, w: seq<Gen>, live: seq<Gen>)
    requires forall k, f | 0 <= k < |w| && f in w[k].pool :: f in cache
    requires forall i | 0 <= i < |live| :: live[i].pool.Keys !! cache
    ensures forall h | h in PoolFlags(live) :: !IsOwed(w, h)
  {
    forall h | h in PoolFlags(live) ensures !IsOwed(w, h) {
      var i :| 0 <= i < |live| && h in live[i].pool;
      assert h in live[i].pool.Keys;
    }
  }

  lemma NewInOutbox(live: seq<Gen>, order: seq<FlagSet>)
    requires Enumerates(order, PoolFlags(live))
    ensures forall f | f in PoolFlags(live) :: Fresh(f) in FreshTasks(order)
  {
    forall f | f in PoolFlags(live) ensures Fresh(f) in FreshTasks(order) {
      assert f in order;
      var j :| 0 <= j < |order| && order[j] == f;
      assert FreshTasks(order)[j] == Fresh(f);
    }
  }

  lemma ReceiveLast(c: Commands, s: Loop, children: seq<Gen>, order: seq<FlagSet>)
    requires LoopInv(c, s) && Can(s, Receive(children, order)) && Completes(s)
    ensures LoopInv(c, Go(c, s, Receive(children, order)))
  {
    hide StageInv, GensOk, Conserved, StageShaped, Owner, Live, RespectsCache, Enumerates;
    ReceiveLastGens(c, s, children, order);
    var s' := Go(c, s, Receive(children, order));
    assert forall t | t in s'.steering.outbox :: Shaped(c, 0, t);
  }

  /** Every move of every process keeps the invariant of the loop. */
  lemma GoKeepsInv(c: Commands, s: Loop, l: Label)
    requires LoopInv(c, s) && Can(s, l)
    ensures LoopInv(c, Go(c, s, l))
  {
    match l
    case InBuild(a) => BuildKeepsInv(c, s, a);
    case InTest(a) => TestKeepsInv(c, s, a);
    case Submit => SubmitKeepsInv(c, s);
    case Receive(children, order) =>
      if Completes(s) { ReceiveLast(c, s, children, order); } else { ReceiveOne(c, s); }
    case SendPill => SendPillKeepsInv(c, s);
  }
}
