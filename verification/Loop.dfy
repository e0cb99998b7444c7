/** The whole feedback loop: Steering, the build stage and the test stage, joined by queues.

    What a finished generation produces is any list of generations that respects the cache;
    the module Steered shows that the two algorithms do, and what comes of it. */
module Loop {
  import opened Tasks
  import opened Stage
  import opened StageRuns
  import opened Generations

  /** Failing: a child generation was empty and the assertion on it stops Steering.
      Crashed: no waiting generation accepts a task, or a count would drop below zero. */
  datatype Status = Running | Failing | Finished | Crashed

  datatype Steering = Steering(cache: set<FlagSet>, waiting: seq<Gen>, outbox: seq<Task>, status: Status)

  datatype Loop = Loop(steering: Steering, toBuild: seq<Message>, build: Stage, toTest: seq<Message>, test: Stage,
                       toSteer: seq<Message>)

  /** Receive carries what Next gives if the task completes its generation, and the order in
      which the tasks of the new generations are enumerated. */
  datatype Label = InBuild(a: Action) | InTest(a: Action) | Submit | Receive(children: seq<Gen>, order: seq<FlagSet>) | SendPill

  function BuildPort(s: Loop): Port {
    Port(s.toBuild, s.build, s.toTest)
  }

  function TestPort(s: Loop): Port {
    Port(s.toTest, s.test, s.toSteer)
  }

  /** The first waiting generation that holds the flags, or the length. */
  function Owner(waiting: seq<Gen>, f: FlagSet): (i: nat)
    ensures i <= |waiting| && (i < |waiting| ==> f in waiting[i].pool)
    ensures forall j | 0 <= j < i :: f !in waiting[j].pool
  {
    if waiting == [] || f in waiting[0].pool then 0 else 1 + Owner(waiting[1..], f)
  }

  /** The children up to the first empty one. */
  function Live(children: seq<Gen>): seq<Gen> {
    if children == [] || children[0].pool == map[] then [] else [children[0]] + Live(children[1..])
  }

  function PoolFlags(gens: seq<Gen>): set<FlagSet> {
    set i, f | 0 <= i < |gens| && f in gens[i].pool :: f
  }

  predicate Apart(gens: seq<Gen>) {
    forall i, j | 0 <= i < j < |gens| :: gens[i].pool.Keys !! gens[j].pool.Keys
  }

  /** What every Next promises: untried tasks only, each in one generation. */
  ghost predicate RespectsCache(cache: set<FlagSet>, children: seq<Gen>) {
    && (forall i | 0 <= i < |children| :: children[i] == NewGen(children[i].pool.Keys))
    && (forall i | 0 <= i < |children| :: children[i].pool.Keys !! cache)
    && Apart(children)
  }

  ghost predicate Enumerates(order: seq<FlagSet>, flags: set<FlagSet>) {
    NoRepeat(order) && (forall f :: f in order <==> f in flags)
  }

  /** Whether the task at the head of the queue completes the generation that accepts it. */
  predicate Completes(s: Loop)
    requires s.toSteer != []
  {
    && s.toSteer[0].Work?
    && var i := Owner(s.steering.waiting, s.toSteer[0].task.flags);
       i < |s.steering.waiting| && s.steering.waiting[i].pending == 1
  }

  ghost predicate Can(s: Loop, l: Label) {
    var st := s.steering;
    match l
    case InBuild(a) => Enabled(BuildPort(s), a)
    case InTest(a) => Enabled(TestPort(s), a)
    case Submit => st.outbox != []
    case Receive(children, order) =>
      && st.status.Running? && st.outbox == [] && st.waiting != [] && s.toSteer != []
      && if Completes(s) then RespectsCache(st.cache, children) && Enumerates(order, PoolFlags(Live(children)))
         else children == [] && order == []
    case SendPill => st.status.Running? && st.outbox == [] && st.waiting == []
  }

  function FreshTasks(order: seq<FlagSet>): seq<Task> {
    seq(|order|, i requires 0 <= i < |order| => Fresh(order[i]))
  }

  function Received(st: Steering, m: Message, children: seq<Gen>, order: seq<FlagSet>): Steering {
    if m.Pill? then st.(status := Crashed) else
    var i := Owner(st.waiting, m.task.flags);
    if i == |st.waiting| then st.(status := Crashed) else
    var g := Updated(st.waiting[i], m.task);
    if g.pending < 0 then st.(status := Crashed)
    else if g.pending != 0 then st.(waiting := st.waiting[i := g])
    else
      st.(waiting := RemoveAt(st.waiting, i) + Live(children), outbox := FreshTasks(order),
          status := if Live(children) == children then Running else Failing)
  }

  function Go(c: Commands, s: Loop, l: Label): Loop
    requires Can(s, l)
  {
    var st := s.steering;
    match l
    case InBuild(a) =>
      var p := Step(c, Build, BuildPort(s), a);
      s.(toBuild := p.input, build := p.stage, toTest := p.output)
    case InTest(a) =>
      var p := Step(c, Test, TestPort(s), a);
      s.(toTest := p.input, test := p.stage, toSteer := p.output)
    case Submit =>
      s.(steering := st.(outbox := st.outbox[1..], cache := st.cache + {st.outbox[0].flags}),
         toBuild := s.toBuild + [Work(st.outbox[0])])
    case Receive(children, order) =>
      s.(steering := Received(st, s.toSteer[0], children, order), toSteer := s.toSteer[1..])
    case SendPill =>
      s.(steering := st.(status := Finished), toBuild := s.toBuild + [Pill])
  }

  // ---------- the invariant ----------

  function HasFlags(f: FlagSet): Task -> bool {
    (t: Task) => t.flags == f
  }

  /** In how many places of the loop a task with the given flags is. */
  function Places(c: Commands, s: Loop, f: FlagSet): nat {
    var g := HasFlags(f);
    Count(s.steering.outbox, g) + QueueCount(s.toBuild, g) + Inside(c, Build, s.build, g) + QueueCount(s.toTest, g) +
    Inside(c, Test, s.test, g) + QueueCount(s.toSteer, g)
  }

  /** Some waiting generation has not got this task back. */
  predicate IsOwed(waiting: seq<Gen>, f: FlagSet) {
    exists i :: 0 <= i < |waiting| && f in Unreturned(waiting[i].pool)
  }

  ghost predicate Conserved(c: Commands, s: Loop) {
    forall f :: Places(c, s, f) == One(IsOwed(s.steering.waiting, f))
  }

  ghost predicate GensOk(c: Commands, st: Steering) {
    && Apart(st.waiting)
    && (forall i | 0 <= i < |st.waiting| :: Accounted(c, st.waiting[i]) && st.waiting[i].pending >= 1)
    && (forall i, f | 0 <= i < |st.waiting| && f in st.waiting[i].pool :: f in st.cache || Fresh(f) in st.outbox)
  }

  /** The task has been through exactly the first n stages. */
  predicate Shaped(c: Commands, n: nat, t: Task) {
    t == Form(c, n, t.flags)
  }

  ghost predicate QueueShaped(c: Commands, n: nat, q: seq<Message>) {
    forall m | m in q && m.Work? :: Shaped(c, n, m.task)
  }

  /** What a stage holds is as it came in; what a worker has reported is as it will go out. */
  ghost predicate StageShaped(c: Commands, n: nat, s: Stage) {
    && (forall t | t in s.pool :: Shaped(c, n, t)) && (forall t | t in s.waiting :: Shaped(c, n, t))
    && QueueShaped(c, n, s.duplicates) && (forall t | t in s.reported :: Shaped(c, n + 1, t))
  }

  /** Every task is exactly as far along as the place it is in. */
  ghost predicate Shapes(c: Commands, s: Loop) {
    && (forall t | t in s.steering.outbox :: Shaped(c, 0, t))
    && QueueShaped(c, 0, s.toBuild) && StageShaped(c, 0, s.build)
    && QueueShaped(c, 1, s.toTest) && StageShaped(c, 1, s.test) && QueueShaped(c, 2, s.toSteer)
  }

  /** The one pill of the loop: sent when nothing is waited for, then passed on through empty queues. */
  ghost predicate PillPassed(s: Loop) {
    var sent, built, tested := s.steering.status.Finished?, !s.build.phase.Pulling?, !s.test.phase.Pulling?;
    && (!sent ==> !built && !tested && Pill !in s.toBuild && Pill !in s.toTest && Pill !in s.toSteer)
    && (sent ==> s.steering.waiting == [] && (tested ==> built))
    && (sent && !built ==> s.toBuild == [Pill] && s.toTest == [] && s.toSteer == [])
    && (sent && built && !tested ==> s.toBuild == [] && s.toTest == [Pill] && s.toSteer == [])
    && (sent && tested ==> s.toBuild == [] && s.toTest == [] && s.toSteer == [Pill])
  }

  ghost predicate LoopInv(c: Commands, s: Loop) {
    && StageInv(c, Build, s.build) && StageInv(c, Test, s.test)
    && GensOk(c, s.steering) && Shapes(c, s) && Conserved(c, s) && PillPassed(s) && !s.steering.status.Crashed?
  }

  // ---------- counting by flags ----------

  lemma {:induction false} DueIsCount(c: Commands, id: StageId, ts: seq<Task>, f: FlagSet)
    ensures Due(c, id, ts, HasFlags(f)) == Count(ts, HasFlags(f))
  {
    if ts != [] { DueIsCount(c, id, ts[1..], f); }
  }

  lemma {:induction false} CountPositive(ts: seq<Task>, t: Task)
    requires t in ts
    ensures Count(ts, HasFlags(t.flags)) > 0
  {
    if ts[0] != t { CountPositive(ts[1..], t); }
  }

  lemma {:induction false} QueuePositive(q: seq<Message>, t: Task)
    requires Work(t) in q
    ensures QueueCount(q, HasFlags(t.flags)) > 0
  {
    if q[0] == Work(t) {
      assert t in TasksOf(q);
      CountPositive(TasksOf(q), t);
    } else {
      QueuePositive(q[1..], t);
      CountAppend(if q[0].Work? then [q[0].task] else [], TasksOf(q[1..]), HasFlags(t.flags));
    }
  }

  /** Nothing is in flight: no task in any queue, pool, list or outbox. */
  ghost predicate Quiet(s: Loop) {
    && s.steering.outbox == [] && NoWork(s.toBuild) && NoWork(s.toTest) && NoWork(s.toSteer)
    && Idle(s.build) && Idle(s.test)
  }

  lemma HeldInside(c: Commands, id: StageId, s: Stage, t: Task)
    requires t in s.pool || t in s.waiting || t in s.reported || Work(t) in s.duplicates
    ensures Inside(c, id, s, HasFlags(t.flags)) > 0
  {
    DueIsCount(c, id, s.pool, t.flags);
    DueIsCount(c, id, s.waiting, t.flags);
    DueIsCount(c, id, TasksOf(s.duplicates), t.flags);
    if t in s.pool { CountPositive(s.pool, t); }
    if t in s.waiting { CountPositive(s.waiting, t); }
    if t in s.reported { CountPositive(s.reported, t); }
    if Work(t) in s.duplicates { QueuePositive(s.duplicates, t); }
  }

  lemma NoneInside(c: Commands, id: StageId, s: Stage)
    requires forall f :: Inside(c, id, s, HasFlags(f)) == 0
    ensures Idle(s)
  {
    if s.pool != [] { HeldInside(c, id, s, s.pool[0]); }
    if s.waiting != [] { HeldInside(c, id, s, s.waiting[0]); }
    if s.reported != [] { HeldInside(c, id, s, s.reported[0]); }
    forall m | m in s.duplicates ensures m.Pill? {
      if m.Work? { HeldInside(c, id, s, m.task); }
    }
  }

  lemma NoneQueued(q: seq<Message>)
    requires forall f :: QueueCount(q, HasFlags(f)) == 0
    ensures NoWork(q)
  {
    forall m | m in q ensures m.Pill? {
      if m.Work? { QueuePositive(q, m.task); }
    }
  }

  /** When no generation waits, nothing is in flight. */
  lemma NothingOwedIsQuiet(c: Commands, s: Loop)
    requires Conserved(c, s) && s.steering.waiting == []
    ensures Quiet(s)
  {
    forall f
      ensures Inside(c, Build, s.build, HasFlags(f)) == 0 && Inside(c, Test, s.test, HasFlags(f)) == 0
      ensures QueueCount(s.toBuild, HasFlags(f)) == QueueCount(s.toTest, HasFlags(f)) == QueueCount(s.toSteer, HasFlags(f)) == 0
      ensures Count(s.steering.outbox, HasFlags(f)) == 0
    {
      assert Places(c, s, f) == 0;
    }
    NoneInside(c, Build, s.build);
    NoneInside(c, Test, s.test);
    NoneQueued(s.toBuild);
    NoneQueued(s.toTest);
    NoneQueued(s.toSteer);
    if s.steering.outbox != [] { CountPositive(s.steering.outbox, s.steering.outbox[0]); }
  }
}
