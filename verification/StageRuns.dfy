/** What a stage does over whole runs, for every interleaving of its processes and of the
    process that feeds it. */
module StageRuns {
  import opened Tasks
  import opened Stage

  // ---------- conservation ----------

  function TasksOf(q: seq<Message>): seq<Task> {
    if q == [] then [] else (if q[0].Work? then [q[0].task] else []) + TasksOf(q[1..])
  }

  function Finished(c: Commands, id: StageId, ts: seq<Task>): seq<Task> {
    seq(|ts|, i requires 0 <= i < |ts| => Finish(c, id, ts[i]))
  }

  function One(same: bool): nat {
    if same then 1 else 0
  }

  /** How many of the tasks pass the test g. */
  function Count(ts: seq<Task>, g: Task -> bool): nat {
    if ts == [] then 0 else One(g(ts[0])) + Count(ts[1..], g)
  }

  /** How many of the tasks pass the test g once the stage is through with them. */
  function Due(c: Commands, id: StageId, ts: seq<Task>, g: Task -> bool): nat {
    if ts == [] then 0 else One(g(Finish(c, id, ts[0]))) + Due(c, id, ts[1..], g)
  }

  function QueueCount(q: seq<Message>, g: Task -> bool): nat {
    Count(TasksOf(q), g)
  }

  function QueueDue(c: Commands, id: StageId, q: seq<Message>, g: Task -> bool): nat {
    Due(c, id, TasksOf(q), g)
  }

  /** The share of the stage itself. */
  function Inside(c: Commands, id: StageId, s: Stage, g: Task -> bool): nat {
    QueueDue(c, id, s.duplicates, g) + Due(c, id, s.waiting, g) + Due(c, id, s.pool, g) + Count(s.reported, g)
  }

  /** How many tasks passing g will have been put out once everything at hand is through. */
  function Content(c: Commands, id: StageId, p: Port, g: Task -> bool): nat {
    QueueDue(c, id, p.input, g) + Inside(c, id, p.stage, g) + QueueCount(p.output, g)
  }

  lemma {:induction false} TasksOfAppend(a: seq<Message>, b: seq<Message>)
    ensures TasksOf(a + b) == TasksOf(a) + TasksOf(b)
  {
    if a == [] {
      assert a + b == b;
    } else {
      assert (a + b)[1..] == a[1..] + b && (a + b)[0] == a[0];
      TasksOfAppend(a[1..], b);
      var head := if a[0].Work? then [a[0].task] else [];
      assert TasksOf(a + b) == head + (TasksOf(a[1..]) + TasksOf(b)) == (head + TasksOf(a[1..])) + TasksOf(b);
    }
  }

  lemma TasksOfOne(q: seq<Message>, m: Message)
    ensures TasksOf(q + [m]) == if m.Work? then TasksOf(q) + [m.task] else TasksOf(q)
  {
    TasksOfAppend(q, [m]);
    assert [m][1..] == [];
  }

  lemma {:induction false} CountAppend(a: seq<Task>, b: seq<Task>, g: Task -> bool)
    ensures Count(a + b, g) == Count(a, g) + Count(b, g)
  {
    if a == [] {
      assert a + b == b;
    } else {
      assert (a + b)[1..] == a[1..] + b;
      CountAppend(a[1..], b, g);
    }
  }

  lemma {:induction false} DueAppend(c: Commands, id: StageId, a: seq<Task>, b: seq<Task>, g: Task -> bool)
    ensures Due(c, id, a + b, g) == Due(c, id, a, g) + Due(c, id, b, g)
  {
    if a == [] {
      assert a + b == b;
    } else {
      assert (a + b)[1..] == a[1..] + b;
      DueAppend(c, id, a[1..], b, g);
    }
  }

  function Is(x: Task): Task -> bool {
    t => t == x
  }

  lemma {:induction false} CountMultiset(ts: seq<Task>, x: Task)
    ensures Count(ts, Is(x)) == multiset(ts)[x]
  {
    if ts != [] {
      assert ts == [ts[0]] + ts[1..];
      CountMultiset(ts[1..], x);
    }
  }

  lemma {:induction false} DueCount(c: Commands, id: StageId, ts: seq<Task>, g: Task -> bool)
    ensures Due(c, id, ts, g) == Count(Finished(c, id, ts), g)
  {
    if ts != [] {
      assert Finished(c, id, ts)[1..] == Finished(c, id, ts[1..]);
      DueCount(c, id, ts[1..], g);
    }
  }

  lemma CountOne(ts: seq<Task>, t: Task, g: Task -> bool)
    ensures Count(ts + [t], g) == Count(ts, g) + One(g(t))
  {
    CountAppend(ts, [t], g);
    assert [t][1..] == [];
  }

  lemma CountRemove(ts: seq<Task>, i: nat, g: Task -> bool)
    requires i < |ts|
    ensures Count(ts, g) == Count(RemoveAt(ts, i), g) + One(g(ts[i]))
  {
    hide Count;
    assert ts == ts[..i] + ([ts[i]] + ts[i + 1..]);
    CountAppend(ts[..i], [ts[i]] + ts[i + 1..], g);
    CountAppend(ts[..i], ts[i + 1..], g);
    CountCons(ts[i], ts[i + 1..], g);
  }

  lemma CountCons(t: Task, ts: seq<Task>, g: Task -> bool)
    ensures Count([t] + ts, g) == One(g(t)) + Count(ts, g)
  {
    assert ([t] + ts)[1..] == ts;
  }

  lemma DueCons(c: Commands, id: StageId, t: Task, ts: seq<Task>, g: Task -> bool)
    ensures Due(c, id, [t] + ts, g) == One(g(Finish(c, id, t))) + Due(c, id, ts, g)
  {
    assert ([t] + ts)[1..] == ts;
  }

  lemma PutCount(q: seq<Message>, t: Task, g: Task -> bool)
    ensures QueueCount(q + [Work(t)], g) == QueueCount(q, g) + One(g(t))
  {
    TasksOfOne(q, Work(t));
    CountOne(TasksOf(q), t, g);
  }

  lemma DueOne(c: Commands, id: StageId, ts: seq<Task>, t: Task, g: Task -> bool)
    ensures Due(c, id, ts + [t], g) == Due(c, id, ts, g) + One(g(Finish(c, id, t)))
  {
    DueAppend(c, id, ts, [t], g);
    assert [t][1..] == [];
  }

  lemma DueRemove(c: Commands, id: StageId, ts: seq<Task>, i: nat, g: Task -> bool)
    requires i < |ts|
    ensures Due(c, id, ts, g) == Due(c, id, RemoveAt(ts, i), g) + One(g(Finish(c, id, ts[i])))
  {
    hide Due, Finish;
    assert ts == ts[..i] + ([ts[i]] + ts[i + 1..]);
    DueAppend(c, id, ts[..i], [ts[i]] + ts[i + 1..], g);
    DueAppend(c, id, ts[..i], ts[i + 1..], g);
    DueCons(c, id, ts[i], ts[i + 1..], g);
  }

  lemma PutDue(c: Commands, id: StageId, q: seq<Message>, m: Message, g: Task -> bool)
    ensures QueueDue(c, id, q + [m], g) == QueueDue(c, id, q, g) + One(m.Work? && g(Finish(c, id, m.task)))
  {
    TasksOfOne(q, m);
    if m.Work? { DueOne(c, id, TasksOf(q), m.task, g); }
  }

  lemma GetDue(c: Commands, id: StageId, q: seq<Message>, g: Task -> bool)
    requires q != []
    ensures QueueDue(c, id, q, g) == QueueDue(c, id, q[1..], g) + One(q[0].Work? && g(Finish(c, id, q[0].task)))
  {
    if q[0].Work? {
      assert TasksOf(q)[1..] == TasksOf(q[1..]);
    } else {
      assert TasksOf(q) == TasksOf(q[1..]);
    }
  }

  lemma PullConserves(c: Commands, id: StageId, p: Port, g: Task -> bool)
    requires Enabled(p, Pull)
    ensures Content(c, id, Pulled(c, id, p), g) == Content(c, id, p, g)
  {
    hide Due, Count, TasksOf, Key, Finish;
    var s, m := p.stage, p.input[0];
    GetDue(c, id, p.input, g);
    PutDue(c, id, s.duplicates, m, g);
    if m.Work? { DueOne(c, id, s.pool, m.task, g); } else { TasksOfOne(p.output, m); }
  }

  lemma PollConserves(c: Commands, id: StageId, p: Port, g: Task -> bool)
    requires StageInv(c, id, p.stage) && Enabled(p, Poll)
    ensures Content(c, id, Polled(c, id, p), g) == Content(c, id, p, g)
  {
    var s, m := p.stage, p.stage.duplicates[0];
    GetDue(c, id, s.duplicates, g);
    if m.Work? {
      DueOne(c, id, s.waiting, m.task, g);
      PutCount(p.output, Finish(c, id, m.task), g);
    }
  }

  lemma ResolveConserves(c: Commands, id: StageId, p: Port, g: Task -> bool)
    requires StageInv(c, id, p.stage) && Enabled(p, Resolve)
    ensures Content(c, id, Resolved(id, p), g) == Content(c, id, p, g)
  {
    InvBatch(c, id, p.stage);
    RemovesTheResolved(c, id, p);
    ResultIsFinish(c, id, p);
    hide StageInv, Due, Count, TasksOf, Finish, RemoveEqual, Matching, SetResult;
    var s := p.stage;
    var i := FirstWith(c, id, s.waiting, s.resolving.value.entry.key);
    if i < |s.waiting| {
      DueRemove(c, id, s.waiting, i, g);
      PutCount(p.output, Finish(c, id, s.waiting[i]), g);
    }
  }

  lemma ResultIsFinish(c: Commands, id: StageId, p: Port)
    requires StageInv(c, id, p.stage) && p.stage.resolving.Some?
    ensures var s, e := p.stage, p.stage.resolving.value.entry; var i := FirstWith(c, id, s.waiting, e.key);
            i < |s.waiting| ==> SetResult(id, s.waiting[i], e.outcome) == Finish(c, id, s.waiting[i])
  {
  }

  /** No action loses, invents or alters a task: what is at hand, taken as finished, stays the same. */
  lemma StepConserves(c: Commands, id: StageId, p: Port, a: Action, g: Task -> bool)
    requires StageInv(c, id, p.stage) && Enabled(p, a)
    ensures Content(c, id, Step(c, id, p, a), g) == Content(c, id, p, g)
  {
    var s := p.stage;
    match a
    case Pull => PullConserves(c, id, p, g);
    case DoWork(i) =>
      DueRemove(c, id, s.pool, i, g);
      CountOne(s.reported, Finish(c, id, s.pool[i]), g);
    case PutOut(i) =>
      CountRemove(s.reported, i, g);
      PutCount(p.output, s.reported[i], g);
    case Join => PutDue(c, id, s.duplicates, Pill, g);
    case Poll => PollConserves(c, id, p, g);
    case Collect =>
    case Resolve => ResolveConserves(c, id, p, g);
    case Leave =>
    case Stop =>
  }

  // ---------- progress ----------

  /** An upper bound on the number of actions left. */
  function Effort(p: Port): nat {
    var s := p.stage;
    8 * |p.input| + 6 * |s.pool| + |s.reported| + 3 * |s.duplicates| + 2 * |s.completed| + |s.waiting| +
    (if s.resolving.Some? then 1 else 0) +
    (match s.phase case Pulling => 6 case Joining => 5 case Stopping => 1 case Stopped => 0) +
    (match s.mode case Serving => 2 case Draining => 1 case Exited => 0)
  }

  lemma StepTakesEffort(c: Commands, id: StageId, p: Port, a: Action)
    requires Enabled(p, a)
    ensures Effort(Step(c, id, p, a)) < Effort(p)
  {
    match a
    case Pull => PullTakesEffort(c, id, p);
    case Poll => PollTakesEffort(c, id, p);
    case Resolve => ResolveTakesEffort(id, p);
    case DoWork(i) => WorkTakesEffort(c, id, p, i);
    case _ =>
  }

  lemma PullTakesEffort(c: Commands, id: StageId, p: Port)
    requires Enabled(p, Pull)
    ensures Effort(Pulled(c, id, p)) < Effort(p)
  {
    hide Key;
  }

  lemma WorkTakesEffort(c: Commands, id: StageId, p: Port, i: nat)
    requires Enabled(p, DoWork(i))
    ensures Effort(Worked(c, id, p, i)) < Effort(p)
  {
    hide Key, Finish, OutcomeOf;
  }

  lemma PollTakesEffort(c: Commands, id: StageId, p: Port)
    requires Enabled(p, Poll)
    ensures Effort(Polled(c, id, p)) < Effort(p)
  {
    hide Key, SetResult;
  }

  lemma ResolveTakesEffort(id: StageId, p: Port)
    requires Enabled(p, Resolve)
    ensures Effort(Resolved(id, p)) < Effort(p)
  {
    hide SetResult, RemoveEqual;
    if p.stage.resolving.value.tasks != [] { OneRemoved(p.stage.waiting, p.stage.resolving.value.tasks[0]); }
  }

  lemma {:induction false} OneRemoved(ts: seq<Task>, t: Task)
    requires HasEqual(ts, t)
    ensures |RemoveEqual(ts, t)| == |ts| - 1
  {
    if ts[0].flags != t.flags {
      var i :| 0 <= i < |ts| && ts[i].flags == t.flags;
      assert ts[1..][i - 1].flags == t.flags;
      OneRemoved(ts[1..], t);
    }
  }

  /** Whatever is enabled in a stage: if nothing is, the stage is idle with nothing in hand,
      and if it has taken its pill it has stopped. */
  lemma StuckMeansIdle(c: Commands, id: StageId, p: Port)
    requires StageInv(c, id, p.stage)
    requires forall a :: !Enabled(p, a)
    ensures p.stage.pool == [] && p.stage.reported == [] && p.stage.duplicates == [] && p.stage.waiting == []
    ensures p.stage.phase.Stopped? || (p.stage.phase.Pulling? && p.input == [])
  {
    var s := p.stage;
    assert !Enabled(p, Pull) && !Enabled(p, DoWork(0)) && !Enabled(p, PutOut(0)) && !Enabled(p, Join);
    assert !Enabled(p, Poll) && !Enabled(p, Collect) && !Enabled(p, Resolve) && !Enabled(p, Leave) && !Enabled(p, Stop);
    if s.resolving.Some? { RemovesTheResolved(c, id, p); }
    // the result of a waiting key would be neither in the dictionary nor with a worker, so still in the completed queue
    assert s.waiting != [] ==> Key(c, id, s.waiting[0]) in s.known;
  }

  // ---------- runs ----------

  datatype Event = Arrive(m: Message) | Act(a: Action)

  predicate Possible(p: Port, e: Event) {
    e.Arrive? || Enabled(p, e.a)
  }

  function Happen(c: Commands, id: StageId, p: Port, e: Event): Port
    requires Possible(p, e)
  {
    match e
    case Arrive(m) => p.(input := p.input + [m])
    case Act(a) => Step(c, id, p, a)
  }

  /** The state after a run, if each of its events was possible in turn. */
  function Replay(c: Commands, id: StageId, p: Port, run: seq<Event>): Option<Port> {
    if run == [] then Some(p) else
    match Replay(c, id, p, run[..|run| - 1])
    case None => None
    case Some(q) => if Possible(q, run[|run| - 1]) then Some(Happen(c, id, q, run[|run| - 1])) else None
  }

  function Arrivals(run: seq<Event>): seq<Message> {
    if run == [] then [] else
    Arrivals(run[..|run| - 1]) + (if run[|run| - 1].Arrive? then [run[|run| - 1].m] else [])
  }

  function Actions(run: seq<Event>): nat {
    if run == [] then 0 else Actions(run[..|run| - 1]) + (if run[|run| - 1].Act? then 1 else 0)
  }

  /** The puller has taken the first k arrivals, and a pill only as the last of them. */
  ghost predicate TakenInOrder(p: Port, arrivals: seq<Message>, k: nat) {
    && k <= |arrivals| && p.input == arrivals[k..]
    && (p.stage.phase.Pulling? ==> Pill !in arrivals[..k])
    && (!p.stage.phase.Pulling? ==> k > 0 && arrivals[k - 1] == Pill && Pill !in arrivals[..k - 1])
  }

  /** What the tasks fed to a stage have to be: ready for it, and equal flags mean equal keys.  The flags are the key in
      the build stage; in the test stage this asks that the flags determine the image. */
  ghost predicate ArrivalsFit(c: Commands, id: StageId, arrivals: seq<Message>) {
    && InputReady(id, arrivals)
    && forall t, u | Work(t) in arrivals && Work(u) in arrivals && t.flags == u.flags :: Key(c, id, t) == Key(c, id, u)
  }

  /** All at hand has arrived. */
  ghost predicate HasArrived(p: Port, arrivals: seq<Message>) {
    forall t | AtHand(p, t) :: Work(t) in arrivals
  }

  ghost predicate StartsEmpty(c: Commands, id: StageId, p: Port) {
    Starts(c, id, p.stage) && p.input == [] && p.output == []
  }

  /** A stage with de-duplication refines the plain stage.  In every run from a start:
      what is put out together with what is still at hand is, task for task, what arrived, each
      with the result its own key gives; no key is worked twice and no cached key at all; no
      assertion of worker or helper fails; and the number of actions is linear in the arrivals. */
  lemma {:induction false} RunConserves(c: Commands, id: StageId, p0: Port, run: seq<Event>) returns (k: nat)
    requires StartsEmpty(c, id, p0) && ArrivalsFit(c, id, Arrivals(run)) && Replay(c, id, p0, run).Some?
    ensures var p := Replay(c, id, p0, run).value;
            && StageInv(c, id, p.stage) && p.stage.seed == p0.stage.seed
            && (forall x :: Content(c, id, p, Is(x)) == QueueDue(c, id, Arrivals(run), Is(x)))
            && TakenInOrder(p, Arrivals(run), k) && HasArrived(p, Arrivals(run))
            && Actions(run) + Effort(p) <= 8 * |Arrivals(run)| + 8
  {
    if run == [] {
      StartInv(c, id, p0.stage);
      k := 0;
    } else {
      var n := |run| - 1;
      var e, q := run[n], Replay(c, id, p0, run[..n]).value;
      assert Arrivals(run[..n]) <= Arrivals(run);
      k := RunConserves(c, id, p0, run[..n]);
      k := EventConserves(c, id, q, e, Arrivals(run[..n]), k);
    }
  }

  lemma EventConserves(c: Commands, id: StageId, p: Port, e: Event, before: seq<Message>, k: nat) returns (k': nat)
    requires Possible(p, e) && StageInv(c, id, p.stage) && ArrivalsFit(c, id, before) && TakenInOrder(p, before, k) && HasArrived(p, before)
    requires forall x :: Content(c, id, p, Is(x)) == QueueDue(c, id, before, Is(x))
    ensures var p' := Happen(c, id, p, e);
            var after := before + (if e.Arrive? then [e.m] else []);
            && StageInv(c, id, p'.stage) && p'.stage.seed == p.stage.seed
            && (forall x :: Content(c, id, p', Is(x)) == QueueDue(c, id, after, Is(x)))
            && TakenInOrder(p', after, k') && HasArrived(p', after)
            && Effort(p') + (if e.Act? then 1 else 0) <= Effort(p) + 8 * (|after| - |before|)
  {
    hide StageInv, Content, QueueDue;
    k' := k;
    var p' := Happen(c, id, p, e);
    match e
    case Arrive(m) =>
      forall x ensures Content(c, id, p', Is(x)) == QueueDue(c, id, before + [m], Is(x)) {
        ArriveAdds(c, id, p, m, Is(x));
        PutDue(c, id, before, m, Is(x));
      }
    case Act(a) =>
      assert before + [] == before;
      ArrivedFits(c, id, p, before);
      StepKeepsInv(c, id, p, a);
      StepHasArrived(c, id, p, a);
      forall x ensures Content(c, id, p', Is(x)) == QueueDue(c, id, before, Is(x)) { StepConserves(c, id, p, a, Is(x)); }
      StepTakesEffort(c, id, p, a);
      k' := StepTakesInOrder(c, id, p, a, before, k);
  }

  lemma ArrivedFits(c: Commands, id: StageId, p: Port, arrivals: seq<Message>)
    requires ArrivalsFit(c, id, arrivals) && HasArrived(p, arrivals)
    ensures InputFits(c, id, p)
  {
    forall m | m in p.input && m.Work? ensures Ready(id, m.task) { assert AtHand(p, m.task); }
  }

  lemma {:induction false} LeftIn(ts: seq<Task>, t: Task, u: Task)
    requires u in RemoveEqual(ts, t)
    ensures u in ts
  {
    if ts != [] && ts[0].flags != t.flags && u != ts[0] { LeftIn(ts[1..], t, u); }
  }

  /** Nothing new comes to hand by an action. */
  lemma StepHasArrived(c: Commands, id: StageId, p: Port, a: Action)
    requires Enabled(p, a)
    ensures forall t | AtHand(Step(c, id, p, a), t) :: AtHand(p, t)
  {
    hide Key, Finish, OutcomeOf, SetResult, RemoveEqual;
    forall t | AtHand(Step(c, id, p, a), t) ensures AtHand(p, t) {
      if a.Resolve? && p.stage.resolving.value.tasks != [] && t in RemoveEqual(p.stage.waiting, p.stage.resolving.value.tasks[0]) {
        LeftIn(p.stage.waiting, p.stage.resolving.value.tasks[0], t);
      }
    }
  }

  lemma ArriveAdds(c: Commands, id: StageId, p: Port, m: Message, g: Task -> bool)
    ensures Content(c, id, p.(input := p.input + [m]), g) == Content(c, id, p, g) + One(m.Work? && g(Finish(c, id, m.task)))
  {
    PutDue(c, id, p.input, m, g);
  }

  lemma StepTakesInOrder(c: Commands, id: StageId, p: Port, a: Action, arrivals: seq<Message>, k: nat) returns (k': nat)
    requires TakenInOrder(p, arrivals, k) && Enabled(p, a)
    ensures TakenInOrder(Step(c, id, p, a), arrivals, k')
  {
    k' := k;
    if a.Pull? {
      k' := k + 1;
      assert arrivals[..k'] == arrivals[..k] + [arrivals[k]];
    }
  }

  /** A stage fed any tasks and then one pill can always go on until its puller and helper have
      stopped, and then it has put out exactly the finished form of every task it was fed: with its flags, and with all
      that compiling them gives, or beside that the cost of its image. */
  lemma StageCompletes(c: Commands, id: StageId, p0: Port, run: seq<Event>, fed: seq<Message>)
    requires StartsEmpty(c, id, p0) && Replay(c, id, p0, run).Some?
    requires Pill !in fed && Arrivals(run) == fed + [Pill] && ArrivalsFit(c, id, fed)
    requires forall a :: !Enabled(Replay(c, id, p0, run).value, a)
    ensures var p := Replay(c, id, p0, run).value;
            && p.stage.phase.Stopped? && p.input == []
            && multiset(TasksOf(p.output)) == multiset(Finished(c, id, TasksOf(fed)))
    ensures forall i | 0 <= i < |TasksOf(fed)| :: Ready(id, TasksOf(fed)[i]) && (id.Test? ==> TasksOf(fed)[i].build.Some?)
    ensures var out, ts := TasksOf(Replay(c, id, p0, run).value.output), TasksOf(fed);
            id.Build? ==> multiset(out) == multiset(seq(|ts|, i requires 0 <= i < |ts| =>
                            Task(ts[i].flags, Some(c.compile(c.format(ts[i].flags))), ts[i].exe)))
    ensures var out, ts := TasksOf(Replay(c, id, p0, run).value.output), TasksOf(fed);
            id.Test? ==> multiset(out) == multiset(seq(|ts|, i requires 0 <= i < |ts| && ts[i].build.Some? =>
                           Task(ts[i].flags, ts[i].build, Some(c.run(ts[i].build.value.checksum)))))
  {
    var p := Replay(c, id, p0, run).value;
    var k := RunConserves(c, id, p0, run);
    StuckMeansIdle(c, id, p);
    AllTaken(p, fed, k);
    OutputIsFinished(c, id, p, fed);
    FedTasks(fed);
    FinishedFields(c, id, TasksOf(fed));
  }

  lemma {:induction false} FedTasks(fed: seq<Message>)
    ensures forall t | t in TasksOf(fed) :: Work(t) in fed
  {
    if fed != [] {
      FedTasks(fed[1..]);
      assert fed[0] in fed && forall m | m in fed[1..] :: m in fed;
    }
  }

  lemma FinishedFields(c: Commands, id: StageId, ts: seq<Task>)
    requires forall t | t in ts :: Ready(id, t)
    ensures forall i | 0 <= i < |ts| :: Ready(id, ts[i]) && (id.Test? ==> ts[i].build.Some?)
    ensures id.Build? ==> Finished(c, id, ts) == seq(|ts|, i requires 0 <= i < |ts| =>
                            Task(ts[i].flags, Some(c.compile(c.format(ts[i].flags))), ts[i].exe))
    ensures id.Test? ==> Finished(c, id, ts) == seq(|ts|, i requires 0 <= i < |ts| && ts[i].build.Some? =>
                           Task(ts[i].flags, ts[i].build, Some(c.run(ts[i].build.value.checksum))))
  {
    forall i | 0 <= i < |ts| ensures Ready(id, ts[i]) { FinishedTask(c, id, ts[i]); }
  }

  lemma OutputIsFinished(c: Commands, id: StageId, p: Port, fed: seq<Message>)
    requires forall x :: Content(c, id, p, Is(x)) == QueueDue(c, id, fed + [Pill], Is(x))
    requires p.input == [] && p.stage.pool == [] && p.stage.reported == [] && p.stage.duplicates == [] && p.stage.waiting == []
    ensures multiset(TasksOf(p.output)) == multiset(Finished(c, id, TasksOf(fed)))
  {
    forall x ensures multiset(TasksOf(p.output))[x] == multiset(Finished(c, id, TasksOf(fed)))[x] {
      PutDue(c, id, fed, Pill, Is(x));
      assert Content(c, id, p, Is(x)) == QueueCount(p.output, Is(x));
      CountMultiset(TasksOf(p.output), x);
      DueCount(c, id, TasksOf(fed), Is(x));
      CountMultiset(Finished(c, id, TasksOf(fed)), x);
    }
  }

  lemma AllTaken(p: Port, fed: seq<Message>, k: nat)
    requires Pill !in fed && TakenInOrder(p, fed + [Pill], k)
    requires p.stage.phase.Pulling? ==> p.input == []
    ensures !p.stage.phase.Pulling? && p.input == []
  {
    var all := fed + [Pill];
    assert all[|fed|] == Pill;
    assert k == |all| ==> all[..k] == all && all[k..] == [];
    assert forall i | 0 <= i < |fed| :: all[i] == fed[i];
  }

  // ---------- the pill and the tasks at hand ----------

  ghost predicate NoWork(q: seq<Message>) {
    forall m | m in q :: m.Pill?
  }

  ghost predicate Idle(s: Stage) {
    s.pool == [] && s.reported == [] && s.waiting == [] && NoWork(s.duplicates)
  }

  function Any(): Task -> bool {
    (t: Task) => true
  }

  lemma {:induction false} DueAny(c: Commands, id: StageId, ts: seq<Task>)
    ensures Due(c, id, ts, Any()) == Count(ts, Any())
  {
    if ts != [] { DueAny(c, id, ts[1..]); }
  }

  lemma {:induction false} CountAny(ts: seq<Task>)
    ensures Count(ts, Any()) == |ts|
  {
    if ts != [] { CountAny(ts[1..]); }
  }

  lemma {:induction false} NoWorkTasks(q: seq<Message>)
    ensures NoWork(q) <==> TasksOf(q) == []
  {
    if q != [] {
      assert q[0] in q && forall m | m in q :: m == q[0] || m in q[1..];
      NoWorkTasks(q[1..]);
    }
  }

  /** The number of tasks a stage holds; it is idle when there are none. */
  lemma HeldTasks(c: Commands, id: StageId, s: Stage)
    ensures Inside(c, id, s, Any()) == |TasksOf(s.duplicates)| + |s.waiting| + |s.pool| + |s.reported|
    ensures Inside(c, id, s, Any()) == 0 <==> Idle(s)
  {
    hide Due, Count, TasksOf;
    DueAny(c, id, TasksOf(s.duplicates));
    DueAny(c, id, s.waiting);
    DueAny(c, id, s.pool);
    CountAny(TasksOf(s.duplicates));
    CountAny(s.waiting);
    CountAny(s.pool);
    CountAny(s.reported);
    NoWorkTasks(s.duplicates);
  }

  /** Once the pill is taken, what is put out is taken from what is at hand. */
  lemma StepAfterPill(c: Commands, id: StageId, p: Port, a: Action)
    requires StageInv(c, id, p.stage) && Enabled(p, a) && !p.stage.phase.Pulling?
    ensures var q := Step(c, id, p, a);
            && !q.stage.phase.Pulling? && p.output <= q.output
            && |q.output| + Inside(c, id, q.stage, Any()) == |p.output| + Inside(c, id, p.stage, Any())
  {
    hide Due, Count, TasksOf, Inside, StageInv, Step, Enabled;
    StepConserves(c, id, p, a, Any());
    StepPutsOut(c, id, p, a);
    var q, n := Step(c, id, p, a), |p.output|;
    if q.output != p.output {
      PutCount(p.output, q.output[n].task, Any());
      assert q.output == p.output + [Work(q.output[n].task)];
    }
  }

  lemma StepPutsOut(c: Commands, id: StageId, p: Port, a: Action)
    requires Enabled(p, a) && !p.stage.phase.Pulling?
    ensures var q, n := Step(c, id, p, a), |p.output|;
            && !q.stage.phase.Pulling? && q.input == p.input
            && (q.output == p.output || (|q.output| == n + 1 && q.output[..n] == p.output && q.output[n].Work?))
  {
    hide Key, Finish, OutcomeOf, SetResult, FirstWith;
  }

  lemma {:induction false} ReplayPrefix(c: Commands, id: StageId, p: Port, run: seq<Event>, m: nat)
    requires m <= |run| && Replay(c, id, p, run).Some?
    ensures Replay(c, id, p, run[..m]).Some? && Arrivals(run[..m]) <= Arrivals(run)
  {
    if m == |run| {
      assert run[..m] == run;
    } else {
      var front := run[..|run| - 1];
      assert front[..m] == run[..m];
      ReplayPrefix(c, id, p, front, m);
    }
  }

  lemma {:induction false} RunAfterPill(c: Commands, id: StageId, p0: Port, run: seq<Event>, m: nat)
    requires StartsEmpty(c, id, p0) && ArrivalsFit(c, id, Arrivals(run)) && Replay(c, id, p0, run).Some? && m <= |run|
    requires Replay(c, id, p0, run[..m]).Some? && !Replay(c, id, p0, run[..m]).value.stage.phase.Pulling?
    ensures var q, p := Replay(c, id, p0, run[..m]).value, Replay(c, id, p0, run).value;
            && !p.stage.phase.Pulling? && q.output <= p.output
            && |p.output| + Inside(c, id, p.stage, Any()) == |q.output| + Inside(c, id, q.stage, Any())
  {
    if m == |run| {
      assert run[..m] == run;
    } else {
      var front := run[..|run| - 1];
      assert front[..m] == run[..m];
      ReplayPrefix(c, id, p0, run, |run| - 1);
      RunAfterPill(c, id, p0, front, m);
      var k := RunConserves(c, id, p0, front);
      if run[|run| - 1].Act? { StepAfterPill(c, id, Replay(c, id, p0, front).value, run[|run| - 1].a); }
    }
  }

  /** When the pill overtakes a task in a stage: in every run that takes the pill and comes to rest, as many tasks
      follow the pill in the output as the stage held when it took the pill, so none does exactly when it was idle. */
  lemma PillIsLastIffIdle(c: Commands, id: StageId, p0: Port, run: seq<Event>, m: nat)
    requires StartsEmpty(c, id, p0) && ArrivalsFit(c, id, Arrivals(run)) && Replay(c, id, p0, run).Some?
    requires m < |run| && run[m] == Act(Pull) && Replay(c, id, p0, run[..m]).Some?
    requires var q := Replay(c, id, p0, run[..m]).value; q.input != [] && q.input[0] == Pill
    requires forall a :: !Enabled(Replay(c, id, p0, run).value, a)
    ensures var q, p := Replay(c, id, p0, run[..m]).value, Replay(c, id, p0, run).value;
            && q.output + [Pill] <= p.output
            && |p.output| == |q.output| + 1 + Inside(c, id, q.stage, Any())
            && (p.output == q.output + [Pill] <==> Idle(q.stage))
  {
    hide StageInv, Inside, Due, Count, Enabled;
    var q, p := Replay(c, id, p0, run[..m]).value, Replay(c, id, p0, run).value;
    ReplayPrefix(c, id, p0, run, m + 1);
    assert run[..m + 1][..m] == run[..m];
    RunAfterPill(c, id, p0, run, m + 1);
    var k := RunConserves(c, id, p0, run);
    StuckMeansIdle(c, id, p);
    HeldTasks(c, id, p.stage);
    HeldTasks(c, id, q.stage);
    PullsPill(c, id, q);
  }

  lemma PullsPill(c: Commands, id: StageId, q: Port)
    requires Enabled(q, Pull) && q.input[0] == Pill
    ensures var r := Step(c, id, q, Pull);
            !r.stage.phase.Pulling? && r.output == q.output + [Pill] && Inside(c, id, r.stage, Any()) == Inside(c, id, q.stage, Any())
  {
  }

  lemma ReplayMore(c: Commands, id: StageId, p: Port, run: seq<Event>, e: Event)
    requires Replay(c, id, p, run).Some? && Possible(Replay(c, id, p, run).value, e)
    ensures Replay(c, id, p, run + [e]) == Some(Happen(c, id, Replay(c, id, p, run).value, e))
  {
    assert (run + [e])[..|run|] == run;
  }

  /** On its own a stage may let the pill overtake a task that came before it: the pill is passed on as soon
      as it is pulled, the task only once it is worked. */
  lemma PillOvertakesInStage(c: Commands, id: StageId, p0: Port, t: Task)
    requires StartsEmpty(c, id, p0) && Key(c, id, t) !in p0.stage.known
    ensures var p := Replay(c, id, p0, [Arrive(Work(t))] + [Arrive(Pill)] + [Act(Pull)] + [Act(Pull)] + [Act(DoWork(0))] + [Act(PutOut(0))]);
            p.Some? && p.value.output == [Pill, Work(Finish(c, id, t))]
  {
    var r1 := [Arrive(Work(t))];
    var r2 := r1 + [Arrive(Pill)];
    var r3 := r2 + [Act(Pull)];
    var r4 := r3 + [Act(Pull)];
    var r5 := r4 + [Act(DoWork(0))];
    assert [] + r1 == r1;
    ReplayMore(c, id, p0, [], Arrive(Work(t)));
    ReplayMore(c, id, p0, r1, Arrive(Pill));
    ReplayMore(c, id, p0, r2, Act(Pull));
    ReplayMore(c, id, p0, r3, Act(Pull));
    ReplayMore(c, id, p0, r4, Act(DoWork(0)));
    ReplayMore(c, id, p0, r5, Act(PutOut(0)));
  }
}
