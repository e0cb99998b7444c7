/** One pipeline stage: the puller, its worker pool and the helper that resolves duplicates.

    The processes of a stage only meet at queues, so a stage is a state machine with one
    action per queue operation.  The helper is allowed to poll its two queues in any order;
    the alternation of the program is one such order. */
module Stage {
  import opened Tasks

  /** Where the puller process is. */
  datatype Phase = Pulling | Joining | Stopping | Stopped

  /** Where the helper process is. */
  datatype Mode = Serving | Draining | Exited

  datatype Entry = Entry(key: string, outcome: Outcome)

  /** A completed entry and the tasks that were found waiting for it and are still to be resolved. */
  datatype Batch = Batch(entry: Entry, tasks: seq<Task>)

  datatype Stage = Stage(
    seed: set<string>,          // keys of the initial cache
    known: seq<string>,         // mycache
    pool: seq<Task>,            // handed to a worker, not yet worked
    reported: seq<Task>,        // worked and reported to the helper, not yet put out
    worked: seq<string>,        // the keys the workers have worked, in order
    duplicates: seq<Message>,   // helper_queue
    completed: seq<Entry>,      // work_queue
    done: map<string, Outcome>, // done_dict
    waiting: seq<Task>,         // waiting_list
    resolving: Option<Batch>,   // the completed entry whose duplicates are being resolved, and which
    phase: Phase,
    mode: Mode)

  /** A stage between its input queue and its output queue. */
  datatype Port = Port(input: seq<Message>, stage: Stage, output: seq<Message>)

  datatype Action = Pull | DoWork(i: nat) | PutOut(i: nat) | Join | Poll | Collect | Resolve | Leave | Stop

  function RemoveAt<T>(s: seq<T>, i: nat): seq<T>
    requires i < |s|
  {
    s[..i] + s[i + 1..]
  }

  /** Index of the first task with the given key, or the length if there is none. */
  function FirstWith(c: Commands, id: StageId, ts: seq<Task>, key: string): (i: nat)
    ensures i <= |ts|
    ensures i < |ts| ==> Key(c, id, ts[i]) == key
    ensures forall j :: 0 <= j < i ==> Key(c, id, ts[j]) != key
  {
    if ts == [] || Key(c, id, ts[0]) == key then 0 else 1 + FirstWith(c, id, ts[1..], key)
  }

  /** The tasks with the given key, in order: the list the program builds before it resolves them. */
  function Matching(c: Commands, id: StageId, ts: seq<Task>, key: string): seq<Task> {
    if ts == [] then []
    else (if Key(c, id, ts[0]) == key then [ts[0]] else []) + Matching(c, id, ts[1..], key)
  }

  /** list.remove: drop the first task that equals t, and tasks are equal when their flags are. */
  function RemoveEqual(ts: seq<Task>, t: Task): seq<Task> {
    if ts == [] then [] else if ts[0].flags == t.flags then ts[1..] else [ts[0]] + RemoveEqual(ts[1..], t)
  }

  predicate HasEqual(ts: seq<Task>, t: Task) {
    exists i | 0 <= i < |ts| :: ts[i].flags == t.flags
  }

  predicate Enabled(p: Port, a: Action) {
    var s := p.stage;
    match a
    case Pull => s.phase.Pulling? && p.input != []
    case DoWork(i) => i < |s.pool|
    case PutOut(i) => i < |s.reported|
    case Join => s.phase.Joining? && s.pool == [] && s.reported == []
    case Poll => s.mode.Serving? && s.resolving.None? && s.duplicates != []
    case Collect => !s.mode.Exited? && s.resolving.None? && s.completed != [] && (s.mode.Draining? ==> s.waiting != [])
    // removing a task that is not there would raise an error
    case Resolve => s.resolving.Some? && (s.resolving.value.tasks == [] || HasEqual(s.waiting, s.resolving.value.tasks[0]))
    case Leave => s.mode.Draining? && s.resolving.None? && s.waiting == []
    case Stop => s.phase.Stopping? && s.mode.Exited?
  }

  function Pulled(c: Commands, id: StageId, p: Port): Port
    requires Enabled(p, Pull)
  {
    var s := p.stage;
    match p.input[0]
    case Pill =>
      Port(p.input[1..], s.(phase := Joining), p.output + [Pill])
    case Work(t) =>
      var key := Key(c, id, t);
      if key in s.known then
        Port(p.input[1..], s.(duplicates := s.duplicates + [Work(t)]), p.output)
      else
        Port(p.input[1..], s.(pool := s.pool + [t], known := s.known + [key]), p.output)
  }

  function Worked(c: Commands, id: StageId, p: Port, i: nat): Port
    requires Enabled(p, DoWork(i))
  {
    var s := p.stage;
    var t := Finish(c, id, s.pool[i]);
    var key := Key(c, id, s.pool[i]);
    p.(stage := s.(pool := RemoveAt(s.pool, i), reported := s.reported + [t], worked := s.worked + [key],
                   completed := s.completed + [Entry(key, OutcomeOf(c, id, key))]))
  }

  function Polled(c: Commands, id: StageId, p: Port): Port
    requires Enabled(p, Poll)
  {
    var s := p.stage;
    match s.duplicates[0]
    case Pill =>
      p.(stage := s.(duplicates := s.duplicates[1..], mode := Draining))
    case Work(t) =>
      var key := Key(c, id, t);
      if key in s.done then
        p.(stage := s.(duplicates := s.duplicates[1..]), output := p.output + [Work(SetResult(id, t, s.done[key]))])
      else
        p.(stage := s.(duplicates := s.duplicates[1..], waiting := s.waiting + [t]))
  }

  function Collected(c: Commands, id: StageId, p: Port): Port
    requires Enabled(p, Collect)
  {
    var s := p.stage;
    var e := s.completed[0];
    p.(stage := s.(completed := s.completed[1..], done := s.done[e.key := e.outcome],
                   resolving := Some(Batch(e, Matching(c, id, s.waiting, e.key)))))
  }

  function Resolved(id: StageId, p: Port): Port
    requires Enabled(p, Resolve)
  {
    var s := p.stage;
    var b := s.resolving.value;
    if b.tasks == [] then
      p.(stage := s.(resolving := None))
    else
      p.(stage := s.(waiting := RemoveEqual(s.waiting, b.tasks[0]), resolving := Some(b.(tasks := b.tasks[1..]))),
         output := p.output + [Work(SetResult(id, b.tasks[0], b.entry.outcome))])
  }

  function Step(c: Commands, id: StageId, p: Port, a: Action): Port
    requires Enabled(p, a)
  {
    var s := p.stage;
    match a
    case Pull => Pulled(c, id, p)
    case DoWork(i) => Worked(c, id, p, i)
    case PutOut(i) => p.(stage := s.(reported := RemoveAt(s.reported, i)), output := p.output + [Work(s.reported[i])])
    case Join => p.(stage := s.(duplicates := s.duplicates + [Pill], phase := Stopping))
    case Poll => Polled(c, id, p)
    case Collect => Collected(c, id, p)
    case Resolve => Resolved(id, p)
    case Leave => p.(stage := s.(mode := Exited))
    case Stop => p.(stage := s.(phase := Stopped))
  }

  /** A stage started on a cache of earlier results. */
  ghost predicate Starts(c: Commands, id: StageId, s: Stage) {
    && s.seed == s.done.Keys && (forall k :: k in s.known <==> k in s.seed)
    && (forall k | k in s.done :: s.done[k] == OutcomeOf(c, id, k))
    && s.pool == s.reported == s.waiting == [] && s.worked == [] && s.duplicates == [] && s.completed == []
    && s.resolving.None? && s.phase.Pulling? && s.mode.Serving?
  }

  // ---------- the invariant ----------

  predicate NoRepeat<T(==)>(s: seq<T>) {
    forall i, j :: 0 <= i < j < |s| ==> s[i] != s[j]
  }

  /** No assertion of the worker or the helper can fail. */
  ghost predicate AllReady(id: StageId, s: Stage) {
    && (forall t | t in s.pool :: Ready(id, t))
    && (forall t | t in s.waiting :: Ready(id, t))
    && (forall m | m in s.duplicates && m.Work? :: Ready(id, m.task))
  }

  /** Every recorded result is the one its key gives. */
  ghost predicate ResultsRight(c: Commands, id: StageId, s: Stage) {
    && (forall e | e in s.completed :: e.outcome == OutcomeOf(c, id, e.key))
    && (forall k | k in s.done :: s.done[k] == OutcomeOf(c, id, k))
    && (s.resolving.Some? ==> s.resolving.value.entry.outcome == OutcomeOf(c, id, s.resolving.value.entry.key))
  }

  /** Keys in hand are known; a waiting key has no result yet, except while it is being resolved. */
  ghost predicate KeysKnown(c: Commands, id: StageId, s: Stage) {
    && (forall t | t in s.pool :: Key(c, id, t) in s.known)
    && (forall m | m in s.duplicates && m.Work? :: Key(c, id, m.task) in s.known)
    && (forall t | t in s.waiting :: Key(c, id, t) in s.known)
    && (forall t | t in s.waiting ::
          Key(c, id, t) in s.done ==> s.resolving.Some? && s.resolving.value.entry.key == Key(c, id, t))
  }

  /** Every known key has its result, has it under way to the helper, or is with a worker. */
  ghost predicate Owed(c: Commands, id: StageId, s: Stage) {
    forall k | k in s.known ::
      k in s.done || (exists e :: e in s.completed && e.key == k) || (exists t :: t in s.pool && Key(c, id, t) == k)
  }

  /** No key is worked twice, and no cached key is worked at all. */
  ghost predicate WorkedOnce(c: Commands, id: StageId, s: Stage) {
    && NoRepeat(s.worked)
    && (forall k | k in s.worked :: k in s.known && k !in s.seed)
    && (forall k | k in s.seed :: k in s.known)
    && (forall i | 0 <= i < |s.pool| :: Key(c, id, s.pool[i]) !in s.worked && Key(c, id, s.pool[i]) !in s.seed)
    && (forall i, j | 0 <= i < j < |s.pool| :: Key(c, id, s.pool[i]) != Key(c, id, s.pool[j]))
  }

  /** The pills of a stage: one to the helper, last in its queue, and only once the pool is joined. */
  ghost predicate PillsInOrder(s: Stage) {
    && (s.phase.Pulling? || s.phase.Joining? ==> s.mode.Serving? && Pill !in s.duplicates)
    && (s.phase.Stopping? || s.phase.Stopped? ==> s.pool == [] && s.reported == [])
    && (s.phase.Stopping? && s.mode.Serving? ==>
          s.duplicates != [] && s.duplicates[|s.duplicates| - 1] == Pill && Pill !in s.duplicates[..|s.duplicates| - 1])
    && (!s.mode.Serving? ==> s.duplicates == [])
    && (s.mode.Exited? ==> s.waiting == [] && s.resolving.None?)
    && (s.phase.Stopped? ==> s.mode.Exited?)
  }

  /** The tasks with the helper. */
  predicate Holds(s: Stage, t: Task) {
    t in s.waiting || Work(t) in s.duplicates
  }

  /** Tasks that the helper takes for equal have the same key. */
  ghost predicate FlagsAgree(c: Commands, id: StageId, s: Stage) {
    forall t, u | Holds(s, t) && Holds(s, u) && t.flags == u.flags :: Key(c, id, t) == Key(c, id, u)
  }

  /** What is left to resolve is what still waits with that key. */
  ghost predicate BatchRight(c: Commands, id: StageId, s: Stage) {
    s.resolving.Some? ==> s.resolving.value.tasks == Matching(c, id, s.waiting, s.resolving.value.entry.key)
  }

  ghost predicate StageInv(c: Commands, id: StageId, s: Stage) {
    && AllReady(id, s) && ResultsRight(c, id, s) && KeysKnown(c, id, s)
    && Owed(c, id, s) && WorkedOnce(c, id, s) && PillsInOrder(s)
    && FlagsAgree(c, id, s) && BatchRight(c, id, s)
  }

  ghost predicate InputReady(id: StageId, q: seq<Message>) {
    forall m | m in q && m.Work? :: Ready(id, m.task)
  }

  /** The tasks in the input queue or with the helper. */
  predicate AtHand(p: Port, t: Task) {
    Work(t) in p.input || Holds(p.stage, t)
  }

  /** The input is ready, and equal flags mean equal keys in it too. */
  ghost predicate InputFits(c: Commands, id: StageId, p: Port) {
    && InputReady(id, p.input)
    && forall t, u | AtHand(p, t) && AtHand(p, u) && t.flags == u.flags :: Key(c, id, t) == Key(c, id, u)
  }

  // ---------- removing by equality ----------

  lemma {:induction false} FirstMatch(c: Commands, id: StageId, ts: seq<Task>, key: string)
    requires Matching(c, id, ts, key) != []
    ensures var i := FirstWith(c, id, ts, key);
            && i < |ts| && ts[i] == Matching(c, id, ts, key)[0]
            && Matching(c, id, RemoveAt(ts, i), key) == Matching(c, id, ts, key)[1..]
  {
    var rest := ts[1..];
    if Key(c, id, ts[0]) == key {
      assert RemoveAt(ts, 0) == rest;
    } else {
      FirstMatch(c, id, rest, key);
      var i := FirstWith(c, id, rest, key);
      assert RemoveAt(ts, i + 1)[1..] == RemoveAt(rest, i);
    }
  }

  lemma {:induction false} RemoveFirstEqual(ts: seq<Task>, t: Task, i: nat)
    requires i < |ts| && ts[i].flags == t.flags
    requires forall j | 0 <= j < i :: ts[j].flags != t.flags
    ensures RemoveEqual(ts, t) == RemoveAt(ts, i)
  {
    if i == 0 {
      assert RemoveAt(ts, 0) == ts[1..];
    } else {
      RemoveFirstEqual(ts[1..], t, i - 1);
      assert RemoveAt(ts, i) == [ts[0]] + RemoveAt(ts[1..], i - 1);
    }
  }

  lemma FirstIsEqual(c: Commands, id: StageId, ts: seq<Task>, key: string)
    requires Matching(c, id, ts, key) != []
    requires forall t, u | t in ts && u in ts && t.flags == u.flags :: Key(c, id, t) == Key(c, id, u)
    ensures var i := FirstWith(c, id, ts, key); var t := Matching(c, id, ts, key)[0];
            && i < |ts| && ts[i] == t && HasEqual(ts, t) && RemoveEqual(ts, t) == RemoveAt(ts, i)
            && Matching(c, id, RemoveAt(ts, i), key) == Matching(c, id, ts, key)[1..]
  {
    FirstMatch(c, id, ts, key);
    var i := FirstWith(c, id, ts, key);
    assert forall j | 0 <= j < i :: ts[j] in ts && ts[i] in ts;
    RemoveFirstEqual(ts, ts[i], i);
  }

  lemma {:induction false} NoMatchLeft(c: Commands, id: StageId, ts: seq<Task>, key: string)
    ensures Matching(c, id, ts, key) == [] <==> FirstWith(c, id, ts, key) == |ts|
  {
    if ts != [] && Key(c, id, ts[0]) != key {
      NoMatchLeft(c, id, ts[1..], key);
    }
  }

  /** Where equal flags mean equal keys, removing by equality removes the very task that is being resolved. */
  lemma RemovesTheResolved(c: Commands, id: StageId, p: Port)
    requires FlagsAgree(c, id, p.stage) && BatchRight(c, id, p.stage) && p.stage.resolving.Some?
    ensures Enabled(p, Resolve)
    ensures var s, b, i := p.stage, p.stage.resolving.value, FirstWith(c, id, p.stage.waiting, p.stage.resolving.value.entry.key);
            if b.tasks == [] then
              i == |s.waiting| && Resolved(id, p) == p.(stage := s.(resolving := None))
            else
              && i < |s.waiting| && s.waiting[i] == b.tasks[0]
              && Matching(c, id, RemoveAt(s.waiting, i), b.entry.key) == b.tasks[1..]
              && Resolved(id, p) == p.(stage := s.(waiting := RemoveAt(s.waiting, i), resolving := Some(b.(tasks := b.tasks[1..]))),
                                       output := p.output + [Work(SetResult(id, s.waiting[i], b.entry.outcome))])
  {
    var s, b := p.stage, p.stage.resolving.value;
    NoMatchLeft(c, id, s.waiting, b.entry.key);
    if b.tasks != [] {
      assert forall t | t in s.waiting :: Holds(s, t);
      FirstIsEqual(c, id, s.waiting, b.entry.key);
    }
  }

  // ---------- every action keeps the invariant ----------

  lemma StartInv(c: Commands, id: StageId, s: Stage)
    requires Starts(c, id, s)
    ensures StageInv(c, id, s)
  {
  }

  lemma PullKeepsInv(c: Commands, id: StageId, p: Port)
    requires StageInv(c, id, p.stage) && InputFits(c, id, p) && Enabled(p, Pull)
    ensures StageInv(c, id, Pulled(c, id, p).stage)
  {
    hide Owed, WorkedOnce;
    PullKeepsOwed(c, id, p);
    PullKeepsWorkedOnce(c, id, p);
  }

  lemma PullKeepsOwed(c: Commands, id: StageId, p: Port)
    requires Owed(c, id, p.stage) && Enabled(p, Pull)
    ensures Owed(c, id, Pulled(c, id, p).stage)
  {
    var s, s' := p.stage, Pulled(c, id, p).stage;
    assert forall t | t in s.pool :: t in s'.pool;
    assert p.input[0].Work? && Key(c, id, p.input[0].task) !in s.known ==> p.input[0].task in s'.pool;
  }

  lemma PullKeepsWorkedOnce(c: Commands, id: StageId, p: Port)
    requires WorkedOnce(c, id, p.stage) && KeysKnown(c, id, p.stage) && Enabled(p, Pull)
    ensures WorkedOnce(c, id, Pulled(c, id, p).stage)
  {
  }

  lemma WorkKeepsInv(c: Commands, id: StageId, p: Port, i: nat)
    requires StageInv(c, id, p.stage) && Enabled(p, DoWork(i))
    ensures StageInv(c, id, Worked(c, id, p, i).stage)
  {
    hide Owed;
    WorkKeepsOwed(c, id, p, i);
  }

  lemma WorkKeepsOwed(c: Commands, id: StageId, p: Port, i: nat)
    requires Owed(c, id, p.stage) && Enabled(p, DoWork(i))
    ensures Owed(c, id, Worked(c, id, p, i).stage)
  {
    hide Key, Finish, OutcomeOf;
    var s, s' := p.stage, Worked(c, id, p, i).stage;
    forall k | k in s'.known
      ensures k in s'.done || (exists e :: e in s'.completed && e.key == k) || (exists t :: t in s'.pool && Key(c, id, t) == k)
    {
      if t :| t in s.pool && Key(c, id, t) == k {
        var j :| 0 <= j < |s.pool| && s.pool[j] == t;
        if j == i {
          assert Entry(k, OutcomeOf(c, id, k)) in s'.completed;
        } else {
          assert s'.pool[if j < i then j else j - 1] == t;
        }
      } else if e :| e in s.completed && e.key == k {
        assert e in s'.completed;
      }
    }
  }

  lemma PollKeepsInv(c: Commands, id: StageId, p: Port)
    requires StageInv(c, id, p.stage) && Enabled(p, Poll)
    ensures StageInv(c, id, Polled(c, id, p).stage)
  {
    hide Owed, WorkedOnce, FlagsAgree, Matching, PillsInOrder;
    PollPills(c, id, p);
    SameHistory(c, id, p.stage, Polled(c, id, p).stage);
    StillAgree(c, id, p.stage, Polled(c, id, p).stage);
  }

  lemma PollPills(c: Commands, id: StageId, p: Port)
    requires PillsInOrder(p.stage) && Enabled(p, Poll)
    ensures PillsInOrder(Polled(c, id, p).stage)
  {
    hide Key, SetResult;
  }

  lemma StillAgree(c: Commands, id: StageId, s: Stage, r: Stage)
    requires FlagsAgree(c, id, s) && forall t | Holds(r, t) :: Holds(s, t)
    ensures FlagsAgree(c, id, r)
  {
  }

  lemma SameHistory(c: Commands, id: StageId, s: Stage, r: Stage)
    requires Owed(c, id, s) && WorkedOnce(c, id, s)
    requires r.seed == s.seed && r.known == s.known && r.done == s.done && r.completed == s.completed && r.pool == s.pool && r.worked == s.worked
    ensures Owed(c, id, r) && WorkedOnce(c, id, r)
  {
  }

  lemma CollectKeepsInv(c: Commands, id: StageId, p: Port)
    requires StageInv(c, id, p.stage) && Enabled(p, Collect)
    ensures StageInv(c, id, Collected(c, id, p).stage)
  {
  }

  lemma ResolveKeepsInv(c: Commands, id: StageId, p: Port)
    requires StageInv(c, id, p.stage) && Enabled(p, Resolve)
    ensures StageInv(c, id, Resolved(id, p).stage)
  {
    hide StageInv, FlagsAgree, BatchRight, RemoveEqual, Matching, Resolved;
    InvBatch(c, id, p.stage);
    RemovesTheResolved(c, id, p);
    if p.stage.resolving.value.tasks == [] {
      BatchEnds(c, id, p.stage);
    } else {
      BatchGoesOn(c, id, p.stage, FirstWith(c, id, p.stage.waiting, p.stage.resolving.value.entry.key));
    }
  }

  lemma InvBatch(c: Commands, id: StageId, s: Stage)
    requires StageInv(c, id, s)
    ensures FlagsAgree(c, id, s) && BatchRight(c, id, s)
  {
  }

  lemma BatchEnds(c: Commands, id: StageId, s: Stage)
    requires StageInv(c, id, s) && s.resolving.Some? && FirstWith(c, id, s.waiting, s.resolving.value.entry.key) == |s.waiting|
    ensures StageInv(c, id, s.(resolving := None))
  {
    hide Owed, WorkedOnce, FlagsAgree, Matching;
    var r := s.(resolving := None);
    SameHistory(c, id, s, r);
    StillAgree(c, id, s, r);
  }

  lemma BatchGoesOn(c: Commands, id: StageId, s: Stage, i: nat)
    requires StageInv(c, id, s) && s.resolving.Some? && s.resolving.value.tasks != [] && i < |s.waiting|
    requires Matching(c, id, RemoveAt(s.waiting, i), s.resolving.value.entry.key) == s.resolving.value.tasks[1..]
    ensures var b := s.resolving.value;
            StageInv(c, id, s.(waiting := RemoveAt(s.waiting, i), resolving := Some(b.(tasks := b.tasks[1..]))))
  {
    hide Owed, WorkedOnce, FlagsAgree, Matching;
    var b := s.resolving.value;
    var r := s.(waiting := RemoveAt(s.waiting, i), resolving := Some(b.(tasks := b.tasks[1..])));
    assert forall t | t in r.waiting :: t in s.waiting;
    SameHistory(c, id, s, r);
    StillAgree(c, id, s, r);
  }

  /** Every action of a stage keeps its invariant. */
  lemma StepKeepsInv(c: Commands, id: StageId, p: Port, a: Action)
    requires StageInv(c, id, p.stage) && InputFits(c, id, p) && Enabled(p, a)
    ensures StageInv(c, id, Step(c, id, p, a).stage)
  {
    hide StageInv, InputFits;
    match a
    case Pull => PullKeepsInv(c, id, p);
    case DoWork(i) => WorkKeepsInv(c, id, p, i);
    case Poll => PollKeepsInv(c, id, p);
    case Collect => CollectKeepsInv(c, id, p);
    case Resolve => ResolveKeepsInv(c, id, p);
    case _ => EndingKeepsInv(c, id, p, a);
  }

  lemma EndingKeepsInv(c: Commands, id: StageId, p: Port, a: Action)
    requires StageInv(c, id, p.stage) && Enabled(p, a) && (a.PutOut? || a.Join? || a.Leave? || a.Stop?)
    ensures StageInv(c, id, Step(c, id, p, a).stage)
  {
    hide Owed, WorkedOnce, FlagsAgree, Matching, PillsInOrder, Key, AllReady, KeysKnown, ResultsRight, BatchRight;
    EndingPills(c, id, p, a);
    SameTasks(c, id, p.stage, Step(c, id, p, a).stage);
  }

  lemma SameTasks(c: Commands, id: StageId, s: Stage, r: Stage)
    requires StageInv(c, id, s) && PillsInOrder(r)
    requires r == s.(reported := r.reported, duplicates := r.duplicates, phase := r.phase, mode := r.mode)
    requires r.duplicates == s.duplicates || r.duplicates == s.duplicates + [Pill]
    ensures StageInv(c, id, r)
  {
    hide Owed, WorkedOnce, FlagsAgree, Matching, PillsInOrder, Key;
    SameHistory(c, id, s, r);
    StillAgree(c, id, s, r);
  }

  lemma EndingPills(c: Commands, id: StageId, p: Port, a: Action)
    requires PillsInOrder(p.stage) && Enabled(p, a) && (a.PutOut? || a.Join? || a.Leave? || a.Stop?)
    ensures PillsInOrder(Step(c, id, p, a).stage)
  {
    assert a.Join? ==> Step(c, id, p, a).stage.duplicates[..|p.stage.duplicates|] == p.stage.duplicates;
  }
}
