/** The sequential code of the helper: resolving the duplicates of one completed entry, and
    the drain loop it ends with. */
module Helper {
  import opened Tasks
  import opened Stage
  import opened StageRuns

  // ---------- one call, whatever waits ----------

  /** What list.remove leaves after one call for each of the given tasks. */
  function RemoveEach(ts: seq<Task>, rs: seq<Task>): seq<Task>
    decreases |rs|
  {
    if rs == [] then ts else RemoveEach(RemoveEqual(ts, rs[0]), rs[1..])
  }

  /** The tasks with another key, in order: what should be left. */
  function Others(c: Commands, id: StageId, ts: seq<Task>, key: string): seq<Task> {
    if ts == [] then []
    else (if Key(c, id, ts[0]) != key then [ts[0]] else []) + Others(c, id, ts[1..], key)
  }

  /** No task with the key has a task with the same flags and another key ahead of it. */
  ghost predicate NoneAhead(c: Commands, id: StageId, ts: seq<Task>, key: string) {
    forall i, j | 0 <= i < j < |ts| && ts[i].flags == ts[j].flags && Key(c, id, ts[j]) == key :: Key(c, id, ts[i]) == key
  }

  lemma {:induction false} MatchingIn(c: Commands, id: StageId, ts: seq<Task>, key: string, t: Task)
    ensures t in Matching(c, id, ts, key) <==> t in ts && Key(c, id, t) == key
  {
    if ts != [] { MatchingIn(c, id, ts[1..], key, t); }
  }

  lemma {:induction false} OneFewer(c: Commands, id: StageId, ts: seq<Task>, key: string, t: Task)
    ensures |Matching(c, id, RemoveEqual(ts, t), key)| >= |Matching(c, id, ts, key)| - 1
  {
    if ts != [] && ts[0].flags != t.flags {
      OneFewer(c, id, ts[1..], key, t);
      assert ([ts[0]] + RemoveEqual(ts[1..], t))[1..] == RemoveEqual(ts[1..], t);
    }
  }

  lemma {:induction false} FewerLeft(c: Commands, id: StageId, ts: seq<Task>, key: string, rs: seq<Task>)
    ensures |Matching(c, id, RemoveEach(ts, rs), key)| >= |Matching(c, id, ts, key)| - |rs|
    decreases |rs|
  {
    if rs != [] {
      OneFewer(c, id, ts, key, rs[0]);
      FewerLeft(c, id, RemoveEqual(ts, rs[0]), key, rs[1..]);
    }
  }

  /** A task at the head is removed in place of one that should be, or stays at the head. */
  lemma {:induction false} HeadInTheWay(c: Commands, id: StageId, h: Task, ts: seq<Task>, key: string, rs: seq<Task>)
    ensures (exists t | t in rs :: t.flags == h.flags) ==>
              |Matching(c, id, RemoveEach([h] + ts, rs), key)| > |Matching(c, id, ts, key)| - |rs|
    ensures (forall t | t in rs :: t.flags != h.flags) ==> RemoveEach([h] + ts, rs) == [h] + RemoveEach(ts, rs)
    decreases |rs|
  {
    if rs != [] {
      assert ([h] + ts)[1..] == ts;
      if rs[0].flags == h.flags {
        FewerLeft(c, id, ts, key, rs[1..]);
      } else {
        OneFewer(c, id, ts, key, rs[0]);
        HeadInTheWay(c, id, h, RemoveEqual(ts, rs[0]), key, rs[1..]);
        assert forall t | t in rs :: t == rs[0] || t in rs[1..];
      }
    }
  }

  lemma {:induction false} OthersMatchNot(c: Commands, id: StageId, ts: seq<Task>, key: string)
    ensures Matching(c, id, Others(c, id, ts, key), key) == []
  {
    if ts != [] {
      OthersMatchNot(c, id, ts[1..], key);
      var rest := Others(c, id, ts[1..], key);
      assert ([ts[0]] + rest)[1..] == rest && [] + rest == rest;
    }
  }

  lemma NoneAheadSplit(c: Commands, id: StageId, ts: seq<Task>, key: string)
    requires ts != []
    ensures NoneAhead(c, id, ts, key) <==>
            NoneAhead(c, id, ts[1..], key) &&
            (Key(c, id, ts[0]) == key || forall t | t in Matching(c, id, ts[1..], key) :: t.flags != ts[0].flags)
  {
    hide Matching, Key;
    forall t ensures t in Matching(c, id, ts[1..], key) <==> t in ts[1..] && Key(c, id, t) == key { MatchingIn(c, id, ts[1..], key, t); }
    assert forall j | 0 < j < |ts| :: ts[j] == ts[1..][j - 1];
    if NoneAhead(c, id, ts, key) {
      forall i, j | 0 <= i < j < |ts[1..]| && ts[1..][i].flags == ts[1..][j].flags && Key(c, id, ts[1..][j]) == key
        ensures Key(c, id, ts[1..][i]) == key
      {
        assert ts[i + 1].flags == ts[j + 1].flags;
      }
      forall t | t in Matching(c, id, ts[1..], key) && Key(c, id, ts[0]) != key ensures t.flags != ts[0].flags {
        var j :| 0 <= j < |ts[1..]| && ts[1..][j] == t;
        assert ts[j + 1] == t;
      }
    }
  }

  lemma MatchingHead(c: Commands, id: StageId, h: Task, rest: seq<Task>, key: string)
    requires Key(c, id, h) == key
    ensures Left(c, id, [h] + rest, key) == Left(c, id, rest, key)
    ensures Others(c, id, [h] + rest, key) == Others(c, id, rest, key)
  {
    var rs := Matching(c, id, rest, key);
    assert ([h] + rest)[1..] == rest && ([h] + rs)[1..] == rs;
    assert Others(c, id, [h] + rest, key) == [] + Others(c, id, rest, key);
  }

  lemma OtherHead(c: Commands, id: StageId, h: Task, rest: seq<Task>, key: string)
    requires Key(c, id, h) != key
    ensures Matching(c, id, [h] + rest, key) == Matching(c, id, rest, key)
    ensures forall ts :: Matching(c, id, [h] + ts, key) == Matching(c, id, ts, key)
    ensures Others(c, id, [h] + rest, key) == [h] + Others(c, id, rest, key)
  {
    assert ([h] + rest)[1..] == rest;
    forall ts ensures Matching(c, id, [h] + ts, key) == Matching(c, id, ts, key) {
      assert ([h] + ts)[1..] == ts && [] + Matching(c, id, ts, key) == Matching(c, id, ts, key);
    }
  }

  /** What one call leaves. */
  function Left(c: Commands, id: StageId, ts: seq<Task>, key: string): seq<Task> {
    RemoveEach(ts, Matching(c, id, ts, key))
  }

  lemma OtherHeadSettles(c: Commands, id: StageId, h: Task, rest: seq<Task>, key: string)
    requires Key(c, id, h) != key
    ensures var rs := Matching(c, id, rest, key);
            if exists t | t in rs :: t.flags == h.flags then |Matching(c, id, Left(c, id, [h] + rest, key), key)| > 0
            else Left(c, id, [h] + rest, key) == [h] + Left(c, id, rest, key)
                 && Matching(c, id, Left(c, id, [h] + rest, key), key) == Matching(c, id, Left(c, id, rest, key), key)
    ensures Others(c, id, [h] + rest, key) == [h] + Others(c, id, rest, key)
  {
    hide Matching, Others, RemoveEach, Key;
    OtherHead(c, id, h, rest, key);
    HeadInTheWay(c, id, h, rest, key, Matching(c, id, rest, key));
  }

  /** One call leaves exactly the tasks with another key if and only if none of those has the flags of a task that is
      resolved and stands ahead of it; otherwise a task that has been put out is left waiting, and its key never
      comes up again. */
  lemma {:induction false} SettlesRightIff(c: Commands, id: StageId, ts: seq<Task>, key: string)
    ensures Left(c, id, ts, key) == Others(c, id, ts, key) <==> NoneAhead(c, id, ts, key)
    ensures !NoneAhead(c, id, ts, key) ==> Matching(c, id, Left(c, id, ts, key), key) != []
  {
    if ts != [] {
      hide NoneAhead, Matching, Others, Left, Key;
      var h, rest := ts[0], ts[1..];
      assert ts == [h] + rest;
      NoneAheadSplit(c, id, ts, key);
      SettlesRightIff(c, id, rest, key);
      OthersMatchNot(c, id, ts, key);
      if Key(c, id, h) == key {
        MatchingHead(c, id, h, rest, key);
      } else {
        OtherHeadSettles(c, id, h, rest, key);
        SameTail(h, Left(c, id, rest, key), Others(c, id, rest, key));
      }
    }
  }

  lemma SameTail(h: Task, a: seq<Task>, b: seq<Task>)
    ensures [h] + a == [h] + b <==> a == b
  {
    assert ([h] + a)[1..] == a && ([h] + b)[1..] == b;
  }

  // ---------- no removal fails ----------

  function FlagCount(ts: seq<Task>, f: FlagSet): nat {
    if ts == [] then 0 else (if ts[0].flags == f then 1 else 0) + FlagCount(ts[1..], f)
  }

  /** Each of the tasks finds an equal one to remove. */
  ghost predicate Covers(ts: seq<Task>, rs: seq<Task>) {
    forall f :: FlagCount(rs, f) <= FlagCount(ts, f)
  }

  lemma {:induction false} FlagCountPositive(ts: seq<Task>, t: Task)
    requires FlagCount(ts, t.flags) > 0
    ensures HasEqual(ts, t)
  {
    if ts[0].flags != t.flags {
      FlagCountPositive(ts[1..], t);
      var i :| 0 <= i < |ts[1..]| && ts[1..][i].flags == t.flags;
      assert ts[i + 1].flags == t.flags;
    } else {
      assert ts[0].flags == t.flags;
    }
  }

  lemma {:induction false} FlagCountRemove(ts: seq<Task>, t: Task, f: FlagSet)
    ensures FlagCount(RemoveEqual(ts, t), f) >= FlagCount(ts, f) - (if f == t.flags then 1 else 0)
  {
    if ts != [] && ts[0].flags != t.flags {
      FlagCountRemove(ts[1..], t, f);
      assert ([ts[0]] + RemoveEqual(ts[1..], t))[1..] == RemoveEqual(ts[1..], t);
    }
  }

  lemma {:induction false} MatchingCovered(c: Commands, id: StageId, ts: seq<Task>, key: string, f: FlagSet)
    ensures FlagCount(Matching(c, id, ts, key), f) <= FlagCount(ts, f)
  {
    if ts != [] {
      MatchingCovered(c, id, ts[1..], key, f);
      var rs := Matching(c, id, ts[1..], key);
      assert ([ts[0]] + rs)[1..] == rs && [] + rs == rs;
    }
  }

  lemma CoversNext(ts: seq<Task>, rs: seq<Task>)
    requires Covers(ts, rs) && rs != []
    ensures HasEqual(ts, rs[0]) && Covers(RemoveEqual(ts, rs[0]), rs[1..])
  {
    assert FlagCount(rs, rs[0].flags) > 0;
    FlagCountPositive(ts, rs[0]);
    forall f ensures FlagCount(rs[1..], f) <= FlagCount(RemoveEqual(ts, rs[0]), f) {
      FlagCountRemove(ts, rs[0], f);
      assert FlagCount(rs, f) <= FlagCount(ts, f);
    }
  }

  // ---------- the resolve actions ----------

  /** The resolve actions of one completed entry, run to the end. */
  ghost function Settled(id: StageId, p: Port): Port
    decreases if p.stage.resolving.Some? then 1 + |p.stage.resolving.value.tasks| else 0
  {
    if Enabled(p, Resolve) then Settled(id, Resolved(id, p)) else p
  }

  /** Equal flags mean equal keys. */
  ghost predicate Agreeing(c: Commands, id: StageId, ts: seq<Task>) {
    forall t, u | t in ts && u in ts && t.flags == u.flags :: Key(c, id, t) == Key(c, id, u)
  }

  /** Every waiting task still has its result ahead of it in the completed queue. */
  ghost predicate ResultsAhead(c: Commands, id: StageId, s: Stage) {
    && (forall e | e in s.completed :: e.outcome == OutcomeOf(c, id, e.key))
    && (forall t | t in s.waiting :: exists e :: e in s.completed && e.key == Key(c, id, t))
    && Agreeing(c, id, s.waiting)
  }

  /** That is what a stage has arranged by the time its helper starts to drain. */
  lemma JoinedStageCanDrain(c: Commands, id: StageId, s: Stage)
    requires StageInv(c, id, s) && s.mode.Draining? && s.resolving.None?
    ensures ResultsAhead(c, id, s)
  {
    forall t | t in s.waiting ensures exists e :: e in s.completed && e.key == Key(c, id, t) {
      assert Key(c, id, t) in s.known && Key(c, id, t) !in s.done;
    }
    assert forall t | t in s.waiting :: Holds(s, t);
  }

  /** A completed entry is being resolved, its tasks are those that wait for it, and the others have theirs ahead. */
  ghost predicate Settling(c: Commands, id: StageId, p: Port) {
    && Agreeing(c, id, p.stage.waiting) && BatchRight(c, id, p.stage)
    && (p.stage.resolving.Some? ==> p.stage.resolving.value.entry.outcome == OutcomeOf(c, id, p.stage.resolving.value.entry.key))
    && forall t | t in p.stage.waiting ::
         (p.stage.resolving.Some? && p.stage.resolving.value.entry.key == Key(c, id, t)) ||
         exists e :: e in p.stage.completed && e.key == Key(c, id, t)
  }

  lemma SettlingStep(c: Commands, id: StageId, p: Port)
    requires Settling(c, id, p) && p.stage.resolving.Some?
    ensures Enabled(p, Resolve) && Settling(c, id, Resolved(id, p))
    ensures var s, b, i := p.stage, p.stage.resolving.value, FirstWith(c, id, p.stage.waiting, p.stage.resolving.value.entry.key);
            if b.tasks == [] then Resolved(id, p) == p.(stage := s.(resolving := None))
            else i < |s.waiting|
                 && Resolved(id, p) == p.(stage := s.(waiting := RemoveAt(s.waiting, i), resolving := Some(b.(tasks := b.tasks[1..]))),
                                          output := p.output + [Work(Finish(c, id, s.waiting[i]))])
  {
    var s, b := p.stage, p.stage.resolving.value;
    NoMatchLeft(c, id, s.waiting, b.entry.key);
    if b.tasks != [] {
      FirstIsEqual(c, id, s.waiting, b.entry.key);
      assert forall t | t in RemoveEqual(s.waiting, b.tasks[0]) :: t in s.waiting;
    }
  }

  /** Settling one entry moves exactly the tasks that wait for it to the output, finished. */
  lemma {:induction false} SettledConserves(c: Commands, id: StageId, p: Port, g: Task -> bool)
    requires Settling(c, id, p)
    ensures var q := Settled(id, p);
            && q.stage == p.stage.(waiting := q.stage.waiting, resolving := None) && q.input == p.input
            && Due(c, id, q.stage.waiting, g) + QueueCount(q.output, g) ==
               Due(c, id, p.stage.waiting, g) + QueueCount(p.output, g)
            && Settling(c, id, q)
    decreases if p.stage.resolving.Some? then 1 + |p.stage.resolving.value.tasks| else 0
  {
    hide Due, QueueCount, Finish, Settling, Resolved;
    if p.stage.resolving.Some? {
      SettlingStep(c, id, p);
      var s := p.stage;
      var i := FirstWith(c, id, s.waiting, s.resolving.value.entry.key);
      if i < |s.waiting| {
        DueRemove(c, id, s.waiting, i, g);
        PutCount(p.output, Finish(c, id, s.waiting[i]), g);
      }
      SettledConserves(c, id, Resolved(id, p), g);
    }
  }

  lemma SameFlags(id: StageId, ts: seq<Task>, t: Task, r: Outcome)
    ensures RemoveEqual(ts, SetResult(id, t, r)) == RemoveEqual(ts, t)
  {
  }

  // ---------- the program ----------

  class Helper {
    const c: Commands
    const id: StageId
    var completedQueue: seq<Entry>
    var doneDict: map<string, Outcome>
    var waitingList: seq<Task>
    var resultQueue: seq<Message>

    constructor (c: Commands, id: StageId, completed: seq<Entry>, done: map<string, Outcome>, waiting: seq<Task>)
      ensures this.c == c && this.id == id && completedQueue == completed && doneDict == done
      ensures waitingList == waiting && resultQueue == []
    {
      this.c, this.id, completedQueue, doneDict, waitingList, resultQueue := c, id, completed, done, waiting, [];
    }

    /** The part of the stage that this process sees, as the state machine has it. */
    ghost function View(resolving: Option<Batch>): Port
      reads this
    {
      Port([], Stage({}, [], [], [], [], [], completedQueue, doneDict, waitingList, resolving, Stopping, Serving), resultQueue)
    }

    /** One call is the collect action followed by all resolve actions of the entry collected, whatever waits; none of
        the removals fails. */
    method GetResultFromCompletedQueue()
      modifies this
      ensures old(completedQueue) == [] ==> View(None) == old(View(None))
      ensures old(completedQueue) != [] ==> View(None) == Settled(id, Collected(c, id, old(View(None))))
      ensures old(completedQueue) != [] ==> waitingList == Left(c, id, old(waitingList), old(completedQueue[0].key))
    {
      if completedQueue != [] {
        var e := completedQueue[0];
        completedQueue := completedQueue[1..];
        doneDict := doneDict[e.key := e.outcome];
        var tasks := Matching(c, id, waitingList, e.key);
        ghost var p := View(Some(Batch(e, tasks)));
        forall f ensures FlagCount(tasks, f) <= FlagCount(waitingList, f) { MatchingCovered(c, id, waitingList, e.key, f); }
        var i := 0;
        while i < |tasks|
          invariant 0 <= i <= |tasks| && Covers(waitingList, tasks[i..])
          invariant RemoveEach(waitingList, tasks[i..]) == RemoveEach(old(waitingList), tasks)
          invariant completedQueue == old(completedQueue)[1..] && doneDict == old(doneDict)[e.key := e.outcome]
          invariant Settled(id, View(Some(Batch(e, tasks[i..])))) == Settled(id, p)
        {
          hide Covers, Matching;
          ghost var q, rs := View(Some(Batch(e, tasks[i..]))), tasks[i..];
          CoversNext(waitingList, rs);
          assert rs[0] == tasks[i] && rs[1..] == tasks[i + 1..];
          var duplicate := SetResult(id, tasks[i], e.outcome);
          SameFlags(id, waitingList, tasks[i], e.outcome);
          resultQueue := resultQueue + [Work(duplicate)];
          waitingList := RemoveEqual(waitingList, duplicate);
          assert View(Some(Batch(e, tasks[i + 1..]))) == Resolved(id, q);
          i := i + 1;
        }
        assert tasks[i..] == [];
        ghost var last := View(Some(Batch(e, [])));
        assert Resolved(id, last) == View(None);
      }
    }

    /** The drain loop ends, with nothing waiting and every waiting task put out finished. */
    method Drain()
      requires ResultsAhead(c, id, View(None).stage)
      modifies this
      ensures waitingList == []
      ensures forall x :: QueueCount(resultQueue, Is(x)) ==
                          QueueCount(old(resultQueue), Is(x)) + Due(c, id, old(waitingList), Is(x))
    {
      while waitingList != []
        invariant ResultsAhead(c, id, View(None).stage)
        invariant forall x :: Due(c, id, waitingList, Is(x)) + QueueCount(resultQueue, Is(x)) ==
                              Due(c, id, old(waitingList), Is(x)) + QueueCount(old(resultQueue), Is(x))
        decreases |completedQueue|
      {
        hide Due, QueueCount, Settled, Matching;
        ghost var p := View(None);
        assert waitingList[0] in waitingList && completedQueue != [];
        ghost var q := Collected(c, id, p);
        CollectSettles(c, id, p);
        forall x ensures Due(c, id, Settled(id, q).stage.waiting, Is(x)) + QueueCount(Settled(id, q).output, Is(x)) ==
                         Due(c, id, p.stage.waiting, Is(x)) + QueueCount(p.output, Is(x))
        {
          SettledConserves(c, id, q, Is(x));
        }
        SettledConserves(c, id, q, Is(p.stage.waiting[0]));
        GetResultFromCompletedQueue();
        assert View(None) == Settled(id, q);
      }
    }
  }

  lemma CollectSettles(c: Commands, id: StageId, p: Port)
    requires ResultsAhead(c, id, p.stage) && Enabled(p, Collect)
    ensures Settling(c, id, Collected(c, id, p))
  {
    var s, q := p.stage, Collected(c, id, p).stage;
    assert s.completed == [s.completed[0]] + q.completed;
    forall t | t in q.waiting && q.resolving.value.entry.key != Key(c, id, t)
      ensures exists e :: e in q.completed && e.key == Key(c, id, t)
    {
      var e :| e in s.completed && e.key == Key(c, id, t);
      assert e in q.completed;
    }
  }
}
