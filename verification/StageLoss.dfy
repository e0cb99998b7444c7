/** Why equal flags have to mean equal keys: a stage fed two tasks with the same flags and different images loses one
    of them, and its helper never stops. */
module StageLoss {
  import opened Tasks
  import opened Stage
  import opened StageRuns

  lemma {:induction false} ReplayConcat(c: Commands, id: StageId, p: Port, a: seq<Event>, b: seq<Event>)
    requires Replay(c, id, p, a).Some?
    ensures Replay(c, id, p, a + b) == Replay(c, id, Replay(c, id, p, a).value, b)
  {
    if b == [] {
      assert a + b == a;
    } else {
      var n := |b| - 1;
      ReplayConcat(c, id, p, a, b[..n]);
      assert (a + b)[..|a| + n] == a + b[..n];
    }
  }

  lemma One(c: Commands, id: StageId, p: Port, e: Event)
    requires Possible(p, e)
    ensures Replay(c, id, p, [e]) == Some(Happen(c, id, p, e))
  {
    assert [e][..0] == [];
  }

  lemma Two(c: Commands, id: StageId, p: Port, e: Event, f: Event)
    requires Possible(p, e) && Possible(Happen(c, id, p, e), f)
    ensures Replay(c, id, p, [e, f]) == Some(Happen(c, id, Happen(c, id, p, e), f))
  {
    One(c, id, p, e);
    One(c, id, Happen(c, id, p, e), f);
    ReplayConcat(c, id, p, [e], [f]);
    assert [e] + [f] == [e, f];
  }

  const Empty := Stage({}, [], [], [], [], [], [], map[], [], None, Pulling, Serving)

  lemma {:induction false} Feed(c: Commands, id: StageId, p: Port, q: seq<Message>)
    ensures Replay(c, id, p, seq(|q|, i requires 0 <= i < |q| => Arrive(q[i]))) == Some(p.(input := p.input + q))
  {
    var run := seq(|q|, i requires 0 <= i < |q| => Arrive(q[i]));
    if q == [] {
      assert p.input + q == p.input;
    } else {
      var n := |q| - 1;
      Feed(c, id, p, q[..n]);
      assert run[..n] == seq(n, i requires 0 <= i < n => Arrive(q[..n][i]));
      assert p.input + q == (p.input + q[..n]) + [q[n]];
    }
  }

  function Ended(c: Commands, t: Task): Task {
    Finish(c, Test, t)
  }

  lemma PullNew(c: Commands, p: Port, x: Task, y: Task, rest: seq<Message>)
    requires p.input == [Work(x), Work(y)] + rest && p.stage.phase.Pulling?
    requires Key(c, Test, x) !in p.stage.known && Key(c, Test, y) !in p.stage.known + [Key(c, Test, x)]
    ensures var s := p.stage;
            Replay(c, Test, p, [Act(Pull), Act(Pull)]) ==
            Some(Port(rest, s.(known := s.known + [Key(c, Test, x)] + [Key(c, Test, y)], pool := s.pool + [x] + [y]), p.output))
  {
    hide Key;
    var s := p.stage;
    assert p.input[1..] == [Work(y)] + rest && ([Work(y)] + rest)[1..] == rest;
    assert Step(c, Test, p, Pull) == Port([Work(y)] + rest, s.(known := s.known + [Key(c, Test, x)], pool := s.pool + [x]), p.output);
    Two(c, Test, p, Act(Pull), Act(Pull));
  }

  lemma PullKnown(c: Commands, p: Port, x: Task, y: Task)
    requires p.input == [Work(x), Work(y), Pill] && p.stage.phase.Pulling?
    requires Key(c, Test, x) in p.stage.known && Key(c, Test, y) in p.stage.known
    ensures var s := p.stage;
            Replay(c, Test, p, [Act(Pull), Act(Pull)] + [Act(Pull)]) ==
            Some(Port([], s.(duplicates := s.duplicates + [Work(x)] + [Work(y)], phase := Joining), p.output + [Pill]))
  {
    hide Key;
    var s := p.stage;
    assert Step(c, Test, p, Pull) == Port([Work(y), Pill], s.(duplicates := s.duplicates + [Work(x)]), p.output);
    Two(c, Test, p, Act(Pull), Act(Pull));
    var q := Port([Pill], s.(duplicates := s.duplicates + [Work(x)] + [Work(y)]), p.output);
    One(c, Test, q, Act(Pull));
    ReplayConcat(c, Test, p, [Act(Pull), Act(Pull)], [Act(Pull)]);
  }

  lemma BothWait(c: Commands, known: seq<string>, pool: seq<Task>, t: Task, u: Task)
    ensures var s := Empty.(known := known, pool := pool, phase := Joining);
            Replay(c, Test, Port([], s.(duplicates := [Work(t), Work(u)]), [Pill]), [Act(Poll), Act(Poll)]) ==
            Some(Port([], s.(waiting := [t, u]), [Pill]))
  {
    var s := Empty.(known := known, pool := pool, phase := Joining);
    var p := Port([], s.(duplicates := [Work(t), Work(u)]), [Pill]);
    var q := Port([], s.(duplicates := [Work(u)], waiting := [t]), [Pill]);
    assert Step(c, Test, p, Poll) == q;
    assert [t] + [u] == [t, u] && [Work(u)][1..] == [];
    assert Step(c, Test, q, Poll) == Port([], s.(waiting := [t, u]), [Pill]);
    Two(c, Test, p, Act(Poll), Act(Poll));
  }

  lemma OnlySecondMatches(c: Commands, t: Task, u: Task, k: string)
    requires Key(c, Test, u) == k != Key(c, Test, t)
    ensures Matching(c, Test, [t, u], k) == [u]
  {
    assert [t, u][1..] == [u] && [u][1..] == [];
    assert Matching(c, Test, [u], k) == [u] + Matching(c, Test, [], k);
    assert Matching(c, Test, [t, u], k) == [] + Matching(c, Test, [u], k);
  }

  lemma SecondCollected(c: Commands, s: Stage, a: Task, b: Task, t: Task, u: Task)
    requires Key(c, Test, b) == Key(c, Test, u) != Key(c, Test, t) && s == Empty.(known := s.known, phase := Joining)
    ensures var k := Key(c, Test, b); var r := OutcomeOf(c, Test, k);
            Replay(c, Test, Port([], s.(pool := [a, b], waiting := [t, u]), [Pill]), [Act(DoWork(1)), Act(Collect)]) ==
            Some(Port([], s.(pool := [a], reported := [Ended(c, b)], worked := [k], done := map[k := r], waiting := [t, u],
                             resolving := Some(Batch(Entry(k, r), [u]))), [Pill]))
  {
    var k := Key(c, Test, b);
    var r := OutcomeOf(c, Test, k);
    var p := Port([], s.(pool := [a, b], waiting := [t, u]), [Pill]);
    var q := Port([], s.(pool := [a], reported := [Ended(c, b)], worked := [k], completed := [Entry(k, r)], waiting := [t, u]), [Pill]);
    assert Step(c, Test, p, DoWork(1)) == q;
    OnlySecondMatches(c, t, u, k);
    hide Matching;
    var q' := Port([], q.stage.(completed := [], done := map[k := r], resolving := Some(Batch(Entry(k, r), [u]))), [Pill]);
    assert Step(c, Test, q, Collect) == q';
    Two(c, Test, p, Act(DoWork(1)), Act(Collect));
  }

  lemma SecondResolved(c: Commands, s: Stage, e: Entry, t: Task, u: Task)
    requires s.waiting == [t, u] && t.flags == u.flags && s.resolving == Some(Batch(e, [u]))
    ensures Replay(c, Test, Port([], s, [Pill]), [Act(Resolve), Act(Resolve)]) ==
            Some(Port([], s.(waiting := [u], resolving := None), [Pill, Work(SetResult(Test, u, e.outcome))]))
  {
    hide SetResult;
    var p := Port([], s, [Pill]);
    assert HasEqual([t, u], u) by { assert [t, u][0].flags == u.flags; }
    assert RemoveEqual([t, u], u) == [u];
    assert Step(c, Test, p, Resolve) == Port([], s.(waiting := [u], resolving := Some(Batch(e, []))), [Pill, Work(SetResult(Test, u, e.outcome))]);
    Two(c, Test, p, Act(Resolve), Act(Resolve));
  }

  /** The second result comes first, and with it the wrong task goes. */
  lemma WrongOneGoes(c: Commands, known: seq<string>, a: Task, b: Task, t: Task, u: Task)
    requires t.flags == u.flags && Key(c, Test, b) == Key(c, Test, u) != Key(c, Test, t)
    ensures var k := Key(c, Test, b); var r := OutcomeOf(c, Test, k); var s := Empty.(known := known, phase := Joining);
            Replay(c, Test, Port([], s.(pool := [a, b], waiting := [t, u]), [Pill]), [Act(DoWork(1)), Act(Collect)] + [Act(Resolve), Act(Resolve)]) ==
            Some(Port([], s.(pool := [a], reported := [Ended(c, b)], worked := [k], done := map[k := r], waiting := [u]), [Pill, Work(Ended(c, u))]))
  {
    hide Replay, Key;
    var s := Empty.(known := known, phase := Joining);
    var p := Port([], s.(pool := [a, b], waiting := [t, u]), [Pill]);
    SecondCollected(c, s, a, b, t, u);
    var q := Replay(c, Test, p, [Act(DoWork(1)), Act(Collect)]).value;
    SecondResolved(c, q.stage, q.stage.resolving.value.entry, t, u);
    ReplayConcat(c, Test, p, [Act(DoWork(1)), Act(Collect)], [Act(Resolve), Act(Resolve)]);
  }

  /** The first result finds nothing that waits for it. */
  lemma NothingToFind(c: Commands, s: Stage, a: Task, u: Task, output: seq<Message>)
    requires s.pool == [a] && s.waiting == [u] && s.completed == [] && s.resolving.None? && s.mode.Serving? && Key(c, Test, a) != Key(c, Test, u)
    ensures var k := Key(c, Test, a); var r := OutcomeOf(c, Test, k);
            Replay(c, Test, Port([], s, output), [Act(DoWork(0)), Act(Collect)] + [Act(Resolve)]) ==
            Some(Port([], s.(pool := [], reported := s.reported + [Ended(c, a)], worked := s.worked + [k], done := s.done[k := r]), output))
  {
    var k := Key(c, Test, a);
    var r := OutcomeOf(c, Test, k);
    var p := Port([], s, output);
    var q := Port([], s.(pool := [], reported := s.reported + [Ended(c, a)], worked := s.worked + [k], completed := [Entry(k, r)]), output);
    var q' := Port([], q.stage.(completed := [], done := s.done[k := r], resolving := Some(Batch(Entry(k, r), []))), output);
    assert Step(c, Test, p, DoWork(0)) == q;
    assert [u][1..] == [] && Matching(c, Test, [u], k) == [];
    assert Step(c, Test, q, Collect) == q';
    Two(c, Test, p, Act(DoWork(0)), Act(Collect));
    One(c, Test, q', Act(Resolve));
    ReplayConcat(c, Test, p, [Act(DoWork(0)), Act(Collect)], [Act(Resolve)]);
  }

  /** The workers put out what they have, the pool is joined, and the helper gets its pill. */
  lemma ToTheDrain(c: Commands, s: Stage, x: Task, y: Task, output: seq<Message>)
    requires s.pool == [] && s.reported == [x, y] && s.duplicates == [] && s.resolving.None? && s.mode.Serving? && s.phase.Joining?
    ensures Replay(c, Test, Port([], s, output), [Act(PutOut(0)), Act(PutOut(0))] + [Act(Join), Act(Poll)]) ==
            Some(Port([], s.(reported := [], phase := Stopping, mode := Draining), output + [Work(x)] + [Work(y)]))
  {
    var p := Port([], s, output);
    var q := Port([], s.(reported := [y]), output + [Work(x)]);
    var q' := Port([], s.(reported := []), output + [Work(x)] + [Work(y)]);
    assert Step(c, Test, p, PutOut(0)) == q;
    assert Step(c, Test, q, PutOut(0)) == q';
    Two(c, Test, p, Act(PutOut(0)), Act(PutOut(0)));
    var w := Port([], s.(reported := [], duplicates := [Pill], phase := Stopping), q'.output);
    assert Step(c, Test, q', Join) == w && [Pill][1..] == [];
    assert Step(c, Test, w, Poll) == Port([], s.(reported := [], phase := Stopping, mode := Draining), q'.output);
    Two(c, Test, q', Act(Join), Act(Poll));
    ReplayConcat(c, Test, p, [Act(PutOut(0)), Act(PutOut(0))], [Act(Join), Act(Poll)]);
  }

  // ---------- the whole run ----------

  lemma Chain(c: Commands, p: Port, a: seq<Event>, q: Port, b: seq<Event>, w: Port)
    requires Replay(c, Test, p, a) == Some(q) && Replay(c, Test, q, b) == Some(w)
    ensures Replay(c, Test, p, a + b) == Some(w)
  {
    hide Replay;
    ReplayConcat(c, Test, p, a, b);
  }

  function Arriving(q: seq<Message>): seq<Event> {
    seq(|q|, i requires 0 <= i < |q| => Arrive(q[i]))
  }

  const Pulls := [Act(Pull), Act(Pull)] + ([Act(Pull), Act(Pull)] + [Act(Pull)])
  const Second := [Act(DoWork(1)), Act(Collect)] + [Act(Resolve), Act(Resolve)]
  const First := [Act(DoWork(0)), Act(Collect)] + [Act(Resolve)]
  const Finale := [Act(PutOut(0)), Act(PutOut(0))] + [Act(Join), Act(Poll)]

  const Moves := Pulls + ([Act(Poll), Act(Poll)] + (Second + (First + Finale)))

  /** The stage as that run leaves it. */
  function Stranded(c: Commands, a: Task, b: Task, u: Task): Port {
    var k, l := Key(c, Test, a), Key(c, Test, b);
    Port([], Stage({}, [k, l], [], [], [l, k], [], [], map[l := OutcomeOf(c, Test, l), k := OutcomeOf(c, Test, k)], [u], None, Stopping, Draining),
         [Pill, Work(Ended(c, u)), Work(Ended(c, b)), Work(Ended(c, a))])
  }

  /** Before the workers start. */
  function Waiting(c: Commands, a: Task, b: Task, t: Task, u: Task): Port {
    Port([], Empty.(known := [Key(c, Test, a), Key(c, Test, b)], pool := [a, b], phase := Joining, waiting := [t, u]), [Pill])
  }

  lemma AllPulled(c: Commands, a: Task, b: Task, t: Task, u: Task)
    requires Key(c, Test, a) == Key(c, Test, t) != Key(c, Test, u) == Key(c, Test, b)
    ensures Replay(c, Test, Port([Work(a), Work(b), Work(t), Work(u), Pill], Empty, []), Pulls) ==
            Some(Port([], Empty.(known := [Key(c, Test, a), Key(c, Test, b)], pool := [a, b], phase := Joining, duplicates := [Work(t), Work(u)]), [Pill]))
  {
    hide Key, Replay;
    var fed := [Work(a), Work(b), Work(t), Work(u), Pill];
    assert fed == [Work(a), Work(b)] + [Work(t), Work(u), Pill];
    PullNew(c, Port(fed, Empty, []), a, b, [Work(t), Work(u), Pill]);
    assert [] + [Key(c, Test, a)] + [Key(c, Test, b)] == [Key(c, Test, a), Key(c, Test, b)] && [] + [a] + [b] == [a, b];
    var q := Port([Work(t), Work(u), Pill], Empty.(known := [Key(c, Test, a), Key(c, Test, b)], pool := [a, b]), []);
    assert Key(c, Test, a) in q.stage.known && Key(c, Test, b) in q.stage.known;
    PullKnown(c, q, t, u);
    assert [] + [Work(t)] + [Work(u)] == [Work(t), Work(u)] && [] + [Pill] == [Pill];
    Chain(c, Port(fed, Empty, []), [Act(Pull), Act(Pull)], q, [Act(Pull), Act(Pull)] + [Act(Pull)],
          Port([], q.stage.(duplicates := [Work(t), Work(u)], phase := Joining), [Pill]));
  }

  lemma Worked(c: Commands, a: Task, b: Task, t: Task, u: Task)
    requires Key(c, Test, a) == Key(c, Test, t) != Key(c, Test, u) == Key(c, Test, b) && t.flags == u.flags
    ensures Replay(c, Test, Waiting(c, a, b, t, u), Second + (First + Finale)) == Some(Stranded(c, a, b, u))
  {
    hide Key, OutcomeOf, Ended, Replay;
    var k, l, known := Key(c, Test, a), Key(c, Test, b), [Key(c, Test, a), Key(c, Test, b)];
    var out := [Pill, Work(Ended(c, u))];
    var s := Empty.(known := known, phase := Joining, pool := [a], reported := [Ended(c, b)], worked := [l],
                    done := map[l := OutcomeOf(c, Test, l)], waiting := [u]);
    var s' := s.(pool := [], reported := [Ended(c, b), Ended(c, a)], worked := [l, k],
                 done := map[l := OutcomeOf(c, Test, l), k := OutcomeOf(c, Test, k)]);
    WrongOneGoes(c, known, a, b, t, u);
    NothingToFind(c, s, a, u, out);
    assert [l] + [k] == [l, k] && [Ended(c, b)] + [Ended(c, a)] == [Ended(c, b), Ended(c, a)];
    assert s.done[k := OutcomeOf(c, Test, k)] == s'.done;
    ToTheDrain(c, s', Ended(c, b), Ended(c, a), out);
    assert out + [Work(Ended(c, b))] + [Work(Ended(c, a))] == Stranded(c, a, b, u).output;
    Chain(c, Port([], s, out), First, Port([], s', out), Finale, Stranded(c, a, b, u));
    Chain(c, Waiting(c, a, b, t, u), Second, Port([], s, out), First + Finale, Stranded(c, a, b, u));
  }

  lemma {:induction false} ArrivalsConcat(a: seq<Event>, b: seq<Event>)
    ensures Arrivals(a + b) == Arrivals(a) + Arrivals(b)
  {
    if b == [] {
      assert a + b == a;
    } else {
      var n := |b| - 1;
      ArrivalsConcat(a, b[..n]);
      assert (a + b)[..|a| + n] == a + b[..n];
    }
  }

  lemma {:induction false} NoArrivals(run: seq<Event>)
    requires forall e | e in run :: e.Act?
    ensures Arrivals(run) == []
  {
    if run != [] {
      assert run[|run| - 1] in run;
      NoArrivals(run[..|run| - 1]);
    }
  }

  lemma {:induction false} AllArrive(q: seq<Message>)
    ensures Arrivals(Arriving(q)) == q
  {
    if q != [] {
      var n := |q| - 1;
      AllArrive(q[..n]);
      assert Arriving(q)[..n] == Arriving(q[..n]);
    }
  }

  /** For all tasks a, b, t, u where t and u have the same flags but the images of a and b: fed in this order they can
      bring the stage to where t is lost, u waits for ever after it has been put out, and nothing can move. */
  lemma StageLosesTask(c: Commands, a: Task, b: Task, t: Task, u: Task)
    requires Key(c, Test, a) == Key(c, Test, t) != Key(c, Test, u) == Key(c, Test, b) && t.flags == u.flags
    ensures var fed := [Work(a), Work(b), Work(t), Work(u), Pill]; var run := Arriving(fed) + Moves;
            Arrivals(run) == fed && Replay(c, Test, Port([], Empty, []), run) == Some(Stranded(c, a, b, u))
  {
    hide Key, Replay, Stranded, Arriving;
    var fed, p0 := [Work(a), Work(b), Work(t), Work(u), Pill], Port([], Empty, []);
    AllArrive(fed);
    NoArrivals(Moves);
    ArrivalsConcat(Arriving(fed), Moves);
    AllPulled(c, a, b, t, u);
    var known := [Key(c, Test, a), Key(c, Test, b)];
    BothWait(c, known, [a, b], t, u);
    Worked(c, a, b, t, u);
    var last := Second + (First + Finale);
    var mid := Port([], Empty.(known := known, pool := [a, b], phase := Joining, duplicates := [Work(t), Work(u)]), [Pill]);
    Chain(c, mid, [Act(Poll), Act(Poll)], Waiting(c, a, b, t, u), last, Stranded(c, a, b, u));
    Chain(c, Port(fed, Empty, []), Pulls, mid, [Act(Poll), Act(Poll)] + last, Stranded(c, a, b, u));
    Fed(c, p0, fed);
    Chain(c, p0, Arriving(fed), Port(fed, Empty, []), Moves, Stranded(c, a, b, u));
  }

  lemma Fed(c: Commands, p: Port, q: seq<Message>)
    ensures p.input == [] ==> Replay(c, Test, p, Arriving(q)) == Some(p.(input := q))
  {
    Feed(c, Test, p, q);
    assert [] + q == q;
  }

  /** That is no way to end: nothing can move, the helper has not stopped, t has not been put out, and the tasks fed
      are exactly what the theorems on stages ask them not to be. */
  lemma StrandedForGood(c: Commands, a: Task, b: Task, t: Task, u: Task)
    requires Key(c, Test, a) == Key(c, Test, t) != Key(c, Test, u) == Key(c, Test, b) && t.flags == u.flags && t !in {a, b}
    requires Ready(Test, a) && Ready(Test, b) && Ready(Test, t) && Ready(Test, u)
    ensures var p := Stranded(c, a, b, u);
            (forall x :: !Enabled(p, x)) && !p.stage.phase.Stopped? && Work(Ended(c, t)) !in p.output
    ensures !ArrivalsFit(c, Test, [Work(a), Work(b), Work(t), Work(u), Pill])
  {
    var fed := [Work(a), Work(b), Work(t), Work(u), Pill];
    assert fed[2] == Work(t) && fed[3] == Work(u);
    assert Work(t) in fed && Work(u) in fed;
    assert Ended(c, t).build == t.build && Ended(c, t).flags == t.flags;
  }

  // ---------- what can be fed to a stage ----------

  /** A run that feeds the stage tasks of the given kind and then a pill, and that cannot go on. */
  ghost predicate Exhausts(c: Commands, id: StageId, tasks: iset<Task>, p: Port, run: seq<Event>, fed: seq<Message>) {
    && StartsEmpty(c, id, p) && Replay(c, id, p, run).Some? && Arrivals(run) == fed + [Pill]
    && (forall m | m in fed :: m.Work? && m.task in tasks)
    && forall a :: !Enabled(Replay(c, id, p, run).value, a)
  }

  /** In any order, any number of times and over every interleaving, the stage stops having put out every one. */
  ghost predicate SafeToFeed(c: Commands, id: StageId, tasks: iset<Task>) {
    forall p, run, fed | Exhausts(c, id, tasks, p, run, fed) ::
      var q := Replay(c, id, p, run).value;
      q.stage.phase.Stopped? && multiset(TasksOf(q.output)) == multiset(Finished(c, id, TasksOf(fed)))
  }

  ghost predicate KeysAgree(c: Commands, id: StageId, tasks: iset<Task>) {
    forall t, u | t in tasks && u in tasks && t.flags == u.flags :: Key(c, id, t) == Key(c, id, u)
  }

  lemma AgreeingIsSafe(c: Commands, id: StageId, tasks: iset<Task>)
    requires KeysAgree(c, id, tasks) && forall t | t in tasks :: Ready(id, t)
    ensures SafeToFeed(c, id, tasks)
  {
    hide Replay, StartsEmpty, Key, Ready, Enabled;
    forall p, run, fed | Exhausts(c, id, tasks, p, run, fed)
      ensures var q := Replay(c, id, p, run).value;
              q.stage.phase.Stopped? && multiset(TasksOf(q.output)) == multiset(Finished(c, id, TasksOf(fed)))
    {
      forall t | Work(t) in fed ensures t in tasks { assert Work(t).Work?; }
      StageCompletes(c, id, p, run, fed);
    }
  }

  /** Two tasks that do not agree strand the stage when each is fed twice. */
  lemma DisagreeingIsNot(c: Commands, tasks: iset<Task>, t: Task, u: Task)
    requires t in tasks && u in tasks && t.flags == u.flags && Key(c, Test, t) != Key(c, Test, u)
    ensures !SafeToFeed(c, Test, tasks)
  {
    hide Key;
    var fed, p := [Work(t), Work(u), Work(t), Work(u)], Port([], Empty, []);
    var run := Arriving([Work(t), Work(u), Work(t), Work(u), Pill]) + Moves;
    StageLosesTask(c, t, u, t, u);
    assert fed + [Pill] == [Work(t), Work(u), Work(t), Work(u), Pill];
    assert StartsEmpty(c, Test, p);
    assert Exhausts(c, Test, tasks, p, run, fed);
    assert !Stranded(c, t, u, u).stage.phase.Stopped?;
  }

  /** Which tasks a stage can be fed, in whatever order and over every interleaving: exactly those among which equal
      flags mean equal keys. */
  lemma SafeIffKeysAgree(c: Commands, id: StageId, tasks: iset<Task>)
    requires forall t | t in tasks :: Ready(id, t)
    ensures SafeToFeed(c, id, tasks) <==> KeysAgree(c, id, tasks)
  {
    hide SafeToFeed;
    if KeysAgree(c, id, tasks) {
      AgreeingIsSafe(c, id, tasks);
    } else {
      var t, u :| t in tasks && u in tasks && t.flags == u.flags && Key(c, id, t) != Key(c, id, u);
      assert id.Test?;
      DisagreeingIsNot(c, tasks, t, u);
    }
  }
}
