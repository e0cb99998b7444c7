/** What a crash costs, and what incremental switching saves. */
module ResumeLosses {
  import opened Tasks
  import opened BinarySearcher
  import opened Bisection
  import opened BinarySearchState
  import opened Resume

  // ---------- what is lost ----------

  /** The state a search saved last, tested once more, and what follows that search if it has ended. */
  function Next(cfg: Config, saved: Progress): Progress
    requires WellFormed(saved) && Searching(cfg, saved) && Legal(cfg)
  {
    TestStepOk(cfg, saved);
    AfterSearch(cfg, TestStep(cfg, saved)).progress
  }

  ghost predicate Resumable(cfg: Config, saved: Option<Progress>) {
    saved.Some? ==> Legal(cfg) && WellFormed(saved.value) && Searching(cfg, saved.value)
  }

  /** Where a process may stand, from the state saved last. */
  ghost predicate Near(cfg: Config, items: seq<string>, saved: Option<Progress>, c: Process)
    requires items != [] && Resumable(cfg, saved)
  {
    match c.at
    case Saved => saved == Some(c.progress)
    case HalfSwitched => saved == Some(c.progress)
    case Ready => saved == Some(c.progress)
    case Inside =>
      if saved.None? then c.progress == Begin(items)
      else c.progress == saved.value || c.progress == TestStep(cfg, saved.value) || c.progress == Next(cfg, saved.value).(searchCycles := 0)
    case Top =>
      if saved.None? then c.progress == Begin(items) && !c.resumed
      else if c.resumed then c.progress == saved.value
      else c.progress == Next(cfg, saved.value)
    case Ended => saved.None? || c.progress == Next(cfg, saved.value)
    case Exited => true
  }

  /** A new search has something to test, unless there are no iterations at all. */
  ghost predicate Fresh(p: Progress) {
    p.items != [] && p.window == NewWindow(|p.items|) && p.searchCycles == 0
  }

  lemma FreshSearches(cfg: Config, p: Progress)
    requires Fresh(p) && |p.items| > 1 && cfg.iterations > 0
    ensures Searching(cfg, p)
  {
    assert p.window.lo !in p.window.skipped;
  }

  lemma AfterIsFresh(cfg: Config, p: Progress)
    requires WellFormed(p) && AfterSearch(cfg, p).goesOn
    ensures Fresh(AfterSearch(cfg, p).progress.(searchCycles := 0)) && |AfterSearch(cfg, p).progress.items| > 1
  {
  }

  lemma NothingTested(cfg: Config, items: seq<string>, p: Progress)
    requires items != [] && p == Begin(items) && |items| > 1
    ensures !AfterSearch(cfg, p).goesOn
  {
    assert p.window.lo !in p.window.skipped;
  }

  /** Between searches the list is a new one. */
  ghost predicate Between(c: Process) {
    c.at.Top? && !c.resumed ==> Fresh(c.progress.(searchCycles := 0)) && (c.progress.pruneCycles > 0 ==> |c.progress.items| > 1)
  }

  /** A process inside a search stands at a search that goes on, or has just made a test, or has no iterations. */
  ghost predicate Started(cfg: Config, saved: Option<Progress>, c: Process)
    requires Resumable(cfg, saved)
  {
    c.at.Inside? && !Searching(cfg, c.progress) ==> if saved.None? then true else c.progress == TestStep(cfg, saved.value)
  }

  ghost predicate NearWorld(cfg: Config, items: seq<string>, w: World)
    requires items != []
  {
    && Resumable(cfg, w.stateFile)
    && (w.process.Some? ==>
          Near(cfg, items, w.stateFile, w.process.value) && Between(w.process.value) && Started(cfg, w.stateFile, w.process.value))
  }

  lemma EnterNear(cfg: Config, items: seq<string>, w: World, universe: set<string>, goal: Progress)
    requires items != [] && WorldOk(cfg, w, universe, goal) && w.process.Some? && CanTake(cfg, w.process.value, Enter) && NearWorld(cfg, items, w)
    ensures NearWorld(cfg, items, Taken(cfg, w, w.process.value, Enter))
  {
    hide FromInside, SearchAll, ItemsOk, Remembered, AfterSearch, SearchLoop, Verdict;
    var c := w.process.value;
    if w.stateFile.Some? && !c.resumed && Pruning(cfg, c.progress) { FreshSearches(cfg, c.progress.(searchCycles := 0)); }
  }

  lemma TakeNear(cfg: Config, items: seq<string>, w: World, universe: set<string>, goal: Progress, s: Step)
    requires items != [] && WorldOk(cfg, w, universe, goal) && w.process.Some? && CanTake(cfg, w.process.value, s) && NearWorld(cfg, items, w)
    ensures NearWorld(cfg, items, Taken(cfg, w, w.process.value, s))
  {
    hide FromInside, SearchAll, ItemsOk, Remembered, AfterSearch, SearchLoop, Verdict;
    match s
    case Enter => EnterNear(cfg, items, w, universe, goal);
    case Leave =>
      var p := w.process.value.progress;
      if w.stateFile.None? { NothingTested(cfg, items, p); } else if AfterSearch(cfg, p).goesOn { AfterIsFresh(cfg, p); }
    case _ =>
  }

  lemma {:induction false} RunNear(cfg: Config, items: seq<string>, env: Environment, run: seq<Event>)
    requires Bisection.Legal(cfg) && items != [] && Distinct(items) && env.Keys == SetOf(items) && After(cfg, Start(items, env), run).Some?
    ensures NearWorld(cfg, items, After(cfg, Start(items, env), run).value)
  {
    hide Near, WorldOk, Started;
    if run == [] {
      StartNear(cfg, items, env);
    } else {
      var n := |run| - 1;
      RunOk(cfg, items, env, run[..n]);
      RunNear(cfg, items, env, run[..n]);
      var w := After(cfg, Start(items, env), run[..n]).value;
      EventNear(cfg, items, w, SetOf(items), SearchAll(cfg, Begin(items)), run[n]);
    }
  }

  lemma StartNear(cfg: Config, items: seq<string>, env: Environment)
    requires items != []
    ensures NearWorld(cfg, items, Start(items, env))
  {
  }

  lemma EventNear(cfg: Config, items: seq<string>, w: World, universe: set<string>, goal: Progress, e: Event)
    requires items != [] && WorldOk(cfg, w, universe, goal) && Possible(cfg, w, e) && NearWorld(cfg, items, w)
    ensures NearWorld(cfg, items, Happen(cfg, w, e))
  {
    hide FromInside, SearchAll, ItemsOk, Remembered, AfterSearch, SearchLoop, Verdict;
    if e.Take? { TakeNear(cfg, items, w, universe, goal, e.step); }
  }

  /** A crash loses at most one test, in every run: what a process works on is what a restart would go on with, or that with
      one more test recorded, or what the prune loop makes of that; while a test is under way it is the saved state itself. */
  lemma CrashLosesOneTest(cfg: Config, items: seq<string>, env: Environment, run: seq<Event>)
    requires Bisection.Legal(cfg) && items != [] && Distinct(items) && env.Keys == SetOf(items) && After(cfg, Start(items, env), run).Some?
    ensures var w := After(cfg, Start(items, env), run).value;
            w.process.Some? && !w.process.value.at.Exited? && w.stateFile.Some? ==>
              var p, saved := w.process.value.progress, w.stateFile.value;
              && Resumable(cfg, Some(saved))
              && (p == saved || p == TestStep(cfg, saved) || p == Next(cfg, saved) || p == Next(cfg, saved).(searchCycles := 0))
              && (w.process.value.at.Ready? ==> p == saved)
  {
    RunNear(cfg, items, env, run);
  }

  // ---------- what is sent ----------

  /** With every item remembered, incremental switching sends a script exactly the items that are not on its side yet. */
  lemma SendsOnlyChanges(cfg: Config, env: Environment, good: set<string>, bad: set<string>, items: set<string>)
    requires cfg.incremental && Remembered(env, good, bad) && good + bad == env.Keys && items <= env.Keys
    ensures ToSend(cfg, items, good) == set x | x in items && env[x]
    ensures ToSend(cfg, items, bad) == set x | x in items && !env[x]
  {
    assert forall x | x in env.Keys :: x in good + bad;
  }

  /** What a process remembers: nothing before its first test, everything from then on. */
  ghost predicate MemoryOk(env: Environment, c: Process) {
    match c.at
    case HalfSwitched =>
      && WellFormed(c.progress) && Open(c.progress.window) && env.Keys - NextBad(c.progress) <= c.good
      && (c.bad == {} || c.good + c.bad == env.Keys)
    case Ready => c.good + c.bad == env.Keys
    case Ended => true
    case Exited => true
    case _ => (c.good == {} && c.bad == {}) || c.good + c.bad == env.Keys
  }

  lemma TakeRemembers(cfg: Config, w: World, universe: set<string>, goal: Progress, s: Step)
    requires WorldOk(cfg, w, universe, goal) && w.process.Some? && CanTake(cfg, w.process.value, s) && MemoryOk(w.env, w.process.value)
    ensures var v := Taken(cfg, w, w.process.value, s); v.process.Some? ==> MemoryOk(v.env, v.process.value)
  {
    hide FromInside, SearchAll, AfterSearch, SearchLoop, Verdict;
    var c := w.process.value;
    if s.SwitchGood? { SwitchOk(cfg, w, universe, goal, s); }
    if s.SwitchBad? {
      NextBadWithin(c.progress, universe);
      assert forall x | x in w.env.Keys :: x in NextBad(c.progress) || x in c.good;
    }
  }

  lemma {:induction false} RunRemembers(cfg: Config, items: seq<string>, env: Environment, run: seq<Event>)
    requires Bisection.Legal(cfg) && items != [] && Distinct(items) && env.Keys == SetOf(items) && After(cfg, Start(items, env), run).Some?
    ensures var w := After(cfg, Start(items, env), run).value; w.process.Some? ==> MemoryOk(w.env, w.process.value)
  {
    hide WorldOk, MemoryOk, Taken, CanTake;
    if run == [] {
      StartRemembers(items, env);
    } else {
      var n := |run| - 1;
      RunOk(cfg, items, env, run[..n]);
      RunRemembers(cfg, items, env, run[..n]);
      var w, e := After(cfg, Start(items, env), run[..n]).value, run[n];
      if e.Take? {
        TakeRemembers(cfg, w, SetOf(items), SearchAll(cfg, Begin(items)), e.step);
      } else if e.Restart? {
        RestartRemembers(cfg, w, e);
      }
    }
  }

  lemma StartRemembers(items: seq<string>, env: Environment)
    requires items != []
    ensures MemoryOk(env, Start(items, env).process.value)
  {
  }

  lemma RestartRemembers(cfg: Config, w: World, e: Event)
    requires Possible(cfg, w, e) && e.Restart?
    ensures MemoryOk(Happen(cfg, w, e).env, Happen(cfg, w, e).process.value)
  {
  }

  /** From the second test on after a start or a restart, in every run with incremental switching, the scripts are sent
      exactly the items whose side changes; before the first test nothing is remembered, and they are sent all. */
  lemma ScriptsGetTheChanges(cfg: Config, items: seq<string>, env: Environment, run: seq<Event>)
    requires Bisection.Legal(cfg) && items != [] && Distinct(items) && env.Keys == SetOf(items) && After(cfg, Start(items, env), run).Some?
    requires cfg.incremental && After(cfg, Start(items, env), run).value.process.Some?
    ensures var w := After(cfg, Start(items, env), run).value; var c := w.process.value;
            CanTake(cfg, c, SwitchGood) ==>
              var asked := w.env.Keys - NextBad(c.progress);
              ToSend(cfg, asked, c.good) == if c.good + c.bad == {} then asked else set x | x in asked && w.env[x]
    ensures var w := After(cfg, Start(items, env), run).value; var c := w.process.value;
            CanTake(cfg, c, SwitchBad) ==>
              var asked := NextBad(c.progress);
              && asked <= w.env.Keys
              && ToSend(cfg, asked, c.bad) == if c.good + c.bad != w.env.Keys then asked else set x | x in asked && !w.env[x]
  {
    var w := After(cfg, Start(items, env), run).value;
    var c := w.process.value;
    RunRemembers(cfg, items, env, run);
    RunOk(cfg, items, env, run);
    if CanTake(cfg, c, SwitchBad) { NextBadWithin(c.progress, SetOf(items)); }
    if c.good + c.bad == w.env.Keys {
      var asked := if CanTake(cfg, c, SwitchGood) then w.env.Keys - NextBad(c.progress) else w.env.Keys;
      SendsOnlyChanges(cfg, w.env, c.good, c.bad, asked);
      if CanTake(cfg, c, SwitchBad) { SendsOnlyChanges(cfg, w.env, c.good, c.bad, NextBad(c.progress)); }
    }
    hide WorldOk, FromInside, SearchAll;
  }
}
