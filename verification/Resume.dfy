/** Crashing and resuming a bisection.

    The run is cut into steps at every point where it touches the state file or the environment.  It may
    crash between any two of them, leaving any environment behind, and may be resumed from the last saved
    state in any environment, any number of times. */
module Resume {
  import opened Tasks
  import opened BinarySearcher
  import opened Bisection
  import opened BinarySearchState
  import opened Sets

  datatype Place = Top | Inside | Saved | HalfSwitched | Ready | Ended | Exited

  datatype Process = Process(at: Place, progress: Progress, resumed: bool, good: set<string>, bad: set<string>)

  datatype World = World(process: Option<Process>, stateFile: Option<Progress>, env: Environment)

  datatype Step = Enter | Save | SwitchGood | SwitchBad | RunTest | Leave | RemoveState

  datatype Event = Take(step: Step) | Crash(left: Environment) | Restart(met: Environment)

  predicate CanTake(cfg: Config, c: Process, s: Step) {
    match s
    case Enter => c.at.Top?
    case Save => c.at.Inside? && Searching(cfg, c.progress)
    case SwitchGood => c.at.Saved? && WellFormed(c.progress) && Open(c.progress.window)
    case SwitchBad => c.at.HalfSwitched? && WellFormed(c.progress) && Open(c.progress.window)
    case RunTest => c.at.Ready? && WellFormed(c.progress) && Open(c.progress.window)
    case Leave => c.at.Inside? && !Searching(cfg, c.progress) && WellFormed(c.progress)
    case RemoveState => c.at.Ended?
  }

  predicate Possible(cfg: Config, w: World, e: Event) {
    match e
    case Take(s) => w.process.Some? && CanTake(cfg, w.process.value, s)
    case Crash(left) => w.process.Some? && left.Keys == w.env.Keys
    case Restart(met) => w.process.None? && w.stateFile.Some? && met.Keys == w.env.Keys
  }

  /** The items that a script is actually sent. */
  function ToSend(cfg: Config, items: set<string>, known: set<string>): set<string> {
    if cfg.incremental then items - known else items
  }

  function Taken(cfg: Config, w: World, c: Process, s: Step): World
    requires CanTake(cfg, c, s)
  {
    var p := c.progress;
    match s
    case Enter =>
      if Pruning(cfg, p) then
        w.(process := Some(c.(at := Inside, progress := if c.resumed then p else p.(searchCycles := 0), resumed := false)))
      else w.(process := Some(c.(at := Ended)))
    case Save => w.(process := Some(c.(at := Saved)), stateFile := Some(p))
    case SwitchGood =>
      var send := ToSend(cfg, w.env.Keys - NextBad(p), c.good);
      w.(process := Some(c.(at := HalfSwitched, good := c.good + send, bad := c.bad - send)), env := Switched(w.env, send, false))
    case SwitchBad =>
      var send := ToSend(cfg, NextBad(p), c.bad);
      w.(process := Some(c.(at := Ready, good := c.good - send, bad := c.bad + send)), env := Switched(w.env, send, true))
    case RunTest =>
      var status := Verdict(cfg, BadIn(w.env));
      w.(process := Some(c.(at := Inside, progress := p.(window := Tested(p.window, status), searchCycles := p.searchCycles + 1))))
    case Leave =>
      var t := AfterSearch(cfg, p);
      w.(process := Some(c.(at := if t.goesOn then Top else Ended, progress := t.progress)))
    case RemoveState => w.(process := Some(c.(at := Exited)), stateFile := None)
  }

  function Happen(cfg: Config, w: World, e: Event): World
    requires Possible(cfg, w, e)
  {
    match e
    case Take(s) => Taken(cfg, w, w.process.value, s)
    case Crash(left) => w.(process := None, env := left)
    case Restart(met) => w.(process := Some(Process(Top, w.stateFile.value, true, {}, {})), env := met)
  }

  // ---------- the invariant ----------

  /** Inside a search of the given original items that leads to the given end. */
  ghost predicate OnTrack(cfg: Config, p: Progress, universe: set<string>, goal: Progress) {
    && Legal(cfg) && WellFormed(p) && Pruning(cfg, p) && ItemsOk(p.items, p.knownGood, universe)
    && FromInside(cfg, p) == goal
  }

  ghost predicate AtTop(cfg: Config, c: Process, universe: set<string>, goal: Progress) {
    && Legal(cfg) && WellFormed(c.progress) && ItemsOk(c.progress.items, c.progress.knownGood, universe)
    && (c.resumed ==> OnTrack(cfg, c.progress, universe, goal) && Searching(cfg, c.progress))
    && (!c.resumed ==> SearchAll(cfg, c.progress) == goal)
  }

  ghost predicate ProcessOk(cfg: Config, c: Process, env: Environment, goal: Progress) {
    && Remembered(env, c.good, c.bad)
    && match c.at
       case Top => AtTop(cfg, c, env.Keys, goal)
       case Inside => OnTrack(cfg, c.progress, env.Keys, goal) && !c.resumed
       case Saved => OnTrack(cfg, c.progress, env.Keys, goal) && !c.resumed && Searching(cfg, c.progress)
       case HalfSwitched => OnTrack(cfg, c.progress, env.Keys, goal) && !c.resumed && Searching(cfg, c.progress) &&
                            BadIn(env) <= NextBad(c.progress)
       case Ready => OnTrack(cfg, c.progress, env.Keys, goal) && !c.resumed && Searching(cfg, c.progress) &&
                     BadIn(env) == NextBad(c.progress)
       case Ended => c.progress == goal
       case Exited => c.progress == goal
  }

  ghost predicate WorldOk(cfg: Config, w: World, universe: set<string>, goal: Progress) {
    && w.env.Keys == universe
    && (w.process.Some? ==> ProcessOk(cfg, w.process.value, w.env, goal))
    && (w.stateFile.Some? ==> OnTrack(cfg, w.stateFile.value, universe, goal) && Searching(cfg, w.stateFile.value))
  }

  ghost predicate StepOk(cfg: Config, w: World, universe: set<string>, goal: Progress, s: Step) {
    && WorldOk(cfg, w, universe, goal) && w.process.Some? && CanTake(cfg, w.process.value, s)
    && WorldOk(cfg, Taken(cfg, w, w.process.value, s), universe, goal)
  }

  lemma NextBadWithin(p: Progress, universe: set<string>)
    requires WellFormed(p) && Open(p.window) && ItemsOk(p.items, p.knownGood, universe)
    ensures NextBad(p) <= universe
  {
    assert forall x | x in p.items[..NextIndex(p.window) + 1] :: x in p.items;
  }

  lemma SwitchOk(cfg: Config, w: World, universe: set<string>, goal: Progress, s: Step)
    requires WorldOk(cfg, w, universe, goal) && w.process.Some? && CanTake(cfg, w.process.value, s)
    requires s.SwitchGood? || s.SwitchBad?
    ensures StepOk(cfg, w, universe, goal, s)
  {
    var c := w.process.value;
    var bad := NextBad(c.progress);
    NextBadWithin(c.progress, universe);
    IncrementalIsFull(w.env, c.good, c.bad, if s.SwitchGood? then w.env.Keys - bad else bad);
  }

  lemma RunTestOk(cfg: Config, w: World, universe: set<string>, goal: Progress)
    requires WorldOk(cfg, w, universe, goal) && w.process.Some? && CanTake(cfg, w.process.value, RunTest)
    ensures StepOk(cfg, w, universe, goal, RunTest)
  {
    var p := w.process.value.progress;
    TestStepOk(cfg, p);
    assert Taken(cfg, w, w.process.value, RunTest).process.value.progress == TestStep(cfg, p);
  }

  lemma LeaveOk(cfg: Config, w: World, universe: set<string>, goal: Progress)
    requires WorldOk(cfg, w, universe, goal) && w.process.Some? && CanTake(cfg, w.process.value, Leave)
    ensures StepOk(cfg, w, universe, goal, Leave)
  {
    var p := w.process.value.progress;
    PruneKeepsItems(p.items, p.knownGood, universe, p.window.current);
  }

  lemma EnterOk(cfg: Config, w: World, universe: set<string>, goal: Progress)
    requires WorldOk(cfg, w, universe, goal) && w.process.Some? && CanTake(cfg, w.process.value, Enter)
    ensures StepOk(cfg, w, universe, goal, Enter)
  {
  }

  lemma TakeOk(cfg: Config, w: World, universe: set<string>, goal: Progress, s: Step)
    requires WorldOk(cfg, w, universe, goal) && w.process.Some? && CanTake(cfg, w.process.value, s)
    ensures StepOk(cfg, w, universe, goal, s)
  {
    match s
    case Enter => EnterOk(cfg, w, universe, goal);
    case Save =>
    case SwitchGood => SwitchOk(cfg, w, universe, goal, s);
    case SwitchBad => SwitchOk(cfg, w, universe, goal, s);
    case RunTest => RunTestOk(cfg, w, universe, goal);
    case Leave => LeaveOk(cfg, w, universe, goal);
    case RemoveState =>
  }

  lemma EventOk(cfg: Config, w: World, universe: set<string>, goal: Progress, e: Event)
    requires WorldOk(cfg, w, universe, goal) && Possible(cfg, w, e)
    ensures WorldOk(cfg, Happen(cfg, w, e), universe, goal)
  {
    if e.Take? { TakeOk(cfg, w, universe, goal, e.step); }
  }

  // ---------- runs ----------

  function Start(items: seq<string>, env: Environment): World
    requires items != []
  {
    World(Some(Process(Top, Begin(items), false, {}, {})), None, env)
  }

  function After(cfg: Config, w: World, run: seq<Event>): Option<World> {
    if run == [] then Some(w) else
    match After(cfg, w, run[..|run| - 1])
    case None => None
    case Some(v) => if Possible(cfg, v, run[|run| - 1]) then Some(Happen(cfg, v, run[|run| - 1])) else None
  }

  lemma {:induction false} RunOk(cfg: Config, items: seq<string>, env: Environment, run: seq<Event>)
    requires Legal(cfg) && items != [] && Distinct(items) && env.Keys == SetOf(items) && After(cfg, Start(items, env), run).Some?
    ensures WorldOk(cfg, After(cfg, Start(items, env), run).value, SetOf(items), SearchAll(cfg, Begin(items)))
  {
    if run == [] {
      assert SetOf(items) + {} == SetOf(items);
    } else {
      var n := |run| - 1;
      RunOk(cfg, items, env, run[..n]);
      EventOk(cfg, After(cfg, Start(items, env), run[..n]).value, SetOf(items), SearchAll(cfg, Begin(items)), run[n]);
    }
  }

  /** A run crashed and resumed at any points, in whatever environments, ends exactly as the uninterrupted
      one: same found items, same known good items, same counts, same report. */
  lemma CrashesDoNotMatter(cfg: Config, items: seq<string>, env: Environment, run: seq<Event>)
    requires Legal(cfg) && items != [] && Distinct(items) && env.Keys == SetOf(items) && After(cfg, Start(items, env), run).Some?
    ensures var w := After(cfg, Start(items, env), run).value;
            w.process.Some? && (w.process.value.at.Ended? || w.process.value.at.Exited?) ==> w.process.value.progress == SearchAll(cfg, Begin(items))
  {
    RunOk(cfg, items, env, run);
  }

  /** At every test of every such run, the real environment is exactly the requested split. */
  lemma TestsSeeTheRequestedSplit(cfg: Config, items: seq<string>, env: Environment, run: seq<Event>)
    requires Legal(cfg) && items != [] && Distinct(items) && env.Keys == SetOf(items) && After(cfg, Start(items, env), run).Some?
    ensures var w := After(cfg, Start(items, env), run).value;
            Possible(cfg, w, Take(RunTest)) ==> w.env.Keys == SetOf(items) && BadIn(w.env) == NextBad(w.process.value.progress)
  {
    RunOk(cfg, items, env, run);
  }

  // ---------- progress ----------

  /** A live run that has not exited can always take a step, so only crashes without a resume stop it. */
  lemma AlwaysGoesOn(cfg: Config, w: World, universe: set<string>, goal: Progress)
    requires WorldOk(cfg, w, universe, goal) && w.process.Some?
    ensures w.process.value.at.Exited? <==> forall s :: !CanTake(cfg, w.process.value, s)
  {
    var c := w.process.value;
    if !c.at.Exited? {
      var s := match c.at
        case Top => Enter
        case Inside => if Searching(cfg, c.progress) then Save else Leave
        case Saved => SwitchGood
        case HalfSwitched => SwitchBad
        case Ready => RunTest
        case _ => RemoveState;
      assert CanTake(cfg, c, s);
    }
  }

  /** The steps that r searches of n items take at most. */
  function SearchSteps(r: nat, n: nat): nat {
    if r == 0 then 0 else 4 * n + 4 + SearchSteps(r - 1, n)
  }

  lemma {:induction false} SearchStepsGrow(r: nat, n: nat, r': nat, n': nat)
    requires r <= r' && n <= n'
    ensures SearchSteps(r, n) <= SearchSteps(r', n')
  {
    if r < r' { SearchStepsGrow(r, n, r' - 1, n'); } else if r > 0 { SearchStepsGrow(r - 1, n, r' - 1, n'); }
  }

  function CyclesLeft(cfg: Config, p: Progress): nat {
    if p.pruneCycles < cfg.pruneIterations then cfg.pruneIterations - p.pruneCycles else 0
  }

  /** The steps left from inside a search. */
  function InsideSteps(cfg: Config, p: Progress): nat {
    3 + 4 * Unskipped(p.window.lo, p.window.hi, p.window.skipped) +
    (if CyclesLeft(cfg, p) == 0 then 0 else SearchSteps(CyclesLeft(cfg, p) - 1, |p.items|))
  }

  /** An upper bound on the steps a process takes if it does not crash. */
  function StepsLeft(cfg: Config, c: Process): nat {
    match c.at
    case Exited => 0
    case Ended => 1
    case Top => 1 + (if Pruning(cfg, c.progress) then InsideSteps(cfg, c.progress) else 1)
    case Inside => InsideSteps(cfg, c.progress)
    case Saved => InsideSteps(cfg, c.progress) - 1
    case HalfSwitched => InsideSteps(cfg, c.progress) - 2
    case Ready => InsideSteps(cfg, c.progress) - 3
  }

  lemma {:induction false} UnskippedAtMost(lo: nat, hi: nat, skipped: seq<nat>)
    requires lo <= hi
    ensures Unskipped(lo, hi, skipped) <= hi - lo
    decreases hi - lo
  {
    if lo < hi { UnskippedAtMost(lo + 1, hi, skipped); }
  }

  lemma {:induction false} SomeUnskipped(lo: nat, hi: nat, skipped: seq<nat>, i: nat)
    requires lo <= i < hi && i !in skipped
    ensures Unskipped(lo, hi, skipped) > 0
    decreases hi - lo
  {
    if lo < i { SomeUnskipped(lo + 1, hi, skipped, i); }
  }

  /** Leaving a search for the next one uses up more than the whole of the next. */
  lemma NextSearchIsShorter(cfg: Config, p: Progress)
    requires WellFormed(p) && Pruning(cfg, p) && AfterSearch(cfg, p).goesOn
    ensures var q := AfterSearch(cfg, p).progress;
            1 + (if Pruning(cfg, q) then InsideSteps(cfg, q) else 1) < InsideSteps(cfg, p)
  {
    hide SearchSteps;
    var q := AfterSearch(cfg, p).progress;
    if Pruning(cfg, q) {
      var r, n := CyclesLeft(cfg, q), |q.items|;
      UnskippedAtMost(q.window.lo, q.window.hi, q.window.skipped);
      SearchStepsGrow(r, n, CyclesLeft(cfg, p) - 1, |p.items|);
      SearchStepsOne(r, n);
    }
  }

  lemma SearchStepsOne(r: nat, n: nat)
    requires r > 0
    ensures SearchSteps(r, n) == 4 * n + 4 + SearchSteps(r - 1, n)
  {
  }

  /** Every step of a process brings it nearer to its end. */
  lemma TakeUsesSteps(cfg: Config, w: World, universe: set<string>, goal: Progress, s: Step)
    requires WorldOk(cfg, w, universe, goal) && w.process.Some? && CanTake(cfg, w.process.value, s)
    ensures var v := Taken(cfg, w, w.process.value, s);
            v.process.Some? && StepsLeft(cfg, v.process.value) < StepsLeft(cfg, w.process.value)
  {
    hide SearchSteps, Unskipped, FromInside, SearchAll, ItemsOk, Remembered, AfterSearch, SearchLoop;
    var c := w.process.value;
    match s
    case Save => SearchingLeaves(cfg, c.progress);
    case SwitchGood => SearchingLeaves(cfg, c.progress);
    case SwitchBad => SearchingLeaves(cfg, c.progress);
    case RunTest =>
      SearchingLeaves(cfg, c.progress);
      RoundNarrows(c.progress.window, Verdict(cfg, BadIn(w.env)));
    case Leave =>
      if AfterSearch(cfg, c.progress).goesOn { NextSearchIsShorter(cfg, c.progress); }
    case _ =>
  }

  lemma SearchingLeaves(cfg: Config, p: Progress)
    requires Searching(cfg, p) && WellFormed(p)
    ensures InsideSteps(cfg, p) >= 7
  {
    var i :| p.window.lo <= i < p.window.hi && i !in p.window.skipped;
    SomeUnskipped(p.window.lo, p.window.hi, p.window.skipped, i);
  }

  /** Between crashes, or after the last one, a run takes no more steps than its searches can: it ends. */
  lemma {:induction false} StepsBetweenCrashes(cfg: Config, items: seq<string>, env: Environment, run: seq<Event>, m: nat)
    requires Legal(cfg) && items != [] && Distinct(items) && env.Keys == SetOf(items) && After(cfg, Start(items, env), run).Some?
    requires m <= |run| && (forall k | m <= k < |run| :: run[k].Take?) && After(cfg, Start(items, env), run[..m]).Some?
    requires After(cfg, Start(items, env), run[..m]).value.process.Some?
    ensures var w, v := After(cfg, Start(items, env), run[..m]).value, After(cfg, Start(items, env), run).value;
            v.process.Some? && (|run| - m) + StepsLeft(cfg, v.process.value) <= StepsLeft(cfg, w.process.value)
  {
    hide StepsLeft, WorldOk;
    if m == |run| {
      assert run[..m] == run;
    } else {
      var n := |run| - 1;
      assert run[..n][..m] == run[..m];
      StepsBetweenCrashes(cfg, items, env, run[..n], m);
      RunOk(cfg, items, env, run[..n]);
      TakeUsesSteps(cfg, After(cfg, Start(items, env), run[..n]).value, SetOf(items), SearchAll(cfg, Begin(items)), run[n].step);
    }
  }

  lemma NoLongerThan(rest: seq<string>, knownGood: set<string>, items: seq<string>)
    requires ItemsOk(rest, knownGood, SetOf(items)) && Distinct(items)
    ensures |rest| <= |items|
  {
    hide SetOf;
    DistinctSize(items);
    DistinctSize(rest);
    SubsetSize(SetOf(rest), SetOf(items));
  }

  lemma SearchIsBounded(cfg: Config, p: Progress, items: seq<string>)
    requires WellFormed(p) && Pruning(cfg, p) && ItemsOk(p.items, p.knownGood, SetOf(items)) && Distinct(items)
    ensures InsideSteps(cfg, p) <= 3 + SearchSteps(cfg.pruneIterations, |items|)
  {
    hide SearchSteps, Unskipped, ItemsOk, SetOf, Distinct;
    NoLongerThan(p.items, p.knownGood, items);
    UnskippedAtMost(p.window.lo, p.window.hi, p.window.skipped);
    SearchStepsGrow(CyclesLeft(cfg, p) - 1, |p.items|, cfg.pruneIterations - 1, |items|);
    SearchStepsOne(cfg.pruneIterations, |items|);
  }

  /** Wherever a process stands, in any run, the steps it has left are bounded by the original list and the cycle limit. */
  lemma StepsAreBounded(cfg: Config, w: World, items: seq<string>, goal: Progress)
    requires WorldOk(cfg, w, SetOf(items), goal) && w.process.Some? && Distinct(items)
    ensures StepsLeft(cfg, w.process.value) <= 4 + SearchSteps(if cfg.pruneIterations > 0 then cfg.pruneIterations else 0, |items|)
  {
    hide FromInside, SearchAll, Remembered, SearchSteps, InsideSteps, ItemsOk, SetOf, Distinct, BadIn, NextBad;
    var c := w.process.value;
    if !c.at.Ended? && !c.at.Exited? && Pruning(cfg, c.progress) {
      SearchIsBounded(cfg, c.progress, items);
    }
  }
}
