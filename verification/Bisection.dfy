/** The bisection tool: searching the item list, switching items, and pruning. */
module Bisection {
  import opened Tasks
  import opened BinarySearcher

  /** The options of a run, with the test scripts as functions of the set of items switched to bad. */
  datatype Config = Config(prune: bool, incremental: bool, iterations: int, pruneIterations: int,
                           setup: set<string> -> int, test: set<string> -> int)

  /** What a test reports: the test script only runs if the setup succeeds. */
  function Verdict(cfg: Config, bad: set<string>): int {
    if cfg.setup(bad) != 0 then cfg.setup(bad) else cfg.test(bad)
  }

  /** The searcher asserts that a status is 0, 1 or 125. */
  ghost predicate Legal(cfg: Config) {
    forall bad :: IsStatus(Verdict(cfg, bad))
  }

  /** What a search has worked out; report is the last list of bad items it printed. */
  datatype Progress = Progress(items: seq<string>, knownGood: set<string>, found: set<string>, window: Window,
                               searchCycles: nat, pruneCycles: nat, report: Option<set<string>>)

  function SetOf(s: seq<string>): set<string> {
    set x | x in s
  }

  predicate Distinct(s: seq<string>) {
    forall i, j | 0 <= i < j < |s| :: s[i] != s[j]
  }

  lemma {:induction false} DistinctSize(s: seq<string>)
    requires Distinct(s)
    ensures |SetOf(s)| == |s|
  {
    if s != [] {
      assert SetOf(s) == SetOf(s[1..]) + {s[0]};
      assert s[0] !in SetOf(s[1..]);
      DistinctSize(s[1..]);
    }
  }

  predicate WellFormed(p: Progress) {
    p.items != [] && p.window.lo <= p.window.hi < |p.items| && p.window.current < |p.items|
  }

  function NewWindow(n: nat): Window
    requires n > 0
  {
    Window(0, n - 1, 0, [])
  }

  function Begin(items: seq<string>): Progress
    requires items != []
  {
    Progress(items, {}, {}, NewWindow(|items|), 0, 0, None)
  }

  /** The items asked to be bad in the next test. */
  function NextBad(p: Progress): set<string>
    requires WellFormed(p) && Open(p.window)
  {
    SetOf(p.items[..NextIndex(p.window) + 1])
  }

  function TestStep(cfg: Config, p: Progress): Progress
    requires WellFormed(p) && Open(p.window)
  {
    p.(window := Tested(p.window, Verdict(cfg, NextBad(p))), searchCycles := p.searchCycles + 1)
  }

  lemma TestStepOk(cfg: Config, p: Progress)
    requires WellFormed(p) && Open(p.window) && Legal(cfg)
    ensures WellFormed(TestStep(cfg, p))
    ensures var w, w' := p.window, TestStep(cfg, p).window; Unskipped(w'.lo, w'.hi, w'.skipped) < Unskipped(w.lo, w.hi, w.skipped)
  {
    RoundNarrows(p.window, Verdict(cfg, NextBad(p)));
  }

  predicate Searching(cfg: Config, p: Progress) {
    p.searchCycles < cfg.iterations && !Complete(p.window)
  }

  /** One search of the current list, as far as the iteration limit allows. */
  ghost function SearchLoop(cfg: Config, p: Progress): (q: Progress)
    requires WellFormed(p) && Legal(cfg)
    ensures WellFormed(q) && q == p.(window := q.window, searchCycles := q.searchCycles) && !Searching(cfg, q)
    decreases Unskipped(p.window.lo, p.window.hi, p.window.skipped)
  {
    if Searching(cfg, p) then TestStepOk(cfg, p); SearchLoop(cfg, TestStep(cfg, p)) else p
  }

  datatype Turn = Turn(progress: Progress, goesOn: bool)

  /** What is done with the outcome of a search. */
  function AfterSearch(cfg: Config, p: Progress): (t: Turn)
    requires WellFormed(p)
    ensures WellFormed(t.progress) && t.progress.pruneCycles == p.pruneCycles + 1
  {
    var q, i := p.(pruneCycles := p.pruneCycles + 1), p.window.current;
    if !Complete(p.window) then Turn(q, false)
    else if i == |p.items| - 1 then Turn(q.(report := Some({p.items[i]})), false)
    else if p.items[i] in p.found then Turn(q.(report := Some(p.found)), false)
    else
      var r := q.(found := p.found + {p.items[i]}, knownGood := p.knownGood + SetOf(p.items[..i]));
      if !cfg.prune then Turn(r, false)
      else Turn(r.(items := p.items[i + 1..] + [p.items[i]], window := NewWindow(|p.items| - i)), true)
  }

  predicate Pruning(cfg: Config, p: Progress) {
    |p.items| > 1 && p.pruneCycles < cfg.pruneIterations
  }

  /** The rest of a run from inside a search, and from the top of the prune loop. */
  ghost function FromInside(cfg: Config, p: Progress): Progress
    requires WellFormed(p) && Legal(cfg) && p.pruneCycles < cfg.pruneIterations
    decreases cfg.pruneIterations - p.pruneCycles, 0
  {
    var t := AfterSearch(cfg, SearchLoop(cfg, p));
    if t.goesOn then SearchAll(cfg, t.progress) else t.progress
  }

  ghost function SearchAll(cfg: Config, p: Progress): Progress
    requires WellFormed(p) && Legal(cfg)
    decreases cfg.pruneIterations - p.pruneCycles, 1
  {
    if Pruning(cfg, p) then FromInside(cfg, p.(searchCycles := 0)) else p
  }

  // ---------- the environment ----------

  /** Which items are switched to bad; the scripts act on this. */
  type Environment = map<string, bool>

  function Switched(env: Environment, items: set<string>, bad: bool): Environment {
    map x | x in env :: if x in items then bad else env[x]
  }

  function BadIn(env: Environment): set<string> {
    set x | x in env && env[x]
  }

  /** The remembered sides are true of the environment, as far as they go. */
  ghost predicate Remembered(env: Environment, good: set<string>, bad: set<string>) {
    (forall x | x in good :: x in env && !env[x]) && (forall x | x in bad :: x in env && env[x])
  }

  /** Sending only the items not known to be on that side already has the same effect as sending all. */
  lemma IncrementalIsFull(env: Environment, good: set<string>, bad: set<string>, items: set<string>)
    requires Remembered(env, good, bad) && items <= env.Keys
    ensures Switched(env, items - good, false) == Switched(env, items, false)
    ensures Switched(env, items - bad, true) == Switched(env, items, true)
    ensures Remembered(Switched(env, items, false), good + items, bad - (items - good)) && bad - (items - good) == bad - items
    ensures Remembered(Switched(env, items, true), good - (items - bad), bad + items) && good - (items - bad) == good - items
  {
  }

  lemma SwitchNothing(env: Environment)
    ensures forall bad :: Switched(env, {}, bad) == env && Switched(env, {}, bad).Keys == env.Keys
    ensures forall items, bad :: Switched(env, items, bad).Keys == env.Keys
  {
  }

  /** After both switches the environment is exactly the requested split. */
  lemma SplitIsExact(env: Environment, good: set<string>, bad: set<string>)
    requires good + bad == env.Keys && good !! bad
    ensures BadIn(Switched(Switched(env, good, false), bad, true)) == bad
  {
  }
}
