/** The bisection run itself: the object that drives the searcher, the scripts and the state file. */
module BinarySearchState {
  import opened Tasks
  import opened BinarySearcher
  import opened Bisection

  function IndexOf(items: seq<string>, item: string): (i: nat)
    requires item in items
    ensures i < |items| && items[i] == item && forall j | 0 <= j < i :: items[j] != item
  {
    if items[0] == item then 0 else 1 + IndexOf(items[1..], item)
  }

  /** The items a search works on: distinct ones, and apart from those already known to be good. */
  ghost predicate ItemsOk(items: seq<string>, knownGood: set<string>, universe: set<string>) {
    Distinct(items) && SetOf(items) !! knownGood && SetOf(items) + knownGood == universe
  }

  /** The split asked for covers every original item once. */
  lemma SplitCovers(items: seq<string>, knownGood: set<string>, universe: set<string>, i: nat)
    requires ItemsOk(items, knownGood, universe) && i <= |items|
    ensures var bad, good := SetOf(items[..i]), SetOf(items[i..]) + knownGood; good + bad == universe && good !! bad
  {
    assert items == items[..i] + items[i..];
    forall x | x in SetOf(items[..i]) ensures x !in SetOf(items[i..]) {
      var j :| 0 <= j < i && items[j] == x;
      assert forall k | i <= k < |items| :: items[k] != x;
    }
  }

  /** Pruning moves the found item to the end and the items before it to the good side. */
  lemma PruneKeepsItems(items: seq<string>, knownGood: set<string>, universe: set<string>, i: nat)
    requires ItemsOk(items, knownGood, universe) && i < |items|
    ensures ItemsOk(items[i + 1..] + [items[i]], knownGood + SetOf(items[..i]), universe)
  {
    var rest := items[i + 1..] + [items[i]];
    SplitCovers(items, knownGood, universe, i);
    assert forall x :: x in rest <==> x in items[i..];
    assert SetOf(rest) == SetOf(items[i..]);
  }

  class BinarySearchState {
    const cfg: Config
    ghost const universe: set<string>
    var allItems: seq<string>
    var knownGood: set<string>
    var foundItems: set<string>
    var currentlyGood: set<string>
    var currentlyBad: set<string>
    var searchCycles: nat
    var pruneCycles: nat
    var resumed: bool
    var report: Option<set<string>>
    var binarySearch: BinarySearcher
    // the world outside: the environment that the scripts switch, and the state file
    var environment: Environment
    var stateFile: Option<Progress>

    ghost predicate Valid()
      reads this, binarySearch
    {
      && Legal(cfg) && WellFormed(View()) && binarySearch.sortedList == allItems
      && ItemsOk(allItems, knownGood, universe) && environment.Keys == universe
      && Remembered(environment, currentlyGood, currentlyBad)
    }

    function View(): Progress
      reads this, binarySearch
    {
      Progress(allItems, knownGood, foundItems, binarySearch.View(), searchCycles, pruneCycles, report)
    }

    constructor (cfg: Config, items: seq<string>, environment: Environment)
      requires Legal(cfg) && items != [] && Distinct(items) && environment.Keys == SetOf(items)
      ensures Valid() && fresh(binarySearch) && View() == Begin(items) && !resumed && stateFile.None?
      ensures this.cfg == cfg && universe == SetOf(items) && this.environment == environment
      ensures currentlyGood == {} && currentlyBad == {}
    {
      this.cfg, universe, this.environment := cfg, SetOf(items), environment;
      allItems, knownGood, foundItems, currentlyGood, currentlyBad := items, {}, {}, {}, {};
      searchCycles, pruneCycles, resumed, report, stateFile := 0, 0, false, None, None;
      binarySearch := new BinarySearcher();
      new;
      binarySearch.SetSortedList(items);
    }

    /** Loading a saved state: nothing is remembered about the environment, whatever it is by now. */
    constructor LoadState(cfg: Config, saved: Progress, ghost universe: set<string>, environment: Environment)
      requires Legal(cfg) && WellFormed(saved) && ItemsOk(saved.items, saved.knownGood, universe) && environment.Keys == universe
      ensures Valid() && fresh(binarySearch) && View() == saved && resumed
      ensures this.cfg == cfg && this.universe == universe && this.environment == environment
      ensures currentlyGood == {} && currentlyBad == {}
    {
      this.cfg, this.universe, this.environment := cfg, universe, environment;
      allItems, knownGood, foundItems, currentlyGood, currentlyBad := saved.items, saved.knownGood, saved.found, {}, {};
      searchCycles, pruneCycles, resumed, report, stateFile := saved.searchCycles, saved.pruneCycles, true, saved.report, Some(saved);
      binarySearch := new BinarySearcher();
      new;
      binarySearch.SetSortedList(saved.items);
      binarySearch.lo, binarySearch.hi, binarySearch.current := saved.window.lo, saved.window.hi, saved.window.current;
      binarySearch.skippedIndices := saved.window.skipped;
    }

    /** However little is sent to the script, all the given items end up good and no other item moves. */
    method SwitchToGood(items: set<string>)
      requires Valid() && items <= universe
      modifies this`environment, this`currentlyGood, this`currentlyBad
      ensures Valid() && environment == Switched(old(environment), items, false)
      ensures currentlyGood == old(currentlyGood) + items && currentlyBad == old(currentlyBad) - items
    {
      hide Legal, ItemsOk, WellFormed, Remembered, Switched;
      IncrementalIsFull(environment, currentlyGood, currentlyBad, items);
      SwitchNothing(environment);
      var list := if cfg.incremental then items - currentlyGood else items;
      if list == {} {
        assert forall x | x in items :: x in currentlyGood || x in list;
        assert items - currentlyGood == {} && currentlyGood + items == currentlyGood && currentlyBad - {} == currentlyBad;
        return;
      }
      assert currentlyGood + list == currentlyGood + items;
      environment := Switched(environment, list, false);
      currentlyGood := currentlyGood + list;
      currentlyBad := currentlyBad - list;
    }

    method SwitchToBad(items: set<string>)
      requires Valid() && items <= universe
      modifies this`environment, this`currentlyGood, this`currentlyBad
      ensures Valid() && environment == Switched(old(environment), items, true)
      ensures currentlyBad == old(currentlyBad) + items && currentlyGood == old(currentlyGood) - items
    {
      hide Legal, ItemsOk, WellFormed, Remembered, Switched;
      IncrementalIsFull(environment, currentlyGood, currentlyBad, items);
      SwitchNothing(environment);
      var list := if cfg.incremental then items - currentlyBad else items;
      if list == {} {
        assert forall x | x in items :: x in currentlyBad || x in list;
        assert items - currentlyBad == {} && currentlyBad + items == currentlyBad && currentlyGood - {} == currentlyGood;
        return;
      }
      assert currentlyBad + list == currentlyBad + items;
      environment := Switched(environment, list, true);
      currentlyBad := currentlyBad + list;
      currentlyGood := currentlyGood - list;
    }

    method GetNextItems() returns (bad: set<string>, good: set<string>)
      requires Valid() && Open(binarySearch.View())
      modifies binarySearch`current
      ensures View() == old(View()).(window := old(View()).window.(current := NextIndex(old(View()).window)))
      ensures bad == NextBad(old(View())) && good + bad == universe && good !! bad
      ensures Valid()
    {
      ghost var w := binarySearch.View();
      var border := binarySearch.GetNext();
      var index := IndexOf(allItems, border);
      assert index == NextIndex(w);
      bad := SetOf(allItems[..index + 1]);
      good := SetOf(allItems[index + 1..]) + knownGood;
      SplitCovers(allItems, knownGood, universe, index + 1);
    }

    /** One iteration: the environment is exactly what was asked for when the test runs. */
    method Iterate() returns (terminated: bool)
      requires Valid() && Open(binarySearch.View())
      modifies this`environment, this`currentlyGood, this`currentlyBad, this`searchCycles, this`stateFile, binarySearch
      ensures Valid() && View() == TestStep(cfg, old(View())) && terminated == Complete(View().window)
      ensures BadIn(environment) == NextBad(old(View())) && stateFile == Some(old(View()))
    {
      ghost var p := View();
      stateFile := Some(View());
      searchCycles := searchCycles + 1;
      var bad, good := GetNextItems();
      SplitIsExact(environment, good, bad);
      SwitchToGood(good);
      SwitchToBad(bad);
      assert BadIn(environment) == bad == NextBad(p);
      var status := cfg.setup(BadIn(environment));
      if status == 0 {
        status := cfg.test(BadIn(environment));
      }
      assert status == Verdict(cfg, NextBad(p)) && IsStatus(status);
      TestStepOk(cfg, p);
      terminated := binarySearch.SetStatus(status);
    }

    method DoBinarySearch() returns (terminated: bool)
      requires Valid() && (|allItems| > 1 && !Complete(binarySearch.View()))
      modifies this`environment, this`currentlyGood, this`currentlyBad, this`searchCycles, this`stateFile, this`resumed, binarySearch
      ensures Valid() && !resumed && terminated == Complete(View().window)
      ensures View() == SearchLoop(cfg, if old(resumed) then old(View()) else old(View()).(searchCycles := 0))
    {
      if !resumed {
        searchCycles := 0;
      } else {
        resumed := false;
      }
      ghost var p := View();
      terminated := false;
      while searchCycles < cfg.iterations && !terminated
        invariant Valid() && !resumed && terminated == Complete(View().window)
        invariant SearchLoop(cfg, View()) == SearchLoop(cfg, p)
        decreases Unskipped(binarySearch.lo, binarySearch.hi, binarySearch.skippedIndices)
      {
        TestStepOk(cfg, View());
        terminated := Iterate();
      }
    }

    method PopulateItemsUsingList(items: seq<string>)
      requires items != []
      modifies this`allItems, this`binarySearch
      ensures allItems == items && fresh(binarySearch) && binarySearch.sortedList == items
      ensures binarySearch.View() == NewWindow(|items|)
    {
      allItems := items;
      binarySearch := new BinarySearcher();
      binarySearch.SetSortedList(items);
    }

    /** What follows a search: note what was found, and go on with a shorter list or stop. */
    method Prune(terminated: bool) returns (goesOn: bool)
      requires Valid() && terminated == Complete(View().window)
      modifies this`pruneCycles, this`report, this`foundItems, this`knownGood, this`allItems, this`binarySearch
      ensures var t := AfterSearch(cfg, old(View())); View() == t.progress && goesOn == t.goesOn
      ensures binarySearch == old(binarySearch) || fresh(binarySearch)
      ensures goesOn ==> Valid() && binarySearch.View() == NewWindow(|allItems|) && |allItems| > 1
    {
      ghost var p := View();
      pruneCycles := pruneCycles + 1;
      if !terminated {
        return false;
      }
      var pruneIndex := binarySearch.current;
      if pruneIndex == |allItems| - 1 {
        report := Some({allItems[pruneIndex]});
        return false;
      }
      if allItems[pruneIndex] in foundItems {
        report := Some(foundItems);
        return false;
      }
      var newItems := allItems[..pruneIndex] + allItems[pruneIndex + 1..] + [allItems[pruneIndex]];
      foundItems := foundItems + {newItems[|newItems| - 1]};
      assert newItems[..pruneIndex] == p.items[..pruneIndex];
      PruneKeepsItems(allItems, knownGood, universe, pruneIndex);
      knownGood := knownGood + SetOf(newItems[..pruneIndex]);
      newItems := newItems[pruneIndex..];
      if !cfg.prune {
        return false;
      }
      assert newItems == p.items[pruneIndex + 1..] + [p.items[pruneIndex]];
      PopulateItemsUsingList(newItems);
      return true;
    }

    ghost function Goal(): Progress
      requires Valid()
      reads this, binarySearch
    {
      if Pruning(cfg, View()) && resumed then FromInside(cfg, View()) else SearchAll(cfg, View())
    }

    /** The whole search: whatever is sent to the scripts on the way, it works out exactly what the
        specification does, from the start of the run or from the state it was loaded with. */
    method DoSearch()
      requires Valid() && (|allItems| > 1 ==> !Complete(binarySearch.View()))
      modifies this, binarySearch
      ensures View() == old(if Pruning(cfg, View()) && resumed then FromInside(cfg, View()) else SearchAll(cfg, View()))
    {
      hide Legal, ItemsOk, Remembered, AfterSearch, SearchLoop;
      ghost var goal := Goal();
      var goesOn := true;
      while goesOn && |allItems| > 1 && pruneCycles < cfg.pruneIterations
        invariant binarySearch == old(binarySearch) || fresh(binarySearch)
        invariant goesOn ==> Valid() && (|allItems| > 1 ==> !Complete(binarySearch.View())) && Goal() == goal
        invariant !goesOn ==> View() == goal
        decreases goesOn, cfg.pruneIterations - pruneCycles
      {
        ghost var before := if resumed then View() else View().(searchCycles := 0);
        assert goal == FromInside(cfg, before);
        var terminated := DoBinarySearch();
        goesOn := Prune(terminated);
        assert goesOn ==> NewWindow(|allItems|).lo !in NewWindow(|allItems|).skipped;
      }
    }
  }
}
