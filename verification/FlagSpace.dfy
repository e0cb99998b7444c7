/** Ranges of flags, and that the flag sets over given specifications with values in a given range are finitely many. */
module FlagSpace {
  import opened Tasks
  import opened Sets

  /** A boolean flag has value 0, and a numeric one a value of its own range. */
  predicate InRanges(fs: FlagSet) {
    forall spec | spec in fs :: if spec.Boolean? then fs[spec] == 0 else spec.start <= fs[spec] < spec.end
  }

  /** Ranges that are not empty, as the program asserts when it draws a value. */
  predicate ValidRanges(specs: seq<Spec>) {
    forall spec | spec in specs && spec.Numeric? :: spec.start < spec.end
  }

  /** How far up a flag is that is on. */
  function Part(spec: Spec, v: int): int {
    if spec.Boolean? then 1 else v - spec.start + 1
  }

  /** How far up a flag is: 0 is off. */
  function Position(fs: FlagSet, spec: Spec): int {
    if spec in fs then Part(spec, fs[spec]) else 0
  }

  /** A flag set is made of one flag and the others. */
  lemma Restored(fs: FlagSet, n: FlagSet, spec: Spec)
    requires n - {spec} == fs - {spec}
    ensures n == if spec in n then fs[spec := n[spec]] else fs - {spec}
  {
    assert forall other | other in n && other != spec :: other in n - {spec} && other in fs - {spec} && (n - {spec})[other] == n[other];
    assert forall other | other in fs && other != spec :: other in fs - {spec} && other in n - {spec} && (fs - {spec})[other] == fs[other];
  }

  // ---------- a finite space ----------

  ghost predicate Bounded(fs: FlagSet, keys: set<Spec>, lo: int, hi: int) {
    fs.Keys <= keys && forall spec | spec in fs :: lo <= fs[spec] <= hi
  }

  function With(fs: FlagSet, spec: Spec, v: int): FlagSet {
    fs[spec := v]
  }

  /** All flag sets over the given keys with values in the given range. */
  ghost function Universe(keys: set<Spec>, lo: int, hi: int): set<FlagSet> {
    if keys == {} then {map[]} else
    var k :| k in keys;
    var rest := Universe(keys - {k}, lo, hi);
    rest + set fs, v | fs in rest && lo <= v <= hi :: With(fs, k, v)
  }

  lemma {:induction false} InUniverse(fs: FlagSet, keys: set<Spec>, lo: int, hi: int)
    requires Bounded(fs, keys, lo, hi)
    ensures fs in Universe(keys, lo, hi)
    decreases keys
  {
    if keys == {} {
      assert fs == map[];
    } else {
      var k :| k in keys && Universe(keys, lo, hi) == (
        var rest := Universe(keys - {k}, lo, hi);
        rest + set gs, v | gs in rest && lo <= v <= hi :: With(gs, k, v));
      InUniverse(fs - {k}, keys - {k}, lo, hi);
      if k in fs {
        assert fs == With(fs - {k}, k, fs[k]);
      } else {
        assert fs == fs - {k};
      }
    }
  }

  lemma {:induction false} ValueBounds(fs: FlagSet) returns (lo: int, hi: int)
    ensures lo <= 0 <= hi && forall spec | spec in fs :: lo <= fs[spec] <= hi
    decreases |fs|
  {
    if fs == map[] {
      return 0, 0;
    }
    var spec :| spec in fs;
    assert spec in fs.Keys;
    lo, hi := ValueBounds(fs - {spec});
    assert forall other | other in fs :: other == spec || (other in fs - {spec} && fs[other] == (fs - {spec})[other]);
    lo, hi := if fs[spec] < lo then fs[spec] else lo, if fs[spec] > hi then fs[spec] else hi;
  }

  lemma {:induction false} SeedBounds(seeds: set<FlagSet>) returns (keys: set<Spec>, lo: int, hi: int)
    ensures lo <= 0 <= hi && forall fs | fs in seeds :: Bounded(fs, keys, lo, hi)
  {
    if seeds == {} {
      return {}, 0, 0;
    }
    var fs :| fs in seeds;
    keys, lo, hi := SeedBounds(seeds - {fs});
    var l, h := ValueBounds(fs);
    assert forall gs | gs in seeds :: gs == fs || gs in seeds - {fs};
    keys, lo, hi := keys + fs.Keys, if l < lo then l else lo, if h > hi then h else hi;
  }

  ghost predicate AllBounded(among: set<FlagSet>, keys: set<Spec>, lo: int, hi: int) {
    forall f | f in among :: Bounded(f, keys, lo, hi)
  }

  lemma BoundedSize(among: set<FlagSet>, keys: set<Spec>, lo: int, hi: int)
    requires AllBounded(among, keys, lo, hi)
    ensures |among| <= |Universe(keys, lo, hi)|
  {
    forall f | f in among ensures f in Universe(keys, lo, hi) { InUniverse(f, keys, lo, hi); }
    SubsetSize(among, Universe(keys, lo, hi));
  }
}
