/** A generation of tasks and its count of pending results. */
module Generations {
  import opened Tasks

  /** Tasks are equal when their flags are, so the executed set is keyed by flags. */
  datatype Gen = Gen(pool: map<FlagSet, Task>, pending: int)

  function NewGen(flags: set<FlagSet>): Gen {
    Gen(map f | f in flags :: Fresh(f), |flags|)
  }

  function Unreturned(pool: map<FlagSet, Task>): set<FlagSet> {
    set f | f in pool && pool[f].exe.None?
  }

  /** Each task is its placeholder or has come back measured, and the count says how many are out. */
  ghost predicate Accounted(c: Commands, g: Gen) {
    && (forall f | f in g.pool :: g.pool[f] == Fresh(f) || g.pool[f] == TestedTask(c, f))
    && g.pending == |Unreturned(g.pool)|
  }

  function Updated(g: Gen, t: Task): Gen {
    Gen(g.pool[t.flags := t], g.pending - 1)
  }

  lemma NewGenAccounted(c: Commands, flags: set<FlagSet>)
    ensures Accounted(c, NewGen(flags)) && NewGen(flags).pool.Keys == flags && Unreturned(NewGen(flags).pool) == flags
  {
    assert Unreturned(NewGen(flags).pool) == flags;
  }

  lemma UpdateShrinks(pool: map<FlagSet, Task>, t: Task)
    requires t.flags in pool && pool[t.flags].exe.None? && t.exe.Some?
    ensures Unreturned(pool[t.flags := t]) == Unreturned(pool) - {t.flags}
    ensures |Unreturned(pool[t.flags := t])| == |Unreturned(pool)| - 1
  {
    assert Unreturned(pool[t.flags := t]) == Unreturned(pool) - {t.flags};
    assert t.flags in Unreturned(pool);
  }

  /** A measured task that was out comes in: one fewer is out, and the count follows. */
  lemma UpdateAccounted(c: Commands, g: Gen, f: FlagSet)
    requires Accounted(c, g) && f in g.pool && g.pool[f].exe.None?
    ensures var g' := Updated(g, TestedTask(c, f));
            && Accounted(c, g') && g'.pool.Keys == g.pool.Keys && g'.pending >= 0
            && Unreturned(g'.pool) == Unreturned(g.pool) - {f}
  {
    TestedTaskCost(c, f);
    UpdateShrinks(g.pool, TestedTask(c, f));
  }

  class Generation {
    var exeSet: map<FlagSet, Task>
    var pending: int

    ghost predicate Valid()
      reads this
    {
      pending == |Unreturned(exeSet)|
    }

    function View(): Gen
      reads this
    {
      Gen(exeSet, pending)
    }

    constructor (flags: set<FlagSet>)
      ensures Valid() && View() == NewGen(flags)
    {
      exeSet := map f | f in flags :: Fresh(f);
      pending := |flags|;
      new;
      assert Unreturned(exeSet) == flags;
    }

    /** True exactly when every task of the generation has come back. */
    method Done() returns (done: bool)
      requires Valid()
      ensures done <==> forall f | f in exeSet :: exeSet[f].exe.Some?
    {
      done := pending == 0;
      assert done <==> Unreturned(exeSet) == {};
      assert forall f | f in exeSet :: exeSet[f].exe.None? <==> f in Unreturned(exeSet);
    }

    /** The caller never passes the same task twice; then the count never drops below zero. */
    method UpdateTask(t: Task) returns (mine: bool)
      requires Valid() && t.exe.Some?
      requires t.flags in exeSet ==> exeSet[t.flags].exe.None?
      modifies this
      ensures Valid() && pending >= 0 && mine == (t.flags in old(exeSet))
      ensures View() == if mine then Updated(old(View()), t) else old(View())
    {
      if t.flags !in exeSet {
        return false;
      }
      UpdateShrinks(exeSet, t);
      exeSet := exeSet - {t.flags};
      exeSet := exeSet[t.flags := t];
      assert exeSet == old(exeSet)[t.flags := t];
      pending := pending - 1;
      return true;
    }
  }
}
