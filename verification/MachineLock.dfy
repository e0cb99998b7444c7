/** The shared or exclusive lock on one machine, its liveness check file, and the processes that use it.

    The section under the file lock is atomic, so each operation is one step.  A liveness lock belongs to a
    process and a file, not to a path: deleting the check file leaves the locks on the deleted file alone. */
module MachineLock {
  import opened Tasks

  type Pid = nat
  type Inode = nat

  datatype Description = Description(owner: string, exclusive: bool, counter: int, time: int, reason: string, auto: bool)

  const Unused := Description("", false, 0, 0, "", false)

  predicate IsLocked(d: Description) {
    d.counter != 0 || d.exclusive
  }

  /** What is on disk and in the kernel, and each process's own list of open check files.

      held gives the process that has the liveness lock of a file. */
  datatype System = System(desc: Description, check: Option<Inode>, next: Inode,
                           held: map<Inode, Pid>, ops: map<Pid, seq<Inode>>, dead: set<Pid>)

  const Start := System(Unused, None, 0, map[], map[], {})

  function OpsOf(ops: map<Pid, seq<Inode>>, p: Pid): seq<Inode> {
    if p in ops then ops[p] else []
  }

  datatype Reply = Answer(ok: bool) | IOError

  datatype Action =
    | Look(p: Pid)
    | Lock(p: Pid, user: string, auto: bool, exclusive: bool, reason: string, now: int)
    | Unlock(p: Pid, user: string, auto: bool, exclusive: bool)
    | Die(p: Pid)

  // ---------- steps ----------

  /** Opening the check file creates it where it is missing. */
  function Opened(s: System): (r: System)
    ensures r.check.Some? && r == s.(check := r.check, next := r.next)
    ensures if s.check.Some? then r == s else r.check.value == s.next < r.next
  {
    if s.check.None? then s.(check := Some(s.next), next := s.next + 1) else s
  }

  predicate Lockable(held: map<Inode, Pid>, i: Inode, p: Pid) {
    i in held ==> held[i] == p
  }

  /** Whether reading the description throws it away: an automatic exclusive lock that nobody seems to hold. */
  predicate Clears(s: System, p: Pid) {
    && s.desc.exclusive && s.desc.auto
    && OpsOf(s.ops, p) == []
    && Lockable(Opened(s).held, Opened(s).check.value, p)
  }

  function Entered(s: System, p: Pid): System {
    if Clears(s, p) then Opened(s).(desc := Unused, held := s.held - {Opened(s).check.value}) else s
  }

  function Locked(s: System, p: Pid, user: string, auto: bool, reason: string, now: int): System
    requires s.check.Some?
  {
    s.(held := s.held[s.check.value := p], ops := s.ops[p := OpsOf(s.ops, p) + [s.check.value]],
       desc := Description(user, true, s.desc.counter, now, reason, auto))
  }

  /** The locks left once p gives up those on the given files. */
  function Released(held: map<Inode, Pid>, p: Pid, files: seq<Inode>): map<Inode, Pid> {
    map i | i in held && !(held[i] == p && i in files) :: held[i]
  }

  function Gone(held: map<Inode, Pid>, p: Pid): map<Inode, Pid> {
    map i | i in held && held[i] != p :: held[i]
  }

  function Freed(s: System, p: Pid, auto: bool): System {
    var free := s.desc.(exclusive := false, reason := "", owner := "");
    if auto then s.(desc := free, held := Released(s.held, p, OpsOf(s.ops, p)), ops := s.ops - {p}, check := None)
    else s.(desc := free)
  }

  function Answered(s: System, a: Action): Reply {
    match a
    case Look(p) => Answer(IsLocked(Entered(s, p).desc))
    case Die(_) => Answer(true)
    case Lock(p, _, _, exclusive, _, _) =>
      var e := Entered(s, p);
      if e.desc.exclusive || (exclusive && e.desc.counter != 0) then Answer(false)
      else if exclusive && !Lockable(Opened(e).held, Opened(e).check.value, p) then IOError
      else Answer(true)
    case Unlock(p, user, auto, exclusive) =>
      var d := Entered(s, p).desc;
      if !IsLocked(d) then Answer(true)
      else Answer(d.exclusive == exclusive && (exclusive ==> d.owner == user && d.auto == auto))
  }

  function Step(s: System, a: Action): System {
    match a
    case Look(p) => Entered(s, p)
    case Die(p) => s.(held := Gone(s.held, p), ops := s.ops - {p}, dead := s.dead + {p})
    case Lock(p, user, auto, exclusive, reason, now) =>
      var e := Entered(s, p);
      if Answered(s, a) == Answer(false) then e
      else if !exclusive then e.(desc := e.desc.(counter := e.desc.counter + 1))
      else if Answered(s, a) == IOError then Opened(e)
      else Locked(Opened(e), p, user, auto, reason, now)
    case Unlock(p, _, auto, exclusive) =>
      var e := Entered(s, p);
      if !Answered(s, a).ok || !IsLocked(e.desc) then e
      else if exclusive then Freed(e, p, auto)
      else e.(desc := e.desc.(counter := e.desc.counter - 1))
  }

  predicate Enabled(s: System, a: Action) {
    a.p !in s.dead
  }

  // ---------- what every step keeps ----------

  /** The process that took the exclusive lock last. */
  function Taker(s: System, a: Action, taker: Pid): Pid {
    if a.Lock? && a.exclusive && Answered(s, a) == Answer(true) then a.p else taker
  }

  /** Files are numbered in order, and only living processes hold locks, on files they keep open. */
  predicate FilesInv(s: System) {
    && (s.check.Some? ==> s.check.value < s.next)
    && (forall i | i in s.held :: i < s.next && s.held[i] !in s.dead && i in OpsOf(s.ops, s.held[i]))
  }

  predicate LockInv(s: System, taker: Pid) {
    && s.desc.counter >= 0
    && (s.desc.exclusive ==>
          && s.desc.counter == 0
          && s.check.Some?
          && (s.check.value in s.held <==> taker !in s.dead)
          && Lockable(s.held, s.check.value, taker))
  }

  predicate Inv(s: System, taker: Pid) {
    FilesInv(s) && LockInv(s, taker)
  }

  /** Reading the description throws a lock away exactly when it is automatic and its taker has died,
      unless the reader still has a check file of its own open. */
  lemma ClearsIffTakerDied(s: System, taker: Pid, p: Pid)
    requires Inv(s, taker) && p !in s.dead
    ensures Clears(s, p) <==> s.desc.exclusive && s.desc.auto && taker in s.dead && OpsOf(s.ops, p) == []
  {
  }

  lemma EnteredKeepsInv(s: System, taker: Pid, p: Pid)
    requires Inv(s, taker) && p !in s.dead
    ensures Inv(Entered(s, p), taker)
  {
  }

  lemma LockKeepsInv(s: System, taker: Pid, a: Action)
    requires Inv(s, taker) && Enabled(s, a) && a.Lock?
    ensures Inv(Step(s, a), Taker(s, a, taker))
  {
    EnteredKeepsInv(s, taker, a.p);
  }

  lemma UnlockKeepsInv(s: System, taker: Pid, a: Action)
    requires Inv(s, taker) && Enabled(s, a) && a.Unlock?
    ensures Inv(Step(s, a), Taker(s, a, taker))
  {
    EnteredKeepsInv(s, taker, a.p);
  }

  lemma StepKeepsInv(s: System, taker: Pid, a: Action)
    requires Inv(s, taker) && Enabled(s, a)
    ensures Inv(Step(s, a), Taker(s, a, taker))
  {
    match a
    case Look(p) => EnteredKeepsInv(s, taker, p);
    case Lock(_, _, _, _, _, _) => LockKeepsInv(s, taker, a);
    case Unlock(_, _, _, _) => UnlockKeepsInv(s, taker, a);
    case Die(_) =>
  }

  /** With the exclusive lock taken, a request of any kind is granted exactly when the taker of an automatic
      lock has died and the requester has no check file open. */
  lemma GrantedIffTakerDied(s: System, taker: Pid, a: Action)
    requires Inv(s, taker) && Enabled(s, a) && a.Lock? && s.desc.exclusive
    ensures Answered(s, a) == if s.desc.auto && taker in s.dead && OpsOf(s.ops, a.p) == [] then Answer(true) else Answer(false)
  {
    ClearsIffTakerDied(s, taker, a.p);
  }

  /** The step is a request of the owner to give up an exclusive lock taken with the same mode. */
  predicate Returns(a: Action, user: string, auto: bool) {
    a.Unlock? && a.exclusive && a.user == user && a.auto == auto
  }

  /** An exclusive lock stays as it is, with its taker, except where its owner returns it or somebody finds its taker dead. */
  lemma ExclusiveStaysIff(s: System, taker: Pid, a: Action)
    requires Inv(s, taker) && Enabled(s, a) && s.desc.exclusive
    ensures Step(s, a).desc == s.desc && Taker(s, a, taker) == taker <==>
            !Returns(a, s.desc.owner, s.desc.auto) && (a.Die? || !(s.desc.auto && taker in s.dead && OpsOf(s.ops, a.p) == []))
  {
    ClearsIffTakerDied(s, taker, a.p);
  }

  // ---------- runs ----------

  function After(run: seq<Action>): System {
    if run == [] then Start else Step(After(run[..|run| - 1]), run[|run| - 1])
  }

  function LastTaker(run: seq<Action>): Pid {
    if run == [] then 0 else Taker(After(run[..|run| - 1]), run[|run| - 1], LastTaker(run[..|run| - 1]))
  }

  /** Only living processes act. */
  predicate Legal(run: seq<Action>) {
    run != [] ==> Legal(run[..|run| - 1]) && Enabled(After(run[..|run| - 1]), run[|run| - 1])
  }

  function ReplyAt(run: seq<Action>, k: nat): Reply
    requires k < |run|
  {
    Answered(After(run[..k]), run[k])
  }

  /** In every run there is never an exclusive lock beside a shared one, nor a negative counter, and while its taker
      lives an exclusive lock has its liveness lock. */
  lemma {:induction false} RunKeepsInv(run: seq<Action>)
    requires Legal(run)
    ensures Inv(After(run), LastTaker(run))
  {
    if run != [] {
      var front := run[..|run| - 1];
      RunKeepsInv(front);
      StepKeepsInv(After(front), LastTaker(front), run[|run| - 1]);
    }
  }

  lemma {:induction false} PrefixLegal(run: seq<Action>, k: nat)
    requires Legal(run) && k <= |run|
    ensures Legal(run[..k])
    ensures k < |run| ==> Enabled(After(run[..k]), run[k])
    decreases |run| - k
  {
    if k == |run| {
      assert run[..k] == run;
    } else {
      PrefixLegal(run, k + 1);
      assert run[..k + 1][..k] == run[..k];
    }
  }

  /** Step k of the run ends the lock granted at step i: its owner returns it, or its process dies and it was automatic. */
  predicate Ends(run: seq<Action>, i: nat, k: nat)
    requires i < |run| && k < |run| && run[i].Lock?
  {
    Returns(run[k], run[i].user, run[i].auto) || (run[i].auto && run[k] == Die(run[i].p))
  }

  predicate TakenAt(run: seq<Action>, i: nat) {
    i < |run| && run[i].Lock? && run[i].exclusive && ReplyAt(run, i) == Answer(true)
  }

  predicate HeldBy(s: System, taker: Pid, a: Action)
    requires a.Lock?
  {
    && s.desc.exclusive && s.desc.owner == a.user && s.desc.auto == a.auto
    && taker == a.p && (a.auto ==> a.p !in s.dead)
  }

  lemma OneStepHeld(s: System, taker: Pid, a: Action, grant: Action)
    requires Inv(s, taker) && Enabled(s, a) && grant.Lock? && HeldBy(s, taker, grant)
    requires !Returns(a, grant.user, grant.auto) && !(grant.auto && a == Die(grant.p))
    ensures HeldBy(Step(s, a), Taker(s, a, taker), grant)
  {
    ExclusiveStaysIff(s, taker, a);
  }

  lemma {:induction false} HeldUntil(run: seq<Action>, i: nat, j: nat)
    requires Legal(run) && TakenAt(run, i) && i < j <= |run|
    requires forall k | i < k < j :: !Ends(run, i, k)
    ensures HeldBy(After(run[..j]), LastTaker(run[..j]), run[i])
  {
    assert run[..j][..j - 1] == run[..j - 1];
    PrefixLegal(run, j - 1);
    if j > i + 1 {
      HeldUntil(run, i, j - 1);
      assert !Ends(run, i, j - 1);
      RunKeepsInv(run[..j - 1]);
      OneStepHeld(After(run[..j - 1]), LastTaker(run[..j - 1]), run[j - 1], run[i]);
    }
  }

  /** Mutual exclusion over whole runs: between an exclusive grant and the next grant of any kind, the owner has
      returned the lock or, for an automatic one, its process has died. */
  lemma NothingGrantedWhileHeld(run: seq<Action>, i: nat, j: nat)
    requires Legal(run) && TakenAt(run, i) && i < j < |run| && run[j].Lock?
    requires forall k | i < k < j :: !Ends(run, i, k)
    ensures ReplyAt(run, j) == Answer(false)
  {
    HeldUntil(run, i, j);
    PrefixLegal(run, j);
    RunKeepsInv(run[..j]);
    GrantedIffTakerDied(After(run[..j]), LastTaker(run[..j]), run[j]);
  }

  // ---------- what the history of a run says, without the state ----------

  /** Step j ends the lock granted at step i: its owner returns it in the same mode, or it is automatic and its process dead,
      and a process that has no check file open reads the description. */
  ghost predicate Undone(run: seq<Action>, i: nat, j: nat)
    requires i < |run| && j < |run| && run[i].Lock?
    decreases j, 2
  {
    || Returns(run[j], run[i].user, run[i].auto)
    || (run[i].auto && Die(run[i].p) in run[..j] && !run[j].Die? && !Opens(run[..j], run[j].p))
  }

  /** The exclusive lock granted at step i has not been ended since. */
  ghost predicate Stands(run: seq<Action>, i: nat)
    decreases |run|, 0
  {
    TakenAt(run, i) && forall j | i < j < |run| :: !Undone(run, i, j)
  }

  /** Such a lock stands against p, who would not find it abandoned. */
  ghost predicate Against(run: seq<Action>, p: Pid)
    decreases |run|, 1
  {
    exists i: nat | i < |run| :: Stands(run, i) && !(run[i].auto && Die(run[i].p) in run && !Opens(run, p))
  }

  /** Step j is a return that removes the check file: an automatic exclusive lock is given up. */
  ghost predicate Removes(run: seq<Action>, j: nat)
    requires j < |run|
    decreases j, 2
  {
    run[j].Unlock? && run[j].exclusive && run[j].auto && ReplyAt(run, j) == Answer(true) && Against(run[..j], run[j].p)
  }

  /** Process p has a check file open: it was granted an exclusive lock, and has neither died nor returned an automatic one since. */
  ghost predicate Opens(run: seq<Action>, p: Pid)
    decreases |run|, 0
  {
    exists i: nat | i < |run| :: OpenSince(run, p, i)
  }

  ghost predicate OpenSince(run: seq<Action>, p: Pid, i: nat)
    requires i < |run|
    decreases |run|, 0, 0
  {
    TakenAt(run, i) && run[i].p == p && forall j | i < j < |run| :: run[j] != Die(p) && !(run[j].p == p && Removes(run, j))
  }

  lemma PrefixAgrees(run: seq<Action>, a: Action, i: nat)
    requires i < |run|
    ensures TakenAt(run + [a], i) <==> TakenAt(run, i)
    ensures Removes(run + [a], i) <==> Removes(run, i)
    ensures forall j: nat | j < |run| && run[j].Lock? :: Undone(run + [a], j, i) <==> Undone(run, j, i)
  {
    hide After, Answered, Against, Opens;
    assert (run + [a])[..i] == run[..i] && (run + [a])[i] == run[i];
  }

  lemma LastAgrees(run: seq<Action>, a: Action)
    ensures var s := After(run);
            && (TakenAt(run + [a], |run|) <==> Takes(s, a))
            && (Removes(run + [a], |run|) <==> a.Unlock? && a.exclusive && a.auto && Answered(s, a) == Answer(true) && Against(run, a.p))
            && After(run + [a]) == Step(s, a) && LastTaker(run + [a]) == Taker(s, a, LastTaker(run))
            && (Legal(run + [a]) <==> Legal(run) && Enabled(s, a))
  {
    hide Answered, Step, Against;
    assert (run + [a])[..|run|] == run && (run + [a])[|run|] == a;
  }

  lemma OpensStep(run: seq<Action>, a: Action, p: Pid)
    ensures var took, removed := TakenAt(run + [a], |run|), Removes(run + [a], |run|);
            Opens(run + [a], p) <==> (took && a.p == p) || (Opens(run, p) && a != Die(p) && !(a.p == p && removed))
  {
    hide TakenAt, Removes;
    var more := run + [a];
    forall i: nat | i < |run|
      ensures OpenSince(more, p, i) <==> OpenSince(run, p, i) && a != Die(p) && !(a.p == p && Removes(more, |run|))
    {
      OpenSinceStep(run, a, p, i);
    }
    assert OpenSince(more, p, |run|) <==> TakenAt(more, |run|) && a.p == p;
  }

  lemma OpenSinceStep(run: seq<Action>, a: Action, p: Pid, i: nat)
    requires i < |run|
    ensures var more := run + [a];
            OpenSince(more, p, i) <==> OpenSince(run, p, i) && a != Die(p) && !(a.p == p && Removes(more, |run|))
  {
    hide TakenAt, Removes;
    var more := run + [a];
    PrefixAgrees(run, a, i);
    forall j | i < j < |run| ensures more[j] == run[j] && (Removes(more, j) <==> Removes(run, j)) { PrefixAgrees(run, a, j); }
    assert more[|run|] == a && more[i] == run[i];
    if OpenSince(more, p, i) {
      assert more[|run|] != Die(p) && !(more[|run|].p == p && Removes(more, |run|));
      forall j | i < j < |run| ensures run[j] != Die(p) && !(run[j].p == p && Removes(run, j)) {
        assert more[j] != Die(p) && !(more[j].p == p && Removes(more, j));
      }
    }
  }

  lemma StandsStep(run: seq<Action>, a: Action, i: nat)
    requires i < |run|
    ensures Stands(run + [a], i) <==> Stands(run, i) && !Undone(run + [a], i, |run|)
  {
    hide TakenAt, Undone;
    PrefixAgrees(run, a, i);
    assert TakenAt(run, i) ==> run[i].Lock? && (run + [a])[i].Lock? by { IsLock(run, i); IsLock(run + [a], i); }
    forall j: nat | j < |run| && run[i].Lock? ensures Undone(run + [a], i, j) <==> Undone(run, i, j) { PrefixAgrees(run, a, j); }
  }

  lemma IsLock(run: seq<Action>, i: nat)
    ensures TakenAt(run, i) ==> i < |run| && run[i].Lock?
  {
  }

  /** What a request writes down when it is granted the exclusive lock. */
  function Written(a: Action): Description
    requires a.Lock?
  {
    Description(a.user, true, 0, a.now, a.reason, a.auto)
  }

  predicate Takes(s: System, a: Action) {
    a.Lock? && a.exclusive && Answered(s, a) == Answer(true)
  }

  /** Whether a step ends the exclusive lock that there is. */
  predicate Undoes(s: System, taker: Pid, a: Action) {
    || Returns(a, s.desc.owner, s.desc.auto)
    || (s.desc.auto && taker in s.dead && !a.Die? && OpsOf(s.ops, a.p) == [])
  }

  lemma ExclusiveStep(s: System, taker: Pid, a: Action)
    requires Inv(s, taker) && Enabled(s, a)
    ensures var r := Step(s, a);
            && (Takes(s, a) ==> r.desc == Written(a) && Taker(s, a, taker) == a.p)
            && (!Takes(s, a) ==> (r.desc.exclusive <==> s.desc.exclusive && !Undoes(s, taker, a)))
            && (s.desc.exclusive && !Undoes(s, taker, a) ==> r.desc == s.desc && Taker(s, a, taker) == taker && !Takes(s, a))
  {
    ClearsIffTakerDied(s, taker, a.p);
  }

  lemma OpsStep(s: System, taker: Pid, a: Action, p: Pid)
    requires Inv(s, taker) && Enabled(s, a)
    ensures var removed := a.Unlock? && a.exclusive && a.auto && Answered(s, a) == Answer(true) && s.desc.exclusive && !Clears(s, a.p);
            OpsOf(Step(s, a).ops, p) != [] <==>
              (Takes(s, a) && a.p == p) || (OpsOf(s.ops, p) != [] && a != Die(p) && !(a.p == p && removed))
    ensures p in Step(s, a).dead <==> p in s.dead || a == Die(p)
  {
    ClearsIffTakerDied(s, taker, a.p);
  }

  /** The state as the history tells it. */
  ghost predicate Tells(run: seq<Action>, s: System, taker: Pid) {
    && (forall p :: p in s.dead <==> Die(p) in run)
    && (forall p :: OpsOf(s.ops, p) != [] <==> Opens(run, p))
    && (forall i: nat | i < |run| && Stands(run, i) :: run[i].Lock? && s.desc == Written(run[i]) && taker == run[i].p)
    && (s.desc.exclusive ==> exists i: nat :: i < |run| && Stands(run, i))
  }

  lemma AgainstIff(run: seq<Action>, s: System, taker: Pid, p: Pid)
    requires Inv(s, taker) && p !in s.dead && Tells(run, s, taker)
    ensures Against(run, p) <==> s.desc.exclusive && !Clears(s, p)
  {
    hide Stands, Opens, Clears;
    ClearsIffTakerDied(s, taker, p);
  }

  lemma ToldUndone(run: seq<Action>, a: Action, s: System, taker: Pid, i: nat)
    requires Tells(run, s, taker) && i < |run| && Stands(run, i)
    ensures run[i].Lock? && (Undone(run + [a], i, |run|) <==> Undoes(s, taker, a))
  {
    hide Stands, Opens;
    assert (run + [a])[..|run|] == run && (run + [a])[|run|] == a && (run + [a])[i] == run[i];
  }

  lemma ToldStands(run: seq<Action>, a: Action)
    requires Legal(run) && Enabled(After(run), a) && Inv(After(run), LastTaker(run)) && Tells(run, After(run), LastTaker(run))
    ensures var more := run + [a]; var s', taker' := After(more), LastTaker(more);
            && (forall i: nat | i < |more| && Stands(more, i) :: more[i].Lock? && s'.desc == Written(more[i]) && taker' == more[i].p)
            && (s'.desc.exclusive ==> exists i: nat :: i < |more| && Stands(more, i))
  {
    var more, s, taker := run + [a], After(run), LastTaker(run);
    LastAgrees(run, a);
    ExclusiveStep(s, taker, a);
    assert Stands(more, |run|) <==> Takes(s, a) by { hide Undone; }
    hide Stands, Undone, Undoes, Step, Takes, Taker, After, LastTaker, Inv, Legal;
    forall i: nat | i < |more| && Stands(more, i)
      ensures more[i].Lock? && After(more).desc == Written(more[i]) && LastTaker(more) == more[i].p
    {
      if i < |run| {
        StandsIsLock(more, i);
        StandsStep(run, a, i);
        ToldUndone(run, a, s, taker, i);
        assert s.desc == Written(run[i]);
      } else {
        StandsIsLock(more, i);
      }
    }
    if After(more).desc.exclusive && !Stands(more, |run|) {
      var i: nat :| i < |run| && Stands(run, i);
      StandsIsLock(run, i);
      ToldUndone(run, a, s, taker, i);
      StandsStep(run, a, i);
    }
  }

  lemma StandsIsLock(run: seq<Action>, i: nat)
    ensures Stands(run, i) ==> i < |run| && run[i].Lock?
  {
  }

  /** In every run the history tells who has died, who has a check file open, and which exclusive lock there is: the
      description is exactly what the request wrote whose lock has not been ended, and there is none if all have been. */
  lemma {:induction false} HistoryTells(run: seq<Action>)
    requires Legal(run)
    ensures Inv(After(run), LastTaker(run)) && Tells(run, After(run), LastTaker(run))
  {
    RunKeepsInv(run);
    if run != [] {
      var front, a := run[..|run| - 1], run[|run| - 1];
      assert run == front + [a];
      HistoryTells(front);
      ToldStands(front, a);
      LastAgrees(front, a);
      hide Stands, Opens, Step, After, LastTaker, Inv, TakenAt, Removes, Legal, Takes;
      AgainstIff(front, After(front), LastTaker(front), a.p);
      forall p ensures p in After(run).dead <==> Die(p) in run { OpsStep(After(front), LastTaker(front), a, p); }
      forall p ensures OpsOf(After(run).ops, p) != [] <==> Opens(run, p) {
        OpsStep(After(front), LastTaker(front), a, p);
        OpensStep(front, a, p);
      }
    }
  }

  // ---------- the shared counter ----------

  /** How many shared requests of one kind were answered with success. */
  function Granted(run: seq<Action>): nat {
    if run == [] then 0 else
      var k := |run| - 1;
      Granted(run[..k]) + if run[k].Lock? && !run[k].exclusive && Answered(After(run[..k]), run[k]) == Answer(true) then 1 else 0
  }

  function Returned(run: seq<Action>): nat {
    if run == [] then 0 else
      var k := |run| - 1;
      Returned(run[..k]) + if run[k].Unlock? && !run[k].exclusive && Answered(After(run[..k]), run[k]) == Answer(true) then 1 else 0
  }

  predicate Balanced(run: seq<Action>) {
    forall k | 0 <= k <= |run| :: Returned(run[..k]) <= Granted(run[..k])
  }

  lemma BalancedSplit(run: seq<Action>)
    requires run != []
    ensures Balanced(run) <==> Balanced(run[..|run| - 1]) && Returned(run) <= Granted(run)
  {
    hide Returned, Granted;
    var front := run[..|run| - 1];
    assert run[..|run|] == run;
    if Balanced(run) {
      forall k | 0 <= k <= |front| ensures Returned(front[..k]) <= Granted(front[..k]) { assert run[..k] == front[..k]; }
    }
    if Balanced(front) && Returned(run) <= Granted(run) {
      forall k | 0 <= k <= |run| ensures Returned(run[..k]) <= Granted(run[..k]) {
        if k < |run| { assert run[..k] == front[..k]; }
      }
    }
  }

  /** The counter is the number of shared grants not yet returned exactly when no moment saw more returns than
      grants; a return of an unlocked machine is answered with success too, and changes nothing. */
  lemma {:induction false} CounterIsBalance(run: seq<Action>)
    requires Legal(run)
    ensures After(run).desc.counter >= Granted(run) - Returned(run)
    ensures After(run).desc.counter == Granted(run) - Returned(run) <==> Balanced(run)
  {
    if run == [] {
      assert forall k | 0 <= k <= |run| :: run[..k] == [];
    } else {
      var front, a := run[..|run| - 1], run[|run| - 1];
      CounterIsBalance(front);
      BalancedSplit(run);
      RunKeepsInv(front);
      CounterStep(After(front), LastTaker(front), a);
    }
  }

  function Surplus(run: seq<Action>): int {
    Granted(run) - Returned(run)
  }

  /** Since some moment more shared requests have been granted than returned with success. */
  ghost predicate SharedOut(run: seq<Action>) {
    exists j | 0 <= j <= |run| :: Surplus(run) > Surplus(run[..j])
  }

  /** In every run, balanced or not, the counter is the largest surplus of shared grants over returns since any moment; so
      it is not zero exactly when a shared grant is outstanding. */
  lemma {:induction false} CounterIsSurplus(run: seq<Action>)
    requires Legal(run)
    ensures forall j | 0 <= j <= |run| :: Surplus(run) - Surplus(run[..j]) <= After(run).desc.counter
    ensures exists j :: 0 <= j <= |run| && Surplus(run) - Surplus(run[..j]) == After(run).desc.counter
    ensures After(run).desc.counter != 0 <==> SharedOut(run)
  {
    hide Inv;
    assert run[..|run|] == run;
    if run == [] {
      assert forall j | 0 <= j <= |run| :: run[..j] == [];
      assert Surplus(run) - Surplus(run[..0]) == After(run).desc.counter;
    } else {
      var front, a := run[..|run| - 1], run[|run| - 1];
      CounterIsSurplus(front);
      RunKeepsInv(front);
      CounterStep(After(front), LastTaker(front), a);
      var moved := Surplus(run) - Surplus(front);
      assert After(run) == Step(After(front), a);
      hide Surplus, After, Step, Answered, Legal;
      forall j | 0 <= j < |run| ensures run[..j] == front[..j] { }
      var j :| 0 <= j <= |front| && Surplus(front) - Surplus(front[..j]) == After(front).desc.counter;
      assert run[..j] == front[..j];
      if After(run).desc.counter == After(front).desc.counter + moved {
        assert Surplus(run) - Surplus(run[..j]) == After(run).desc.counter;
      } else {
        assert Surplus(run) - Surplus(run[..|run|]) == After(run).desc.counter;
      }
    }
  }

  /** Runs need not be balanced: the return of a machine that nobody has locked is answered with success. */
  lemma ReturnWithoutGrant(user: string)
    ensures var run := [Unlock(1, user, false, false)];
            Legal(run) && ReplyAt(run, 0) == Answer(true) && !Balanced(run) && After(run).desc.counter != Granted(run) - Returned(run)
  {
    var run := [Unlock(1, user, false, false)];
    assert run[..0] == [] && run[..1] == run;
    assert Returned(run) == 1 && Granted(run) == 0;
  }

  /** How one step moves the counter. */
  lemma CounterStep(s: System, taker: Pid, a: Action)
    requires Inv(s, taker) && Enabled(s, a)
    ensures Step(s, a).desc.counter - s.desc.counter ==
            if a.Lock? && !a.exclusive && Answered(s, a) == Answer(true) then 1
            else if a.Unlock? && !a.exclusive && Answered(s, a) == Answer(true) && s.desc.counter > 0 then -1
            else 0
  {
    ClearsIffTakerDied(s, taker, a.p);
  }

  // ---------- when taking the lock raises an error ----------

  predicate ManualGrant(run: seq<Action>, p: Pid) {
    exists i: nat | i < |run| :: TakenAt(run, i) && !run[i].auto && run[i].p == p
  }

  lemma ManualGrantGrows(run: seq<Action>, a: Action, p: Pid)
    requires ManualGrant(run, p)
    ensures ManualGrant(run + [a], p)
  {
    hide After, Answered;
    var i: nat :| i < |run| && TakenAt(run, i) && !run[i].auto && run[i].p == p;
    assert (run + [a])[i] == run[i] && (run + [a])[..i] == run[..i];
    assert TakenAt(run + [a], i);
  }

  /** A liveness lock that is not there for an automatic lock belongs to a process that took a manual one. */
  predicate LeftOver(run: seq<Action>, s: System) {
    s.check.Some? && s.check.value in s.held && !(s.desc.exclusive && s.desc.auto) ==> ManualGrant(run, s.held[s.check.value])
  }

  /** Where a step leaves such a liveness lock, it was there before or the step has just taken a manual lock. */
  lemma LeftOverStep(s: System, taker: Pid, a: Action)
    requires Inv(s, taker) && Enabled(s, a)
    ensures var r := Step(s, a);
            r.check.Some? && r.check.value in r.held && !(r.desc.exclusive && r.desc.auto) ==>
              || (a.Lock? && a.exclusive && !a.auto && r.held[r.check.value] == a.p && Answered(s, a) == Answer(true))
              || (s.check == r.check && s.check.value in s.held && s.held[s.check.value] == r.held[r.check.value]
                  && !(s.desc.exclusive && s.desc.auto))
  {
    ClearsIffTakerDied(s, taker, a.p);
  }

  lemma {:induction false} LeftOverHolds(run: seq<Action>)
    requires Legal(run)
    ensures LeftOver(run, After(run))
  {
    if run != [] {
      var front, a := run[..|run| - 1], run[|run| - 1];
      assert run == front + [a];
      LeftOverHolds(front);
      RunKeepsInv(front);
      LeftOverStep(After(front), LastTaker(front), a);
      var s, r := After(front), After(run);
      if s.check.Some? && s.check.value in s.held && ManualGrant(front, s.held[s.check.value]) {
        ManualGrantGrows(front, a, s.held[s.check.value]);
      }
      assert TakenAt(run, |front|) <==> a.Lock? && a.exclusive && Answered(s, a) == Answer(true);
    }
  }

  /** Taking an exclusive lock raises an error only where another living process took a manual one before. */
  lemma ErrorNeedsManualLock(run: seq<Action>, k: nat)
    requires Legal(run) && k < |run| && ReplyAt(run, k) == IOError
    ensures exists i: nat :: TakenAt(run, i) && i < k && !run[i].auto && run[i].p != run[k].p && run[i].p !in After(run[..k]).dead
  {
    hide After, LastTaker, Legal;
    var front := run[..k];
    PrefixLegal(run, k);
    RunKeepsInv(front);
    LeftOverHolds(front);
    ErrorStep(After(front), LastTaker(front), run[k]);
    ManualGrantEarlier(run, k, After(front).held[After(front).check.value]);
  }

  lemma ErrorStep(s: System, taker: Pid, a: Action)
    requires Inv(s, taker) && Enabled(s, a) && Answered(s, a) == IOError
    ensures s.check.Some? && s.check.value in s.held && s.held[s.check.value] != a.p && s.held[s.check.value] !in s.dead
    ensures !s.desc.exclusive
  {
    ClearsIffTakerDied(s, taker, a.p);
  }

  lemma ManualGrantEarlier(run: seq<Action>, k: nat, p: Pid)
    requires k < |run| && ManualGrant(run[..k], p)
    ensures exists i: nat :: TakenAt(run, i) && i < k && !run[i].auto && run[i].p == p
  {
    hide After, Answered;
    var front := run[..k];
    var i: nat :| i < |front| && TakenAt(front, i) && !front[i].auto && front[i].p == p;
    assert run[i] == front[i] && run[..i] == front[..i];
    assert TakenAt(run, i);
  }

  /** The check file has been there since step i granted an exclusive lock. */
  ghost predicate Untouched(run: seq<Action>, i: nat) {
    TakenAt(run, i) && forall j | i < j < |run| :: !Removes(run, j)
  }

  /** One step, and the holder of the liveness lock of the check file. */
  lemma HolderStep(s: System, taker: Pid, a: Action)
    requires Inv(s, taker) && Enabled(s, a)
    ensures var r := Step(s, a);
            var took := a.Lock? && a.exclusive && Answered(s, a) == Answer(true);
            var removed := a.Unlock? && a.exclusive && a.auto && Answered(s, a) == Answer(true) && s.desc.exclusive && !Clears(s, a.p);
            && (took ==> Holds(r, a.p))
            && (removed ==> r.check.None?)
            && (!took && !removed ==> forall p :: Holds(r, p) <==> Holds(s, p) && p !in r.dead)
            && (took ==> forall p :: Holds(s, p) ==> p == a.p)
            && s.dead <= r.dead && (took ==> r.dead == s.dead)
  {
    ClearsIffTakerDied(s, taker, a.p);
  }

  predicate Holds(s: System, p: Pid) {
    s.check.Some? && s.check.value in s.held && s.held[s.check.value] == p
  }

  lemma UntouchedGrows(run: seq<Action>, a: Action, i: nat)
    requires i < |run|
    ensures Untouched(run + [a], i) <==> Untouched(run, i) && !Removes(run + [a], |run|)
  {
    hide TakenAt, Removes;
    PrefixAgrees(run, a, i);
    forall j | 0 <= j < |run| ensures Removes(run + [a], j) <==> Removes(run, j) { PrefixAgrees(run, a, j); }
  }

  ghost predicate Since(run: seq<Action>, p: Pid) {
    exists i: nat | i < |run| :: Untouched(run, i) && run[i].p == p
  }

  lemma SinceStep(run: seq<Action>, a: Action, p: Pid)
    ensures Since(run + [a], p) <==>
            (Since(run, p) && !Removes(run + [a], |run|)) || (TakenAt(run + [a], |run|) && a.p == p)
  {
    hide TakenAt, Removes;
    var more := run + [a];
    assert Untouched(more, |run|) <==> TakenAt(more, |run|);
    if i: nat :| i < |run| && Untouched(run, i) && run[i].p == p {
      UntouchedGrows(run, a, i);
      assert more[i].p == p;
    }
    if i: nat :| i < |more| && Untouched(more, i) && more[i].p == p {
      if i < |run| {
        UntouchedGrows(run, a, i);
        assert run[i].p == p;
      }
    }
  }

  /** Who has the liveness lock of the check file: exactly the living process that was granted an exclusive lock
      with no removal of the file since. */
  lemma {:induction false} HolderIff(run: seq<Action>, p: Pid)
    requires Legal(run)
    ensures Holds(After(run), p) <==> p !in After(run).dead && Since(run, p)
  {
    if run != [] {
      var front, a := run[..|run| - 1], run[|run| - 1];
      assert run == front + [a];
      LastAgrees(front, a);
      hide TakenAt, Removes, After, Answered, Step, Clears, LastTaker, Holds, Since, Inv, Tells, Against;
      HolderIff(front, p);
      HistoryTells(front);
      AgainstIff(front, After(front), LastTaker(front), a.p);
      HolderStep(After(front), LastTaker(front), a);
      SinceStep(front, a, p);
    }
  }

  // ---------- the answers, from the history ----------

  /** One step, and the answer to a request. */
  lemma AnswerStep(s: System, taker: Pid, a: Action)
    requires Inv(s, taker) && Enabled(s, a) && a.Lock?
    ensures var against, other := s.desc.exclusive && !Clears(s, a.p), exists q :: Holds(s, q) && q != a.p;
            && (Answered(s, a) == Answer(true) <==> !against && (a.exclusive ==> s.desc.counter == 0 && !other))
            && (Answered(s, a) == IOError <==> !against && a.exclusive && s.desc.counter == 0 && other)
  {
    ClearsIffTakerDied(s, taker, a.p);
    if s.check.Some? && s.check.value in s.held { assert Holds(s, s.held[s.check.value]); }
  }

  /** Another living process was granted an exclusive lock, and no automatic one has been returned since. */
  ghost predicate OtherSince(run: seq<Action>, p: Pid) {
    exists q :: q != p && Die(q) !in run && Since(run, q)
  }

  lemma OtherHolds(run: seq<Action>, p: Pid)
    requires Legal(run)
    ensures OtherSince(run, p) <==> exists q :: Holds(After(run), q) && q != p
  {
    hide After, Legal, LastTaker, Holds, Since, Inv, Stands, Opens;
    HistoryTells(run);
    forall q ensures Holds(After(run), q) <==> Die(q) !in run && Since(run, q) { HolderIff(run, q); }
  }

  /** The answer to every request in every run, from the steps before it and their answers alone.  A shared request is
      granted exactly when no exclusive lock stands against the process; an exclusive one also needs that no shared grant is
      outstanding, and that no other living process was granted an exclusive lock after which no automatic one was returned. */
  lemma GrantedIff(run: seq<Action>, k: nat)
    requires Legal(run) && k < |run| && run[k].Lock?
    ensures var front, a := run[..k], run[k];
            ReplyAt(run, k) == Answer(true) <==>
            !Against(front, a.p) && (a.exclusive ==> !SharedOut(front) && !OtherSince(front, a.p))
  {
    hide After, Answered, Legal, LastTaker, Holds, OtherSince, Enabled, Against, SharedOut, Clears, Inv, Tells;
    var front := run[..k];
    PrefixLegal(run, k);
    HistoryTells(front);
    NotDead(front, run[k]);
    AgainstIff(front, After(front), LastTaker(front), run[k].p);
    AnswerStep(After(front), LastTaker(front), run[k]);
    CounterIsSurplus(front);
    OtherHolds(front, run[k].p);
  }

  lemma NotDead(run: seq<Action>, a: Action)
    requires Enabled(After(run), a)
    ensures a.p !in After(run).dead
  {
  }

  /** When a request raises an error, in every run: exactly when it is exclusive and would be granted, but for another
      living process that was granted an exclusive lock which no return of an automatic one has followed. */
  lemma ErrorIff(run: seq<Action>, k: nat)
    requires Legal(run) && k < |run| && run[k].Lock?
    ensures var front, a := run[..k], run[k];
            ReplyAt(run, k) == IOError <==> !Against(front, a.p) && a.exclusive && !SharedOut(front) && OtherSince(front, a.p)
  {
    hide After, Answered, Legal, LastTaker, Holds, OtherSince, Enabled, Against, SharedOut, Clears, Inv, Tells;
    var front := run[..k];
    PrefixLegal(run, k);
    HistoryTells(front);
    NotDead(front, run[k]);
    AgainstIff(front, After(front), LastTaker(front), run[k].p);
    AnswerStep(After(front), LastTaker(front), run[k]);
    CounterIsSurplus(front);
    OtherHolds(front, run[k].p);
  }

  /** One step, and the answer to a return. */
  lemma ReturnStep(s: System, taker: Pid, a: Action)
    requires Inv(s, taker) && Enabled(s, a) && a.Unlock?
    ensures Answered(s, a) == Answer(true) <==>
            if s.desc.exclusive && !Clears(s, a.p) then Returns(a, s.desc.owner, s.desc.auto) else !a.exclusive || s.desc.counter == 0
  {
    ClearsIffTakerDied(s, taker, a.p);
  }

  /** The answer to every return in every run: against an exclusive lock it is a success exactly when it is the owner's, in
      the mode it was taken; otherwise when it is a shared one, or there is no shared lock to give up either. */
  lemma ReturnedIff(run: seq<Action>, k: nat)
    requires Legal(run) && k < |run| && run[k].Unlock?
    ensures var front, a := run[..k], run[k];
            ReplyAt(run, k) == Answer(true) <==>
            if Against(front, a.p) then exists i: nat :: i < k && Stands(front, i) && Returns(a, run[i].user, run[i].auto)
            else !a.exclusive || !SharedOut(front)
  {
    hide After, Answered, Legal, LastTaker, Enabled, SharedOut, Clears, Inv, Opens, Stands;
    var front, a := run[..k], run[k];
    PrefixLegal(run, k);
    HistoryTells(front);
    NotDead(front, a);
    AgainstIff(front, After(front), LastTaker(front), a.p);
    ReturnStep(After(front), LastTaker(front), a);
    CounterIsSurplus(front);
    forall i: nat | i < k && Stands(front, i)
      ensures Returns(a, front[i].user, front[i].auto) <==> Returns(a, After(front).desc.owner, After(front).desc.auto)
    {
      assert After(front).desc == Written(front[i]);
    }
  }

  lemma LookStep(s: System, taker: Pid, a: Action)
    requires Inv(s, taker) && Enabled(s, a) && a.Look?
    ensures Answered(s, a) == Answer(true) <==> (s.desc.exclusive && !Clears(s, a.p)) || s.desc.counter != 0
  {
    ClearsIffTakerDied(s, taker, a.p);
  }

  /** In every run a process lists the machine exactly when an exclusive lock stands against it or a shared grant is outstanding. */
  lemma ListedIff(run: seq<Action>, k: nat)
    requires Legal(run) && k < |run| && run[k].Look?
    ensures ReplyAt(run, k) == Answer(true) <==> Against(run[..k], run[k].p) || SharedOut(run[..k])
  {
    hide After, Answered, Legal, LastTaker, Enabled, SharedOut, Clears, Inv, Tells, Against;
    var front, a := run[..k], run[k];
    PrefixLegal(run, k);
    HistoryTells(front);
    NotDead(front, a);
    AgainstIff(front, After(front), LastTaker(front), a.p);
    LookStep(After(front), LastTaker(front), a);
    CounterIsSurplus(front);
  }

  /** The condition is met: once a manual exclusive lock is returned, an exclusive request of another process fails. */
  lemma ManualLockOutlivesItsReturn(user: string, other: string)
    ensures var run := [Lock(1, user, false, true, "", 0), Unlock(1, user, false, true), Lock(2, other, true, true, "", 0)];
            Legal(run) && ReplyAt(run, 1) == Answer(true) && !After(run[..2]).desc.exclusive && ReplyAt(run, 2) == IOError
  {
    var a, b, c := Lock(1, user, false, true, "", 0), Unlock(1, user, false, true), Lock(2, other, true, true, "", 0);
    var run := [a, b, c];
    assert run[..2] == [a, b] && [a, b][..1] == [a] && run[..1] == [a] && [a][..0] == [];
    assert After([a]) == Step(Start, a);
    assert After([a, b]) == Step(After([a]), b);
    assert Legal([a]) && Legal([a, b]);
  }

  // ---------- the program ----------

  /** One lock file, as the processes share it. */
  class LockFile {
    var desc: Description
    var check: Option<Inode>
    var next: Inode
    var held: map<Inode, Pid>
    var ops: map<Pid, seq<Inode>>
    var dead: set<Pid>
    ghost var taker: Pid

    ghost function View(): System
      reads this
    {
      System(desc, check, next, held, ops, dead)
    }

    ghost predicate Valid()
      reads this
    {
      Inv(View(), taker)
    }

    constructor ()
      ensures Valid() && View() == Start
    {
      desc, check, next, held, ops, dead := Unused, None, 0, map[], map[], {};
    }

    /** Opens the check file and asks for its liveness lock; no file means that another process has it. */
    method OpenLiveCheck(p: Pid) returns (fd: Option<Inode>)
      modifies this`check, this`next, this`held
      ensures var s := Opened(old(View()));
              && check == s.check && next == s.next
              && fd == (if Lockable(s.held, s.check.value, p) then s.check else None)
              && held == if fd.Some? then s.held[fd.value := p] else s.held
    {
      if check.None? {
        check, next := Some(next), next + 1;
      }
      var i := check.value;
      if i in held && held[i] != p {
        return None;
      }
      held := held[i := p];
      return Some(i);
    }

    /** Reads the description, and forgets an automatic lock whose liveness lock is free. */
    method Enter(p: Pid)
      requires Valid() && p !in dead
      modifies this`desc, this`check, this`next, this`held
      ensures Valid() && View() == Entered(old(View()), p)
    {
      EnteredKeepsInv(View(), taker, p);
      ghost var s := View();
      if desc.exclusive && desc.auto {
        var lockedBySelf := OpsOf(ops, p) != [];
        if !lockedBySelf {
          var fd := OpenLiveCheck(p);
          if fd.Some? {
            desc := Unused;
            held := held - {fd.value};
          }
        }
      }
      assert View() == Entered(s, p);
    }

    /** Whether the machine is listed as locked. */
    method ListLock(p: Pid) returns (locked: bool)
      requires Valid() && p !in dead
      modifies this`desc, this`check, this`next, this`held
      ensures Valid() && View() == Step(old(View()), Look(p)) && Answer(locked) == Answered(old(View()), Look(p))
    {
      Enter(p);
      locked := IsLocked(desc);
    }

    method NonBlockingLock(p: Pid, user: string, auto: bool, exclusive: bool, reason: string, now: int) returns (r: Reply)
      requires Valid() && p !in dead
      modifies this
      ensures var a := Lock(p, user, auto, exclusive, reason, now);
              && Valid() && View() == Step(old(View()), a) && r == Answered(old(View()), a)
              && taker == Taker(old(View()), a, old(taker))
    {
      ghost var a := Lock(p, user, auto, exclusive, reason, now);
      StepKeepsInv(View(), taker, a);
      Enter(p);
      if desc.exclusive {
        return Answer(false);
      }
      if exclusive {
        if desc.counter != 0 {
          return Answer(false);
        }
        var fd := OpenLiveCheck(p);
        if fd.None? {
          return IOError;
        }
        ops := ops[p := OpsOf(ops, p) + [fd.value]];
        desc := desc.(exclusive := true, reason := reason, owner := user, time := now, auto := auto);
        taker := p;
      } else {
        desc := desc.(counter := desc.counter + 1);
      }
      return Answer(true);
    }

    /** Gives up the process's locks on its check files, and closes them. */
    method Release(p: Pid, files: seq<Inode>)
      modifies this`held
      ensures held == Released(old(held), p, files)
    {
      var n := 0;
      while n < |files|
        invariant 0 <= n <= |files|
        invariant held == Released(old(held), p, files[..n])
      {
        if files[n] in held && held[files[n]] == p {
          held := held - {files[n]};
        }
        n := n + 1;
      }
    }

    method Unlock(p: Pid, user: string, auto: bool, exclusive: bool) returns (ok: bool)
      requires Valid() && p !in dead
      modifies this
      ensures var a := Action.Unlock(p, user, auto, exclusive);
              && Valid() && View() == Step(old(View()), a) && Answer(ok) == Answered(old(View()), a)
              && taker == old(taker)
    {
      ghost var a := Action.Unlock(p, user, auto, exclusive);
      StepKeepsInv(View(), taker, a);
      Enter(p);
      if !IsLocked(desc) {
        return true;
      }
      if desc.exclusive != exclusive {
        return false;
      }
      if desc.exclusive {
        if desc.owner != user || desc.auto != auto {
          return false;
        }
        desc := desc.(exclusive := false, reason := "", owner := "");
        if auto {
          var files := OpsOf(ops, p);
          ops := ops - {p};
          Release(p, files);
          // there is a check file to remove
          assert check.Some?;
          check := None;
        }
      } else {
        desc := desc.(counter := desc.counter - 1);
      }
      return true;
    }

    /** The process ends, and the kernel drops its locks. */
    method Exit(p: Pid)
      requires Valid() && p !in dead
      modifies this
      ensures Valid() && View() == Step(old(View()), Die(p)) && taker == old(taker)
    {
      StepKeepsInv(View(), taker, Die(p));
      held := Gone(held, p);
      ops := ops - {p};
      dead := dead + {p};
    }
  }
}
