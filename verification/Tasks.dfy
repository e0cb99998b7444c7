/** The unit of work of the flag tuner: a flag set together with what the build
    stage and the test stage have found out about it.

    Tasks travel between processes as pickled copies, so they are values here. */
module Tasks {

  datatype Option<+T> = None | Some(value: T)

  /** A flag specification.  A numeric one carries the range [start-end] that the
      pattern in its text gives. */
  datatype Spec = Boolean(name: string) | Numeric(name: string, start: nat, end: nat)

  /** A flag is on exactly when its specification is a key; a boolean flag has value 0. */
  type FlagSet = map<Spec, int>

  datatype StageId = Build | Test

  datatype BuildResult = BuildResult(checksum: string, cost: real, image: string,
                                     fileLength: string, textLength: string)

  datatype Outcome = Built(result: BuildResult) | Measured(cost: real)

  datatype Task = Task(flags: FlagSet, build: Option<BuildResult>, exe: Option<real>)

  datatype Message = Work(task: Task) | Pill

  /** The foreign commands.  What a stage finds out is a function of its key: the
      formatted flags in the build stage, the image checksum in the test stage. */
  datatype Commands = Commands(format: FlagSet -> string, compile: string -> BuildResult, run: string -> real)

  function Fresh(flags: FlagSet): Task {
    Task(flags, None, None)
  }

  predicate Done(id: StageId, t: Task) {
    if id.Build? then t.build.Some? else t.exe.Some?
  }

  /** What both the worker and the helper assert of a task they receive. */
  predicate Ready(id: StageId, t: Task) {
    !Done(id, t) && (id.Test? ==> t.build.Some?)
  }

  function Key(c: Commands, id: StageId, t: Task): string {
    if id.Build? then c.format(t.flags)
    else match t.build case Some(b) => b.checksum case None => ""
  }

  function OutcomeOf(c: Commands, id: StageId, key: string): Outcome {
    if id.Build? then Built(c.compile(key)) else Measured(c.run(key))
  }

  function SetResult(id: StageId, t: Task, r: Outcome): Task {
    match (id, r)
    case (Build, Built(b)) => t.(build := Some(b))
    case (Test, Measured(x)) => t.(exe := Some(x))
    case _ => t
  }

  /** The task as a worker would hand it on. */
  function Finish(c: Commands, id: StageId, t: Task): Task {
    SetResult(id, t, OutcomeOf(c, id, Key(c, id, t)))
  }

  /** The measured cost of a flag set: what the whole loop is there to compute. */
  function Cost(c: Commands, flags: FlagSet): real {
    c.run(c.compile(c.format(flags)).checksum)
  }

  /** The stage that a task passed through the first n stages comes to next. */
  function StageAt(n: nat): StageId {
    if n == 0 then Build else Test
  }

  /** A task with the given flags after the first n stages. */
  function Form(c: Commands, n: nat, flags: FlagSet): Task {
    if n == 0 then Fresh(flags) else Finish(c, StageAt(n - 1), Form(c, n - 1, flags))
  }

  function TestedTask(c: Commands, flags: FlagSet): Task {
    Form(c, 2, flags)
  }

  /** What leaves a stage, field by field: the flags as they came, and beside them what the stage's command says of the key. */
  lemma FinishedTask(c: Commands, id: StageId, t: Task)
    requires Ready(id, t)
    ensures id.Build? ==> Finish(c, id, t) == Task(t.flags, Some(c.compile(c.format(t.flags))), t.exe)
    ensures id.Test? ==> Finish(c, id, t) == Task(t.flags, t.build, Some(c.run(t.build.value.checksum)))
  {
  }

  /** A task that has been through both stages has its own flags, everything the compiler says of them, and the cost of
      the image that came of them. */
  lemma TestedTaskCost(c: Commands, flags: FlagSet)
    ensures TestedTask(c, flags) == Task(flags, Some(c.compile(c.format(flags))), Some(c.run(c.compile(c.format(flags)).checksum)))
    ensures TestedTask(c, flags).exe == Some(Cost(c, flags))
  {
    var built := Form(c, 1, flags);
    assert Form(c, 0, flags) == Fresh(flags);
    assert built == Task(flags, Some(c.compile(c.format(flags))), None);
  }
}
