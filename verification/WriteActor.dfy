/**
 The write actor of the server database: callers on any thread submit writes,
 one thread takes them off a queue and runs them, and `Stop` lets the queue
 drain. Writes are functions from a database value to an outcome; a write that
 throws leaves the database as it was.
 */
module WriteActor {
  import opened Prelude

  datatype Attempt<S, V> = Committed(state: S, value: V) | Threw

  datatype Task<!S, V> = Task(id: nat, write: S -> Attempt<S, V>)

  /** What a caller is told. `OpenFailed` is a database that could not be opened. */
  datatype Answer<V> = Value(value: V) | WriteFailed | OpenFailed | ActorStopped

  /** A task the actor ran, and whether the database was open for it. */
  datatype Ran<!S, V> = Ran(task: Task<S, V>, dbOpen: bool)

  function Effect<S, V>(db: S, ran: Ran<S, V>): (r: (S, Answer<V>)) {
    if !ran.dbOpen then (db, OpenFailed)
    else match ran.task.write(db)
      case Committed(db', v) => (db', Value(v))
      case Threw => (db, WriteFailed)
  }

  /** The database after running tasks one after the other. */
  function Replay<S, V>(db: S, history: seq<Ran<S, V>>): (r: S)
    decreases |history|
  {
    if history == [] then db else Effect(Replay(db, history[..|history| - 1]), history[|history| - 1]).0
  }

  /** What the k-th caller of that sequential run is told. */
  function ReplayAnswer<S, V>(db: S, history: seq<Ran<S, V>>, k: nat): (r: Answer<V>)
    requires k < |history|
  {
    Effect(Replay(db, history[..k]), history[k]).1
  }

  /** What running a task may do to the database and tell its caller. */
  ghost predicate Outcome<S, V>(before: S, task: Task<S, V>, dbOpen: bool, after: S, told: (nat, Answer<V>)) {
    && told.0 == task.id
    && (!dbOpen ==> after == before && told.1 == OpenFailed)
    && (dbOpen ==>
          var attempt := task.write(before);
          && (attempt.Committed? ==> after == attempt.state && told.1 == Value(attempt.value))
          && (attempt.Threw? ==> after == before && told.1 == WriteFailed))
  }

  // ------------------------------------------------------- the object

  class Actor<!S, V> {
    var queue: seq<Task<S, V>>
    var stopping: bool
    var database: S
    var answers: seq<(nat, Answer<V>)>

    constructor (initial: S)
      ensures queue == [] && !stopping && database == initial && answers == []
    {
      queue, stopping, database, answers := [], false, initial, [];
    }

    method Submit(task: Task<S, V>)
      modifies this
      ensures stopping == old(stopping) && database == old(database)
      ensures old(stopping) ==> queue == old(queue) && answers == old(answers) + [(task.id, ActorStopped)]
      ensures !old(stopping) ==> queue == old(queue) + [task] && answers == old(answers)
    {
      if stopping {
        answers := answers + [(task.id, ActorStopped)];
      } else {
        queue := queue + [task];
      }
    }

    /** The actor's loop when no more work arrives: `opens` says, per task,
        whether the database could be opened. `states` are the database values
        before the first task, between the tasks and after the last one. */
    method Drain(opens: seq<bool>) returns (ghost states: seq<S>)
      requires |opens| == |queue|
      modifies this
      ensures queue == [] && stopping == old(stopping)
      ensures |states| == |opens| + 1 && states[0] == old(database) && states[|opens|] == database
      ensures |answers| == |old(answers)| + |opens| && answers[..|old(answers)|] == old(answers)
      ensures forall k :: 0 <= k < |opens| ==> answers[|old(answers)| + k].0 == old(queue)[k].id
      ensures forall k {:trigger opens[k]} :: 0 <= k < |opens| ==>
        var task, told := old(queue)[k], answers[|old(answers)| + k];
        && (!opens[k] ==> states[k + 1] == states[k] && told.1 == OpenFailed)
        && (opens[k] ==>
              match task.write(states[k])
              case Committed(db, v) => states[k + 1] == db && told.1 == Value(v)
              case Threw => states[k + 1] == states[k] && told.1 == WriteFailed)
    {
      states := [database];
      ghost var given, tasks := |answers|, queue;
      var i := 0;
      while queue != []
        invariant i <= |opens| && queue == tasks[i..] && stopping == old(stopping)
        invariant |states| == i + 1 && states[0] == old(database) && states[i] == database
        invariant |answers| == given + i && answers[..given] == old(answers)
        invariant forall k :: 0 <= k < i ==> answers[given + k].0 == tasks[k].id
        invariant forall k {:trigger opens[k]} :: 0 <= k < i ==>
          Outcome(states[k], tasks[k], opens[k], states[k + 1], answers[given + k])
        decreases |queue|
      {
        var task := queue[0];
        queue := queue[1..];
        if !opens[i] {
          answers := answers + [(task.id, OpenFailed)];
        } else {
          match task.write(database)
          case Committed(db', v) =>
            database := db';
            answers := answers + [(task.id, Value(v))];
          case Threw =>
            answers := answers + [(task.id, WriteFailed)];
        }
        assert Outcome(states[i], task, opens[i], database, answers[given + i]);
        states := states + [database];
        i := i + 1;
      }
    }
  }

  // ------------------------------------------------------- all interleavings

  /** `history` is what ran, in order; `next` numbers the submissions. */
  datatype State<!S, V> = State(
    queue: seq<Task<S, V>>,
    running: Option<Task<S, V>>,
    stopping: bool,
    exited: bool,
    database: S,
    answers: seq<(nat, Answer<V>)>,
    next: nat,
    accepted: seq<Task<S, V>>,
    history: seq<Ran<S, V>>)

  datatype Step<!S, V> =
    | SubmitStep(write: S -> Attempt<S, V>)
    | TakeStep
    | RunStep(dbOpen: bool)
    | StopStep
    | ExitStep

  predicate Enabled<S, V>(s: State<S, V>, step: Step<S, V>) {
    match step
    case SubmitStep(_) => true
    case TakeStep => !s.exited && s.running.None? && s.queue != []
    case RunStep(_) => !s.exited && s.running.Some?
    case StopStep => true
    case ExitStep => !s.exited && s.running.None? && s.queue == [] && s.stopping
  }

  function Next<S, V>(s: State<S, V>, step: Step<S, V>): (r: State<S, V>)
    requires Enabled(s, step)
  {
    match step
    case SubmitStep(write) =>
      var task := Task(s.next, write);
      if s.stopping then s.(answers := s.answers + [(s.next, ActorStopped)], next := s.next + 1)
      else s.(queue := s.queue + [task], accepted := s.accepted + [task], next := s.next + 1)
    case TakeStep => s.(running := Some(s.queue[0]), queue := s.queue[1..])
    case RunStep(dbOpen) =>
      var ran := Ran(s.running.value, dbOpen);
      var (db, answer) := Effect(s.database, ran);
      s.(running := None, database := db, answers := s.answers + [(ran.task.id, answer)], history := s.history + [ran])
    case StopStep => s.(stopping := true)
    case ExitStep => s.(exited := true)
  }

  function INITIAL<S, V>(db: S): (s: State<S, V>) {
    State([], None, false, false, db, [], 0, [], [])
  }

  function Run<S, V>(db: S, steps: seq<Step<S, V>>): (s: State<S, V>)
    decreases |steps|
  {
    if steps == [] then INITIAL(db)
    else
      var s, step := Run(db, steps[..|steps| - 1]), steps[|steps| - 1];
      if Enabled(s, step) then Next(s, step) else s
  }

  function TasksRan<S, V>(history: seq<Ran<S, V>>): (r: seq<Task<S, V>>)
    decreases |history|
  {
    if history == [] then [] else TasksRan(history[..|history| - 1]) + [history[|history| - 1].task]
  }

  function InHand<S, V>(s: State<S, V>): (r: seq<Task<S, V>>) {
    if s.running.Some? then [s.running.value] else []
  }

  function QueuedTimes<S, V>(tasks: seq<Task<S, V>>, id: nat): (n: nat)
    decreases |tasks|
  {
    if tasks == [] then 0 else (if tasks[0].id == id then 1 else 0) + QueuedTimes(tasks[1..], id)
  }

  function AnsweredTimes<V>(answers: seq<(nat, Answer<V>)>, id: nat): (n: nat)
    decreases |answers|
  {
    if answers == [] then 0
    else AnsweredTimes(answers[..|answers| - 1], id) + if answers[|answers| - 1].0 == id then 1 else 0
  }

  /** How many of the places a submission can be in hold this one. */
  function Places<S, V>(s: State<S, V>, id: nat): (n: nat) {
    AnsweredTimes(s.answers, id) + (if s.running.Some? && s.running.value.id == id then 1 else 0) +
        QueuedTimes(s.queue, id)
  }

  /** What was accepted is run in that order, and every answer of a task that
      ran is the answer of the sequential run. */
  ghost predicate Inv<S, V>(db: S, s: State<S, V>) {
    && s.accepted == TasksRan(s.history) + InHand(s) + s.queue
    && (s.exited ==> s.stopping && s.running.None? && s.queue == [])
    && Sequential(db, s)
  }

  ghost predicate Sequential<S, V>(db: S, s: State<S, V>) {
    && s.database == Replay(db, s.history)
    && (forall k :: 0 <= k < |s.history| ==> (s.history[k].task.id, ReplayAnswer(db, s.history, k)) in s.answers)
  }

  lemma {:induction false} QueuedTimesSnoc<S, V>(tasks: seq<Task<S, V>>, task: Task<S, V>, id: nat)
    ensures QueuedTimes(tasks + [task], id) == QueuedTimes(tasks, id) + if task.id == id then 1 else 0
    decreases |tasks|
  {
    if tasks != [] {
      assert (tasks + [task])[1..] == tasks[1..] + [task];
      QueuedTimesSnoc(tasks[1..], task, id);
    }
  }

  lemma AnsweredTimesSnoc<V>(answers: seq<(nat, Answer<V>)>, last: (nat, Answer<V>), id: nat)
    ensures AnsweredTimes(answers + [last], id) == AnsweredTimes(answers, id) + if last.0 == id then 1 else 0
  {
    assert (answers + [last])[..|answers|] == answers;
  }

  /** Only the submission itself adds a place for its number; the other steps
      move it along. Only a run of the task in hand is noted in the history. */
  lemma PlacesNext<S, V>(s: State<S, V>, step: Step<S, V>, id: nat)
    requires Enabled(s, step)
    ensures Places(Next(s, step), id) == Places(s, id) + if step.SubmitStep? && s.next == id then 1 else 0
    ensures Next(s, step).history == s.history + if step.RunStep? then [Ran(s.running.value, step.dbOpen)] else []
  {
    var s' := Next(s, step);
    match step
    case SubmitStep(write) =>
      if s.stopping {
        AnsweredTimesSnoc(s.answers, (s.next, ActorStopped), id);
      } else {
        QueuedTimesSnoc(s.queue, Task(s.next, write), id);
      }
    case RunStep(dbOpen) =>
      AnsweredTimesSnoc(s.answers, s'.answers[|s.answers|], id);
      assert s'.answers == s.answers + [s'.answers[|s.answers|]];
    case TakeStep =>
    case StopStep =>
    case ExitStep =>
  }

  lemma RunSequential<S, V>(db: S, s: State<S, V>, dbOpen: bool)
    requires Sequential(db, s) && Enabled(s, RunStep(dbOpen))
    ensures Sequential(db, Next(s, RunStep(dbOpen)))
  {
    var s' := Next(s, RunStep(dbOpen));
    assert s'.history[..|s.history|] == s.history;
    forall k | 0 <= k < |s'.history|
      ensures (s'.history[k].task.id, ReplayAnswer(db, s'.history, k)) in s'.answers
    {
      assert s'.history[..k] == s.history[..k];
      if k < |s.history| {
        assert (s.history[k].task.id, ReplayAnswer(db, s.history, k)) in s.answers;
      }
    }
  }

  lemma TakeKeepsInv<S, V>(db: S, s: State<S, V>)
    requires Inv(db, s) && Enabled(s, TakeStep)
    ensures Inv(db, Next(s, TakeStep))
  {
    var s' := Next(s, TakeStep);
    assert InHand(s) + s.queue == InHand(s') + s'.queue;
    assert TasksRan(s.history) + InHand(s) + s.queue == TasksRan(s.history) + InHand(s') + s'.queue;
  }

  lemma RunKeepsInv<S, V>(db: S, s: State<S, V>, dbOpen: bool)
    requires Inv(db, s) && Enabled(s, RunStep(dbOpen))
    ensures Inv(db, Next(s, RunStep(dbOpen)))
  {
    var s' := Next(s, RunStep(dbOpen));
    RunSequential(db, s, dbOpen);
    assert s'.history[..|s'.history| - 1] == s.history;
    assert TasksRan(s'.history) == TasksRan(s.history) + InHand(s);
  }

  lemma SubmitKeepsInv<S, V>(db: S, s: State<S, V>, write: S -> Attempt<S, V>)
    requires Inv(db, s)
    ensures Inv(db, Next(s, SubmitStep(write)))
  {
    var s' := Next(s, SubmitStep(write));
    assert !s.stopping ==> s'.accepted == TasksRan(s.history) + InHand(s) + s'.queue;
  }

  lemma {:induction false} RunInv<S, V>(db: S, steps: seq<Step<S, V>>)
    ensures Inv(db, Run(db, steps))
    decreases |steps|
  {
    if steps != [] {
      var s, step := Run(db, steps[..|steps| - 1]), steps[|steps| - 1];
      RunInv(db, steps[..|steps| - 1]);
      if Enabled(s, step) {
        match step
        case SubmitStep(write) => SubmitKeepsInv(db, s, write);
        case RunStep(dbOpen) => RunKeepsInv(db, s, dbOpen);
        case TakeStep => TakeKeepsInv(db, s);
        case StopStep =>
        case ExitStep =>
      }
    }
  }

  lemma {:induction false} RunPlaces<S, V>(db: S, steps: seq<Step<S, V>>, id: nat)
    ensures Places(Run(db, steps), id) == if id < Run(db, steps).next then 1 else 0
    decreases |steps|
  {
    if steps != [] {
      var s, step := Run(db, steps[..|steps| - 1]), steps[|steps| - 1];
      RunPlaces(db, steps[..|steps| - 1], id);
      if Enabled(s, step) {
        PlacesNext(s, step, id);
      }
    }
  }

  /** Every submission, before, during or after the stop, is told at most one
      thing, and once the actor has left its loop exactly one. */
  lemma ExactlyOneAnswer<S, V>(db: S, steps: seq<Step<S, V>>, id: nat)
    ensures var s := Run(db, steps);
      && AnsweredTimes(s.answers, id) <= 1
      && (AnsweredTimes(s.answers, id) == 1 ==> id < s.next && QueuedTimes(s.queue, id) == 0)
      && (s.exited && id < s.next ==> AnsweredTimes(s.answers, id) == 1)
  {
    RunPlaces(db, steps, id);
    RunInv(db, steps);
  }

  /** The writes handed to the actor, numbered by their submissions. */
  function Submissions<S, V>(steps: seq<Step<S, V>>): (r: seq<S -> Attempt<S, V>>)
    decreases |steps|
  {
    if steps == [] then []
    else
      var before, last := Submissions(steps[..|steps| - 1]), steps[|steps| - 1];
      if last.SubmitStep? then before + [last.write] else before
  }

  /** The submissions so far, those accepted, and whether the stop has come. */
  ghost predicate Admitted<S, V>(s: State<S, V>, submitted: seq<S -> Attempt<S, V>>, stopped: bool) {
    && s.next == |submitted| && |s.accepted| <= s.next && s.stopping == stopped
    && (forall k :: 0 <= k < |s.accepted| ==> s.accepted[k] == Task(k, submitted[k]))
    && (forall k :: |s.accepted| <= k < s.next ==> (k, ActorStopped) in s.answers)
    && (!s.stopping ==> |s.accepted| == s.next)
  }

  lemma AdmittedNext<S, V>(s: State<S, V>, step: Step<S, V>, submitted: seq<S -> Attempt<S, V>>)
    requires Admitted(s, submitted, s.stopping) && Enabled(s, step)
    ensures Admitted(Next(s, step), if step.SubmitStep? then submitted + [step.write] else submitted,
                     s.stopping || step.StopStep?)
    ensures s.stopping ==> Next(s, step).accepted == s.accepted
  {
    var t := Next(s, step);
    hide Effect;
    forall k | |s.accepted| <= k < s.next ensures (k, ActorStopped) in t.answers {
      assert (k, ActorStopped) in s.answers;
    }
    assert step.SubmitStep? && s.stopping ==> t.answers[|s.answers|] == (s.next, ActorStopped);
  }

  lemma {:induction false} RunAdmitted<S, V>(db: S, steps: seq<Step<S, V>>)
    ensures Admitted(Run(db, steps), Submissions(steps), StopStep in steps)
    decreases |steps|
  {
    if steps != [] {
      var before, step := steps[..|steps| - 1], steps[|steps| - 1];
      RunAdmitted(db, before);
      assert steps == before + [step];
      assert !Enabled(Run(db, before), step) ==> !step.SubmitStep? && !step.StopStep?;
      hide Next, Enabled;
      if Enabled(Run(db, before), step) {
        AdmittedNext(Run(db, before), step, Submissions(before));
      }
    }
  }

  /** Before the stop every submission is accepted, with its number, in order. */
  lemma AcceptedBeforeStop<S, V>(db: S, steps: seq<Step<S, V>>)
    requires StopStep !in steps
    ensures Run(db, steps).next == |Submissions(steps)| == |Run(db, steps).accepted|
    ensures forall k :: 0 <= k < |Submissions(steps)| ==> Run(db, steps).accepted[k] == Task(k, Submissions(steps)[k])
  {
    RunAdmitted(db, steps);
  }

  /** From the stop on nothing more is accepted: every later submission is told
      that the actor stopped. */
  lemma {:induction false} RefusedAfterStop<S, V>(db: S, steps: seq<Step<S, V>>, later: seq<Step<S, V>>)
    requires StopStep in steps
    ensures var s := Run(db, steps + later);
      && s.accepted == Run(db, steps).accepted && s.next == |Submissions(steps + later)|
      && (forall k :: |s.accepted| <= k < s.next ==> (k, ActorStopped) in s.answers)
    decreases |later|
  {
    RunAdmitted(db, steps + later);
    if later == [] {
      assert steps + later == steps;
    } else {
      var before, step := steps + later[..|later| - 1], later[|later| - 1];
      assert (steps + later)[..|steps + later| - 1] == before;
      assert before[..|steps|] == steps;
      RefusedAfterStop(db, steps, later[..|later| - 1]);
      RunAdmitted(db, before);
      hide Next, Enabled;
      if Enabled(Run(db, before), step) {
        AdmittedNext(Run(db, before), step, Submissions(before));
      }
    }
  }

  /** Accepted writes take effect once each, in the order they were queued: some
      values `dbs` lead from the initial database to the present one, each write
      turns one into the next or leaves it, and its caller is told which. */
  lemma OneSequentialRun<S, V>(db: S, steps: seq<Step<S, V>>) returns (dbs: seq<S>)
    ensures var s := Run(db, steps);
      && |s.history| <= |s.accepted| && (s.exited ==> |s.history| == |s.accepted|)
      && (forall k :: 0 <= k < |s.history| ==> s.history[k].task == s.accepted[k])
    ensures var s := Run(db, steps);
      && |dbs| == |s.history| + 1 && dbs[0] == db && dbs[|s.history|] == s.database
      && (forall k :: 0 <= k < |s.history| && !s.history[k].dbOpen ==>
            dbs[k + 1] == dbs[k] && (s.history[k].task.id, OpenFailed) in s.answers)
      && (forall k :: 0 <= k < |s.history| && s.history[k].dbOpen ==>
            var attempt := s.history[k].task.write(dbs[k]);
            && (attempt.Committed? ==>
                  dbs[k + 1] == attempt.state && (s.history[k].task.id, Value(attempt.value)) in s.answers)
            && (attempt.Threw? ==> dbs[k + 1] == dbs[k] && (s.history[k].task.id, WriteFailed) in s.answers))
  {
    RunInv(db, steps);
    var s := Run(db, steps);
    TasksRanAre(s.history);
    dbs := seq(|s.history| + 1, k requires 0 <= k <= |s.history| => Replay(db, s.history[..k]));
    assert s.history[..|s.history|] == s.history;
    hide Run;
    forall k | 0 <= k < |s.history|
      ensures (dbs[k + 1], ReplayAnswer(db, s.history, k)) == Effect(dbs[k], s.history[k])
      ensures (s.history[k].task.id, ReplayAnswer(db, s.history, k)) in s.answers
    {
      assert s.history[..k + 1][..k] == s.history[..k];
    }
  }

  lemma {:induction false} TasksRanAre<S, V>(history: seq<Ran<S, V>>)
    ensures |TasksRan(history)| == |history|
    ensures forall k :: 0 <= k < |history| ==> TasksRan(history)[k] == history[k].task
    decreases |history|
  {
    if history != [] {
      TasksRanAre(history[..|history| - 1]);
    }
  }
}
