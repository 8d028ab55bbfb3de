/**
 The timed ladder of one scenario: arming, check-ins, the escalation steps, the grace
 period and the entry into release. Handlers read the row first and commit later, so
 every handler is two or more steps and others come between. Jobs stay live: once
 handed to the queue a job may run at any later time and any number of times.
 Times are milliseconds.
 */
module Ladder {
  import opened Basics
  import O = Outbox
  import S = ScenarioStates

  datatype Job =
    | Due(dueAt: nat)
    | RunStep(index: nat, dueAt: nat)
    | GraceExpiry(stamp: nat)
    | Execute(action: nat)

  /** What never changes during a run: the row's intervals and the step waits of the ladder. */
  datatype Config = Config(interval: nat, grace: nat, waits: seq<nat>)

  /** The ladder every scenario gets: push, sms, call, contact alert. */
  const DEFAULT_WAITS: seq<nat> := [600_000, 1_800_000, 900_000, 0]

  /** A handler between its read and its commit. */
  datatype Task =
    | Arming(armedAt: nat, dueAt: nat)
    | CheckingIn(seen: S.ScenarioState, dueAt: nat)
    | Missing(dueAt: nat)
    | Stepping(index: nat, dueAt: nat, seen: S.ScenarioState)
    | Stepped(index: nat, dueAt: nat)
    | Releasing
    | Leaving(key: S.TransitionKey)

  datatype Release = Release(actions: set<nat>)

  datatype World = World(
    row: S.Row,
    box: O.Box<Job>,
    tasks: map<nat, Task>,
    committed: seq<S.TransitionKey>,
    releases: seq<Release>,
    enteredRelease: Option<nat>)
  {
    function Now(): nat { box.now }

    /** The queue has the job: it may be delivered from now on. */
    predicate InQueue(job: Job) {
      box.WasHanded(job)
    }

    /** `transition` inside the handler's transaction; it commits or nothing does. */
    function Move(key: S.TransitionKey, extra: S.Extra): Option<World> {
      var r := S.Attempt(Some(row), key, extra);
      if r.Failure? then None
      else Some(this.(row := r.value, committed := committed + [key]))
    }

    function Put(job: Job, delayMs: nat): World {
      this.(box := box.Enqueue(job, job.Execute?, delayMs))
    }

    function Done(t: nat): World {
      this.(tasks := tasks - {t})
    }

    function Task(t: nat, task: Task): World {
      this.(tasks := tasks[t := task])
    }
  }

  datatype Event =
    | ArmRead(t: nat)
    | ArmCommit(t: nat)
    | CheckinRead(t: nat)
    | CheckinCommit(t: nat)
    | DueDelivered(t: nat, dueAt: nat)
    | MissCommit(t: nat)
    | StepDelivered(t: nat, index: nat, dueAt: nat)
    | StepBegin(t: nat)
    | StepFinish(t: nat)
    | GraceDelivered(t: nat, stamp: nat)
    | ReleaseCommit(t: nat, actions: seq<nat>)
    | LeaveRead(t: nat)
    | LeaveCommit(t: nat)
    | Drop(t: nat)
    | Elsewhere(key: S.TransitionKey)
    | Relay(e: O.Event<Job>)

  const RECOVERABLE := {S.Armed, S.IncidentPending, S.EscalationInProgress, S.GracePeriod}

  function RecoveryKey(seen: S.ScenarioState): Option<S.TransitionKey> {
    if seen == S.IncidentPending then Some(S.RecoverIncident)
    else if seen == S.EscalationInProgress then Some(S.RecoverEscalation)
    else if seen == S.GracePeriod then Some(S.RecoverGrace)
    else None
  }

  /** The key a disarm or an abort chooses from the state it read. */
  function LeavingKey(seen: S.ScenarioState): Option<S.TransitionKey> {
    if seen == S.Armed then Some(S.DisarmArmed)
    else if seen == S.IncidentPending || seen == S.EscalationInProgress then Some(S.DisarmEscalation)
    else if seen == S.GracePeriod then Some(S.AbortGrace)
    else None
  }

  predicate Enabled(w: World, e: Event) {
    match e
    case ArmRead(t) => t !in w.tasks
    case ArmCommit(t) => t in w.tasks && w.tasks[t].Arming?
    case CheckinRead(t) => t !in w.tasks && w.row.state in RECOVERABLE
    case CheckinCommit(t) => t in w.tasks && w.tasks[t].CheckingIn?
    case DueDelivered(t, dueAt) => t !in w.tasks && w.InQueue(Due(dueAt))
    case MissCommit(t) => t in w.tasks && w.tasks[t].Missing?
    case StepDelivered(t, index, dueAt) => t !in w.tasks && w.InQueue(RunStep(index, dueAt))
    case StepBegin(t) => t in w.tasks && w.tasks[t].Stepping?
    case StepFinish(t) => t in w.tasks && w.tasks[t].Stepped?
    case GraceDelivered(t, stamp) => t !in w.tasks && w.InQueue(GraceExpiry(stamp))
    case ReleaseCommit(t, _) => t in w.tasks && w.tasks[t].Releasing?
    case LeaveRead(t) => t !in w.tasks && LeavingKey(w.row.state).Some?
    case LeaveCommit(t) => t in w.tasks && w.tasks[t].Leaving?
    case Drop(t) => t in w.tasks
    case Elsewhere(key) => key in {S.Expire, S.CompleteRelease, S.AdminKillswitch}
    case Relay(re) => !re.Put? && O.Enabled(w.box, re)
  }

  /** `beginGrace`. A denied transition ends the handler quietly. */
  function BeginGrace(c: Config, w: World): World {
    var moved := w.Move(S.BeginGrace, S.NO_EXTRA);
    if moved.None? then w else moved.value.Put(GraceExpiry(w.Now()), c.grace)
  }

  function PutActions(w: World, actions: seq<nat>): World
    decreases |actions|
  {
    if actions == [] then w else PutActions(w.Put(Execute(actions[0]), 0), actions[1..])
  }

  function Apply(c: Config, w: World, e: Event): World
    requires Enabled(w, e)
  {
    match e
    case ArmRead(t) => w.Task(t, Arming(w.Now(), w.Now() + c.interval))
    case ArmCommit(t) =>
      var moved := w.Move(S.Arm, S.Extra(Some(w.tasks[t].armedAt), None, None));
      if moved.None? then w.Done(t) else moved.value.Put(Due(w.tasks[t].dueAt), c.interval).Done(t)
    case CheckinRead(t) => w.Task(t, CheckingIn(w.row.state, w.Now() + c.interval))
    case CheckinCommit(t) =>
      var key := RecoveryKey(w.tasks[t].seen);
      var moved := if key.None? then Some(w) else w.Move(key.value, S.NO_EXTRA);
      if moved.None? then w.Done(t) else moved.value.Put(Due(w.tasks[t].dueAt), c.interval).Done(t)
    case DueDelivered(t, dueAt) => if w.row.state != S.Armed then w else w.Task(t, Missing(dueAt))
    case MissCommit(t) =>
      var moved := w.Move(S.MissCheckin, S.NO_EXTRA);
      if moved.None? then w.Done(t) else moved.value.Put(RunStep(0, w.tasks[t].dueAt), 0).Done(t)
    case StepDelivered(t, index, dueAt) =>
      if w.row.state != S.IncidentPending && w.row.state != S.EscalationInProgress then w
      else w.Task(t, Stepping(index, dueAt, w.row.state))
    case StepBegin(t) =>
      var task := w.tasks[t];
      if task.index == 0 && task.seen == S.IncidentPending then
        var moved := w.Move(S.BeginEscalation, S.NO_EXTRA);
        if moved.None? then w.Done(t) else moved.value.Task(t, Stepped(task.index, task.dueAt))
      else w.Task(t, Stepped(task.index, task.dueAt))
    case StepFinish(t) =>
      var task := w.tasks[t];
      if task.index + 1 < |c.waits|
      then w.Put(RunStep(task.index + 1, task.dueAt), c.waits[task.index]).Done(t)
      else BeginGrace(c, w).Done(t)
    case GraceDelivered(t, _) => w.Task(t, Releasing)
    case ReleaseCommit(t, actions) =>
      var moved := w.Move(S.BeginRelease, S.NO_EXTRA);
      if moved.None? then w.Done(t)
      else PutActions(moved.value.(
             releases := w.releases + [Release(set a | a in actions)], enteredRelease := Some(w.Now())), actions).Done(t)
    case LeaveRead(t) => w.Task(t, Leaving(LeavingKey(w.row.state).value))
    case LeaveCommit(t) =>
      var moved := w.Move(w.tasks[t].key, S.Extra(None, None, Some(w.Now())));
      if moved.None? then w.Done(t) else moved.value.Done(t)
    case Drop(t) => w.Done(t)
    case Elsewhere(key) =>
      var moved := w.Move(key, if key == S.CompleteRelease then S.Extra(None, Some(w.Now()), None)
                               else S.Extra(None, None, if key == S.AdminKillswitch then Some(w.Now()) else None));
      if moved.None? then w else moved.value
    case Relay(re) => w.(box := O.Apply(w.box, re))
  }

  predicate Runnable(c: Config, w: World, es: seq<Event>)
    decreases |es|
  {
    es != [] ==> Enabled(w, es[0]) && Runnable(c, Apply(c, w, es[0]), es[1..])
  }

  function Exec(c: Config, w: World, es: seq<Event>): World
    requires Runnable(c, w, es)
    decreases |es|
  {
    if es == [] then w else Exec(c, Apply(c, w, es[0]), es[1..])
  }

  /** A fresh draft. */
  function NewWorld(now: nat): World {
    World(S.Row(S.Draft, None, None, None), O.Empty(now), map[], [], [], None)
  }

  // ---------- time bounds ----------

  function Sum(waits: seq<nat>): nat {
    if waits == [] then 0 else Sum(waits[..|waits| - 1]) + waits[|waits| - 1]
  }

  /** How long the ladder takes to reach step `index`. */
  function ClimbTo(c: Config, index: nat): nat {
    Sum(c.waits[..if index <= |c.waits| then index else |c.waits|])
  }

  /** The waits of all steps but the last. */
  function WholeClimb(c: Config): nat {
    if c.waits == [] then 0 else ClimbTo(c, |c.waits| - 1)
  }

  /** A job's share of the bound: no such job is due earlier than this. */
  function Floor(c: Config, armedAt: nat, job: Job): nat {
    match job
    case Due(_) => armedAt + c.interval
    case RunStep(index, _) => armedAt + c.interval + ClimbTo(c, index)
    case GraceExpiry(_) => armedAt + c.interval + WholeClimb(c) + c.grace
    case Execute(_) => armedAt + c.interval + WholeClimb(c) + c.grace
  }

  /** A running handler's share. */
  function TaskFloor(c: Config, armedAt: nat, task: Task): nat {
    match task
    case Arming(_, _) => 0
    case CheckingIn(_, _) => armedAt
    case Missing(_) => armedAt + c.interval
    case Stepping(index, _, _) => armedAt + c.interval + ClimbTo(c, index)
    case Stepped(index, _) => armedAt + c.interval + ClimbTo(c, index)
    case Releasing => armedAt + c.interval + WholeClimb(c) + c.grace
    case Leaving(_) => armedAt
  }

  /** Steps have indices the ladder has; an empty ladder still gets step 0. */
  predicate IndexFits(c: Config, index: nat) {
    index < |c.waits| || index == 0
  }
}
