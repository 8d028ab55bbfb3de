/**
 Exactly when the ladder moves on early: a miss before a full interval after a check-in,
 or a release before a full grace period after the latest entry into grace. Either
 happens in some run exactly when a handler is at work already, or a job of an earlier
 check-in or grace period can still reach the queue in time. The queue may be any: `spent`
 are the jobs it will not deliver again, none where it may deliver a job twice, and all it
 has delivered where it never does.
 */
module LadderEarly {
  import opened Basics
  import opened Ladder
  import opened LadderSafety
  import opened LadderLimits
  import opened OutboxArrival
  import O = Outbox
  import S = ScenarioStates

  /** The two moves that wait for a job: opening an incident, and entering release. */
  datatype Move = Miss | Enter

  predicate Triggers(m: Move, job: Job) {
    if m.Miss? then job.Due? else job.GraceExpiry?
  }

  predicate AtWork(m: Move, task: Task) {
    if m.Miss? then task.Missing? else task.Releasing?
  }

  function KeyOf(m: Move): S.TransitionKey {
    if m.Miss? then S.MissCheckin else S.BeginRelease
  }

  function StateBefore(m: Move): S.ScenarioState {
    if m.Miss? then S.Armed else S.GracePeriod
  }

  function PeriodOf(c: Config, m: Move): nat {
    if m.Miss? then c.interval else c.grace
  }

  /** A handler of the move is at work, or a job for it that is not spent can reach the queue before the deadline. */
  ghost predicate EarlyTrigger(w: World, spent: set<Job>, m: Move, deadline: nat) {
    || (exists t :: t in w.tasks && AtWork(m, w.tasks[t]))
    || (exists job :: job !in spent && Triggers(m, job) && CanArrive(w.box, job, deadline))
  }

  function JobOf(e: Event): Option<Job> {
    match e
    case DueDelivered(_, dueAt) => Some(Due(dueAt))
    case StepDelivered(_, index, dueAt) => Some(RunStep(index, dueAt))
    case GraceDelivered(_, stamp) => Some(GraceExpiry(stamp))
    case _ => None
  }

  /** No spent job is delivered. */
  predicate Spares(es: seq<Event>, spent: set<Job>) {
    forall i :: 0 <= i < |es| ==> JobOf(es[i]).Some? ==> JobOf(es[i]).value !in spent
  }

  /** The run commits the move while the deadline is still ahead. */
  ghost predicate MovesBy(c: Config, w: World, es: seq<Event>, spent: set<Job>, m: Move, deadline: nat) {
    && Runnable(c, w, es) && Spares(es, spent) && Exec(c, w, es).Now() < deadline
    && w.committed <= Exec(c, w, es).committed && KeyOf(m) in Exec(c, w, es).committed[|w.committed|..]
  }

  /** Some run does. */
  ghost predicate MayMoveBy(c: Config, w: World, spent: set<Job>, m: Move, deadline: nat) {
    exists es :: MovesBy(c, w, es, spent, m, deadline)
  }

  // ---------- without a trigger nothing moves ----------

  lemma {:induction false} PutActionsCannotArrive(w: World, actions: seq<nat>, job: Job, deadline: nat)
    requires O.Inv(w.box) && !CanArrive(w.box, job, deadline) && w.Now() < deadline && !job.Execute?
    ensures !CanArrive(PutActions(w, actions).box, job, deadline)
    decreases |actions|
  {
    if actions != [] {
      var put: O.Event<Job> := O.Put(Execute(actions[0]), true, 0);
      var v := w.Put(Execute(actions[0]), 0);
      assert v.box == O.Apply(w.box, put);
      O.StepKeepsInv(w.box, put);
      CannotArriveStays(w.box, put, job, deadline);
      hide O.Inv, CanArrive, O.Box.Enqueue;
      PutActionsCannotArrive(v, actions[1..], job, deadline);
    }
  }

  /** Besides the fan-out, a step puts at most one job, a due or expiry job only for a full period later. */
  lemma StepPuts(c: Config, w: World, e: Event)
    requires Enabled(w, e) && !e.ReleaseCommit? && !e.Relay?
    ensures var b := Apply(c, w, e).box;
      || b == w.box
      || exists job, delayMs: nat ::
           && b == w.box.Enqueue(job, false, delayMs)
           && (job.Due? ==> delayMs == c.interval) && (job.GraceExpiry? ==> delayMs == c.grace)
  {}

  lemma JobStaysAway(c: Config, w: World, e: Event, m: Move, job: Job, deadline: nat)
    requires O.Inv(w.box) && Enabled(w, e) && Apply(c, w, e).Now() < deadline <= w.Now() + PeriodOf(c, m)
    requires Triggers(m, job) && !CanArrive(w.box, job, deadline)
    ensures !CanArrive(Apply(c, w, e).box, job, deadline)
  {
    StepKeepsBox(c, w, e);
    if e.Relay? {
      CannotArriveStays(w.box, e.e, job, deadline);
    } else if e.ReleaseCommit? {
      if Entered(w, e.actions).Some? { PutActionsCannotArrive(Entered(w, e.actions).value, e.actions, job, deadline); }
    } else {
      StepPuts(c, w, e);
      var b := Apply(c, w, e).box;
      hide O.Inv, Enabled, Apply;
      if b != w.box {
        var other, delayMs: nat :| b == w.box.Enqueue(other, false, delayMs)
          && (other.Due? ==> delayMs == c.interval) && (other.GraceExpiry? ==> delayMs == c.grace);
        PutStaysAway(w.box, other, delayMs, job, deadline);
      }
    }
  }

  lemma PutStaysAway(b: O.Box<Job>, other: Job, delayMs: nat, job: Job, deadline: nat)
    requires O.Inv(b) && !CanArrive(b, job, deadline) && b.now < deadline && (other == job ==> deadline <= b.now + delayMs)
    ensures !CanArrive(b.Enqueue(other, false, delayMs), job, deadline)
  {
    CannotArriveStays(b, O.Put(other, false, delayMs), job, deadline);
  }

  /** A handler of the move starts only on its job. */
  lemma HandlerStaysAway(c: Config, w: World, e: Event, spent: set<Job>, m: Move, deadline: nat)
    requires Spares([e], spent) && Enabled(w, e) && !EarlyTrigger(w, spent, m, deadline)
    ensures forall t :: t in Apply(c, w, e).tasks ==> !AtWork(m, Apply(c, w, e).tasks[t])
  {
    assert JobOf([e][0]).Some? ==> JobOf(e).value !in spent;
    if e.DueDelivered? { assert Triggers(Miss, Due(e.dueAt)) && CanArrive(w.box, Due(e.dueAt), deadline); }
    if e.GraceDelivered? { assert Triggers(Enter, GraceExpiry(e.stamp)) && CanArrive(w.box, GraceExpiry(e.stamp), deadline); }
    hide CanArrive;
    forall t | t in Apply(c, w, e).tasks ensures !AtWork(m, Apply(c, w, e).tasks[t]) {
      if !(t in w.tasks && Apply(c, w, e).tasks[t] == w.tasks[t]) {
        TasksMove(c, w, e, t);
        HandlerMoves(c, w, e, t);
      }
    }
  }

  /** What a task that has just moved has become. */
  lemma HandlerMoves(c: Config, w: World, e: Event, t: nat)
    requires Enabled(w, e) && t in Apply(c, w, e).tasks && !(t in w.tasks && Apply(c, w, e).tasks[t] == w.tasks[t])
    requires !e.ReleaseCommit? && !e.Relay? && !e.Elsewhere? && e.t == t
    ensures Apply(c, w, e).tasks[t].Missing? ==> e.DueDelivered?
    ensures Apply(c, w, e).tasks[t].Releasing? ==> e.GraceDelivered?
  {}

  lemma ReadsCommitNothing(c: Config, w: World, e: Event)
    requires Enabled(w, e)
    requires e.ArmRead? || e.CheckinRead? || e.DueDelivered? || e.StepDelivered? || e.GraceDelivered?
             || e.LeaveRead? || e.Drop? || e.Relay?
    ensures Apply(c, w, e).committed == w.committed
  {}

  lemma ReleaseCommits(c: Config, w: World, e: Event, m: Move)
    requires Enabled(w, e) && e.ReleaseCommit? && (m.Enter? ==> !AtWork(m, w.tasks[e.t]))
    ensures w.committed <= Apply(c, w, e).committed
    ensures KeyOf(m) !in Apply(c, w, e).committed[|w.committed|..]
  {
    if Entered(w, e.actions).Some? { PutActionsOnlyPuts(Entered(w, e.actions).value, e.actions); }
  }

  lemma CommitsCommit(c: Config, w: World, e: Event, m: Move)
    requires TasksLeave(w) && Enabled(w, e) && forall t :: t in w.tasks ==> !AtWork(m, w.tasks[t])
    requires e.ArmCommit? || e.CheckinCommit? || e.MissCommit? || e.StepBegin? || e.StepFinish? || e.LeaveCommit? || e.Elsewhere?
    ensures w.committed <= Apply(c, w, e).committed
    ensures KeyOf(m) !in Apply(c, w, e).committed[|w.committed|..]
  {}

  /** Only a handler of the move commits it. */
  lemma StepCommits(c: Config, w: World, e: Event, m: Move)
    requires TasksLeave(w) && Enabled(w, e) && forall t :: t in w.tasks ==> !AtWork(m, w.tasks[t])
    ensures w.committed <= Apply(c, w, e).committed
    ensures KeyOf(m) !in Apply(c, w, e).committed[|w.committed|..]
  {
    match e
    case ReleaseCommit(_, _) => ReleaseCommits(c, w, e, m);
    case ArmCommit(_) | CheckinCommit(_) | MissCommit(_) | StepBegin(_) | StepFinish(_) | LeaveCommit(_) | Elsewhere(_) =>
      CommitsCommit(c, w, e, m);
    case _ => ReadsCommitNothing(c, w, e);
  }

  lemma StepStaysAway(c: Config, w: World, e: Event, spent: set<Job>, m: Move, deadline: nat)
    requires Inv(c, w) && Spares([e], spent) && Enabled(w, e) && Apply(c, w, e).Now() < deadline <= w.Now() + PeriodOf(c, m)
    requires !EarlyTrigger(w, spent, m, deadline)
    ensures !EarlyTrigger(Apply(c, w, e), spent, m, deadline)
  {
    HandlerStaysAway(c, w, e, spent, m, deadline);
    forall job | job !in spent && Triggers(m, job) ensures !CanArrive(Apply(c, w, e).box, job, deadline) {
      JobStaysAway(c, w, e, m, job, deadline);
    }
  }

  lemma {:induction false} TimeGoesOn(c: Config, w: World, es: seq<Event>)
    requires Inv(c, w) && Runnable(c, w, es)
    ensures w.Now() <= Exec(c, w, es).Now()
    decreases |es|
  {
    if es != [] {
      StepKeepsInv(c, w, es[0]);
      StepKeepsBox(c, w, es[0]);
      hide Inv, Enabled, Apply;
      TimeGoesOn(c, Apply(c, w, es[0]), es[1..]);
    }
  }

  lemma {:induction false} NothingMoves(c: Config, w: World, es: seq<Event>, spent: set<Job>, m: Move, deadline: nat)
    requires Inv(c, w) && Runnable(c, w, es) && Spares(es, spent) && Exec(c, w, es).Now() < deadline <= w.Now() + PeriodOf(c, m)
    requires !EarlyTrigger(w, spent, m, deadline)
    ensures w.committed <= Exec(c, w, es).committed && KeyOf(m) !in Exec(c, w, es).committed[|w.committed|..]
    decreases |es|
  {
    if es != [] {
      var v := Apply(c, w, es[0]);
      SparesRest(es, spent);
      hide Spares;
      StepKeepsInv(c, w, es[0]);
      StepKeepsBox(c, w, es[0]);
      StepCommits(c, w, es[0], m);
      hide Enabled, Apply;
      TimeGoesOn(c, v, es[1..]);
      StepStaysAway(c, w, es[0], spent, m, deadline);
      hide Inv, EarlyTrigger, KeyOf, PeriodOf;
      NothingMoves(c, v, es[1..], spent, m, deadline);
      CommitsCompose(w.committed, v.committed, Exec(c, w, es).committed, KeyOf(m));
    }
  }

  lemma SparesRest(es: seq<Event>, spent: set<Job>)
    requires es != [] && Spares(es, spent)
    ensures Spares([es[0]], spent) && Spares(es[1..], spent)
  {
    forall i | 0 <= i < |es[1..]| ensures JobOf(es[1..][i]).Some? ==> JobOf(es[1..][i]).value !in spent {
      assert es[1..][i] == es[i + 1];
    }
  }

  lemma CommitsCompose(a: seq<S.TransitionKey>, b: seq<S.TransitionKey>, d: seq<S.TransitionKey>, key: S.TransitionKey)
    requires a <= b <= d && key !in b[|a|..] && key !in d[|b|..]
    ensures a <= d && key !in d[|a|..]
  {
    forall i | |a| <= i < |d| ensures d[i] != key {
      if i < |b| { assert b[i] == b[|a|..][i - |a|] && d[i] == b[i]; } else { assert d[i] == d[|b|..][i - |b|]; }
    }
  }

  // ---------- with one, something does ----------

  function Relayed(es: seq<O.Event<Job>>): (r: seq<Event>)
    ensures |r| == |es|
  {
    seq(|es|, i requires 0 <= i < |es| => Relay(es[i]))
  }

  lemma {:induction false} RelayRuns(c: Config, w: World, es: seq<O.Event<Job>>)
    requires O.Runnable(w.box, es) && OnlyRelays(es)
    ensures (forall spent :: Spares(Relayed(es), spent))
    ensures Runnable(c, w, Relayed(es)) && Exec(c, w, Relayed(es)) == w.(box := O.Exec(w.box, es))
    decreases |es|
  {
    if es != [] {
      var v := w.(box := O.Apply(w.box, es[0]));
      assert OnlyRelays(es[1..]) by {
        forall i | 0 <= i < |es[1..]| ensures !es[1..][i].Put? { assert es[1..][i] == es[i + 1]; }
      }
      assert Enabled(w, Relay(es[0])) && Apply(c, w, Relay(es[0])) == v;
      hide O.Enabled, O.Apply, Enabled, Apply;
      RelayRuns(c, v, es[1..]);
      assert Relayed(es)[1..] == Relayed(es[1..]);
    }
  }

  /** The handler of a move finds the state it wants and commits. */
  lemma HandlerCommits(c: Config, w: World, m: Move, t: nat) returns (e: Event)
    requires S.Coupled(w.row) && w.row.state == StateBefore(m) && t in w.tasks && AtWork(m, w.tasks[t])
    ensures JobOf(e).None? && Enabled(w, e) && Apply(c, w, e).committed == w.committed + [KeyOf(m)] && Apply(c, w, e).Now() == w.Now()
  {
    if m.Miss? {
      e := MissCommit(t);
    } else {
      e := ReleaseCommit(t, []);
    }
  }

  lemma JobStartsHandler(c: Config, w: World, m: Move, job: Job, t: nat) returns (e: Event)
    requires w.row.state == StateBefore(m) && t !in w.tasks && Triggers(m, job) && w.InQueue(job)
    ensures JobOf(e) == Some(job) && Enabled(w, e)
    ensures var v := Apply(c, w, e);
      v.row == w.row && v.committed == w.committed && v.Now() == w.Now() && t in v.tasks && AtWork(m, v.tasks[t])
  {
    if m.Miss? {
      e := DueDelivered(t, job.dueAt);
    } else {
      e := GraceDelivered(t, job.stamp);
    }
  }

  lemma QueuedJobMoves(c: Config, w: World, m: Move, job: Job) returns (es: seq<Event>)
    requires S.Coupled(w.row) && w.row.state == StateBefore(m) && Triggers(m, job) && w.InQueue(job)
    ensures forall spent | job !in spent :: Spares(es, spent)
    ensures Runnable(c, w, es) && Exec(c, w, es).committed == w.committed + [KeyOf(m)] && Exec(c, w, es).Now() == w.Now()
  {
    var t := AboveKeys(w.tasks.Keys);
    var start := JobStartsHandler(c, w, m, job, t);
    var commit := HandlerCommits(c, Apply(c, w, start), m, t);
    hide Enabled, Apply;
    es := [start, commit];
    TwoEvents(c, w, start, commit);
  }

  lemma HandlerMovesBy(c: Config, w: World, spent: set<Job>, m: Move, t: nat, deadline: nat)
    requires S.Coupled(w.row) && w.row.state == StateBefore(m) && w.Now() < deadline && t in w.tasks && AtWork(m, w.tasks[t])
    ensures MayMoveBy(c, w, spent, m, deadline)
  {
    var e := HandlerCommits(c, w, m, t);
    hide Enabled, Apply, KeyOf, AtWork, StateBefore;
    ExecAppend(c, w, [], e);
    assert [] + [e] == [e];
    assert MovesBy(c, w, [e], spent, m, deadline);
  }

  lemma ArrivalMovesBy(c: Config, w: World, spent: set<Job>, m: Move, job: Job, deadline: nat)
    requires S.Coupled(w.row) && w.row.state == StateBefore(m) && w.Now() < deadline
    requires job !in spent && Triggers(m, job) && CanArrive(w.box, job, deadline)
    ensures MayMoveBy(c, w, spent, m, deadline)
  {
    var bs := Arrives(w.box, job, deadline);
    RelayRuns(c, w, bs);
    var v := Exec(c, w, Relayed(bs));
    var fs := QueuedJobMoves(c, v, m, job);
    hide Enabled, Apply, Relayed, CanArrive, KeyOf, StateBefore, Triggers;
    ExecConcat(c, w, Relayed(bs), fs);
    assert MovesBy(c, w, Relayed(bs) + fs, spent, m, deadline);
  }

  lemma TriggerMoves(c: Config, w: World, spent: set<Job>, m: Move, deadline: nat)
    requires S.Coupled(w.row) && w.row.state == StateBefore(m) && w.Now() < deadline && EarlyTrigger(w, spent, m, deadline)
    ensures MayMoveBy(c, w, spent, m, deadline)
  {
    hide MayMoveBy, CanArrive, Triggers, AtWork, StateBefore;
    if t :| t in w.tasks && AtWork(m, w.tasks[t]) {
      HandlerMovesBy(c, w, spent, m, t, deadline);
    } else {
      var job :| job !in spent && Triggers(m, job) && CanArrive(w.box, job, deadline);
      ArrivalMovesBy(c, w, spent, m, job, deadline);
    }
  }

  // ---------- exactly ----------

  lemma MovesEarlyIff(c: Config, w: World, spent: set<Job>, m: Move, deadline: nat)
    requires Inv(c, w) && w.row.state == StateBefore(m) && deadline <= w.Now() + PeriodOf(c, m)
    ensures MayMoveBy(c, w, spent, m, deadline) <==> w.Now() < deadline && EarlyTrigger(w, spent, m, deadline)
  {
    assert S.Coupled(w.row);
    hide Inv, EarlyTrigger;
    if w.Now() < deadline && EarlyTrigger(w, spent, m, deadline) { TriggerMoves(c, w, spent, m, deadline); }
    forall es | MovesBy(c, w, es, spent, m, deadline) ensures w.Now() < deadline && EarlyTrigger(w, spent, m, deadline) {
      TimeGoesOn(c, w, es);
      if !EarlyTrigger(w, spent, m, deadline) { NothingMoves(c, w, es, spent, m, deadline); }
    }
  }

  /** `w` is what event `e` leaves after a run from a fresh draft. */
  ghost predicate Follows(c: Config, now: nat, es: seq<Event>, e: Event, w: World) {
    Runnable(c, NewWorld(now), es) && Enabled(Exec(c, NewWorld(now), es), e) && w == Apply(c, Exec(c, NewWorld(now), es), e)
  }

  lemma FollowsInv(c: Config, now: nat, es: seq<Event>, e: Event, w: World)
    requires Follows(c, now, es, e, w)
    ensures Inv(c, w)
  {
    NewWorldSound(c, now);
    hide Inv, Enabled, Apply;
    RunKeepsInv(c, NewWorld(now), es);
    StepKeepsInv(c, Exec(c, NewWorld(now), es), e);
  }

  /**
   A check-in that leaves the scenario armed is followed in some run by a miss before its
   own interval is over exactly when a miss is being handled as it commits, or a due job
   from before can still reach the queue within the interval.
   */
  lemma CheckinPostponesIff(c: Config, now: nat, es: seq<Event>, t: nat, w: World, spent: set<Job>)
    requires Follows(c, now, es, CheckinCommit(t), w) && w.row.state == S.Armed
    ensures MayMoveBy(c, w, spent, Miss, w.Now() + c.interval)
      <==> c.interval > 0 && EarlyTrigger(w, spent, Miss, w.Now() + c.interval)
  {
    hide Inv, MayMoveBy, EarlyTrigger, Follows;
    FollowsInv(c, now, es, CheckinCommit(t), w);
    MovesEarlyIff(c, w, spent, Miss, w.Now() + c.interval);
  }

  /**
   After grace is entered, some run releases before a full grace period has passed exactly
   when a release is being handled, or the expiry job of an earlier grace period can
   still reach the queue within it.
   */
  lemma GraceIsWaitedOutIff(c: Config, now: nat, es: seq<Event>, t: nat, w: World, spent: set<Job>)
    requires Follows(c, now, es, StepFinish(t), w) && w.row.state == S.GracePeriod
    ensures MayMoveBy(c, w, spent, Enter, w.Now() + c.grace) <==> c.grace > 0 && EarlyTrigger(w, spent, Enter, w.Now() + c.grace)
  {
    hide Inv, MayMoveBy, EarlyTrigger, Follows;
    FollowsInv(c, now, es, StepFinish(t), w);
    MovesEarlyIff(c, w, spent, Enter, w.Now() + c.grace);
  }

  /** The job of an early move was committed for a time before the deadline: it is not the latest one's. */
  lemma EarlyTriggerWasPromised(c: Config, w: World, spent: set<Job>, m: Move, deadline: nat)
    requires Inv(c, w) && w.Now() < deadline && EarlyTrigger(w, spent, m, deadline)
    ensures || (exists t :: t in w.tasks && AtWork(m, w.tasks[t]))
            || (exists p :: p in w.box.promises && p.job !in spent && Triggers(m, p.job) && p.at < deadline)
  {
    if !exists t :: t in w.tasks && AtWork(m, w.tasks[t]) {
      var job :| job !in spent && Triggers(m, job) && CanArrive(w.box, job, deadline);
      ArrivalWasPromised(w.box, job, deadline);
    }
  }
}
