/** What holds over every run of the ladder, whatever stale jobs, check-ins and crashes occur. */
module LadderSafety {
  import opened Basics
  import opened Ladder
  import O = Outbox
  import S = ScenarioStates

  // ---------- the row and its history ----------

  ghost predicate HistorySound(w: World) {
    && S.Path(S.Draft, w.committed)
    && S.StateAfter(S.Draft, w.committed) == w.row.state
    && S.Coupled(w.row)
    && (w.row.state == S.Draft <==> w.row.armedAt.None?)
  }

  lemma MoveKeepsHistory(w: World, key: S.TransitionKey, extra: S.Extra)
    requires HistorySound(w) && w.Move(key, extra).Some?
    requires key == S.Arm ==> extra.armedAt.Some?
    requires key != S.Arm ==> extra.armedAt.None?
    ensures HistorySound(w.Move(key, extra).value)
    ensures key != S.Arm ==> w.Move(key, extra).value.row.armedAt == w.row.armedAt && w.row.armedAt.Some?
  {
    S.PathExtend(S.Draft, w.committed, key);
  }

  lemma PutActionsOnlyPuts(w: World, actions: seq<nat>)
    ensures var v := PutActions(w, actions);
      v.row == w.row && v.committed == w.committed && v.tasks == w.tasks
      && v.releases == w.releases && v.enteredRelease == w.enteredRelease && v.Now() == w.Now()
    decreases |actions|
  {
    if actions != [] { PutActionsOnlyPuts(w.Put(Execute(actions[0]), 0), actions[1..]); }
  }

  /** `armedAt` is written by the arming commit alone. */
  ghost predicate HistoryStep(w: World, e: Event, w': World) {
    && HistorySound(w')
    && (w.row.armedAt.Some? ==> w'.row.armedAt == w.row.armedAt)
    && (w.row.armedAt.None? && w'.row.armedAt.Some? ==>
      e.ArmCommit? && e.t in w.tasks && w.tasks[e.t].Arming? && w'.row.armedAt == Some(w.tasks[e.t].armedAt))
  }

  lemma LadderKeepsHistory(c: Config, w: World, e: Event)
    requires HistorySound(w) && Enabled(w, e) && (e.MissCommit? || e.StepBegin? || e.StepFinish? || e.Elsewhere?)
    ensures HistoryStep(w, e, Apply(c, w, e))
  {
    var key := match e
      case MissCommit(_) => S.MissCheckin
      case StepBegin(_) => S.BeginEscalation
      case StepFinish(_) => S.BeginGrace
      case Elsewhere(key) => key;
    var extra := if key == S.CompleteRelease then S.Extra(None, Some(w.Now()), None)
                 else S.Extra(None, None, if key == S.AdminKillswitch then Some(w.Now()) else None);
    if w.Move(key, extra).Some? { MoveKeepsHistory(w, key, extra); }
  }

  lemma UserKeepsHistory(c: Config, w: World, e: Event)
    requires HistorySound(w) && Enabled(w, e) && (e.ArmCommit? || e.CheckinCommit? || e.LeaveCommit?)
    requires e.LeaveCommit? ==> w.tasks[e.t].key != S.Arm
    ensures HistoryStep(w, e, Apply(c, w, e))
  {
    match e
    case ArmCommit(t) =>
      var extra := S.Extra(Some(w.tasks[t].armedAt), None, None);
      if w.Move(S.Arm, extra).Some? { MoveKeepsHistory(w, S.Arm, extra); }
    case CheckinCommit(t) =>
      var key := RecoveryKey(w.tasks[t].seen);
      if key.Some? && w.Move(key.value, S.NO_EXTRA).Some? { MoveKeepsHistory(w, key.value, S.NO_EXTRA); }
    case LeaveCommit(t) =>
      var extra := S.Extra(None, None, Some(w.Now()));
      if w.Move(w.tasks[t].key, extra).Some? { MoveKeepsHistory(w, w.tasks[t].key, extra); }
  }

  /** The world a release commit starts its fan-out from. */
  function Entered(w: World, actions: seq<nat>): Option<World> {
    var moved := w.Move(S.BeginRelease, S.NO_EXTRA);
    if moved.None? then None
    else Some(moved.value.(
      releases := w.releases + [Release(set a | a in actions)], enteredRelease := Some(w.Now())))
  }

  lemma ReleaseKeepsHistory(c: Config, w: World, e: Event)
    requires HistorySound(w) && Enabled(w, e) && e.ReleaseCommit?
    ensures HistoryStep(w, e, Apply(c, w, e))
  {
    var entered := Entered(w, e.actions);
    if entered.Some? {
      MoveKeepsHistory(w, S.BeginRelease, S.NO_EXTRA);
      PutActionsOnlyPuts(entered.value, e.actions);
    }
  }

  lemma OthersKeepHistory(c: Config, w: World, e: Event)
    requires HistorySound(w) && Enabled(w, e)
    requires e.ArmRead? || e.CheckinRead? || e.DueDelivered? || e.StepDelivered? || e.GraceDelivered?
             || e.LeaveRead? || e.Drop? || e.Relay?
    ensures HistoryStep(w, e, Apply(c, w, e))
  {}

  ghost predicate TasksLeave(w: World) {
    forall t :: t in w.tasks && w.tasks[t].Leaving? ==> w.tasks[t].key in {S.DisarmArmed, S.DisarmEscalation, S.AbortGrace}
  }

  lemma StepKeepsHistory(c: Config, w: World, e: Event)
    requires HistorySound(w) && TasksLeave(w) && Enabled(w, e)
    ensures HistoryStep(w, e, Apply(c, w, e))
  {
    match e
    case MissCommit(_) | StepBegin(_) | StepFinish(_) | Elsewhere(_) => LadderKeepsHistory(c, w, e);
    case ArmCommit(_) | CheckinCommit(_) | LeaveCommit(_) => UserKeepsHistory(c, w, e);
    case ReleaseCommit(_, _) => ReleaseKeepsHistory(c, w, e);
    case _ => OthersKeepHistory(c, w, e);
  }

  /** Tasks only come from reads, or move on within their own handler. */
  lemma TasksMove(c: Config, w: World, e: Event, t: nat)
    requires Enabled(w, e) && t in Apply(c, w, e).tasks
    ensures || (t in w.tasks && Apply(c, w, e).tasks[t] == w.tasks[t])
            || (!e.ReleaseCommit? && !e.Relay? && !e.Elsewhere? && e.t == t)
  {
    if e.ReleaseCommit? && Entered(w, e.actions).Some? { PutActionsOnlyPuts(Entered(w, e.actions).value, e.actions); }
  }

  lemma StepKeepsLeaving(c: Config, w: World, e: Event)
    requires TasksLeave(w) && Enabled(w, e)
    ensures TasksLeave(Apply(c, w, e))
  {
    forall t | t in Apply(c, w, e).tasks { TasksMove(c, w, e, t); }
  }

  // ---------- the outbox inside ----------

  /** What a fan-out may have added to the outbox: nothing is taken back. */
  ghost predicate FansOut(w: World, v: World, actions: seq<nat>) {
    && O.Inv(v.box) && w.box.promises <= v.box.promises
    && (forall p :: p in v.box.promises && p !in w.box.promises ==> p.at == w.Now() && p.job.Execute? && p.job.action in actions)
    && (forall a :: a in actions ==> exists p :: p in v.box.promises && p.job == Execute(a))
  }

  lemma PutOne(w: World, a: nat)
    requires O.Inv(w.box)
    ensures FansOut(w, w.Put(Execute(a), 0), [a])
  {
    O.StepKeepsInv(w.box, O.Put(Execute(a), true, 0));
    PutIsPromised(w.box, Execute(a), true, 0);
    hide O.Inv;
  }

  lemma FansOutComposes(w: World, v: World, u: World, a: nat, actions: seq<nat>)
    requires FansOut(w, v, [a]) && FansOut(v, u, actions) && v.Now() == w.Now()
    ensures FansOut(w, u, [a] + actions)
  {
    hide O.Inv;
    forall b | b in [a] + actions ensures exists p :: p in u.box.promises && p.job == Execute(b) {
      if b == a {
        assert b in [a];
        var p :| p in v.box.promises && p.job == Execute(b);
        assert p in u.box.promises;
      }
    }
  }

  lemma {:induction false} PutActionsFansOut(w: World, actions: seq<nat>)
    requires O.Inv(w.box)
    ensures FansOut(w, PutActions(w, actions), actions)
    decreases |actions|
  {
    if actions != [] {
      var v := w.Put(Execute(actions[0]), 0);
      PutOne(w, actions[0]);
      PutActionsFansOut(v, actions[1..]);
      FansOutComposes(w, v, PutActions(v, actions[1..]), actions[0], actions[1..]);
      assert actions == [actions[0]] + actions[1..];
    }
  }

  lemma PutActionsKeepsBox(w: World, actions: seq<nat>)
    requires O.Inv(w.box)
    ensures O.Inv(PutActions(w, actions).box)
    ensures w.box.promises <= PutActions(w, actions).box.promises
    ensures forall p :: p in PutActions(w, actions).box.promises && p !in w.box.promises ==>
      p.at == w.Now() && p.job.Execute? && p.job.action in actions
    ensures forall a :: a in actions ==> exists p :: p in PutActions(w, actions).box.promises && p.job == Execute(a)
  {
    PutActionsFansOut(w, actions);
    hide O.Inv, PutActions;
  }

  lemma PutIsPromised(b: O.Box<Job>, job: Job, gated: bool, delayMs: nat)
    requires O.Inv(b)
    ensures exists p :: p in b.Enqueue(job, gated, delayMs).promises && p.job == job
    ensures b.Enqueue(job, gated, delayMs).promises <= b.promises + {O.Promise(job, b.now + delayMs)}
    ensures b.promises <= b.Enqueue(job, gated, delayMs).promises
  {
    if b.HasRow(job) {
      var id :| id in b.rows && b.rows[id].job == job;
      assert O.Promise(job, b.rows[id].original) in b.promises;
    } else {
      assert O.Promise(job, b.now + delayMs) in b.Enqueue(job, gated, delayMs).promises;
    }
  }

  /** The outbox of a step's result, in one of four shapes. */
  lemma BoxMoves(c: Config, w: World, e: Event)
    requires Enabled(w, e) && !e.ReleaseCommit?
    ensures var b := Apply(c, w, e).box;
      || b == w.box
      || (e.Relay? && b == O.Apply(w.box, e.e))
      || (!e.Relay? && exists job, delayMs :: b == w.box.Enqueue(job, false, delayMs))
  {}

  lemma StepKeepsBox(c: Config, w: World, e: Event)
    requires O.Inv(w.box) && Enabled(w, e)
    ensures O.Inv(Apply(c, w, e).box) && w.box.promises <= Apply(c, w, e).box.promises
    ensures w.Now() <= Apply(c, w, e).Now()
    ensures !e.Relay? ==> w.Now() == Apply(c, w, e).Now()
  {
    hide O.Inv;
    if e.ReleaseCommit? {
      if Entered(w, e.actions).Some? {
        PutActionsKeepsBox(Entered(w, e.actions).value, e.actions);
        PutActionsOnlyPuts(Entered(w, e.actions).value, e.actions);
      }
    } else {
      BoxMoves(c, w, e);
      var b := Apply(c, w, e).box;
      if e.Relay? {
        O.StepKeepsInv(w.box, e.e);
      } else if b != w.box {
        var job, delayMs :| b == w.box.Enqueue(job, false, delayMs);
        O.StepKeepsInv(w.box, O.Put(job, false, delayMs));
      }
    }
  }

  // ---------- timing ----------

  predicate JobTimed(c: Config, armedAt: nat, p: O.Promise<Job>) {
    Floor(c, armedAt, p.job) <= p.at && (p.job.RunStep? ==> IndexFits(c, p.job.index))
  }

  predicate TaskTimed(c: Config, armedAt: nat, now: nat, task: Task) {
    && TaskFloor(c, armedAt, task) <= now
    && (task.Stepping? || task.Stepped? ==> IndexFits(c, task.index))
  }

  ghost predicate Timed(c: Config, w: World) {
    && (forall t :: t in w.tasks && w.tasks[t].Arming? ==> w.tasks[t].armedAt <= w.Now())
    && (w.row.armedAt.None? ==>
      w.box.promises == {} && forall t :: t in w.tasks ==> w.tasks[t].Arming?)
    && (w.row.armedAt.Some? ==>
      && 0 <= w.row.armedAt.value <= w.Now()
      && (forall p :: p in w.box.promises ==> JobTimed(c, w.row.armedAt.value, p))
      && (forall t :: t in w.tasks ==> TaskTimed(c, w.row.armedAt.value, w.Now(), w.tasks[t])))
  }

  /** A job in the queue was promised, and its time has come. */
  lemma QueuedJobIsDue(c: Config, w: World, job: Job)
    requires O.Inv(w.box) && Timed(c, w) && w.InQueue(job)
    ensures w.row.armedAt.Some? && Floor(c, w.row.armedAt.value, job) <= w.Now()
    ensures job.RunStep? ==> IndexFits(c, job.index)
  {
    var i :| 0 <= i < |w.box.handed| && w.box.handed[i].job == job;
    var h := w.box.handed[i];
    assert O.Promise(h.job, h.original) in w.box.promises;
    assert JobTimed(c, w.row.armedAt.value, O.Promise(h.job, h.original));
  }

  lemma ClimbOneMore(c: Config, index: nat)
    requires index < |c.waits|
    ensures ClimbTo(c, index + 1) == ClimbTo(c, index) + c.waits[index]
  {
    assert c.waits[..index + 1][..index] == c.waits[..index];
  }

  lemma ReadTimed(c: Config, w: World, e: Event)
    requires HistorySound(w) && O.Inv(w.box) && Timed(c, w) && Enabled(w, e)
    requires e.ArmRead? || e.CheckinRead? || e.LeaveRead? || e.Drop?
    ensures Timed(c, Apply(c, w, e))
  {}

  lemma DeliveredTimed(c: Config, w: World, e: Event)
    requires HistorySound(w) && O.Inv(w.box) && Timed(c, w) && Enabled(w, e)
    requires e.DueDelivered? || e.StepDelivered? || e.GraceDelivered?
    ensures Timed(c, Apply(c, w, e))
  {
    var job := match e
      case DueDelivered(_, dueAt) => Due(dueAt)
      case StepDelivered(_, index, dueAt) => RunStep(index, dueAt)
      case GraceDelivered(_, stamp) => GraceExpiry(stamp);
    QueuedJobIsDue(c, w, job);
    hide O.Inv;
  }

  lemma MoveOnlyTimed(c: Config, w: World, e: Event)
    requires HistorySound(w) && TasksLeave(w) && Timed(c, w) && Enabled(w, e)
    requires e.StepBegin? || e.Elsewhere? || e.LeaveCommit?
    ensures Timed(c, Apply(c, w, e))
  {
    StepKeepsHistory(c, w, e);
    MoveOnlyMoves(c, w, e);
    assert w.row.armedAt.Some? || (e.Elsewhere? && Apply(c, w, e).row == w.row);
    hide JobTimed, HistorySound, TasksLeave, Apply, Enabled;
  }

  /** These leave the outbox alone, and at most end or advance their own handler. */
  lemma MoveOnlyMoves(c: Config, w: World, e: Event)
    requires HistorySound(w) && Timed(c, w) && Enabled(w, e) && (e.StepBegin? || e.Elsewhere? || e.LeaveCommit?)
    ensures var w' := Apply(c, w, e);
      && w'.box == w.box
      && (w.row.armedAt.None? ==> e.Elsewhere? && w' == w)
      && (w'.tasks == w.tasks
          || (!e.Elsewhere? && w'.tasks == w.tasks - {e.t})
          || (e.StepBegin? && e.t in w.tasks && w.tasks[e.t].Stepping?
              && w'.tasks == w.tasks[e.t := Stepped(w.tasks[e.t].index, w.tasks[e.t].dueAt)]))
  {}

  lemma ArmTimed(c: Config, w: World, t: nat)
    requires HistorySound(w) && TasksLeave(w) && O.Inv(w.box) && Timed(c, w) && Enabled(w, ArmCommit(t))
    ensures Timed(c, Apply(c, w, ArmCommit(t)))
  {
    StepKeepsHistory(c, w, ArmCommit(t));
    PutIsPromised(w.box, Due(w.tasks[t].dueAt), false, c.interval);
  }

  /** A handler ends having promised at most one job, which carries its share of the bound. */
  lemma OnePromiseTimed(c: Config, w: World, w': World, t: nat, p: O.Promise<Job>)
    requires Timed(c, w) && w.row.armedAt.Some? && w'.row.armedAt == w.row.armedAt && w'.Now() == w.Now()
    requires w'.tasks == w.tasks - {t} && w'.box.promises <= w.box.promises + {p}
    requires JobTimed(c, w.row.armedAt.value, p)
    ensures Timed(c, w')
  {
    hide JobTimed, TaskTimed;
  }

  lemma CheckinTimed(c: Config, w: World, t: nat)
    requires HistorySound(w) && TasksLeave(w) && O.Inv(w.box) && Timed(c, w) && Enabled(w, CheckinCommit(t))
    ensures Timed(c, Apply(c, w, CheckinCommit(t)))
  {
    var p := O.Promise(Due(w.tasks[t].dueAt), w.Now() + c.interval);
    assert w.row.armedAt.Some? && JobTimed(c, w.row.armedAt.value, p);
    CheckinPromises(c, w, t);
    StepKeepsHistory(c, w, CheckinCommit(t));
    hide Timed, HistorySound, TasksLeave, O.Inv, Apply, Enabled;
    OnePromiseTimed(c, w, Apply(c, w, CheckinCommit(t)), t, p);
  }

  /** A commit that puts aside one job at most, and is then done. */
  ghost predicate Promises(w: World, w': World, t: nat, p: O.Promise<Job>) {
    w'.tasks == w.tasks - {t} && w'.box.promises <= w.box.promises + {p} && w'.Now() == w.Now()
  }

  lemma CheckinPromises(c: Config, w: World, t: nat)
    requires O.Inv(w.box) && Enabled(w, CheckinCommit(t))
    ensures Promises(w, Apply(c, w, CheckinCommit(t)), t, O.Promise(Due(w.tasks[t].dueAt), w.Now() + c.interval))
  {
    PutIsPromised(w.box, Due(w.tasks[t].dueAt), false, c.interval);
    hide O.Inv, O.Box.Enqueue;
  }

  lemma MissPromises(c: Config, w: World, t: nat)
    requires O.Inv(w.box) && Enabled(w, MissCommit(t))
    ensures Promises(w, Apply(c, w, MissCommit(t)), t, O.Promise(RunStep(0, w.tasks[t].dueAt), w.Now()))
  {
    PutIsPromised(w.box, RunStep(0, w.tasks[t].dueAt), false, 0);
    hide O.Inv, O.Box.Enqueue;
  }

  lemma NextStepPromises(c: Config, w: World, t: nat)
    requires O.Inv(w.box) && Enabled(w, StepFinish(t)) && w.tasks[t].index + 1 < |c.waits|
    ensures Promises(w, Apply(c, w, StepFinish(t)), t, FinishPromise(c, w, w.tasks[t].index, w.tasks[t].dueAt))
  {
    PutIsPromised(w.box, RunStep(w.tasks[t].index + 1, w.tasks[t].dueAt), false, c.waits[w.tasks[t].index]);
    hide O.Inv, O.Box.Enqueue;
  }

  lemma GracePromises(c: Config, w: World, t: nat)
    requires O.Inv(w.box) && Enabled(w, StepFinish(t)) && w.tasks[t].index + 1 >= |c.waits|
    ensures Promises(w, Apply(c, w, StepFinish(t)), t, FinishPromise(c, w, w.tasks[t].index, w.tasks[t].dueAt))
  {
    PutIsPromised(w.box, GraceExpiry(w.Now()), false, c.grace);
    hide O.Inv, O.Box.Enqueue;
  }

  lemma FinishPromises(c: Config, w: World, t: nat)
    requires O.Inv(w.box) && Enabled(w, StepFinish(t))
    ensures Promises(w, Apply(c, w, StepFinish(t)), t, FinishPromise(c, w, w.tasks[t].index, w.tasks[t].dueAt))
  {
    var index := w.tasks[t].index;
    hide O.Inv, Apply, Promises, FinishPromise;
    if index + 1 < |c.waits| { NextStepPromises(c, w, t); } else { GracePromises(c, w, t); }
  }

  /** What the end of step `index` promises: the next step, or the end of the grace period. */
  function FinishPromise(c: Config, w: World, index: nat, dueAt: nat): (p: O.Promise<Job>)
    ensures p.at >= w.Now()
  {
    if index + 1 < |c.waits| then O.Promise(RunStep(index + 1, dueAt), w.Now() + c.waits[index])
    else O.Promise(GraceExpiry(w.Now()), w.Now() + c.grace)
  }

  lemma MissTimed(c: Config, w: World, t: nat)
    requires HistorySound(w) && TasksLeave(w) && O.Inv(w.box) && Timed(c, w) && Enabled(w, MissCommit(t))
    ensures Timed(c, Apply(c, w, MissCommit(t)))
  {
    var p := O.Promise(RunStep(0, w.tasks[t].dueAt), w.Now());
    assert c.waits[..0] == [];
    assert w.row.armedAt.Some? && TaskTimed(c, w.row.armedAt.value, w.Now(), w.tasks[t]);
    MissPromises(c, w, t);
    StepKeepsHistory(c, w, MissCommit(t));
    hide Timed, HistorySound, TasksLeave, O.Inv, Apply, Enabled;
    OnePromiseTimed(c, w, Apply(c, w, MissCommit(t)), t, p);
  }

  lemma FinishPromiseTimed(c: Config, w: World, armedAt: nat, index: nat, dueAt: nat)
    requires IndexFits(c, index) && armedAt + c.interval + ClimbTo(c, index) <= w.Now()
    ensures JobTimed(c, armedAt, FinishPromise(c, w, index, dueAt))
  {
    if index + 1 < |c.waits| {
      ClimbOneMore(c, index);
    } else {
      assert c.waits == [] ==> c.waits[..0] == [];
    }
  }

  lemma FinishTimed(c: Config, w: World, t: nat)
    requires HistorySound(w) && TasksLeave(w) && O.Inv(w.box) && Timed(c, w) && Enabled(w, StepFinish(t))
    ensures Timed(c, Apply(c, w, StepFinish(t)))
  {
    var index, dueAt := w.tasks[t].index, w.tasks[t].dueAt;
    var p := FinishPromise(c, w, index, dueAt);
    assert w.row.armedAt.Some? && TaskTimed(c, w.row.armedAt.value, w.Now(), w.tasks[t]);
    FinishPromiseTimed(c, w, w.row.armedAt.value, index, dueAt);
    FinishPromises(c, w, t);
    StepKeepsHistory(c, w, StepFinish(t));
    hide Timed, HistorySound, TasksLeave, O.Inv, Apply, Enabled;
    OnePromiseTimed(c, w, Apply(c, w, StepFinish(t)), t, p);
  }

  /** A fan-out promises jobs for now, which is late enough. */
  lemma FanOutTimed(c: Config, w: World, w': World, t: nat)
    requires Timed(c, w) && w.row.armedAt.Some? && w'.row.armedAt == w.row.armedAt && w'.Now() == w.Now()
    requires t in w.tasks && w.tasks[t].Releasing? && w'.tasks == w.tasks - {t}
    requires forall p :: p in w'.box.promises && p !in w.box.promises ==> p.at == w.Now() && p.job.Execute?
    ensures Timed(c, w')
  {
    assert TaskTimed(c, w.row.armedAt.value, w.Now(), w.tasks[t]);
  }

  lemma ReleaseTimed(c: Config, w: World, e: Event)
    requires HistorySound(w) && TasksLeave(w) && O.Inv(w.box) && Timed(c, w) && Enabled(w, e) && e.ReleaseCommit?
    ensures Timed(c, Apply(c, w, e))
  {
    StepKeepsHistory(c, w, e);
    assert w.row.armedAt.Some?;
    if Entered(w, e.actions).Some? {
      PutActionsKeepsBox(Entered(w, e.actions).value, e.actions);
      PutActionsOnlyPuts(Entered(w, e.actions).value, e.actions);
      hide Timed, HistorySound, TasksLeave, O.Inv, PutActions;
      FanOutTimed(c, w, Apply(c, w, e), e.t);
    }
  }

  lemma RelayTimed(c: Config, w: World, e: Event)
    requires Timed(c, w) && Enabled(w, e) && e.Relay?
    ensures Timed(c, Apply(c, w, e))
  {
    assert O.Apply(w.box, e.e).promises == w.box.promises;
  }

  lemma StepKeepsTiming(c: Config, w: World, e: Event)
    requires HistorySound(w) && TasksLeave(w) && O.Inv(w.box) && Timed(c, w) && Enabled(w, e)
    ensures Timed(c, Apply(c, w, e))
  {
    hide Timed, O.Inv, HistorySound, TasksLeave;
    match e
    case ArmCommit(t) => ArmTimed(c, w, t);
    case CheckinCommit(t) => CheckinTimed(c, w, t);
    case MissCommit(t) => MissTimed(c, w, t);
    case StepFinish(t) => FinishTimed(c, w, t);
    case ReleaseCommit(_, _) => ReleaseTimed(c, w, e);
    case Relay(_) => RelayTimed(c, w, e);
    case StepBegin(_) | Elsewhere(_) | LeaveCommit(_) => MoveOnlyTimed(c, w, e);
    case DueDelivered(_, _) | StepDelivered(_, _, _) | GraceDelivered(_, _) => DeliveredTimed(c, w, e);
    case ArmRead(_) | CheckinRead(_) | LeaveRead(_) | Drop(_) => ReadTimed(c, w, e);
  }

  // ---------- the release itself ----------

  /** The release is entered in its time, once, with exactly one job per action. */
  ghost predicate EntrySound(c: Config, w: World) {
    && (w.enteredRelease.Some? ==>
      && w.row.armedAt.Some?
      && w.row.armedAt.value + c.interval + WholeClimb(c) + c.grace <= w.enteredRelease.value <= w.Now())
    && (w.enteredRelease.Some? <==> S.BeginRelease in w.committed)
    && |w.releases| == (if w.enteredRelease.Some? then 1 else 0)
    && (forall p :: p in w.box.promises && p.job.Execute? ==> w.releases != [] && p.job.action in w.releases[0].actions)
    && (w.releases != [] ==> forall a :: a in w.releases[0].actions ==>
      exists p :: p in w.box.promises && p.job == Execute(a))
  }

  lemma ReleaseOnce(w: World)
    requires HistorySound(w) && w.Move(S.BeginRelease, S.NO_EXTRA).Some?
    ensures S.BeginRelease !in w.committed
  {
    if S.BeginRelease in w.committed {
      var i :| 0 <= i < |w.committed| && w.committed[i] == S.BeginRelease;
      var keys := w.committed + [S.BeginRelease];
      S.PathExtend(S.Draft, w.committed, S.BeginRelease);
      assert keys[i] == S.BeginRelease && keys[|w.committed|] == S.BeginRelease;
      S.ReleaseAtMostOnce(keys, i, |w.committed|);
    }
  }

  lemma ReleaseEntrySound(c: Config, w: World, e: Event)
    requires HistorySound(w) && TasksLeave(w) && O.Inv(w.box) && Timed(c, w) && EntrySound(c, w)
    requires Enabled(w, e) && e.ReleaseCommit?
    ensures EntrySound(c, Apply(c, w, e))
  {
    var entered := Entered(w, e.actions);
    if entered.Some? {
      ReleaseOnce(w);
      MoveKeepsHistory(w, S.BeginRelease, S.NO_EXTRA);
      assert TaskTimed(c, w.row.armedAt.value, w.Now(), w.tasks[e.t]);
      PutActionsKeepsBox(entered.value, e.actions);
      PutActionsOnlyPuts(entered.value, e.actions);
      assert entered.value.committed == w.committed + [S.BeginRelease];
      hide O.Inv, Timed;
    }
  }

  /** No other event enters a release or promises a release job. */
  lemma OthersLeaveEntry(c: Config, w: World, e: Event)
    requires Enabled(w, e) && !e.ReleaseCommit? && TasksLeave(w)
    ensures var w' := Apply(c, w, e);
      && w'.enteredRelease == w.enteredRelease && w'.releases == w.releases
      && (S.BeginRelease in w'.committed <==> S.BeginRelease in w.committed)
      && (forall p :: p in w'.box.promises && p.job.Execute? ==> p in w.box.promises)
  {
    if e.Relay? { assert O.Apply(w.box, e.e).promises == w.box.promises; }
  }

  lemma StepKeepsEntry(c: Config, w: World, e: Event)
    requires HistorySound(w) && TasksLeave(w) && O.Inv(w.box) && Timed(c, w) && EntrySound(c, w) && Enabled(w, e)
    ensures EntrySound(c, Apply(c, w, e))
  {
    if e.ReleaseCommit? {
      ReleaseEntrySound(c, w, e);
    } else {
      OthersLeaveEntry(c, w, e);
      StepKeepsBox(c, w, e);
      StepKeepsHistory(c, w, e);
      hide O.Inv, Timed, HistorySound, TasksLeave;
    }
  }

  // ---------- together ----------

  ghost predicate Inv(c: Config, w: World) {
    HistorySound(w) && TasksLeave(w) && O.Inv(w.box) && Timed(c, w) && EntrySound(c, w)
  }

  lemma StepKeepsInv(c: Config, w: World, e: Event)
    requires Inv(c, w) && Enabled(w, e)
    ensures Inv(c, Apply(c, w, e))
  {
    hide HistorySound, TasksLeave, O.Inv, Timed, EntrySound;
    StepKeepsBox(c, w, e);
    StepKeepsHistory(c, w, e);
    StepKeepsLeaving(c, w, e);
    StepKeepsTiming(c, w, e);
    StepKeepsEntry(c, w, e);
  }

  lemma {:induction false} RunKeepsInv(c: Config, w: World, es: seq<Event>)
    requires Inv(c, w) && Runnable(c, w, es)
    ensures Inv(c, Exec(c, w, es))
    decreases |es|
  {
    hide Inv;
    if es != [] {
      StepKeepsInv(c, w, es[0]);
      RunKeepsInv(c, Apply(c, w, es[0]), es[1..]);
    }
  }

  lemma NewWorldSound(c: Config, now: nat)
    ensures Inv(c, NewWorld(now))
  {}

  /**
   A scenario never enters release earlier than its check-in interval, every wait of
   the ladder but the last, and its grace period after it was armed; and it enters at
   most once, creating one release with one queued job for each of its actions.
   */
  lemma NoEarlyRelease(c: Config, now: nat, es: seq<Event>)
    requires Runnable(c, NewWorld(now), es)
    ensures var w := Exec(c, NewWorld(now), es);
      w.enteredRelease.Some? ==>
        && w.row.armedAt.Some?
        && w.row.armedAt.value + c.interval + WholeClimb(c) + c.grace <= w.enteredRelease.value
    ensures EntrySound(c, Exec(c, NewWorld(now), es))
  {
    NewWorldSound(c, now);
    RunKeepsInv(c, NewWorld(now), es);
    assert EntrySound(c, Exec(c, NewWorld(now), es));
  }

  /** The shipped ladder alone takes fifty-five minutes. */
  lemma DefaultClimb(c: Config)
    requires c.waits == DEFAULT_WAITS
    ensures WholeClimb(c) == 3_300_000
  {
    ClimbOneMore(c, 0);
    ClimbOneMore(c, 1);
    ClimbOneMore(c, 2);
    assert c.waits[..0] == [];
  }

  /** Entries into release come straight off the whole ladder, and every committed row is coupled. */
  lemma EntryFollowsLadder(c: Config, now: nat, es: seq<Event>, i: nat)
    requires Runnable(c, NewWorld(now), es)
    requires i < |Exec(c, NewWorld(now), es).committed| && Exec(c, NewWorld(now), es).committed[i] == S.BeginRelease
    ensures 4 <= i
    ensures Exec(c, NewWorld(now), es).committed[i - 3..i] == [S.MissCheckin, S.BeginEscalation, S.BeginGrace]
    ensures S.Coupled(Exec(c, NewWorld(now), es).row)
  {
    NewWorldSound(c, now);
    RunKeepsInv(c, NewWorld(now), es);
    S.ReleaseOnlyAfterFullLadder(Exec(c, NewWorld(now), es).committed, i);
  }
}
