/**
 The scenario and escalation handlers as they are written: methods over the scenario
 row, the outbox and the release tables, with everybody else's steps let in between
 each handler's read and its commits. Each transaction is one step of the ladder.
 */
module EscalationService {
  import opened Basics
  import opened Ladder
  import L = LadderSafety
  import O = Outbox
  import S = ScenarioStates

  datatype Message = Message(id: nat, recipient: Option<nat>)

  datatype Bundle = Bundle(id: nat, messages: seq<Message>)

  /** The unique index of the action table. */
  datatype ActionKey = ActionKey(release: nat, bundle: nat, recipient: nat, message: nat)

  predicate ByTask(e: Event, t: nat) {
    !e.Elsewhere? && !e.Relay? && e.t == t
  }

  ghost predicate Linked(c: Config, states: seq<World>, trace: seq<Event>) {
    && |states| == |trace| + 1
    && forall i :: 0 <= i < |trace| ==> Enabled(states[i], trace[i]) && states[i + 1] == Apply(c, states[i], trace[i])
  }

  lemma {:induction false} LinkedIsRun(c: Config, states: seq<World>, trace: seq<Event>)
    requires Linked(c, states, trace)
    ensures Runnable(c, states[0], trace) && Exec(c, states[0], trace) == states[|trace|]
    decreases |trace|
  {
    hide Enabled, Apply;
    if trace != [] {
      assert states[0 + 1] == Apply(c, states[0], trace[0]);
      forall i | 0 <= i < |trace[1..]|
        ensures Enabled(states[1..][i], trace[1..][i]) && states[1..][i + 1] == Apply(c, states[1..][i], trace[1..][i])
      {
        assert states[1..][i] == states[i + 1] && trace[1..][i] == trace[i + 1];
      }
      LinkedIsRun(c, states[1..], trace[1..]);
    }
  }

  // ---------- the fan-out ----------

  /** One action per message that has a recipient. */
  ghost predicate Wanted(release: nat, bundles: seq<Bundle>, key: ActionKey) {
    && key.release == release
    && exists i, j ::
      && 0 <= i < |bundles| && 0 <= j < |bundles[i].messages|
      && bundles[i].id == key.bundle && bundles[i].messages[j] == Message(key.message, Some(key.recipient))
  }

  ghost predicate WantedOf(release: nat, b: Bundle, key: ActionKey) {
    && key.release == release && b.id == key.bundle
    && Message(key.message, Some(key.recipient)) in b.messages
  }

  lemma WantedAppend(release: nat, bundles: seq<Bundle>, b: Bundle, key: ActionKey)
    ensures Wanted(release, bundles + [b], key) <==> Wanted(release, bundles, key) || WantedOf(release, b, key)
  {
    var all := bundles + [b];
    if Wanted(release, bundles, key) {
      var i, j :| 0 <= i < |bundles| && 0 <= j < |bundles[i].messages|
        && bundles[i].id == key.bundle && bundles[i].messages[j] == Message(key.message, Some(key.recipient));
      assert all[i].messages[j] == Message(key.message, Some(key.recipient));
    }
    if WantedOf(release, b, key) {
      var j :| 0 <= j < |b.messages| && b.messages[j] == Message(key.message, Some(key.recipient));
      assert all[|bundles|].messages[j] == Message(key.message, Some(key.recipient));
    }
  }

  lemma {:induction false} PutActionsAppend(w: World, actions: seq<nat>, a: nat)
    ensures PutActions(w, actions + [a]) == PutActions(w, actions).Put(Execute(a), 0)
    decreases |actions|
  {
    if actions == [] {
      assert ([] + [a])[1..] == [];
    } else {
      assert (actions + [a])[1..] == actions[1..] + [a];
      PutActionsAppend(w.Put(Execute(actions[0]), 0), actions[1..], a);
    }
  }

  /** Distinct keys have distinct ids, and an id is used once. */
  ghost predicate IdsUnique(table: map<ActionKey, nat>, next: nat) {
    && (forall k :: k in table ==> table[k] < next)
    && (forall k, l :: k in table && l in table && table[k] == table[l] ==> k == l)
  }

  /** What the fan-out of `release` over `bundles` leaves behind, given the table it found. */
  ghost predicate FannedOut(before: map<ActionKey, nat>, after: map<ActionKey, nat>, ids: seq<nat>,
                            release: nat, bundles: seq<Bundle>) {
    && (forall k :: k in after <==> k in before || Wanted(release, bundles, k))
    && (forall k :: k in before ==> after[k] == before[k])
    && (forall a :: a in ids <==> exists k :: k in after && after[k] == a && Wanted(release, bundles, k))
  }

  /** The last bundle seen has one message more. */
  lemma OneMessageMore(release: nat, bundles: seq<Bundle>, id: nat, seen: seq<Message>, m: Message, key: ActionKey)
    ensures Wanted(release, bundles + [Bundle(id, seen + [m])], key)
      <==> Wanted(release, bundles + [Bundle(id, seen)], key)
           || (m.recipient.Some? && key == ActionKey(release, id, m.recipient.value, m.id))
  {
    WantedAppend(release, bundles, Bundle(id, seen + [m]), key);
    WantedAppend(release, bundles, Bundle(id, seen), key);
  }

  lemma NothingFannedOut(table: map<ActionKey, nat>, release: nat)
    ensures FannedOut(table, table, [], release, [])
  {}

  lemma NoMessageYet(before: map<ActionKey, nat>, after: map<ActionKey, nat>, ids: seq<nat>,
                     release: nat, bundles: seq<Bundle>, id: nat)
    requires FannedOut(before, after, ids, release, bundles)
    ensures FannedOut(before, after, ids, release, bundles + [Bundle(id, [])])
  {
    forall key
      ensures Wanted(release, bundles + [Bundle(id, [])], key) <==> Wanted(release, bundles, key)
    {
      WantedAppend(release, bundles, Bundle(id, []), key);
    }
    hide Wanted;
  }

  /** What one turn of the inner loop does to the table and the jobs. */
  lemma MessageFannedOut(before: map<ActionKey, nat>, after: map<ActionKey, nat>, ids: seq<nat>,
                         after': map<ActionKey, nat>, ids': seq<nat>, next: nat,
                         release: nat, bundles: seq<Bundle>, id: nat, seen: seq<Message>, m: Message)
    requires IdsUnique(after, next) && FannedOut(before, after, ids, release, bundles + [Bundle(id, seen)])
    requires m.recipient.None? ==> after' == after && ids' == ids
    requires m.recipient.Some? ==>
      var key := ActionKey(release, id, m.recipient.value, m.id);
      after' == (if key in after then after else after[key := next]) && ids' == ids + [after'[key]]
    ensures FannedOut(before, after', ids', release, bundles + [Bundle(id, seen + [m])])
  {
    forall key
      ensures Wanted(release, bundles + [Bundle(id, seen + [m])], key)
        <==> Wanted(release, bundles + [Bundle(id, seen)], key)
             || (m.recipient.Some? && key == ActionKey(release, id, m.recipient.value, m.id))
    {
      OneMessageMore(release, bundles, id, seen, m, key);
    }
    hide Wanted;
  }

  lemma PutHasRow(w: World, job: Job, delayMs: nat)
    ensures w.Put(job, delayMs).box.HasRow(job)
  {
    var box := w.box.Enqueue(job, job.Execute?, delayMs);
    if !w.box.HasRow(job) { assert box.rows[w.box.nextId].job == job; }
  }

  /** The fan-out touches the outbox and nothing else of the scenario. */
  lemma {:induction false} PutActionsIsBoxOnly(w: World, v: World, actions: seq<nat>)
    requires w.box == v.box
    ensures PutActions(w, actions) == w.(box := PutActions(v, actions).box)
    ensures PutActions(w, actions).Now() == w.Now()
    decreases |actions|
  {
    if actions != [] {
      PutActionsIsBoxOnly(w.Put(Execute(actions[0]), 0), v.Put(Execute(actions[0]), 0), actions[1..]);
    }
  }

  /** Creating the release row before or after its actions leaves the same rows. */
  lemma CommitIsFanOut(c: Config, w: World, moved: World, t: nat, ids: seq<nat>)
    requires Enabled(w, ReleaseCommit(t, ids)) && w.Move(S.BeginRelease, S.NO_EXTRA) == Some(moved)
    ensures var put := PutActions(moved, ids);
      Apply(c, w, ReleaseCommit(t, ids)) ==
      put.(releases := put.releases + [Release(set a | a in ids)], enteredRelease := Some(put.Now()), tasks := put.tasks - {t})
  {
    var entered := L.Entered(w, ids).value;
    PutActionsIsBoxOnly(entered, moved, ids);
    PutActionsIsBoxOnly(moved, moved, ids);
  }

  // ---------- what a commit leaves behind ----------

  /** Some transition besides arming leads from here to `armed`, or it is that already. */
  ghost predicate ComesBack(st: S.ScenarioState) {
    st == S.Armed || exists key :: key != S.Arm && st in S.From(key) && S.To(key) == S.Armed
  }

  /** Some transition besides the operators' kill switch ends the scenario as aborted. */
  ghost predicate MayLeave(st: S.ScenarioState) {
    exists key :: key != S.AdminKillswitch && st in S.From(key) && S.To(key) == S.Aborted
  }

  /** Of two states that one disarm key leaves, either will do at the commit. */
  ghost predicate SameLeave(seen: S.ScenarioState, met: S.ScenarioState) {
    exists key :: key != S.AdminKillswitch && seen in S.From(key) && met in S.From(key) && S.To(key) == S.Aborted
  }

  lemma ComesBackIff(st: S.ScenarioState)
    ensures ComesBack(st) <==> st in RECOVERABLE
    ensures ComesBack(st) <==>
      st == S.Armed || st == S.IncidentPending || st == S.EscalationInProgress || st == S.GracePeriod
    ensures RecoveryKey(st).Some? <==> ComesBack(st) && st != S.Armed
    ensures RecoveryKey(st).Some? ==>
      forall met :: met in S.From(RecoveryKey(st).value) <==> met == st
  {
    if st == S.IncidentPending { assert st in S.From(S.RecoverIncident); }
    if st == S.EscalationInProgress { assert st in S.From(S.RecoverEscalation); }
    if st == S.GracePeriod { assert st in S.From(S.RecoverGrace); }
  }

  lemma MayLeaveIff(st: S.ScenarioState, met: S.ScenarioState)
    ensures MayLeave(st) <==> LeavingKey(st).Some?
    ensures MayLeave(st) <==>
      st == S.Armed || st == S.IncidentPending || st == S.EscalationInProgress || st == S.GracePeriod
    ensures SameLeave(st, met) <==>
      MayLeave(st) && (met == st || {st, met} == {S.IncidentPending, S.EscalationInProgress})
    ensures LeavingKey(st).Some? ==> (SameLeave(st, met) <==> met in S.From(LeavingKey(st).value))
  {
    if st == S.Armed { assert st in S.From(S.DisarmArmed); }
    if st == S.IncidentPending || st == S.EscalationInProgress { assert st in S.From(S.DisarmEscalation); }
    if st == S.GracePeriod { assert st in S.From(S.AbortGrace); }
  }

  /** The outbox has a row for the job, new and due at `at` unless there was one. */
  ghost predicate Added(b: O.Box<Job>, b': O.Box<Job>, job: Job, at: nat) {
    if exists id :: id in b.rows && b.rows[id].job == job then b' == b
    else b'.rows == b.rows[b.nextId := O.Row(job, job.Execute?, at, at, None)]
  }

  lemma PutAdds(w: World, job: Job, delayMs: nat)
    ensures Added(w.box, w.Put(job, delayMs).box, job, w.Now() + delayMs)
  {}

  /** The next step is put off by this step's wait; after the last one an escalation enters grace. */
  ghost predicate StepFinished(c: Config, met: World, w: World, index: nat, dueAt: nat) {
    if index + 1 < |c.waits| then
      w.row == met.row && Added(met.box, w.box, Job.RunStep(index + 1, dueAt), met.Now() + c.waits[index])
    else if met.row.state == S.EscalationInProgress then
      w.row == met.row.(state := S.GracePeriod) && Added(met.box, w.box, GraceExpiry(met.Now()), met.Now() + c.grace)
    else w.row == met.row && w.box == met.box
  }

  /** An armed scenario becomes an incident whose first step is due at once; any other is left alone. */
  ghost predicate MissTried(met: World, w: World, dueAt: nat) {
    if met.row.state == S.Armed then
      w.row == met.row.(state := S.IncidentPending) && Added(met.box, w.box, Job.RunStep(0, dueAt), met.Now())
    else w.row == met.row && w.box == met.box
  }

  /** The row couples its state with its timestamps, and the outbox is sound. */
  ghost predicate Orderly(w: World) {
    S.Coupled(w.row) && O.Inv(w.box)
  }

  lemma StepKeepsOrder(c: Config, w: World, e: Event)
    requires Orderly(w) && Enabled(w, e)
    ensures Orderly(Apply(c, w, e))
  {
    L.StepKeepsBox(c, w, e);
    StepKeepsCoupled(c, w, e);
    hide Apply, Enabled;
  }

  lemma StepKeepsCoupled(c: Config, w: World, e: Event)
    requires S.Coupled(w.row) && Enabled(w, e)
    ensures S.Coupled(Apply(c, w, e).row)
  {
    if e.ReleaseCommit? && L.Entered(w, e.actions).Some? {
      L.PutActionsOnlyPuts(L.Entered(w, e.actions).value, e.actions);
    }
  }

  /** Which transitions of a coupled row are granted: those the table allows from its state. */
  lemma MovesIff(w: World, key: S.TransitionKey, extra: S.Extra)
    requires S.Coupled(w.row) && extra.releasedAt.None? && key != S.CompleteRelease
    requires key == S.Arm <==> extra.armedAt.Some?
    requires S.To(key) == S.Aborted <==> extra.abortedAt.Some?
    ensures w.Move(key, extra).Some? <==> w.row.state in S.From(key)
    ensures w.Move(key, extra).Some? ==>
      w.Move(key, extra).value ==
      w.(row := S.Row(S.To(key), S.OrElse(extra.armedAt, w.row.armedAt), w.row.releasedAt,
                      S.OrElse(extra.abortedAt, w.row.abortedAt)), committed := w.committed + [key])
  {}

  /**
   A check-in in a state that can come back finds its way to `armed` if nobody moves the
   row between its read and its commit, and then a due job is out for a full interval
   after the read.
   */
  lemma CheckinRecovers(c: Config, w: World, v: World, t: nat)
    requires S.Coupled(w.row) && t !in w.tasks && ComesBack(w.row.state)
    requires Enabled(w, CheckinRead(t)) ==> v.row == w.row && t in v.tasks && v.tasks[t] == Apply(c, w, CheckinRead(t)).tasks[t]
    ensures Enabled(w, CheckinRead(t)) && Enabled(v, CheckinCommit(t))
    ensures var u := Apply(c, v, CheckinCommit(t));
      u.row == w.row.(state := S.Armed) && Added(v.box, u.box, Due(w.Now() + c.interval), v.Now() + c.interval)
  {
    ComesBackIff(w.row.state);
    CheckinEvents(c, w, t);
    CheckinEvents(c, v, t);
    hide Enabled, Apply, O.Box.Enqueue, S.Attempt, ComesBack, Added;
    var key := RecoveryKey(w.row.state);
    if key.Some? {
      MovesIff(v, key.value, S.NO_EXTRA);
      PutAdds(v.Move(key.value, S.NO_EXTRA).value, Due(w.Now() + c.interval), c.interval);
    } else {
      PutAdds(v, Due(w.Now() + c.interval), c.interval);
    }
  }

  /** No check-in starts from any other state. */
  lemma NoCheckinElsewhere(w: World, t: nat)
    ensures !ComesBack(w.row.state) ==> !Enabled(w, CheckinRead(t))
  {
    ComesBackIff(w.row.state);
  }

  // ---------- what each event does ----------

  lemma ArmEvents(c: Config, w: World, t: nat)
    ensures t !in w.tasks ==>
      Enabled(w, ArmRead(t)) && Apply(c, w, ArmRead(t)) == w.Task(t, Arming(w.Now(), w.Now() + c.interval))
    ensures t in w.tasks && w.tasks[t].Arming? ==>
      var moved := w.Move(S.Arm, S.Extra(Some(w.tasks[t].armedAt), None, None));
      && Enabled(w, ArmCommit(t))
      && Apply(c, w, ArmCommit(t)) ==
         (if moved.None? then w.Done(t) else moved.value.Put(Due(w.tasks[t].dueAt), c.interval).Done(t))
  {}

  lemma CheckinEvents(c: Config, w: World, t: nat)
    ensures t !in w.tasks && w.row.state in RECOVERABLE ==>
      && Enabled(w, CheckinRead(t))
      && Apply(c, w, CheckinRead(t)) == w.Task(t, CheckingIn(w.row.state, w.Now() + c.interval))
    ensures t in w.tasks && w.tasks[t].CheckingIn? ==>
      var key := RecoveryKey(w.tasks[t].seen);
      var moved := if key.None? then Some(w) else w.Move(key.value, S.NO_EXTRA);
      && Enabled(w, CheckinCommit(t))
      && Apply(c, w, CheckinCommit(t)) ==
         (if moved.None? then w.Done(t) else moved.value.Put(Due(w.tasks[t].dueAt), c.interval).Done(t))
  {}

  lemma MissEvents(c: Config, w: World, t: nat, dueAt: nat)
    ensures t !in w.tasks && w.InQueue(Due(dueAt)) ==>
      && Enabled(w, DueDelivered(t, dueAt))
      && Apply(c, w, DueDelivered(t, dueAt)) == if w.row.state != S.Armed then w else w.Task(t, Missing(dueAt))
    ensures t in w.tasks && w.tasks[t].Missing? ==>
      var moved := w.Move(S.MissCheckin, S.NO_EXTRA);
      && Enabled(w, MissCommit(t))
      && Apply(c, w, MissCommit(t)) ==
         (if moved.None? then w.Done(t) else moved.value.Put(Job.RunStep(0, w.tasks[t].dueAt), 0).Done(t))
  {}

  lemma LeaveEvents(c: Config, w: World, t: nat)
    ensures t !in w.tasks && LeavingKey(w.row.state).Some? ==>
      && Enabled(w, LeaveRead(t))
      && Apply(c, w, LeaveRead(t)) == w.Task(t, Leaving(LeavingKey(w.row.state).value))
    ensures t in w.tasks && w.tasks[t].Leaving? ==>
      var moved := w.Move(w.tasks[t].key, S.Extra(None, None, Some(w.Now())));
      && Enabled(w, LeaveCommit(t))
      && Apply(c, w, LeaveCommit(t)) == (if moved.None? then w.Done(t) else moved.value.Done(t))
  {}

  lemma StepReadEvent(c: Config, w: World, t: nat, index: nat, dueAt: nat)
    requires t !in w.tasks && w.InQueue(Job.RunStep(index, dueAt))
    ensures Enabled(w, StepDelivered(t, index, dueAt))
    ensures Apply(c, w, StepDelivered(t, index, dueAt)) ==
            if w.row.state != S.IncidentPending && w.row.state != S.EscalationInProgress then w
            else w.Task(t, Stepping(index, dueAt, w.row.state))
  {}

  lemma StepBeginEvent(c: Config, w: World, t: nat)
    requires t in w.tasks && w.tasks[t].Stepping?
    ensures Enabled(w, StepBegin(t))
    ensures var task := w.tasks[t];
      var opens := task.index == 0 && task.seen == S.IncidentPending;
      var moved := if opens then w.Move(S.BeginEscalation, S.NO_EXTRA) else Some(w);
      Apply(c, w, StepBegin(t)) ==
      (if moved.None? then w.Done(t) else moved.value.Task(t, Stepped(task.index, task.dueAt)))
  {}

  lemma StepFinishEvent(c: Config, w: World, t: nat)
    requires t in w.tasks && w.tasks[t].Stepped?
    ensures Enabled(w, StepFinish(t))
    ensures var task := w.tasks[t];
      Apply(c, w, StepFinish(t)) ==
      (if task.index + 1 < |c.waits|
       then w.Put(Job.RunStep(task.index + 1, task.dueAt), c.waits[task.index])
       else Ladder.BeginGrace(c, w)).Done(t)
  {}

  lemma ExpiryEvents(c: Config, w: World, t: nat, stamp: nat)
    ensures t !in w.tasks && w.InQueue(GraceExpiry(stamp)) ==>
      Enabled(w, GraceDelivered(t, stamp)) && Apply(c, w, GraceDelivered(t, stamp)) == w.Task(t, Releasing)
    ensures t in w.tasks ==> Enabled(w, Drop(t)) && Apply(c, w, Drop(t)) == w.Done(t)
    ensures t in w.tasks && w.tasks[t].Releasing? ==>
      && (forall ids :: Enabled(w, ReleaseCommit(t, ids)))
      && (w.Move(S.BeginRelease, S.NO_EXTRA).None? ==> Apply(c, w, ReleaseCommit(t, [])) == w.Done(t))
  {}

  class ScenarioSystem {
    const c: Config
    var w: World
    var actions: map<ActionKey, nat>
    var nextAction: nat
    ghost var states: seq<World>
    ghost var trace: seq<Event>

    ghost predicate Valid()
      reads this
    {
      && Linked(c, states, trace) && states[|trace|] == w && IdsUnique(actions, nextAction)
      && Orderly(w)
    }

    /** The rows the last recorded step found. */
    ghost function Met(): World
      reads this
    {
      if |states| < 2 then w else states[|states| - 2]
    }

    ghost function Origin(): World
      reads this
    {
      if states == [] then w else states[0]
    }

    /** The recording ends with event `e`, whose effect on the rows is the ladder's. */
    ghost predicate Last(e: Event)
      reads this
    {
      Linked(c, states, trace) && trace != [] && trace[|trace| - 1] == e
    }

    constructor (c: Config, now: nat)
      ensures Valid() && w == NewWorld(now) && Origin() == w && this.c == c
    {
      this.c := c;
      this.w := NewWorld(now);
      this.actions := map[];
      this.nextAction := 0;
      this.states := [NewWorld(now)];
      this.trace := [];
    }

    /** Whatever the handlers did so far, the ladder's invariants and time bound hold of the rows. */
    lemma RowsAreSound()
      requires Valid() && Origin() == NewWorld(Origin().Now())
      ensures L.Inv(c, w) && L.EntrySound(c, w)
    {
      LinkedIsRun(c, states, trace);
      L.NewWorldSound(c, Origin().Now());
      L.RunKeepsInv(c, states[0], trace);
    }

    // ---------- bookkeeping ----------

    ghost method Record(before: World, e: Event)
      requires Linked(c, states, trace) && states[|trace|] == before && IdsUnique(actions, nextAction)
      requires Enabled(before, e) && w == Apply(c, before, e) && Orderly(before)
      modifies this`trace, this`states
      ensures Valid() && Origin() == old(Origin()) && trace == old(trace) + [e] && Last(e) && Met() == before
    {
      StepKeepsOrder(c, before, e);
      hide Enabled, Apply, O.Inv;
      trace := trace + [e];
      states := states + [w];
    }

    /** Any number of steps of other handlers, users, operators and relays; time passes. */
    method Await(t: nat)
      requires Valid()
      modifies this`w, this`trace, this`states
      ensures Valid() && Origin() == old(Origin())
      ensures t in w.tasks <==> t in old(w).tasks
      ensures t in w.tasks ==> w.tasks[t] == old(w).tasks[t]
    {
      var left: nat := *;
      while left > 0
        invariant Valid() && Origin() == old(Origin())
        invariant t in w.tasks <==> t in old(w).tasks
        invariant t in w.tasks ==> w.tasks[t] == old(w).tasks[t]
      {
        var e: Event := *;
        if Enabled(w, e) && !ByTask(e, t) {
          ghost var before := w;
          OthersLeaveTask(c, w, e, t);
          w := Apply(c, w, e);
          Record(before, e);
        }
        left := left - 1;
      }
    }

    /** A handler reads the row, keeps what it read, and awaits its next query. */
    method Read(t: nat, task: Task, e: Event)
      requires Valid() && Enabled(w, e) && Apply(c, w, e) == w.Task(t, task)
      modifies this`w, this`trace, this`states
      ensures Valid() && Origin() == old(Origin()) && t in w.tasks && w.tasks[t] == task
    {
      hide Enabled, Apply, O.Inv;
      ghost var before := w;
      w := w.(tasks := w.tasks[t := task]);
      Record(before, e);
      Await(t);
    }

    /** `transition` inside the caller's transaction; a refusal leaves the row alone. */
    method Transition(key: S.TransitionKey, extra: S.Extra) returns (done: bool)
      modifies this`w
      ensures done <==> old(w).Move(key, extra).Some?
      ensures w == if done then old(w).Move(key, extra).value else old(w)
    {
      if w.row.state !in S.From(key) { return false; }
      var next := S.Updated(w.row, key, extra);
      if !S.Coupled(next) { return false; }
      w := w.(row := next, committed := w.committed + [key]);
      return true;
    }

    method Enqueue(job: Job, delayMs: nat)
      modifies this`w
      ensures w == old(w).Put(job, delayMs)
    {
      var availableAt := w.Now() + delayMs;
      var box := w.box;
      if exists id :: id in box.rows && box.rows[id].job == job { return; }
      var row := O.Row(job, job.Execute?, availableAt, availableAt, None);
      w := w.(box := box.(rows := box.rows[box.nextId := row], nextId := box.nextId + 1,
                          promises := box.promises + {O.Promise(job, availableAt)}));
    }

    // ---------- what the user does ----------

    method Arm(t: nat) returns (ok: bool)
      requires Valid() && t !in w.tasks
      modifies this`w, this`trace, this`states
      ensures Valid() && Origin() == old(Origin()) && Last(ArmCommit(t)) && t !in w.tasks
      ensures ArmTried(ok, old(w).Now())
    {
      hide Enabled, Apply, O.Inv, ArmTried;
      var armedAt := w.Now();
      var dueAt := armedAt + c.interval;
      ArmEvents(c, w, t);
      Read(t, Arming(armedAt, dueAt), ArmRead(t));
      ok := CommitArm(t, armedAt, dueAt);
    }

    /** A draft is armed as of the time that was read, and only a draft. */
    ghost predicate ArmTried(ok: bool, armedAt: nat)
      reads this
    {
      && (ok <==> Met().row.state == S.Draft)
      && (ok ==>
        && w.row == Met().row.(state := S.Armed, armedAt := Some(armedAt))
        && Added(Met().box, w.box, Due(armedAt + c.interval), Met().Now() + c.interval))
      && (!ok ==> w.row == Met().row && w.box == Met().box)
    }

    method CommitArm(t: nat, armedAt: nat, dueAt: nat) returns (ok: bool)
      requires Valid() && t in w.tasks && w.tasks[t] == Arming(armedAt, dueAt) && dueAt == armedAt + c.interval
      modifies this`w, this`trace, this`states
      ensures Valid() && Origin() == old(Origin()) && Last(ArmCommit(t)) && t !in w.tasks && Met() == old(w)
      ensures ArmTried(ok, armedAt)
    {
      hide Enabled, Apply, O.Inv, O.Box.Enqueue, S.Attempt, Added, IdsUnique, World.Move;
      ghost var before := w;
      ArmEvents(c, before, t);
      MovesIff(w, S.Arm, S.Extra(Some(armedAt), None, None));
      ok := Transition(S.Arm, S.Extra(Some(armedAt), None, None));
      if ok {
        PutAdds(w, Due(dueAt), c.interval);
        Enqueue(Due(dueAt), c.interval);
      }
      w := w.(tasks := w.tasks - {t});
      Record(before, ArmCommit(t));
    }

    /** A check-in never cancels anything: it recovers the state if it can and adds a later due job. */
    method PerformCheckin(t: nat) returns (ok: bool)
      requires Valid() && t !in w.tasks
      modifies this`w, this`trace, this`states
      ensures Valid() && Origin() == old(Origin()) && t !in w.tasks
      ensures !ComesBack(old(w).row.state) ==> !ok && w == old(w) && trace == old(trace)
      ensures ComesBack(old(w).row.state) ==>
        && Last(CheckinCommit(t)) && CheckedIn(ok, old(w).row.state, old(w).Now() + c.interval)
    {
      hide Enabled, Apply, O.Inv, CheckedIn, ComesBack;
      var seen := w.row.state;
      ComesBackIff(seen);
      if seen !in RECOVERABLE { return false; }
      var dueAt := w.Now() + c.interval;
      CheckinEvents(c, w, t);
      Read(t, CheckingIn(seen, dueAt), CheckinRead(t));
      ok := CommitCheckin(t, seen, dueAt);
    }

    /** The check-in is done unless the row has left the state it was to recover from. */
    ghost predicate CheckedIn(ok: bool, seen: S.ScenarioState, dueAt: nat)
      reads this
    {
      && (ok <==> seen == S.Armed || Met().row.state == seen)
      && w.row == (if ok && seen != S.Armed then Met().row.(state := S.Armed) else Met().row)
      && (ok ==> Added(Met().box, w.box, Due(dueAt), Met().Now() + c.interval))
      && (!ok ==> w.box == Met().box)
    }

    method CommitCheckin(t: nat, seen: S.ScenarioState, dueAt: nat) returns (ok: bool)
      requires Valid() && t in w.tasks && w.tasks[t] == CheckingIn(seen, dueAt) && ComesBack(seen)
      modifies this`w, this`trace, this`states
      ensures Valid() && Origin() == old(Origin()) && Last(CheckinCommit(t)) && t !in w.tasks && Met() == old(w)
      ensures CheckedIn(ok, seen, dueAt)
    {
      hide Enabled, Apply, O.Inv, O.Box.Enqueue, S.Attempt, ComesBack, Added, IdsUnique, World.Move;
      ghost var before := w;
      ComesBackIff(seen);
      CheckinEvents(c, before, t);
      if RecoveryKey(seen).Some? { MovesIff(before, RecoveryKey(seen).value, S.NO_EXTRA); }
      ok := Recover(seen);
      if ok {
        PutAdds(w, Due(dueAt), c.interval);
        Enqueue(Due(dueAt), c.interval);
      }
      w := w.(tasks := w.tasks - {t});
      Record(before, CheckinCommit(t));
    }

    /** The transition that fits the state the check-in has read, if one does. */
    method Recover(seen: S.ScenarioState) returns (ok: bool)
      modifies this`w
      ensures RecoveryKey(seen).None? ==> ok && w == old(w)
      ensures RecoveryKey(seen).Some? ==>
        && (ok <==> old(w).Move(RecoveryKey(seen).value, S.NO_EXTRA).Some?)
        && w == (if ok then old(w).Move(RecoveryKey(seen).value, S.NO_EXTRA).value else old(w))
        && (ok ==> w.row.state == S.Armed)
    {
      ok := true;
      if seen == S.IncidentPending {
        ok := Transition(S.RecoverIncident, S.NO_EXTRA);
      } else if seen == S.EscalationInProgress {
        ok := Transition(S.RecoverEscalation, S.NO_EXTRA);
      } else if seen == S.GracePeriod {
        ok := Transition(S.RecoverGrace, S.NO_EXTRA);
      }
    }

    /** `disarm`; `abort` differs by its code and by refusing the armed state. */
    method Disarm(t: nat) returns (ok: bool)
      requires Valid() && t !in w.tasks
      modifies this`w, this`trace, this`states
      ensures Valid() && Origin() == old(Origin()) && t !in w.tasks
      ensures !MayLeave(old(w).row.state) ==> !ok && w == old(w) && trace == old(trace)
      ensures MayLeave(old(w).row.state) ==>
        && Last(LeaveCommit(t)) && (ok <==> SameLeave(old(w).row.state, Met().row.state))
        && w.row == (if ok then Met().row.(state := S.Aborted, abortedAt := Some(Met().Now())) else Met().row)
        && w.box == Met().box
    {
      hide Enabled, Apply, O.Inv, MayLeave, SameLeave;
      ghost var seen := w.row.state;
      MayLeaveIff(seen, seen);
      var key := LeavingKey(w.row.state);
      if key.None? { return false; }
      LeaveEvents(c, w, t);
      Read(t, Leaving(key.value), LeaveRead(t));
      ghost var before := w;
      LeaveEvents(c, before, t);
      MayLeaveIff(seen, w.row.state);
      MovesIff(w, key.value, S.Extra(None, None, Some(w.Now())));
      ok := Transition(key.value, S.Extra(None, None, Some(w.Now())));
      w := w.(tasks := w.tasks - {t});
      Record(before, LeaveCommit(t));
    }

    // ---------- what the workers do ----------

    method HandleCheckinDue(t: nat, dueAt: nat)
      requires Valid() && t !in w.tasks && w.InQueue(Due(dueAt))
      modifies this`w, this`trace, this`states
      ensures Valid() && Origin() == old(Origin()) && t !in w.tasks
      ensures old(w).row.state != S.Armed ==> w == old(w) && Last(DueDelivered(t, dueAt))
      ensures old(w).row.state == S.Armed ==> Last(MissCommit(t)) && MissTried(Met(), w, dueAt)
    {
      hide Enabled, Apply, O.Inv, S.Attempt;
      MissEvents(c, w, t, dueAt);
      if w.row.state != S.Armed {
        Record(w, DueDelivered(t, dueAt));
        return;
      }
      Read(t, Missing(dueAt), DueDelivered(t, dueAt));
      ghost var before := w;
      MissEvents(c, before, t, dueAt);
      MovesIff(w, S.MissCheckin, S.NO_EXTRA);
      var ok := Transition(S.MissCheckin, S.NO_EXTRA);
      if ok {
        PutAdds(w, Job.RunStep(0, dueAt), 0);
        Enqueue(Job.RunStep(0, dueAt), 0);
      }
      w := w.(tasks := w.tasks - {t});
      Record(before, MissCommit(t));
    }

    method RunStep(t: nat, index: nat, dueAt: nat)
      requires Valid() && t !in w.tasks && w.InQueue(Job.RunStep(index, dueAt))
      modifies this`w, this`trace, this`states
      ensures Valid() && Origin() == old(Origin()) && t !in w.tasks
      ensures old(w).row.state !in {S.IncidentPending, S.EscalationInProgress} ==>
        w == old(w) && Last(StepDelivered(t, index, dueAt))
      ensures old(w).row.state in {S.IncidentPending, S.EscalationInProgress} ==>
        || (Last(StepFinish(t)) && StepFinished(c, Met(), w, index, dueAt))
        || (Last(StepBegin(t)) && w == Met().Done(t) && index == 0 && w.row.state != S.IncidentPending)
    {
      hide Enabled, Apply, O.Inv, StepFinished;
      StepReadEvent(c, w, t, index, dueAt);
      var seen := w.row.state;
      if seen != S.IncidentPending && seen != S.EscalationInProgress {
        Record(w, StepDelivered(t, index, dueAt));
        return;
      }
      Read(t, Stepping(index, dueAt, seen), StepDelivered(t, index, dueAt));
      var ok := BeginStep(t, index, dueAt, seen);
      if !ok { return; }
      // the messages of the step go out here; a failure to send is swallowed
      Await(t);
      FinishStep(t, index, dueAt);
    }

    /** Step 0 of a pending incident starts the escalation; if it may not, the handler is over. */
    method BeginStep(t: nat, index: nat, dueAt: nat, seen: S.ScenarioState) returns (ok: bool)
      requires Valid() && t in w.tasks && w.tasks[t] == Stepping(index, dueAt, seen)
      modifies this`w, this`trace, this`states
      ensures Valid() && Origin() == old(Origin()) && Last(StepBegin(t)) && Met() == old(w)
      ensures ok ==> t in w.tasks && w.tasks[t] == Stepped(index, dueAt) && w.box == old(w).box
      ensures ok <==> !(index == 0 && seen == S.IncidentPending) || old(w).row.state == S.IncidentPending
      ensures w.row == if ok && index == 0 && seen == S.IncidentPending then old(w).row.(state := S.EscalationInProgress)
                       else old(w).row
      ensures !ok ==> w == old(w).Done(t)
    {
      hide Enabled, Apply, O.Inv;
      ghost var before := w;
      StepBeginEvent(c, before, t);
      MovesIff(w, S.BeginEscalation, S.NO_EXTRA);
      ok := true;
      if index == 0 && seen == S.IncidentPending {
        ok := Transition(S.BeginEscalation, S.NO_EXTRA);
      }
      w := w.(tasks := if ok then w.tasks[t := Stepped(index, dueAt)] else w.tasks - {t});
      Record(before, StepBegin(t));
    }

    /** The next step is put off by this step's wait; after the last step the grace period begins. */
    method FinishStep(t: nat, index: nat, dueAt: nat)
      requires Valid() && t in w.tasks && w.tasks[t] == Stepped(index, dueAt)
      modifies this`w, this`trace, this`states
      ensures Valid() && Origin() == old(Origin()) && Last(StepFinish(t)) && t !in w.tasks && Met() == old(w)
      ensures StepFinished(c, old(w), w, index, dueAt)
    {
      hide Enabled, Apply, O.Inv;
      ghost var before := w;
      StepFinishEvent(c, before, t);
      assert S.Coupled(w.row);
      if index + 1 < |c.waits| {
        PutAdds(w, Job.RunStep(index + 1, dueAt), c.waits[index]);
        Enqueue(Job.RunStep(index + 1, dueAt), c.waits[index]);
      } else {
        BeginGrace();
      }
      w := w.(tasks := w.tasks - {t});
      Record(before, StepFinish(t));
    }

    method BeginGrace()
      requires S.Coupled(w.row)
      modifies this`w
      ensures w == Ladder.BeginGrace(c, old(w))
      ensures if old(w).row.state == S.EscalationInProgress then
                && w.row == old(w).row.(state := S.GracePeriod)
                && Added(old(w).box, w.box, GraceExpiry(old(w).Now()), old(w).Now() + c.grace)
              else w.row == old(w).row && w.box == old(w).box
    {
      MovesIff(w, S.BeginGrace, S.NO_EXTRA);
      var ok := Transition(S.BeginGrace, S.NO_EXTRA);
      if ok {
        PutAdds(w, GraceExpiry(w.Now()), c.grace);
        Enqueue(GraceExpiry(w.Now()), c.grace);
      }
    }

    /**
     The grace period is over. If the transition is granted, the same transaction creates
     the release, one action for each message with a recipient, and a job for each action.
     */
    method HandleGraceExpiry(t: nat, stamp: nat, bundles: seq<Bundle>, allowed: bool) returns (entered: bool)
      requires Valid() && t !in w.tasks && w.InQueue(GraceExpiry(stamp))
      modifies this
      ensures Valid() && Origin() == old(Origin()) && t !in w.tasks
      ensures entered <==> allowed && Met().row.state == S.GracePeriod
      ensures !entered ==> actions == old(actions) && w.row == Met().row && w.box == Met().box && w.releases == Met().releases
      ensures entered ==> Committed(t, old(actions), bundles)
    {
      hide Enabled, Apply, O.Inv, Committed;
      ExpiryEvents(c, w, t, stamp);
      Read(t, Releasing, GraceDelivered(t, stamp));
      if !allowed {
        ghost var before := w;
        ExpiryEvents(c, before, t, stamp);
        w := w.(tasks := w.tasks - {t});
        Record(before, Drop(t));
        return false;
      }
      entered := CommitRelease(t, bundles);
    }

    /** The release just committed fanned out over `bundles`, from the table `before`. */
    ghost predicate Committed(t: nat, before: map<ActionKey, nat>, bundles: seq<Bundle>)
      reads this
    {
      && w.row == Met().row.(state := S.ReleaseInProgress)
      && |w.releases| == |Met().releases| + 1 && w.enteredRelease == Some(Met().Now())
      && exists ids ::
           && Last(ReleaseCommit(t, ids))
           && FannedOut(before, actions, ids, |w.releases| - 1, bundles)
           && w.releases == Met().releases + [Release(set a | a in ids)]
           && forall a :: a in ids ==> w.box.HasRow(Execute(a))
    }

    method CommitRelease(t: nat, bundles: seq<Bundle>) returns (entered: bool)
      requires Valid() && t in w.tasks && w.tasks[t] == Releasing
      modifies this
      ensures Valid() && Origin() == old(Origin()) && t !in w.tasks
      ensures entered <==> old(w).row.state == S.GracePeriod
      ensures Met() == old(w)
      ensures !entered ==> actions == old(actions) && Last(ReleaseCommit(t, [])) && w == old(w).Done(t)
      ensures entered ==> Committed(t, old(actions), bundles)
    {
      hide Enabled, Apply, O.Inv, Committed;
      ghost var before := w;
      ExpiryEvents(c, before, t, 0);
      MovesIff(w, S.BeginRelease, S.NO_EXTRA);
      entered := Transition(S.BeginRelease, S.NO_EXTRA);
      if entered {
        CreateRelease(t, before, bundles);
      } else {
        w := w.(tasks := w.tasks - {t});
        Record(before, ReleaseCommit(t, []));
      }
    }

    /** The rest of the transaction that was granted the transition. */
    method CreateRelease(t: nat, ghost before: World, bundles: seq<Bundle>)
      requires Linked(c, states, trace) && states[|trace|] == before && IdsUnique(actions, nextAction)
      requires before.Move(S.BeginRelease, S.NO_EXTRA) == Some(w) && Orderly(before) && w.box == before.box
      requires w.row == before.row.(state := S.ReleaseInProgress) && w.releases == before.releases && w.Now() == before.Now()
      requires forall ids :: Enabled(before, ReleaseCommit(t, ids))
      modifies this
      ensures Valid() && Origin() == old(Origin()) && t !in w.tasks && Met() == before
      ensures Committed(t, old(actions), bundles)
    {
      hide Enabled, Apply, O.Inv, FannedOut, IdsUnique, PutActions, World.Move, S.Attempt;
      ghost var moved := w;
      var n := |w.releases|;
      var ids := FanOut(n, bundles);
      CommitIsFanOut(c, before, moved, t, ids);
      PutActionsIsBoxOnly(moved, moved, ids);
      w := w.(releases := w.releases + [Release(set a | a in ids)], enteredRelease := Some(w.Now()), tasks := w.tasks - {t});
      Record(before, ReleaseCommit(t, ids));
      InvKeepsRows(moved.box);
      PutActionsHaveRows(moved, ids);
    }

    /** The two loops over bundles and messages. Actions of earlier releases are left alone. */
    method FanOut(release: nat, bundles: seq<Bundle>) returns (ids: seq<nat>)
      requires IdsUnique(actions, nextAction)
      modifies this`w, this`actions, this`nextAction
      ensures IdsUnique(actions, nextAction)
      ensures w == PutActions(old(w), ids)
      ensures FannedOut(old(actions), actions, ids, release, bundles)
    {
      hide FannedOut, O.Box.Enqueue;
      ids := [];
      NothingFannedOut(actions, release);
      for i := 0 to |bundles|
        invariant IdsUnique(actions, nextAction)
        invariant w == PutActions(old(w), ids)
        invariant FannedOut(old(actions), actions, ids, release, bundles[..i])
      {
        var b := bundles[i];
        assert bundles[..i + 1] == bundles[..i] + [b];
        assert b.messages[..0] == [];
        NoMessageYet(old(actions), actions, ids, release, bundles[..i], b.id);
        for j := 0 to |b.messages|
          invariant IdsUnique(actions, nextAction)
          invariant w == PutActions(old(w), ids)
          invariant FannedOut(old(actions), actions, ids, release, bundles[..i] + [Bundle(b.id, b.messages[..j])])
        {
          var m := b.messages[j];
          ghost var was, wereIds, next := actions, ids, nextAction;
          if m.recipient.Some? {
            var key := ActionKey(release, b.id, m.recipient.value, m.id);
            if key !in actions {
              actions := actions[key := nextAction];
              nextAction := nextAction + 1;
            }
            PutActionsAppend(old(w), ids, actions[key]);
            Enqueue(Execute(actions[key]), 0);
            ids := ids + [actions[key]];
          }
          assert b.messages[..j + 1] == b.messages[..j] + [m];
          MessageFannedOut(old(actions), was, wereIds, actions, ids, next, release, bundles[..i], b.id, b.messages[..j], m);
        }
        assert b.messages[..|b.messages|] == b.messages && Bundle(b.id, b.messages) == b;
      }
      assert bundles[..|bundles|] == bundles;
    }
  }

  lemma InvKeepsRows(b: O.Box<Job>)
    requires O.Inv(b)
    ensures O.RowsSound(b)
  {}

  lemma PutKeepsRow(w: World, job: Job, delayMs: nat, kept: Job)
    requires w.box.HasRow(kept) && O.RowsSound(w.box)
    ensures w.Put(job, delayMs).box.HasRow(kept) && O.RowsSound(w.Put(job, delayMs).box)
  {
    var id :| id in w.box.rows && w.box.rows[id].job == kept;
    assert w.Put(job, delayMs).box.rows[id].job == kept;
    O.PutKeepsRows(w.box, job, job.Execute?, delayMs);
  }

  /** Every action of the fan-out has its job. */
  lemma {:induction false} PutActionsHaveRows(w: World, actions: seq<nat>)
    requires O.RowsSound(w.box)
    ensures forall a :: a in actions ==> PutActions(w, actions).box.HasRow(Execute(a))
    decreases |actions|
  {
    if actions != [] {
      hide O.RowsSound, O.Box.HasRow;
      PutHasRow(w, Execute(actions[0]), 0);
      O.PutKeepsRows(w.box, Execute(actions[0]), true, 0);
      PutActionsKeepRow(w.Put(Execute(actions[0]), 0), actions[1..], Execute(actions[0]));
      PutActionsHaveRows(w.Put(Execute(actions[0]), 0), actions[1..]);
    }
  }

  lemma {:induction false} PutActionsKeepRow(w: World, actions: seq<nat>, kept: Job)
    requires w.box.HasRow(kept) && O.RowsSound(w.box)
    ensures PutActions(w, actions).box.HasRow(kept)
    decreases |actions|
  {
    if actions != [] {
      PutKeepsRow(w, Execute(actions[0]), 0, kept);
      PutActionsKeepRow(w.Put(Execute(actions[0]), 0), actions[1..], kept);
    }
  }

  lemma OthersLeaveTask(c: Config, w: World, e: Event, t: nat)
    requires Enabled(w, e) && !ByTask(e, t)
    ensures t in Apply(c, w, e).tasks <==> t in w.tasks
    ensures t in w.tasks ==> Apply(c, w, e).tasks[t] == w.tasks[t]
  {
    if e.ReleaseCommit? && L.Entered(w, e.actions).Some? {
      L.PutActionsOnlyPuts(L.Entered(w, e.actions).value, e.actions);
    }
  }
}
