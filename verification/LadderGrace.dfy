/**
 For every configuration a run in which the latest grace period need not be waited out:
 the expiry job of an earlier one is still on its way. No job is delivered twice in it.
 */
module LadderGrace {
  import opened Basics
  import opened Ladder
  import opened LadderSafety
  import opened LadderLimits
  import opened LadderEarly
  import opened OutboxArrival
  import O = Outbox
  import S = ScenarioStates

  /** Nothing is between its read and its commit. */
  predicate Calm(w: World) {
    w.tasks == map[] && w.box.relays == map[] && S.Coupled(w.row)
  }

  lemma ThreeEvents(c: Config, w: World, a: Event, b: Event, d: Event)
    requires Enabled(w, a) && Enabled(Apply(c, w, a), b) && Enabled(Apply(c, Apply(c, w, a), b), d)
    ensures Runnable(c, w, [a, b, d]) && Exec(c, w, [a, b, d]) == Apply(c, Apply(c, Apply(c, w, a), b), d)
  {
    hide Enabled, Apply;
    TwoEvents(c, w, a, b);
    ExecAppend(c, w, [a, b], d);
    assert [a, b] + [d] == [a, b, d];
  }

  /** A relay leases a ready row, gives its job to the queue, and deletes it. */
  function HandOver(id: nat): seq<Event> {
    [Relay(O.Claim(0, [id])), Relay(O.Add(0)), Relay(O.Delete(0))]
  }

  lemma HandOverEvents(b: O.Box<Job>, id: nat)
    requires b.relays == map[] && b.Ready(id)
    ensures O.Enabled(b, O.Claim(0, [id]))
    ensures var leased := O.Apply(b, O.Claim(0, [id]));
      && O.Enabled(leased, O.Add(0))
      && var added := O.Apply(leased, O.Add(0));
      && O.Enabled(added, O.Delete(0))
      && O.Apply(added, O.Delete(0)) ==
         b.(rows := b.rows - {id}, handed := b.handed + [O.Handover(b.rows[id].job, b.rows[id].original, b.now)])
  {
    var leased := O.Apply(b, O.Claim(0, [id]));
    assert leased.relays[0].todo == [O.LeaseOf(b, id)];
    assert leased.rows - {id} == b.rows - {id};
  }

  lemma HandedOver(c: Config, w: World, id: nat)
    requires Calm(w) && w.box.Ready(id)
    ensures var b := w.box;
      && Runnable(c, w, HandOver(id))
      && Exec(c, w, HandOver(id)) ==
         w.(box := b.(rows := b.rows - {id}, handed := b.handed + [O.Handover(b.rows[id].job, b.rows[id].original, b.now)]))
  {
    HandOverEvents(w.box, id);
    var leased := O.Apply(w.box, O.Claim(0, [id]));
    RelayIs(c, w, O.Claim(0, [id]));
    RelayIs(c, w.(box := leased), O.Add(0));
    RelayIs(c, w.(box := O.Apply(leased, O.Add(0))), O.Delete(0));
    hide Enabled, Apply, O.Enabled, O.Apply;
    ThreeEvents(c, w, Relay(O.Claim(0, [id])), Relay(O.Add(0)), Relay(O.Delete(0)));
  }

  lemma RelayIs(c: Config, w: World, e: O.Event<Job>)
    requires !e.Put? && O.Enabled(w.box, e)
    ensures Enabled(w, Relay(e)) && Apply(c, w, Relay(e)) == w.(box := O.Apply(w.box, e))
  {}

  /** A due job finds the scenario armed. */
  lemma Missed(c: Config, w: World, dueAt: nat)
    requires Calm(w) && w.row.state == S.Armed && w.InQueue(Due(dueAt))
    ensures var es := [DueDelivered(0, dueAt), MissCommit(0)];
      && Runnable(c, w, es)
      && var w' := Exec(c, w, es);
      && Calm(w') && w'.row == w.row.(state := S.IncidentPending)
      && w'.box == w.box.Enqueue(RunStep(0, dueAt), false, 0)
  {
    ReadDue(c, w, 0, dueAt);
    var read := w.Task(0, Missing(dueAt));
    MissCommits(c, read, 0, dueAt);
    hide Enabled, Apply;
    TwoEvents(c, w, DueDelivered(0, dueAt), MissCommit(0));
    assert read.tasks - {0} == map[];
  }

  lemma MissCommits(c: Config, w: World, t: nat, dueAt: nat)
    requires t in w.tasks && w.tasks[t] == Missing(dueAt) && S.Coupled(w.row) && w.row.state == S.Armed
    ensures Enabled(w, MissCommit(t))
    ensures var w' := Apply(c, w, MissCommit(t));
      && w'.row == w.row.(state := S.IncidentPending) && S.Coupled(w'.row)
      && w'.box == w.box.Enqueue(RunStep(0, dueAt), false, 0) && w'.tasks == w.tasks - {t}
  {}

  // ---------- steps of the ladder ----------

  /** Which state a step finds, if none came between. */
  function StateAt(index: nat): S.ScenarioState {
    if index == 0 then S.IncidentPending else S.EscalationInProgress
  }

  lemma StepReads(c: Config, w: World, index: nat, dueAt: nat)
    requires Calm(w) && w.row.state == StateAt(index) && w.InQueue(RunStep(index, dueAt))
    ensures Enabled(w, StepDelivered(0, index, dueAt))
    ensures Apply(c, w, StepDelivered(0, index, dueAt)) == w.Task(0, Stepping(index, dueAt, StateAt(index)))
  {}

  lemma StepBegins(c: Config, w: World, index: nat, dueAt: nat)
    requires w.tasks == map[0 := Stepping(index, dueAt, StateAt(index))]
    requires S.Coupled(w.row) && w.row.state == StateAt(index)
    ensures Enabled(w, StepBegin(0))
    ensures var w' := Apply(c, w, StepBegin(0));
      && w'.row == w.row.(state := S.EscalationInProgress) && S.Coupled(w'.row)
      && w'.box == w.box && w'.tasks == map[0 := Stepped(index, dueAt)]
  {}

  /** The events of a step but its end. */
  function Begin(index: nat, dueAt: nat): seq<Event> {
    [StepDelivered(0, index, dueAt), StepBegin(0)]
  }

  lemma Begun(c: Config, w: World, index: nat, dueAt: nat)
    requires Calm(w) && w.row.state == StateAt(index) && w.InQueue(RunStep(index, dueAt))
    ensures Runnable(c, w, Begin(index, dueAt))
    ensures var w' := Exec(c, w, Begin(index, dueAt));
      && w'.row == w.row.(state := S.EscalationInProgress) && S.Coupled(w'.row)
      && w'.box == w.box && w'.tasks == map[0 := Stepped(index, dueAt)]
  {
    StepReads(c, w, index, dueAt);
    var read := w.Task(0, Stepping(index, dueAt, StateAt(index)));
    StepBegins(c, read, index, dueAt);
    hide Enabled, Apply;
    TwoEvents(c, w, StepDelivered(0, index, dueAt), StepBegin(0));
  }

  lemma NextStepPut(c: Config, w: World, index: nat, dueAt: nat)
    requires w.tasks == map[0 := Stepped(index, dueAt)] && index + 1 < |c.waits|
    ensures Enabled(w, StepFinish(0))
    ensures var w' := Apply(c, w, StepFinish(0));
      w'.row == w.row && w'.tasks == map[] && w'.box == w.box.Enqueue(RunStep(index + 1, dueAt), false, c.waits[index])
  {
    assert w.tasks - {0} == map[];
  }

  lemma GraceBegins(c: Config, w: World, index: nat, dueAt: nat)
    requires w.tasks == map[0 := Stepped(index, dueAt)] && index + 1 >= |c.waits|
    requires S.Coupled(w.row) && w.row.state == S.EscalationInProgress
    ensures Enabled(w, StepFinish(0))
    ensures var w' := Apply(c, w, StepFinish(0));
      && w'.row == w.row.(state := S.GracePeriod) && S.Coupled(w'.row)
      && w'.box == w.box.Enqueue(GraceExpiry(w.Now()), false, c.grace) && w'.tasks == map[]
  {
    assert w.tasks - {0} == map[];
  }

  /** A check-in out of grace. */
  lemma Recovered(c: Config, w: World)
    requires Calm(w) && w.row.state == S.GracePeriod
    ensures var es := [CheckinRead(0), CheckinCommit(0)];
      && Runnable(c, w, es)
      && var w' := Exec(c, w, es);
      && Calm(w') && w'.row == w.row.(state := S.Armed)
      && w'.box == w.box.Enqueue(Due(w.Now() + c.interval), false, c.interval)
  {
    CheckinReads(c, w);
    var read := w.Task(0, CheckingIn(S.GracePeriod, w.Now() + c.interval));
    CheckinCommits(c, read);
    hide Enabled, Apply;
    TwoEvents(c, w, CheckinRead(0), CheckinCommit(0));
    assert read.tasks - {0} == map[];
  }

  lemma CheckinReads(c: Config, w: World)
    requires Calm(w) && w.row.state == S.GracePeriod
    ensures Enabled(w, CheckinRead(0))
    ensures Apply(c, w, CheckinRead(0)) == w.Task(0, CheckingIn(S.GracePeriod, w.Now() + c.interval))
  {}

  lemma CheckinCommits(c: Config, w: World)
    requires 0 in w.tasks && w.tasks[0].CheckingIn? && w.tasks[0].seen == S.GracePeriod
    requires S.Coupled(w.row) && w.row.state == S.GracePeriod
    ensures Enabled(w, CheckinCommit(0))
    ensures var w' := Apply(c, w, CheckinCommit(0));
      && w'.row == w.row.(state := S.Armed) && S.Coupled(w'.row)
      && w'.box == w.box.Enqueue(Due(w.tasks[0].dueAt), false, c.interval) && w'.tasks == w.tasks - {0}
  {}

  // ---------- where a run stands ----------

  /** The scenario's state, the time, and what the outbox holds. */
  predicate At(w: World, state: S.ScenarioState, now: nat, rows: map<nat, O.Row<Job>>, nextId: nat) {
    && Calm(w) && w.row.state == state && w.Now() == now && w.box.rows == rows && w.box.nextId == nextId
    && forall id :: id in rows ==> id < nextId
  }

  const CHECKIN: seq<Event> := [CheckinRead(0), CheckinCommit(0)]

  function PassOf(ms: nat): seq<Event> {
    [Relay(O.Pass(ms))]
  }

  function MissOf(dueAt: nat): seq<Event> {
    [DueDelivered(0, dueAt), MissCommit(0)]
  }

  lemma PassesTo(c: Config, w: World, ms: nat, state: S.ScenarioState, now: nat, rows: map<nat, O.Row<Job>>, nextId: nat)
      returns (v: World)
    requires At(w, state, now, rows, nextId)
    ensures Runnable(c, w, PassOf(ms)) && Exec(c, w, PassOf(ms)) == v
    ensures At(v, state, now + ms, rows, nextId) && v.box.handed == w.box.handed
  {
    v := Later(w, ms);
    PassIs(c, w, ms);
  }

  lemma HandsTo(c: Config, w: World, id: nat, state: S.ScenarioState, now: nat, rows: map<nat, O.Row<Job>>, nextId: nat)
      returns (v: World)
    requires At(w, state, now, rows, nextId) && id in rows && rows[id] == Fresh(rows[id].job, rows[id].original)
    requires rows[id].original <= now
    ensures Runnable(c, w, HandOver(id)) && Exec(c, w, HandOver(id)) == v
    ensures At(v, state, now, rows - {id}, nextId) && v.InQueue(rows[id].job)
  {
    HandedOver(c, w, id);
    InQueueAfter(w, id);
    v := Exec(c, w, HandOver(id));
    hide Runnable, Exec, HandOver;
  }

  /** A new job is put aside. */
  lemma EnqueueIs(b: O.Box<Job>, job: Job, delayMs: nat)
    requires forall id :: id in b.rows ==> b.rows[id].job != job
    ensures b.Enqueue(job, false, delayMs).rows == b.rows[b.nextId := Fresh(job, b.now + delayMs)]
    ensures b.Enqueue(job, false, delayMs).nextId == b.nextId + 1
    ensures b.Enqueue(job, false, delayMs).handed == b.handed && b.Enqueue(job, false, delayMs).now == b.now
    ensures b.Enqueue(job, false, delayMs).relays == b.relays
  {}

  /** Two runs one after the other, by what the first leads to. */
  lemma Then(c: Config, w: World, es: seq<Event>, u: World, fs: seq<Event>)
    requires Runnable(c, w, es) && Exec(c, w, es) == u && Runnable(c, u, fs)
    ensures Runnable(c, w, es + fs) && Exec(c, w, es + fs) == Exec(c, u, fs)
  {
    ExecConcat(c, w, es, fs);
  }

  // ---------- parts of the run ----------

  /** Time passes until the row of a due job is ready; it is handed over, and its job opens an incident. */
  function IncidentOf(wait: nat, dueAt: nat, id: nat, stepId: nat): seq<Event> {
    PassOf(wait) + HandOver(id) + MissOf(dueAt) + HandOver(stepId)
  }

  lemma DueIsQueued(c: Config, w: World, wait: nat, now: nat, rows: map<nat, O.Row<Job>>, nextId: nat, id: nat, dueAt: nat)
      returns (v: World)
    requires At(w, S.Armed, now, rows, nextId) && id in rows && rows[id] == Fresh(Due(dueAt), dueAt) && dueAt == now + wait
    ensures Runnable(c, w, PassOf(wait) + HandOver(id)) && Exec(c, w, PassOf(wait) + HandOver(id)) == v
    ensures At(v, S.Armed, dueAt, rows - {id}, nextId) && v.InQueue(Due(dueAt))
  {
    var a := PassesTo(c, w, wait, S.Armed, now, rows, nextId);
    v := HandsTo(c, a, id, S.Armed, dueAt, rows, nextId);
    hide Runnable, Exec, HandOver, PassOf, At;
    Then(c, w, PassOf(wait), a, HandOver(id));
  }

  lemma MissesTo(c: Config, w: World, now: nat, rows: map<nat, O.Row<Job>>, nextId: nat, dueAt: nat) returns (v: World)
    requires At(w, S.Armed, now, rows, nextId) && w.InQueue(Due(dueAt))
    requires forall id :: id in rows ==> rows[id].job != RunStep(0, dueAt)
    ensures Runnable(c, w, MissOf(dueAt) + HandOver(nextId)) && Exec(c, w, MissOf(dueAt) + HandOver(nextId)) == v
    ensures At(v, S.IncidentPending, now, rows, nextId + 1) && v.InQueue(RunStep(0, dueAt))
  {
    Missed(c, w, dueAt);
    EnqueueIs(w.box, RunStep(0, dueAt), 0);
    var a := Exec(c, w, MissOf(dueAt));
    var more := rows[nextId := Fresh(RunStep(0, dueAt), now)];
    hide Runnable, Exec, Calm;
    v := HandsTo(c, a, nextId, S.IncidentPending, now, more, nextId + 1);
    assert more - {nextId} == rows;
    hide HandOver, MissOf;
    Then(c, w, MissOf(dueAt), a, HandOver(nextId));
  }

  lemma IncidentOpens(c: Config, w: World, wait: nat, now: nat, rows: map<nat, O.Row<Job>>, nextId: nat, id: nat, dueAt: nat)
      returns (v: World)
    requires At(w, S.Armed, now, rows, nextId) && id in rows && rows[id] == Fresh(Due(dueAt), dueAt) && dueAt == now + wait
    requires forall jd :: jd in rows ==> !rows[jd].job.RunStep?
    ensures Runnable(c, w, IncidentOf(wait, dueAt, id, nextId)) && Exec(c, w, IncidentOf(wait, dueAt, id, nextId)) == v
    ensures At(v, S.IncidentPending, dueAt, rows - {id}, nextId + 1) && v.InQueue(RunStep(0, dueAt))
  {
    var a := DueIsQueued(c, w, wait, now, rows, nextId, id, dueAt);
    v := MissesTo(c, a, dueAt, rows - {id}, nextId, dueAt);
    hide Runnable, Exec, HandOver, PassOf, MissOf, At;
    Then(c, w, PassOf(wait) + HandOver(id), a, MissOf(dueAt) + HandOver(nextId));
    assert PassOf(wait) + HandOver(id) + (MissOf(dueAt) + HandOver(nextId)) == IncidentOf(wait, dueAt, id, nextId);
  }

  /** From one step to the next. */
  function Rung(c: Config, index: nat, dueAt: nat, id: nat): seq<Event>
    requires index < |c.waits|
  {
    Begin(index, dueAt) + [StepFinish(0)] + PassOf(c.waits[index]) + HandOver(id)
  }

  lemma StepEnds(c: Config, w: World, index: nat, dueAt: nat, now: nat, rows: map<nat, O.Row<Job>>, nextId: nat) returns (v: World)
    requires At(w, StateAt(index), now, rows, nextId) && w.InQueue(RunStep(index, dueAt)) && index + 1 < |c.waits|
    requires forall id :: id in rows ==> !rows[id].job.RunStep?
    ensures Runnable(c, w, Begin(index, dueAt) + [StepFinish(0)]) && Exec(c, w, Begin(index, dueAt) + [StepFinish(0)]) == v
    ensures At(v, S.EscalationInProgress, now, rows[nextId := Fresh(RunStep(index + 1, dueAt), now + c.waits[index])], nextId + 1)
  {
    Begun(c, w, index, dueAt);
    var u := Exec(c, w, Begin(index, dueAt));
    NextStepPut(c, u, index, dueAt);
    EnqueueIs(w.box, RunStep(index + 1, dueAt), c.waits[index]);
    v := Apply(c, u, StepFinish(0));
    hide Runnable, Exec, Begin, Apply, Enabled;
    ExecAppend(c, w, Begin(index, dueAt), StepFinish(0));
  }

  lemma Climbs(c: Config, w: World, index: nat, dueAt: nat, now: nat, rows: map<nat, O.Row<Job>>, nextId: nat) returns (v: World)
    requires At(w, StateAt(index), now, rows, nextId) && w.InQueue(RunStep(index, dueAt)) && index + 1 < |c.waits|
    requires forall id :: id in rows ==> !rows[id].job.RunStep?
    ensures Runnable(c, w, Rung(c, index, dueAt, nextId)) && Exec(c, w, Rung(c, index, dueAt, nextId)) == v
    ensures At(v, S.EscalationInProgress, now + c.waits[index], rows, nextId + 1) && v.InQueue(RunStep(index + 1, dueAt))
  {
    var wait := c.waits[index];
    var more := rows[nextId := Fresh(RunStep(index + 1, dueAt), now + wait)];
    assert nextId !in rows && more - {nextId} == rows;
    var a := StepEnds(c, w, index, dueAt, now, rows, nextId);
    hide Runnable, Exec, HandOver, PassOf, Begin, At;
    var b := PassesTo(c, a, wait, S.EscalationInProgress, now, more, nextId + 1);
    v := HandsTo(c, b, nextId, S.EscalationInProgress, now + wait, more, nextId + 1);
    Then(c, w, Begin(index, dueAt) + [StepFinish(0)], a, PassOf(wait));
    Then(c, w, Begin(index, dueAt) + [StepFinish(0)] + PassOf(wait), b, HandOver(nextId));
  }

  /** The index of the last step; an empty ladder still gets step 0. */
  function LastIndex(c: Config): nat {
    if c.waits == [] then 0 else |c.waits| - 1
  }

  /** The steps before `index`. */
  function ClimbOf(c: Config, index: nat, dueAt: nat, id: nat): seq<Event>
    requires index <= LastIndex(c)
  {
    if index == 0 then [] else ClimbOf(c, index - 1, dueAt, id) + Rung(c, index - 1, dueAt, id + index - 1)
  }

  lemma ClimbOfOne(c: Config, index: nat, dueAt: nat, id: nat)
    requires 0 < index <= LastIndex(c)
    ensures ClimbOf(c, index, dueAt, id) == ClimbOf(c, index - 1, dueAt, id) + Rung(c, index - 1, dueAt, id + index - 1)
    ensures ClimbTo(c, index) == ClimbTo(c, index - 1) + c.waits[index - 1]
  {
    ClimbOneMore(c, index - 1);
  }

  lemma ClimbOfNone(c: Config, w: World, dueAt: nat, id: nat)
    ensures Runnable(c, w, ClimbOf(c, 0, dueAt, id)) && Exec(c, w, ClimbOf(c, 0, dueAt, id)) == w
    ensures ClimbTo(c, 0) == 0
  {
    assert c.waits[..0] == [];
  }

  lemma {:induction false} ClimbsTo(c: Config, w: World, index: nat, dueAt: nat, now: nat, rows: map<nat, O.Row<Job>>, nextId: nat)
      returns (v: World)
    requires At(w, S.IncidentPending, now, rows, nextId) && w.InQueue(RunStep(0, dueAt)) && index <= LastIndex(c)
    requires forall id :: id in rows ==> !rows[id].job.RunStep?
    ensures Runnable(c, w, ClimbOf(c, index, dueAt, nextId)) && Exec(c, w, ClimbOf(c, index, dueAt, nextId)) == v
    ensures At(v, StateAt(index), now + ClimbTo(c, index), rows, nextId + index) && v.InQueue(RunStep(index, dueAt))
    decreases index
  {
    hide At, ClimbTo, ClimbOf, Runnable, Exec, Rung, World.InQueue;
    if index == 0 {
      ClimbOfNone(c, w, dueAt, nextId);
      v := w;
    } else {
      var a := ClimbsTo(c, w, index - 1, dueAt, now, rows, nextId);
      ClimbOfOne(c, index, dueAt, nextId);
      v := Climbs(c, a, index - 1, dueAt, now + ClimbTo(c, index - 1), rows, nextId + index - 1);
      Then(c, w, ClimbOf(c, index - 1, dueAt, nextId), a, Rung(c, index - 1, dueAt, nextId + index - 1));
    }
  }

  /** The last step but its end, after which grace begins. */
  function UpToGrace(c: Config, dueAt: nat, id: nat): seq<Event> {
    ClimbOf(c, LastIndex(c), dueAt, id) + Begin(LastIndex(c), dueAt)
  }

  lemma LastStep(c: Config, w: World, dueAt: nat, now: nat, rows: map<nat, O.Row<Job>>, nextId: nat) returns (u: World, v: World)
    requires At(w, StateAt(LastIndex(c)), now, rows, nextId) && w.InQueue(RunStep(LastIndex(c), dueAt))
    requires forall id :: id in rows ==> rows[id].job != GraceExpiry(now)
    ensures Runnable(c, w, Begin(LastIndex(c), dueAt)) && Exec(c, w, Begin(LastIndex(c), dueAt)) == u
    ensures Enabled(u, StepFinish(0)) && Apply(c, u, StepFinish(0)) == v
    ensures At(v, S.GracePeriod, now, rows[nextId := Fresh(GraceExpiry(now), now + c.grace)], nextId + 1)
  {
    Begun(c, w, LastIndex(c), dueAt);
    u := Exec(c, w, Begin(LastIndex(c), dueAt));
    hide Runnable, Exec, Begin;
    GraceBegins(c, u, LastIndex(c), dueAt);
    EnqueueIs(w.box, GraceExpiry(now), c.grace);
    v := Apply(c, u, StepFinish(0));
    hide Enabled, Apply;
  }

  lemma GraceIsEntered(c: Config, w: World, dueAt: nat, now: nat, rows: map<nat, O.Row<Job>>, nextId: nat) returns (u: World, v: World)
    requires At(w, S.IncidentPending, now, rows, nextId) && w.InQueue(RunStep(0, dueAt))
    requires forall id :: id in rows ==> !rows[id].job.RunStep?
    requires forall id :: id in rows ==> rows[id].job != GraceExpiry(now + WholeClimb(c))
    ensures Runnable(c, w, UpToGrace(c, dueAt, nextId)) && Exec(c, w, UpToGrace(c, dueAt, nextId)) == u
    ensures Enabled(u, StepFinish(0)) && Apply(c, u, StepFinish(0)) == v
    ensures var id, at := nextId + LastIndex(c), now + WholeClimb(c);
      At(v, S.GracePeriod, at, rows[id := Fresh(GraceExpiry(at), at + c.grace)], id + 1)
  {
    WholeClimbIs(c);
    hide At, Enabled, Apply, WholeClimb;
    var a := ClimbsTo(c, w, LastIndex(c), dueAt, now, rows, nextId);
    u, v := LastStep(c, a, dueAt, now + WholeClimb(c), rows, nextId + LastIndex(c));
    hide Runnable, Exec, Begin, ClimbOf;
    Then(c, w, ClimbOf(c, LastIndex(c), dueAt, nextId), a, Begin(LastIndex(c), dueAt));
  }

  lemma WholeClimbIs(c: Config)
    ensures WholeClimb(c) == ClimbTo(c, LastIndex(c))
  {
    assert c.waits == [] ==> c.waits[..0] == [];
  }

  // ---------- the run ----------

  /** When the first grace period begins. */
  function FirstGrace(c: Config): nat {
    c.interval + WholeClimb(c)
  }

  /** The first incident, up to grace. */
  function FirstPart(c: Config): seq<Event> {
    FirstIncident(c) + UpToGrace(c, c.interval, 2) + [StepFinish(0)]
  }

  lemma StartsAt(c: Config)
    ensures At(ArmedAtZero(c), S.Armed, 0, map[0 := Fresh(Due(c.interval), c.interval)], 1)
  {}

  /** The outbox after the first incident. */
  function Waiting(c: Config): map<nat, O.Row<Job>> {
    map[LastIndex(c) + 2 := Fresh(GraceExpiry(FirstGrace(c)), FirstGrace(c) + c.grace)]
  }

  /** Armed, and the first incident open. */
  function FirstIncident(c: Config): seq<Event> {
    [ArmRead(0), ArmCommit(0)] + IncidentOf(c.interval, c.interval, 0, 1)
  }

  lemma FirstIncidentOpens(c: Config) returns (w: World)
    ensures Runnable(c, NewWorld(0), FirstIncident(c)) && Exec(c, NewWorld(0), FirstIncident(c)) == w
    ensures At(w, S.IncidentPending, c.interval, map[], 2) && w.InQueue(RunStep(0, c.interval))
  {
    StartsAt(c);
    ArmedAtZeroIsReached(c);
    var rows := map[0 := Fresh(Due(c.interval), c.interval)];
    assert rows - {0} == map[];
    hide At, ArmedAtZero, NewWorld, Runnable, Exec, IncidentOf, World.InQueue;
    w := IncidentOpens(c, ArmedAtZero(c), c.interval, 0, rows, 1, 0, c.interval);
    Then(c, NewWorld(0), [ArmRead(0), ArmCommit(0)], ArmedAtZero(c), IncidentOf(c.interval, c.interval, 0, 1));
  }

  /** A run, another one, and one event more. */
  lemma ThenOne(c: Config, w: World, es: seq<Event>, u: World, fs: seq<Event>, v: World, e: Event)
    requires Runnable(c, w, es) && Exec(c, w, es) == u && Runnable(c, u, fs) && Exec(c, u, fs) == v && Enabled(v, e)
    ensures Runnable(c, w, es + fs + [e]) && Exec(c, w, es + fs + [e]) == Apply(c, v, e)
  {
    hide Enabled, Apply;
    Then(c, w, es, u, fs);
    ExecAppend(c, w, es + fs, e);
  }

  lemma FirstPartRuns(c: Config) returns (w: World)
    ensures Runnable(c, NewWorld(0), FirstPart(c)) && Exec(c, NewWorld(0), FirstPart(c)) == w
    ensures At(w, S.GracePeriod, FirstGrace(c), Waiting(c), LastIndex(c) + 3)
  {
    var a := FirstIncidentOpens(c);
    hide At, NewWorld, Runnable, Exec, Enabled, Apply, FirstIncident, UpToGrace, World.InQueue, WholeClimb;
    var u, v := GraceIsEntered(c, a, c.interval, c.interval, map[], 2);
    assert 2 + LastIndex(c) == LastIndex(c) + 2;
    w := v;
    ThenOne(c, NewWorld(0), FirstIncident(c), a, UpToGrace(c, c.interval, 2), u, StepFinish(0));
  }

  lemma RecoversTo(c: Config, w: World, now: nat, rows: map<nat, O.Row<Job>>, nextId: nat) returns (v: World)
    requires At(w, S.GracePeriod, now, rows, nextId) && forall id :: id in rows ==> !rows[id].job.Due?
    ensures Runnable(c, w, CHECKIN) && Exec(c, w, CHECKIN) == v
    ensures At(v, S.Armed, now, rows[nextId := Fresh(Due(now + c.interval), now + c.interval)], nextId + 1)
  {
    hide Runnable, Exec, Enabled, Apply;
    Recovered(c, w);
    EnqueueIs(w.box, Due(now + c.interval), c.interval);
    hide O.Box.Enqueue;
    v := Exec(c, w, CHECKIN);
  }

  /** In the second grace period the first one's expiry still waits, and comes first. */
  lemma FirstExpiryIsInTable(c: Config, v: World)
    requires c.interval > 0
    requires var at, id := 2 * FirstGrace(c), LastIndex(c) + LastIndex(c) + 5;
      At(v, S.GracePeriod, at, Waiting(c)[id := Fresh(GraceExpiry(at), at + c.grace)], id + 1)
    ensures v.row.state == S.GracePeriod && v.Now() == 2 * FirstGrace(c)
    ensures InTable(v.box, GraceExpiry(FirstGrace(c)), v.Now() + c.grace)
  {
    hide WholeClimb;
    assert v.box.rows[LastIndex(c) + 2] == Fresh(GraceExpiry(FirstGrace(c)), FirstGrace(c) + c.grace);
  }

  /** Recovered at once, and the second incident open. */
  function SecondIncident(c: Config): seq<Event> {
    var dueAt, id := FirstGrace(c) + c.interval, LastIndex(c) + 3;
    CHECKIN + IncidentOf(c.interval, dueAt, id, id + 1)
  }

  lemma MissedAgain(c: Config, w: World, now: nat, rows: map<nat, O.Row<Job>>, id: nat) returns (v: World)
    requires At(w, S.GracePeriod, now, rows, id) && id !in rows
    requires forall jd :: jd in rows ==> !rows[jd].job.Due? && !rows[jd].job.RunStep?
    ensures var es := CHECKIN + IncidentOf(c.interval, now + c.interval, id, id + 1); Runnable(c, w, es) && Exec(c, w, es) == v
    ensures At(v, S.IncidentPending, now + c.interval, rows, id + 2) && v.InQueue(RunStep(0, now + c.interval))
  {
    var dueAt := now + c.interval;
    var more := rows[id := Fresh(Due(dueAt), dueAt)];
    assert more - {id} == rows;
    hide Runnable, Exec, IncidentOf, World.InQueue, At;
    var a := RecoversTo(c, w, now, rows, id);
    v := IncidentOpens(c, a, c.interval, now, more, id + 1, id, dueAt);
    Then(c, w, CHECKIN, a, IncidentOf(c.interval, dueAt, id, id + 1));
  }

  lemma SecondIncidentOpens(c: Config, w: World) returns (v: World)
    requires At(w, S.GracePeriod, FirstGrace(c), Waiting(c), LastIndex(c) + 3)
    ensures Runnable(c, w, SecondIncident(c)) && Exec(c, w, SecondIncident(c)) == v
    ensures At(v, S.IncidentPending, FirstGrace(c) + c.interval, Waiting(c), LastIndex(c) + 5)
    ensures v.InQueue(RunStep(0, FirstGrace(c) + c.interval))
  {
    hide Runnable, Exec, IncidentOf, World.InQueue, At, FirstGrace;
    v := MissedAgain(c, w, FirstGrace(c), Waiting(c), LastIndex(c) + 3);
  }

  lemma SecondGraceIsEntered(c: Config, w: World) returns (u: World, v: World)
    requires At(w, S.IncidentPending, FirstGrace(c) + c.interval, Waiting(c), LastIndex(c) + 5) && c.interval > 0
    requires w.InQueue(RunStep(0, FirstGrace(c) + c.interval))
    ensures var es := UpToGrace(c, FirstGrace(c) + c.interval, LastIndex(c) + 5); Runnable(c, w, es) && Exec(c, w, es) == u
    ensures Enabled(u, StepFinish(0)) && Apply(c, u, StepFinish(0)) == v
    ensures v.row.state == S.GracePeriod && v.Now() == 2 * FirstGrace(c)
    ensures InTable(v.box, GraceExpiry(FirstGrace(c)), v.Now() + c.grace)
  {
    hide Enabled, Apply, Runnable, Exec, UpToGrace, WholeClimb, World.InQueue, At;
    u, v := GraceIsEntered(c, w, FirstGrace(c) + c.interval, FirstGrace(c) + c.interval, Waiting(c), LastIndex(c) + 5);
    FirstExpiryIsInTable(c, v);
  }

  // ---------- what the run delivers ----------

  function Deliveries(es: seq<Event>): seq<Job> {
    if es == [] then []
    else Deliveries(es[..|es| - 1]) + if JobOf(es[|es| - 1]).Some? then [JobOf(es[|es| - 1]).value] else []
  }

  lemma {:induction false} DeliveriesConcat(es: seq<Event>, fs: seq<Event>)
    ensures Deliveries(es + fs) == Deliveries(es) + Deliveries(fs)
    decreases |fs|
  {
    if fs == [] {
      assert es + fs == es;
    } else {
      assert (es + fs)[..|es + fs| - 1] == es + fs[..|fs| - 1];
      DeliveriesConcat(es, fs[..|fs| - 1]);
    }
  }

  lemma {:induction false} NoDeliveries(es: seq<Event>)
    requires forall i :: 0 <= i < |es| ==> JobOf(es[i]).None?
    ensures Deliveries(es) == []
  {
    if es != [] { NoDeliveries(es[..|es| - 1]); }
  }

  lemma OneDelivery(a: Event, b: Event)
    requires JobOf(a).Some? && JobOf(b).None?
    ensures Deliveries([a, b]) == [JobOf(a).value]
  {
    assert [a][..0] == [];
    assert Deliveries([a]) == [JobOf(a).value];
    assert [a, b][..1] == [a];
  }

  /** One incident: its due job, and each step once. */
  function StepsOf(n: nat, dueAt: nat): seq<Job> {
    if n == 0 then [] else StepsOf(n - 1, dueAt) + [RunStep(n - 1, dueAt)]
  }

  lemma IncidentDelivers(wait: nat, dueAt: nat, id: nat, stepId: nat)
    ensures Deliveries(IncidentOf(wait, dueAt, id, stepId)) == [Due(dueAt)]
  {
    NoDeliveries(PassOf(wait));
    NoDeliveries(HandOver(id));
    NoDeliveries(HandOver(stepId));
    OneDelivery(DueDelivered(0, dueAt), MissCommit(0));
    hide Deliveries, HandOver, PassOf;
    DeliveriesConcat(PassOf(wait), HandOver(id));
    DeliveriesConcat(PassOf(wait) + HandOver(id), MissOf(dueAt));
    DeliveriesConcat(PassOf(wait) + HandOver(id) + MissOf(dueAt), HandOver(stepId));
  }

  lemma RungDelivers(c: Config, index: nat, dueAt: nat, id: nat)
    requires index < |c.waits|
    ensures Deliveries(Rung(c, index, dueAt, id)) == [RunStep(index, dueAt)]
  {
    NoDeliveries(PassOf(c.waits[index]));
    NoDeliveries(HandOver(id));
    NoDeliveries([StepFinish(0)]);
    OneDelivery(StepDelivered(0, index, dueAt), StepBegin(0));
    hide Deliveries, HandOver, PassOf;
    DeliveriesConcat(Begin(index, dueAt), [StepFinish(0)]);
    DeliveriesConcat(Begin(index, dueAt) + [StepFinish(0)], PassOf(c.waits[index]));
    DeliveriesConcat(Begin(index, dueAt) + [StepFinish(0)] + PassOf(c.waits[index]), HandOver(id));
  }

  lemma {:induction false} ClimbDelivers(c: Config, index: nat, dueAt: nat, id: nat)
    requires index <= LastIndex(c)
    ensures Deliveries(ClimbOf(c, index, dueAt, id)) == StepsOf(index, dueAt)
  {
    if index > 0 {
      ClimbOfOne(c, index, dueAt, id);
      assert StepsOf(index, dueAt) == StepsOf(index - 1, dueAt) + [RunStep(index - 1, dueAt)];
      hide Deliveries, Rung, ClimbOf, StepsOf, ClimbTo;
      ClimbDelivers(c, index - 1, dueAt, id);
      RungDelivers(c, index - 1, dueAt, id + index - 1);
      DeliveriesConcat(ClimbOf(c, index - 1, dueAt, id), Rung(c, index - 1, dueAt, id + index - 1));
    }
  }

  lemma UpToGraceDelivers(c: Config, dueAt: nat, id: nat)
    ensures Deliveries(UpToGrace(c, dueAt, id)) == StepsOf(LastIndex(c) + 1, dueAt)
  {
    ClimbDelivers(c, LastIndex(c), dueAt, id);
    OneDelivery(StepDelivered(0, LastIndex(c), dueAt), StepBegin(0));
    hide Deliveries, ClimbOf;
    DeliveriesConcat(ClimbOf(c, LastIndex(c), dueAt, id), Begin(LastIndex(c), dueAt));
  }

  /** From the draft to just before the second entry into grace. */
  function UpToSecondGrace(c: Config): seq<Event> {
    FirstPart(c) + SecondIncident(c) + UpToGrace(c, FirstGrace(c) + c.interval, LastIndex(c) + 5)
  }

  /** What that run delivers, in order: the due job and every step of either incident, each once. */
  function Delivered(c: Config): seq<Job> {
    [Due(c.interval)] + StepsOf(LastIndex(c) + 1, c.interval)
    + [Due(FirstGrace(c) + c.interval)] + StepsOf(LastIndex(c) + 1, FirstGrace(c) + c.interval)
  }

  lemma FirstPartDelivers(c: Config)
    ensures Deliveries(FirstPart(c)) == [Due(c.interval)] + StepsOf(LastIndex(c) + 1, c.interval)
  {
    var arm, incident := [ArmRead(0), ArmCommit(0)], IncidentOf(c.interval, c.interval, 0, 1);
    NoDeliveries(arm);
    NoDeliveries([StepFinish(0)]);
    IncidentDelivers(c.interval, c.interval, 0, 1);
    UpToGraceDelivers(c, c.interval, 2);
    hide Deliveries, IncidentOf, UpToGrace, StepsOf;
    DeliveriesConcat(arm, incident);
    DeliveriesConcat(arm + incident, UpToGrace(c, c.interval, 2));
    DeliveriesConcat(arm + incident + UpToGrace(c, c.interval, 2), [StepFinish(0)]);
  }

  lemma SecondIncidentDelivers(c: Config)
    ensures Deliveries(SecondIncident(c)) == [Due(FirstGrace(c) + c.interval)]
  {
    var dueAt, id := FirstGrace(c) + c.interval, LastIndex(c) + 3;
    NoDeliveries(CHECKIN);
    hide Deliveries, IncidentOf, FirstGrace;
    IncidentDelivers(c.interval, dueAt, id, id + 1);
    DeliveriesConcat(CHECKIN, IncidentOf(c.interval, dueAt, id, id + 1));
  }

  lemma RunDelivers(c: Config)
    ensures Deliveries(UpToSecondGrace(c)) == Delivered(c)
  {
    var dueAt, id := FirstGrace(c) + c.interval, LastIndex(c) + 3;
    hide Deliveries, IncidentOf, UpToGrace, StepsOf, FirstPart, FirstGrace, SecondIncident;
    SecondIncidentDelivers(c);
    UpToGraceDelivers(c, dueAt, id + 2);
    FirstPartDelivers(c);
    DeliveriesConcat(FirstPart(c), SecondIncident(c));
    DeliveriesConcat(FirstPart(c) + SecondIncident(c), UpToGrace(c, dueAt, id + 2));
  }

  lemma {:induction false} StepsAre(n: nat, dueAt: nat, i: nat)
    requires i < |StepsOf(n, dueAt)|
    ensures i < n && StepsOf(n, dueAt)[i] == RunStep(i, dueAt)
    ensures |StepsOf(n, dueAt)| == n
  {
    StepsCount(n - 1, dueAt);
    if i < n - 1 { StepsAre(n - 1, dueAt, i); }
  }

  lemma {:induction false} StepsCount(n: nat, dueAt: nat)
    ensures |StepsOf(n, dueAt)| == n
  {
    if n > 0 { StepsCount(n - 1, dueAt); }
  }

  /** No job is delivered twice, and no expiry job at all. */
  lemma DeliveredOnce(c: Config)
    requires c.interval > 0
    ensures forall i, j :: 0 <= i < j < |Delivered(c)| ==> Delivered(c)[i] != Delivered(c)[j]
    ensures forall i :: 0 <= i < |Delivered(c)| ==> !Delivered(c)[i].GraceExpiry?
  {
    var n := LastIndex(c) + 1;
    var d, e := c.interval, FirstGrace(c) + c.interval;
    StepsCount(n, d);
    StepsCount(n, e);
    forall i | 0 <= i < n ensures StepsOf(n, d)[i] == RunStep(i, d) && StepsOf(n, e)[i] == RunStep(i, e) {
      StepsAre(n, d, i);
      StepsAre(n, e, i);
    }
    hide StepsOf, WholeClimb, LastIndex;
    var all := Delivered(c);
    assert all[0] == Due(d) && all[n + 1] == Due(e);
    assert forall i :: 0 < i <= n ==> all[i] == RunStep(i - 1, d);
    assert forall i :: n + 1 < i < |all| ==> all[i] == RunStep(i - n - 2, e);
  }

  // ---------- the result ----------

  lemma SecondGraceFollows(c: Config) returns (w: World)
    requires c.interval > 0
    ensures Follows(c, 0, UpToSecondGrace(c), StepFinish(0), w)
    ensures w.row.state == S.GracePeriod && w.Now() == 2 * FirstGrace(c)
    ensures InTable(w.box, GraceExpiry(FirstGrace(c)), w.Now() + c.grace)
  {
    hide At, NewWorld, Runnable, Exec, Enabled, Apply, FirstPart, SecondIncident, UpToGrace, World.InQueue, InTable, FirstGrace;
    var a := FirstPartRuns(c);
    var b := SecondIncidentOpens(c, a);
    var u, v := SecondGraceIsEntered(c, b);
    Then(c, NewWorld(0), FirstPart(c), a, SecondIncident(c));
    Then(c, NewWorld(0), FirstPart(c) + SecondIncident(c), b, UpToGrace(c, FirstGrace(c) + c.interval, LastIndex(c) + 5));
    w := v;
  }

  /**
   The latest grace period need not be waited out, whatever interval, grace period and
   ladder a scenario has: grace is entered, left by a check-in at once, and entered again
   after another interval; from there some run, which delivers nothing that has been
   delivered, enters release before the second grace period is over.
   */
  lemma LatestGraceIsNotWaitedOut(c: Config, spent: set<Job>) returns (w: World)
    requires c.interval > 0 && c.grace > 0
    requires forall job :: job in spent ==> job in Delivered(c)
    ensures Follows(c, 0, UpToSecondGrace(c), StepFinish(0), w) && Deliveries(UpToSecondGrace(c)) == Delivered(c)
    ensures forall i, j :: 0 <= i < j < |Delivered(c)| ==> Delivered(c)[i] != Delivered(c)[j]
    ensures w.row.state == S.GracePeriod && w.Now() == 2 * FirstGrace(c)
    ensures MayMoveBy(c, w, spent, Enter, w.Now() + c.grace)
  {
    RunDelivers(c);
    DeliveredOnce(c);
    w := SecondGraceFollows(c);
    hide Follows, InTable, MayMoveBy, UpToSecondGrace, Delivered, Deliveries;
    var job := GraceExpiry(FirstGrace(c));
    assert job !in spent && Triggers(Enter, job) && CanArrive(w.box, job, w.Now() + c.grace);
    GraceIsWaitedOutIff(c, 0, UpToSecondGrace(c), 0, w, spent);
  }

  lemma InQueueAfter(w: World, id: nat)
    requires id in w.box.rows
    ensures var b := w.box;
      w.(box := b.(rows := b.rows - {id}, handed := b.handed + [O.Handover(b.rows[id].job, b.rows[id].original, b.now)]))
        .InQueue(b.rows[id].job)
  {
    var b := w.box;
    assert (b.handed + [O.Handover(b.rows[id].job, b.rows[id].original, b.now)])[|b.handed|].job == b.rows[id].job;
  }
}
