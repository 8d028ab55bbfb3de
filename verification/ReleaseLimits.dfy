/**
 How far the bounds on provider calls are reached. A run that throws after an ambiguous
 outcome was booked leaves its action retryable at a new attempt number, so an action
 can call as often as the queue lets it, and the executor's own MAX_ATTEMPTS holds of
 its calls exactly when the queue allows no more attempts than that.
 */
module ReleaseLimits {
  import opened Basics
  import opened ReleaseModel
  import opened ReleaseInvariants
  import opened ReleaseAttempts
  import S = ScenarioStates

  /** `trace` leads through `states`, and the queue's job for `a` through `jobs`. */
  ghost predicate Tracked(limit: Option<nat>, states: seq<System>, jobs: seq<Job>, trace: seq<Event>, a: nat) {
    && |states| == |trace| + 1 && |jobs| == |trace| + 1
    && forall i :: 0 <= i < |trace| ==> Advances(limit, states[i], jobs[i], trace[i], states[i + 1], jobs[i + 1], a)
  }

  ghost predicate Advances(limit: Option<nat>, s: System, j: Job, e: Event, s': System, j': Job, a: nat) {
    Enabled(s, e) && s' == Apply(s, e) && Delivers(limit, j, e, a) && j' == JobAfter(s, j, e, s', a)
  }

  lemma {:induction false} TrackedIsRun(limit: Option<nat>, states: seq<System>, jobs: seq<Job>, trace: seq<Event>, a: nat)
    requires Tracked(limit, states, jobs, trace, a)
    ensures Runnable(states[0], trace) && Exec(states[0], trace) == states[|trace|]
    ensures Disciplined(limit, states[0], jobs[0], trace, a) && FinalJob(states[0], jobs[0], trace, a) == jobs[|trace|]
    decreases |trace|
  {
    hide Apply, Enabled, JobAfter, Delivers;
    if trace != [] {
      assert Advances(limit, states[0], jobs[0], trace[0], states[1], jobs[1], a);
      forall i | 0 <= i < |trace[1..]|
        ensures Advances(limit, states[1..][i], jobs[1..][i], trace[1..][i], states[1..][i + 1], jobs[1..][i + 1], a)
      {
        assert states[1..][i] == states[i + 1] && jobs[1..][i] == jobs[i + 1] && trace[1..][i] == trace[i + 1];
        assert states[1..][i + 1] == states[i + 2] && jobs[1..][i + 1] == jobs[i + 2];
        assert Advances(limit, states[i + 1], jobs[i + 1], trace[i + 1], states[i + 2], jobs[i + 2], a);
      }
      TrackedIsRun(limit, states[1..], jobs[1..], trace[1..], a);
    }
  }

  // ---------- one attempt that ends badly ----------

  /** Nothing runs, and attempt `n` at action `a` can start. */
  ghost predicate Ready(s: System, a: nat, n: nat) {
    && s.runs == map[] && s.db.Live(a) && Retryable(s.db.actions[a].state)
    && !s.db.Tainted(s.db.actions[a].release)
    && forall m :: n <= m ==> Key(a, m) !in s.db.dispatches
  }

  function AttemptEvents(a: nat, n: nat): (es: seq<Event>)
    ensures |es| == 11
  {
    [Start(0, a, n), Work(0, Interlock(true)), Work(0, Step.CountTaint), Work(0, Step.Claim), Work(0, OpenPayload(true)),
     Work(0, IssueLinks(true)), Work(0, Step.Reserve), Work(0, CallProvider(Some(Ambiguous))), Work(0, Settle),
     Work(0, CloseFailure), Work(0, Throw)]
  }

  function With(s: System, pc: Pc, db: Db, calls: seq<Call>, a: nat, n: nat, ms: nat): System {
    System(db, map[0 := Run(pc, a, n, s.now)], calls, s.now + ms)
  }

  function Put(d: Db, a: nat, state: ActionState, attempts: nat): Db
    requires a in d.actions
  {
    d.(actions := d.actions[a := Action(d.actions[a].release, state, attempts)])
  }

  /** The rows between the eleven events. */
  function AttemptStates(s: System, a: nat, n: nat): seq<System>
    requires a in s.db.actions
  {
    var claimed := Put(s.db, a, Sending, s.db.actions[a].attempts + 1);
    var reserved := claimed.(dispatches := claimed.dispatches[Key(a, n) := Reserved]);
    var failed := Put(reserved, a, FailedTemporary, s.db.actions[a].attempts + 1);
    var calls := s.calls + [Call(0, Key(a, n), s.now, s.now + 7)];
    [s, With(s, Entry, s.db, s.calls, a, n, 1), With(s, Loading, s.db, s.calls, a, n, 2),
     With(s, Claiming, s.db, s.calls, a, n, 3), With(s, Claimed, claimed, s.calls, a, n, 4),
     With(s, Opened, claimed, s.calls, a, n, 5), With(s, Issued, claimed, s.calls, a, n, 6),
     With(s, CallDue, reserved, s.calls, a, n, 7), With(s, Answered(Some(Ambiguous)), reserved, calls, a, n, 8),
     With(s, Failing(Ambiguous), reserved, calls, a, n, 9), With(s, Counting, failed, calls, a, n, 10),
     System(failed, map[], calls, s.now + 11)]
  }

  lemma PutStaysLive(d: Db, a: nat, state: ActionState, attempts: nat)
    requires d.Live(a)
    ensures Put(d, a, state, attempts).Live(a)
    ensures state != SentAfterAbort && !d.Tainted(d.actions[a].release) ==>
      !Put(d, a, state, attempts).Tainted(d.actions[a].release)
  {}

  /** Event `i` of an attempt leads to the next of its states. */
  ghost predicate Leads(s: System, a: nat, n: nat, i: nat)
    requires a in s.db.actions && i < 11
  {
    && Enabled(AttemptStates(s, a, n)[i], AttemptEvents(a, n)[i])
    && Apply(AttemptStates(s, a, n)[i], AttemptEvents(a, n)[i]) == AttemptStates(s, a, n)[i + 1]
  }

  lemma Starts(s: System, a: nat, n: nat)
    requires Ready(s, a, n) && 1 <= n
    ensures Leads(s, a, n, 0)
  {}

  lemma Enters(s: System, a: nat, n: nat)
    requires Ready(s, a, n)
    ensures Leads(s, a, n, 1)
  {
    assert a in s.db.actions;
    hide Ready;
    OneRun(AttemptStates(s, a, n)[1], Loading);
  }

  lemma FindsNoTaint(s: System, a: nat, n: nat)
    requires Ready(s, a, n)
    ensures Leads(s, a, n, 2)
  {
    var t := AttemptStates(s, a, n)[2];
    assert !t.db.Tainted(t.db.actions[a].release);
    hide Ready, Db.Tainted;
    OneRun(t, Claiming);
  }

  lemma Claims(s: System, a: nat, n: nat)
    requires Ready(s, a, n)
    ensures Leads(s, a, n, 3)
  {
    OneRun(AttemptStates(s, a, n)[3], Claimed);
    assert !Terminal(s.db.actions[a].state);
  }

  lemma Opens(s: System, a: nat, n: nat)
    requires Ready(s, a, n)
    ensures Leads(s, a, n, 4)
  {
    PutStaysLive(s.db, a, Sending, s.db.actions[a].attempts + 1);
    var t := AttemptStates(s, a, n)[4];
    assert GateOpens(t.db, a);
    hide GateOpens, Ready;
    OneRun(t, Opened);
  }

  lemma Issues(s: System, a: nat, n: nat)
    requires Ready(s, a, n)
    ensures Leads(s, a, n, 5)
  {
    assert a in s.db.actions;
    hide Ready;
    OneRun(AttemptStates(s, a, n)[5], Issued);
  }

  lemma OneRun(s: System, pc: Pc)
    requires s.runs.Keys == {0}
    ensures s.Goto(0, pc).runs == map[0 := s.runs[0].(pc := pc)]
    ensures s.End(0).runs == map[]
  {}

  lemma Reserves(s: System, a: nat, n: nat)
    requires Ready(s, a, n)
    ensures Leads(s, a, n, 6)
  {}

  lemma Calls(s: System, a: nat, n: nat)
    requires Ready(s, a, n)
    ensures Leads(s, a, n, 7)
  {}

  lemma Settles(s: System, a: nat, n: nat)
    requires Ready(s, a, n)
    ensures Leads(s, a, n, 8)
  {
    var t := AttemptStates(s, a, n)[8];
    assert t.db.dispatches[Key(a, n) := Reserved] == t.db.dispatches;
  }

  lemma Fails(s: System, a: nat, n: nat)
    requires Ready(s, a, n)
    ensures Leads(s, a, n, 9)
  {
    var t := AttemptStates(s, a, n)[9];
    assert t.db.CloseIf(a, {Sending}, FailedTemporary) == AttemptStates(s, a, n)[10].db;
  }

  lemma Throws(s: System, a: nat, n: nat)
    requires Ready(s, a, n)
    ensures Leads(s, a, n, 10)
  {
    assert a in s.db.actions;
    hide Ready;
    OneRun(AttemptStates(s, a, n)[10], Counting);
  }

  lemma AttemptLeads(s: System, a: nat, n: nat, i: nat)
    requires Ready(s, a, n) && 1 <= n && i < 11
    ensures Leads(s, a, n, i)
  {
    hide Leads, Ready;
    if i == 0 { Starts(s, a, n); }
    else if i == 1 { Enters(s, a, n); }
    else if i == 2 { FindsNoTaint(s, a, n); }
    else if i == 3 { Claims(s, a, n); }
    else if i == 4 { Opens(s, a, n); }
    else if i == 5 { Issues(s, a, n); }
    else if i == 6 { Reserves(s, a, n); }
    else if i == 7 { Calls(s, a, n); }
    else if i == 8 { Settles(s, a, n); }
    else if i == 9 { Fails(s, a, n); }
    else { Throws(s, a, n); }
  }

  /** Afterwards attempt `n + 1` can start, and there is one call more. */
  lemma AttemptEndsReady(s: System, a: nat, n: nat)
    requires Ready(s, a, n)
    ensures var t := AttemptStates(s, a, n)[11];
      Ready(t, a, n + 1) && CallsOf(t.calls, a) == CallsOf(s.calls, a) + 1
  {
    var t := AttemptStates(s, a, n)[11];
    PutStaysLive(s.db, a, FailedTemporary, s.db.actions[a].attempts + 1);
    assert t.calls[..|t.calls| - 1] == s.calls;
    assert t.db.Live(a) && !t.db.Tainted(t.db.actions[a].release);
  }

  // ---------- as many as you like ----------

  /** How many of the throws at attempts 1 to `n` overran. */
  function OverrunsBy(n: nat): nat {
    if n < MAX_ATTEMPTS then 0 else n - MAX_ATTEMPTS + 1
  }

  function JobAt(j: Job, i: nat): Job {
    if i == 0 then j else if i < 11 then j.(phase := Active(0))
    else Job(j.made + 1, Waiting, j.overruns + if j.made + 1 >= MAX_ATTEMPTS then 1 else 0)
  }

  ghost predicate Follows(limit: Option<nat>, s: System, j: Job, a: nat, n: nat, i: nat)
    requires a in s.db.actions && i < 11
  {
    var e, t, t' := AttemptEvents(a, n)[i], AttemptStates(s, a, n)[i], AttemptStates(s, a, n)[i + 1];
    && Delivers(limit, JobAt(j, i), e, a)
    && (e.Work? ==> e.run in t.runs)
    && JobAt(j, i + 1) == JobAfter(t, JobAt(j, i), e, t', a)
  }

  lemma JobGoesOn(limit: Option<nat>, s: System, j: Job, a: nat, n: nat, i: nat)
    requires a in s.db.actions && 1 <= i < 10
    ensures Follows(limit, s, j, a, n, i)
  {
    var t, t' := AttemptStates(s, a, n)[i], AttemptStates(s, a, n)[i + 1];
    assert t.runs[0].action == a && 0 in t'.runs;
    assert AttemptEvents(a, n)[i].Work? && AttemptEvents(a, n)[i].run == 0;
  }

  lemma JobThrows(limit: Option<nat>, s: System, j: Job, a: nat, n: nat)
    requires a in s.db.actions && n == j.made + 1
    ensures Follows(limit, s, j, a, n, 10)
  {
    var t, t' := AttemptStates(s, a, n)[10], AttemptStates(s, a, n)[11];
    assert AttemptEvents(a, n)[10] == Work(0, Throw);
    assert t.runs[0] == Run(Counting, a, n, s.now) && t'.runs == map[];
    assert t.calls[|s.calls|].key == Key(a, n);
    assert Called(t.calls, Key(a, n)) && t'.db.actions[a].state == FailedTemporary;
  }

  lemma JobFollows(limit: Option<nat>, s: System, j: Job, a: nat, n: nat, i: nat)
    requires a in s.db.actions && j.phase.Waiting? && n == j.made + 1 && i < 11
    requires limit.Some? ==> n <= limit.value
    ensures Follows(limit, s, j, a, n, i)
  {
    if 1 <= i {
      hide Follows;
      if i < 10 { JobGoesOn(limit, s, j, a, n, i); } else { JobThrows(limit, s, j, a, n); }
    }
  }

  lemma AttemptAdvances(limit: Option<nat>, s: System, j: Job, a: nat, n: nat, i: nat)
    requires Ready(s, a, n) && j.phase.Waiting? && 1 <= n == j.made + 1 && i < 11
    requires limit.Some? ==> n <= limit.value
    ensures Advances(limit, AttemptStates(s, a, n)[i], JobAt(j, i), AttemptEvents(a, n)[i],
                     AttemptStates(s, a, n)[i + 1], JobAt(j, i + 1), a)
  {
    AttemptLeads(s, a, n, i);
    JobFollows(limit, s, j, a, n, i);
    hide Apply, Enabled, JobAfter, Delivers, Ready, JobAt, AttemptStates, AttemptEvents;
  }

  lemma TrackOne(limit: Option<nat>, states: seq<System>, jobs: seq<Job>, trace: seq<Event>, e: Event, s: System, j: Job, a: nat)
    requires Tracked(limit, states, jobs, trace, a) && Advances(limit, states[|trace|], jobs[|trace|], e, s, j, a)
    ensures Tracked(limit, states + [s], jobs + [j], trace + [e], a)
  {
    hide Advances;
  }

  lemma {:induction false} AddAttempt(limit: Option<nat>, states: seq<System>, jobs: seq<Job>, trace: seq<Event>, a: nat, n: nat, i: nat)
      returns (states': seq<System>, jobs': seq<Job>, trace': seq<Event>)
    requires Tracked(limit, states, jobs, trace, a) && 1 <= n && i <= 11
    requires Ready(states[|trace|], a, n) && a in states[|trace|].db.actions
    requires jobs[|trace|].phase.Waiting? && n == jobs[|trace|].made + 1
    requires limit.Some? ==> n <= limit.value
    ensures Tracked(limit, states', jobs', trace', a) && |trace'| == |trace| + i
    ensures states'[0] == states[0] && jobs'[0] == jobs[0]
    ensures states'[|trace'|] == AttemptStates(states[|trace|], a, n)[i] && jobs'[|trace'|] == JobAt(jobs[|trace|], i)
    decreases i
  {
    hide Advances, Ready, AttemptEvents, With, Put;
    var s, j := states[|trace|], jobs[|trace|];
    if i == 0 {
      return states, jobs, trace;
    }
    hide AttemptStates, JobAt;
    states', jobs', trace' := AddAttempt(limit, states, jobs, trace, a, n, i - 1);
    AttemptAdvances(limit, s, j, a, n, i - 1);
    TrackOne(limit, states', jobs', trace', AttemptEvents(a, n)[i - 1], AttemptStates(s, a, n)[i], JobAt(j, i), a);
    states', jobs', trace' := states' + [AttemptStates(s, a, n)[i]], jobs' + [JobAt(j, i)], trace' + [AttemptEvents(a, n)[i - 1]];
  }

  /** A scenario about to release. */
  const BEFORE := System(Db(map[0 := S.GracePeriod], map[], map[], map[]), map[], [], 0)

  lemma FirstAttemptReady() returns (s: System)
    ensures Enabled(BEFORE, Event.BeginRelease(0, 0, {0})) && s == Apply(BEFORE, Event.BeginRelease(0, 0, {0}))
    ensures Ready(s, 0, 1) && s.calls == []
  {
    s := Apply(BEFORE, Event.BeginRelease(0, 0, {0}));
    assert s.db.actions == map[0 := Action(0, Pending, 0)];
  }

  /** Attempts 1 to `n`, each ending in a throw after its ambiguous outcome was booked. */
  lemma {:induction false} AttemptsPileUp(limit: Option<nat>, n: nat)
      returns (states: seq<System>, jobs: seq<Job>, trace: seq<Event>)
    requires limit.Some? ==> n <= limit.value
    ensures Tracked(limit, states, jobs, trace, 0) && states[0] == BEFORE && jobs[0] == NEW_JOB
    ensures Ready(states[|trace|], 0, n + 1) && jobs[|trace|] == Job(n, Waiting, OverrunsBy(n))
    ensures CallsOf(states[|trace|].calls, 0) == n
  {
    if n == 0 {
      var s := FirstAttemptReady();
      states, jobs, trace := [BEFORE, s], [NEW_JOB, NEW_JOB], [Event.BeginRelease(0, 0, {0})];
      assert Advances(limit, BEFORE, NEW_JOB, trace[0], s, NEW_JOB, 0);
    } else {
      states, jobs, trace := AttemptsPileUp(limit, n - 1);
      AttemptEndsReady(states[|trace|], 0, n);
      states, jobs, trace := AddAttempt(limit, states, jobs, trace, 0, n, 11);
    }
  }

  lemma LastAttemptCalls(s: System, a: nat, n: nat)
    requires a in s.db.actions
    ensures CallsOf(AttemptStates(s, a, n)[10].calls, a) == CallsOf(s.calls, a) + 1
  {
    var t := AttemptStates(s, a, n)[10];
    assert t.calls[..|t.calls| - 1] == s.calls;
  }

  /**
   Every number of calls that the queue's limit allows is made in some run, in which all
   bounds are met: one call more than throws, and MAX_ATTEMPTS and the overruns from there on.
   */
  lemma EveryCallCountIsReached(limit: Option<nat>, n: nat) returns (es: seq<Event>)
    requires 1 <= n && (limit.Some? ==> n <= limit.value)
    ensures Initial(BEFORE) && Runnable(BEFORE, es) && Disciplined(limit, BEFORE, NEW_JOB, es, 0)
    ensures var j := FinalJob(BEFORE, NEW_JOB, es, 0);
      && CallsOf(Exec(BEFORE, es).calls, 0) == n == j.made + 1
      && (n >= MAX_ATTEMPTS ==> n == MAX_ATTEMPTS + j.overruns)
  {
    var states, jobs, trace := AttemptsPileUp(limit, n - 1);
    LastAttemptCalls(states[|trace|], 0, n);
    states, jobs, trace := AddAttempt(limit, states, jobs, trace, 0, n, 10);
    TrackedIsRun(limit, states, jobs, trace, 0);
    es := trace;
  }

  /** No action ever causes more than `n` provider calls. */
  ghost predicate NeverExceeds(limit: Option<nat>, n: nat) {
    forall s, es, a | Initial(s) && Runnable(s, es) && Disciplined(limit, s, NEW_JOB, es, a) :: CallsOf(Exec(s, es).calls, a) <= n
  }

  /**
   The queue's limit alone decides how often an action can call: at most `n` times in all
   runs exactly when the queue has a limit and it is at most `n`. So MAX_ATTEMPTS bounds the
   calls exactly under a limit no larger, and a queue without a limit leaves no bound at all.
   */
  lemma QueueLimitDecides(limit: Option<nat>, n: nat)
    ensures NeverExceeds(limit, n) <==> limit.Some? && limit.value <= n
  {
    hide Initial, CallsOf;
    if limit.Some? && limit.value <= n {
      forall s, es, a | Initial(s) && Runnable(s, es) && Disciplined(limit, s, NEW_JOB, es, a)
        ensures CallsOf(Exec(s, es).calls, a) <= n
      {
        CallsFollowThrows(limit, s, es, a);
      }
    } else {
      var es := EveryCallCountIsReached(limit, n + 1);
    }
  }
}
