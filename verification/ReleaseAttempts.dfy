/**
 How many provider calls one action can cause. The queue gives each action one job: it
 is delivered to one run at a time, its attempt number rises only when a run throws, and
 a run that returns ends it. A crashed run is redelivered with the number it had. The
 queue may stop after a number of attempts; told nothing, it stops after the first.
 */
module ReleaseAttempts {
  import opened Basics
  import opened ReleaseModel
  import opened ReleaseInvariants

  datatype Phase = Waiting | Active(run: nat) | Ended

  /** `made` counts the runs that threw; `overruns` those that Overruns describes. */
  datatype Job = Job(made: nat, phase: Phase, overruns: nat)

  const NEW_JOB := Job(0, Waiting, 0)

  /** The relay adds jobs without a number of attempts, and the queue then makes one. */
  const RELAY_LIMIT: Option<nat> := Some(1)

  datatype Ending = Goes | Returns | Throws | Crashes

  /** How a step that led to `s'` ended its run, if it did. */
  function EndingOf(s': System, w: nat, step: Step): Ending {
    if w in s'.runs then Goes
    else match step
      case Interlock(_) => Throws
      case CloseIssueFailure => Throws
      case CloseFailure => Throws
      case Complete => Throws
      case Throw => Throws
      case Crash => Crashes
      case _ => Returns
  }

  /** The queue delivers the job of `a` only while it waits, with the next number, up to its limit if it has one. */
  predicate Delivers(limit: Option<nat>, j: Job, e: Event, a: nat) {
    e.Start? && e.action == a ==>
      j.phase.Waiting? && e.attempt == j.made + 1 && (limit.Some? ==> e.attempt <= limit.value)
  }

  predicate Called(calls: seq<Call>, key: Key) {
    exists i :: 0 <= i < |calls| && calls[i].key == key
  }

  /** A throw at the last attempt of the executor or beyond, although that attempt has called and the action is retryable. */
  predicate Overruns(s: System, w: nat, s': System, a: nat)
    requires w in s.runs
  {
    && s.runs[w].attempt >= MAX_ATTEMPTS && Called(s.calls, Key(a, s.runs[w].attempt))
    && a in s'.db.actions && Retryable(s'.db.actions[a].state)
  }

  function JobAfter(s: System, j: Job, e: Event, s': System, a: nat): Job
    requires e.Work? ==> e.run in s.runs
  {
    match e
    case Start(w, b, _) => if b == a then j.(phase := Active(w)) else j
    case Work(w, step) =>
      if s.runs[w].action != a then j
      else
        (match EndingOf(s', w, step)
         case Goes => j
         case Returns => j.(phase := Ended)
         case Throws => Job(j.made + 1, Waiting, j.overruns + if Overruns(s, w, s', a) then 1 else 0)
         case Crashes => j.(phase := Waiting))
    case _ => j
  }

  predicate Disciplined(limit: Option<nat>, s: System, j: Job, es: seq<Event>, a: nat)
    requires Runnable(s, es)
    decreases |es|
  {
    es != [] ==>
      && Delivers(limit, j, es[0], a)
      && Disciplined(limit, Apply(s, es[0]), JobAfter(s, j, es[0], Apply(s, es[0]), a), es[1..], a)
  }

  function FinalJob(s: System, j: Job, es: seq<Event>, a: nat): Job
    requires Runnable(s, es)
    decreases |es|
  {
    if es == [] then j else FinalJob(Apply(s, es[0]), JobAfter(s, j, es[0], Apply(s, es[0]), a), es[1..], a)
  }

  // ---------- early and late attempts ----------

  /** Calls at attempt `n` or beyond. */
  function LateCalls(calls: seq<Call>, a: nat, n: nat): nat {
    if calls == [] then 0
    else
      var c := calls[|calls| - 1].key;
      LateCalls(calls[..|calls| - 1], a, n) + if c.action == a && c.attempt >= n then 1 else 0
  }

  function EarlyAttempts(calls: seq<Call>, a: nat, n: nat): set<nat> {
    if calls == [] then {}
    else
      var c := calls[|calls| - 1].key;
      EarlyAttempts(calls[..|calls| - 1], a, n) + if c.action == a && c.attempt < n then {c.attempt} else {}
  }

  lemma {:induction false} EarlyAttemptsFrom(calls: seq<Call>, a: nat, n: nat, m: nat) returns (i: nat)
    requires m in EarlyAttempts(calls, a, n)
    ensures m < n && i < |calls| && calls[i].key == Key(a, m)
  {
    var last := |calls| - 1;
    if calls[last].key == Key(a, m) && m < n {
      i := last;
    } else {
      i := EarlyAttemptsFrom(calls[..last], a, n, m);
    }
  }

  lemma {:induction false} CallsSplit(calls: seq<Call>, a: nat, n: nat)
    requires KeysUnique(calls)
    ensures CallsOf(calls, a) == LateCalls(calls, a, n) + |EarlyAttempts(calls, a, n)|
  {
    if calls == [] {
    } else {
      var rest, c := calls[..|calls| - 1], calls[|calls| - 1].key;
      assert KeysUnique(rest);
      CallsSplit(rest, a, n);
      if c.action == a && c.attempt in EarlyAttempts(rest, a, n) {
        var i := EarlyAttemptsFrom(rest, a, n, c.attempt);
        assert false;
      }
    }
  }

  /** The numbers from 1 to `n`. */
  function UpTo(n: nat): (r: set<nat>)
    ensures |r| == n && forall m: nat :: m in r <==> 1 <= m <= n
  {
    if n == 0 then {} else UpTo(n - 1) + {n}
  }

  /** One call for each number at most: beyond the late calls there are fewer than `n`. */
  lemma LateCallsDecide(calls: seq<Call>, a: nat, n: nat)
    requires KeysUnique(calls) && 1 <= n
    requires forall i :: 0 <= i < |calls| && calls[i].key.action == a ==> 1 <= calls[i].key.attempt
    ensures CallsOf(calls, a) <= n - 1 + LateCalls(calls, a, n)
  {
    CallsSplit(calls, a, n);
    forall m | m in EarlyAttempts(calls, a, n) ensures m in UpTo(n - 1) {
      var i := EarlyAttemptsFrom(calls, a, n, m);
    }
    SubsetSize(EarlyAttempts(calls, a, n), UpTo(n - 1));
  }

  lemma {:induction false} NoLateCalls(calls: seq<Call>, a: nat, n: nat)
    requires forall i :: 0 <= i < |calls| && calls[i].key.action == a ==> calls[i].key.attempt < n
    ensures LateCalls(calls, a, n) == 0
  {
    if calls != [] { NoLateCalls(calls[..|calls| - 1], a, n); }
  }

  // ---------- the invariant of one job ----------

  /** The job's run is the only one on the action and carries the job's attempt number. */
  ghost predicate JobOwns(s: System, j: Job, a: nat) {
    && (forall w :: w in s.runs && s.runs[w].action == a ==>
      j.phase == Active(w) && s.runs[w].attempt == j.made + 1)
    && (j.phase.Active? ==> j.phase.run in s.runs && s.runs[j.phase.run].action == a)
    && (forall i :: 0 <= i < |s.calls| && s.calls[i].key.action == a ==> 1 <= s.calls[i].key.attempt <= j.made + 1)
  }

  /** Nothing was delivered or called beyond the limit. */
  ghost predicate InLimit(limit: Option<nat>, s: System, j: Job, a: nat) {
    limit.Some? ==>
      && (j.phase.Active? ==> j.made + 1 <= limit.value)
      && (forall i :: 0 <= i < |s.calls| && s.calls[i].key.action == a ==> s.calls[i].key.attempt <= limit.value)
  }

  /** Nobody holds the action and nobody can claim it. */
  ghost predicate Dead(s: System, a: nat) {
    && a in s.db.actions && !Retryable(s.db.actions[a].state)
    && forall w :: w in s.runs && s.runs[w].action == a ==> !Holding(s.runs[w].pc)
  }

  /** No further call can follow before the next throw that overruns. */
  ghost predicate Spent(s: System, j: Job, a: nat) {
    (j.made + 1 >= MAX_ATTEMPTS && Called(s.calls, Key(a, j.made + 1))) || Dead(s, a)
  }

  ghost predicate WithinBudget(s: System, j: Job, a: nat) {
    && LateCalls(s.calls, a, MAX_ATTEMPTS) <= 1 + j.overruns
    && (LateCalls(s.calls, a, MAX_ATTEMPTS) == 1 + j.overruns ==> Spent(s, j, a))
  }

  lemma MovesKeepJob(limit: Option<nat>, s: System, j: Job, e: Event, s': System, a: nat)
    requires JobOwns(s, j, a) && InLimit(limit, s, j, a)
    requires Moves(s, e, s') && Delivers(limit, j, e, a) && (e.Start? ==> 1 <= e.attempt)
    ensures JobOwns(s', JobAfter(s, j, e, s', a), a) && InLimit(limit, s', JobAfter(s, j, e, s', a), a)
  {
    hide Overruns;
  }

  lemma DeadStays(s: System, e: Event, s': System, a: nat)
    requires Dead(s, a) && Moves(s, e, s')
    ensures Dead(s', a)
    ensures s'.calls != s.calls ==> s.runs[e.run].action != a
  {}

  lemma CalledStays(s: System, e: Event, s': System, key: Key)
    requires Called(s.calls, key) && Moves(s, e, s')
    ensures Called(s'.calls, key)
  {
    var i :| 0 <= i < |s.calls| && s.calls[i].key == key;
    assert s'.calls[i] == s.calls[i];
  }

  /** A throw with nothing left to retry leaves the action dead. */
  lemma ThrowLeavesDead(s: System, j: Job, w: nat, step: Step, s': System, a: nat)
    requires JobOwns(s, j, a) && RowsEvolve(s.db, s'.db) && Moves(s, Work(w, step), s')
    requires s.runs[w].action == a && w !in s'.runs && a in s.db.actions && !Retryable(s'.db.actions[a].state)
    ensures Dead(s', a)
  {}

  lemma SpentStays(s: System, j: Job, e: Event, s': System, a: nat)
    requires JobOwns(s, j, a) && CallsLinked(s) && RowsEvolve(s.db, s'.db) && Moves(s, e, s') && Spent(s, j, a)
    ensures var j' := JobAfter(s, j, e, s', a); j'.overruns == j.overruns ==> Spent(s', j', a)
  {
    var j' := JobAfter(s, j, e, s', a);
    if Dead(s, a) {
      DeadStays(s, e, s', a);
    } else {
      var key := Key(a, j.made + 1);
      CalledStays(s, e, s', key);
      var i :| 0 <= i < |s.calls| && s.calls[i].key == key;
      assert a in s.db.actions && a in s'.db.actions;
      hide Called, CallsLinked;
      if j'.made != j.made && j'.overruns == j.overruns {
        assert s.runs[e.run].attempt == j.made + 1;
        ThrowLeavesDead(s, j, e.run, e.step, s', a);
      }
    }
  }

  lemma LateCallsGrow(calls: seq<Call>, a: nat, n: nat)
    requires calls != []
    ensures var c := calls[|calls| - 1].key;
      LateCalls(calls, a, n) == LateCalls(calls[..|calls| - 1], a, n) + if c.action == a && c.attempt >= n then 1 else 0
  {}

  lemma NewCallIsNew(calls: seq<Call>, call: Call)
    requires KeysUnique(calls + [call])
    ensures !Called(calls, call.key)
  {
    var all := calls + [call];
    forall i | 0 <= i < |calls| ensures calls[i].key != call.key {
      assert all[i].key != all[|calls|].key;
    }
  }

  /** A spent action calls no more. */
  lemma SpentDoesNotCall(s: System, j: Job, e: Event, s': System, a: nat)
    requires JobOwns(s, j, a) && Moves(s, e, s') && s'.calls != s.calls && KeysUnique(s'.calls) && Spent(s, j, a)
    ensures s.runs[e.run].action != a
  {
    if Dead(s, a) {
      DeadStays(s, e, s', a);
    } else {
      NewCallIsNew(s.calls, s'.calls[|s.calls|]);
    }
  }

  lemma StepKeepsBudget(s: System, j: Job, e: Event, s': System, a: nat)
    requires JobOwns(s, j, a) && CallsLinked(s) && WithinBudget(s, j, a)
    requires Moves(s, e, s') && RowsEvolve(s.db, s'.db) && KeysUnique(s'.calls)
    ensures WithinBudget(s', JobAfter(s, j, e, s', a), a)
  {
    var j' := JobAfter(s, j, e, s', a);
    if Spent(s, j, a) { SpentStays(s, j, e, s', a); }
    if s'.calls != s.calls {
      assert s'.calls[..|s'.calls| - 1] == s.calls;
      LateCallsGrow(s'.calls, a, MAX_ATTEMPTS);
      if Spent(s, j, a) {
        SpentDoesNotCall(s, j, e, s', a);
      } else if s.runs[e.run].action == a {
        assert j' == j && s'.calls[|s.calls|].key == Key(a, j.made + 1);
      }
    }
    hide Spent, LateCalls, RowsEvolve, CallsLinked, KeysUnique;
  }

  lemma {:induction false} RunKeepsBudget(limit: Option<nat>, s: System, j: Job, es: seq<Event>, a: nat)
    requires Inv(s) && JobOwns(s, j, a) && InLimit(limit, s, j, a) && WithinBudget(s, j, a)
    requires Runnable(s, es) && Disciplined(limit, s, j, es, a)
    ensures var t, k := Exec(s, es), FinalJob(s, j, es, a);
      Inv(t) && JobOwns(t, k, a) && InLimit(limit, t, k, a) && WithinBudget(t, k, a)
    decreases |es|
  {
    if es != [] {
      var e := es[0];
      StepKeepsInv(s, e);
      StepMoves(s, e);
      StepEvolves(s, e);
      MovesKeepJob(limit, s, j, e, Apply(s, e), a);
      assert CallsLinked(s) by { assert LogSound(s); }
      assert LogSound(Apply(s, e));
      StepKeepsBudget(s, j, e, Apply(s, e), a);
      hide Inv, JobOwns, InLimit, WithinBudget, Moves, RowsEvolve, Enabled, Apply, JobAfter, LogSound;
      RunKeepsBudget(limit, Apply(s, e), JobAfter(s, j, e, Apply(s, e), a), es[1..], a);
    }
  }

  lemma RunIsWithin(limit: Option<nat>, s: System, es: seq<Event>, a: nat)
    requires Initial(s) && Runnable(s, es) && Disciplined(limit, s, NEW_JOB, es, a)
    ensures var t, k := Exec(s, es), FinalJob(s, NEW_JOB, es, a);
      KeysUnique(t.calls) && JobOwns(t, k, a) && InLimit(limit, t, k, a) && WithinBudget(t, k, a)
  {
    InitialInv(s);
    RunKeepsBudget(limit, s, NEW_JOB, es, a);
    assert LogSound(Exec(s, es));
  }

  /** An action never causes more calls than one for each run that threw and one more, nor more than the queue's limit. */
  lemma CallsFollowThrows(limit: Option<nat>, s: System, es: seq<Event>, a: nat)
    requires Initial(s) && Runnable(s, es) && Disciplined(limit, s, NEW_JOB, es, a)
    ensures CallsOf(Exec(s, es).calls, a) <= FinalJob(s, NEW_JOB, es, a).made + 1
    ensures limit.Some? ==> CallsOf(Exec(s, es).calls, a) <= limit.value
  {
    RunIsWithin(limit, s, es, a);
    var calls, made := Exec(s, es).calls, FinalJob(s, NEW_JOB, es, a).made;
    NoLateCalls(calls, a, made + 2);
    LateCallsDecide(calls, a, made + 2);
    if limit.Some? {
      NoLateCalls(calls, a, limit.value + 1);
      LateCallsDecide(calls, a, limit.value + 1);
    }
  }

  /** As the relay adds jobs, an action reaches its provider at most once in its lifetime. */
  lemma RelayedActionCallsOnce(s: System, es: seq<Event>, a: nat)
    requires Initial(s) && Runnable(s, es) && Disciplined(RELAY_LIMIT, s, NEW_JOB, es, a)
    ensures CallsOf(Exec(s, es).calls, a) <= 1
  {
    CallsFollowThrows(RELAY_LIMIT, s, es, a);
  }

  /**
   Whatever the queue's limit, an action causes at most MAX_ATTEMPTS provider calls,
   ambiguous outcomes included, plus one for each throw that overran them.
   */
  lemma CallsAreBounded(limit: Option<nat>, s: System, es: seq<Event>, a: nat)
    requires Initial(s) && Runnable(s, es) && Disciplined(limit, s, NEW_JOB, es, a)
    ensures CallsOf(Exec(s, es).calls, a) <= MAX_ATTEMPTS + FinalJob(s, NEW_JOB, es, a).overruns
  {
    RunIsWithin(limit, s, es, a);
    LateCallsDecide(Exec(s, es).calls, a, MAX_ATTEMPTS);
  }
}
