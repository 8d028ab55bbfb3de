/** What holds over every run of the release pipeline. */
module ReleaseTheorems {
  import opened Basics
  import opened ReleaseModel
  import opened ReleaseInvariants
  import S = ScenarioStates

  // ---------- at most one owner, at most one call per key ----------

  ghost predicate OneHolderPerAction(s: System) {
    forall w, v | w in s.runs && v in s.runs && Holding(s.runs[w].pc) && Holding(s.runs[v].pc) ::
      s.runs[w].action == s.runs[v].action ==> w == v
  }

  lemma SendingIsExclusive(s0: System, es: seq<Event>)
    requires Initial(s0) && Runnable(s0, es)
    ensures OneHolderPerAction(Exec(s0, es))
    ensures KeysUnique(Exec(s0, es).calls)
  {
    InitialInv(s0);
    RunKeepsInv(s0, es);
    assert HoldersOwn(Exec(s0, es)) && LogSound(Exec(s0, es));
  }

  lemma CallsNeverExceedAttempts(s0: System, es: seq<Event>, a: nat)
    requires Initial(s0) && Runnable(s0, es) && a in Exec(s0, es).db.actions
    ensures CallsOf(Exec(s0, es).calls, a) <= Exec(s0, es).db.actions[a].attempts
  {
    InitialInv(s0);
    RunKeepsInv(s0, es);
    assert CallsWithinAttempts(Exec(s0, es));
  }

  /** Reported outcomes are true of the rows, in every reachable state. */
  lemma VerdictsAreTrue(s0: System, es: seq<Event>, r: nat)
    requires Initial(s0) && Runnable(s0, es) && r in Exec(s0, es).db.releases
    ensures var d := Exec(s0, es).db;
      && (d.releases[r].state == Completed ==> d.AllExecuted(r))
      && (d.releases[r].state == PartiallyFailed ==> d.AllTerminal(r) && !d.AllExecuted(r))
      && (ScenarioIs(d, r, S.Released) ==> d.AllTerminal(r))
  {
    InitialInv(s0);
    RunKeepsInv(s0, es);
    assert VerdictSound(Exec(s0, es).db, r);
  }

  lemma {:induction false} TerminalActionsAbsorb(s: System, es: seq<Event>, a: nat)
    requires Runnable(s, es) && a in s.db.actions
    ensures a in Exec(s, es).db.actions
    ensures Terminal(s.db.actions[a].state) ==> Exec(s, es).db.actions[a].state == s.db.actions[a].state
    decreases |es|
  {
    if es != [] {
      StepEvolves(s, es[0]);
      TerminalActionsAbsorb(Apply(s, es[0]), es[1..], a);
    }
  }

  // ---------- cancelled releases ----------

  predicate OfRelease(d: Db, a: nat, r: nat) {
    a in d.actions && d.actions[a].release == r
  }

  function CallsIn(d: Db, calls: seq<Call>, r: nat): nat {
    if calls == [] then 0
    else CallsIn(d, calls[..|calls| - 1], r) + if OfRelease(d, calls[|calls| - 1].key.action, r) then 1 else 0
  }

  /** The runs that are past the decrypt gate and have not called the provider yet. */
  function PastGateOf(s: System, r: nat): set<nat> {
    set w | w in s.runs && PastGate(s.runs[w].pc) && OfRelease(s.db, s.runs[w].action, r)
  }

  predicate Unlocks(e: Event, r: nat) {
    e.ForceUnlock? && e.release == r
  }

  ghost predicate CanceledIn(s: System, r: nat) {
    r in s.db.releases && s.db.releases[r].canceled
  }

  lemma {:induction false} CallsInStable(d: Db, d': Db, calls: seq<Call>, r: nat)
    requires RowsEvolve(d, d')
    requires forall i :: 0 <= i < |calls| ==> calls[i].key.action in d.actions
    ensures CallsIn(d', calls, r) == CallsIn(d, calls, r)
  {
    if calls != [] { CallsInStable(d, d', calls[..|calls| - 1], r); }
  }

  lemma CancelLasts(s: System, e: Event, r: nat)
    requires CanceledIn(s, r) && Enabled(s, e) && !Unlocks(e, r)
    ensures CanceledIn(Apply(s, e), r)
  {
    if e.Work? && !e.step.Complete? { StepShape(s, e.run, e.step); }
  }

  /** The rows of a release that exist stay its rows, and no others join. */
  ghost predicate SameRows(d: Db, d': Db, r: nat) {
    RowsEvolve(d, d') && NoNewActions(d, d', r)
  }

  lemma StepKeepsRows(s: System, e: Event, r: nat)
    requires Enabled(s, e) && r in s.db.releases
    ensures SameRows(s.db, Apply(s, e).db, r)
  {
    StepEvolves(s, e);
    NewActionsElsewhere(s, e, r);
  }

  ghost predicate NoActionLive(s: System, r: nat) {
    forall a :: OfRelease(s.db, a, r) ==> !s.db.Live(a)
  }

  lemma CancelBlocksGate(s: System, e: Event, s': System, r: nat)
    requires RowsLinked(s) && NoActionLive(s, r) && Moves(s, e, s') && SameRows(s.db, s'.db, r)
    ensures PastGateOf(s', r) <= PastGateOf(s, r)
    ensures forall w :: w in PastGateOf(s', r) ==> s'.runs[w].startedAt == s.runs[w].startedAt
    ensures s'.calls != s.calls ==> e.Work? && e.run !in PastGateOf(s', r)
    ensures s'.calls != s.calls && OfRelease(s.db, s.runs[e.run].action, r) ==> e.run in PastGateOf(s, r)
  {
    forall w | w in PastGateOf(s', r)
      ensures w in PastGateOf(s, r) && s'.runs[w].startedAt == s.runs[w].startedAt
    {
      assert w in s.runs;
      assert OfRelease(s.db, s.runs[w].action, r);
    }
  }

  /** Gate passes plus calls can only shrink while a release stays cancelled. */
  lemma CancelBudgetStep(s: System, e: Event, s': System, r: nat)
    requires RowsLinked(s) && CallsLinked(s) && NoActionLive(s, r) && Moves(s, e, s') && SameRows(s.db, s'.db, r)
    ensures CallsIn(s'.db, s'.calls, r) + |PastGateOf(s', r)| <= CallsIn(s.db, s.calls, r) + |PastGateOf(s, r)|
  {
    CancelBlocksGate(s, e, s', r);
    CallsInStable(s.db, s'.db, s.calls, r);
    SubsetSize(PastGateOf(s', r), PastGateOf(s, r));
    if s'.calls != s.calls {
      assert s'.calls[..|s'.calls| - 1] == s.calls;
      if OfRelease(s.db, s.runs[e.run].action, r) {
        SubsetSize(PastGateOf(s', r), PastGateOf(s, r) - {e.run});
      }
    }
  }

  lemma CancelBlocksExecution(s: System, e: Event, r: nat, a: nat)
    requires CanceledIn(s, r) && Enabled(s, e) && OfRelease(s.db, a, r)
    ensures a in Apply(s, e).db.actions
    ensures Apply(s, e).db.actions[a].state == Executed ==> s.db.actions[a].state == Executed
  {
    StepEvolves(s, e);
    if e.Work? {
      StepShape(s, e.run, e.step);
      assert !s.db.Live(a);
    } else {
      EnvShape(s, e);
    }
  }

  /** How a release winds down between two states. */
  ghost predicate WoundDown(s: System, s': System, r: nat) {
    && CanceledIn(s', r)
    && (forall a :: OfRelease(s.db, a, r) <==> OfRelease(s'.db, a, r))
    && (forall w :: w in PastGateOf(s', r) ==> w in PastGateOf(s, r) && s'.runs[w].startedAt == s.runs[w].startedAt)
    && CallsIn(s'.db, s'.calls, r) + |PastGateOf(s', r)| <= CallsIn(s.db, s.calls, r) + |PastGateOf(s, r)|
    && (forall a :: OfRelease(s.db, a, r) && OfRelease(s'.db, a, r) && s'.db.actions[a].state == Executed ==>
      s.db.actions[a].state == Executed)
  }

  lemma WindDownStep(s: System, e: Event, r: nat)
    requires Inv(s) && CanceledIn(s, r) && Enabled(s, e) && !Unlocks(e, r)
    ensures WoundDown(s, Apply(s, e), r)
  {
    CancelLasts(s, e, r);
    StepMoves(s, e);
    StepKeepsRows(s, e, r);
    assert NoActionLive(s, r) && CallsLinked(s);
    CancelBlocksGate(s, e, Apply(s, e), r);
    CancelBudgetStep(s, e, Apply(s, e), r);
    forall a | OfRelease(s.db, a, r) && Apply(s, e).db.actions[a].state == Executed
      ensures s.db.actions[a].state == Executed
    {
      CancelBlocksExecution(s, e, r, a);
    }
  }

  lemma WindDownReflexive(s: System, r: nat)
    requires CanceledIn(s, r)
    ensures WoundDown(s, s, r)
  {}

  lemma WindDownComposes(s: System, t: System, u: System, r: nat)
    requires WoundDown(s, t, r) && WoundDown(t, u, r)
    ensures WoundDown(s, u, r)
  {}

  /**
   Once cancelled and not force-unlocked: no run newly passes the decrypt gate, the
   provider is called at most once more for each run already past it, and nothing
   becomes executed.
   */
  lemma {:induction false} CanceledReleaseWindsDown(s: System, es: seq<Event>, r: nat)
    requires Inv(s) && Runnable(s, es) && CanceledIn(s, r)
    requires forall i :: 0 <= i < |es| ==> !Unlocks(es[i], r)
    ensures WoundDown(s, Exec(s, es), r)
    decreases |es|
  {
    hide Inv, WoundDown;
    if es == [] {
      WindDownReflexive(s, r);
    } else {
      var t := Apply(s, es[0]);
      StepKeepsInv(s, es[0]);
      WindDownStep(s, es[0], r);
      assert forall i :: 0 <= i < |es[1..]| ==> es[1..][i] == es[i + 1];
      CanceledReleaseWindsDown(t, es[1..], r);
      WindDownComposes(s, t, Exec(t, es[1..]), r);
    }
  }

  /** The same over whole runs: split a run at any moment the release is cancelled. */
  lemma CancelStopsSends(s0: System, es: seq<Event>, fs: seq<Event>, r: nat)
    requires Initial(s0) && Runnable(s0, es) && Runnable(Exec(s0, es), fs) && CanceledIn(Exec(s0, es), r)
    requires forall i :: 0 <= i < |fs| ==> !Unlocks(fs[i], r)
    ensures var s, s' := Exec(s0, es), Exec(Exec(s0, es), fs);
      && CallsIn(s'.db, s'.calls, r) <= CallsIn(s.db, s.calls, r) + |PastGateOf(s, r)|
      && PastGateOf(s', r) <= PastGateOf(s, r)
      && (forall a :: OfRelease(s'.db, a, r) && s'.db.actions[a].state == Executed ==>
        OfRelease(s.db, a, r) && s.db.actions[a].state == Executed)
  {
    InitialInv(s0);
    RunKeepsInv(s0, es);
    CanceledReleaseWindsDown(Exec(s0, es), fs, r);
  }

  /** Where a late acknowledgement lands: exactly on `sent_after_abort`, unless the row was closed already. */
  lemma LateAckIsRecorded(s: System, w: nat)
    requires HoldersOwn(s) && Enabled(s, Work(w, AckTx)) && !s.db.Live(s.runs[w].action)
    ensures var a := s.runs[w].action; var d' := Apply(s, Work(w, AckTx)).db;
      && a in s.db.actions && a in d'.actions
      && d'.actions[a].state == (if s.db.actions[a].state == Sending then SentAfterAbort else s.db.actions[a].state)
      && (s.db.actions[a].state != Sending ==> Terminal(s.db.actions[a].state))
  {}

  // ---------- tainted releases ----------

  /** Past the sibling-taint check, or able to skip it. */
  predicate PastTaintCheck(pc: Pc) {
    !(pc.Entry? || pc.Loading? || pc.Tainting?)
  }

  /** Every run of the release that got past the taint check started before `t`. */
  ghost predicate OldRunsOnly(s: System, r: nat, t: nat) {
    forall w :: w in s.runs && OfRelease(s.db, s.runs[w].action, r) && PastTaintCheck(s.runs[w].pc) ==>
      s.runs[w].startedAt < t
  }

  ghost predicate Clocked(s: System) {
    forall w :: w in s.runs ==> s.runs[w].startedAt < s.now
  }

  lemma {:induction false} RunKeepsClock(s: System, es: seq<Event>)
    requires Clocked(s) && Runnable(s, es)
    ensures Clocked(Exec(s, es))
    decreases |es|
  {
    if es != [] {
      var e := es[0];
      if e.Work? { StepShape(s, e.run, e.step); } else { EnvShape(s, e); }
      RunKeepsClock(Apply(s, e), es[1..]);
    }
  }

  lemma TaintLasts(s: System, e: Event, r: nat)
    requires Enabled(s, e) && s.db.Tainted(r)
    ensures Apply(s, e).db.Tainted(r)
  {
    StepEvolves(s, e);
    var a :| a in s.db.actions && s.db.actions[a].release == r && s.db.actions[a].state == SentAfterAbort;
    assert Apply(s, e).db.actions[a].state == SentAfterAbort;
  }

  /** Getting past the check takes a count that found no tainted sibling. */
  lemma TaintGate(s: System, w: nat, step: Step)
    requires Enabled(s, Work(w, step)) && w in Apply(s, Work(w, step)).runs
    requires PastTaintCheck(Apply(s, Work(w, step)).runs[w].pc) && !PastTaintCheck(s.runs[w].pc)
    ensures s.runs[w].action in s.db.actions ==> !s.db.Tainted(s.db.actions[s.runs[w].action].release)
  {
    StepShape(s, w, step);
    assert step.CountTaint?;
  }

  /** The log only grew, and what it gained for the release came from runs that started before `t`. */
  ghost predicate NewCallsAreOld(s: System, calls: seq<Call>, r: nat, t: nat) {
    && s.calls <= calls
    && forall i :: |s.calls| <= i < |calls| && OfRelease(s.db, calls[i].key.action, r) ==> calls[i].startedAt < t
  }

  lemma TaintStep(s: System, e: Event, s': System, r: nat, t: nat)
    requires Moves(s, e, s') && SameRows(s.db, s'.db, r) && OldRunsOnly(s, r, t)
    requires e.Work? && PcIn(s', e.run).Some? && !PastTaintCheck(s.runs[e.run].pc) ==>
      !PastTaintCheck(s'.runs[e.run].pc) || !OfRelease(s.db, s.runs[e.run].action, r)
    ensures OldRunsOnly(s', r, t)
    ensures NewCallsAreOld(s, s'.calls, r, t)
  {
    forall w | w in s'.runs && OfRelease(s'.db, s'.runs[w].action, r) && PastTaintCheck(s'.runs[w].pc)
      ensures s'.runs[w].startedAt < t
    {
      assert OfRelease(s.db, s'.runs[w].action, r);
    }
  }

  lemma {:induction false} TaintStopsLaterRuns(s: System, es: seq<Event>, r: nat, t: nat)
    requires Inv(s) && Runnable(s, es) && r in s.db.releases && s.db.Tainted(r) && OldRunsOnly(s, r, t)
    ensures NewCallsAreOld(s, Exec(s, es).calls, r, t)
    decreases |es|
  {
    if es != [] {
      var e, u := es[0], Apply(s, es[0]);
      StepKeepsInv(s, e);
      TaintLasts(s, e, r);
      StepMoves(s, e);
      StepKeepsRows(s, e, r);
      if e.Work? && e.run in u.runs && !PastTaintCheck(s.runs[e.run].pc) && PastTaintCheck(u.runs[e.run].pc) {
        TaintGate(s, e.run, e.step);
      }
      TaintStep(s, e, u, r, t);
      ReleasesStay(s, e, r);
      TaintStopsLaterRuns(u, es[1..], r, t);
      NewCallsCompose(s, u, Exec(s, es).calls, r, t);
    }
  }

  lemma ReleasesStay(s: System, e: Event, r: nat)
    requires Enabled(s, e) && r in s.db.releases
    ensures r in Apply(s, e).db.releases
  {
    if e.Work? && !e.step.Complete? { StepShape(s, e.run, e.step); }
  }

  lemma NewCallsCompose(s: System, u: System, calls: seq<Call>, r: nat, t: nat)
    requires RowsEvolve(s.db, u.db)
    requires NewCallsAreOld(s, u.calls, r, t) && NewCallsAreOld(u, calls, r, t)
    ensures NewCallsAreOld(s, calls, r, t)
  {}

  /** The same over whole runs: split a run where the taint appeared. */
  lemma NoCallAfterTaint(s0: System, es: seq<Event>, fs: seq<Event>, r: nat, i: nat)
    requires Initial(s0) && Runnable(s0, es) && Runnable(Exec(s0, es), fs)
    requires r in Exec(s0, es).db.releases && Exec(s0, es).db.Tainted(r)
    requires |Exec(s0, es).calls| <= i < |Exec(Exec(s0, es), fs).calls|
    requires OfRelease(Exec(s0, es).db, Exec(Exec(s0, es), fs).calls[i].key.action, r)
    ensures Exec(Exec(s0, es), fs).calls[i].startedAt < Exec(s0, es).now
  {
    InitialInv(s0);
    RunKeepsInv(s0, es);
    RunKeepsClock(s0, es);
    TaintStopsLaterRuns(Exec(s0, es), fs, r, Exec(s0, es).now);
  }
}
