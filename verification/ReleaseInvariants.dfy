/** What every step of the release pipeline keeps. */
module ReleaseInvariants {
  import opened Basics
  import opened ReleaseModel
  import S = ScenarioStates

  // ---------- the shape of one run's step ----------

  /** The three ways a run's step may change its action row. */
  ghost predicate RowMoves(row: Action, row': Action, pc: Pc, pc': Option<Pc>) {
    && row'.release == row.release
    && !Terminal(row.state)
    && (|| (Retryable(row.state) && row'.state == Sending && row'.attempts == row.attempts + 1
            && pc.Claiming? && pc' == Some(Claimed))
        || (row.state == Sending && row'.state != Sending && row'.attempts == row.attempts
            && Holding(pc) && (pc'.Some? ==> Closed(pc'.value)))
        || (row'.state == Aborted && row'.attempts == row.attempts && !Holding(pc) && pc'.None?))
  }

  /** Every run starts holding only by a winning claim, and calls only what it reserved. */
  ghost predicate PcMoves(s: System, w: nat, pc': Option<Pc>, s': System)
    requires w in s.runs
  {
    var run := s.runs[w];
    var key := s.KeyOf(w);
    && (pc'.Some? && Holding(pc'.value) ==>
      || Holding(run.pc)
      || (pc' == Some(Claimed) && run.action in s.db.actions && s'.db.actions != s.db.actions))
    && (pc'.Some? && MayCall(pc'.value) ==> MayCall(run.pc) || pc' == Some(Claimed))
    && (pc'.Some? && pc'.value.Claimed? ==> !Holding(run.pc) && run.action in s.db.actions && s'.db.actions != s.db.actions)
    && (pc'.Some? && pc'.value.CallDue? ==> run.pc.Issued? && key !in s.db.dispatches && key in s'.db.dispatches)
    && (pc'.Some? && Closed(pc'.value) ==> Holding(run.pc) || Closed(run.pc))
    && (pc'.Some? && Closed(run.pc) ==> Closed(pc'.value))
    && (pc'.Some? && (pc'.value.CountedZero? || pc'.value.Deciding?) ==> run.pc.Counting? || run.pc.CountedZero?)
    && (pc'.Some? && PastGate(pc'.value) ==> PastGate(run.pc) || (run.pc.Claimed? && GateOpens(s.db, run.action)))
  }

  ghost predicate Shaped(s: System, w: nat, pc': Option<Pc>, s': System)
    requires w in s.runs
  {
    var run := s.runs[w];
    var a := run.action;
    var key := s.KeyOf(w);
    && s'.runs == (if pc'.Some? then s.runs[w := run.(pc := pc'.value)] else s.runs - {w})
    && PcMoves(s, w, pc', s')
    && (s'.db.actions != s.db.actions ==>
      && a in s.db.actions && a in s'.db.actions
      && s'.db.actions == s.db.actions[a := s'.db.actions[a]]
      && RowMoves(s.db.actions[a], s'.db.actions[a], run.pc, pc'))
    && (s'.db.dispatches != s.db.dispatches ==>
      key in s'.db.dispatches && s'.db.dispatches == s.db.dispatches[key := s'.db.dispatches[key]])
    && (s'.calls != s.calls ==>
      run.pc.CallDue? && pc'.Some? && pc'.value.Answered? && s'.calls == s.calls + [Call(w, key, run.startedAt, s.now)])
    && (!run.pc.Deciding? ==> s'.db.releases == s.db.releases && s'.db.scenarios == s.db.scenarios)
  }

  function PcIn(s: System, w: nat): Option<Pc> {
    if w in s.runs then Some(s.runs[w].pc) else None
  }

  lemma CloseChanges(d: Db, a: nat, guard: set<ActionState>, to: ActionState)
    requires to !in guard
    ensures d.CloseIf(a, guard, to).actions != d.actions ==> a in d.actions && d.actions[a].state in guard
    ensures a in d.actions ==> a in d.CloseIf(a, guard, to).actions
    ensures d.CloseIf(a, guard, to).actions != d.actions ==>
      d.CloseIf(a, guard, to).actions == d.actions[a := d.actions[a].(state := to)]
  {}

  lemma ClaimShape(s: System, w: nat)
    requires Enabled(s, Work(w, Claim))
    ensures Shaped(s, w, PcIn(Apply(s, Work(w, Claim)), w), Apply(s, Work(w, Claim)))
  {
    var a := s.runs[w].action;
    CloseChanges(s.db, a, {Pending, Sending, FailedTemporary}, Aborted);
    if a in s.db.actions && Retryable(s.db.actions[a].state) && s.db.Live(a) {
      assert Apply(s, Work(w, Claim)).db.actions[a].state == Sending;
    }
  }

  lemma CloseShape(s: System, w: nat, step: Step)
    requires Enabled(s, Work(w, step))
    requires step.AbortTainted? || step.CloseRefused? || step.Suppress? || step.CloseIssueFailure? || step.AckTx?
    ensures Shaped(s, w, PcIn(Apply(s, Work(w, step)), w), Apply(s, Work(w, step)))
  {
    var a := s.runs[w].action;
    match step
    case AbortTainted => CloseChanges(s.db, a, {Pending, FailedTemporary}, Aborted);
    case CloseRefused => CloseChanges(s.db, a, {Sending}, Aborted);
    case Suppress => CloseChanges(s.db, a, {Sending}, Suppressed);
    case CloseIssueFailure => CloseChanges(s.db, a, {Sending}, FailedTemporary);
    case AckTx => CloseChanges(s.db, a, {Sending}, if s.db.Live(a) then Executed else SentAfterAbort);
  }

  lemma CloseFailureShape(s: System, w: nat)
    requires Enabled(s, Work(w, CloseFailure))
    ensures Shaped(s, w, PcIn(Apply(s, Work(w, CloseFailure)), w), Apply(s, Work(w, CloseFailure)))
  {
    CloseChanges(s.db, s.runs[w].action, {Sending}, FailureState(s.runs[w].pc.error, s.runs[w].attempt));
  }

  lemma MoveShape(s: System, w: nat, step: Step)
    requires Enabled(s, Work(w, step))
    requires step.Interlock? || step.CountTaint? || step.FindUnsendable? || step.OpenPayload? || step.FindMismatch?
             || step.IssueLinks? || step.SendRefused? || step.ReadPrior? || step.AckTxFails?
    ensures Shaped(s, w, PcIn(Apply(s, Work(w, step)), w), Apply(s, Work(w, step)))
  {}

  lemma TailShape(s: System, w: nat, step: Step)
    requires Enabled(s, Work(w, step))
    requires step.CountPending? || step.CountOutcomes? || step.Complete? || step.Finish? || step.Throw? || step.Crash?
    ensures Shaped(s, w, PcIn(Apply(s, Work(w, step)), w), Apply(s, Work(w, step)))
  {}

  lemma DispatchShape(s: System, w: nat, step: Step)
    requires Enabled(s, Work(w, step))
    requires step.Reserve? || step.CallProvider? || step.Settle? || step.BookkeepingFails?
    ensures Shaped(s, w, PcIn(Apply(s, Work(w, step)), w), Apply(s, Work(w, step)))
  {}

  lemma StepShape(s: System, w: nat, step: Step)
    requires Enabled(s, Work(w, step))
    ensures Shaped(s, w, PcIn(Apply(s, Work(w, step)), w), Apply(s, Work(w, step)))
  {
    match step
    case Claim => ClaimShape(s, w);
    case CloseFailure => CloseFailureShape(s, w);
    case AbortTainted | CloseRefused | Suppress | CloseIssueFailure | AckTx => CloseShape(s, w, step);
    case Interlock(_) | CountTaint | FindUnsendable | OpenPayload(_) | FindMismatch | IssueLinks(_)
       | SendRefused(_) | ReadPrior(_) | AckTxFails => MoveShape(s, w, step);
    case CountPending | CountOutcomes | Complete | Finish | Throw | Crash => TailShape(s, w, step);
    case Reserve | CallProvider(_) | Settle | BookkeepingFails(_, _) => DispatchShape(s, w, step);
  }

  // ---------- the shape of everything else ----------

  /** Starts, operators and users leave claimed rows alone; a new release brings only fresh rows. */
  ghost predicate EnvShaped(s: System, e: Event, s': System) {
    && s'.calls == s.calls && s'.db.dispatches == s.db.dispatches
    && s'.runs == (if e.Start? then s.runs[e.run := Run(Entry, e.action, e.attempt, s.now)] else s.runs)
    && (e.Start? ==> e.run !in s.runs)
    && s.db.actions.Keys <= s'.db.actions.Keys
    && (forall a :: a in s.db.actions ==>
      || s'.db.actions[a] == s.db.actions[a]
      || (Retryable(s.db.actions[a].state) && s'.db.actions[a] == s.db.actions[a].(state := Aborted)))
    && (forall a :: a in s'.db.actions && a !in s.db.actions ==>
      e.BeginRelease? && a in e.actions && s'.db.actions[a] == Action(e.release, Pending, 0))
  }

  lemma EnvShape(s: System, e: Event)
    requires Enabled(s, e) && !e.Work?
    ensures EnvShaped(s, e, Apply(s, e))
  {}

  /** What any single event does, whoever causes it. */
  ghost predicate Moves(s: System, e: Event, s': System) {
    if e.Work? then e.run in s.runs && Shaped(s, e.run, PcIn(s', e.run), s') else EnvShaped(s, e, s')
  }

  lemma StepMoves(s: System, e: Event)
    requires Enabled(s, e)
    ensures Moves(s, e, Apply(s, e))
  {
    if e.Work? { StepShape(s, e.run, e.step); } else { EnvShape(s, e); }
  }

  // ---------- rows ----------

  /** Every action belongs to a release, every release to a scenario, every busy run to an action. */
  ghost predicate RowsLinked(s: System) {
    && (forall a :: a in s.db.actions ==> s.db.actions[a].release in s.db.releases)
    && (forall r :: r in s.db.releases ==> s.db.releases[r].scenario in s.db.scenarios)
    && (forall w :: w in s.runs && (Holding(s.runs[w].pc) || Closed(s.runs[w].pc)) ==> s.runs[w].action in s.db.actions)
  }

  /** Rows are never deleted or moved, attempts only grow, and terminal states absorb. */
  ghost predicate RowsEvolve(d: Db, d': Db) {
    && d.actions.Keys <= d'.actions.Keys
    && (forall a :: a in d.actions ==>
      && d'.actions[a].release == d.actions[a].release
      && d.actions[a].attempts <= d'.actions[a].attempts
      && (Terminal(d.actions[a].state) ==> d'.actions[a].state == d.actions[a].state))
    && d.dispatches.Keys <= d'.dispatches.Keys
  }

  lemma MovesEvolve(s: System, e: Event, s': System)
    requires Moves(s, e, s')
    ensures RowsEvolve(s.db, s'.db)
  {}

  lemma StepEvolves(s: System, e: Event)
    requires Enabled(s, e)
    ensures RowsEvolve(s.db, Apply(s, e).db)
  {
    StepMoves(s, e);
    MovesEvolve(s, e, Apply(s, e));
  }

  lemma CompleteKeepsLinks(s: System, w: nat)
    requires RowsLinked(s) && Enabled(s, Work(w, Complete))
    ensures RowsLinked(Apply(s, Work(w, Complete)))
  {}

  lemma StepKeepsLinks(s: System, e: Event)
    requires RowsLinked(s) && Enabled(s, e)
    ensures RowsLinked(Apply(s, e))
  {
    if e.Work? {
      if e.step.Complete? { CompleteKeepsLinks(s, e.run); } else { StepShape(s, e.run, e.step); }
    } else {
      EnvShape(s, e);
    }
  }

  // ---------- mutual exclusion ----------

  /** Whoever holds an action finds it `sending`, or made terminal by somebody else meanwhile. */
  ghost predicate HoldersOwn(s: System) {
    && (forall w :: w in s.runs && Holding(s.runs[w].pc) ==>
      && s.runs[w].action in s.db.actions
      && !Retryable(s.db.actions[s.runs[w].action].state))
    && (forall w, v | w in s.runs && v in s.runs && Holding(s.runs[w].pc) && Holding(s.runs[v].pc) ::
      s.runs[w].action == s.runs[v].action ==> w == v)
  }

  lemma WorkKeepsHolders(s: System, w: nat, pc': Option<Pc>, s': System)
    requires HoldersOwn(s) && w in s.runs && Shaped(s, w, pc', s')
    ensures HoldersOwn(s')
  {}

  lemma EnvKeepsHolders(s: System, e: Event, s': System)
    requires HoldersOwn(s) && EnvShaped(s, e, s')
    ensures HoldersOwn(s')
  {}

  lemma StepKeepsHolders(s: System, e: Event)
    requires HoldersOwn(s) && Enabled(s, e)
    ensures HoldersOwn(Apply(s, e))
  {
    StepMoves(s, e);
    if e.Work? {
      WorkKeepsHolders(s, e.run, PcIn(Apply(s, e), e.run), Apply(s, e));
    } else {
      EnvKeepsHolders(s, e, Apply(s, e));
    }
  }

  // ---------- the call log ----------

  function CallsOf(calls: seq<Call>, a: nat): nat {
    if calls == [] then 0
    else CallsOf(calls[..|calls| - 1], a) + if calls[|calls| - 1].key.action == a then 1 else 0
  }

  ghost predicate KeysUnique(calls: seq<Call>) {
    forall i, j :: 0 <= i < j < |calls| ==> calls[i].key != calls[j].key
  }

  ghost predicate LogSound(s: System) {
    && KeysUnique(s.calls)
    && (forall i :: 0 <= i < |s.calls| ==> s.calls[i].key in s.db.dispatches && s.calls[i].key.action in s.db.actions)
    && (forall w :: w in s.runs && s.runs[w].pc.CallDue? ==>
      && s.KeyOf(w) in s.db.dispatches
      && forall i :: 0 <= i < |s.calls| ==> s.calls[i].key != s.KeyOf(w))
  }

  lemma MovesKeepLog(s: System, e: Event, s': System)
    requires RowsLinked(s) && HoldersOwn(s) && LogSound(s) && Moves(s, e, s')
    ensures LogSound(s')
  {}

  lemma StepKeepsLog(s: System, e: Event)
    requires RowsLinked(s) && HoldersOwn(s) && LogSound(s) && Enabled(s, e)
    ensures LogSound(Apply(s, e))
  {
    StepMoves(s, e);
    MovesKeepLog(s, e, Apply(s, e));
  }

  ghost predicate CallsWithinAttempts(s: System) {
    && (forall a :: a in s.db.actions ==> CallsOf(s.calls, a) <= s.db.actions[a].attempts)
    && (forall w :: w in s.runs && MayCall(s.runs[w].pc) && s.runs[w].action in s.db.actions ==>
      CallsOf(s.calls, s.runs[w].action) < s.db.actions[s.runs[w].action].attempts)
  }

  lemma NoCallsYet(calls: seq<Call>, a: nat)
    requires forall i :: 0 <= i < |calls| ==> calls[i].key.action != a
    ensures CallsOf(calls, a) == 0
  {}

  lemma WorkKeepsAttempts(s: System, w: nat, pc': Option<Pc>, s': System)
    requires RowsLinked(s) && HoldersOwn(s) && CallsWithinAttempts(s)
    requires w in s.runs && Shaped(s, w, pc', s')
    ensures CallsWithinAttempts(s')
  {
    if s'.calls != s.calls {
      assert s'.calls[..|s'.calls| - 1] == s.calls;
      assert CallsOf(s'.calls, s.runs[w].action) == CallsOf(s.calls, s.runs[w].action) + 1;
      assert forall a :: a != s.runs[w].action ==> CallsOf(s'.calls, a) == CallsOf(s.calls, a);
    }
  }

  ghost predicate CallsLinked(s: System) {
    forall i :: 0 <= i < |s.calls| ==> s.calls[i].key.action in s.db.actions
  }

  lemma NewRowsUncalled(s: System, e: Event, s': System, a: nat)
    requires CallsLinked(s) && EnvShaped(s, e, s') && a in s'.db.actions && a !in s.db.actions
    ensures CallsOf(s'.calls, a) == 0
  {
    NoCallsYet(s.calls, a);
  }

  lemma EnvKeepsAttempts(s: System, e: Event, s': System)
    requires RowsLinked(s) && CallsLinked(s) && CallsWithinAttempts(s)
    requires EnvShaped(s, e, s')
    ensures CallsWithinAttempts(s')
  {
    forall a | a in s'.db.actions
      ensures CallsOf(s'.calls, a) <= s'.db.actions[a].attempts
    {
      if a !in s.db.actions { NewRowsUncalled(s, e, s', a); }
    }
    forall w | w in s'.runs && MayCall(s'.runs[w].pc) && s'.runs[w].action in s'.db.actions
      ensures CallsOf(s'.calls, s'.runs[w].action) < s'.db.actions[s'.runs[w].action].attempts
    {
      assert w in s.runs && s'.runs[w] == s.runs[w];
    }
  }

  lemma StepKeepsAttempts(s: System, e: Event)
    requires RowsLinked(s) && HoldersOwn(s) && LogSound(s) && CallsWithinAttempts(s) && Enabled(s, e)
    ensures CallsWithinAttempts(Apply(s, e))
  {
    StepMoves(s, e);
    if e.Work? {
      WorkKeepsAttempts(s, e.run, PcIn(Apply(s, e), e.run), Apply(s, e));
    } else {
      EnvKeepsAttempts(s, e, Apply(s, e));
    }
  }

  // ---------- completion ----------

  ghost predicate VerdictSound(d: Db, r: nat)
    requires r in d.releases
  {
    && (d.releases[r].state == Completed ==> d.AllExecuted(r))
    && (d.releases[r].state == PartiallyFailed ==> d.AllTerminal(r) && !d.AllExecuted(r))
  }

  /** What a run has counted still holds although it counted outside any transaction. */
  ghost predicate CountSound(d: Db, run: Run) {
    (run.pc.CountedZero? || run.pc.Deciding?) ==>
      && run.action in d.actions
      && d.AllTerminal(d.actions[run.action].release)
      && (run.pc.Deciding? ==> (run.pc.allExecuted <==> d.AllExecuted(d.actions[run.action].release)))
  }

  ghost predicate CompletionSound(s: System) {
    && (forall r :: r in s.db.releases ==> VerdictSound(s.db, r))
    && (forall w :: w in s.runs ==> CountSound(s.db, s.runs[w]))
    && (forall r :: r in s.db.releases && ScenarioIs(s.db, r, S.Released) ==> s.db.AllTerminal(r))
  }

  predicate ScenarioIs(d: Db, r: nat, st: S.ScenarioState)
    requires r in d.releases
  {
    d.releases[r].scenario in d.scenarios && d.scenarios[d.releases[r].scenario] == st
  }

  /** A scenario has at most one release, and only once it has entered `release_in_progress`. */
  ghost predicate OneRelease(s: System) {
    && (forall r, q | r in s.db.releases && q in s.db.releases ::
      s.db.releases[r].scenario == s.db.releases[q].scenario ==> r == q)
    && (forall r :: r in s.db.releases && s.db.releases[r].scenario in s.db.scenarios ==>
      s.db.scenarios[s.db.releases[r].scenario] in {S.ReleaseInProgress, S.Released, S.Aborted})
  }

  /** Release rows keep their scenario; a scenario that is releasing stays so or ends. */
  ghost predicate ScenariosFollow(d: Db, d': Db) {
    && d'.releases.Keys == d.releases.Keys
    && (forall r :: r in d.releases ==> d'.releases[r].scenario == d.releases[r].scenario)
    && d'.scenarios.Keys == d.scenarios.Keys
    && (forall c :: c in d.scenarios && d.scenarios[c] in {S.ReleaseInProgress, S.Released, S.Aborted} ==>
      d'.scenarios[c] in {S.ReleaseInProgress, S.Released, S.Aborted})
  }

  lemma NonBeginFollows(s: System, e: Event)
    requires Enabled(s, e) && !e.BeginRelease?
    ensures ScenariosFollow(s.db, Apply(s, e).db)
  {
    if e.Work? && !e.step.Complete? { StepShape(s, e.run, e.step); }
  }

  lemma BeginKeepsOneRelease(s: System, e: Event)
    requires RowsLinked(s) && OneRelease(s) && Enabled(s, e) && e.BeginRelease?
    ensures OneRelease(Apply(s, e))
  {
    var s' := Apply(s, e);
    assert forall r :: r in s.db.releases ==> s.db.releases[r].scenario != e.scenario;
    assert s'.db.releases == s.db.releases[e.release := Release(e.scenario, Executing, false)];
  }

  lemma StepKeepsOneRelease(s: System, e: Event)
    requires RowsLinked(s) && OneRelease(s) && Enabled(s, e)
    ensures OneRelease(Apply(s, e))
  {
    if e.BeginRelease? { BeginKeepsOneRelease(s, e); } else { NonBeginFollows(s, e); }
  }

  lemma TerminalStable(d: Db, d': Db, r: nat)
    requires RowsEvolve(d, d') && d.AllTerminal(r)
    requires NoNewActions(d, d', r)
    ensures d'.AllTerminal(r)
    ensures d'.AllExecuted(r) <==> d.AllExecuted(r)
  {
    if d.AllExecuted(r) {
    } else {
      var a :| a in d.actions && d.actions[a].release == r && d.actions[a].state != Executed;
      assert d'.actions[a].state == d.actions[a].state;
    }
  }

  /** Existing releases gain no actions. */
  ghost predicate NoNewActions(d: Db, d': Db, r: nat) {
    forall a :: a in d'.actions && a !in d.actions ==> d'.actions[a].release != r
  }

  lemma NewActionsElsewhere(s: System, e: Event, r: nat)
    requires Enabled(s, e) && r in s.db.releases
    ensures NoNewActions(s.db, Apply(s, e).db, r)
  {
    StepMoves(s, e);
  }

  /** Another party's event leaves a run's counts true. */
  lemma CountStays(s: System, e: Event, s': System, w: nat)
    requires RowsLinked(s) && CompletionSound(s) && Moves(s, e, s') && RowsEvolve(s.db, s'.db)
    requires e.Work? ==> e.run != w
    requires forall r :: r in s.db.releases ==> NoNewActions(s.db, s'.db, r)
    requires w in s'.runs
    ensures CountSound(s'.db, s'.runs[w])
  {
    if w in s.runs && (s.runs[w].pc.CountedZero? || s.runs[w].pc.Deciding?) {
      assert s'.runs[w] == s.runs[w] && CountSound(s.db, s.runs[w]);
      var r := s.db.actions[s.runs[w].action].release;
      assert r in s.db.releases;
      TerminalStable(s.db, s'.db, r);
    }
  }

  lemma StepKeepsCounts(s: System, e: Event, w: nat)
    requires RowsLinked(s) && CompletionSound(s) && Enabled(s, e)
    requires w in Apply(s, e).runs
    ensures CountSound(Apply(s, e).db, Apply(s, e).runs[w])
  {
    if e.Work? && e.run == w {
      CountingStep(s, w, e.step);
    } else {
      StepMoves(s, e);
      StepEvolves(s, e);
      forall r | r in s.db.releases ensures NoNewActions(s.db, Apply(s, e).db, r) {
        NewActionsElsewhere(s, e, r);
      }
      CountStays(s, e, Apply(s, e), w);
    }
  }

  lemma CountingStep(s: System, w: nat, step: Step)
    requires RowsLinked(s) && CompletionSound(s) && Enabled(s, Work(w, step))
    requires w in Apply(s, Work(w, step)).runs
    ensures CountSound(Apply(s, Work(w, step)).db, Apply(s, Work(w, step)).runs[w])
  {
    if step.CountOutcomes? {
      assert CountSound(s.db, s.runs[w]);
      CountOutcomesSound(s, w);
    } else if step.CountPending? {
      CountPendingSound(s, w);
    } else if !step.Throw? && !step.Crash? {
      StepShape(s, w, step);
      OtherStepsDoNotCount(s, w, step, Apply(s, Work(w, step)));
    }
  }

  lemma CountOutcomesSound(s: System, w: nat)
    requires Enabled(s, Work(w, CountOutcomes)) && CountSound(s.db, s.runs[w])
    ensures CountSound(Apply(s, Work(w, CountOutcomes)).db, Apply(s, Work(w, CountOutcomes)).runs[w])
  {
    var r := s.db.actions[s.runs[w].action].release;
    assert s.db.NoneUnexecuted(r) <==> s.db.AllExecuted(r);
  }

  lemma CountPendingSound(s: System, w: nat)
    requires Enabled(s, Work(w, CountPending)) && w in Apply(s, Work(w, CountPending)).runs
    ensures CountSound(Apply(s, Work(w, CountPending)).db, Apply(s, Work(w, CountPending)).runs[w])
  {}

  lemma OtherStepsDoNotCount(s: System, w: nat, step: Step, s': System)
    requires w in s.runs && CanStep(s.runs[w].pc, step) && !step.CountPending? && !step.CountOutcomes?
    requires !step.Throw? && !step.Crash?
    requires Shaped(s, w, PcIn(s', w), s') && w in s'.runs
    ensures CountSound(s'.db, s'.runs[w])
  {
    assert !s'.runs[w].pc.CountedZero? && !s'.runs[w].pc.Deciding?;
  }

  /** The completing transaction writes the counted verdict on the run's own release and nothing else. */
  lemma CompleteWrites(s: System, w: nat, r: nat)
    requires Enabled(s, Work(w, Complete)) && r in s.db.releases
    ensures var d' := Apply(s, Work(w, Complete)).db; var run := s.runs[w];
      && d'.actions == s.db.actions && r in d'.releases
      && (d'.releases[r].state == s.db.releases[r].state
          || (&& run.action in s.db.actions && s.db.actions[run.action].release == r
              && d'.releases[r].state == if run.pc.allExecuted then Completed else PartiallyFailed))
      && (ScenarioIs(d', r, S.Released) ==>
          || ScenarioIs(s.db, r, S.Released)
          || (&& run.action in s.db.actions && s.db.actions[run.action].release in s.db.releases
              && s.db.releases[s.db.actions[run.action].release].scenario == s.db.releases[r].scenario))
  {}

  lemma CompleteKeepsVerdicts(s: System, w: nat, r: nat)
    requires RowsLinked(s) && CompletionSound(s) && OneRelease(s) && Enabled(s, Work(w, Complete)) && r in s.db.releases
    ensures r in Apply(s, Work(w, Complete)).db.releases && VerdictSound(Apply(s, Work(w, Complete)).db, r)
    ensures ScenarioIs(Apply(s, Work(w, Complete)).db, r, S.Released) ==> Apply(s, Work(w, Complete)).db.AllTerminal(r)
  {
    CompleteWrites(s, w, r);
    var d, d' := s.db, Apply(s, Work(w, Complete)).db;
    SameActionsSameCounts(d, d', r);
    assert CountSound(d, s.runs[w]) && VerdictSound(d, r);
  }

  lemma SameActionsSameCounts(d: Db, d': Db, r: nat)
    requires d'.actions == d.actions
    ensures d'.AllTerminal(r) == d.AllTerminal(r) && d'.AllExecuted(r) == d.AllExecuted(r)
  {}

  /** Besides the completing transaction, nobody writes a verdict or releases a scenario. */
  lemma OthersKeepVerdicts(s: System, e: Event, r: nat)
    requires Enabled(s, e) && r in Apply(s, e).db.releases && !(e.Work? && e.step.Complete?)
    ensures var st := Apply(s, e).db.releases[r].state;
      st == Completed || st == PartiallyFailed ==> r in s.db.releases && s.db.releases[r].state == st
    ensures ScenarioIs(Apply(s, e).db, r, S.Released) ==>
      || (r in s.db.releases && ScenarioIs(s.db, r, S.Released))
      || (e.BeginRelease? && r !in s.db.releases)
  {
    if e.Work? { StepShape(s, e.run, e.step); }
  }

  lemma OldVerdictStands(s: System, e: Event, r: nat)
    requires CompletionSound(s) && Enabled(s, e) && r in s.db.releases && r in Apply(s, e).db.releases
    requires !(e.Work? && e.step.Complete?)
    ensures VerdictSound(Apply(s, e).db, r)
    ensures ScenarioIs(Apply(s, e).db, r, S.Released) ==> Apply(s, e).db.AllTerminal(r)
  {
    OthersKeepVerdicts(s, e, r);
    StepEvolves(s, e);
    NewActionsElsewhere(s, e, r);
    var d, d' := s.db, Apply(s, e).db;
    if d.AllTerminal(r) { TerminalStable(d, d', r); }
    assert VerdictSound(d, r);
  }

  lemma NewReleaseHasNoVerdict(s: System, e: Event, r: nat)
    requires Enabled(s, e) && r !in s.db.releases && r in Apply(s, e).db.releases
    ensures Apply(s, e).db.releases[r].state == Executing
    ensures !ScenarioIs(Apply(s, e).db, r, S.Released)
  {
    if e.Work? {
      StepShape(s, e.run, e.step);
    } else {
      assert e.BeginRelease? && r == e.release;
      assert Apply(s, e).db.scenarios[e.scenario] == S.ReleaseInProgress;
    }
  }

  lemma StepKeepsVerdict(s: System, e: Event, r: nat)
    requires RowsLinked(s) && CompletionSound(s) && OneRelease(s) && Enabled(s, e) && r in Apply(s, e).db.releases
    ensures VerdictSound(Apply(s, e).db, r)
    ensures ScenarioIs(Apply(s, e).db, r, S.Released) ==> Apply(s, e).db.AllTerminal(r)
  {
    if r !in s.db.releases {
      NewReleaseHasNoVerdict(s, e, r);
    } else if e.Work? && e.step.Complete? {
      CompleteKeepsVerdicts(s, e.run, r);
    } else {
      OldVerdictStands(s, e, r);
    }
  }

  lemma StepKeepsCompletion(s: System, e: Event)
    requires RowsLinked(s) && CompletionSound(s) && OneRelease(s) && Enabled(s, e)
    ensures CompletionSound(Apply(s, e))
  {
    var s' := Apply(s, e);
    forall r | r in s'.db.releases
      ensures VerdictSound(s'.db, r) && (ScenarioIs(s'.db, r, S.Released) ==> s'.db.AllTerminal(r))
    {
      StepKeepsVerdict(s, e, r);
    }
    forall w | w in s'.runs ensures CountSound(s'.db, s'.runs[w]) {
      StepKeepsCounts(s, e, w);
    }
  }

  // ---------- together ----------

  ghost predicate Inv(s: System) {
    RowsLinked(s) && HoldersOwn(s) && LogSound(s) && CallsWithinAttempts(s) && OneRelease(s) && CompletionSound(s)
  }

  lemma StepKeepsInv(s: System, e: Event)
    requires Inv(s) && Enabled(s, e)
    ensures Inv(Apply(s, e))
  {
    StepKeepsLinks(s, e);
    StepKeepsHolders(s, e);
    StepKeepsLog(s, e);
    StepKeepsAttempts(s, e);
    StepKeepsOneRelease(s, e);
    StepKeepsCompletion(s, e);
  }

  lemma InitialInv(s: System)
    requires Initial(s)
    ensures Inv(s)
  {}

  lemma {:induction false} RunKeepsInv(s: System, es: seq<Event>)
    requires Inv(s) && Runnable(s, es)
    ensures Inv(Exec(s, es))
    decreases |es|
  {
    if es != [] {
      StepKeepsInv(s, es[0]);
      RunKeepsInv(Apply(s, es[0]), es[1..]);
    }
  }
}
