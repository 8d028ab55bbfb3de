/**
 The release pipeline as a state machine. Rows are shared; every transaction and
 every single conditional update is one atomic step, and any number of executor
 runs, operators and user actions interleave between steps. A run may stop
 anywhere (crash), and the same action may be delivered any number of times.
 */
module ReleaseModel {
  import opened Basics
  import S = ScenarioStates

  const MAX_ATTEMPTS := 5

  // ---------- rows ----------

  datatype ActionState =
    | Pending | Sending | Executed | FailedTemporary | FailedPermanent | Aborted | Suppressed | SentAfterAbort

  predicate Terminal(st: ActionState) {
    st in {Executed, FailedPermanent, Aborted, Suppressed, SentAfterAbort}
  }

  /** The states a run may claim, and the only ones an operator sweep aborts. */
  predicate Retryable(st: ActionState) {
    st in {Pending, FailedTemporary}
  }

  datatype Action = Action(release: nat, state: ActionState, attempts: nat)

  datatype ReleaseState = Executing | Completed | PartiallyFailed | Withdrawn

  datatype Release = Release(scenario: nat, state: ReleaseState, canceled: bool)

  /** The idempotency key of one attempt at one action. */
  datatype Key = Key(action: nat, attempt: nat)

  datatype DispatchStatus = Reserved | Sent | Failed

  datatype Db = Db(
    scenarios: map<nat, S.ScenarioState>,
    releases: map<nat, Release>,
    actions: map<nat, Action>,
    dispatches: map<Key, DispatchStatus>)
  {
    predicate Tainted(r: nat) {
      exists a :: a in actions && actions[a].release == r && actions[a].state == SentAfterAbort
    }

    /** The action's release is not cancelled and its scenario is still releasing. */
    predicate Live(a: nat) {
      && a in actions
      && var r := actions[a].release;
      && r in releases && !releases[r].canceled
      && releases[r].scenario in scenarios
      && scenarios[releases[r].scenario] == S.ReleaseInProgress
    }

    /** No row of the release counts as pending, sending or failed_temporary. */
    predicate AllTerminal(r: nat) {
      forall a :: a in actions && actions[a].release == r ==> Terminal(actions[a].state)
    }

    /** No row of the release counts as failed, aborted, suppressed or sent after an abort. */
    predicate NoneUnexecuted(r: nat) {
      forall a :: a in actions && actions[a].release == r ==>
        actions[a].state !in {FailedPermanent, Aborted, Suppressed, SentAfterAbort}
    }

    predicate AllExecuted(r: nat) {
      forall a :: a in actions && actions[a].release == r ==> actions[a].state == Executed
    }

    /** A conditional update of one action row: it changes only if its state is in `where`. */
    function CloseIf(a: nat, guard: set<ActionState>, to: ActionState): Db {
      if a in actions && actions[a].state in guard
      then this.(actions := actions[a := actions[a].(state := to)])
      else this
    }

    /** A conditional update of every action row, or of those of one release. */
    function SweepIf(only: Option<nat>): Db {
      this.(actions := map a | a in actions ::
        if Retryable(actions[a].state) && (only.Some? ==> actions[a].release == only.value)
        then actions[a].(state := Aborted) else actions[a])
    }

    function CancelExecuting(): Db {
      this.(releases := map r | r in releases ::
        if releases[r].state == Executing then releases[r].(state := Withdrawn, canceled := true) else releases[r])
    }
  }

  // ---------- one executor run ----------

  datatype ErrorKind = Client | Config | Transient | Ambiguous | Other

  predicate Permanent(e: ErrorKind) {
    e == Client || e == Config
  }

  /** Where a run stands between two awaits. */
  datatype Pc =
    | Entry             // nothing done yet
    | Loading           // the global interlock let it in
    | Tainting          // a sibling was sent after an abort
    | Claiming          // no tainted sibling was seen
    | Claimed           // this run owns the action
    | Suppressing       // nothing to send
    | Refused           // the decrypt gate said no
    | Opened            // past the decrypt gate
    | IssueFailed       // no secure links
    | Issued            // ready for the provider adapter
    | CallDue           // dispatch row reserved
    | Duplicate         // dispatch row existed
    | Answered(failure: Option<ErrorKind>)
    | Acked             // the adapter reported success
    | Failing(error: ErrorKind)
    | Counting | CountedZero | Deciding(allExecuted: bool)
    | Finishing         // only an audit record is left

  /** Between winning the claim and the closing update. */
  predicate Holding(pc: Pc) {
    pc.Claimed? || pc.Suppressing? || pc.Refused? || pc.Opened? || pc.IssueFailed? || pc.Issued?
    || pc.CallDue? || pc.Duplicate? || pc.Answered? || pc.Acked? || pc.Failing?
  }

  /** Past the decrypt gate with the provider call still ahead. */
  predicate PastGate(pc: Pc) {
    pc.Opened? || pc.Issued? || pc.CallDue?
  }

  /** The provider call may still happen. */
  predicate MayCall(pc: Pc) {
    pc.Claimed? || PastGate(pc)
  }

  /** After the closing update. */
  predicate Closed(pc: Pc) {
    pc.Counting? || pc.CountedZero? || pc.Deciding? || pc.Finishing?
  }

  datatype Run = Run(pc: Pc, action: nat, attempt: nat, startedAt: nat)

  /** A request that reached a provider. */
  datatype Call = Call(run: nat, key: Key, startedAt: nat, at: nat)

  datatype System = System(db: Db, runs: map<nat, Run>, calls: seq<Call>, now: nat) {
    function Goto(w: nat, pc: Pc): System
      requires w in runs
    {
      this.(runs := runs[w := runs[w].(pc := pc)])
    }

    function End(w: nat): System {
      this.(runs := runs - {w})
    }

    function Write(db: Db): System {
      this.(db := db)
    }

    function KeyOf(w: nat): Key
      requires w in runs
    {
      Key(runs[w].action, runs[w].attempt)
    }
  }

  // ---------- steps ----------

  /** Arguments are what the environment decides: policy answers, provider outcomes, failures. */
  datatype Step =
    | Interlock(allow: bool)
    | CountTaint
    | AbortTainted
    | Claim
    | FindUnsendable
    | OpenPayload(ok: bool)
    | CloseRefused
    | FindMismatch
    | Suppress
    | IssueLinks(ok: bool)
    | CloseIssueFailure
    | SendRefused(cause: ErrorKind)
    | Reserve
    | ReadPrior(hasMessageId: bool)
    | CallProvider(failure: Option<ErrorKind>)
    | Settle
    | BookkeepingFails(cause: ErrorKind, status: DispatchStatus)
    | AckTx
    | AckTxFails
    | CloseFailure
    | CountPending
    | CountOutcomes
    | Complete
    | Finish
    | Throw
    | Crash

  datatype Event =
    | Start(run: nat, action: nat, attempt: nat)
    | Work(run: nat, step: Step)
    | BeginRelease(scenario: nat, release: nat, actions: set<nat>)
    | MoveScenario(scenario: nat, key: S.TransitionKey)
    | Drain
    | ForceUnlock(release: nat)
    | AbortSiblings(release: nat)

  predicate CanStep(pc: Pc, step: Step) {
    match step
    case Interlock(_) => pc.Entry?
    case CountTaint => pc.Loading?
    case AbortTainted => pc.Tainting?
    case Claim => pc.Claiming?
    case FindUnsendable => pc.Claimed?
    case OpenPayload(_) => pc.Claimed?
    case CloseRefused => pc.Refused?
    case FindMismatch => pc.Opened?
    case Suppress => pc.Suppressing?
    case IssueLinks(_) => pc.Opened?
    case CloseIssueFailure => pc.IssueFailed?
    case SendRefused(cause) => (pc.Issued? && cause in {Transient, Other}) || (pc.Duplicate? && cause == Other)
    case Reserve => pc.Issued?
    case ReadPrior(_) => pc.Duplicate?
    case CallProvider(_) => pc.CallDue?
    case Settle => pc.Answered?
    case BookkeepingFails(_, status) =>
      pc.Answered? && (pc.failure.None? || status == Reserved || (status == Failed && Permanent(pc.failure.value)))
    case AckTx => pc.Acked?
    case AckTxFails => pc.Acked?
    case CloseFailure => pc.Failing?
    case CountPending => pc.Counting?
    case CountOutcomes => pc.CountedZero?
    case Complete => pc.Deciding?
    case Finish => pc.Finishing?
    case Throw => !(pc.Issued? || pc.CallDue? || pc.Duplicate? || pc.Answered? || pc.Acked?)
    case Crash => true
  }

  predicate Enabled(s: System, e: Event) {
    match e
    case Start(w, _, n) => w !in s.runs && 1 <= n
    case Work(w, step) => w in s.runs && CanStep(s.runs[w].pc, step)
    case BeginRelease(sc, r, acts) =>
      && sc in s.db.scenarios && s.db.scenarios[sc] in S.From(S.BeginRelease)
      && r !in s.db.releases && acts !! s.db.actions.Keys
    case MoveScenario(sc, key) =>
      && key !in {S.BeginRelease, S.CompleteRelease}
      && sc in s.db.scenarios && s.db.scenarios[sc] in S.From(key)
    case Drain => true
    case ForceUnlock(_) => true
    case AbortSiblings(_) => true
  }

  function ClaimStep(s: System, w: nat): System
    requires w in s.runs
  {
    var a := s.runs[w].action;
    if a !in s.db.actions || Terminal(s.db.actions[a].state) then s.End(w)
    else if !s.db.Live(a) then s.Write(s.db.CloseIf(a, {Pending, Sending, FailedTemporary}, Aborted)).End(w)
    else if Retryable(s.db.actions[a].state) then
      var row := s.db.actions[a].(state := Sending, attempts := s.db.actions[a].attempts + 1);
      s.Write(s.db.(actions := s.db.actions[a := row])).Goto(w, Claimed)
    else s.End(w)
  }

  predicate GateOpens(db: Db, a: nat) {
    a in db.actions && !Terminal(db.actions[a].state) && db.Live(a)
  }

  function ReserveStep(s: System, w: nat): System
    requires w in s.runs
  {
    var key := s.KeyOf(w);
    if key in s.db.dispatches then s.Goto(w, Duplicate)
    else s.Write(s.db.(dispatches := s.db.dispatches[key := Reserved])).Goto(w, CallDue)
  }

  function PriorOutcome(status: DispatchStatus, hasMessageId: bool): Pc {
    if status == Sent && hasMessageId then Acked
    else if status == Failed then Failing(Client)
    else Failing(Ambiguous)
  }

  function FailureState(error: ErrorKind, attempt: nat): ActionState {
    if error == Ambiguous then FailedTemporary
    else if error == Client || attempt >= MAX_ATTEMPTS then FailedPermanent
    else FailedTemporary
  }

  function CompleteStep(s: System, w: nat): System
    requires w in s.runs && s.runs[w].pc.Deciding?
  {
    var a := s.runs[w].action;
    if a !in s.db.actions || s.db.actions[a].release !in s.db.releases then s.End(w)
    else
      var r := s.db.actions[a].release;
      var row := s.db.releases[r].(state := if s.runs[w].pc.allExecuted then Completed else PartiallyFailed);
      var sc := row.scenario;
      var scenarios := if sc in s.db.scenarios && s.db.scenarios[sc] in S.From(S.CompleteRelease)
                       then s.db.scenarios[sc := S.To(S.CompleteRelease)] else s.db.scenarios;
      s.Write(s.db.(releases := s.db.releases[r := row], scenarios := scenarios)).Goto(w, Finishing)
  }

  /** One atomic step of run `w`. */
  function Do(s: System, w: nat, step: Step): System
    requires w in s.runs && CanStep(s.runs[w].pc, step)
  {
    var run := s.runs[w];
    var a := run.action;
    var key := s.KeyOf(w);
    match step
    case Interlock(allow) => if allow then s.Goto(w, Loading) else s.End(w)
    case CountTaint =>
      if a in s.db.actions && s.db.Tainted(s.db.actions[a].release) then s.Goto(w, Tainting) else s.Goto(w, Claiming)
    case AbortTainted => s.Write(s.db.CloseIf(a, {Pending, FailedTemporary}, Aborted)).End(w)
    case Claim => ClaimStep(s, w)
    case FindUnsendable => s.Goto(w, Suppressing)
    case OpenPayload(ok) => s.Goto(w, if ok && GateOpens(s.db, a) then Opened else Refused)
    case CloseRefused => s.Write(s.db.CloseIf(a, {Sending}, Aborted)).End(w)
    case FindMismatch => s.Goto(w, Suppressing)
    case Suppress => s.Write(s.db.CloseIf(a, {Sending}, Suppressed)).Goto(w, Finishing)
    case IssueLinks(ok) => s.Goto(w, if ok then Issued else IssueFailed)
    case CloseIssueFailure => s.Write(s.db.CloseIf(a, {Sending}, FailedTemporary)).End(w)
    case SendRefused(cause) => s.Goto(w, Failing(cause))
    case Reserve => ReserveStep(s, w)
    case ReadPrior(hasMessageId) =>
      if key in s.db.dispatches then s.Goto(w, PriorOutcome(s.db.dispatches[key], hasMessageId))
      else s.Goto(w, Failing(Other))
    case CallProvider(failure) =>
      s.(calls := s.calls + [Call(w, key, run.startedAt, s.now)]).Goto(w, Answered(failure))
    case Settle =>
      var status := if run.pc.failure.None? then Sent else if Permanent(run.pc.failure.value) then Failed else Reserved;
      s.Write(s.db.(dispatches := s.db.dispatches[key := status]))
       .Goto(w, if run.pc.failure.None? then Acked else Failing(run.pc.failure.value))
    case BookkeepingFails(cause, status) =>
      s.Write(s.db.(dispatches := s.db.dispatches[key := status])).Goto(w, Failing(cause))
    case AckTx =>
      s.Write(s.db.CloseIf(a, {Sending}, if s.db.Live(a) then Executed else SentAfterAbort)).Goto(w, Counting)
    case AckTxFails => s.Goto(w, Failing(Other))
    case CloseFailure =>
      var t := s.Write(s.db.CloseIf(a, {Sending}, FailureState(run.pc.error, run.attempt)));
      if run.pc.error == Ambiguous then t.Goto(w, Counting) else t.End(w)
    case CountPending =>
      if a in s.db.actions && s.db.AllTerminal(s.db.actions[a].release) then s.Goto(w, CountedZero) else s.End(w)
    case CountOutcomes =>
      s.Goto(w, Deciding(a in s.db.actions && s.db.NoneUnexecuted(s.db.actions[a].release)))
    case Complete => CompleteStep(s, w)
    case Finish => s.End(w)
    case Throw => s.End(w)
    case Crash => s.End(w)
  }

  function Effect(s: System, e: Event): System
    requires Enabled(s, e)
  {
    match e
    case Start(w, a, n) => s.(runs := s.runs[w := Run(Entry, a, n, s.now)])
    case Work(w, step) => Do(s, w, step)
    case BeginRelease(sc, r, acts) =>
      s.Write(s.db.(
        scenarios := s.db.scenarios[sc := S.To(S.BeginRelease)],
        releases := s.db.releases[r := Release(sc, Executing, false)],
        actions := s.db.actions + (map a | a in acts :: Action(r, Pending, 0))))
    case MoveScenario(sc, key) => s.Write(s.db.(scenarios := s.db.scenarios[sc := S.To(key)]))
    case Drain => s.Write(s.db.SweepIf(None).CancelExecuting())
    case ForceUnlock(r) =>
      if r in s.db.releases && s.db.releases[r].canceled
      then s.Write(s.db.(releases := s.db.releases[r := s.db.releases[r].(state := Executing, canceled := false)]))
      else s
    case AbortSiblings(r) => s.Write(s.db.SweepIf(Some(r)))
  }

  function Apply(s: System, e: Event): System
    requires Enabled(s, e)
  {
    Effect(s, e).(now := s.now + 1)
  }

  // ---------- runs of the whole system ----------

  predicate Runnable(s: System, es: seq<Event>)
    decreases |es|
  {
    es != [] ==> Enabled(s, es[0]) && Runnable(Apply(s, es[0]), es[1..])
  }

  function Exec(s: System, es: seq<Event>): System
    requires Runnable(s, es)
    decreases |es|
  {
    if es == [] then s else Exec(Apply(s, es[0]), es[1..])
  }

  /** `states` is what `trace` leads through, one step at a time. */
  ghost predicate Linked(states: seq<System>, trace: seq<Event>) {
    && |states| == |trace| + 1
    && forall i :: 0 <= i < |trace| ==> Enabled(states[i], trace[i]) && states[i + 1] == Apply(states[i], trace[i])
  }

  lemma {:induction false} LinkedIsRun(states: seq<System>, trace: seq<Event>)
    requires Linked(states, trace)
    ensures Runnable(states[0], trace) && Exec(states[0], trace) == states[|trace|]
    decreases |trace|
  {
    if trace != [] {
      assert states[0 + 1] == Apply(states[0], trace[0]);
      forall i | 0 <= i < |trace[1..]|
        ensures Enabled(states[1..][i], trace[1..][i]) && states[1..][i + 1] == Apply(states[1..][i], trace[1..][i])
      {
        assert states[1..][i] == states[i + 1] && trace[1..][i] == trace[i + 1];
      }
      LinkedIsRun(states[1..], trace[1..]);
    }
  }

  /** No release yet, nothing running: any scenarios in any state that precedes a release. */
  predicate Initial(s: System) {
    && s.db.releases == map[] && s.db.actions == map[] && s.db.dispatches == map[]
    && s.runs == map[] && s.calls == []
    && forall sc :: sc in s.db.scenarios ==> s.db.scenarios[sc] !in {S.ReleaseInProgress, S.Released}
  }
}
