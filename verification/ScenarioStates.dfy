/**
 The scenario state machine: the declared transition table, the row it acts on,
 and the service every caller goes through. Times are milliseconds.
 */
module ScenarioStates {
  import opened Basics

  datatype ScenarioState =
    | Draft | Armed | IncidentPending | EscalationInProgress | GracePeriod
    | ReleaseInProgress | Released | Aborted | Expired

  datatype TransitionKey =
    | Arm | DisarmArmed | Expire | MissCheckin | BeginEscalation
    | RecoverIncident | RecoverEscalation | RecoverGrace | DisarmEscalation
    | BeginGrace | AbortGrace | BeginRelease | CompleteRelease | AdminKillswitch

  function From(key: TransitionKey): set<ScenarioState> {
    match key
    case Arm => {Draft}
    case DisarmArmed => {Armed}
    case Expire => {Armed, IncidentPending, EscalationInProgress, GracePeriod}
    case MissCheckin => {Armed}
    case BeginEscalation => {IncidentPending}
    case RecoverIncident => {IncidentPending}
    case RecoverEscalation => {EscalationInProgress}
    case RecoverGrace => {GracePeriod}
    case DisarmEscalation => {IncidentPending, EscalationInProgress}
    case BeginGrace => {EscalationInProgress}
    case AbortGrace => {GracePeriod}
    case BeginRelease => {GracePeriod}
    case CompleteRelease => {ReleaseInProgress}
    case AdminKillswitch => {ReleaseInProgress}
  }

  function To(key: TransitionKey): ScenarioState {
    match key
    case Arm => Armed
    case DisarmArmed => Aborted
    case Expire => Expired
    case MissCheckin => IncidentPending
    case BeginEscalation => EscalationInProgress
    case RecoverIncident => Armed
    case RecoverEscalation => Armed
    case RecoverGrace => Armed
    case DisarmEscalation => Aborted
    case BeginGrace => GracePeriod
    case AbortGrace => Aborted
    case BeginRelease => ReleaseInProgress
    case CompleteRelease => Released
    case AdminKillswitch => Aborted
  }

  predicate IsTerminal(s: ScenarioState) {
    s == Released || s == Aborted || s == Expired
  }

  // ---------- the row and its timestamps ----------

  datatype Row = Row(
    state: ScenarioState,
    armedAt: Option<int>,
    releasedAt: Option<int>,
    abortedAt: Option<int>)

  /** The columns a caller sets together with the state; None leaves a column alone. */
  datatype Extra = Extra(armedAt: Option<int>, releasedAt: Option<int>, abortedAt: Option<int>)

  const NO_EXTRA := Extra(None, None, None)

  function OrElse(a: Option<int>, b: Option<int>): Option<int> {
    if a.Some? then a else b
  }

  function Updated(row: Row, key: TransitionKey, extra: Extra): Row {
    Row(To(key), OrElse(extra.armedAt, row.armedAt), OrElse(extra.releasedAt, row.releasedAt),
        OrElse(extra.abortedAt, row.abortedAt))
  }

  /** The state and timestamp coupling, also a database CHECK constraint. */
  predicate Coupled(row: Row) {
    && (row.state != Draft ==> row.armedAt.Some?)
    && (row.state == Released <==> row.releasedAt.Some?)
    && (row.state == Aborted <==> row.abortedAt.Some?)
  }

  datatype Refusal = Denied | InvariantViolation

  /** What one call of `transition` commits, as a function of the row it finds. */
  function Attempt(row: Option<Row>, key: TransitionKey, extra: Extra): (r: Result<Row, Refusal>)
    ensures r.Success? <==> row.Some? && row.value.state in From(key) && Coupled(Updated(row.value, key, extra))
    ensures r.Success? ==> Coupled(r.value) && r.value.state == To(key) && !IsTerminal(row.value.state)
    ensures r.Success? ==>
      && (if extra.armedAt.Some? then r.value.armedAt == extra.armedAt else r.value.armedAt == row.value.armedAt)
      && (if extra.releasedAt.Some? then r.value.releasedAt == extra.releasedAt else r.value.releasedAt == row.value.releasedAt)
      && (if extra.abortedAt.Some? then r.value.abortedAt == extra.abortedAt else r.value.abortedAt == row.value.abortedAt)
    ensures r == Failure(Denied) <==> row.None? || row.value.state !in From(key)
  {
    if row.None? || row.value.state !in From(key) then Failure(Denied)
    else if Coupled(Updated(row.value, key, extra)) then Success(Updated(row.value, key, extra))
    else Failure(InvariantViolation)
  }

  /** The scenario table, and the compare-and-swap that is its only writer. */
  class StateMachineService {
    var rows: map<string, Row>

    constructor (rows: map<string, Row>)
      ensures this.rows == rows
    {
      this.rows := rows;
    }

    /** `updateMany` guarded by the states a transition may leave from. */
    method CompareAndSwap(id: string, from: set<ScenarioState>, next: Row) returns (count: nat)
      modifies this
      ensures count == 1 <==> id in old(rows) && old(rows)[id].state in from
      ensures rows == if count == 1 then old(rows)[id := next] else old(rows)
      ensures count <= 1
    {
      if id in rows && rows[id].state in from {
        rows := rows[id := next];
        return 1;
      }
      return 0;
    }

    /** A refused call leaves the table as it was: the enclosing transaction rolls back. */
    method Transition(id: string, key: TransitionKey, extra: Extra) returns (r: Result<Row, Refusal>)
      modifies this
      ensures r == Attempt(if id in old(rows) then Some(old(rows)[id]) else None, key, extra)
      ensures rows == if r.Success? then old(rows)[id := r.value] else old(rows)
    {
      var before := rows;
      if id !in rows { return Failure(Denied); }
      if IsTerminal(rows[id].state) {
        TerminalStatesAbsorb(rows[id].state, key);
        return Failure(Denied);
      }
      var next := Updated(rows[id], key, extra);
      var count := CompareAndSwap(id, From(key), next);
      if count != 1 { return Failure(Denied); }
      var after := rows[id];
      if after.state != Draft && after.armedAt.None? {
        rows := before;
        return Failure(InvariantViolation);
      }
      if (after.state == Released) != after.releasedAt.Some? {
        rows := before;
        return Failure(InvariantViolation);
      }
      if (after.state == Aborted) != after.abortedAt.Some? {
        rows := before;
        return Failure(InvariantViolation);
      }
      return Success(after);
    }
  }

  lemma TerminalStatesAbsorb(s: ScenarioState, key: TransitionKey)
    ensures IsTerminal(s) ==> s !in From(key)
  {}

  /** Some transition leads from `s` to `t`. */
  predicate Leads(s: ScenarioState, t: ScenarioState) {
    exists key :: s in From(key) && To(key) == t
  }

  /**
   Where a scenario can go: up the ladder one step at a time, back to `armed` from every
   step before the release, aborted from wherever it is live, expired until it releases.
   */
  lemma LeadsIff(s: ScenarioState, t: ScenarioState)
    ensures Leads(s, t) <==>
      match t
      case Armed => s in {Draft, IncidentPending, EscalationInProgress, GracePeriod}
      case IncidentPending => s == Armed
      case EscalationInProgress => s == IncidentPending
      case GracePeriod => s == EscalationInProgress
      case ReleaseInProgress => s == GracePeriod
      case Released => s == ReleaseInProgress
      case Aborted => s in {Armed, IncidentPending, EscalationInProgress, GracePeriod, ReleaseInProgress}
      case Expired => s in {Armed, IncidentPending, EscalationInProgress, GracePeriod}
      case Draft => false
  {
    match t
    case Armed => assert To(Arm) == To(RecoverIncident) == To(RecoverEscalation) == To(RecoverGrace) == t;
    case IncidentPending => assert To(MissCheckin) == t;
    case EscalationInProgress => assert To(BeginEscalation) == t;
    case GracePeriod => assert To(BeginGrace) == t;
    case ReleaseInProgress => assert To(BeginRelease) == t;
    case Released => assert To(CompleteRelease) == t;
    case Aborted => assert To(DisarmArmed) == To(DisarmEscalation) == To(AbortGrace) == To(AdminKillswitch) == t;
    case Expired => assert To(Expire) == t;
    case Draft =>
  }

  // ---------- runs: every sequence of committed transitions ----------

  /** `keys` were committed one after another on one row that was created in `s`. */
  predicate Path(s: ScenarioState, keys: seq<TransitionKey>)
    decreases |keys|
  {
    keys != [] ==> s in From(keys[0]) && Path(To(keys[0]), keys[1..])
  }

  function StateAfter(s: ScenarioState, keys: seq<TransitionKey>): ScenarioState {
    if keys == [] then s else To(keys[|keys| - 1])
  }

  lemma {:induction false} PathExtend(s: ScenarioState, keys: seq<TransitionKey>, key: TransitionKey)
    ensures Path(s, keys + [key]) <==> Path(s, keys) && StateAfter(s, keys) in From(key)
    decreases |keys|
  {
    if keys == [] {
      assert ([] + [key])[1..] == [];
    } else {
      assert (keys + [key])[1..] == keys[1..] + [key];
      PathExtend(To(keys[0]), keys[1..], key);
    }
  }

  lemma {:induction false} PathPrefix(s: ScenarioState, keys: seq<TransitionKey>, i: nat)
    requires Path(s, keys) && i < |keys|
    ensures Path(s, keys[..i]) && StateAfter(s, keys[..i]) in From(keys[i])
    decreases |keys|
  {
    if i == 0 {
    } else {
      PathPrefix(To(keys[0]), keys[1..], i - 1);
      assert keys[..i][1..] == keys[1..][..i - 1];
      assert keys[..i][i - 1] == keys[i - 1];
    }
  }

  /** Whatever the callers do, a release is entered only straight off the whole ladder. */
  lemma ReleaseOnlyAfterFullLadder(keys: seq<TransitionKey>, i: nat)
    requires Path(Draft, keys) && i < |keys| && keys[i] == BeginRelease
    ensures 4 <= i && keys[i - 3..i] == [MissCheckin, BeginEscalation, BeginGrace]
  {
    PathPrefix(Draft, keys, i);
    PathPrefix(Draft, keys, i - 1);
    PathPrefix(Draft, keys, i - 2);
    PathPrefix(Draft, keys, i - 3);
  }

  /** A release is entered at most once, and nothing ever follows a terminal state. */
  lemma ReleaseAtMostOnce(keys: seq<TransitionKey>, i: nat, j: nat)
    requires Path(Draft, keys) && i < j < |keys| && keys[i] == BeginRelease
    ensures j == i + 1 && keys[j] in {CompleteRelease, AdminKillswitch} && j + 1 == |keys|
  {
    PathPrefix(Draft, keys, i + 1);
    assert keys[..i + 1][i] == BeginRelease;
    if i + 2 < |keys| {
      PathPrefix(Draft, keys, i + 2);
      assert false;
    }
  }
}
