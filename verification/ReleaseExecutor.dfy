/**
 The executor, the provider adapter and the operator commands as they are written:
 methods over the shared rows, with everybody else's steps let in at every await.
 Each method is one or several steps of the release machine.
 */
module ReleaseExecutor {
  import opened Basics
  import opened ReleaseModel
  import opened ReleaseInvariants
  import opened ReleaseDispatch
  import A = ReleaseAttempts
  import S = ScenarioStates

  datatype RunResult = Returned | Thrown

  datatype SendResult = Delivered | Rejected(error: ErrorKind)

  predicate ByRun(e: Event, w: nat) {
    (e.Work? && e.run == w) || (e.Start? && e.run == w)
  }

  /** A scenario in release is released, and any other is left alone. */
  function ScenarioCompleted(scenarios: map<nat, S.ScenarioState>, c: nat): map<nat, S.ScenarioState> {
    if c in scenarios && scenarios[c] == S.ReleaseInProgress then scenarios[c := S.Released] else scenarios
  }

  /** A row still sending moves to `to`; nothing else changes. */
  predicate SendingBecomes(d: Db, d': Db, a: nat, to: ActionState) {
    d' == if a in d.actions && d.actions[a].state == Sending
          then d.(actions := d.actions[a := d.actions[a].(state := to)])
          else d
  }

  /** The action's release is there and not cancelled, and its scenario is in release. */
  predicate ReleaseStands(d: Db, a: nat) {
    && a in d.actions && d.actions[a].release in d.releases
    && var r := d.releases[d.actions[a].release];
       !r.canceled && r.scenario in d.scenarios && d.scenarios[r.scenario] == S.ReleaseInProgress
  }

  /** Some action of the same release was sent after an abort. */
  ghost predicate SiblingTainted(d: Db, a: nat) {
    a in d.actions && exists b :: b in d.actions && d.actions[b].release == d.actions[a].release && d.actions[b].state == SentAfterAbort
  }

  class ReleaseSystem {
    var sys: System
    ghost var states: seq<System>
    ghost var trace: seq<Event>

    /** The rows are where the recorded steps lead. */
    ghost predicate Valid()
      reads this
    {
      Linked(states, trace) && states[|trace|] == sys
    }

    /** The rows the recording started from. */
    ghost function Origin(): System
      reads this
    {
      if states == [] then sys else states[0]
    }

    constructor (sys: System)
      ensures Valid() && this.sys == sys && states == [sys]
    {
      this.sys := sys;
      this.states := [sys];
      this.trace := [];
    }

    /** Every invariant of the machine holds of the rows, whatever the methods did so far. */
    lemma RowsAreSound()
      requires Valid() && Initial(states[0])
      ensures Inv(sys)
    {
      LinkedIsRun(states, trace);
      InitialInv(states[0]);
      RunKeepsInv(states[0], trace);
    }

    /** Run `w` stands at `pc`. */
    predicate At(w: nat, pc: Pc)
      reads this
    {
      w in sys.runs && sys.runs[w].pc == pc
    }

    /** Run `w` has just ended with `step`, and throws exactly where the queue takes it for a failed attempt. */
    ghost predicate EndedBy(w: nat, r: RunResult)
      reads this
    {
      && trace != [] && trace[|trace| - 1].Work? && trace[|trace| - 1].run == w && w !in sys.runs
      && var step := trace[|trace| - 1].step;
         && (r == Thrown <==> step == Interlock(false) || step == CloseIssueFailure || step == CloseFailure || step == Complete)
         && (r == Thrown <==> A.EndingOf(sys, w, step) == A.Throws)
    }

    // ---------- bookkeeping ----------

    /** The rows just changed the way event `e` changes them. */
    ghost method Record(before: System, e: Event)
      requires Linked(states, trace) && states[|trace|] == before
      requires Enabled(before, e) && sys == Apply(before, e)
      modifies this`trace, this`states
      ensures Valid() && trace == old(trace) + [e] && states == old(states) + [sys]
      ensures forall v :: CallsBy(trace, v) == CallsBy(old(trace), v) + if IsCallBy(e, v) then 1 else 0
    {
      trace := trace + [e];
      states := states + [sys];
      assert trace[..|trace| - 1] == old(trace);
    }

    /** Run `w` reaches its next await, or ends. */
    method Move(w: nat, pc: Option<Pc>)
      requires w in sys.runs
      modifies this`sys
      ensures sys == (if pc.Some? then old(sys).Goto(w, pc.value) else old(sys).End(w)).(now := old(sys).now + 1)
    {
      var runs := sys.runs;
      if pc.Some? { runs := runs[w := runs[w].(pc := pc.value)]; } else { runs := runs - {w}; }
      sys := sys.(runs := runs, now := sys.now + 1);
    }

    /** `updateMany` on one action row, guarded by its state. */
    method UpdateWhere(a: nat, guard: set<ActionState>, to: ActionState)
      modifies this`sys
      ensures sys == old(sys).Write(old(sys).db.CloseIf(a, guard, to))
    {
      if a in sys.db.actions && sys.db.actions[a].state in guard {
        var row := sys.db.actions[a];
        sys := sys.(db := sys.db.(actions := sys.db.actions[a := row.(state := to)]));
      }
    }

    /** Any number of steps of other runs, users and operators. */
    method Await(w: nat)
      requires Valid()
      modifies this
      ensures Valid() && Origin() == old(Origin())
      ensures CallsBy(trace, w) == CallsBy(old(trace), w)
      ensures w in old(sys).runs ==> w in sys.runs && sys.runs[w] == old(sys).runs[w]
      ensures w !in old(sys).runs ==> w !in sys.runs
      ensures old(trace) <= trace && RowsEvolve(old(sys).db, sys.db)
    {
      hide RowsEvolve;
      EvolvesSelf(sys.db);
      var left: nat := *;
      while left > 0
        invariant Valid() && Origin() == old(Origin())
        invariant CallsBy(trace, w) == CallsBy(old(trace), w)
        invariant w in old(sys).runs ==> w in sys.runs && sys.runs[w] == old(sys).runs[w]
        invariant w !in old(sys).runs ==> w !in sys.runs
        invariant old(trace) <= trace && RowsEvolve(old(sys).db, sys.db)
      {
        var e: Event := *;
        if Enabled(sys, e) && !ByRun(e, w) {
          ghost var before := sys;
          OthersLeaveRunAlone(sys, e, w);
          StepEvolves(sys, e);
          sys := Apply(sys, e);
          EvolvesComposes(old(sys).db, before.db, sys.db);
          Record(before, e);
        }
        left := left - 1;
      }
    }

    /** A step that changes no row: the run moves on what it read. */
    method Note(w: nat, step: Step, pc: Option<Pc>)
      requires Valid() && Enabled(sys, Work(w, step)) && !step.CallProvider?
      requires Apply(sys, Work(w, step)) ==
               (if pc.Some? then sys.Goto(w, pc.value) else sys.End(w)).(now := sys.now + 1)
      modifies this
      ensures Valid() && Origin() == old(Origin()) && trace == old(trace) + [Work(w, step)]
      ensures CallsBy(trace, w) == CallsBy(old(trace), w)
      ensures pc.Some? ==> w in sys.runs && sys.runs[w] == old(sys).runs[w].(pc := pc.value)
      ensures pc.None? ==> w !in sys.runs
      ensures sys.db == old(sys).db && sys.calls == old(sys).calls
    {
      ghost var before := sys;
      Move(w, pc);
      Record(before, Work(w, step));
    }

    /** A conditional update of the run's own action, then its next await. */
    method Close(w: nat, step: Step, guard: set<ActionState>, to: ActionState, pc: Option<Pc>)
      requires Valid() && Enabled(sys, Work(w, step)) && !step.CallProvider?
      requires var t := sys.Write(sys.db.CloseIf(sys.runs[w].action, guard, to));
               Apply(sys, Work(w, step)) == (if pc.Some? then t.Goto(w, pc.value) else t.End(w)).(now := sys.now + 1)
      modifies this
      ensures Valid() && Origin() == old(Origin()) && trace == old(trace) + [Work(w, step)]
      ensures CallsBy(trace, w) == CallsBy(old(trace), w)
      ensures pc.Some? ==> w in sys.runs && sys.runs[w] == old(sys).runs[w].(pc := pc.value)
      ensures pc.None? ==> w !in sys.runs
      ensures sys.db == old(sys).db.CloseIf(old(sys).runs[w].action, guard, to) && sys.calls == old(sys).calls
    {
      ghost var before := sys;
      UpdateWhere(sys.runs[w].action, guard, to);
      Move(w, pc);
      Record(before, Work(w, step));
    }

    // ---------- before the send ----------

    method Begin(w: nat, a: nat, attempt: nat)
      requires Valid() && w !in sys.runs && 1 <= attempt
      modifies this
      ensures Valid() && Origin() == old(Origin()) && trace == old(trace) + [Start(w, a, attempt)]
      ensures CallsBy(trace, w) == CallsBy(old(trace), w)
      ensures At(w, Entry) && sys.runs[w].action == a && sys.runs[w].attempt == attempt
    {
      ghost var before := sys;
      sys := sys.(runs := sys.runs[w := ReleaseModel.Run.Run(Entry, a, attempt, sys.now)], now := sys.now + 1);
      Record(before, Start(w, a, attempt));
    }

    /**
     The global interlock and the sibling-taint check. A run that the interlock refuses
     throws; one that finds a tainted sibling leaves its action unclaimable and returns.
     */
    method Admit(w: nat, allowed: bool) returns (r: Option<RunResult>)
      requires Valid() && At(w, Entry)
      modifies this
      ensures Valid() && Origin() == old(Origin())
      ensures CallsBy(trace, w) == CallsBy(old(trace), w)
      ensures r.Some? ==> w !in sys.runs
      ensures r.Some? ==> EndedBy(w, r.value)
      ensures r.None? ==> w in sys.runs && sys.runs[w] == old(sys).runs[w].(pc := Claiming)
      ensures !allowed <==> r == Some(Thrown)
      ensures !allowed ==> sys.db == old(sys).db
      ensures r == Some(Returned) ==>
        var a := old(sys).runs[w].action;
        SiblingTainted(sys.db, a) && sys.db.actions[a].state !in {Pending, FailedTemporary}
    {
      hide RowsEvolve, SiblingTainted, EndedBy;
      PassInterlock(w, allowed);
      if !allowed { return Some(Thrown); }
      Await(w);
      ghost var counted := sys.db;
      var tainted := CountTaint(w);
      Await(w);
      if tainted {
        TaintEvolves(counted, sys.db, sys.runs[w].action);
        AbortTaintedAction(w);
        return Some(Returned);
      }
      return None;
    }

    method PassInterlock(w: nat, allowed: bool)
      requires Valid() && At(w, Entry)
      modifies this
      ensures Valid() && Origin() == old(Origin()) && trace == old(trace) + [Work(w, Interlock(allowed))]
      ensures CallsBy(trace, w) == CallsBy(old(trace), w) && sys.db == old(sys).db
      ensures allowed ==> w in sys.runs && sys.runs[w] == old(sys).runs[w].(pc := Loading)
      ensures !allowed ==> EndedBy(w, Thrown)
    {
      Note(w, Interlock(allowed), if allowed then Some(Loading) else None);
    }

    method CountTaint(w: nat) returns (tainted: bool)
      requires Valid() && At(w, Loading)
      modifies this
      ensures Valid() && Origin() == old(Origin()) && trace == old(trace) + [Work(w, Step.CountTaint)]
      ensures CallsBy(trace, w) == CallsBy(old(trace), w)
      ensures w in sys.runs && sys.runs[w] == old(sys).runs[w].(pc := if tainted then Tainting else Claiming)
      ensures tainted <==> SiblingTainted(old(sys).db, old(sys).runs[w].action)
      ensures sys.db == old(sys).db
    {
      var a := sys.runs[w].action;
      tainted := a in sys.db.actions && sys.db.Tainted(sys.db.actions[a].release);
      Note(w, Step.CountTaint, Some(if tainted then Tainting else Claiming));
    }

    /** An action beside a tainted one is aborted, if nobody has claimed it. */
    method AbortTaintedAction(w: nat)
      requires Valid() && At(w, Tainting) && SiblingTainted(sys.db, sys.runs[w].action)
      modifies this
      ensures Valid() && Origin() == old(Origin()) && trace == old(trace) + [Work(w, AbortTainted)] && EndedBy(w, Returned)
      ensures CallsBy(trace, w) == CallsBy(old(trace), w)
      ensures var a, d := old(sys).runs[w].action, old(sys).db;
        sys.db == if d.actions[a].state in {Pending, FailedTemporary}
                  then d.(actions := d.actions[a := d.actions[a].(state := Aborted)]) else d
      ensures SiblingTainted(sys.db, old(sys).runs[w].action)
    {
      ghost var was := sys.db;
      Close(w, AbortTainted, {Pending, FailedTemporary}, Aborted, None);
      assert RowsEvolve(was, sys.db);
      TaintEvolves(was, sys.db, old(sys).runs[w].action);
    }

    /** The claim is won exactly on a claimable row of a release that stands; a row of a dead release is aborted. */
    method Claim(w: nat) returns (won: bool)
      requires Valid() && At(w, Claiming)
      modifies this
      ensures Valid() && Origin() == old(Origin()) && trace == old(trace) + [Work(w, Step.Claim)]
      ensures CallsBy(trace, w) == CallsBy(old(trace), w)
      ensures won ==> w in sys.runs && sys.runs[w] == old(sys).runs[w].(pc := Claimed)
      ensures !won ==> EndedBy(w, Returned)
      ensures sys.calls == old(sys).calls
      ensures var a, d := old(sys).runs[w].action, old(sys).db;
        && (won <==> ReleaseStands(d, a) && d.actions[a].state in {Pending, FailedTemporary})
        && sys.db ==
           if won then
             d.(actions := d.actions[a := d.actions[a].(state := Sending, attempts := d.actions[a].attempts + 1)])
           else if a in d.actions && d.actions[a].state in {Pending, Sending, FailedTemporary} && !ReleaseStands(d, a) then
             d.(actions := d.actions[a := d.actions[a].(state := Aborted)])
           else d
    {
      hide EndedBy;
      ghost var before := sys;
      var a := sys.runs[w].action;
      won := false;
      if a !in sys.db.actions || Terminal(sys.db.actions[a].state) {
        Move(w, None);
      } else if !sys.db.Live(a) {
        UpdateWhere(a, {Pending, Sending, FailedTemporary}, Aborted);
        Move(w, None);
      } else if Retryable(sys.db.actions[a].state) {
        var row := sys.db.actions[a];
        row := row.(state := Sending, attempts := row.attempts + 1);
        sys := sys.(db := sys.db.(actions := sys.db.actions[a := row]));
        Move(w, Some(Claimed));
        won := true;
      } else {
        Move(w, None);
      }
      assert sys == ClaimStep(before, w).(now := before.now + 1);
      RecordClaim(w, before, won);
    }

    ghost method RecordClaim(w: nat, before: System, won: bool)
      requires Linked(states, trace) && states[|trace|] == before
      requires Enabled(before, Work(w, Step.Claim)) && sys == Apply(before, Work(w, Step.Claim)) && (won <==> w in sys.runs)
      modifies this`trace, this`states
      ensures Valid() && Origin() == old(Origin()) && trace == old(trace) + [Work(w, Step.Claim)]
      ensures CallsBy(trace, w) == CallsBy(old(trace), w)
      ensures !won ==> EndedBy(w, Returned)
    {
      hide Apply, Enabled;
      Record(before, Work(w, Step.Claim));
    }

    /** The run's last audit record. */
    method Leave(w: nat)
      requires Valid() && At(w, Finishing)
      modifies this
      ensures Valid() && Origin() == old(Origin()) && w !in sys.runs && sys.db == old(sys).db
      ensures CallsBy(trace, w) == CallsBy(old(trace), w) && EndedBy(w, Returned)
    {
      Note(w, Finish, None);
    }

    /** A row still sending is suppressed, for good. */
    method MarkSuppressed(w: nat)
      requires Valid() && At(w, Suppressing)
      modifies this
      ensures Valid() && Origin() == old(Origin()) && EndedBy(w, Returned)
      ensures CallsBy(trace, w) == CallsBy(old(trace), w)
      ensures var a := old(sys).runs[w].action;
        a in old(sys).db.actions && old(sys).db.actions[a].state == Sending ==>
          a in sys.db.actions && sys.db.actions[a].state == Suppressed
    {
      CloseSuppressed(w);
      ghost var closed := sys.db;
      Await(w);
      assert RowsEvolve(closed, sys.db);
      Leave(w);
    }

    method CloseSuppressed(w: nat)
      requires Valid() && At(w, Suppressing)
      modifies this
      ensures Valid() && Origin() == old(Origin()) && trace == old(trace) + [Work(w, Suppress)]
      ensures w in sys.runs && sys.runs[w] == old(sys).runs[w].(pc := Finishing)
      ensures CallsBy(trace, w) == CallsBy(old(trace), w)
      ensures SendingBecomes(old(sys).db, sys.db, old(sys).runs[w].action, Suppressed)
    {
      Close(w, Suppress, {Sending}, Suppressed, Some(Finishing));
    }

    /** The decrypt gate: the last look at the release before its payload is admitted. */
    method OpenForAction(w: nat, decrypts: bool) returns (admitted: bool)
      requires Valid() && At(w, Claimed)
      modifies this
      ensures Valid() && Origin() == old(Origin())
      ensures CallsBy(trace, w) == CallsBy(old(trace), w)
      ensures w in sys.runs && sys.runs[w] == old(sys).runs[w].(pc := if admitted then Opened else Refused)
      ensures var a, d := old(sys).runs[w].action, old(sys).db;
        admitted <==> decrypts && ReleaseStands(d, a) && d.actions[a].state in {Pending, Sending, FailedTemporary}
      ensures sys.db == old(sys).db
    {
      var a := sys.runs[w].action;
      TerminalOrOpen();
      if decrypts && a in sys.db.actions && !Terminal(sys.db.actions[a].state) && sys.db.Live(a) {
        Note(w, OpenPayload(true), Some(Opened));
        return true;
      }
      Note(w, OpenPayload(decrypts), Some(Refused));
      return false;
    }

    /** Nothing can be sent: no message, no recipient, or a channel that does not match. */
    method GiveUp(w: nat, step: Step) returns (r: Option<RunResult>)
      requires Valid() && w in sys.runs && CanStep(sys.runs[w].pc, step) && (step.FindUnsendable? || step.FindMismatch?)
      modifies this
      ensures Valid() && Origin() == old(Origin()) && EndedBy(w, Returned)
      ensures CallsBy(trace, w) == CallsBy(old(trace), w)
      ensures r == Some(Returned)
    {
      Note(w, step, Some(Suppressing));
      Await(w);
      MarkSuppressed(w);
      return Some(Returned);
    }

    /** The secure links of the bundle, or a temporary failure, whatever the attempt number. */
    method IssueForAction(w: nat, linksIssued: bool) returns (r: Option<RunResult>)
      requires Valid() && At(w, Opened)
      modifies this
      ensures Valid() && Origin() == old(Origin())
      ensures CallsBy(trace, w) == CallsBy(old(trace), w)
      ensures r == if linksIssued then None else Some(Thrown)
      ensures r.Some? ==> EndedBy(w, Thrown)
      ensures r.None? ==> w in sys.runs && sys.runs[w] == old(sys).runs[w].(pc := Issued) && sys.db == old(sys).db
    {
      hide EndedBy, SendingBecomes;
      if linksIssued {
        Note(w, IssueLinks(true), Some(Issued));
        return None;
      }
      Note(w, IssueLinks(false), Some(IssueFailed));
      Await(w);
      PutOffIssue(w);
      return Some(Thrown);
    }

    method PutOffIssue(w: nat)
      requires Valid() && At(w, IssueFailed)
      modifies this
      ensures Valid() && Origin() == old(Origin()) && trace == old(trace) + [Work(w, CloseIssueFailure)] && EndedBy(w, Thrown)
      ensures CallsBy(trace, w) == CallsBy(old(trace), w)
      ensures SendingBecomes(old(sys).db, sys.db, old(sys).runs[w].action, FailedTemporary)
    {
      Close(w, CloseIssueFailure, {Sending}, FailedTemporary, None);
    }

    method RefuseDecrypt(w: nat)
      requires Valid() && At(w, Refused)
      modifies this
      ensures Valid() && Origin() == old(Origin()) && EndedBy(w, Returned)
      ensures CallsBy(trace, w) == CallsBy(old(trace), w)
      ensures SendingBecomes(old(sys).db, sys.db, old(sys).runs[w].action, Aborted)
    {
      Close(w, CloseRefused, {Sending}, Aborted, None);
    }

    /** From the claim to the secure links. */
    method Prepare(w: nat) returns (r: Option<RunResult>)
      requires Valid() && At(w, Claimed)
      modifies this
      ensures Valid() && Origin() == old(Origin())
      ensures CallsBy(trace, w) == CallsBy(old(trace), w)
      ensures r.Some? ==> EndedBy(w, r.value)
      ensures r.None? ==> w in sys.runs && sys.runs[w] == old(sys).runs[w].(pc := Issued)
    {
      hide EndedBy, SendingBecomes, RowsEvolve, ReleaseStands;
      var sendable: bool, channelMatches: bool, decrypts: bool, linksIssued: bool := *, *, *, *;
      Await(w);
      if !sendable {
        r := GiveUp(w, FindUnsendable);
        return;
      }
      var admitted := OpenForAction(w, decrypts);
      Await(w);
      if !admitted {
        RefuseDecrypt(w);
        return Some(Returned);
      }
      if !channelMatches {
        r := GiveUp(w, FindMismatch);
        return;
      }
      r := IssueForAction(w, linksIssued);
    }

    // ---------- the provider adapter ----------

    /** The dispatch row is reserved before the provider is called, or somebody reserved it already. */
    method Reserve(w: nat) returns (reserved: bool)
      requires Valid() && At(w, Issued)
      modifies this
      ensures Valid() && Origin() == old(Origin()) && trace == old(trace) + [Work(w, Step.Reserve)]
      ensures CallsBy(trace, w) == CallsBy(old(trace), w)
      ensures w in sys.runs && sys.runs[w] == old(sys).runs[w].(pc := if reserved then CallDue else Duplicate)
      ensures var key, d := old(sys).KeyOf(w), old(sys).db;
        && (reserved <==> key !in d.dispatches)
        && sys.db == if reserved then d.(dispatches := d.dispatches[key := Reserved]) else d
    {
      ghost var before := sys;
      var key := Key(sys.runs[w].action, sys.runs[w].attempt);
      reserved := key !in sys.db.dispatches;
      if reserved {
        sys := sys.(db := sys.db.(dispatches := sys.db.dispatches[key := Reserved]));
        Move(w, Some(CallDue));
      } else {
        Move(w, Some(Duplicate));
      }
      Record(before, Work(w, Step.Reserve));
    }

    method CallProvider(w: nat) returns (failure: Option<ErrorKind>)
      requires Valid() && At(w, CallDue)
      modifies this
      ensures Valid() && Origin() == old(Origin()) && trace == old(trace) + [Work(w, Step.CallProvider(failure))]
      ensures CallsBy(trace, w) == CallsBy(old(trace), w) + 1
      ensures w in sys.runs && sys.runs[w] == old(sys).runs[w].(pc := Answered(failure))
      ensures sys.calls == old(sys).calls + [Call(w, old(sys).KeyOf(w), old(sys).runs[w].startedAt, old(sys).now)]
      ensures sys.db == old(sys).db
    {
      ghost var before := sys;
      var refused: bool, error: ErrorKind := *, *;
      failure := if refused then Some(error) else None;
      var run := sys.runs[w];
      sys := sys.(calls := sys.calls + [Call(w, Key(run.action, run.attempt), run.startedAt, sys.now)]);
      Move(w, Some(Answered(failure)));
      Record(before, Work(w, Step.CallProvider(failure)));
    }

    /** The answer is booked: sent, failed for good, or still open. */
    method Settle(w: nat, failure: Option<ErrorKind>)
      requires Valid() && At(w, Answered(failure))
      modifies this
      ensures Valid() && Origin() == old(Origin()) && trace == old(trace) + [Work(w, Step.Settle)]
      ensures CallsBy(trace, w) == CallsBy(old(trace), w)
      ensures w in sys.runs
      ensures sys.runs[w] == old(sys).runs[w].(pc := if failure.None? then Acked else Failing(failure.value))
      ensures var key, d := old(sys).KeyOf(w), old(sys).db;
        && key in sys.db.dispatches && sys.db == d.(dispatches := d.dispatches[key := sys.db.dispatches[key]])
        && (sys.db.dispatches[key] == Sent <==> failure.None?)
        && (sys.db.dispatches[key] == Failed <==> failure in {Some(Client), Some(Config)})
    {
      ghost var before := sys;
      var key := Key(sys.runs[w].action, sys.runs[w].attempt);
      if failure.None? {
        sys := sys.(db := sys.db.(dispatches := sys.db.dispatches[key := Sent]));
        Move(w, Some(Acked));
      } else {
        var status := if Permanent(failure.value) then Failed else Reserved;
        sys := sys.(db := sys.db.(dispatches := sys.db.dispatches[key := status]));
        Move(w, Some(Failing(failure.value)));
      }
      Record(before, Work(w, Step.Settle));
    }

    method RefuseSend(w: nat, cause: ErrorKind)
      requires Valid() && At(w, Issued) && cause in {Transient, Other}
      modifies this
      ensures Valid() && Origin() == old(Origin())
      ensures CallsBy(trace, w) == CallsBy(old(trace), w)
      ensures w in sys.runs && sys.runs[w] == old(sys).runs[w].(pc := Failing(cause)) && sys.db == old(sys).db
    {
      Note(w, SendRefused(cause), Some(Failing(cause)));
    }

    /** What the log says of the call under the key of run `w`, before this method. */
    ghost function PriorFate(w: nat): Fate
      requires Valid() && w in sys.runs
      reads this
    {
      FateOf(states, trace, sys.KeyOf(w))
    }

    /**
     What an existing dispatch row means for this attempt: delivered only if the provider
     accepted the call under its key, and rejected by the client's fault only if that
     call was answered so, or was answered and could not be booked.
     */
    method Prior(w: nat, answers: bool, hasMessageId: bool) returns (r: SendResult)
      requires Valid() && At(w, Duplicate)
      modifies this
      ensures Valid() && Origin() == old(Origin()) && sys.db == old(sys).db
      ensures CallsBy(trace, w) == CallsBy(old(trace), w)
      ensures w in sys.runs
      ensures sys.runs[w] == old(sys).runs[w].(pc := if r.Delivered? then Acked else Failing(r.error))
      ensures var key, d := old(sys).KeyOf(w), old(sys).db.dispatches;
        && (!answers || key !in d ==> r == Rejected(Other))
        && (answers && key in d ==>
          && (r == Delivered <==> d[key] == Sent && hasMessageId)
          && (r == Rejected(Client) <==> d[key] == Failed)
          && (r == Rejected(Ambiguous) <==> d[key] == Reserved || (d[key] == Sent && !hasMessageId)))
      ensures Blank(old(Origin())) ==>
        var f := old(PriorFate(w));
        && (r == Delivered ==> Accepted(f))
        && (r == Rejected(Client) ==> (f.Settled? && ForGood(f.failure)) || (f.Unbooked? && (f.failure.None? || ForGood(f.failure))))
        && (answers && hasMessageId && f == Settled(None) ==> r == Delivered)
        && (answers && f.Settled? && ForGood(f.failure) ==> r == Rejected(Client))
        && (f.Uncalled? || f.Heard? ==> r in {Rejected(Ambiguous), Rejected(Other)})
    {
      var key := Key(sys.runs[w].action, sys.runs[w].attempt);
      if Blank(Origin()) { RowTellsFate(states, trace, key); }
      hide Apply, Enabled, FateOf;
      if !answers {
        NoteRefusal(w);
        return Rejected(Other);
      }
      r := Rejected(Other);
      if key in sys.db.dispatches {
        r := match sys.db.dispatches[key]
             case Sent => if hasMessageId then Delivered else Rejected(Ambiguous)
             case Failed => Rejected(Client)
             case Reserved => Rejected(Ambiguous);
      }
      NotePrior(w, hasMessageId, r);
    }

    method NoteRefusal(w: nat)
      requires Valid() && At(w, Duplicate)
      modifies this
      ensures Valid() && Origin() == old(Origin()) && sys.db == old(sys).db
      ensures CallsBy(trace, w) == CallsBy(old(trace), w)
      ensures w in sys.runs && sys.runs[w] == old(sys).runs[w].(pc := Failing(Other))
    {
      Note(w, SendRefused(Other), Some(Failing(Other)));
    }

    /** The run moves on what it read. */
    method NotePrior(w: nat, hasMessageId: bool, r: SendResult)
      requires Valid() && At(w, Duplicate)
      requires var key, d := sys.KeyOf(w), sys.db.dispatches;
        r == if key !in d then Rejected(Other)
             else if d[key] == Sent && hasMessageId then Delivered
             else if d[key] == Failed then Rejected(Client) else Rejected(Ambiguous)
      modifies this
      ensures Valid() && Origin() == old(Origin()) && sys.db == old(sys).db
      ensures CallsBy(trace, w) == CallsBy(old(trace), w)
      ensures w in sys.runs && sys.runs[w] == old(sys).runs[w].(pc := if r.Delivered? then Acked else Failing(r.error))
    {
      Note(w, ReadPrior(hasMessageId), Some(if r.Delivered? then Acked else Failing(r.error)));
    }

    /**
     `ProviderAdapter.send`: policy, breaker, reservation, call, settlement. Nothing is
     called where policy or breaker refuse, and it reports a delivery only of a row that
     says so.
     */
    method Send(w: nat, policyAllows: bool, breakerClosed: bool) returns (r: SendResult)
      requires Valid() && At(w, Issued)
      modifies this
      ensures Valid() && Origin() == old(Origin())
      ensures CallsBy(trace, w) <= CallsBy(old(trace), w) + 1
      ensures w in sys.runs
      ensures sys.runs[w] == old(sys).runs[w].(pc := if r.Delivered? then Acked else Failing(r.error))
      ensures !policyAllows ==> r == Rejected(Other)
      ensures policyAllows && !breakerClosed ==> r == Rejected(Transient)
      ensures !policyAllows || !breakerClosed ==> CallsBy(trace, w) == CallsBy(old(trace), w)
      ensures r == Delivered ==>
        var key := old(sys).KeyOf(w); key in sys.db.dispatches && sys.db.dispatches[key] == Sent
    {
      Await(w);
      if !policyAllows {
        RefuseSend(w, Other);
        return Rejected(Other);
      }
      if !breakerClosed {
        RefuseSend(w, Transient);
        return Rejected(Transient);
      }
      var reserved := Reserve(w);
      Await(w);
      if !reserved {
        var answers: bool, hasMessageId: bool := *, *;
        r := Prior(w, answers, hasMessageId);
        return;
      }
      var failure := CallProvider(w);
      Await(w);
      Settle(w, failure);
      return if failure.None? then Delivered else Rejected(failure.value);
    }

    // ---------- after the send ----------

    /** The acknowledgement transaction: it looks at the release once more. */
    method Acknowledge(w: nat)
      requires Valid() && At(w, Acked)
      modifies this
      ensures Valid() && Origin() == old(Origin()) && trace == old(trace) + [Work(w, AckTx)]
      ensures CallsBy(trace, w) == CallsBy(old(trace), w)
      ensures w in sys.runs && sys.runs[w] == old(sys).runs[w].(pc := Counting)
      ensures var a := old(sys).runs[w].action;
        SendingBecomes(old(sys).db, sys.db, a, if ReleaseStands(old(sys).db, a) then Executed else SentAfterAbort)
    {
      var raceLost := !sys.db.Live(sys.runs[w].action);
      Close(w, AckTx, {Sending}, if raceLost then SentAfterAbort else Executed, Some(Counting));
    }

    /** Failed for good by the client's fault or at the fifth attempt; ambiguous outcomes never are. */
    method CloseFailed(w: nat, error: ErrorKind)
      requires Valid() && At(w, Failing(error))
      modifies this
      ensures Valid() && Origin() == old(Origin()) && trace == old(trace) + [Work(w, CloseFailure)]
      ensures CallsBy(trace, w) == CallsBy(old(trace), w)
      ensures error == Ambiguous ==> w in sys.runs && sys.runs[w] == old(sys).runs[w].(pc := Counting)
      ensures error != Ambiguous ==> EndedBy(w, Thrown)
      ensures var a, n := old(sys).runs[w].action, old(sys).runs[w].attempt;
        && (error == Client || (error != Ambiguous && 5 <= n) ==> SendingBecomes(old(sys).db, sys.db, a, FailedPermanent))
        && (error == Ambiguous || (error != Client && n < 5) ==> SendingBecomes(old(sys).db, sys.db, a, FailedTemporary))
    {
      var ambiguous := error == Ambiguous;
      var permanent := error == Client;
      var reachedMax := sys.runs[w].attempt >= MAX_ATTEMPTS;
      var next := if ambiguous then FailedTemporary
                  else if permanent || reachedMax then FailedPermanent
                  else FailedTemporary;
      Close(w, CloseFailure, {Sending}, next, if ambiguous then Some(Counting) else None);
    }

    /** Two counts outside any transaction, then the completing transaction. */
    method MaybeCompleteRelease(w: nat) returns (r: RunResult)
      requires Valid() && At(w, Counting)
      modifies this
      ensures Valid() && Origin() == old(Origin()) && EndedBy(w, r)
      ensures CallsBy(trace, w) == CallsBy(old(trace), w)
    {
      hide EndedBy, RowsEvolve, ScenarioCompleted;
      Await(w);
      var none := CountPending(w);
      if !none { return Returned; }
      Await(w);
      CountOutcomes(w);
      Await(w);
      var completed := CompleteRelease(w);
      if !completed { return Thrown; }
      Await(w);
      Leave(w);
      return Returned;
    }

    method CountPending(w: nat) returns (none: bool)
      requires Valid() && At(w, Counting)
      modifies this
      ensures Valid() && Origin() == old(Origin()) && trace == old(trace) + [Work(w, Step.CountPending)]
      ensures CallsBy(trace, w) == CallsBy(old(trace), w)
      ensures none ==> w in sys.runs && sys.runs[w] == old(sys).runs[w].(pc := CountedZero)
      ensures !none ==> EndedBy(w, Returned)
      ensures var a, d := old(sys).runs[w].action, old(sys).db;
        none <==> a in d.actions && forall b :: b in d.actions && d.actions[b].release == d.actions[a].release ==>
                    d.actions[b].state !in {Pending, Sending, FailedTemporary}
      ensures sys.db == old(sys).db
    {
      var a := sys.runs[w].action;
      TerminalOrOpen();
      none := a in sys.db.actions && sys.db.AllTerminal(sys.db.actions[a].release);
      Note(w, Step.CountPending, if none then Some(CountedZero) else None);
    }

    method CountOutcomes(w: nat)
      requires Valid() && At(w, CountedZero)
      modifies this
      ensures Valid() && Origin() == old(Origin()) && trace == old(trace) + [Work(w, Step.CountOutcomes)]
      ensures CallsBy(trace, w) == CallsBy(old(trace), w)
      ensures w in sys.runs && sys.runs[w].pc.Deciding? && sys.db == old(sys).db
      ensures var a, d := old(sys).runs[w].action, old(sys).db;
        sys.runs[w].pc.allExecuted <==>
          a in d.actions && forall b :: b in d.actions && d.actions[b].release == d.actions[a].release ==>
            d.actions[b].state !in {FailedPermanent, Aborted, Suppressed, SentAfterAbort}
    {
      var a := sys.runs[w].action;
      var clean := a in sys.db.actions && sys.db.NoneUnexecuted(sys.db.actions[a].release);
      Note(w, Step.CountOutcomes, Some(Deciding(clean)));
    }

    method CompleteRelease(w: nat) returns (found: bool)
      requires Valid() && w in sys.runs && sys.runs[w].pc.Deciding?
      modifies this
      ensures Valid() && Origin() == old(Origin()) && trace == old(trace) + [Work(w, Complete)]
      ensures CallsBy(trace, w) == CallsBy(old(trace), w)
      ensures found ==> At(w, Finishing)
      ensures !found ==> EndedBy(w, Thrown) && sys.db == old(sys).db
      ensures var a, d := old(sys).runs[w].action, old(sys).db;
        && (found <==> a in d.actions && d.actions[a].release in d.releases)
        && (found ==>
          && var r := d.actions[a].release;
             var verdict := if old(sys).runs[w].pc.allExecuted then Completed else PartiallyFailed;
             sys.db == d.(releases := d.releases[r := d.releases[r].(state := verdict)],
                          scenarios := ScenarioCompleted(d.scenarios, d.releases[r].scenario)))
    {
      ghost var before := sys;
      var a := sys.runs[w].action;
      found := a in sys.db.actions && sys.db.actions[a].release in sys.db.releases;
      if found {
        var r := sys.db.actions[a].release;
        var row := sys.db.releases[r];
        row := row.(state := if sys.runs[w].pc.allExecuted then Completed else PartiallyFailed);
        sys := sys.(db := sys.db.(releases := sys.db.releases[r := row]));
        var sc := row.scenario;
        if sc in sys.db.scenarios && sys.db.scenarios[sc] == S.ReleaseInProgress {
          sys := sys.(db := sys.db.(scenarios := sys.db.scenarios[sc := S.Released]));
        }
        Move(w, Some(Finishing));
      } else {
        Move(w, None);
      }
      assert sys == CompleteStep(before, w).(now := before.now + 1);
      Record(before, Work(w, Complete));
    }

    // ---------- the whole run ----------

    /**
     One delivery of an action. Whatever the rest of the system does meanwhile, the
     rows stay on a path of the machine and this run calls the provider at most once.
     */
    method Run(w: nat, actionId: nat, attempt: nat) returns (r: RunResult)
      requires Valid() && w !in sys.runs && 1 <= attempt
      modifies this
      ensures Valid() && Origin() == old(Origin()) && EndedBy(w, r)
      ensures CallsBy(trace, w) <= CallsBy(old(trace), w) + 1
    {
      hide EndedBy, RowsEvolve, SendingBecomes, ReleaseStands, SiblingTainted;
      Begin(w, actionId, attempt);
      Await(w);
      var allowed: bool, policyAllows: bool, breakerClosed: bool := *, *, *;
      var stopped := Admit(w, allowed);
      if stopped.Some? { return stopped.value; }
      Await(w);
      var won := Claim(w);
      if !won { return Returned; }
      stopped := Prepare(w);
      if stopped.Some? { return stopped.value; }
      var sent := Send(w, policyAllows, breakerClosed);
      Await(w);
      if sent.Delivered? {
        Acknowledge(w);
      } else {
        CloseFailed(w, sent.error);
        if sent.error != Ambiguous { return Thrown; }
      }
      r := MaybeCompleteRelease(w);
    }

    // ---------- operators ----------

    method DrainReleases()
      requires Valid()
      modifies this
      ensures Valid() && Origin() == old(Origin()) && trace == old(trace) + [Drain]
      ensures sys.db.actions.Keys == old(sys).db.actions.Keys
      ensures forall a :: a in old(sys).db.actions ==>
        sys.db.actions[a] ==
        (var row := old(sys).db.actions[a]; if row.state in {Pending, FailedTemporary} then row.(state := Aborted) else row)
      ensures sys.db.releases.Keys == old(sys).db.releases.Keys
      ensures forall r :: r in old(sys).db.releases ==>
        sys.db.releases[r] ==
        (var row := old(sys).db.releases[r]; if row.state == Executing then row.(state := Withdrawn, canceled := true) else row)
      ensures sys.db.scenarios == old(sys).db.scenarios && sys.db.dispatches == old(sys).db.dispatches
    {
      ghost var before := sys;
      var d := sys.db;
      d := d.(actions := map a | a in d.actions ::
        if d.actions[a].state in {Pending, FailedTemporary} then d.actions[a].(state := Aborted) else d.actions[a]);
      d := d.(releases := map r | r in d.releases ::
        if d.releases[r].state == Executing then d.releases[r].(state := Withdrawn, canceled := true) else d.releases[r]);
      sys := sys.(db := d, now := sys.now + 1);
      assert d == before.db.SweepIf(None).CancelExecuting();
      Record(before, Drain);
    }

    /** One sweep: the release's claimable actions are aborted, whoever else holds what. */
    method SweepSiblings(r: nat)
      requires Valid()
      modifies this
      ensures Valid() && Origin() == old(Origin()) && trace == old(trace) + [AbortSiblings(r)]
      ensures forall a :: a in old(sys).db.actions ==>
        && a in sys.db.actions
        && sys.db.actions[a] ==
           (var row := old(sys).db.actions[a];
            if row.release == r && row.state in {Pending, FailedTemporary} then row.(state := Aborted) else row)
      ensures sys.db.releases == old(sys).db.releases && sys.db.dispatches == old(sys).db.dispatches
    {
      ghost var before := sys;
      var d := sys.db;
      d := d.(actions := map a | a in d.actions ::
        if d.actions[a].release == r && d.actions[a].state in {Pending, FailedTemporary}
        then d.actions[a].(state := Aborted) else d.actions[a]);
      sys := sys.(db := d, now := sys.now + 1);
      assert d == before.db.SweepIf(Some(r));
      Record(before, AbortSiblings(r));
    }

    /** The containment rule's loop over the releases it found; others' steps come between its sweeps. */
    method AbortSiblingsOfSentAfterAbort(releases: seq<nat>)
      requires Valid()
      modifies this
      ensures Valid() && Origin() == old(Origin()) && old(trace) <= trace
      ensures forall i :: 0 <= i < |releases| ==> AbortSiblings(releases[i]) in trace[|old(trace)|..]
    {
      for i := 0 to |releases|
        invariant Valid() && Origin() == old(Origin()) && old(trace) <= trace
        invariant forall j :: 0 <= j < i ==> AbortSiblings(releases[j]) in trace[|old(trace)|..]
      {
        var w: nat := *;
        ghost var before := trace;
        Await(w);
        SweepSiblings(releases[i]);
        forall j | 0 <= j <= i ensures AbortSiblings(releases[j]) in trace[|old(trace)|..] {
          if j < i { InLongerTail(before, trace, |old(trace)|, AbortSiblings(releases[j])); }
          else { assert trace[|old(trace)|..][|trace| - 1 - |old(trace)|] == AbortSiblings(releases[i]); }
        }
      }
    }

    method ForceUnlockRelease(r: nat)
      requires Valid()
      modifies this
      ensures Valid() && Origin() == old(Origin()) && trace == old(trace) + [ForceUnlock(r)]
      ensures var d := old(sys).db;
        sys.db == if r in d.releases && d.releases[r].canceled
                  then d.(releases := d.releases[r := d.releases[r].(state := Executing, canceled := false)]) else d
    {
      ghost var before := sys;
      if r in sys.db.releases && sys.db.releases[r].canceled {
        var row := sys.db.releases[r].(state := Executing, canceled := false);
        sys := sys.(db := sys.db.(releases := sys.db.releases[r := row]));
      }
      sys := sys.(now := sys.now + 1);
      Record(before, ForceUnlock(r));
    }
  }

  lemma InLongerTail<T>(s: seq<T>, t: seq<T>, n: nat, x: T)
    requires s <= t && n <= |s| && x in s[n..]
    ensures x in t[n..]
  {
    var i :| n <= i < |s| && s[i] == x;
    assert t[n..][i - n] == x;
  }

  lemma TerminalOrOpen()
    ensures forall st :: Terminal(st) <==> st !in {Pending, Sending, FailedTemporary}
  {
    forall st ensures Terminal(st) <==> st !in {Pending, Sending, FailedTemporary} {
      match st { case Pending => case Sending => case _ => }
    }
  }

  lemma EvolvesSelf(d: Db)
    ensures RowsEvolve(d, d)
  {}

  lemma EvolvesComposes(d: Db, d': Db, d'': Db)
    requires RowsEvolve(d, d') && RowsEvolve(d', d'')
    ensures RowsEvolve(d, d'')
  {}

  /** A tainted sibling stays one. */
  lemma TaintEvolves(d: Db, d': Db, a: nat)
    requires RowsEvolve(d, d') && SiblingTainted(d, a)
    ensures SiblingTainted(d', a)
  {
    var b :| b in d.actions && d.actions[b].release == d.actions[a].release && d.actions[b].state == SentAfterAbort;
    assert d'.actions[b].state == SentAfterAbort;
  }

  lemma OthersLeaveRunAlone(s: System, e: Event, w: nat)
    requires Enabled(s, e) && !ByRun(e, w)
    ensures w in s.runs ==> w in Apply(s, e).runs && Apply(s, e).runs[w] == s.runs[w]
    ensures w !in s.runs ==> w !in Apply(s, e).runs
  {
    if e.Work? { StepShape(s, e.run, e.step); } else { EnvShape(s, e); }
  }

  // ---------- counting one run's calls in a trace ----------

  predicate IsCallBy(e: Event, w: nat) {
    e.Work? && e.run == w && e.step.CallProvider?
  }

  function CallsBy(trace: seq<Event>, w: nat): nat {
    if trace == [] then 0
    else CallsBy(trace[..|trace| - 1], w) + if IsCallBy(trace[|trace| - 1], w) then 1 else 0
  }
}
