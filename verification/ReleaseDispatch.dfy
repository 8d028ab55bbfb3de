/**
 What a dispatch row tells. An adapter that finds the row of its key reads from it how
 the call under that key was answered, and whether there was one.
 */
module ReleaseDispatch {
  import opened Basics
  import opened ReleaseModel
  import opened ReleaseInvariants

  /** What became of the call under one key. */
  datatype Fate =
    | Uncalled
    | Heard(failure: Option<ErrorKind>)      // answered, and nothing booked yet
    | Settled(failure: Option<ErrorKind>)    // the run went on from the answer
    | Unbooked(failure: Option<ErrorKind>)   // the booking of the answer failed

  function FateAfter(s: System, e: Event, s': System, key: Key, f: Fate): Fate {
    if !e.Work? || e.run !in s.runs || s.KeyOf(e.run) != key then f
    else if e.step.CallProvider? then Heard(e.step.failure)
    else if !s.runs[e.run].pc.Answered? || !f.Heard? || e.run !in s'.runs then f
    else if e.step.BookkeepingFails? then Unbooked(f.failure)
    else Settled(f.failure)
  }

  /** The fate of the call under `key` after the recorded steps. */
  ghost function FateOf(states: seq<System>, trace: seq<Event>, key: Key): Fate
    requires |states| == |trace| + 1
  {
    if trace == [] then Uncalled
    else
      var n := |trace| - 1;
      FateAfter(states[n], trace[n], states[n + 1], key, FateOf(states[..n + 1], trace[..n], key))
  }

  /** An answer that no later attempt can change. */
  predicate ForGood(failure: Option<ErrorKind>) {
    failure.Some? && (failure.value == Client || failure.value == Config)
  }

  ghost predicate CalledUnder(s: System, key: Key) {
    exists i :: 0 <= i < |s.calls| && s.calls[i].key == key
  }

  /** What the row of a key tells of the call under it, and what the call tells of the row. */
  ghost predicate RowTells(s: System, key: Key, f: Fate) {
    && (f.Uncalled? <==> !CalledUnder(s, key))
    && (!f.Uncalled? ==> key in s.db.dispatches)
    && (key in s.db.dispatches ==>
      && (s.db.dispatches[key] == Sent ==> f == Settled(None) || f == Unbooked(None))
      && (s.db.dispatches[key] == Failed ==> (f.Settled? && ForGood(f.failure)) || (f.Unbooked? && (f.failure.None? || ForGood(f.failure))))
      && (f == Settled(None) ==> s.db.dispatches[key] == Sent)
      && (f.Settled? && ForGood(f.failure) ==> s.db.dispatches[key] == Failed))
  }

  /** A run about to call, or just answered, is the only one with its key, and owns its row. */
  ghost predicate AtProvider(s: System, key: Key, f: Fate) {
    && (forall w :: w in s.runs && s.KeyOf(w) == key && s.runs[w].pc.CallDue? ==> key in s.db.dispatches && f.Uncalled?)
    && (forall w :: w in s.runs && s.KeyOf(w) == key && s.runs[w].pc.Answered? ==> f == Heard(s.runs[w].pc.failure))
    && (forall w, v | w in s.runs && v in s.runs && Talks(s.runs[w].pc) && Talks(s.runs[v].pc) ::
      s.KeyOf(w) == key && s.KeyOf(v) == key ==> w == v)
  }

  predicate Talks(pc: Pc) {
    pc.CallDue? || pc.Answered?
  }

  ghost predicate KeySound(s: System, key: Key, f: Fate) {
    RowTells(s, key, f) && AtProvider(s, key, f)
  }

  /** Nothing happened to the key. */
  lemma QuietStep(s: System, e: Event, s': System, key: Key, f: Fate)
    requires KeySound(s, key, f) && s'.db.dispatches == s.db.dispatches && s'.calls == s.calls
    requires forall w :: w in s'.runs && Talks(s'.runs[w].pc) ==> w in s.runs && s'.runs[w] == s.runs[w]
    requires FateAfter(s, e, s', key, f) == f
    ensures KeySound(s', key, f)
  {}

  lemma EnvKeepsKey(s: System, e: Event, key: Key, f: Fate)
    requires KeySound(s, key, f) && Enabled(s, e) && !e.Work?
    ensures KeySound(Apply(s, e), key, f)
  {
    EnvShape(s, e);
    hide Apply, Enabled;
    QuietStep(s, e, Apply(s, e), key, f);
  }

  predicate Dispatching(step: Step) {
    step.Reserve? || step.CallProvider? || step.Settle? || step.BookkeepingFails?
  }

  lemma OtherWorkKeepsDispatches(s: System, w: nat, step: Step)
    requires Enabled(s, Work(w, step)) && !Dispatching(step)
    ensures Apply(s, Work(w, step)).db.dispatches == s.db.dispatches
    ensures Apply(s, Work(w, step)).calls == s.calls
    ensures s.runs[w].pc.Answered? ==> w !in Apply(s, Work(w, step)).runs
    ensures w in Apply(s, Work(w, step)).runs ==> !Talks(Apply(s, Work(w, step)).runs[w].pc)
  {}

  lemma OtherWorkKeepsKey(s: System, w: nat, step: Step, key: Key, f: Fate)
    requires KeySound(s, key, f) && Enabled(s, Work(w, step)) && !Dispatching(step)
    ensures KeySound(Apply(s, Work(w, step)), key, FateAfter(s, Work(w, step), Apply(s, Work(w, step)), key, f))
  {
    OtherWorkKeepsDispatches(s, w, step);
    StepShape(s, w, step);
    hide Apply, Enabled, KeySound;
    QuietStep(s, Work(w, step), Apply(s, Work(w, step)), key, f);
  }

  lemma ReserveKeepsKey(s: System, w: nat, key: Key, f: Fate)
    requires KeySound(s, key, f) && Enabled(s, Work(w, Reserve))
    ensures KeySound(Apply(s, Work(w, Reserve)), key, f)
  {}

  lemma CallKeepsKey(s: System, w: nat, failure: Option<ErrorKind>, key: Key, f: Fate)
    requires KeySound(s, key, f) && Enabled(s, Work(w, CallProvider(failure)))
    ensures var e := Work(w, CallProvider(failure)); KeySound(Apply(s, e), key, FateAfter(s, e, Apply(s, e), key, f))
  {
    var t := Apply(s, Work(w, CallProvider(failure)));
    assert t.calls[|s.calls|].key == s.KeyOf(w);
    assert forall i :: 0 <= i < |s.calls| ==> t.calls[i] == s.calls[i];
  }

  lemma SettleKeepsKey(s: System, w: nat, key: Key, f: Fate)
    requires KeySound(s, key, f) && Enabled(s, Work(w, Settle))
    ensures KeySound(Apply(s, Work(w, Settle)), key, FateAfter(s, Work(w, Settle), Apply(s, Work(w, Settle)), key, f))
  {}

  lemma FailedBookingKeepsKey(s: System, w: nat, step: Step, key: Key, f: Fate)
    requires KeySound(s, key, f) && Enabled(s, Work(w, step)) && step.BookkeepingFails?
    ensures KeySound(Apply(s, Work(w, step)), key, FateAfter(s, Work(w, step), Apply(s, Work(w, step)), key, f))
  {}

  lemma StepKeepsKey(s: System, e: Event, key: Key, f: Fate)
    requires KeySound(s, key, f) && Enabled(s, e)
    ensures KeySound(Apply(s, e), key, FateAfter(s, e, Apply(s, e), key, f))
  {
    hide KeySound, Apply;
    if !e.Work? { EnvKeepsKey(s, e, key, f); }
    else if e.step.Reserve? { ReserveKeepsKey(s, e.run, key, f); }
    else if e.step.CallProvider? { CallKeepsKey(s, e.run, e.step.failure, key, f); }
    else if e.step.Settle? { SettleKeepsKey(s, e.run, key, f); }
    else if e.step.BookkeepingFails? { FailedBookingKeepsKey(s, e.run, e.step, key, f); }
    else { OtherWorkKeepsKey(s, e.run, e.step, key, f); }
  }

  /** Nothing is reserved, called or running. */
  predicate Blank(s: System) {
    s.db.dispatches == map[] && s.calls == [] && s.runs == map[]
  }

  lemma BlankIsSound(s: System, key: Key)
    requires Blank(s)
    ensures KeySound(s, key, Uncalled)
  {}

  lemma {:induction false} KeyStaysSound(states: seq<System>, trace: seq<Event>, key: Key)
    requires Linked(states, trace) && Blank(states[0])
    ensures KeySound(states[|trace|], key, FateOf(states, trace, key))
    decreases |trace|
  {
    hide KeySound, Apply, Enabled;
    if trace == [] {
      BlankIsSound(states[0], key);
    } else {
      var n := |trace| - 1;
      KeyStaysSound(states[..n + 1], trace[..n], key);
      StepKeepsKey(states[n], trace[n], key, FateOf(states[..n + 1], trace[..n], key));
    }
  }

  /**
   Over every run from an empty table: the row of a key is `sent` exactly when a call
   under it was answered and the answer booked, `failed` exactly when that answer was a
   permanent error, and `reserved` otherwise; where the booking itself failed it never
   claims more than the answer was.
   */
  lemma RowTellsFate(states: seq<System>, trace: seq<Event>, key: Key)
    requires Linked(states, trace) && Blank(states[0])
    ensures RowTells(states[|trace|], key, FateOf(states, trace, key))
  {
    KeyStaysSound(states, trace, key);
  }

  // ---------- what an executed action proves ----------

  /** The provider took the message. */
  predicate Accepted(f: Fate) {
    (f.Settled? || f.Unbooked?) && f.failure.None?
  }

  ghost predicate AckedSound(s: System, key: Key, f: Fate) {
    forall w :: w in s.runs && s.KeyOf(w) == key && s.runs[w].pc.Acked? ==> Accepted(f)
  }

  /** Only a booked answer or a row that says `sent` makes a run acknowledged. */
  lemma OthersDoNotAck(s: System, w: nat, step: Step)
    requires Enabled(s, Work(w, step)) && !step.Settle? && !step.ReadPrior?
    ensures w in Apply(s, Work(w, step)).runs ==> !Apply(s, Work(w, step)).runs[w].pc.Acked?
  {}

  lemma AcceptedStays(s: System, e: Event, key: Key, f: Fate)
    requires KeySound(s, key, f) && Enabled(s, e) && Accepted(f)
    ensures Accepted(FateAfter(s, e, Apply(s, e), key, f))
  {
    hide Apply;
  }

  lemma AckIsEarned(s: System, w: nat, step: Step, f: Fate)
    requires Enabled(s, Work(w, step)) && KeySound(s, s.KeyOf(w), f) && (step.Settle? || step.ReadPrior?)
    ensures var t := Apply(s, Work(w, step));
      w in t.runs && t.runs[w].pc.Acked? ==> Accepted(FateAfter(s, Work(w, step), t, s.KeyOf(w), f))
  {}

  lemma StepKeepsAcked(s: System, e: Event, key: Key, f: Fate)
    requires KeySound(s, key, f) && AckedSound(s, key, f) && Enabled(s, e)
    ensures AckedSound(Apply(s, e), key, FateAfter(s, e, Apply(s, e), key, f))
  {
    if Accepted(f) { AcceptedStays(s, e, key, f); }
    StepMoves(s, e);
    if e.Work? {
      if !e.step.Settle? && !e.step.ReadPrior? { OthersDoNotAck(s, e.run, e.step); }
      else if s.KeyOf(e.run) == key { AckIsEarned(s, e.run, e.step, f); }
    }
    hide Apply, Enabled, KeySound, FateAfter, PcMoves;
  }

  lemma {:induction false} AckedStaysSound(states: seq<System>, trace: seq<Event>, key: Key)
    requires Linked(states, trace) && Blank(states[0])
    ensures AckedSound(states[|trace|], key, FateOf(states, trace, key))
    decreases |trace|
  {
    hide KeySound, AckedSound, Apply, Enabled;
    if trace == [] {
      BlankIsAcked(states[0], key);
    } else {
      var n := |trace| - 1;
      AckedStaysSound(states[..n + 1], trace[..n], key);
      KeyStaysSound(states[..n + 1], trace[..n], key);
      StepKeepsAcked(states[n], trace[n], key, FateOf(states[..n + 1], trace[..n], key));
    }
  }

  lemma BlankIsAcked(s: System, key: Key)
    requires Blank(s)
    ensures AckedSound(s, key, Uncalled)
  {}

  /** Only the acknowledgement transaction writes `executed` or `sent_after_abort`. */
  lemma OnlyAckWrites(s: System, e: Event, a: nat)
    requires Enabled(s, e) && a in Apply(s, e).db.actions && Apply(s, e).db.actions[a].state in {Executed, SentAfterAbort}
    requires a in s.db.actions ==> s.db.actions[a].state != Apply(s, e).db.actions[a].state
    ensures e.Work? && e.run in s.runs && s.runs[e.run].pc.Acked? && s.runs[e.run].action == a
  {
    if e.Work? {
      StepShape(s, e.run, e.step);
      if !e.step.AckTx? { OthersDoNotExecute(s, e.run, e.step, a); }
    } else {
      EnvShape(s, e);
    }
  }

  lemma OthersDoNotExecute(s: System, w: nat, step: Step, a: nat)
    requires Enabled(s, Work(w, step)) && a in s.db.actions && a in Apply(s, Work(w, step)).db.actions && !step.AckTx?
    requires Apply(s, Work(w, step)).db.actions[a].state in {Executed, SentAfterAbort}
    ensures s.db.actions[a].state == Apply(s, Work(w, step)).db.actions[a].state
  {}

  /**
   Over every run of the system: an action is executed, or recorded as sent after an
   abort, only if the provider accepted a call that was made for it.
   */
  lemma {:induction false} ExecutedWasAccepted(states: seq<System>, trace: seq<Event>, a: nat) returns (n: nat)
    requires Linked(states, trace) && Initial(states[0])
    requires a in states[|trace|].db.actions && states[|trace|].db.actions[a].state in {Executed, SentAfterAbort}
    ensures Accepted(FateOf(states, trace, Key(a, n))) && CalledUnder(states[|trace|], Key(a, n))
    decreases |trace|
  {
    hide Apply, Enabled, Accepted, KeySound, AckedSound, FateAfter;
    var m := |trace| - 1;
    var s, e := states[m], trace[m];
    if a in s.db.actions && s.db.actions[a].state == states[m + 1].db.actions[a].state {
      n := ExecutedWasAccepted(states[..m + 1], trace[..m], a);
    } else {
      OnlyAckWrites(s, e, a);
      n := s.runs[e.run].attempt;
      AckedIsAccepted(states[..m + 1], trace[..m], e.run);
    }
    KeyStaysSound(states[..m + 1], trace[..m], Key(a, n));
    AcceptedStays(s, e, Key(a, n), FateOf(states[..m + 1], trace[..m], Key(a, n)));
    RowTellsFate(states, trace, Key(a, n));
    AcceptedWasCalled(FateOf(states, trace, Key(a, n)));
  }

  lemma AcceptedWasCalled(f: Fate)
    ensures Accepted(f) ==> !f.Uncalled?
  {}

  lemma AckedIsAccepted(states: seq<System>, trace: seq<Event>, w: nat)
    requires Linked(states, trace) && Blank(states[0]) && w in states[|trace|].runs && states[|trace|].runs[w].pc.Acked?
    ensures Accepted(FateOf(states, trace, states[|trace|].KeyOf(w)))
  {
    AckedStaysSound(states, trace, states[|trace|].KeyOf(w));
  }
}
