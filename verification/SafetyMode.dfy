/**
 The global fail-safe mode and the containment watcher that changes it by itself. The
 watcher caches the mode row for five seconds; operators change the row from other
 processes between any two of its steps. Times are milliseconds.
 */
module SafetyMode {
  import opened Basics

  datatype Mode = Normal | Degraded | ReleaseRestricted | AuditCompromised | EmergencyFreeze

  datatype Row = Row(mode: Mode, enteredAt: int, autoEntered: bool)

  const REFRESH_MS := 5_000
  const RESTRICTED_DWELL_MS := 1_800_000
  const DEGRADED_DWELL_MS := 900_000

  /** Where a tick stands between two awaits. */
  datatype Pc =
    | Idle
    | Rules(fired: bool)
    | Seen(current: Row)
    | Exiting

  datatype State = State(row: Row, cached: Option<Row>, lastFetchAt: int, pc: Pc, now: int) {
    /** `refresh` right after the process wrote the row itself. */
    function Refreshed(): State {
      this.(cached := Some(row), lastFetchAt := now)
    }

    predicate CacheServes() {
      cached.Some? && now - lastFetchAt < REFRESH_MS
    }

    /** What `current` returns. */
    function Current(): Row {
      if CacheServes() then cached.value else row
    }

    /** The cache after `current`. */
    function AfterCurrent(): State {
      if CacheServes() then this else Refreshed()
    }
  }

  predicate MostProtective(m: Mode) {
    m == AuditCompromised || m == EmergencyFreeze
  }

  /** The guard inside `enter`, which the database trigger repeats. */
  predicate Refuses(from: Mode, next: Mode, auto: bool) {
    auto && MostProtective(from) && next == Normal
  }

  /** The row after `enter`: unchanged if it is refused or the mode is already that. */
  function Entered(row: Row, next: Mode, auto: bool, now: int): Row {
    if row.mode == next || Refuses(row.mode, next, auto) then row else Row(next, now, auto)
  }

  /** The modes a rule may enter. */
  predicate RuleMode(m: Mode) {
    m == ReleaseRestricted || m == Degraded || m == AuditCompromised
  }

  function DwellOf(m: Mode): Option<int> {
    if m == ReleaseRestricted then Some(RESTRICTED_DWELL_MS)
    else if m == Degraded then Some(DEGRADED_DWELL_MS)
    else None
  }

  predicate MayExit(current: Row, now: int) {
    DwellOf(current.mode).Some? && current.autoEntered && now - current.enteredAt > DwellOf(current.mode).value
  }

  datatype Event =
    | Begin
    | Fires(next: Mode)
    | Read
    | Decide
    | Exit
    | Break(restart: bool)
    | Admin(next: Mode)
    | Pass(ms: nat)

  predicate Enabled(s: State, e: Event) {
    match e
    case Begin => s.pc.Idle?
    case Fires(next) => s.pc.Rules? && RuleMode(next)
    case Read => s.pc.Rules?
    case Decide => s.pc.Seen?
    case Exit => s.pc.Exiting?
    case Break(_) => true
    case Admin(_) => true
    case Pass(_) => true
  }

  function Apply(s: State, e: Event): State
    requires Enabled(s, e)
  {
    match e
    case Begin => s.(pc := Rules(false))
    case Fires(next) => s.(row := Entered(s.row, next, true, s.now), pc := Rules(true)).Refreshed()
    case Read => s.AfterCurrent().(pc := if s.pc.fired then Idle else Seen(s.Current()))
    case Decide => s.(pc := if MayExit(s.pc.current, s.now) then Exiting else Idle)
    case Exit => s.(row := Entered(s.row, Normal, true, s.now), pc := Idle).Refreshed()
    case Break(restart) => s.(pc := Idle, cached := if restart then None else s.cached)
    case Admin(next) => s.(row := Entered(s.row, next, false, s.now))
    case Pass(ms) => s.(now := s.now + ms)
  }

  predicate Runnable(s: State, es: seq<Event>)
    decreases |es|, 0
  {
    es != [] ==> Runnable(s, es[..|es| - 1]) && Enabled(Exec(s, es[..|es| - 1]), es[|es| - 1])
  }

  function Exec(s: State, es: seq<Event>): State
    requires Runnable(s, es)
    decreases |es|, 1
  {
    if es == [] then s else Apply(Exec(s, es[..|es| - 1]), es[|es| - 1])
  }

  lemma {:induction false} PrefixRunnable(s: State, es: seq<Event>, i: nat)
    requires Runnable(s, es) && i <= |es|
    ensures Runnable(s, es[..i])
    ensures i < |es| ==> Enabled(Exec(s, es[..i]), es[i])
    ensures i < |es| ==> Runnable(s, es[..i + 1]) && Exec(s, es[..i + 1]) == Apply(Exec(s, es[..i]), es[i])
    decreases |es|
  {
    hide Enabled, Apply;
    if i == |es| {
      assert es[..i] == es;
    } else if i == |es| - 1 {
      assert es[..i + 1] == es;
    } else {
      assert es[..|es| - 1][..i] == es[..i] && es[..|es| - 1][..i + 1] == es[..i + 1];
      PrefixRunnable(s, es[..|es| - 1], i);
    }
  }

  // ---------- automatic runs out of the protective modes ----------

  /** No operator takes part. */
  predicate Automatic(es: seq<Event>) {
    forall i :: 0 <= i < |es| ==> !es[i].Admin?
  }

  /** While only the watcher writes the row, what it has seen is the row, or the row is still as it was. */
  ghost predicate SeesRow(s: State, start: Row) {
    && (s.row != start ==> s.cached == Some(s.row) || s.cached.None?)
    && (s.pc.Seen? && s.row != start ==> s.pc.current == s.row)
    && (s.pc.Exiting? && s.row != start ==> MayExit(s.row, s.now))
    && s.row.enteredAt <= s.now
    && (s.row != start ==> s.row.autoEntered)
  }

  lemma StepSees(s: State, e: Event, start: Row)
    requires SeesRow(s, start) && Enabled(s, e) && !e.Admin? && MostProtective(start.mode)
    ensures SeesRow(Apply(s, e), start) || Apply(s, e).row.mode == Normal
  {}

  /** The tick in progress began somewhere, and no rule has fired in it since. */
  ghost predicate CleanSince(es: seq<Event>, b: nat) {
    b < |es| && es[b].Begin? && forall j :: b < j < |es| ==> !es[j].Fires? && !es[j].Begin?
  }

  lemma {:induction false} CleanTick(s: State, es: seq<Event>)
    requires s.pc.Idle? && Runnable(s, es)
    requires var pc := Exec(s, es).pc; pc == Rules(false) || pc.Seen? || pc.Exiting?
    ensures exists b :: CleanSince(es, b)
    decreases |es|
  {
    if es != [] {
      var rest, last := es[..|es| - 1], es[|es| - 1];
      if last.Begin? {
        assert CleanSince(es, |es| - 1);
      } else {
        CleanTick(s, rest);
        var b :| CleanSince(rest, b);
        assert CleanSince(es, b);
      }
    }
  }

  /** The row has stood unchanged since event `m` of the run entered it. */
  ghost predicate StoodSince(s: State, es: seq<Event>, m: nat)
    requires Runnable(s, es)
  {
    && m < |es| && es[m].Fires?
    && Runnable(s, es[..m]) && Exec(s, es[..m]).now == Exec(s, es).row.enteredAt
    && forall j :: m < j <= |es| ==> Runnable(s, es[..j]) && Exec(s, es[..j]).row == Exec(s, es).row
  }

  lemma StandsOn(s: State, es: seq<Event>, m: nat)
    requires es != [] && Runnable(s, es) && StoodSince(s, es[..|es| - 1], m)
    requires Exec(s, es).row == Exec(s, es[..|es| - 1]).row
    ensures StoodSince(s, es, m)
  {
    var rest := es[..|es| - 1];
    hide Enabled, Apply;
    assert rest[..m] == es[..m];
    forall j | m < j <= |es| ensures Runnable(s, es[..j]) && Exec(s, es[..j]).row == Exec(s, es).row {
      if j < |es| {
        assert es[..j] == rest[..j];
      } else {
        assert es[..j] == es;
      }
    }
  }

  /** The invariant of an automatic run that has not reached `normal`. */
  ghost predicate OnTheWay(s: State, es: seq<Event>)
    requires Runnable(s, es)
  {
    var t := Exec(s, es);
    && SeesRow(t, s.row) && t.row.mode != Normal
    && (t.row != s.row ==> exists m :: StoodSince(s, es, m))
  }

  lemma StepOnTheWay(s: State, es: seq<Event>)
    requires es != [] && Runnable(s, es) && MostProtective(s.row.mode) && !es[|es| - 1].Admin?
    requires OnTheWay(s, es[..|es| - 1]) && Exec(s, es).row.mode != Normal
    ensures OnTheWay(s, es)
  {
    var rest, last := es[..|es| - 1], es[|es| - 1];
    var u, t := Exec(s, rest), Exec(s, es);
    StepSees(u, last, s.row);
    if t.row == u.row {
      if t.row != s.row {
        var m :| StoodSince(s, rest, m);
        StandsOn(s, es, m);
      }
    } else {
      assert last.Fires? && t.row.enteredAt == u.now;
      assert es[..|es|] == es;
      assert StoodSince(s, es, |es| - 1);
    }
  }

  lemma {:induction false} StaysOnTheWay(s: State, es: seq<Event>)
    requires Runnable(s, es) && Automatic(es) && MostProtective(s.row.mode) && s.row.enteredAt <= s.now && s.pc.Idle?
    requires forall i :: 0 <= i <= |es| ==> Runnable(s, es[..i]) && Exec(s, es[..i]).row.mode != Normal
    ensures OnTheWay(s, es)
    decreases |es|
  {
    assert es[..|es|] == es;
    if es == [] {
    } else {
      var rest := es[..|es| - 1];
      forall i | 0 <= i <= |rest| ensures Runnable(s, rest[..i]) && Exec(s, rest[..i]).row.mode != Normal {
        assert rest[..i] == es[..i];
      }
      StaysOnTheWay(s, rest);
      StepOnTheWay(s, es);
    }
  }

  /** Only a granted exit reaches `normal`. */
  lemma ExitStep(u: State, e: Event, start: Row)
    requires SeesRow(u, start) && MostProtective(start.mode) && u.row.mode != Normal
    requires Enabled(u, e) && !e.Admin? && Apply(u, e).row.mode == Normal
    ensures e.Exit? && u.pc.Exiting? && u.row != start && MayExit(u.row, u.now)
  {}

  /**
   The watcher alone brings the mode from `audit_compromised` or `emergency_freeze` back
   to `normal` only by way of `release_restricted` or `degraded`, after that mode has
   stood unbroken for over 30 or 15 minutes, in a tick in which no rule fired.
   */
  lemma AutomaticExitDwells(s: State, es: seq<Event>)
    requires MostProtective(s.row.mode) && s.row.enteredAt <= s.now && s.pc.Idle?
    requires es != [] && Runnable(s, es) && Automatic(es)
    requires forall i :: 0 <= i < |es| ==> Runnable(s, es[..i]) && Exec(s, es[..i]).row.mode != Normal
    requires Exec(s, es).row.mode == Normal
    ensures es[|es| - 1].Exit?
    ensures var rest := es[..|es| - 1]; var u := Exec(s, rest);
      && u.row.autoEntered
      && (u.row.mode == ReleaseRestricted || u.row.mode == Degraded)
      && u.now - u.row.enteredAt > (if u.row.mode == Degraded then 900_000 else 1_800_000)
      && (exists m :: StoodSince(s, rest, m))
      && (exists b :: CleanSince(rest, b))
  {
    var rest := es[..|es| - 1];
    forall i | 0 <= i <= |rest| ensures Runnable(s, rest[..i]) && Exec(s, rest[..i]).row.mode != Normal {
      assert rest[..i] == es[..i];
    }
    assert Automatic(rest);
    StaysOnTheWay(s, rest);
    ExitStep(Exec(s, rest), es[|es| - 1], s.row);
    CleanTick(s, rest);
    hide Enabled, Apply, StoodSince, CleanSince, SeesRow;
  }

  // ---------- recorded runs ----------

  ghost predicate Linked(states: seq<State>, es: seq<Event>) {
    && |states| == |es| + 1
    && forall i :: 0 <= i < |es| ==> Enabled(states[i], es[i]) && states[i + 1] == Apply(states[i], es[i])
  }

  lemma {:induction false} LinkedIsRun(states: seq<State>, es: seq<Event>)
    requires Linked(states, es)
    ensures Runnable(states[0], es) && Exec(states[0], es) == states[|es|]
    decreases |es|
  {
    hide Enabled, Apply;
    if es != [] {
      var n := |es| - 1;
      forall i | 0 <= i < n
        ensures Enabled(states[..n + 1][i], es[..n][i]) && states[..n + 1][i + 1] == Apply(states[..n + 1][i], es[..n][i])
      {
        assert states[i + 1] == Apply(states[i], es[i]);
      }
      LinkedIsRun(states[..n + 1], es[..n]);
      assert states[n + 1] == Apply(states[n], es[n]);
    }
  }

  // ---------- exactly when a clean tick exits ----------

  /** The watcher's process knows the row, and the row has a dwell. */
  predicate Watched(s: State) {
    && (s.row.mode == ReleaseRestricted || s.row.mode == Degraded) && s.row.autoEntered
    && (s.cached.Some? ==> s.cached == Some(s.row))
    && (s.pc.Seen? ==> s.pc.current == s.row)
  }

  /** Rules may fire, but only for the mode already on; nobody else writes the row. */
  predicate Refires(es: seq<Event>, m: Mode) {
    forall i :: 0 <= i < |es| ==> !es[i].Admin? && !es[i].Exit? && (es[i].Fires? ==> es[i].next == m)
  }

  /** However often its rules fire again, the row is still the one first entered. */
  lemma {:induction false} RefiringKeepsRow(s: State, es: seq<Event>)
    requires Watched(s) && Runnable(s, es) && Refires(es, s.row.mode)
    ensures Exec(s, es).row == s.row && Watched(Exec(s, es))
    decreases |es|
  {
    if es != [] {
      RefiringKeepsRow(s, es[..|es| - 1]);
    }
  }

  lemma CleanTickRuns(u: State)
    requires u.pc.Idle?
    ensures Runnable(u, [Begin, Read, Decide])
    ensures Exec(u, [Begin, Read, Decide]) ==
            u.AfterCurrent().(pc := if MayExit(u.Current(), u.now) then Exiting else Idle)
  {
    LinkedIsRun([u, u.(pc := Rules(false)), u.AfterCurrent().(pc := Seen(u.Current())),
                 u.AfterCurrent().(pc := if MayExit(u.Current(), u.now) then Exiting else Idle)], [Begin, Read, Decide]);
  }

  /**
   After any history of ticks whose rules fired only for the mode already on, a clean tick
   takes the exit exactly when the dwell has passed since that mode was first entered: a
   rule that fires again does not move the exit.
   */
  lemma CleanTickExitsIff(s: State, es: seq<Event>)
    requires Watched(s) && Runnable(s, es) && Refires(es, s.row.mode) && Exec(s, es).pc.Idle?
    ensures var u := Exec(s, es);
      && Runnable(u, [Begin, Read, Decide])
      && (Exec(u, [Begin, Read, Decide]).pc.Exiting? <==>
          u.now - s.row.enteredAt > if s.row.mode == Degraded then 900_000 else 1_800_000)
      && Exec(u, [Begin, Read, Decide]).row == s.row
  {
    RefiringKeepsRow(s, es);
    CleanTickRuns(Exec(s, es));
    hide Runnable, Exec;
  }

  lemma ExitRuns(v: State)
    requires v.pc.Exiting? && !MostProtective(v.row.mode)
    ensures Runnable(v, [Exit]) && Exec(v, [Exit]).row == if v.row.mode == Normal then v.row else Row(Normal, v.now, true)
  {
    LinkedIsRun([v, Apply(v, Exit)], [Exit]);
  }

  /**
   No operator is asked: whichever protective mode is on, once a rule fires
   `release_restricted` or `degraded`, the next clean tick is the way to `normal` exactly
   if that mode's dwell is over by then.
   */
  lemma FreezeExitsIff(s: State, m: Mode, wait: nat)
    requires s.pc.Idle? && (s.row.mode == AuditCompromised || s.row.mode == EmergencyFreeze)
    requires m == ReleaseRestricted || m == Degraded
    ensures var es := [Begin, Fires(m), Read, Pass(wait)];
      && Runnable(s, es) && Exec(s, es).row == Row(m, s.now, true)
      && Runnable(Exec(s, es), [Begin, Read, Decide])
      && var u := Exec(Exec(s, es), [Begin, Read, Decide]);
      && (u.pc.Exiting? <==> wait > if m == Degraded then 900_000 else 1_800_000)
      && (u.pc.Exiting? ==> Runnable(u, [Exit]) && Exec(u, [Exit]).row == Row(Normal, s.now + wait, true))
  {
    var es := [Begin, Fires(m), Read, Pass(wait)];
    var row := Row(m, s.now, true);
    var fired := State(row, Some(row), s.now, Rules(true), s.now);
    LinkedIsRun([s, s.(pc := Rules(false)), fired, fired.(pc := Idle), fired.(pc := Idle, now := s.now + wait)], es);
    var u := Exec(s, es);
    CleanTickRuns(u);
    hide Runnable, Exec;
    if wait > DwellOf(m).value { ExitRuns(u.AfterCurrent().(pc := Exiting)); }
  }

  // ---------- one such run ----------

  /**
   Thirty clean minutes are not asked for either: a rule that fires again does not renew
   the time of entry, so one clean tick fifteen seconds after a firing one exits.
   */
  lemma OneCleanTickExits()
    ensures var s := State(Row(Normal, 0, false), None, 0, Idle, 0);
      var es := [Begin, Fires(ReleaseRestricted), Read, Pass(1_800_000), Begin, Fires(ReleaseRestricted), Read,
                 Pass(15_000), Begin, Read, Decide, Exit];
      Runnable(s, es) && Exec(s, es).row == Row(Normal, 1_815_000, true)
  {
    var s := State(Row(Normal, 0, false), None, 0, Idle, 0);
    var es := [Begin, Fires(ReleaseRestricted), Read, Pass(1_800_000), Begin, Fires(ReleaseRestricted), Read,
               Pass(15_000), Begin, Read, Decide, Exit];
    var rr, end := Row(ReleaseRestricted, 0, true), Row(Normal, 1_815_000, true);
    var a, b := State(rr, Some(rr), 0, Idle, 1_800_000), State(rr, Some(rr), 1_800_000, Idle, 1_815_000);
    LinkedIsRun([s, s.(pc := Rules(false)), State(rr, Some(rr), 0, Rules(true), 0), State(rr, Some(rr), 0, Idle, 0), a,
                 a.(pc := Rules(false)), a.(pc := Rules(true), lastFetchAt := 1_800_000), b.(now := 1_800_000), b,
                 b.(pc := Rules(false)), b.(pc := Seen(rr), lastFetchAt := 1_815_000),
                 b.(pc := Exiting, lastFetchAt := 1_815_000), State(end, Some(end), 1_815_000, Idle, 1_815_000)], es);
  }

  // ---------- the services ----------

  /** What the rules of one tick find; C1, C2, C4 and C7 restrict releases. */
  datatype Findings = Findings(
    sentAfterAbort: nat, ambiguous: nat, outboxLagMs: Option<int>, kmsOpen: bool, staleScopes: nat, recentReleases: nat)

  /** The mode a reported rule enters. */
  function ModeOf(name: string): Mode {
    if name == "C3-hard" then Degraded else if name == "C5" then AuditCompromised else ReleaseRestricted
  }

  lemma ModeTable()
    ensures ModeOf("C1") == ReleaseRestricted && ModeOf("C2") == ReleaseRestricted && ModeOf("C4") == ReleaseRestricted
    ensures ModeOf("C7") == ReleaseRestricted && ModeOf("C3-hard") == Degraded && ModeOf("C5") == AuditCompromised
  {}

  function ModesOf(fired: seq<string>): seq<Mode> {
    seq(|fired|, i requires 0 <= i < |fired| => ModeOf(fired[i]))
  }

  /** The modes that rules entered in a run, in order. */
  function FiresOf(es: seq<Event>): seq<Mode> {
    if es == [] then []
    else FiresOf(es[..|es| - 1]) + if es[|es| - 1].Fires? then [es[|es| - 1].next] else []
  }

  lemma FiresAppend(es: seq<Event>, e: Event)
    ensures FiresOf(es + [e]) == FiresOf(es) + if e.Fires? then [e.next] else []
  {
    assert (es + [e])[..|es|] == es;
  }

  class ContainmentService {
    var s: State
    ghost var states: seq<State>
    ghost var trace: seq<Event>

    ghost predicate Valid()
      reads this
    {
      |states| == |trace| + 1 && Linked(states, trace) && states[|trace|] == s
    }

    ghost function Origin(): State
      reads this
    {
      if states == [] then s else states[0]
    }

    constructor (row: Row, now: int)
      ensures Valid() && s == State(row, None, 0, Idle, now) && Origin() == s
    {
      s := State(row, None, 0, Idle, now);
      states := [State(row, None, 0, Idle, now)];
      trace := [];
    }

    /** The state is where the recorded events lead. */
    lemma ReachesItsState()
      requires Valid()
      ensures Runnable(Origin(), trace) && Exec(Origin(), trace) == s
    {
      LinkedIsRun(states, trace);
    }

    ghost method Record(before: State, e: Event)
      requires |states| == |trace| + 1 && Linked(states, trace) && states[|trace|] == before
      requires Enabled(before, e) && s == Apply(before, e)
      modifies this`trace, this`states
      ensures Valid() && Origin() == old(Origin()) && trace == old(trace) + [e] && states == old(states) + [s]
      ensures FiresOf(trace) == FiresOf(old(trace)) + if e.Fires? then [e.next] else []
    {
      hide Enabled, Apply;
      FiresAppend(trace, e);
      trace := trace + [e];
      states := states + [s];
    }

    /** Time passes, and operators may change the mode from elsewhere. */
    method Await()
      requires Valid()
      modifies this
      ensures Valid() && Origin() == old(Origin()) && s.pc == old(s).pc
      ensures FiresOf(trace) == FiresOf(old(trace)) && old(trace) <= trace && old(states) <= states
    {
      hide Linked;
      var left: nat := *;
      while left > 0
        invariant Valid() && Origin() == old(Origin()) && s.pc == old(s).pc
        invariant FiresOf(trace) == FiresOf(old(trace)) && old(trace) <= trace && old(states) <= states
      {
        var e: Event := *;
        if e.Admin? || e.Pass? {
          ghost var before := s;
          s := Apply(s, e);
          Record(before, e);
        }
        left := left - 1;
      }
    }

    /** `SafetyModeService.enter` from this process, for a rule or for the exit. */
    method EnterAuto(next: Mode)
      requires Valid() && (if next == Normal then s.pc.Exiting? else s.pc.Rules? && RuleMode(next))
      modifies this
      ensures Valid() && Origin() == old(Origin())
      ensures trace == old(trace) + [if next == Normal then Exit else Fires(next)] && old(states) <= states
      ensures FiresOf(trace) == FiresOf(old(trace)) + if next == Normal then [] else [next]
      ensures s.pc == if next == Normal then Idle else Rules(true)
      ensures s.row ==
              if old(s).row.mode == next || (next == Normal && old(s).row.mode in {AuditCompromised, EmergencyFreeze})
              then old(s).row else Row(next, old(s).now, true)
      ensures s.cached == Some(s.row) && s.lastFetchAt == s.now == old(s).now
    {
      hide Linked;
      ghost var before := s;
      var from := s.row.mode;
      if from != next {
        var refused := (from == AuditCompromised || from == EmergencyFreeze) && next == Normal;
        if !refused { s := s.(row := Row(next, s.now, true)); }
      }
      s := s.(pc := if next == Normal then Idle else Rules(true), cached := Some(s.row), lastFetchAt := s.now);
      Record(before, if next == Normal then Exit else Fires(next));
    }

    /** `SafetyModeService.current`, at the end of a tick. */
    method Current() returns (current: Row)
      requires Valid() && s.pc == Rules(false)
      modifies this
      ensures Valid() && Origin() == old(Origin()) && s.pc == Seen(current) && s.row == old(s).row
      ensures trace == old(trace) + [Read] && FiresOf(trace) == FiresOf(old(trace))
      ensures old(s).cached.Some? && s.now - old(s).lastFetchAt < 5_000 ==>
        current == old(s).cached.value && s.cached == old(s).cached && s.lastFetchAt == old(s).lastFetchAt
      ensures old(s).cached.None? || s.now - old(s).lastFetchAt >= 5_000 ==>
        current == old(s).row && s.cached == Some(current) && s.lastFetchAt == s.now
    {
      hide Linked;
      ghost var before := s;
      if s.cached.Some? && s.now - s.lastFetchAt < REFRESH_MS {
        current := s.cached.value;
      } else {
        current := s.row;
        s := s.(cached := Some(s.row), lastFetchAt := s.now);
      }
      s := s.(pc := Seen(current));
      Record(before, Read);
    }

    /** One rule of a tick: if it finds something it enters its mode. */
    method Rule(finds: bool, next: Mode, name: string, fired: seq<string>, ghost base: seq<Mode>) returns (r: seq<string>)
      requires Valid() && s.pc == Rules(fired != []) && RuleMode(next) && next == ModeOf(name)
      requires FiresOf(trace) == base + ModesOf(fired)
      modifies this
      ensures Valid() && Origin() == old(Origin()) && s.pc == Rules(r != []) && |trace| >= |old(trace)|
      ensures r == Add(fired, finds, name)
      ensures FiresOf(trace) == base + ModesOf(r)
    {
      hide Linked, ModesOf, FiresOf, ModeOf;
      Await();
      ModesAdd(fired, finds, name);
      r := fired;
      if finds {
        EnterAuto(next);
        r := fired + [name];
      }
    }

    /** `tick`: the rules in order, then the automatic exit. */
    method Tick(f: Findings) returns (fired: seq<string>, ghost decision: nat)
      requires Valid() && s.pc.Idle?
      modifies this
      ensures Valid() && Origin() == old(Origin()) && s.pc.Idle? && |trace| > |old(trace)|
      ensures Reported(f, fired) && Entering(f, FiresOf(old(trace)), FiresOf(trace))
      ensures fired != [] ==> trace[|trace| - 1] == Read
      ensures fired == [] ==>
        && |old(trace)| < decision < |trace| && trace[decision] == Decide && states[decision].pc.Seen?
        && (trace[|trace| - 1] == Exit <==>
          var seen, stood := states[decision].pc.current, states[decision].now - states[decision].pc.current.enteredAt;
          && seen.autoEntered
          && ((seen.mode == ReleaseRestricted && stood > 1_800_000) || (seen.mode == Degraded && stood > 900_000)))
        && (trace[|trace| - 1] != Exit ==> decision == |trace| - 1)
    {
      hide Linked, FiresOf, ModesOf, FiredBy, Reported, Entering;
      ghost var before := s;
      s := s.(pc := Rules(false));
      Record(before, Begin);
      assert FiresOf(trace) == FiresOf(old(trace));
      fired := RunRules(f);
      assert |trace| > |old(trace)|;
      ghost var ruled := FiresOf(trace);
      if fired != [] {
        before := s;
        s := s.AfterCurrent().(pc := Idle);
        Record(before, Read);
        assert FiresOf(trace) == ruled;
        decision := 0;
        return;
      }
      Await();
      var current := Current();
      Await();
      before := s;
      decision := |trace|;
      var exits := MayExit(current, s.now);
      s := s.(pc := if exits then Exiting else Idle);
      Record(before, Decide);
      assert FiresOf(trace) == ruled;
      if exits {
        ghost var kept, seen := trace, states;
        Await();
        EnterAuto(Normal);
        assert trace[decision] == kept[decision] && states[decision] == seen[decision];
        assert FiresOf(trace) == ruled;
      }
    }

    method RunRules(f: Findings) returns (fired: seq<string>)
      requires Valid() && s.pc == Rules(false)
      modifies this
      ensures Valid() && Origin() == old(Origin()) && s.pc == Rules(fired != []) && fired == FiredBy(f)
      ensures |trace| >= |old(trace)| && FiresOf(trace) == FiresOf(old(trace)) + ModesOf(fired)
      ensures Reported(f, fired) && Entering(f, FiresOf(old(trace)), FiresOf(trace))
    {
      assert ModesOf([]) == [];
      RulesFire(f, FiresOf(trace));
      hide Linked, Add, ModesOf, FiresOf, FiredBy, FirstFired, Reported, Entering;
      ghost var base := FiresOf(trace);
      fired := ReleaseRules(f, base);
      fired := SystemRules(f, fired, base);
    }

    method ReleaseRules(f: Findings, ghost base: seq<Mode>) returns (fired: seq<string>)
      requires Valid() && s.pc == Rules(false) && FiresOf(trace) == base + ModesOf([])
      modifies this
      ensures Valid() && Origin() == old(Origin()) && s.pc == Rules(fired != []) && fired == FirstFired(f)
      ensures |trace| >= |old(trace)| && FiresOf(trace) == base + ModesOf(fired)
    {
      ModeTable();
      hide Linked, Add, ModesOf, FiresOf, ModeOf;
      fired := Rule(f.sentAfterAbort > 0, ReleaseRestricted, "C1", [], base);
      fired := Rule(f.ambiguous >= 5, ReleaseRestricted, "C2", fired, base);
      fired := Rule(f.outboxLagMs.Some? && f.outboxLagMs.value > 900_000, Degraded, "C3-hard", fired, base);
    }

    method SystemRules(f: Findings, first: seq<string>, ghost base: seq<Mode>) returns (fired: seq<string>)
      requires Valid() && s.pc == Rules(first != []) && FiresOf(trace) == base + ModesOf(first) && first == FirstFired(f)
      modifies this
      ensures Valid() && Origin() == old(Origin()) && s.pc == Rules(fired != []) && fired == FiredBy(f)
      ensures |trace| >= |old(trace)| && FiresOf(trace) == base + ModesOf(fired)
    {
      ModeTable();
      hide Linked, Add, ModesOf, FiresOf, ModeOf;
      fired := Rule(f.kmsOpen, ReleaseRestricted, "C4", first, base);
      fired := Rule(f.staleScopes > 0, AuditCompromised, "C5", fired, base);
      fired := Rule(f.recentReleases > 20, ReleaseRestricted, "C7", fired, base);
    }
  }

  function Add(fired: seq<string>, finds: bool, name: string): seq<string> {
    if finds then fired + [name] else fired
  }

  lemma ModesAdd(fired: seq<string>, finds: bool, name: string)
    ensures ModesOf(Add(fired, finds, name)) == ModesOf(fired) + if finds then [ModeOf(name)] else []
  {}

  function FirstFired(f: Findings): seq<string> {
    var c1 := Add([], f.sentAfterAbort > 0, "C1");
    var c2 := Add(c1, f.ambiguous >= 5, "C2");
    Add(c2, f.outboxLagMs.Some? && f.outboxLagMs.value > 900_000, "C3-hard")
  }

  /** The names a tick reports, in the order of its rules. */
  function FiredBy(f: Findings): seq<string> {
    var c4 := Add(FirstFired(f), f.kmsOpen, "C4");
    var c5 := Add(c4, f.staleScopes > 0, "C5");
    Add(c5, f.recentReleases > 20, "C7")
  }

  function If<T>(b: bool, x: T): seq<T> {
    if b then [x] else []
  }

  /** What a tick reports, and at which findings. */
  ghost predicate Reported(f: Findings, fired: seq<string>) {
    fired ==
    If(f.sentAfterAbort >= 1, "C1") + If(f.ambiguous >= 5, "C2")
    + If(f.outboxLagMs != None && f.outboxLagMs.value > 900_000, "C3-hard")
    + If(f.kmsOpen, "C4") + If(f.staleScopes >= 1, "C5") + If(f.recentReleases > 20, "C7")
  }

  /** The modes that a tick's rules enter, after those entered before. */
  ghost predicate Entering(f: Findings, before: seq<Mode>, after: seq<Mode>) {
    after == before + (
      If(f.sentAfterAbort >= 1, ReleaseRestricted) + If(f.ambiguous >= 5, ReleaseRestricted)
      + If(f.outboxLagMs != None && f.outboxLagMs.value > 900_000, Degraded)
      + If(f.kmsOpen, ReleaseRestricted) + If(f.staleScopes >= 1, AuditCompromised) + If(f.recentReleases > 20, ReleaseRestricted))
  }

  lemma AddIf(fired: seq<string>, finds: bool, name: string)
    ensures Add(fired, finds, name) == fired + If(finds, name)
    ensures ModesOf(Add(fired, finds, name)) == ModesOf(fired) + If(finds, ModeOf(name))
  {}

  lemma RulesFire(f: Findings, before: seq<Mode>)
    ensures Reported(f, FiredBy(f)) && Entering(f, before, before + ModesOf(FiredBy(f)))
  {
    ModeTable();
    var lags := f.outboxLagMs.Some? && f.outboxLagMs.value > 900_000;
    var c1 := Add([], f.sentAfterAbort > 0, "C1");
    var c2 := Add(c1, f.ambiguous >= 5, "C2");
    var c3 := Add(c2, lags, "C3-hard");
    var c4 := Add(c3, f.kmsOpen, "C4");
    var c5 := Add(c4, f.staleScopes > 0, "C5");
    assert ModesOf([]) == [];
    assert FiredBy(f) == Add(c5, f.recentReleases > 20, "C7");
    AddIf([], f.sentAfterAbort > 0, "C1");
    AddIf(c1, f.ambiguous >= 5, "C2");
    AddIf(c2, lags, "C3-hard");
    AddIf(c3, f.kmsOpen, "C4");
    AddIf(c4, f.staleScopes > 0, "C5");
    AddIf(c5, f.recentReleases > 20, "C7");
    hide Add, ModesOf, ModeOf, FiredBy, If;
    assert [] + If(f.sentAfterAbort > 0, "C1") == If(f.sentAfterAbort > 0, "C1");
    assert [] + If(f.sentAfterAbort > 0, ReleaseRestricted) == If(f.sentAfterAbort > 0, ReleaseRestricted);
  }
}
