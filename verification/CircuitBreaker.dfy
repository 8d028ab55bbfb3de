/**
 The circuit breaker of one process. Failure times are kept in memory and trimmed to a
 window; the row keeps counters, state and the current cooldown; an opened provider is
 also put on the isolation list. Times are milliseconds of a clock that never goes back.
 */
module CircuitBreaker {
  import opened Basics

  datatype Config = Config(
    consecFailureThreshold: nat,
    failureWindowCount: nat,
    failureWindowMs: nat,
    ambiguousWindowCount: nat,
    ambiguousWindowMs: nat,
    initialCooldownMs: nat,
    maxCooldownMs: nat)

  const DEFAULTS := Config(10, 25, 300_000, 5, 300_000, 60_000, 600_000)
  const KMS := DEFAULTS.(consecFailureThreshold := 2, initialCooldownMs := 15_000, maxCooldownMs := 120_000)
  const VOICE := DEFAULTS.(consecFailureThreshold := 8, failureWindowCount := 15, ambiguousWindowCount := 3, initialCooldownMs := 90_000)
  const SOCIAL := DEFAULTS.(consecFailureThreshold := 15, initialCooldownMs := 120_000, maxCooldownMs := 900_000)

  function ConfigFor(provider: string): (c: Config)
    ensures c.initialCooldownMs <= c.maxCooldownMs
  {
    if provider == "twilio-voice" then VOICE
    else if provider == "kms-decrypt" then KMS
    else if "social-" <= provider then SOCIAL
    else DEFAULTS
  }

  datatype State = Closed | Open | HalfOpen

  datatype Row = Row(state: State, failureCount: nat, ambiguousCount: nat, openedAt: Option<int>, nextProbeAt: Option<int>)

  const NEW_ROW := Row(Closed, 0, 0, None, None)

  /** All that is kept about one provider. */
  datatype Provider = Provider(failures: seq<int>, ambiguous: seq<int>, row: Option<Row>, isolated: bool)

  const NEW_PROVIDER := Provider([], [], None, false)

  datatype Event =
    | Succeeds(at: int)
    | Fails(at: int)
    | Ambiguity(at: int)
    | Check(at: int)
    | Isolate(at: int)
    | Unisolate(at: int)

  /** The times no more than `windowMs` before `now`. */
  function Recent(times: seq<int>, now: int, windowMs: nat): seq<int> {
    if times == [] then []
    else
      var rest := Recent(times[..|times| - 1], now, windowMs);
      if now - times[|times| - 1] <= windowMs then rest + [times[|times| - 1]] else rest
  }

  // ---------- what the service does to one provider ----------

  function NextCooldown(c: Config, row: Row): int {
    var last := if row.openedAt.Some? && row.nextProbeAt.Some?
                then row.nextProbeAt.value - row.openedAt.value else c.initialCooldownMs;
    Min(c.maxCooldownMs, Max(c.initialCooldownMs, last * 2))
  }

  function Opened(c: Config, p: Provider, now: int): Provider
    requires p.row.Some?
  {
    var row := p.row.value;
    p.(row := Some(row.(state := Open, openedAt := Some(now), nextProbeAt := Some(now + NextCooldown(c, row)))), isolated := true)
  }

  function OrNew(row: Option<Row>): Row {
    if row.Some? then row.value else NEW_ROW
  }

  function Failed(c: Config, p: Provider, now: int): Provider {
    var times := Recent(p.failures, now, c.failureWindowMs) + [now];
    var row := OrNew(p.row).(failureCount := OrNew(p.row).failureCount + 1);
    var counted := p.(failures := times, row := Some(row));
    if row.failureCount + 1 >= c.consecFailureThreshold || |times| >= c.failureWindowCount || row.state == HalfOpen
    then Opened(c, counted, now) else counted
  }

  function Ambiguous(c: Config, p: Provider, now: int): Provider {
    var times := Recent(p.ambiguous, now, c.ambiguousWindowMs) + [now];
    var row := OrNew(p.row).(ambiguousCount := OrNew(p.row).ambiguousCount + 1);
    var counted := p.(ambiguous := times, row := Some(row));
    if |times| >= c.ambiguousWindowCount then Opened(c, counted, now) else counted
  }

  /** Whether a call may go out; asking may turn an open breaker half open. */
  function Allowed(p: Provider, now: int): bool {
    !p.isolated && (p.row.Some? && p.row.value.state == Open ==>
      p.row.value.nextProbeAt.Some? && p.row.value.nextProbeAt.value <= now)
  }

  function Checked(p: Provider, now: int): Provider {
    if Allowed(p, now) && p.row.Some? && p.row.value.state == Open
    then p.(row := Some(p.row.value.(state := HalfOpen))) else p
  }

  function Step(c: Config, p: Provider, e: Event): Provider {
    match e
    case Succeeds(_) => Provider([], [], Some(NEW_ROW), false)
    case Fails(at) => Failed(c, p, at)
    case Ambiguity(at) => Ambiguous(c, p, at)
    case Check(at) => Checked(p, at)
    case Isolate(_) => p.(isolated := true)
    case Unisolate(_) => p.(isolated := false)
  }

  function After(c: Config, es: seq<Event>): Provider {
    if es == [] then NEW_PROVIDER else Step(c, After(c, es[..|es| - 1]), es[|es| - 1])
  }

  // ---------- the unbounded-history specification ----------

  /** Every outcome since the last success, and how often the breaker opened since. */
  datatype History = History(
    failedAt: seq<int>, ambiguousAt: seq<int>, openings: nat, openedAt: int, state: State, isolated: bool)

  const NO_HISTORY := History([], [], 0, 0, Closed, false)

  function Pow2(n: nat): nat {
    if n == 0 then 1 else 2 * Pow2(n - 1)
  }

  /** The cooldown of the `k`th opening without a success between: the initial one doubled `k` times, up to the maximum. */
  function Cooldown(c: Config, k: nat): int {
    Min(c.maxCooldownMs, c.initialCooldownMs * Pow2(k))
  }

  function Reopened(h: History, now: int): History {
    h.(openings := h.openings + 1, openedAt := now, state := Open, isolated := true)
  }

  predicate OpensOnFailure(c: Config, h: History, now: int) {
    || |h.failedAt| + 2 >= c.consecFailureThreshold
    || |Recent(h.failedAt + [now], now, c.failureWindowMs)| >= c.failureWindowCount
    || h.state == HalfOpen
  }

  predicate OpensOnAmbiguity(c: Config, h: History, now: int) {
    |Recent(h.ambiguousAt + [now], now, c.ambiguousWindowMs)| >= c.ambiguousWindowCount
  }

  predicate Permits(c: Config, h: History, now: int) {
    !h.isolated && (h.state == Open ==> h.openedAt + Cooldown(c, h.openings) <= now)
  }

  function Extend(c: Config, h: History, e: Event): History {
    match e
    case Succeeds(_) => NO_HISTORY
    case Fails(at) =>
      var g := h.(failedAt := h.failedAt + [at]);
      if OpensOnFailure(c, h, at) then Reopened(g, at) else g
    case Ambiguity(at) =>
      var g := h.(ambiguousAt := h.ambiguousAt + [at]);
      if OpensOnAmbiguity(c, h, at) then Reopened(g, at) else g
    case Check(at) => if Permits(c, h, at) && h.state == Open then h.(state := HalfOpen) else h
    case Isolate(_) => h.(isolated := true)
    case Unisolate(_) => h.(isolated := false)
  }

  function HistoryOf(c: Config, es: seq<Event>): History {
    if es == [] then NO_HISTORY else Extend(c, HistoryOf(c, es[..|es| - 1]), es[|es| - 1])
  }

  predicate Monotone(es: seq<Event>) {
    forall i, j :: 0 <= i < j < |es| ==> es[i].at <= es[j].at
  }

  // ---------- trimming loses nothing that matters ----------

  lemma {:induction false} RecentAppend(times: seq<int>, t: int, now: int, windowMs: nat)
    ensures Recent(times + [t], now, windowMs)
         == Recent(times, now, windowMs) + if now - t <= windowMs then [t] else []
  {
    assert (times + [t])[..|times|] == times;
  }

  /** A window trimmed earlier and trimmed again is the full history trimmed now. */
  lemma {:induction false} RecentTwice(times: seq<int>, then': int, now: int, windowMs: nat)
    requires then' <= now
    ensures Recent(Recent(times, then', windowMs), now, windowMs) == Recent(times, now, windowMs)
  {
    if times != [] {
      var rest, t := times[..|times| - 1], times[|times| - 1];
      RecentTwice(rest, then', now, windowMs);
      if then' - t <= windowMs { RecentAppend(Recent(rest, then', windowMs), t, now, windowMs); }
    }
  }

  /** A window kept since some earlier trim. */
  ghost predicate Kept(kept: seq<int>, all: seq<int>, now: int, windowMs: nat) {
    exists at :: at <= now && kept == Recent(all, at, windowMs)
  }

  lemma KeptTrimmed(kept: seq<int>, all: seq<int>, before: int, now: int, windowMs: nat)
    requires Kept(kept, all, before, windowMs) && before <= now
    ensures Recent(kept, now, windowMs) + [now] == Recent(all + [now], now, windowMs)
  {
    var at :| at <= before && kept == Recent(all, at, windowMs);
    RecentTwice(all, at, now, windowMs);
    RecentAppend(all, now, now, windowMs);
  }

  lemma KeptLater(kept: seq<int>, all: seq<int>, before: int, now: int, windowMs: nat)
    requires Kept(kept, all, before, windowMs) && before <= now
    ensures Kept(kept, all, now, windowMs)
  {}

  // ---------- the service refines the specification ----------

  /** What is kept about a provider is what its history says. */
  ghost predicate Refines(c: Config, p: Provider, h: History, now: int) {
    && Kept(p.failures, h.failedAt, now, c.failureWindowMs)
    && Kept(p.ambiguous, h.ambiguousAt, now, c.ambiguousWindowMs)
    && p.isolated == h.isolated
    && OrNew(p.row).state == h.state
    && OrNew(p.row).failureCount == |h.failedAt| && OrNew(p.row).ambiguousCount == |h.ambiguousAt|
    && (h.openings == 0 ==> OrNew(p.row).openedAt == None && h.state == Closed)
    && (h.openings > 0 ==>
      && OrNew(p.row).openedAt == Some(h.openedAt)
      && OrNew(p.row).nextProbeAt == Some(h.openedAt + Cooldown(c, h.openings)))
  }

  /** Doubling and capping at each opening is the closed form. */
  lemma CooldownDoubles(c: Config, k: nat)
    requires c.initialCooldownMs <= c.maxCooldownMs
    ensures Min(c.maxCooldownMs, Max(c.initialCooldownMs, Cooldown(c, k) * 2)) == Cooldown(c, k + 1)
    ensures Cooldown(c, 0) == c.initialCooldownMs
  {
    Pow2Positive(k);
    assert c.initialCooldownMs * Pow2(k + 1) == 2 * (c.initialCooldownMs * Pow2(k));
    assert c.initialCooldownMs <= c.initialCooldownMs * Pow2(k);
  }

  lemma {:induction false} Pow2Positive(k: nat)
    ensures Pow2(k) >= 1
  {
    if k > 0 { Pow2Positive(k - 1); }
  }

  lemma OpeningRefines(c: Config, p: Provider, h: History, now: int)
    requires c.initialCooldownMs <= c.maxCooldownMs
    requires Refines(c, p, h, now) && p.row.Some?
    ensures Refines(c, Opened(c, p, now), Reopened(h, now), now)
  {
    CooldownDoubles(c, h.openings);
    hide Kept, Cooldown;
  }

  lemma FailureRefines(c: Config, p: Provider, h: History, before: int, now: int)
    requires c.initialCooldownMs <= c.maxCooldownMs
    requires Refines(c, p, h, before) && before <= now
    ensures Refines(c, Step(c, p, Fails(now)), Extend(c, h, Fails(now)), now)
  {
    KeptTrimmed(p.failures, h.failedAt, before, now, c.failureWindowMs);
    KeptLater(p.ambiguous, h.ambiguousAt, before, now, c.ambiguousWindowMs);
    var times := Recent(p.failures, now, c.failureWindowMs) + [now];
    var counted := p.(failures := times, row := Some(OrNew(p.row).(failureCount := OrNew(p.row).failureCount + 1)));
    var g := h.(failedAt := h.failedAt + [now]);
    assert Refines(c, counted, g, now);
    OpeningRefines(c, counted, g, now);
  }

  lemma AmbiguityRefines(c: Config, p: Provider, h: History, before: int, now: int)
    requires c.initialCooldownMs <= c.maxCooldownMs
    requires Refines(c, p, h, before) && before <= now
    ensures Refines(c, Step(c, p, Ambiguity(now)), Extend(c, h, Ambiguity(now)), now)
  {
    KeptTrimmed(p.ambiguous, h.ambiguousAt, before, now, c.ambiguousWindowMs);
    KeptLater(p.failures, h.failedAt, before, now, c.failureWindowMs);
    var times := Recent(p.ambiguous, now, c.ambiguousWindowMs) + [now];
    var counted := p.(ambiguous := times, row := Some(OrNew(p.row).(ambiguousCount := OrNew(p.row).ambiguousCount + 1)));
    var g := h.(ambiguousAt := h.ambiguousAt + [now]);
    assert Refines(c, counted, g, now);
    OpeningRefines(c, counted, g, now);
  }

  lemma StepRefines(c: Config, p: Provider, h: History, before: int, e: Event)
    requires c.initialCooldownMs <= c.maxCooldownMs
    requires Refines(c, p, h, before) && before <= e.at
    ensures Refines(c, Step(c, p, e), Extend(c, h, e), e.at)
    ensures Allowed(p, e.at) <==> Permits(c, h, e.at)
  {
    KeptLater(p.failures, h.failedAt, before, e.at, c.failureWindowMs);
    KeptLater(p.ambiguous, h.ambiguousAt, before, e.at, c.ambiguousWindowMs);
    match e
    case Fails(at) => FailureRefines(c, p, h, before, at);
    case Ambiguity(at) => AmbiguityRefines(c, p, h, before, at);
    case Succeeds(at) =>
      assert Recent([], at, c.failureWindowMs) == [] && Recent([], at, c.ambiguousWindowMs) == [];
    case Check(_) | Isolate(_) | Unisolate(_) =>
  }

  /**
   After any sequence of outcomes, checks and operator actions, what is kept in trimmed
   windows, counters and a doubling cooldown decides exactly as the full history would.
   */
  lemma {:induction false} ServiceRefinesHistory(c: Config, es: seq<Event>, now: int)
    requires c.initialCooldownMs <= c.maxCooldownMs
    requires Monotone(es) && (es != [] ==> es[|es| - 1].at <= now)
    ensures Refines(c, After(c, es), HistoryOf(c, es), if es == [] then now else es[|es| - 1].at)
    ensures Allowed(After(c, es), now) <==> Permits(c, HistoryOf(c, es), now)
    decreases |es|
  {
    if es == [] {
      assert Recent([], now, c.failureWindowMs) == [] && Recent([], now, c.ambiguousWindowMs) == [];
    } else {
      var last := es[|es| - 1];
      ServiceRefinesHistory(c, es[..|es| - 1], last.at);
      StepRefines(c, After(c, es[..|es| - 1]), HistoryOf(c, es[..|es| - 1]),
                  if |es| == 1 then last.at else es[|es| - 2].at, last);
      StepRefines(c, After(c, es), HistoryOf(c, es), last.at, Check(now));
    }
  }

  /**
   A failure opens the breaker exactly when the failures since the last success, all of
   them, say so; and the `k`th opening without a success waits min(max, initial * 2^k).
   */
  lemma OpeningIsDecidedByHistory(c: Config, es: seq<Event>, now: int)
    requires c.initialCooldownMs <= c.maxCooldownMs && Monotone(es) && (es != [] ==> es[|es| - 1].at <= now)
    ensures var h, row := HistoryOf(c, es), OrNew(After(c, es + [Fails(now)]).row);
      && (OpensOnFailure(c, h, now) ==>
        && row.state == Open && row.openedAt == Some(now)
        && row.nextProbeAt == Some(now + Cooldown(c, h.openings + 1)))
      && (!OpensOnFailure(c, h, now) ==>
        row == OrNew(After(c, es).row).(failureCount := |h.failedAt| + 1))
  {
    hide After, HistoryOf, Refines, Step, OpensOnFailure, Cooldown, Monotone, OrNew, Allowed, Permits;
    ServiceRefinesHistory(c, es, now);
    AfterFailure(c, es, now);
    FailureDecides(c, After(c, es), HistoryOf(c, es), if es == [] then now else es[|es| - 1].at, now);
  }

  lemma AfterFailure(c: Config, es: seq<Event>, now: int)
    ensures After(c, es + [Fails(now)]) == Step(c, After(c, es), Fails(now))
  {
    hide Step;
    assert (es + [Fails(now)])[..|es|] == es;
  }

  lemma FailureDecides(c: Config, p: Provider, h: History, before: int, now: int)
    requires c.initialCooldownMs <= c.maxCooldownMs && Refines(c, p, h, before) && before <= now
    ensures var row := OrNew(Step(c, p, Fails(now)).row);
      && (OpensOnFailure(c, h, now) ==>
        && row.state == Open && row.openedAt == Some(now)
        && row.nextProbeAt == Some(now + Cooldown(c, h.openings + 1)))
      && (!OpensOnFailure(c, h, now) ==> row == OrNew(p.row).(failureCount := |h.failedAt| + 1))
  {
    KeptTrimmed(p.failures, h.failedAt, before, now, c.failureWindowMs);
    CooldownDoubles(c, h.openings);
    hide Kept, Recent, Pow2;
  }

  // ---------- shut until somebody opens it ----------

  predicate Lifts(e: Event) {
    e.Succeeds? || e.Unisolate?
  }

  /** Without an un-isolate there is no probe: an opened provider is shut whatever the clock says. */
  lemma {:induction false} NoProbeWithoutUnisolate(c: Config, es: seq<Event>)
    requires forall i :: 0 <= i < |es| ==> !es[i].Unisolate?
    ensures HistoryOf(c, es).state != HalfOpen
    ensures HistoryOf(c, es).state == Open ==> HistoryOf(c, es).isolated
    ensures HistoryOf(c, es).openings > 0 ==> HistoryOf(c, es).state == Open
  {
    if es != [] { NoProbeWithoutUnisolate(c, es[..|es| - 1]); }
  }

  /** From an opening on, every check refuses until a success is recorded or an operator un-isolates. */
  lemma {:induction false} OpenedStaysShut(c: Config, es: seq<Event>, from: nat, now: int)
    requires from <= |es| && After(c, es[..from]).isolated
    requires forall i :: from <= i < |es| ==> !Lifts(es[i])
    ensures After(c, es).isolated && !Allowed(After(c, es), now)
    decreases |es|
  {
    if from == |es| {
      assert es[..from] == es;
    } else {
      assert es[..|es| - 1][..from] == es[..from];
      OpenedStaysShut(c, es[..|es| - 1], from, now);
    }
  }

  /** A probe is let through exactly when the provider is not isolated and its cooldown is over. */
  lemma ProbeIsLetThrough(c: Config, es: seq<Event>, now: int)
    requires c.initialCooldownMs <= c.maxCooldownMs && Monotone(es) && (es != [] ==> es[|es| - 1].at <= now)
    ensures var h, p := HistoryOf(c, es), After(c, es);
      h.state == Open ==>
        (OrNew(Checked(p, now).row).state == HalfOpen <==> !h.isolated && h.openedAt + Cooldown(c, h.openings) <= now)
  {
    ServiceRefinesHistory(c, es, now);
    hide Cooldown;
  }

  // ---------- the shipped limits ----------

  /** The failure that opens the breaker of a provider that never succeeded: one before its threshold. */
  function OpeningFailure(provider: string): nat {
    if provider == "kms-decrypt" then 1 else if provider == "twilio-voice" then 7
    else if |provider| >= 7 && provider[..7] == "social-" then 14 else 9
  }

  /** How long its first opening lasts, in seconds. */
  function FirstCooldownSec(provider: string): nat {
    if provider == "kms-decrypt" then 30 else if provider == "twilio-voice" then 180
    else if |provider| >= 7 && provider[..7] == "social-" then 240 else 120
  }

  /** And how long the longest, in seconds. */
  function LongestCooldownSec(provider: string): nat {
    if provider == "kms-decrypt" then 120 else if provider == "twilio-voice" then 600
    else if |provider| >= 7 && provider[..7] == "social-" then 900 else 600
  }

  ghost predicate OnlyFailures(es: seq<Event>) {
    forall i :: 0 <= i < |es| ==> es[i].Fails?
  }

  /** Without a success a run of failures is counted in full, and opens the breaker exactly from that one on. */
  lemma {:induction false} FailuresOpenAt(provider: string, es: seq<Event>)
    requires OnlyFailures(es)
    ensures var p := After(ConfigFor(provider), es);
      && OrNew(p.row).failureCount == |es| && |p.failures| <= |es|
      && (OrNew(p.row).state == Open <==> |es| >= OpeningFailure(provider)) && OrNew(p.row).state != HalfOpen
      && (p.isolated <==> |es| >= OpeningFailure(provider))
      && (|es| < OpeningFailure(provider) ==> OrNew(p.row).openedAt == None)
  {
    hide Failed, OpeningFailure, ConfigFor;
    if es == [] {
      OpensLater(provider);
    } else {
      var rest, now := es[..|es| - 1], es[|es| - 1].at;
      FailuresOpenAt(provider, rest);
      FailureStep(provider, After(ConfigFor(provider), rest), |rest|, now);
      assert After(ConfigFor(provider), es) == Failed(ConfigFor(provider), After(ConfigFor(provider), rest), now);
    }
  }

  lemma OpensLater(provider: string)
    ensures OpeningFailure(provider) >= 1
  {}

  /** The failure after the first `n`. */
  lemma FailureStep(provider: string, p: Provider, n: nat, now: int)
    requires OrNew(p.row).failureCount == n && |p.failures| <= n && OrNew(p.row).state != HalfOpen
    requires OrNew(p.row).state == Open <==> n >= OpeningFailure(provider)
    requires (p.isolated <==> n >= OpeningFailure(provider)) && (n < OpeningFailure(provider) ==> OrNew(p.row).openedAt == None)
    ensures var q := Failed(ConfigFor(provider), p, now);
      && OrNew(q.row).failureCount == n + 1 && |q.failures| <= n + 1 && OrNew(q.row).state != HalfOpen
      && (OrNew(q.row).state == Open <==> n + 1 >= OpeningFailure(provider))
      && (q.isolated <==> n + 1 >= OpeningFailure(provider))
      && (n + 1 < OpeningFailure(provider) ==> OrNew(q.row).openedAt == None)
  {
    hide Recent, NextCooldown;
    RecentIsShorter(p.failures, now, ConfigFor(provider).failureWindowMs);
  }

  /**
   With the shipped limits the window of failures never decides: a failure opens a breaker
   exactly by how many there were since the last success, or as a failed probe.
   */
  lemma WindowNeverDecides(provider: string, h: History, now: int)
    ensures OpensOnFailure(ConfigFor(provider), h, now) <==> |h.failedAt| + 1 >= OpeningFailure(provider) || h.state == HalfOpen
  {
    RecentIsShorter(h.failedAt + [now], now, ConfigFor(provider).failureWindowMs);
    hide Recent;
  }

  lemma {:induction false} RecentIsShorter(times: seq<int>, now: int, windowMs: nat)
    ensures |Recent(times, now, windowMs)| <= |times|
  {
    if times != [] { RecentIsShorter(times[..|times| - 1], now, windowMs); }
  }

  /** The failure that opens it sets the first cooldown. */
  lemma FirstCooldown(provider: string, es: seq<Event>)
    requires OnlyFailures(es) && |es| == OpeningFailure(provider)
    ensures var row, at := OrNew(After(ConfigFor(provider), es).row), es[|es| - 1].at;
      row.openedAt == Some(at) && row.nextProbeAt == Some(at + 1000 * FirstCooldownSec(provider))
  {
    OpensLater(provider);
    var rest, now := es[..|es| - 1], es[|es| - 1].at;
    FailuresOpenAt(provider, rest);
    FirstOpeningStep(provider, After(ConfigFor(provider), rest), |rest|, now);
    hide ConfigFor, Failed;
    assert After(ConfigFor(provider), es) == Failed(ConfigFor(provider), After(ConfigFor(provider), rest), now);
  }

  lemma FirstOpeningStep(provider: string, p: Provider, n: nat, now: int)
    requires OrNew(p.row).failureCount == n && n + 1 == OpeningFailure(provider) && OrNew(p.row).openedAt == None
    ensures var row := OrNew(Failed(ConfigFor(provider), p, now).row);
      row.openedAt == Some(now) && row.nextProbeAt == Some(now + 1000 * FirstCooldownSec(provider))
  {
    hide Recent;
  }

  /** From the fourth opening on without a success a cooldown has its full length. */
  lemma {:induction false} LongestCooldown(provider: string, k: nat)
    requires k >= 4
    ensures Cooldown(ConfigFor(provider), k) ==
            1000 * LongestCooldownSec(provider)
  {
    var c := ConfigFor(provider);
    Pow2From(k);
    assert c.maxCooldownMs <= c.initialCooldownMs * 16;
    Scaled(c.initialCooldownMs, 16, Pow2(k));
  }

  lemma Scaled(a: nat, b: nat, c: nat)
    requires b <= c
    ensures a * b <= a * c
  {}

  lemma {:induction false} Pow2From(k: nat)
    requires k >= 4
    ensures Pow2(k) >= 16
  {
    if k > 4 { Pow2From(k - 1); } else { assert Pow2(1) == 2 && Pow2(2) == 4 && Pow2(3) == 8; }
  }

  ghost predicate OnlyAmbiguities(es: seq<Event>, from: int) {
    forall i :: 0 <= i < |es| ==> es[i].Ambiguity? && from <= es[i].at <= from + 300_000
  }

  function TimesOf(es: seq<Event>): seq<int> {
    seq(|es|, i requires 0 <= i < |es| => es[i].at)
  }

  lemma {:induction false} RecentAll(times: seq<int>, now: int, windowMs: nat)
    requires forall i :: 0 <= i < |times| ==> now - times[i] <= windowMs
    ensures Recent(times, now, windowMs) == times
  {
    if times != [] { RecentAll(times[..|times| - 1], now, windowMs); }
  }

  lemma AmbiguityStep(provider: string, p: Provider, now: int)
    ensures var q := Ambiguous(ConfigFor(provider), p, now);
      && q.ambiguous == Recent(p.ambiguous, now, 300_000) + [now]
      && if |q.ambiguous| >= (if provider == "twilio-voice" then 3 else 5)
         then OrNew(q.row).state == Open && q.isolated
         else OrNew(q.row).state == OrNew(p.row).state && q.isolated == p.isolated
  {
    hide Recent, NextCooldown;
  }

  /** Within five minutes, five ambiguous outcomes open a breaker, and three that of the voice provider. */
  lemma {:induction false} AmbiguitiesOpenAt(provider: string, es: seq<Event>, from: int)
    requires OnlyAmbiguities(es, from)
    ensures var p := After(ConfigFor(provider), es);
      && p.ambiguous == TimesOf(es) && OrNew(p.row).state != HalfOpen
      && (OrNew(p.row).state == Open <==> |es| >= if provider == "twilio-voice" then 3 else 5)
      && (p.isolated <==> OrNew(p.row).state == Open)
  {
    if es != [] {
      var rest, now := es[..|es| - 1], es[|es| - 1].at;
      AmbiguitiesOpenAt(provider, rest, from);
      RecentAll(TimesOf(rest), now, 300_000);
      assert TimesOf(es) == TimesOf(rest) + [now];
      assert After(ConfigFor(provider), es) == Ambiguous(ConfigFor(provider), After(ConfigFor(provider), rest), now);
      AmbiguityStep(provider, After(ConfigFor(provider), rest), now);
      hide Recent, TimesOf, Ambiguous, ConfigFor, After;
    }
  }

  /** An ambiguous outcome more than five minutes old is forgotten. */
  lemma OldAmbiguityIsForgotten(provider: string, p: Provider, now: int)
    requires |p.ambiguous| == 1 && now - p.ambiguous[0] > 300_000
    ensures Step(ConfigFor(provider), p, Ambiguity(now)).ambiguous == [now]
  {
    assert p.ambiguous[..0] == [];
    assert Recent(p.ambiguous, now, 300_000) == [];
  }

  // ---------- the service ----------

  class CircuitBreakerService {
    var inMemFailures: map<string, seq<int>>
    var inMemAmbiguous: map<string, seq<int>>
    var rows: map<string, Row>
    var isolatedProviders: set<string>

    constructor ()
      ensures forall p :: Of(p) == NEW_PROVIDER
    {
      inMemFailures := map[];
      inMemAmbiguous := map[];
      rows := map[];
      isolatedProviders := {};
    }

    /** All that is kept about one provider. */
    function Of(p: string): Provider
      reads this
    {
      Provider(
        if p in inMemFailures then inMemFailures[p] else [],
        if p in inMemAmbiguous then inMemAmbiguous[p] else [],
        if p in rows then Some(rows[p]) else None,
        p in isolatedProviders)
    }

    /** The breaker was opened at `now`, for twice the last cooldown within its limits; `row` is what it found. */
    predicate OpenedNow(provider: string, row: Row, now: int)
      reads this
    {
      var c := ConfigFor(provider);
      var last := if row.openedAt.Some? && row.nextProbeAt.Some? then row.nextProbeAt.value - row.openedAt.value
                  else c.initialCooldownMs;
      && provider in isolatedProviders && provider in rows
      && rows[provider] == row.(state := Open, openedAt := Some(now), nextProbeAt := rows[provider].nextProbeAt)
      && rows[provider].nextProbeAt.Some?
      && var wait := rows[provider].nextProbeAt.value - now;
         && c.initialCooldownMs <= wait <= c.maxCooldownMs
         && (c.initialCooldownMs <= 2 * last <= c.maxCooldownMs ==> wait == 2 * last)
         && (2 * last > c.maxCooldownMs ==> wait == c.maxCooldownMs)
    }

    method AssertClosed(provider: string, now: int) returns (ok: bool)
      modifies this`rows
      ensures ok <==>
        && provider !in isolatedProviders
        && (provider in old(rows) && old(rows)[provider].state == Open ==>
          old(rows)[provider].nextProbeAt.Some? && old(rows)[provider].nextProbeAt.value <= now)
      ensures rows == if ok && provider in old(rows) && old(rows)[provider].state == Open
                      then old(rows)[provider := old(rows)[provider].(state := HalfOpen)] else old(rows)
      ensures ok == Allowed(old(Of(provider)), now)
      ensures Of(provider) == Step(ConfigFor(provider), old(Of(provider)), Check(now))
      ensures forall q :: q != provider ==> Of(q) == old(Of(q))
    {
      if provider in isolatedProviders { return false; }
      if provider !in rows { return true; }
      var st := rows[provider];
      if st.state == Closed { return true; }
      if st.state == Open {
        if st.nextProbeAt.Some? && st.nextProbeAt.value <= now {
          rows := rows[provider := st.(state := HalfOpen)];
          return true;
        }
        return false;
      }
      return true;
    }

    method RecordSuccess(provider: string, now: int)
      modifies this
      ensures Of(provider) == Step(ConfigFor(provider), old(Of(provider)), Succeeds(now))
      ensures Of(provider) == Provider([], [], Some(Row(Closed, 0, 0, None, None)), false)
      ensures forall q :: q != provider ==> Of(q) == old(Of(q))
    {
      inMemFailures := inMemFailures[provider := []];
      inMemAmbiguous := inMemAmbiguous[provider := []];
      rows := rows[provider := NEW_ROW];
      isolatedProviders := isolatedProviders - {provider};
    }

    method RecordFailure(provider: string, now: int)
      modifies this
      ensures Of(provider) == Step(ConfigFor(provider), old(Of(provider)), Fails(now))
      ensures var c, was, row := ConfigFor(provider), old(Of(provider)), OrNew(old(Of(provider)).row);
        var counted := row.(failureCount := row.failureCount + 1);
        && Of(provider).failures == Recent(was.failures, now, c.failureWindowMs) + [now]
        && if row.failureCount + 2 >= c.consecFailureThreshold || |Of(provider).failures| >= c.failureWindowCount
              || row.state == HalfOpen
           then OpenedNow(provider, counted, now)
           else Of(provider).row == Some(counted) && Of(provider).isolated == was.isolated
      ensures forall q :: q != provider ==> Of(q) == old(Of(q))
    {
      hide Recent, NextCooldown, ConfigFor, OpenedNow;
      var cfg := ConfigFor(provider);
      var kept := TrimWindow(if provider in inMemFailures then inMemFailures[provider] else [], now, cfg.failureWindowMs);
      var arr := kept + [now];
      inMemFailures := inMemFailures[provider := arr];
      var st := if provider in rows then rows[provider] else NEW_ROW;
      st := st.(failureCount := st.failureCount + 1);
      rows := rows[provider := st];
      var shouldOpen :=
        st.failureCount + 1 >= cfg.consecFailureThreshold || |arr| >= cfg.failureWindowCount || st.state == HalfOpen;
      if shouldOpen { OpenBreaker(provider, now); }
    }

    method RecordAmbiguous(provider: string, now: int)
      modifies this
      ensures Of(provider) == Step(ConfigFor(provider), old(Of(provider)), Ambiguity(now))
      ensures var c, was, row := ConfigFor(provider), old(Of(provider)), OrNew(old(Of(provider)).row);
        var counted := row.(ambiguousCount := row.ambiguousCount + 1);
        && Of(provider).ambiguous == Recent(was.ambiguous, now, c.ambiguousWindowMs) + [now]
        && if |Of(provider).ambiguous| >= c.ambiguousWindowCount
           then OpenedNow(provider, counted, now)
           else Of(provider).row == Some(counted) && Of(provider).isolated == was.isolated
      ensures forall q :: q != provider ==> Of(q) == old(Of(q))
    {
      hide Recent, NextCooldown, ConfigFor, OpenedNow;
      var cfg := ConfigFor(provider);
      var kept := TrimWindow(if provider in inMemAmbiguous then inMemAmbiguous[provider] else [], now, cfg.ambiguousWindowMs);
      var arr := kept + [now];
      inMemAmbiguous := inMemAmbiguous[provider := arr];
      var st := if provider in rows then rows[provider] else NEW_ROW;
      rows := rows[provider := st.(ambiguousCount := st.ambiguousCount + 1)];
      if |arr| >= cfg.ambiguousWindowCount { OpenBreaker(provider, now); }
    }

    /** The filter over the kept times. */
    method TrimWindow(times: seq<int>, now: int, windowMs: nat) returns (arr: seq<int>)
      ensures arr == Recent(times, now, windowMs)
      ensures forall t :: multiset(arr)[t] == if now - t <= windowMs then multiset(times)[t] else 0
    {
      arr := [];
      for i := 0 to |times|
        invariant arr == Recent(times[..i], now, windowMs)
        invariant forall t :: multiset(arr)[t] == if now - t <= windowMs then multiset(times[..i])[t] else 0
      {
        assert times[..i + 1] == times[..i] + [times[i]];
        RecentAppend(times[..i], times[i], now, windowMs);
        if now - times[i] <= windowMs { arr := arr + [times[i]]; }
      }
      assert times[..|times|] == times;
    }

    method OpenBreaker(provider: string, now: int)
      requires provider in rows
      modifies this`rows, this`isolatedProviders
      ensures Of(provider) == Opened(ConfigFor(provider), old(Of(provider)), now)
      ensures OpenedNow(provider, old(rows)[provider], now)
      ensures forall q :: q != provider ==> Of(q) == old(Of(q))
    {
      var cfg := ConfigFor(provider);
      var st := rows[provider];
      var lastCooldown := cfg.initialCooldownMs as int;
      if st.openedAt.Some? && st.nextProbeAt.Some? { lastCooldown := st.nextProbeAt.value - st.openedAt.value; }
      var nextCooldown := Min(cfg.maxCooldownMs, Max(cfg.initialCooldownMs, lastCooldown * 2));
      rows := rows[provider := st.(state := Open, openedAt := Some(now), nextProbeAt := Some(now + nextCooldown))];
      isolatedProviders := isolatedProviders + {provider};
    }
  }
}
