/**
 Pause requests of one trusted contact. A request reads the contact, checks it against
 the clock, and then updates it only if its counters are still what it read; any number
 of requests run at once, and the contact may be removed. Times are milliseconds of one
 clock.
 */
module PauseBudget {
  import opened Basics

  const COOLDOWN_MS := 1_800_000

  datatype Contact = Contact(
    canRequestPause: bool,
    pauseBudgetSeconds: int,
    maxSinglePauseSec: int,
    pauseUsedSeconds: int,
    pauseRequestCount: nat,
    pauseCooldownUntil: Option<int>)

  datatype Request =
    | HasRead(seen: Contact, wanted: int)
    | Judged(seen: Contact, grant: int, at: int)

  /** `judgedAt` is the clock when the request was checked, `at` when it took effect. */
  datatype Grant = Grant(seconds: int, judgedAt: int, at: int)

  datatype World = World(contact: Option<Contact>, requests: map<nat, Request>, grants: seq<Grant>, now: int)

  datatype Event =
    | Read(r: nat, wanted: int)
    | Judge(r: nat)
    | Commit(r: nat)
    | Drop(r: nat)
    | Remove
    | Pass(ms: nat)

  predicate Enabled(w: World, e: Event) {
    match e
    case Read(r, wanted) => r !in w.requests && wanted > 0 && w.contact.Some? && w.contact.value.canRequestPause
    case Judge(r) => r in w.requests && w.requests[r].HasRead?
    case Commit(r) => r in w.requests && w.requests[r].Judged?
    case Drop(r) => r in w.requests
    case Remove => true
    case Pass(_) => true
  }

  function Available(c: Contact): int {
    c.pauseBudgetSeconds - c.pauseUsedSeconds
  }

  predicate OnCooldownAt(c: Contact, now: int) {
    c.pauseCooldownUntil.Some? && c.pauseCooldownUntil.value > now
  }

  /** What the checks allow, or None where they refuse. */
  function Allowance(c: Contact, wanted: int, now: int): Option<int> {
    if OnCooldownAt(c, now) then None
    else if Available(c) <= 0 then None
    else Some(Min(Min(wanted, c.maxSinglePauseSec), Available(c)))
  }

  function Apply(w: World, e: Event): World
    requires Enabled(w, e)
  {
    match e
    case Read(r, wanted) => w.(requests := w.requests[r := HasRead(w.contact.value, wanted)])
    case Judge(r) =>
      var grant := Allowance(w.requests[r].seen, w.requests[r].wanted, w.now);
      if grant.None? then w.(requests := w.requests - {r})
      else w.(requests := w.requests[r := Judged(w.requests[r].seen, grant.value, w.now)])
    case Commit(r) =>
      var q := w.requests[r];
      if w.contact.Some? && w.contact.value.pauseUsedSeconds == q.seen.pauseUsedSeconds
         && w.contact.value.pauseRequestCount == q.seen.pauseRequestCount then
        var c := w.contact.value;
        w.(contact := Some(c.(pauseUsedSeconds := c.pauseUsedSeconds + q.grant,
                              pauseRequestCount := c.pauseRequestCount + 1,
                              pauseCooldownUntil := Some(q.at + COOLDOWN_MS))),
           requests := w.requests - {r},
           grants := w.grants + [Grant(q.grant, q.at, w.now)])
      else w.(requests := w.requests - {r})
    case Drop(r) => w.(requests := w.requests - {r})
    case Remove => w.(contact := None)
    case Pass(ms) => w.(now := w.now + ms)
  }

  // ---------- the invariant ----------

  function Total(grants: seq<Grant>): int {
    if grants == [] then 0 else Total(grants[..|grants| - 1]) + grants[|grants| - 1].seconds
  }

  /** What was granted is what is used, the last grant set the cooldown, and grants keep their distance. */
  ghost predicate RowSound(w: World, c: Contact) {
    && c.pauseUsedSeconds == Total(w.grants) <= c.pauseBudgetSeconds
    && c.pauseRequestCount == |w.grants|
    && c.pauseCooldownUntil == (if w.grants == [] then None else Some(w.grants[|w.grants| - 1].judgedAt + COOLDOWN_MS))
  }

  /** A copy with the row's counter is the row, in everything the checks look at. */
  ghost predicate CopySound(w: World, seen: Contact) {
    && seen.pauseRequestCount <= |w.grants|
    && (w.contact.Some? ==>
      seen.pauseBudgetSeconds == w.contact.value.pauseBudgetSeconds && seen.maxSinglePauseSec == w.contact.value.maxSinglePauseSec)
    && (w.contact.Some? && seen.pauseRequestCount == |w.grants| ==>
      seen.pauseUsedSeconds == w.contact.value.pauseUsedSeconds
      && seen.pauseCooldownUntil == w.contact.value.pauseCooldownUntil)
  }

  ghost predicate RequestSound(w: World, q: Request) {
    && CopySound(w, q.seen)
    && (q.Judged? ==>
      && q.at <= w.now
      && q.grant <= Available(q.seen)
      && (q.seen.pauseCooldownUntil.Some? ==> q.seen.pauseCooldownUntil.value <= q.at))
  }

  ghost predicate Spaced(grants: seq<Grant>) {
    forall i, j :: 0 <= i < j < |grants| ==> grants[i].judgedAt + COOLDOWN_MS * (j - i) <= grants[j].judgedAt
  }

  ghost predicate Sound(w: World) {
    && (w.contact.Some? ==> RowSound(w, w.contact.value))
    && (forall r :: r in w.requests ==> RequestSound(w, w.requests[r]))
    && Spaced(w.grants)
    && (forall i :: 0 <= i < |w.grants| ==> w.grants[i].judgedAt <= w.grants[i].at <= w.now)
    && (forall i, j :: 0 <= i < j < |w.grants| ==> w.grants[i].at <= w.grants[j].at)
  }

  lemma SpacedAppend(grants: seq<Grant>, g: Grant)
    requires Spaced(grants) && (grants != [] ==> grants[|grants| - 1].judgedAt + COOLDOWN_MS <= g.judgedAt)
    ensures Spaced(grants + [g])
  {
    var all := grants + [g];
    var n := |grants|;
    forall i, j | 0 <= i < j < |all| ensures all[i].judgedAt + COOLDOWN_MS * (j - i) <= all[j].judgedAt {
      if j == n && i < n - 1 {
        assert grants[i].judgedAt + COOLDOWN_MS * (n - 1 - i) <= grants[n - 1].judgedAt;
        assert COOLDOWN_MS * (n - i) == COOLDOWN_MS * (n - 1 - i) + COOLDOWN_MS;
      }
    }
  }

  /** Does this commit take effect? */
  predicate Takes(w: World, r: nat)
    requires Enabled(w, Commit(r))
  {
    && w.contact.Some? && w.contact.value.pauseUsedSeconds == w.requests[r].seen.pauseUsedSeconds
    && w.contact.value.pauseRequestCount == w.requests[r].seen.pauseRequestCount
  }

  lemma CommitKeepsSound(w: World, r: nat)
    requires Sound(w) && Enabled(w, Commit(r)) && Takes(w, r)
    ensures Sound(Apply(w, Commit(r)))
  {
    var w', q := Apply(w, Commit(r)), w.requests[r];
    var g := Grant(q.grant, q.at, w.now);
    assert RequestSound(w, q);
    SpacedAppend(w.grants, g);
    assert w'.grants[..|w.grants|] == w.grants;
    assert RowSound(w', w'.contact.value);
    forall s | s in w'.requests ensures RequestSound(w', w'.requests[s]) {
      assert RequestSound(w, w.requests[s]);
    }
    hide Spaced, Total;
  }

  lemma StepKeepsSound(w: World, e: Event)
    requires Sound(w) && Enabled(w, e)
    ensures Sound(Apply(w, e)) && w.grants <= Apply(w, e).grants
  {
    if e.Commit? && Takes(w, e.r) {
      CommitKeepsSound(w, e.r);
    } else {
      hide Spaced, Total;
      var w' := Apply(w, e);
      assert w'.grants == w.grants;
    }
  }

  // ---------- runs ----------

  predicate Runnable(w: World, es: seq<Event>)
    decreases |es|
  {
    es != [] ==> Enabled(w, es[0]) && Runnable(Apply(w, es[0]), es[1..])
  }

  function Exec(w: World, es: seq<Event>): World
    requires Runnable(w, es)
    decreases |es|
  {
    if es == [] then w else Exec(Apply(w, es[0]), es[1..])
  }

  lemma {:induction false} RunKeepsSound(w: World, es: seq<Event>)
    requires Sound(w) && Runnable(w, es)
    ensures Sound(Exec(w, es))
    decreases |es|
  {
    hide Sound, Enabled, Apply;
    if es != [] {
      StepKeepsSound(w, es[0]);
      RunKeepsSound(Apply(w, es[0]), es[1..]);
    }
  }

  /** A contact as it is created: its budget is never negative. */
  predicate IsNew(w: World) {
    && w.contact.Some? && w.contact.value.pauseBudgetSeconds >= 0
    && w.contact.value.pauseUsedSeconds == 0 && w.contact.value.pauseRequestCount == 0
    && w.contact.value.pauseCooldownUntil == None
    && w.requests == map[] && w.grants == []
  }

  /** Whatever requests interleave, what was granted is what the row says is used, and stays within the budget. */
  lemma GrantsWithinBudget(w: World, es: seq<Event>)
    requires IsNew(w) && Runnable(w, es) && Exec(w, es).contact.Some?
    ensures var c := Exec(w, es).contact.value;
      Total(Exec(w, es).grants) == c.pauseUsedSeconds <= c.pauseBudgetSeconds && |Exec(w, es).grants| == c.pauseRequestCount
  {
    RunKeepsSound(w, es);
  }

  /** How many grants were judged in the window that starts at `from` and lasts `ms`. */
  function InWindow(grants: seq<Grant>, from: int, ms: nat): nat {
    if grants == [] then 0
    else
      var g := grants[|grants| - 1];
      InWindow(grants[..|grants| - 1], from, ms) + if from <= g.judgedAt <= from + ms then 1 else 0
  }

  /** Spaced grants in a window: the first of them leaves room for so many more. */
  lemma {:induction false} WindowCount(grants: seq<Grant>, from: int, ms: nat)
    requires Spaced(grants)
    ensures InWindow(grants, from, ms) > 0 ==>
      exists i :: 0 <= i < |grants| && from <= grants[i].judgedAt
        && grants[i].judgedAt + COOLDOWN_MS * (InWindow(grants, from, ms) - 1) <= from + ms
        && grants[i].judgedAt + COOLDOWN_MS * (InWindow(grants, from, ms) - 1) <= grants[|grants| - 1].judgedAt
  {
    if grants != [] {
      var n := |grants| - 1;
      var rest, k := grants[..n], InWindow(grants[..n], from, ms);
      assert Spaced(rest);
      WindowCount(rest, from, ms);
      if from <= grants[n].judgedAt <= from + ms {
        if k == 0 {
          assert grants[n].judgedAt + COOLDOWN_MS * 0 <= from + ms;
        } else {
          var i :| 0 <= i < n && from <= rest[i].judgedAt
            && rest[i].judgedAt + COOLDOWN_MS * (k - 1) <= from + ms
            && rest[i].judgedAt + COOLDOWN_MS * (k - 1) <= rest[n - 1].judgedAt;
          assert grants[n - 1].judgedAt + COOLDOWN_MS * 1 <= grants[n].judgedAt;
          assert COOLDOWN_MS * k == COOLDOWN_MS * (k - 1) + COOLDOWN_MS;
          assert grants[i].judgedAt + COOLDOWN_MS * k <= from + ms;
        }
      } else if k > 0 {
        var i :| 0 <= i < n && from <= rest[i].judgedAt
          && rest[i].judgedAt + COOLDOWN_MS * (k - 1) <= from + ms
          && rest[i].judgedAt + COOLDOWN_MS * (k - 1) <= rest[n - 1].judgedAt;
        assert grants[n - 1].judgedAt + COOLDOWN_MS * 1 <= grants[n].judgedAt;
        assert grants[i] == rest[i];
      }
    }
  }

  /** Grants are half an hour apart on the request clock, so a window holds at most one more than fits. */
  lemma GrantsAreSpaced(w: World, es: seq<Event>, from: int, ms: nat)
    requires IsNew(w) && Runnable(w, es)
    ensures Spaced(Exec(w, es).grants)
    ensures InWindow(Exec(w, es).grants, from, ms) <= ms / COOLDOWN_MS + 1
  {
    RunKeepsSound(w, es);
    WindowCount(Exec(w, es).grants, from, ms);
  }

  // ---------- when grants take effect ----------

  /**
   Grants take effect in order, and as far apart as the checks were but for the delay of
   the earlier commit: a grant that commits as it is checked is followed by none for a
   full half hour.
   */
  lemma EffectsAreSpaced(w: World, es: seq<Event>, i: nat, j: nat)
    requires IsNew(w) && Runnable(w, es) && i < j < |Exec(w, es).grants|
    ensures var g, h := Exec(w, es).grants[i], Exec(w, es).grants[j];
      && h.at - g.at >= Max(0, COOLDOWN_MS * (j - i) - (g.at - g.judgedAt))
      && (g.at == g.judgedAt ==> h.at - g.at >= COOLDOWN_MS * (j - i))
  {
    RunKeepsSound(w, es);
  }

  const FRESH := World(Some(Contact(true, 86_400, 43_200, 0, 0, None)), map[], [], 0)

  /** The first commit is late by `delay`; the second request is checked as soon as the cooldown allows. */
  function LateEvents(delay: nat): (es: seq<Event>)
    ensures |es| == 8
  {
    [Read(0, 10), Judge(0), Pass(delay), Commit(0), Read(1, 10), Pass(Max(0, COOLDOWN_MS - delay)), Judge(1), Commit(1)]
  }

  function LateState(delay: nat, i: nat): World {
    var c0 := FRESH.contact.value;
    var end := Max(delay, COOLDOWN_MS);
    var c1 := c0.(pauseUsedSeconds := 10, pauseRequestCount := 1, pauseCooldownUntil := Some(COOLDOWN_MS));
    var c2 := c1.(pauseUsedSeconds := 20, pauseRequestCount := 2, pauseCooldownUntil := Some(end + COOLDOWN_MS));
    var g0, g1 := Grant(10, 0, delay), Grant(10, end, end);
    if i == 0 then FRESH
    else if i == 1 then FRESH.(requests := map[0 := HasRead(c0, 10)])
    else if i == 2 then FRESH.(requests := map[0 := Judged(c0, 10, 0)])
    else if i == 3 then FRESH.(requests := map[0 := Judged(c0, 10, 0)], now := delay)
    else if i == 4 then World(Some(c1), map[], [g0], delay)
    else if i == 5 then World(Some(c1), map[1 := HasRead(c1, 10)], [g0], delay)
    else if i == 6 then World(Some(c1), map[1 := HasRead(c1, 10)], [g0], end)
    else if i == 7 then World(Some(c1), map[1 := Judged(c1, 10, end)], [g0], end)
    else World(Some(c2), map[], [g0, g1], end)
  }

  lemma LateStep(delay: nat, i: nat)
    requires i < 8
    ensures Enabled(LateState(delay, i), LateEvents(delay)[i])
    ensures Apply(LateState(delay, i), LateEvents(delay)[i]) == LateState(delay, i + 1)
  {}

  lemma {:induction false} LateFrom(delay: nat, i: nat)
    requires i <= 8
    ensures Runnable(LateState(delay, i), LateEvents(delay)[i..])
    ensures Exec(LateState(delay, i), LateEvents(delay)[i..]) == LateState(delay, 8)
    decreases 8 - i
  {
    hide Enabled, Apply, LateState, LateEvents;
    if i < 8 {
      LateStep(delay, i);
      LateFrom(delay, i + 1);
      assert LateEvents(delay)[i..][1..] == LateEvents(delay)[i + 1..];
    }
  }

  /** Every delay brings the next grant that much nearer, until both take effect at the same moment. */
  lemma EveryDelayIsReached(delay: nat)
    ensures IsNew(FRESH) && Runnable(FRESH, LateEvents(delay))
    ensures var gs := Exec(FRESH, LateEvents(delay)).grants;
      && |gs| == 2 && gs[0].at - gs[0].judgedAt == delay
      && gs[1].at - gs[0].at == Max(0, COOLDOWN_MS - delay)
  {
    LateFrom(delay, 0);
    assert LateEvents(delay)[0..] == LateEvents(delay);
  }

  // ---------- the service ----------

  datatype Refusal = BadRequest | CannotPause | OnCooldown | Exhausted | Conflict

  datatype Granted = Granted(grantedSeconds: int, remainingBudget: int)

  class ContactsService {
    var w: World

    ghost predicate Valid()
      reads this
    {
      Sound(w)
    }

    constructor (contact: Contact, now: int)
      requires IsNew(World(Some(contact), map[], [], now))
      ensures Valid() && w == World(Some(contact), map[], [], now)
    {
      w := World(Some(contact), map[], [], now);
    }

    /** Time passes, other requests go on, the contact may go. */
    method Await(r: nat)
      requires Valid()
      modifies this
      ensures Valid() && old(w).grants <= w.grants
      ensures (r in w.requests <==> r in old(w).requests) && (r in w.requests ==> w.requests[r] == old(w).requests[r])
    {
      hide Sound;
      var left: nat := *;
      while left > 0
        invariant Valid() && old(w).grants <= w.grants
        invariant (r in w.requests <==> r in old(w).requests) && (r in w.requests ==> w.requests[r] == old(w).requests[r])
      {
        var e: Event := *;
        if Enabled(w, e) && !By(e, r) {
          StepKeepsSound(w, e);
          w := Apply(w, e);
        }
        left := left - 1;
      }
    }

    /** The compare-and-swap on the counters the request has read. */
    method UpdateContact(r: nat) returns (count: nat)
      requires Valid() && r in w.requests && w.requests[r].Judged?
      modifies this
      ensures Valid() && r !in w.requests && old(w).grants <= w.grants
      ensures count <= 1
      ensures count == 1 <==>
        && old(w).contact.Some?
        && old(w).contact.value.pauseUsedSeconds == old(w).requests[r].seen.pauseUsedSeconds
        && old(w).contact.value.pauseRequestCount == old(w).requests[r].seen.pauseRequestCount
      ensures count == 1 ==>
        && w.contact == Some(old(w).contact.value.(
             pauseUsedSeconds := old(w).contact.value.pauseUsedSeconds + old(w).requests[r].grant,
             pauseRequestCount := old(w).contact.value.pauseRequestCount + 1,
             pauseCooldownUntil := Some(old(w).requests[r].at + 1_800_000)))
        && w.grants == old(w).grants + [Grant(old(w).requests[r].grant, old(w).requests[r].at, w.now)]
      ensures count == 0 ==> w.contact == old(w).contact && w.grants == old(w).grants
    {
      StepKeepsSound(w, Commit(r));
      hide Sound;
      var q := w.requests[r];
      if w.contact.Some? && w.contact.value.pauseUsedSeconds == q.seen.pauseUsedSeconds
         && w.contact.value.pauseRequestCount == q.seen.pauseRequestCount {
        var c := w.contact.value;
        c := c.(pauseUsedSeconds := c.pauseUsedSeconds + q.grant, pauseRequestCount := c.pauseRequestCount + 1,
                pauseCooldownUntil := Some(q.at + COOLDOWN_MS));
        w := w.(contact := Some(c), requests := w.requests - {r}, grants := w.grants + [Grant(q.grant, q.at, w.now)]);
        return 1;
      }
      w := w.(requests := w.requests - {r});
      return 0;
    }

    method ReadContact(r: nat, wanted: int)
      requires Valid() && Enabled(w, Read(r, wanted))
      modifies this
      ensures Valid() && w == old(w).(requests := old(w).requests[r := HasRead(old(w).contact.value, wanted)])
    {
      StepKeepsSound(w, Read(r, wanted));
      hide Sound;
      w := w.(requests := w.requests[r := HasRead(w.contact.value, wanted)]);
    }

    /** The checks against the clock; a refused request is over. */
    method JudgeRequest(r: nat) returns (res: Result<int, Refusal>)
      requires Valid() && r in w.requests && w.requests[r].HasRead?
      modifies this
      ensures Valid() && w.grants == old(w).grants
      ensures var q, now := old(w).requests[r], old(w).now;
        var rest := q.seen.pauseBudgetSeconds - q.seen.pauseUsedSeconds;
        && (res == Failure(OnCooldown) <==> q.seen.pauseCooldownUntil.Some? && now < q.seen.pauseCooldownUntil.value)
        && (res == Failure(Exhausted) <==> !(q.seen.pauseCooldownUntil.Some? && now < q.seen.pauseCooldownUntil.value) && rest <= 0)
        && (res.Failure? ==> res.error in {OnCooldown, Exhausted} && w == old(w).(requests := old(w).requests - {r}))
        && (res.Success? ==>
          && IsSmallest(res.value, q.wanted, q.seen.maxSinglePauseSec, rest)
          && w == old(w).(requests := old(w).requests[r := Judged(q.seen, res.value, now)]))
    {
      StepKeepsSound(w, Judge(r));
      hide Sound;
      var contact := w.requests[r].seen;
      if contact.pauseCooldownUntil.Some? && contact.pauseCooldownUntil.value > w.now {
        w := w.(requests := w.requests - {r});
        return Failure(OnCooldown);
      }
      var available := contact.pauseBudgetSeconds - contact.pauseUsedSeconds;
      if available <= 0 {
        w := w.(requests := w.requests - {r});
        return Failure(Exhausted);
      }
      var capped := Min(w.requests[r].wanted, contact.maxSinglePauseSec);
      var grant := Min(capped, available);
      w := w.(requests := w.requests[r := Judged(contact, grant, w.now)]);
      return Success(grant);
    }

    /**
     A granted request leaves exactly what it reports of the budget, never less than
     nothing; a refused one names a cause that is there.
     */
    method RequestPause(r: nat, requestedSeconds: int) returns (res: Result<Granted, Refusal>)
      requires Valid() && r !in w.requests
      modifies this
      ensures Valid() && r !in w.requests && old(w).grants <= w.grants
      ensures requestedSeconds <= 0 <==> res == Failure(BadRequest)
      ensures requestedSeconds > 0 && (old(w).contact.None? || !old(w).contact.value.canRequestPause) <==> res == Failure(CannotPause)
      ensures res.Failure? && res.error in {BadRequest, CannotPause} ==> w == old(w)
      ensures res == Failure(OnCooldown) ==> old(w).contact.Some? && OnCooldownAt(old(w).contact.value, w.now)
      ensures res == Failure(Exhausted) ==> old(w).contact.Some? && Available(old(w).contact.value) <= 0
      ensures res == Failure(Conflict) ==> old(w).contact.Some?
      ensures res == Failure(Conflict) ==>
        || w.contact.None?
        || w.contact.value.pauseUsedSeconds != old(w).contact.value.pauseUsedSeconds
        || w.contact.value.pauseRequestCount != old(w).contact.value.pauseRequestCount
      ensures res.Success? ==>
        && w.contact.Some? && Available(w.contact.value) == res.value.remainingBudget >= 0
        && res.value.grantedSeconds <= requestedSeconds
        && res.value.grantedSeconds <= w.contact.value.maxSinglePauseSec
        && w.grants != [] && w.grants[|w.grants| - 1].seconds == res.value.grantedSeconds
        && old(w).contact.Some?
        && var seen := old(w).contact.value;
           var rest := seen.pauseBudgetSeconds - seen.pauseUsedSeconds;
           && IsSmallest(res.value.grantedSeconds, requestedSeconds, seen.maxSinglePauseSec, rest)
           && res.value.remainingBudget == rest - res.value.grantedSeconds
           && (seen.pauseCooldownUntil.Some? ==> seen.pauseCooldownUntil.value <= w.grants[|w.grants| - 1].judgedAt)
           && w.contact.value.pauseCooldownUntil == Some(w.grants[|w.grants| - 1].judgedAt + 1_800_000)
    {
      hide Sound;
      if requestedSeconds <= 0 { return Failure(BadRequest); }
      if w.contact.None? || !w.contact.value.canRequestPause { return Failure(CannotPause); }
      var contact := w.contact.value;
      ReadContact(r, requestedSeconds);
      Await(r);
      var judged := JudgeRequest(r);
      if judged.Failure? { return Failure(judged.error); }
      Await(r);
      CommitReports(w, r);
      var count := UpdateContact(r);
      if count != 1 { return Failure(Conflict); }
      return Success(Granted(judged.value, contact.pauseBudgetSeconds - contact.pauseUsedSeconds - judged.value));
    }
  }

  predicate IsSmallest(n: int, a: int, b: int, c: int) {
    n <= a && n <= b && n <= c && (n == a || n == b || n == c)
  }

  /** What a commit that takes effect finds: the row it read, with room for its grant. */
  lemma CommitReports(w: World, r: nat)
    requires Sound(w) && Enabled(w, Commit(r))
    ensures Takes(w, r) ==>
      && Available(w.contact.value) == Available(w.requests[r].seen) >= w.requests[r].grant
      && w.contact.value.maxSinglePauseSec == w.requests[r].seen.maxSinglePauseSec
  {
    assert RequestSound(w, w.requests[r]);
  }

  predicate By(e: Event, r: nat) {
    (e.Read? || e.Judge? || e.Commit? || e.Drop?) && e.r == r
  }
}
