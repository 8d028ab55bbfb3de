/**
 The transactional outbox and the relays that drain it. Any number of relays, each
 of which may stop anywhere; claims are leases that expire, so two relays can hold
 the same row. Times are milliseconds.
 */
module Outbox {
  import opened Basics

  const BATCH := 50
  const LOCK_MS := 30_000
  const DEFER_MS := 60_000
  const MAX_BACKOFF_MS := 600_000

  /** `original` is the time the producer asked for; `availableAt` is what relays may push back. */
  datatype Row<J> = Row(job: J, gated: bool, original: nat, availableAt: nat, lockedUntil: Option<nat>)

  /** A relay's copy of a row it has leased. */
  datatype Lease<J> = Lease(id: nat, job: J, gated: bool, original: nat, availableAt: nat)

  /** Leased rows still to do; `added` says the first has reached the queue. */
  datatype Batch<J> = Batch(todo: seq<Lease<J>>, added: bool)

  datatype Promise<J> = Promise(job: J, at: nat)

  datatype Handover<J> = Handover(job: J, original: nat, at: nat)

  datatype Box<J(==)> = Box(
    rows: map<nat, Row<J>>,
    nextId: nat,
    relays: map<nat, Batch<J>>,
    handed: seq<Handover<J>>,
    promises: set<Promise<J>>,
    now: nat)
  {
    predicate HasRow(job: J) {
      exists id :: id in rows && rows[id].job == job
    }

    predicate WasHanded(job: J) {
      exists i :: 0 <= i < |handed| && handed[i].job == job
    }

    predicate Ready(id: nat) {
      && id in rows && rows[id].availableAt <= now
      && (rows[id].lockedUntil.Some? ==> rows[id].lockedUntil.value <= now)
    }

    /** Insert, unless a row for the same job is still there. */
    function Enqueue(job: J, gated: bool, delayMs: nat): Box<J> {
      if HasRow(job) then this
      else this.(
        rows := rows[nextId := Row(job, gated, now + delayMs, now + delayMs, None)],
        nextId := nextId + 1,
        promises := promises + {Promise(job, now + delayMs)})
    }

    /** The relay is done with its first lease. */
    function Advance(relay: nat): Box<J>
      requires relay in relays && relays[relay].todo != []
    {
      if |relays[relay].todo| == 1 then Abandon(relay)
      else this.(relays := relays[relay := Batch(relays[relay].todo[1..], false)])
    }

    /** An error that escapes the loop, or a crash: the leases run out by themselves. */
    function Abandon(relay: nat): Box<J> {
      this.(relays := relays - {relay})
    }

    /** Push a row back and free it. A row that is gone makes the update throw twice. */
    function PushBack(relay: nat, wait: nat): Box<J>
      requires relay in relays && relays[relay].todo != []
    {
      var id := relays[relay].todo[0].id;
      if id in rows
      then this.(rows := rows[id := rows[id].(availableAt := now + wait, lockedUntil := None)]).Advance(relay)
      else Abandon(relay)
    }
  }

  function Pow2(n: nat): nat {
    if n == 0 then 1 else 2 * Pow2(n - 1)
  }

  /** The wait after a failed hand-over; it depends on the row's time, not on its attempts. */
  function Backoff(availableAt: nat): nat {
    Min(60_000 * Pow2(Min(8, availableAt % 8)), MAX_BACKOFF_MS)
  }

  datatype Event<J> =
    | Put(job: J, gated: bool, delayMs: nat)
    | Claim(relay: nat, ids: seq<nat>)
    | Defer(relay: nat)
    | Add(relay: nat)
    | Delete(relay: nat)
    | FailHandover(relay: nat)
    | Stop(relay: nat)
    | Pass(ms: nat)

  predicate Holds<J>(b: Box<J>, relay: nat) {
    relay in b.relays && b.relays[relay].todo != []
  }

  predicate Enabled<J>(b: Box<J>, e: Event<J>) {
    match e
    case Put(_, _, _) => true
    case Claim(relay, ids) =>
      && relay !in b.relays && 0 < |ids| <= BATCH
      && (forall i :: 0 <= i < |ids| ==> b.Ready(ids[i]))
      && (forall i, j :: 0 <= i < j < |ids| ==> ids[i] != ids[j])
    case Defer(relay) => Holds(b, relay) && b.relays[relay].todo[0].gated && !b.relays[relay].added
    case Add(relay) => Holds(b, relay) && !b.relays[relay].added
    case Delete(relay) => Holds(b, relay) && b.relays[relay].added
    case FailHandover(relay) => Holds(b, relay)
    case Stop(relay) => relay in b.relays
    case Pass(_) => true
  }

  function LeaseOf<J>(b: Box<J>, id: nat): Lease<J>
    requires id in b.rows
  {
    var row := b.rows[id];
    Lease(id, row.job, row.gated, row.original, row.availableAt)
  }

  function Apply<J>(b: Box<J>, e: Event<J>): Box<J>
    requires Enabled(b, e)
  {
    match e
    case Put(job, gated, delayMs) => b.Enqueue(job, gated, delayMs)
    case Claim(relay, ids) =>
      var batch := seq(|ids|, i requires 0 <= i < |ids| => LeaseOf(b, ids[i]));
      var rows := map id | id in b.rows ::
        if id in ids then b.rows[id].(lockedUntil := Some(b.now + LOCK_MS)) else b.rows[id];
      b.(rows := rows, relays := b.relays[relay := Batch(batch, false)])
    case Defer(relay) => b.PushBack(relay, DEFER_MS)
    case Add(relay) =>
      var lease := b.relays[relay].todo[0];
      b.(handed := b.handed + [Handover(lease.job, lease.original, b.now)],
         relays := b.relays[relay := b.relays[relay].(added := true)])
    case Delete(relay) =>
      var id := b.relays[relay].todo[0].id;
      if id in b.rows then b.(rows := b.rows - {id}).Advance(relay) else b.Abandon(relay)
    case FailHandover(relay) => b.PushBack(relay, Backoff(b.relays[relay].todo[0].availableAt))
    case Stop(relay) => b.Abandon(relay)
    case Pass(ms) => b.(now := b.now + ms)
  }

  // ---------- invariants ----------

  ghost predicate RowsSound<J(!new)>(b: Box<J>) {
    && (forall id :: id in b.rows ==>
      id < b.nextId && b.rows[id].original <= b.rows[id].availableAt
      && Promise(b.rows[id].job, b.rows[id].original) in b.promises)
    && (forall id, jd | id in b.rows && jd in b.rows :: b.rows[id].job == b.rows[jd].job ==> id == jd)
  }

  /** A lease was due when taken, and is a copy of its row for as long as the row exists. */
  ghost predicate LeaseSound<J(!new)>(b: Box<J>, lease: Lease<J>) {
    && lease.id < b.nextId && lease.original <= b.now
    && Promise(lease.job, lease.original) in b.promises
    && (lease.id in b.rows ==> b.rows[lease.id].job == lease.job && b.rows[lease.id].original == lease.original)
  }

  ghost predicate LeasesSound<J(!new)>(b: Box<J>) {
    forall r :: r in b.relays ==>
      && (forall i :: 0 <= i < |b.relays[r].todo| ==> LeaseSound(b, b.relays[r].todo[i]))
      && (b.relays[r].added ==> b.relays[r].todo != [] && Delivered(b, b.relays[r].todo[0].job, b.relays[r].todo[0].original))
  }

  ghost predicate Delivered<J(!new)>(b: Box<J>, job: J, original: nat) {
    exists i :: 0 <= i < |b.handed| && b.handed[i].job == job && b.handed[i].original == original
  }

  ghost predicate Waiting<J(!new)>(b: Box<J>, job: J, original: nat) {
    exists id :: id in b.rows && b.rows[id].job == job && b.rows[id].original == original
  }

  /** Hand-overs are promised and never early. */
  ghost predicate NeverEarly<J(!new)>(b: Box<J>) {
    forall i :: 0 <= i < |b.handed| ==>
      b.handed[i].original <= b.handed[i].at <= b.now && Promise(b.handed[i].job, b.handed[i].original) in b.promises
  }

  /** What was committed is waiting, or has reached the queue. */
  ghost predicate NothingLost<J(!new)>(b: Box<J>) {
    forall p :: p in b.promises ==> Waiting(b, p.job, p.at) || Delivered(b, p.job, p.at)
  }

  ghost predicate Inv<J(!new)>(b: Box<J>) {
    RowsSound(b) && LeasesSound(b) && NeverEarly(b) && NothingLost(b)
  }

  lemma PutKeepsRows<J(!new)>(b: Box<J>, job: J, gated: bool, delayMs: nat)
    requires RowsSound(b)
    ensures RowsSound(b.Enqueue(job, gated, delayMs))
  {
    if !b.HasRow(job) {
      assert forall id :: id in b.rows ==> b.rows[id].job != job;
    }
  }

  lemma ClaimKeepsRows<J(!new)>(b: Box<J>, relay: nat, ids: seq<nat>)
    requires RowsSound(b) && Enabled(b, Claim(relay, ids))
    ensures RowsSound(Apply(b, Claim(relay, ids)))
  {}

  lemma PushBackKeepsRows<J(!new)>(b: Box<J>, relay: nat, wait: nat)
    requires RowsSound(b) && LeasesSound(b) && Holds(b, relay)
    ensures RowsSound(b.PushBack(relay, wait))
  {
    var lease := b.relays[relay].todo[0];
    assert LeaseSound(b, lease);
    if lease.id in b.rows { assert b.rows[lease.id].original <= b.now + wait; }
  }

  lemma DeleteKeepsRows<J(!new)>(b: Box<J>, relay: nat)
    requires RowsSound(b) && Enabled(b, Delete(relay))
    ensures RowsSound(Apply(b, Delete(relay)))
  {}

  lemma StepKeepsRows<J(!new)>(b: Box<J>, e: Event<J>)
    requires RowsSound(b) && LeasesSound(b) && Enabled(b, e)
    ensures RowsSound(Apply(b, e))
  {
    match e
    case Put(job, gated, delayMs) => PutKeepsRows(b, job, gated, delayMs);
    case Claim(relay, ids) => ClaimKeepsRows(b, relay, ids);
    case Defer(relay) => PushBackKeepsRows(b, relay, DEFER_MS);
    case FailHandover(relay) => PushBackKeepsRows(b, relay, Backoff(b.relays[relay].todo[0].availableAt));
    case Delete(relay) => DeleteKeepsRows(b, relay);
    case Add(_) | Stop(_) | Pass(_) =>
  }

  lemma LeaseStays<J(!new)>(b: Box<J>, e: Event<J>, lease: Lease<J>)
    requires LeaseSound(b, lease) && Enabled(b, e)
    ensures LeaseSound(Apply(b, e), lease)
  {}

  lemma DeliveredStays<J(!new)>(b: Box<J>, e: Event<J>, job: J, original: nat)
    requires Delivered(b, job, original) && Enabled(b, e)
    ensures Delivered(Apply(b, e), job, original)
  {
    var i :| 0 <= i < |b.handed| && b.handed[i].job == job && b.handed[i].original == original;
    assert Apply(b, e).handed[i] == b.handed[i];
  }

  /** After any event a relay's leases are a tail of those it had, or a fresh claim. */
  lemma RelayMoves<J(!new)>(b: Box<J>, e: Event<J>, r: nat)
    requires Enabled(b, e) && r in Apply(b, e).relays && !(e.Claim? && e.relay == r)
    ensures r in b.relays
    ensures var t, t' := b.relays[r], Apply(b, e).relays[r];
      || t' == t
      || (|t.todo| > 0 && t'.todo == t.todo[1..] && !t'.added)
      || (e.Add? && e.relay == r && t' == t.(added := true))
  {}

  lemma StepKeepsLeases<J(!new)>(b: Box<J>, e: Event<J>)
    requires RowsSound(b) && LeasesSound(b) && Enabled(b, e)
    ensures LeasesSound(Apply(b, e))
  {
    var b' := Apply(b, e);
    forall r | r in b'.relays
      ensures forall i :: 0 <= i < |b'.relays[r].todo| ==> LeaseSound(b', b'.relays[r].todo[i])
      ensures b'.relays[r].added ==>
        b'.relays[r].todo != [] && Delivered(b', b'.relays[r].todo[0].job, b'.relays[r].todo[0].original)
    {
      if e.Claim? && e.relay == r {
        assert forall i :: 0 <= i < |e.ids| ==> b'.relays[r].todo[i] == LeaseOf(b, e.ids[i]);
      } else {
        RelayMoves(b, e, r);
        forall i | 0 <= i < |b'.relays[r].todo| ensures LeaseSound(b', b'.relays[r].todo[i]) {
          if b'.relays[r].todo == b.relays[r].todo {
            LeaseStays(b, e, b.relays[r].todo[i]);
          } else {
            LeaseStays(b, e, b.relays[r].todo[i + 1]);
          }
        }
        if b'.relays[r].added {
          AddedMeansDelivered(b, e, r);
        }
      }
    }
  }

  lemma AddedMeansDelivered<J(!new)>(b: Box<J>, e: Event<J>, r: nat)
    requires LeasesSound(b) && Enabled(b, e) && r in Apply(b, e).relays && !(e.Claim? && e.relay == r)
    requires Apply(b, e).relays[r].added
    ensures var t := Apply(b, e).relays[r].todo; t != [] && Delivered(Apply(b, e), t[0].job, t[0].original)
  {
    RelayMoves(b, e, r);
    var lease := b.relays[r].todo[0];
    if e.Add? && e.relay == r {
      var i := |b.handed|;
      assert Apply(b, e).handed[i] == Handover(lease.job, lease.original, b.now);
    } else {
      DeliveredStays(b, e, lease.job, lease.original);
    }
  }

  lemma StepNeverEarly<J(!new)>(b: Box<J>, e: Event<J>)
    requires RowsSound(b) && LeasesSound(b) && NeverEarly(b) && Enabled(b, e)
    ensures NeverEarly(Apply(b, e))
  {}

  /** A row leaves the table only by a delete, which follows its hand-over. */
  lemma WaitingStays<J(!new)>(b: Box<J>, e: Event<J>, job: J, original: nat)
    requires RowsSound(b) && LeasesSound(b) && Enabled(b, e) && Waiting(b, job, original)
    ensures Waiting(Apply(b, e), job, original) || Delivered(Apply(b, e), job, original)
  {
    var b' := Apply(b, e);
    var id :| id in b.rows && b.rows[id].job == job && b.rows[id].original == original;
    if id in b'.rows {
      assert b'.rows[id].job == job && b'.rows[id].original == original;
    } else {
      assert e.Delete? && b.relays[e.relay].todo[0].id == id;
      assert LeaseSound(b, b.relays[e.relay].todo[0]);
      DeliveredStays(b, e, job, original);
    }
  }

  lemma StepLosesNothing<J(!new)>(b: Box<J>, e: Event<J>)
    requires Inv(b) && Enabled(b, e)
    ensures NothingLost(Apply(b, e))
  {
    var b' := Apply(b, e);
    forall p | p in b'.promises ensures Waiting(b', p.job, p.at) || Delivered(b', p.job, p.at) {
      if p in b.promises {
        if Waiting(b, p.job, p.at) { WaitingStays(b, e, p.job, p.at); } else { DeliveredStays(b, e, p.job, p.at); }
      } else {
        assert b'.rows[b.nextId].job == p.job && b'.rows[b.nextId].original == p.at;
      }
    }
  }

  lemma StepKeepsInv<J(!new)>(b: Box<J>, e: Event<J>)
    requires Inv(b) && Enabled(b, e)
    ensures Inv(Apply(b, e))
  {
    StepKeepsRows(b, e);
    StepKeepsLeases(b, e);
    StepNeverEarly(b, e);
    StepLosesNothing(b, e);
  }

  function Empty<J>(now: nat): Box<J> {
    Box(map[], 0, map[], [], {}, now)
  }

  // ---------- runs ----------

  predicate Runnable<J>(b: Box<J>, es: seq<Event<J>>)
    decreases |es|
  {
    es != [] ==> Enabled(b, es[0]) && Runnable(Apply(b, es[0]), es[1..])
  }

  function Exec<J>(b: Box<J>, es: seq<Event<J>>): Box<J>
    requires Runnable(b, es)
    decreases |es|
  {
    if es == [] then b else Exec(Apply(b, es[0]), es[1..])
  }

  lemma {:induction false} RunKeepsInv<J(!new)>(b: Box<J>, es: seq<Event<J>>)
    requires Inv(b) && Runnable(b, es)
    ensures Inv(Exec(b, es)) && b.promises <= Exec(b, es).promises
    decreases |es|
  {
    if es != [] {
      StepKeepsInv(b, es[0]);
      RunKeepsInv(Apply(b, es[0]), es[1..]);
    }
  }

  /**
   Whatever relays do, crash or race over, a committed job is still in the table or
   has been handed to the queue, and no hand-over comes before the time first asked for.
   */
  lemma CommittedJobsArrive<J(!new)>(now: nat, es: seq<Event<J>>)
    requires Runnable(Empty<J>(now), es)
    ensures NothingLost(Exec(Empty<J>(now), es)) && NeverEarly(Exec(Empty<J>(now), es))
  {
    RunKeepsInv(Empty<J>(now), es);
  }
}
