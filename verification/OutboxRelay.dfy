/** The producer's insert and the relay loop, over the shared outbox table. */
module OutboxRelay {
  import opened Basics
  import opened Outbox

  predicate ByRelay<J>(e: Event<J>, relay: nat) {
    (e.Claim? || e.Defer? || e.Add? || e.Delete? || e.FailHandover? || e.Stop?) && e.relay == relay
  }

  ghost predicate Linked<J(!new)>(states: seq<Box<J>>, trace: seq<Event<J>>) {
    && |states| == |trace| + 1
    && forall i :: 0 <= i < |trace| ==> Enabled(states[i], trace[i]) && states[i + 1] == Apply(states[i], trace[i])
  }

  lemma {:induction false} LinkedIsRun<J(!new)>(states: seq<Box<J>>, trace: seq<Event<J>>)
    requires Linked(states, trace)
    ensures Runnable(states[0], trace) && Exec(states[0], trace) == states[|trace|]
    decreases |trace|
  {
    if trace != [] {
      assert states[0 + 1] == Apply(states[0], trace[0]);
      forall i | 0 <= i < |trace[1..]|
        ensures Enabled(states[1..][i], trace[1..][i]) && states[1..][i + 1] == Apply(states[1..][i], trace[1..][i])
      {
        assert states[1..][i] == states[i + 1] && trace[1..][i] == trace[i + 1];
      }
      LinkedIsRun(states[1..], trace[1..]);
    }
  }

  /** The wait after a failed hand-over, by the low digits of the row's time: one to eight minutes, then ten. */
  lemma BackoffByDigits(availableAt: nat)
    ensures Backoff(availableAt) ==
            if availableAt % 8 == 0 then 60_000 else if availableAt % 8 == 1 then 120_000
            else if availableAt % 8 == 2 then 240_000 else if availableAt % 8 == 3 then 480_000 else 600_000
  {
    var n := availableAt % 8;
    if n <= 3 {
      assert Pow2(1) == 2 && Pow2(2) == 4 && Pow2(3) == 8;
    } else {
      Pow2Grows(4, n);
      assert Pow2(4) == 16;
    }
  }

  lemma {:induction false} Pow2Grows(m: nat, n: nat)
    requires m <= n
    ensures Pow2(m) <= Pow2(n)
    decreases n
  {
    if m < n { Pow2Grows(m, n - 1); }
  }

  /** Due, and not leased to anybody. */
  ghost predicate Free<J(!new)>(b: Box<J>, id: nat) {
    && id in b.rows && b.rows[id].availableAt <= b.now
    && (b.rows[id].lockedUntil == None || b.rows[id].lockedUntil.value <= b.now)
  }

  /** What the claiming statement may return: up to fifty different free rows. */
  ghost predicate Claimable<J(!new)>(b: Box<J>, ids: seq<nat>) {
    && 1 <= |ids| <= 50
    && (forall i :: 0 <= i < |ids| ==> Free(b, ids[i]))
    && (forall i, j :: 0 <= i < j < |ids| ==> ids[i] != ids[j])
  }

  /** The machine lets an idle relay claim exactly that. */
  lemma ClaimIff<J(!new)>(b: Box<J>, relay: nat, ids: seq<nat>)
    ensures Enabled(b, Claim(relay, ids)) <==> relay !in b.relays && Claimable(b, ids)
  {
    forall i | 0 <= i < |ids| ensures b.Ready(ids[i]) <==> Free(b, ids[i]) {}
  }

  /** `lease` is a copy of the row `id` as it was. */
  ghost predicate CopyOf<J(!new)>(b: Box<J>, lease: Lease<J>, id: nat) {
    && id in b.rows && lease.id == id && lease.job == b.rows[id].job && lease.gated == b.rows[id].gated
    && lease.original == b.rows[id].original && lease.availableAt == b.rows[id].availableAt
  }

  /** The row is free again, due after `wait`; every other row is as it was. */
  ghost predicate PushedBack<J(!new)>(rows: map<nat, Row<J>>, rows': map<nat, Row<J>>, id: nat, due: nat) {
    rows' == if id in rows then rows[id := rows[id].(availableAt := due, lockedUntil := None)] else rows
  }

  class OutboxTable<J(==,!new,0)> {
    var box: Box<J>
    ghost var states: seq<Box<J>>
    ghost var trace: seq<Event<J>>

    ghost predicate Valid()
      reads this
    {
      Linked(states, trace) && states[|trace|] == box
    }

    ghost function Origin(): Box<J>
      reads this
    {
      if states == [] then box else states[0]
    }

    constructor (now: nat)
      ensures Valid() && box == Empty<J>(now) && Origin() == box
    {
      this.box := Empty<J>(now);
      this.states := [Empty<J>(now)];
      this.trace := [];
    }

    /** The invariants of the outbox hold of the table, whatever the methods did so far. */
    lemma TableIsSound()
      requires Valid() && Origin() == Empty<J>(Origin().now)
      ensures Inv(box)
    {
      LinkedIsRun(states, trace);
      RunKeepsInv(states[0], trace);
    }

    ghost method Record(before: Box<J>, e: Event<J>)
      requires Linked(states, trace) && states[|trace|] == before
      requires Enabled(before, e) && box == Apply(before, e)
      modifies this`trace, this`states
      ensures Valid() && Origin() == old(Origin()) && trace == old(trace) + [e]
    {
      trace := trace + [e];
      states := states + [box];
    }

    /** `OutboxService.enqueue`: an insert that ignores a duplicate job. */
    method Enqueue(job: J, gated: bool, delayMs: nat)
      requires Valid()
      modifies this
      ensures Valid() && Origin() == old(Origin()) && trace == old(trace) + [Put(job, gated, delayMs)]
      ensures box.HasRow(job)
      ensures old(box).HasRow(job) ==> box == old(box)
      ensures !old(box).HasRow(job) ==>
        && var at := old(box).now + delayMs;
           box.rows == old(box).rows[old(box).nextId := Row(job, gated, at, at, None)]
           && box.promises == old(box).promises + {Promise(job, at)} && box.handed == old(box).handed
    {
      ghost var before := box;
      var duplicate := exists id :: id in box.rows && box.rows[id].job == job;
      if !duplicate {
        var availableAt := box.now + delayMs;
        var row := Row(job, gated, availableAt, availableAt, None);
        box := box.(rows := box.rows[box.nextId := row], nextId := box.nextId + 1,
                    promises := box.promises + {Promise(job, availableAt)});
        assert box.rows[before.nextId].job == job;
      }
      Record(before, Put(job, gated, delayMs));
    }

    /** Any number of steps of producers and other relays; time passes. */
    method Await(relay: nat)
      requires Valid()
      modifies this
      ensures Valid() && Origin() == old(Origin())
      ensures relay in old(box).relays ==> relay in box.relays && box.relays[relay] == old(box).relays[relay]
      ensures relay !in old(box).relays ==> relay !in box.relays
      ensures old(box).handed <= box.handed
    {
      var left: nat := *;
      while left > 0
        invariant Valid() && Origin() == old(Origin())
        invariant relay in old(box).relays ==> relay in box.relays && box.relays[relay] == old(box).relays[relay]
        invariant relay !in old(box).relays ==> relay !in box.relays
        invariant old(box).handed <= box.handed
      {
        var e: Event<J> := *;
        if Enabled(box, e) && !ByRelay(e, relay) {
          ghost var before := box;
          OthersLeaveBatch(box, e, relay);
          box := Apply(box, e);
          Record(before, e);
        }
        left := left - 1;
      }
    }

    /** `UPDATE .. FROM (SELECT .. FOR UPDATE SKIP LOCKED LIMIT n)`: one statement leases the rows it returns. */
    method ClaimBatch(relay: nat, ids: seq<nat>)
      requires Valid() && relay !in box.relays && Claimable(box, ids)
      modifies this
      ensures Valid() && Origin() == old(Origin()) && trace == old(trace) + [Claim(relay, ids)]
      ensures Holds(box, relay) && |box.relays[relay].todo| == |ids| && !box.relays[relay].added
      ensures forall i :: 0 <= i < |ids| ==> CopyOf(old(box), box.relays[relay].todo[i], ids[i])
      ensures box.rows.Keys == old(box).rows.Keys
      ensures forall id :: id in box.rows ==>
        box.rows[id] ==
        if id in ids then old(box).rows[id].(lockedUntil := Some(old(box).now + 30_000)) else old(box).rows[id]
      ensures box.handed == old(box).handed
    {
      assert forall i :: 0 <= i < |ids| ==> Free(box, ids[i]) && box.Ready(ids[i]);
      ghost var before := box;
      var batch: seq<Lease<J>> := [];
      var rows := box.rows;
      for i := 0 to |ids|
        invariant |batch| == i
        invariant forall k :: 0 <= k < i ==> batch[k] == LeaseOf(before, ids[k])
        invariant rows.Keys == before.rows.Keys
        invariant forall id :: id in rows ==>
          rows[id] == if id in ids[..i] then before.rows[id].(lockedUntil := Some(before.now + LOCK_MS)) else before.rows[id]
      {
        var id := ids[i];
        assert before.Ready(id) && ids[..i + 1] == ids[..i] + [id];
        batch := batch + [LeaseOf(box, id)];
        rows := rows[id := box.rows[id].(lockedUntil := Some(box.now + LOCK_MS))];
      }
      box := box.(rows := rows, relays := box.relays[relay := Batch(batch, false)]);
      assert ids[..|ids|] == ids;
      assert rows == Apply(before, Claim(relay, ids)).rows;
      assert batch == Apply(before, Claim(relay, ids)).relays[relay].todo;
      Record(before, Claim(relay, ids));
    }

    /**
     The body of the relay's loop for the first row it still holds. A gated row is put off
     by a minute while releases are not allowed; a row the queue does not take by its
     backoff. Nothing else keeps it from the queue, and it goes when that has taken it.
     The batch ends early only where the row was gone.
     */
    method HandOver(relay: nat, releaseAllowed: bool, queueAnswers: bool, deleteSucceeds: bool)
      requires Valid() && Holds(box, relay) && !box.relays[relay].added
      modifies this
      ensures Valid() && Origin() == old(Origin())
      ensures var todo, id := old(box).relays[relay].todo, old(box).relays[relay].todo[0].id;
        && (relay in box.relays ==> box.relays[relay] == Batch(todo[1..], false) && |todo| > 1)
        && (relay !in box.relays ==> |todo| == 1 || id !in box.rows)
      ensures var lease := old(box).relays[relay].todo[0];
        if lease.gated && !releaseAllowed then
          box.handed == old(box).handed && PushedBack(old(box).rows, box.rows, lease.id, old(box).now + 60_000)
        else if !queueAnswers then
          box.handed == old(box).handed && PushedBack(old(box).rows, box.rows, lease.id, old(box).now + Backoff(lease.availableAt))
        else
          && Handover(lease.job, lease.original, old(box).now) in box.handed
          && (deleteSucceeds ==> lease.id !in box.rows)
          && (!deleteSucceeds && lease.id in box.rows ==>
            box.rows[lease.id].lockedUntil == None && box.rows[lease.id].availableAt == box.now + Backoff(lease.availableAt))
    {
      hide Apply, Enabled, Backoff;
      var lease := box.relays[relay].todo[0];
      if lease.gated && !releaseAllowed {
        Step(relay, Defer(relay));
        return;
      }
      if !queueAnswers {
        Step(relay, FailHandover(relay));
        return;
      }
      AddToQueue(relay);
      ghost var i := |box.handed| - 1;
      assert box.handed[i] == Handover(lease.job, lease.original, old(box).now);
      Await(relay);
      assert box.handed[i] == Handover(lease.job, lease.original, old(box).now);
      if deleteSucceeds {
        Step(relay, Delete(relay));
      } else {
        Step(relay, FailHandover(relay));
      }
    }

    method AddToQueue(relay: nat)
      requires Valid() && Holds(box, relay) && !box.relays[relay].added
      modifies this
      ensures Valid() && Origin() == old(Origin()) && trace == old(trace) + [Add(relay)]
      ensures relay in box.relays && box.relays[relay] == old(box).relays[relay].(added := true)
      ensures box.rows == old(box).rows
      ensures var lease := old(box).relays[relay].todo[0];
        box.handed == old(box).handed + [Handover(lease.job, lease.original, old(box).now)]
    {
      ghost var before := box;
      var lease := box.relays[relay].todo[0];
      box := box.(handed := box.handed + [Handover(lease.job, lease.original, box.now)],
                  relays := box.relays[relay := box.relays[relay].(added := true)]);
      Record(before, Add(relay));
    }

    /** A row update or delete that also finishes the first lease; where the row is gone it throws, and the batch ends. */
    method Step(relay: nat, e: Event<J>)
      requires Valid() && (e == Defer(relay) || e == FailHandover(relay) || e == Delete(relay))
      requires Holds(box, relay) && (e.Defer? ==> box.relays[relay].todo[0].gated && !box.relays[relay].added)
      requires e.Delete? ==> box.relays[relay].added
      modifies this
      ensures Valid() && Origin() == old(Origin()) && trace == old(trace) + [e]
      ensures box.handed == old(box).handed && box.now == old(box).now
      ensures var todo, id := old(box).relays[relay].todo, old(box).relays[relay].todo[0].id;
        && box.relays == (if id in old(box).rows && |todo| > 1 then old(box).relays[relay := Batch(todo[1..], false)]
                          else old(box).relays - {relay})
        && if e.Delete? then box.rows == old(box).rows - {id}
           else PushedBack(old(box).rows, box.rows, id,
                           box.now + if e.Defer? then 60_000 else Backoff(todo[0].availableAt))
    {
      ghost var before := box;
      var lease := box.relays[relay].todo[0];
      if lease.id !in box.rows {
        box := box.Abandon(relay);
      } else {
        if e.Delete? {
          box := box.(rows := box.rows - {lease.id});
        } else {
          var wait := if e.Defer? then DEFER_MS else Backoff(lease.availableAt);
          var row := box.rows[lease.id].(availableAt := box.now + wait, lockedUntil := None);
          box := box.(rows := box.rows[lease.id := row]);
        }
        box := box.Advance(relay);
      }
      Record(before, e);
    }

    /**
     One pass of a relay: lease a batch, then hand over row by row. It deals with its rows
     in order, and with all of them unless one it came to was gone.
     */
    method Tick(relay: nat, ids: seq<nat>) returns (done: nat)
      requires Valid() && relay !in box.relays && Claimable(box, ids)
      modifies this
      ensures Valid() && Origin() == old(Origin()) && relay !in box.relays
      ensures 1 <= done <= |ids| && (done < |ids| ==> ids[done - 1] !in box.rows)
    {
      hide Apply, Enabled, PushedBack, Claimable, Linked;
      ClaimBatch(relay, ids);
      done := 0;
      while relay in box.relays
        invariant Valid() && Origin() == old(Origin())
        invariant relay in box.relays ==>
          Holds(box, relay) && !box.relays[relay].added && done < |ids| && HoldsRest(relay, ids[done..])
        invariant relay !in box.relays ==> 1 <= done <= |ids| && (done < |ids| ==> ids[done - 1] !in box.rows)
        decreases |ids| - done
      {
        var releaseAllowed: bool, queueAnswers: bool, deleteSucceeds: bool := *, *, *;
        Await(relay);
        assert box.relays[relay].todo[0].id == ids[done..][0] && ids[done + 1..] == ids[done..][1..];
        HandOver(relay, releaseAllowed, queueAnswers, deleteSucceeds);
        done := done + 1;
      }
    }

    /** What the relay still holds are leases of these rows. */
    ghost predicate HoldsRest(relay: nat, ids: seq<nat>)
      reads this
    {
      && relay in box.relays && |box.relays[relay].todo| == |ids|
      && forall i :: 0 <= i < |ids| ==> box.relays[relay].todo[i].id == ids[i]
    }
  }

  // ---------- leases ----------

  /** The first lease of some relay is on the row, and the event pushes that row back. */
  ghost predicate Frees<J(!new)>(b: Box<J>, e: Event<J>, id: nat) {
    (e.Defer? || e.FailHandover?) && Holds(b, e.relay) && b.relays[e.relay].todo[0].id == id
  }

  ghost predicate NeverFrees<J(!new)>(b: Box<J>, es: seq<Event<J>>, id: nat)
    requires Runnable(b, es)
    decreases |es|
  {
    es != [] ==> !Frees(b, es[0], id) && NeverFrees(Apply(b, es[0]), es[1..], id)
  }

  /** The row is leased until `until`, or gone for good. */
  ghost predicate LeasedUntil<J(!new)>(b: Box<J>, id: nat, until: nat) {
    id < b.nextId && (id in b.rows ==> b.rows[id].lockedUntil == Some(until))
  }

  lemma StepKeepsLease<J(!new)>(b: Box<J>, e: Event<J>, id: nat, until: nat)
    requires Enabled(b, e) && LeasedUntil(b, id, until) && b.now < until && !Frees(b, e, id)
    ensures LeasedUntil(Apply(b, e), id, until)
  {}

  lemma TimePasses<J(!new)>(b: Box<J>, es: seq<Event<J>>)
    requires Runnable(b, es)
    ensures b.now <= Exec(b, es).now
    decreases |es|
  {
    if es != [] { TimePasses(Apply(b, es[0]), es[1..]); }
  }

  /**
   Over every run of the relays: until its lease runs out or somebody who holds a lease of
   the row pushes it back, no relay can claim it.
   */
  lemma {:induction false} LeaseKeepsOthersOut<J(!new)>(b: Box<J>, es: seq<Event<J>>, id: nat, until: nat)
    requires Runnable(b, es) && NeverFrees(b, es, id) && LeasedUntil(b, id, until) && Exec(b, es).now < until
    ensures forall relay, ids :: id in ids ==> !Enabled(Exec(b, es), Claim(relay, ids))
    decreases |es|
  {
    if es == [] {
      forall relay, ids | id in ids ensures !Enabled(b, Claim(relay, ids)) {
        assert !b.Ready(id);
      }
    } else {
      TimePasses(b, es);
      TimePasses(Apply(b, es[0]), es[1..]);
      StepKeepsLease(b, es[0], id, until);
      LeaseKeepsOthersOut(Apply(b, es[0]), es[1..], id, until);
    }
  }

  lemma OthersLeaveBatch<J(!new)>(b: Box<J>, e: Event<J>, relay: nat)
    requires Enabled(b, e) && !ByRelay(e, relay)
    ensures relay in b.relays ==> relay in Apply(b, e).relays && Apply(b, e).relays[relay] == b.relays[relay]
    ensures relay !in b.relays ==> relay !in Apply(b, e).relays
    ensures b.handed <= Apply(b, e).handed
  {}
}
