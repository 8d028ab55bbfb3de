/** Exactly when a committed job can reach the queue before a deadline, whatever the relays do. */
module OutboxArrival {
  import opened Basics
  import opened Outbox

  predicate Leasable<J>(row: Row<J>, deadline: nat) {
    row.availableAt < deadline && (row.lockedUntil.Some? ==> row.lockedUntil.value < deadline)
  }

  /** A relay can still lease the job's row in time. */
  ghost predicate InTable<J>(b: Box<J>, job: J, deadline: nat) {
    exists id :: id in b.rows && b.rows[id].job == job && Leasable(b.rows[id], deadline)
  }

  /** Relay `r` can work up to its lease `k`: a lease before it whose row is gone would end its batch. */
  ghost predicate Reaches<J>(b: Box<J>, r: nat, k: nat) {
    && r in b.relays && k < |b.relays[r].todo|
    && (k == 0 ==> !b.relays[r].added)
    && forall i :: 0 <= i < k ==> b.relays[r].todo[i].id in b.rows
  }

  ghost predicate Leased<J>(b: Box<J>, job: J) {
    exists r: nat, k: nat :: Reaches(b, r, k) && b.relays[r].todo[k].job == job
  }

  /** The queue has the job, a relay can come to it, or its row can be leased before the deadline. */
  ghost predicate CanArrive<J>(b: Box<J>, job: J, deadline: nat) {
    b.WasHanded(job) || InTable(b, job, deadline) || Leased(b, job)
  }

  // ---------- what cannot arrive never will ----------

  lemma HandedStays<J(!new)>(b: Box<J>, e: Event<J>, job: J, deadline: nat)
    requires Inv(b) && Enabled(b, e) && !CanArrive(b, job, deadline)
    ensures !Apply(b, e).WasHanded(job)
  {
    if e.Add? { assert Reaches(b, e.relay, 0); }
  }

  /** Whoever pushes a row back could have handed it over, or has. */
  lemma PushedRowIsOther<J(!new)>(b: Box<J>, relay: nat, job: J, deadline: nat)
    requires Inv(b) && Holds(b, relay) && !CanArrive(b, job, deadline)
    ensures b.relays[relay].todo[0].job != job
  {
    if b.relays[relay].added {
      assert Delivered(b, b.relays[relay].todo[0].job, b.relays[relay].todo[0].original);
    } else {
      assert Reaches(b, relay, 0);
    }
  }

  lemma PushBackLeavesTable<J(!new)>(b: Box<J>, relay: nat, wait: nat, job: J, deadline: nat)
    requires Inv(b) && Holds(b, relay) && !CanArrive(b, job, deadline)
    ensures !InTable(b.PushBack(relay, wait), job, deadline)
  {
    PushedRowIsOther(b, relay, job, deadline);
    assert LeaseSound(b, b.relays[relay].todo[0]);
    hide Inv, Leased, Box.WasHanded;
    forall id | id in b.rows && b.rows[id].job == job ensures !Leasable(b.rows[id], deadline) {}
  }

  lemma TableStays<J(!new)>(b: Box<J>, e: Event<J>, job: J, deadline: nat)
    requires Inv(b) && Enabled(b, e) && !CanArrive(b, job, deadline) && Apply(b, e).now < deadline
    requires e.Put? && e.job == job ==> deadline <= b.now + e.delayMs
    ensures !InTable(Apply(b, e), job, deadline)
  {
    if e.Defer? || e.FailHandover? {
      PushBackLeavesTable(b, e.relay, if e.Defer? then DEFER_MS else Backoff(b.relays[e.relay].todo[0].availableAt), job, deadline);
    } else {
      hide Inv, Leased, Box.WasHanded;
      forall id | id in b.rows && b.rows[id].job == job ensures !Leasable(b.rows[id], deadline) {}
    }
  }

  lemma LeasedStays<J(!new)>(b: Box<J>, e: Event<J>, job: J, deadline: nat)
    requires Inv(b) && Enabled(b, e) && !CanArrive(b, job, deadline) && b.now < deadline
    ensures !Leased(Apply(b, e), job)
  {
    var b' := Apply(b, e);
    forall r: nat, k: nat | Reaches(b', r, k) ensures b'.relays[r].todo[k].job != job {
      if e.Claim? && e.relay == r {
        assert b'.relays[r].todo[k] == LeaseOf(b, e.ids[k]);
        assert b.Ready(e.ids[k]);
      } else {
        LeaseWasReached(b, e, r, k);
      }
    }
  }

  /** A lease that is reached after an event was reached before it. */
  lemma LeaseWasReached<J(!new)>(b: Box<J>, e: Event<J>, r: nat, k: nat)
    requires Inv(b) && Enabled(b, e) && Reaches(Apply(b, e), r, k) && !(e.Claim? && e.relay == r)
    ensures r in b.relays
    ensures exists j: nat :: Reaches(b, r, j) && b.relays[r].todo[j] == Apply(b, e).relays[r].todo[k]
  {
    RelayMoves(b, e, r);
    var t, t' := b.relays[r], Apply(b, e).relays[r];
    assert forall i :: 0 <= i < |t.todo| ==> LeaseSound(b, t.todo[i]);
    if |t'.todo| == |t.todo| {
      assert Reaches(b, r, k);
    } else {
      assert t.todo[0].id in b.rows;
      forall i | 0 <= i < k + 1 ensures t.todo[i].id in b.rows {
        if i > 0 { assert t'.todo[i - 1].id in Apply(b, e).rows; }
      }
      assert Reaches(b, r, k + 1);
    }
  }

  lemma CannotArriveStays<J(!new)>(b: Box<J>, e: Event<J>, job: J, deadline: nat)
    requires Inv(b) && Enabled(b, e) && !CanArrive(b, job, deadline) && Apply(b, e).now < deadline
    requires e.Put? && e.job == job ==> deadline <= b.now + e.delayMs
    ensures !CanArrive(Apply(b, e), job, deadline)
  {
    HandedStays(b, e, job, deadline);
    TableStays(b, e, job, deadline);
    assert b.now <= Apply(b, e).now;
    LeasedStays(b, e, job, deadline);
    hide Inv, Enabled, Apply, InTable, Leased;
  }

  /** What can arrive was promised for a time before the deadline. */
  lemma ArrivalWasPromised<J(!new)>(b: Box<J>, job: J, deadline: nat)
    requires Inv(b) && b.now < deadline && CanArrive(b, job, deadline)
    ensures exists p :: p in b.promises && p.job == job && p.at < deadline
  {
    if b.WasHanded(job) {
      var i :| 0 <= i < |b.handed| && b.handed[i].job == job;
      assert Promise(job, b.handed[i].original) in b.promises;
    } else if InTable(b, job, deadline) {
      var id :| id in b.rows && b.rows[id].job == job && Leasable(b.rows[id], deadline);
      assert Promise(job, b.rows[id].original) in b.promises;
    } else {
      var r: nat, k: nat :| Reaches(b, r, k) && b.relays[r].todo[k].job == job;
      assert LeaseSound(b, b.relays[r].todo[k]);
      assert Promise(job, b.relays[r].todo[k].original) in b.promises;
    }
  }

  // ---------- what can arrive does in some run ----------

  /** No event commits `job`. */
  ghost predicate Leaves<J(!new)>(es: seq<Event<J>>, job: J) {
    forall i :: 0 <= i < |es| ==> es[i].Put? ==> es[i].job != job
  }

  /** Only relays and the clock. */
  ghost predicate OnlyRelays<J>(es: seq<Event<J>>) {
    forall i :: 0 <= i < |es| ==> !es[i].Put?
  }

  lemma {:induction false} LeaseArrives<J(!new)>(b: Box<J>, r: nat, k: nat) returns (es: seq<Event<J>>)
    requires Reaches(b, r, k)
    ensures Runnable(b, es) && OnlyRelays(es)
    ensures Exec(b, es).WasHanded(b.relays[r].todo[k].job) && Exec(b, es).now == b.now
    decreases k
  {
    var todo := b.relays[r].todo;
    if k == 0 {
      var e: Event<J> := Add(r);
      es := [e];
      var b' := Apply(b, e);
      assert b'.handed[|b.handed|].job == todo[0].job;
      assert es[1..] == [] && Exec(b, es) == Exec(b', []);
    } else {
      var e: Event<J> := FailHandover(r);
      var b' := Apply(b, e);
      assert todo[0].id in b.rows;
      assert b'.relays[r] == Batch(todo[1..], false);
      forall i | 0 <= i < k - 1 ensures b'.relays[r].todo[i].id in b'.rows {
        assert todo[i + 1].id in b.rows;
      }
      var rest := LeaseArrives(b', r, k - 1);
      es := [e] + rest;
      assert es[1..] == rest;
    }
  }

  lemma {:induction false} AboveKeys(keys: set<nat>) returns (n: nat)
    ensures forall k :: k in keys ==> k < n
    decreases |keys|
  {
    if keys == {} {
      n := 0;
    } else {
      var k :| k in keys;
      var m := AboveKeys(keys - {k});
      n := if k < m then m else k + 1;
      assert forall j :: j in keys ==> j == k || j in keys - {k};
    }
  }

  lemma RowArrives<J(!new)>(b: Box<J>, id: nat, deadline: nat) returns (es: seq<Event<J>>)
    requires id in b.rows && Leasable(b.rows[id], deadline) && b.now < deadline
    ensures Runnable(b, es) && OnlyRelays(es)
    ensures Exec(b, es).WasHanded(b.rows[id].job) && Exec(b, es).now < deadline
  {
    var row := b.rows[id];
    var until := Max3(b.now, row.availableAt, if row.lockedUntil.Some? then row.lockedUntil.value else 0);
    var r := AboveKeys(b.relays.Keys);
    var pass: Event<J> := Pass(until - b.now);
    var later := Apply(b, pass);
    var claim: Event<J> := Claim(r, [id]);
    assert later.Ready(id) && Enabled(later, claim);
    var leased := Apply(later, claim);
    assert leased.relays[r].todo[0] == LeaseOf(later, id);
    assert Reaches(leased, r, 0);
    var rest := LeaseArrives(leased, r, 0);
    es := [pass, claim] + rest;
    assert es[1..] == [claim] + rest && es[1..][1..] == rest;
    assert Exec(b, es) == Exec(later, [claim] + rest) == Exec(leased, rest);
  }

  function Max3(a: nat, b: nat, c: nat): (m: nat)
    ensures a <= m && b <= m && c <= m && (m == a || m == b || m == c)
  {
    var ab := if a < b then b else a;
    if ab < c then c else ab
  }

  lemma Arrives<J(!new)>(b: Box<J>, job: J, deadline: nat) returns (es: seq<Event<J>>)
    requires b.now < deadline && CanArrive(b, job, deadline)
    ensures Runnable(b, es) && OnlyRelays(es)
    ensures Exec(b, es).WasHanded(job) && Exec(b, es).now < deadline
  {
    if b.WasHanded(job) {
      es := [];
    } else if InTable(b, job, deadline) {
      var id :| id in b.rows && b.rows[id].job == job && Leasable(b.rows[id], deadline);
      es := RowArrives(b, id, deadline);
    } else {
      var r: nat, k: nat :| Reaches(b, r, k) && b.relays[r].todo[k].job == job;
      es := LeaseArrives(b, r, k);
    }
  }

  lemma {:induction false} TimeGoesOn<J(!new)>(b: Box<J>, es: seq<Event<J>>)
    requires Runnable(b, es)
    ensures b.now <= Exec(b, es).now
    decreases |es|
  {
    if es != [] { TimeGoesOn(Apply(b, es[0]), es[1..]); }
  }

  lemma {:induction false} NeverArrives<J(!new)>(b: Box<J>, es: seq<Event<J>>, job: J, deadline: nat)
    requires Inv(b) && Runnable(b, es) && Leaves(es, job) && !CanArrive(b, job, deadline) && Exec(b, es).now < deadline
    ensures !CanArrive(Exec(b, es), job, deadline)
    decreases |es|
  {
    if es != [] {
      var b' := Apply(b, es[0]);
      TimeGoesOn(b', es[1..]);
      StepKeepsInv(b, es[0]);
      CannotArriveStays(b, es[0], job, deadline);
      assert Leaves(es[1..], job) by {
        forall i | 0 <= i < |es[1..]| ensures es[1..][i].Put? ==> es[1..][i].job != job { assert es[1..][i] == es[i + 1]; }
      }
      hide Inv, CanArrive, Apply, Enabled;
      NeverArrives(b', es[1..], job, deadline);
    }
  }

  /** The run hands `job` over before the deadline without committing it again. */
  ghost predicate HandsOverBy<J(!new)>(b: Box<J>, es: seq<Event<J>>, job: J, deadline: nat) {
    Runnable(b, es) && Leaves(es, job) && Exec(b, es).WasHanded(job) && Exec(b, es).now < deadline
  }

  /** In any reachable outbox: some run of relays hands a job over in time exactly when it can arrive. */
  lemma HandsOverIff<J(!new)>(b: Box<J>, job: J, deadline: nat)
    requires Inv(b)
    ensures (exists es :: HandsOverBy(b, es, job, deadline)) <==> b.now < deadline && CanArrive(b, job, deadline)
  {
    if b.now < deadline && CanArrive(b, job, deadline) {
      var es := Arrives(b, job, deadline);
      assert HandsOverBy(b, es, job, deadline);
    }
    forall es | HandsOverBy(b, es, job, deadline) ensures b.now < deadline && CanArrive(b, job, deadline) {
      TimeGoesOn(b, es);
      if !CanArrive(b, job, deadline) { NeverArrives(b, es, job, deadline); }
    }
  }
}
