/** What the ladder does not promise: a check-in does not recall the jobs already out. */
module LadderLimits {
  import opened Basics
  import opened Ladder
  import opened LadderSafety
  import O = Outbox
  import S = ScenarioStates

  // ---------- short runs ----------

  lemma {:induction false} ExecAppend(c: Config, w: World, es: seq<Event>, e: Event)
    requires Runnable(c, w, es) && Enabled(Exec(c, w, es), e)
    ensures Runnable(c, w, es + [e]) && Exec(c, w, es + [e]) == Apply(c, Exec(c, w, es), e)
    decreases |es|
  {
    hide Enabled, Apply;
    if es == [] {
      assert ([] + [e])[1..] == [];
    } else {
      assert (es + [e])[1..] == es[1..] + [e];
      ExecAppend(c, Apply(c, w, es[0]), es[1..], e);
    }
  }

  lemma TwoEvents(c: Config, w: World, a: Event, b: Event)
    requires Enabled(w, a) && Enabled(Apply(c, w, a), b)
    ensures Runnable(c, w, [a, b]) && Exec(c, w, [a, b]) == Apply(c, Apply(c, w, a), b)
  {
    hide Enabled, Apply;
    ExecAppend(c, w, [], a);
    assert [] + [a] == [a];
    ExecAppend(c, w, [a], b);
    assert [a] + [b] == [a, b];
  }

  lemma ReadDue(c: Config, w: World, t: nat, dueAt: nat)
    requires Enabled(w, DueDelivered(t, dueAt))
    ensures Apply(c, w, DueDelivered(t, dueAt)) == if w.row.state == S.Armed then w.Task(t, Missing(dueAt)) else w
    ensures w.row.state == S.Armed ==> Enabled(w.Task(t, Missing(dueAt)), MissCommit(t))
  {}

  lemma CommitMiss(c: Config, w: World, t: nat)
    requires Enabled(w, MissCommit(t)) && S.Coupled(w.row) && w.row.state == S.Armed
    ensures Apply(c, w, MissCommit(t)).row.state == S.IncidentPending
    ensures Apply(c, w, MissCommit(t)).Now() == w.Now()
  {}

  /** A due job opens an incident exactly when it finds the scenario armed, however old the job is. */
  lemma DueOpensIffArmed(c: Config, w: World, t: nat, dueAt: nat)
    requires S.Coupled(w.row) && Enabled(w, DueDelivered(t, dueAt))
    ensures w.row.state != S.Armed ==> Apply(c, w, DueDelivered(t, dueAt)) == w
    ensures w.row.state == S.Armed ==>
      && Runnable(c, w, [DueDelivered(t, dueAt), MissCommit(t)])
      && Exec(c, w, [DueDelivered(t, dueAt), MissCommit(t)]).row.state == S.IncidentPending
      && Exec(c, w, [DueDelivered(t, dueAt), MissCommit(t)]).Now() == w.Now()
  {
    hide Enabled, Apply;
    ReadDue(c, w, t, dueAt);
    if w.row.state == S.Armed {
      CommitMiss(c, w.Task(t, Missing(dueAt)), t);
      TwoEvents(c, w, DueDelivered(t, dueAt), MissCommit(t));
    }
  }

  // ---------- a run for every configuration ----------

  /** Armed at 0. */
  function ArmedAtZero(c: Config): World {
    World(S.Row(S.Armed, Some(0), None, None),
          O.Box(map[0 := Fresh(Due(c.interval), c.interval)], 1, map[], [], {O.Promise(Due(c.interval), c.interval)}, 0),
          map[], [S.Arm], [], None)
  }

  /** A row as it is put aside. */
  function Fresh(job: Job, at: nat): O.Row<Job> {
    O.Row(job, false, at, at, None)
  }

  lemma ArmedAtZeroIsReached(c: Config)
    ensures Runnable(c, NewWorld(0), [ArmRead(0), ArmCommit(0)])
    ensures Exec(c, NewWorld(0), [ArmRead(0), ArmCommit(0)]) == ArmedAtZero(c)
  {
    var read := NewWorld(0).Task(0, Arming(0, c.interval));
    assert Apply(c, NewWorld(0), ArmRead(0)) == read;
    assert Apply(c, read, ArmCommit(0)) == ArmedAtZero(c) by {
      assert read.Done(0).tasks == map[];
    }
    TwoEvents(c, NewWorld(0), ArmRead(0), ArmCommit(0));
  }

  /** Checked in at `k`: the next due job is an interval later, and the first is still waiting. */
  function CheckedIn(c: Config, k: nat): World {
    var a := ArmedAtZero(c);
    a.(box := a.box.(
      rows := a.box.rows[1 := Fresh(Due(k + c.interval), k + c.interval)], nextId := 2, now := k,
      promises := a.box.promises + {O.Promise(Due(k + c.interval), k + c.interval)}))
  }

  function Later(w: World, ms: nat): World {
    w.(box := w.box.(now := w.box.now + ms))
  }

  lemma PassIs(c: Config, w: World, ms: nat)
    ensures Runnable(c, w, [Relay(O.Pass(ms))]) && Exec(c, w, [Relay(O.Pass(ms))]) == Later(w, ms)
  {
    assert [Relay(O.Pass(ms))][1..] == [];
  }

  lemma CheckedInIsReached(c: Config, k: nat)
    requires k > 0
    ensures var w, es := Later(ArmedAtZero(c), k), [CheckinRead(0), CheckinCommit(0)];
      Runnable(c, w, es) && Exec(c, w, es) == CheckedIn(c, k)
  {
    var w, due := Later(ArmedAtZero(c), k), k + c.interval;
    var read := w.Task(0, CheckingIn(S.Armed, due));
    assert Apply(c, w, CheckinRead(0)) == read;
    assert w.box.rows[0].job != Due(due);
    assert !read.box.HasRow(Due(due));
    assert read.Done(0).tasks == map[];
    assert Apply(c, read, CheckinCommit(0)) == read.Put(Due(due), c.interval).Done(0);
    TwoEvents(c, w, CheckinRead(0), CheckinCommit(0));
  }

  /** A relay leases a ready row and gives it to the queue. */
  lemma HandOverIs(c: Config, w: World, id: nat)
    requires w.box.relays == map[] && w.box.Ready(id)
    ensures var es := [Relay(O.Claim(0, [id])), Relay(O.Add(0))];
      Runnable(c, w, es) && Exec(c, w, es).InQueue(w.box.rows[id].job) && Exec(c, w, es).row == w.row
      && Exec(c, w, es).tasks == w.tasks && Exec(c, w, es).Now() == w.Now()
  {
    var a, b := Relay(O.Claim(0, [id])), Relay(O.Add(0));
    var leased := Apply(c, w, a);
    assert leased.box.relays[0].todo == [O.LeaseOf(w.box, id)];
    var handed := Apply(c, leased, b).box.handed;
    assert handed[|handed| - 1].job == w.box.rows[id].job;
    TwoEvents(c, w, a, b);
  }

  lemma {:induction false} ExecConcat(c: Config, w: World, es: seq<Event>, fs: seq<Event>)
    requires Runnable(c, w, es) && Runnable(c, Exec(c, w, es), fs)
    ensures Runnable(c, w, es + fs) && Exec(c, w, es + fs) == Exec(c, Exec(c, w, es), fs)
    decreases |fs|
  {
    hide Enabled, Apply;
    if fs == [] {
      assert es + fs == es;
    } else {
      ExecAppend(c, w, es, fs[0]);
      ExecConcat(c, w, es + [fs[0]], fs[1..]);
      assert es + [fs[0]] + fs[1..] == es + fs;
    }
  }

  /** What is left of the interval passes, and the first due job is handed over and delivered. */
  function Bite(c: Config, k: nat): seq<Event>
    requires k <= c.interval
  {
    [Relay(O.Pass(c.interval - k)), Relay(O.Claim(0, [0])), Relay(O.Add(0)), DueDelivered(0, c.interval), MissCommit(0)]
  }

  /** When the first interval ends. */
  lemma FirstDueIsReady(c: Config, k: nat)
    requires 0 < k <= c.interval
    ensures var w := Later(CheckedIn(c, k), c.interval - k);
      && w.box.relays == map[] && w.tasks == map[] && w.box.Ready(0) && w.box.rows[0].job == Due(c.interval)
      && w.row.state == S.Armed && S.Coupled(w.row) && w.Now() == c.interval
  {}

  /** A due job whose row is ready is handed over and delivered. */
  lemma ReadyDueBites(c: Config, w: World, dueAt: nat)
    requires w.box.relays == map[] && w.tasks == map[] && w.box.Ready(0) && w.box.rows[0].job == Due(dueAt)
    requires w.row.state == S.Armed && S.Coupled(w.row)
    ensures var es := [Relay(O.Claim(0, [0])), Relay(O.Add(0))] + [DueDelivered(0, dueAt), MissCommit(0)];
      Runnable(c, w, es) && Exec(c, w, es).row.state == S.IncidentPending && Exec(c, w, es).Now() == w.Now()
  {
    var handed, miss := [Relay(O.Claim(0, [0])), Relay(O.Add(0))], [DueDelivered(0, dueAt), MissCommit(0)];
    HandOverIs(c, w, 0);
    var queued := Exec(c, w, handed);
    assert Enabled(queued, DueDelivered(0, dueAt));
    hide Enabled, Apply, O.Box.Ready;
    DueOpensIffArmed(c, queued, 0, dueAt);
    ExecConcat(c, w, handed, miss);
  }

  lemma FirstDueStillBites(c: Config, k: nat)
    requires 0 < k <= c.interval
    ensures Runnable(c, CheckedIn(c, k), Bite(c, k))
    ensures Exec(c, CheckedIn(c, k), Bite(c, k)).row.state == S.IncidentPending
    ensures Exec(c, CheckedIn(c, k), Bite(c, k)).Now() == c.interval
  {
    FirstDueIsReady(c, k);
    hide CheckedIn;
    PassIs(c, CheckedIn(c, k), c.interval - k);
    hide Later, Enabled, Apply, Runnable, Exec;
    var pass, rest := [Relay(O.Pass(c.interval - k))],
      [Relay(O.Claim(0, [0])), Relay(O.Add(0))] + [DueDelivered(0, c.interval), MissCommit(0)];
    ReadyDueBites(c, Later(CheckedIn(c, k), c.interval - k), c.interval);
    ExecConcat(c, CheckedIn(c, k), pass, rest);
    assert pass + rest == Bite(c, k);
  }

  /** Armed at 0, checked in at `k`, and the first due job delivered at the end of the first interval. */
  function WholeRun(c: Config, k: nat): seq<Event>
    requires k <= c.interval
  {
    [ArmRead(0), ArmCommit(0)] + [Relay(O.Pass(k))] + [CheckinRead(0), CheckinCommit(0)] + Bite(c, k)
  }

  /**
   A check-in does not postpone the miss, whatever the interval and whenever within it:
   armed at 0 and checked in at `k`, the scenario can become an incident when the first
   interval ends, although the check-in's own interval ends `k` later.
   */
  lemma CheckinDoesNotPostpone(c: Config, k: nat)
    requires 0 < k <= c.interval
    ensures Runnable(c, NewWorld(0), WholeRun(c, k))
    ensures Exec(c, NewWorld(0), WholeRun(c, k)).row.state == S.IncidentPending
    ensures Exec(c, NewWorld(0), WholeRun(c, k)).Now() == c.interval < k + c.interval
  {
    hide Enabled, Apply, CheckedIn, ArmedAtZero, Later, NewWorld, Runnable, Exec, Bite;
    var arm, pass, checkin := [ArmRead(0), ArmCommit(0)], [Relay(O.Pass(k))], [CheckinRead(0), CheckinCommit(0)];
    ArmedAtZeroIsReached(c);
    PassIs(c, ArmedAtZero(c), k);
    CheckedInIsReached(c, k);
    FirstDueStillBites(c, k);
    ExecConcat(c, NewWorld(0), arm, pass);
    ExecConcat(c, NewWorld(0), arm + pass, checkin);
    ExecConcat(c, NewWorld(0), arm + pass + checkin, Bite(c, k));
  }
}
