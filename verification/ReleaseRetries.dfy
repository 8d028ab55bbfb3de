/**
 What a failed send leaves behind: an action that nobody will ever claim again, or one
 that can be claimed, and exactly as long as its release can still go on.
 */
module ReleaseRetries {
  import opened Basics
  import opened ReleaseModel
  import opened ReleaseInvariants
  import opened ReleaseTheorems
  import S = ScenarioStates

  ghost predicate Unheld(s: System, a: nat) {
    forall w :: w in s.runs && s.runs[w].action == a ==> !Holding(s.runs[w].pc)
  }

  /** Some continuation has a run that has just claimed the action. */
  ghost predicate MayBeClaimed(s: System, a: nat) {
    exists es, w :: Runnable(s, es) && ClaimedBy(Exec(s, es), w, a)
  }

  predicate ClaimedBy(s: System, w: nat, a: nat) {
    w in s.runs && s.runs[w].action == a && s.runs[w].pc == Claimed
  }

  // ---------- failed for good ----------

  /** The action is closed, and nobody is at work on it. */
  ghost predicate Buried(s: System, a: nat) {
    a in s.db.actions && s.db.actions[a].state == FailedPermanent && Unheld(s, a)
  }

  lemma BuriedStays(s: System, e: Event, s': System, a: nat)
    requires Buried(s, a) && Moves(s, e, s')
    ensures Buried(s', a) && CallsOf(s'.calls, a) == CallsOf(s.calls, a)
  {
    if s'.calls != s.calls {
      assert s'.calls[..|s'.calls| - 1] == s.calls;
    }
  }

  /** In every continuation a buried action stays what it is, unclaimed and uncalled. */
  lemma {:induction false} BuriedForever(s: System, es: seq<Event>, a: nat)
    requires Buried(s, a) && Runnable(s, es)
    ensures Buried(Exec(s, es), a) && CallsOf(Exec(s, es).calls, a) == CallsOf(s.calls, a)
    decreases |es|
  {
    hide Buried, Moves, Apply, Enabled;
    if es != [] {
      StepMoves(s, es[0]);
      BuriedStays(s, es[0], Apply(s, es[0]), a);
      BuriedForever(Apply(s, es[0]), es[1..], a);
    }
  }

  lemma BuriedIsNotClaimed(s: System, a: nat)
    requires Buried(s, a)
    ensures !MayBeClaimed(s, a)
  {
    forall es, w | Runnable(s, es) ensures !ClaimedBy(Exec(s, es), w, a) {
      BuriedForever(s, es, a);
    }
  }

  // ---------- failed for now ----------

  /** The release of the action is not over for it: no claim is ruled out for good. */
  ghost predicate GoesOn(s: System, a: nat) {
    && a in s.db.actions
    && var r := s.db.actions[a].release;
    && r in s.db.releases && ScenarioIs(s.db, r, S.ReleaseInProgress)
    && (!s.db.Tainted(r) || exists w :: AtClaim(s, w, a))
  }

  /** Past the taint check, before its claim. */
  predicate AtClaim(s: System, w: nat, a: nat) {
    w in s.runs && s.runs[w].action == a && s.runs[w].pc.Claiming?
  }

  lemma StepBack(s: System, e: Event, a: nat)
    requires Enabled(s, e) && MayBeClaimed(Apply(s, e), a)
    ensures MayBeClaimed(s, a)
  {
    hide Apply, Enabled;
    var es, w :| Runnable(Apply(s, e), es) && ClaimedBy(Exec(Apply(s, e), es), w, a);
    assert ([e] + es)[0] == e && ([e] + es)[1..] == es;
    assert Runnable(s, [e] + es) && Exec(s, [e] + es) == Exec(Apply(s, e), es);
  }

  lemma ClaimsNow(s: System, w: nat, a: nat)
    requires AtClaim(s, w, a) && s.db.Live(a) && Retryable(s.db.actions[a].state)
    ensures MayBeClaimed(s, a)
  {
    var t := Apply(s, Work(w, Claim));
    assert ClaimedBy(t, w, a);
    hide Apply;
    assert Runnable(t, []) && Exec(t, []) == t;
    StepBack(s, Work(w, Claim), a);
  }

  /** An operator may lift a cancellation. */
  lemma UnlockMakesLive(s: System, a: nat)
    requires a in s.db.actions && s.db.actions[a].release in s.db.releases
    requires ScenarioIs(s.db, s.db.actions[a].release, S.ReleaseInProgress)
    ensures var t := Apply(s, ForceUnlock(s.db.actions[a].release));
      t.db.Live(a) && t.db.actions == s.db.actions && t.runs == s.runs
  {}

  lemma WaitingClaimGoesOn(s: System, w: nat, a: nat)
    requires a in s.db.actions && s.db.actions[a].release in s.db.releases && Retryable(s.db.actions[a].state)
    requires ScenarioIs(s.db, s.db.actions[a].release, S.ReleaseInProgress) && AtClaim(s, w, a)
    ensures MayBeClaimed(s, a)
  {
    var r := s.db.actions[a].release;
    UnlockMakesLive(s, a);
    ClaimsNow(Apply(s, ForceUnlock(r)), w, a);
    StepBack(s, ForceUnlock(r), a);
  }

  /** From a delivery to the claim, where no sibling is tainted. */
  lemma DeliveryClaims(s: System, w: nat, a: nat)
    requires s.db.Live(a) && Retryable(s.db.actions[a].state) && !s.db.Tainted(s.db.actions[a].release) && w !in s.runs
    ensures MayBeClaimed(s, a)
  {
    var t := Apply(s, Start(w, a, 1));
    var u := Apply(t, Work(w, Interlock(true)));
    var v := Apply(u, Work(w, Step.CountTaint));
    assert u.db == s.db && v.db == s.db && AtClaim(v, w, a);
    hide Apply;
    ClaimsNow(v, w, a);
    StepBack(u, Work(w, Step.CountTaint), a);
    StepBack(t, Work(w, Interlock(true)), a);
    StepBack(s, Start(w, a, 1), a);
  }

  lemma FreshRun(used: set<nat>) returns (w: nat)
    ensures w !in used
  {
    w := 0;
    var seen: set<nat> := {};
    while w in used
      invariant seen <= used && forall i :: i in seen ==> i < w
      decreases |used - seen|
    {
      assert used - (seen + {w}) == used - seen - {w};
      seen := seen + {w};
      w := w + 1;
    }
  }

  lemma UntaintedGoesOn(s: System, a: nat)
    requires a in s.db.actions && s.db.actions[a].release in s.db.releases && Retryable(s.db.actions[a].state)
    requires ScenarioIs(s.db, s.db.actions[a].release, S.ReleaseInProgress) && !s.db.Tainted(s.db.actions[a].release)
    ensures MayBeClaimed(s, a)
  {
    var r := s.db.actions[a].release;
    var w := FreshRun(s.runs.Keys);
    var t := Apply(s, ForceUnlock(r));
    UnlockMakesLive(s, a);
    assert !t.db.Tainted(r);
    hide Apply, Db.Tainted;
    DeliveryClaims(t, w, a);
    StepBack(s, ForceUnlock(r), a);
  }

  /** Nobody holds the action, and nobody will get past the claim. */
  ghost predicate Barred(s: System, a: nat) {
    && a in s.db.actions && Unheld(s, a) && !GoesOn(s, a)
  }

  lemma EndedScenarioStays(s: System, e: Event, c: nat)
    requires Enabled(s, e) && c in s.db.scenarios && S.IsTerminal(s.db.scenarios[c])
    ensures c in Apply(s, e).db.scenarios && Apply(s, e).db.scenarios[c] == s.db.scenarios[c]
  {
    if e.Work? && !e.step.Complete? { StepShape(s, e.run, e.step); }
  }

  lemma ReleaseKeepsScenario(s: System, e: Event, r: nat)
    requires Enabled(s, e) && r in s.db.releases
    ensures r in Apply(s, e).db.releases && Apply(s, e).db.releases[r].scenario == s.db.releases[r].scenario
  {
    if e.Work? && !e.step.Complete? { StepShape(s, e.run, e.step); }
  }

  /** A scenario that has left its release does not come back to it. */
  lemma OverStaysOver(s: System, e: Event, r: nat)
    requires RowsLinked(s) && OneRelease(s) && Enabled(s, e) && r in s.db.releases && !ScenarioIs(s.db, r, S.ReleaseInProgress)
    ensures r in Apply(s, e).db.releases && !ScenarioIs(Apply(s, e).db, r, S.ReleaseInProgress)
  {
    EndedScenarioStays(s, e, s.db.releases[r].scenario);
    ReleaseKeepsScenario(s, e, r);
    hide Apply, Enabled;
  }

  /** A tainted release lets no further run come to its claim. */
  lemma TaintedStaysShut(s: System, e: Event, a: nat)
    requires Enabled(s, e) && a in s.db.actions && s.db.Tainted(s.db.actions[a].release)
    requires forall w :: !AtClaim(s, w, a)
    ensures forall w :: !AtClaim(Apply(s, e), w, a)
  {
    StepMoves(s, e);
    if e.Work? && AtClaim(Apply(s, e), e.run, a) {
      if PastTaintCheck(s.runs[e.run].pc) {
        ClaimingIsFresh(s, e.run, e.step);
      } else {
        TaintGate(s, e.run, e.step);
      }
    }
    OthersStayShut(s, e, Apply(s, e), a);
  }

  lemma OthersStayShut(s: System, e: Event, s': System, a: nat)
    requires Moves(s, e, s') && forall w :: !AtClaim(s, w, a)
    requires e.Work? ==> !AtClaim(s', e.run, a)
    ensures forall w :: !AtClaim(s', w, a)
  {
    forall w ensures !AtClaim(s', w, a) {
      assert !AtClaim(s, w, a);
    }
  }

  lemma ClaimingIsFresh(s: System, w: nat, step: Step)
    requires Enabled(s, Work(w, step)) && PastTaintCheck(s.runs[w].pc)
    ensures w in Apply(s, Work(w, step)).runs ==> !Apply(s, Work(w, step)).runs[w].pc.Claiming?
  {}

  /** Only a claim of a live action gets hold of it. */
  lemma UnheldStays(s: System, e: Event, a: nat)
    requires Enabled(s, e) && Barred(s, a)
    ensures Unheld(Apply(s, e), a)
  {
    StepMoves(s, e);
    if e.Work? && e.run in Apply(s, e).runs && s.runs[e.run].action == a && Holding(Apply(s, e).runs[e.run].pc) {
      HoldingIsClaimed(s, e.run, e.step);
      assert AtClaim(s, e.run, a);
    }
    OthersStayUnheld(s, e, Apply(s, e), a);
  }

  lemma OthersStayUnheld(s: System, e: Event, s': System, a: nat)
    requires Moves(s, e, s') && Unheld(s, a)
    requires e.Work? && e.run in s'.runs && s.runs[e.run].action == a ==> !Holding(s'.runs[e.run].pc)
    ensures Unheld(s', a)
  {}

  lemma HoldingIsClaimed(s: System, w: nat, step: Step)
    requires Enabled(s, Work(w, step)) && !Holding(s.runs[w].pc)
    requires w in Apply(s, Work(w, step)).runs && Holding(Apply(s, Work(w, step)).runs[w].pc)
    ensures s.runs[w].pc.Claiming? && s.db.Live(s.runs[w].action)
  {}

  lemma BarredStays(s: System, e: Event, a: nat)
    requires Inv(s) && Enabled(s, e) && Barred(s, a)
    ensures Barred(Apply(s, e), a)
  {
    var r := s.db.actions[a].release;
    assert RowsLinked(s);
    UnheldStays(s, e, a);
    StepEvolves(s, e);
    ReleasesStay(s, e, r);
    if ScenarioIs(s.db, r, S.ReleaseInProgress) {
      TaintLasts(s, e, r);
      TaintedStaysShut(s, e, a);
    } else {
      OverStaysOver(s, e, r);
    }
  }

  lemma {:induction false} BarredForever(s: System, es: seq<Event>, a: nat)
    requires Inv(s) && Barred(s, a) && Runnable(s, es)
    ensures Barred(Exec(s, es), a)
    decreases |es|
  {
    hide Barred, Inv, Apply, Enabled;
    if es != [] {
      StepKeepsInv(s, es[0]);
      BarredStays(s, es[0], a);
      BarredForever(Apply(s, es[0]), es[1..], a);
    }
  }

  /** A retryable action that nobody holds can be claimed exactly as long as its release goes on for it. */
  lemma RetryIsClaimedIff(s: System, a: nat)
    requires Inv(s) && a in s.db.actions && Retryable(s.db.actions[a].state) && Unheld(s, a)
    ensures MayBeClaimed(s, a) <==> GoesOn(s, a)
  {
    assert RowsLinked(s);
    if GoesOn(s, a) {
      if s.db.Tainted(s.db.actions[a].release) {
        var w :| AtClaim(s, w, a);
        WaitingClaimGoesOn(s, w, a);
      } else {
        UntaintedGoesOn(s, a);
      }
    } else {
      forall es, w | Runnable(s, es) ensures !ClaimedBy(Exec(s, es), w, a) {
        BarredForever(s, es, a);
      }
    }
  }

  // ---------- the failing send ----------

  /** Attempts end for good with a client error, or with any but an ambiguous one at the last attempt. */
  predicate GivesUp(error: ErrorKind, attempt: nat) {
    error == Client || (error != Ambiguous && 5 <= attempt)
  }

  /** Closing lets go of the action and leaves every other row of the table alone. */
  lemma ClosingLetsGo(s: System, w: nat)
    requires HoldersOwn(s) && Enabled(s, Work(w, CloseFailure))
    ensures Unheld(Apply(s, Work(w, CloseFailure)), s.runs[w].action)
    ensures Apply(s, Work(w, CloseFailure)).calls == s.calls
  {
    StepShape(s, w, CloseFailure);
    hide Apply;
  }

  /** Run `w` is about to close its action, whose row is still sending. */
  predicate Closing(s: System, w: nat, error: ErrorKind) {
    && w in s.runs && s.runs[w].pc == Failing(error)
    && s.runs[w].action in s.db.actions && s.db.actions[s.runs[w].action].state == Sending
  }

  ghost predicate Abandoned(s: System, t: System, a: nat) {
    && a in s.db.actions && a in t.db.actions
    && t.db.actions[a] == s.db.actions[a].(state := FailedPermanent)
    && !MayBeClaimed(t, a)
    && forall es :: Runnable(t, es) ==> CallsOf(Exec(t, es).calls, a) == CallsOf(s.calls, a)
  }

  ghost predicate PutOff(s: System, t: System, a: nat) {
    && a in s.db.actions && a in t.db.actions
    && t.db.actions[a] == s.db.actions[a].(state := FailedTemporary)
    && (MayBeClaimed(t, a) <==> GoesOn(t, a))
  }

  /** Failed for good: no continuation claims the action or calls the provider for it. */
  lemma FailsForGood(s: System, w: nat, error: ErrorKind, t: System)
    requires Closing(s, w, error) && GivesUp(error, s.runs[w].attempt)
    requires Enabled(s, Work(w, CloseFailure)) && t == Apply(s, Work(w, CloseFailure))
    requires Inv(s)
    ensures Abandoned(s, t, s.runs[w].action)
  {
    var a := s.runs[w].action;
    assert HoldersOwn(s);
    ClosingLetsGo(s, w);
    ClosedRow(s, w);
    hide Apply, Inv, Enabled, HoldersOwn;
    BuriedIsNotClaimed(t, a);
    forall es | Runnable(t, es) ensures CallsOf(Exec(t, es).calls, a) == CallsOf(s.calls, a) {
      BuriedForever(t, es, a);
    }
  }

  /** Failed for now: the action can be claimed again exactly as long as its release goes on for it. */
  lemma FailsForNow(s: System, w: nat, error: ErrorKind, t: System)
    requires Closing(s, w, error) && !GivesUp(error, s.runs[w].attempt)
    requires Enabled(s, Work(w, CloseFailure)) && t == Apply(s, Work(w, CloseFailure))
    requires Inv(s)
    ensures PutOff(s, t, s.runs[w].action)
  {
    var a := s.runs[w].action;
    assert HoldersOwn(s);
    StepKeepsInv(s, Work(w, CloseFailure));
    ClosingLetsGo(s, w);
    ClosedRow(s, w);
    hide Apply, Inv, Enabled, HoldersOwn;
    RetryIsClaimedIff(t, a);
  }

  lemma ClosedRow(s: System, w: nat)
    requires Enabled(s, Work(w, CloseFailure)) && s.runs[w].action in s.db.actions
    requires s.db.actions[s.runs[w].action].state == Sending
    ensures var a, t := s.runs[w].action, Apply(s, Work(w, CloseFailure));
      && a in t.db.actions
      && t.db.actions[a] ==
         s.db.actions[a].(state := if GivesUp(s.runs[w].pc.error, s.runs[w].attempt) then FailedPermanent else FailedTemporary)
  {}
}
