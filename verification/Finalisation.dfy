/** finalize_if_terminal, step by step and interrupted: who still has to finalise a closed scan, when nobody is
    left to do it, and when a written status is final. */
module Finalisation {
  import opened StageQueue
  import opened StageQueueSafety
  import opened StageQueueProgress
  import opened StageQueueWitness

  // ----- one call without interruption -----

  /** What a call of finalize_if_terminal leaves when nothing happens in between: refused while another process
      holds the lock. */
  function Called(s: Scan, reportFails: bool): Scan
    requires s.calls >= 1
  {
    var rest := s.(calls := s.calls - 1);
    if !s.lock.Free? then rest else Finalized(rest, reportFails)
  }

  function CalledDb(db: Db, s: ScanId, reportFails: bool): Db
    requires s in db.scans && db.scans[s].calls >= 1
  {
    db.(scans := db.scans[s := Called(db.scans[s], reportFails)])
  }

  ghost predicate OnlyFinalises(actions: seq<Action>) {
    forall k :: 0 <= k < |actions| ==> Finalises(actions[k])
  }

  lemma PrependCall(db: Db, a: Action, rest: seq<Action>)
    requires Enabled(db, a) && Finalises(a) && Legal(Apply(db, a), rest) && OnlyFinalises(rest)
    requires OneClock(Apply(db, a), rest)
    ensures Legal(db, [a] + rest) && After(db, [a] + rest) == After(Apply(db, a), rest)
    ensures OnlyFinalises([a] + rest) && OneClock(db, [a] + rest)
  {
    PrependClock(db, a, rest);
  }

  lemma CallIsARun(db: Db, s: ScanId, reportFails: bool) returns (actions: seq<Action>)
    requires s in db.scans && db.scans[s].calls >= 1
    ensures Legal(db, actions) && After(db, actions) == CalledDb(db, s, reportFails)
    ensures OnlyFinalises(actions) && OneClock(db, actions)
  {
    OnScan(db, TakeLock(s), s);
    var locked := Apply(db, TakeLock(s));
    var rest := [];
    if db.scans[s].lock.Free? {
      rest := LockedIsARun(locked, s, reportFails);
    } else {
      assert locked == CalledDb(db, s, reportFails);
    }
    assert After(locked, rest) == CalledDb(db, s, reportFails) by {
      assert locked.scans[s := After(locked, rest).scans[s]] == db.scans[s := After(locked, rest).scans[s]];
    }
    PrependCall(db, TakeLock(s), rest);
    actions := [TakeLock(s)] + rest;
  }

  lemma LockedIsARun(db: Db, s: ScanId, reportFails: bool) returns (actions: seq<Action>)
    requires s in db.scans && db.scans[s].lock.Entered?
    ensures Legal(db, actions) && OnlyFinalises(actions) && OneClock(db, actions)
    ensures After(db, actions) == db.(scans := db.scans[s := Finalized(db.scans[s].(lock := Free), reportFails)])
  {
    OnScan(db, ReadRows(s), s);
    var read := Apply(db, ReadRows(s));
    hide Apply, Enabled, Outcome, AllTerminal;
    var rest;
    if read.scans[s].lock.Decided? {
      rest := DecidedIsARun(read, s, reportFails);
    } else {
      rest := ReleaseIsARun(read, s);
    }
    PrependCall(db, ReadRows(s), rest);
    actions := [ReadRows(s)] + rest;
  }

  lemma DecidedIsARun(db: Db, s: ScanId, reportFails: bool) returns (actions: seq<Action>)
    requires s in db.scans && db.scans[s].lock.Decided?
    ensures Legal(db, actions) && OnlyFinalises(actions) && OneClock(db, actions)
    ensures var status := if reportFails then Partial else db.scans[s].lock.outcome;
            After(db, actions) == db.(scans := db.scans[s := db.scans[s].(status := status, lock := Free)])
  {
    OnScan(db, WriteStatus(s), s);
    var written := Apply(db, WriteStatus(s));
    OnScan(written, FinishReport(s, reportFails), s);
    var reported := Apply(written, FinishReport(s, reportFails));
    hide Apply, Enabled;
    var rest := ReleaseIsARun(reported, s);
    PrependCall(written, FinishReport(s, reportFails), rest);
    rest := [FinishReport(s, reportFails)] + rest;
    PrependCall(db, WriteStatus(s), rest);
    actions := [WriteStatus(s)] + rest;
  }

  lemma ReleaseIsARun(db: Db, s: ScanId) returns (actions: seq<Action>)
    requires s in db.scans && !db.scans[s].lock.Free?
    ensures Legal(db, actions) && OnlyFinalises(actions) && OneClock(db, actions)
    ensures After(db, actions) == db.(scans := db.scans[s := db.scans[s].(lock := Free)])
  {
    OnScan(db, Unlock(s), s);
    PrependCall(db, Unlock(s), []);
    actions := [Unlock(s)] + [];
  }

  // ----- a closed scan without a finaliser -----

  /** All stages are closed and the scan still counts as active, but no process is left that will finalise it: no
      call is due, nobody is about to cancel what waits, and the lock is free or its holder has read the rows
      too early. */
  predicate Orphaned(s: Scan) {
    && s.status.Active() && AllTerminal(s.stages)
    && s.calls == 0 && !AnyUnswept(s.stages) && (s.lock.Free? || s.lock.Leaving?)
  }

  /** An operator, or a runner that reports late. */
  predicate Revives(a: Action, s: ScanId) {
    (a.CancelScan? || a.Finish?) && a.scan == s
  }

  ghost predicate LeftAlone(actions: seq<Action>, s: ScanId) {
    forall k :: 0 <= k < |actions| ==> !Revives(actions[k], s)
  }

  /** Steps that touch every scan, or another one, leave a closed scan alone. */
  lemma ClosedScanUntouched(db: Db, a: Action, s: ScanId)
    requires Enabled(db, a) && s in db.scans && AllTerminal(db.scans[s].stages) && !(OnOneScan(a) && a.scan == s)
    ensures s in Apply(db, a).scans && Apply(db, a).scans[s] == db.scans[s]
  {
    var scan := db.scans[s];
    if a.CloseOverdueStages? {
      NothingTimesOut(scan, db.now);
    } else if a.RequeueExpiredStages? {
      assert RequeueExpired(scan.stages, db.now) == scan.stages;
    }
  }

  lemma OrphanedStep(db: Db, a: Action, s: ScanId)
    requires Inv(db) && Enabled(db, a) && s in db.scans && Orphaned(db.scans[s]) && !Revives(a, s)
    ensures s in Apply(db, a).scans && Orphaned(Apply(db, a).scans[s])
  {
    var scan := db.scans[s];
    assert ScanInv(scan);
    if OnOneScan(a) && a.scan == s {
      assert Apply(db, a).scans[s] == StepScan(scan, a, db.now);
      if a.Heartbeat? || a.RenewLease? {
        SameButLeases(scan, StepScan(scan, a, db.now));
      }
    } else {
      ClosedScanUntouched(db, a, s);
    }
  }

  lemma {:induction false} OrphanStaysOrphaned(db: Db, actions: seq<Action>, s: ScanId)
    requires Inv(db) && Legal(db, actions) && s in db.scans && Orphaned(db.scans[s]) && LeftAlone(actions, s)
    ensures s in After(db, actions).scans && Orphaned(After(db, actions).scans[s])
    decreases |actions|
  {
    hide Inv, Apply, Enabled, Orphaned;
    if actions != [] {
      assert !Revives(actions[0], s);
      OrphanedStep(db, actions[0], s);
      StepKeeps(db, actions[0]);
      assert forall k :: 0 <= k < |actions[1..]| ==> actions[1..][k] == actions[k + 1];
      OrphanStaysOrphaned(Apply(db, actions[0]), actions[1..], s);
    }
  }

  ghost predicate EndsBy(db: Db, actions: seq<Action>, s: ScanId) {
    && Legal(db, actions) && LeftAlone(actions, s)
    && s in After(db, actions).scans && !After(db, actions).scans[s].status.Active()
  }

  lemma PrependEnd(db: Db, a: Action, s: ScanId, rest: seq<Action>)
    requires Enabled(db, a) && !Revives(a, s) && EndsBy(Apply(db, a), rest, s)
    ensures EndsBy(db, [a] + rest, s)
  {
    Prepend(db, a, rest);
  }

  lemma DecidedCanEnd(db: Db, s: ScanId) returns (actions: seq<Action>)
    requires Inv(db) && s in db.scans && db.scans[s].lock.Decided?
    ensures EndsBy(db, actions, s)
  {
    assert ScanInv(db.scans[s]);
    OnScan(db, WriteStatus(s), s);
    assert EndsBy(Apply(db, WriteStatus(s)), [], s);
    PrependEnd(db, WriteStatus(s), s, []);
    actions := [WriteStatus(s)] + [];
  }

  lemma EnteredCanEnd(db: Db, s: ScanId) returns (actions: seq<Action>)
    requires Inv(db) && s in db.scans && db.scans[s].lock.Entered? && AllTerminal(db.scans[s].stages)
    ensures EndsBy(db, actions, s)
  {
    assert ScanInv(db.scans[s]);
    OnScan(db, ReadRows(s), s);
    StepKeeps(db, ReadRows(s));
    actions := DecidedCanEnd(Apply(db, ReadRows(s)), s);
    PrependEnd(db, ReadRows(s), s, actions);
    actions := [ReadRows(s)] + actions;
  }

  lemma FreeCanEnd(db: Db, s: ScanId) returns (actions: seq<Action>)
    requires Inv(db) && s in db.scans && db.scans[s].lock.Free? && AllTerminal(db.scans[s].stages)
    requires db.scans[s].calls >= 1
    ensures EndsBy(db, actions, s)
  {
    OnScan(db, TakeLock(s), s);
    StepKeeps(db, TakeLock(s));
    actions := EnteredCanEnd(Apply(db, TakeLock(s)), s);
    PrependEnd(db, TakeLock(s), s, actions);
    actions := [TakeLock(s)] + actions;
  }

  lemma CalledCanEnd(db: Db, s: ScanId) returns (actions: seq<Action>)
    requires Inv(db) && s in db.scans && (db.scans[s].lock.Free? || db.scans[s].lock.Leaving?)
    requires AllTerminal(db.scans[s].stages) && db.scans[s].calls >= 1
    ensures EndsBy(db, actions, s)
  {
    if db.scans[s].lock.Free? {
      actions := FreeCanEnd(db, s);
    } else {
      OnScan(db, Unlock(s), s);
      StepKeeps(db, Unlock(s));
      actions := FreeCanEnd(Apply(db, Unlock(s)), s);
      PrependEnd(db, Unlock(s), s, actions);
      actions := [Unlock(s)] + actions;
    }
  }

  lemma SweepKeepsClosed(s: Scan, i: nat)
    requires AllTerminal(s.stages) && i < |s.stages| && s.stages[i].unswept >= 1
    ensures AllTerminal(SweepBehind(s.stages, i))
  {
  }

  lemma UnsweptCanEnd(db: Db, s: ScanId) returns (actions: seq<Action>)
    requires Inv(db) && s in db.scans && (db.scans[s].lock.Free? || db.scans[s].lock.Leaving?)
    requires AllTerminal(db.scans[s].stages) && AnyUnswept(db.scans[s].stages)
    ensures EndsBy(db, actions, s)
  {
    var i :| 0 <= i < |db.scans[s].stages| && db.scans[s].stages[i].unswept >= 1;
    var sweep := CancelPending(s, i);
    OnScan(db, sweep, s);
    StepKeeps(db, sweep);
    SweepKeepsClosed(db.scans[s], i);
    hide Inv, Apply, Enabled, ScanEvolves, SweepBehind, AllTerminal, AnyUnswept;
    actions := CalledCanEnd(Apply(db, sweep), s);
    PrependEnd(db, sweep, s, actions);
    actions := [sweep] + actions;
  }

  /** A closed scan that is still active can end, with neither an operator nor a late report, exactly when it is not
      orphaned. */
  lemma ClosedScanCanEndExactlyUnlessOrphaned(db: Db, s: ScanId)
    requires Inv(db) && s in db.scans && AllTerminal(db.scans[s].stages) && db.scans[s].status.Active()
    ensures (exists actions :: EndsBy(db, actions, s)) <==> !Orphaned(db.scans[s])
  {
    var scan := db.scans[s];
    if Orphaned(scan) {
      forall actions | Legal(db, actions) && LeftAlone(actions, s)
        ensures !EndsBy(db, actions, s)
      {
        OrphanStaysOrphaned(db, actions, s);
      }
    } else {
      assert ScanInv(scan);
      var actions;
      if scan.lock.Decided? {
        actions := DecidedCanEnd(db, s);
      } else if scan.lock.Entered? {
        actions := EnteredCanEnd(db, s);
      } else if scan.calls >= 1 {
        actions := CalledCanEnd(db, s);
      } else {
        actions := UnsweptCanEnd(db, s);
      }
    }
  }

  // ----- how a scan is orphaned -----

  /** The last call that is due is refused by a holder that has read the rows too early, or the last process that
      could finalise the scan dies with the lock. */
  predicate LosesFinaliser(s: Scan, a: Action) {
    && s.status.Active() && AllTerminal(s.stages) && !AnyUnswept(s.stages)
    && ((a.TakeLock? && s.calls == 1 && s.lock.Leaving?)
        || (a.Unlock? && s.calls == 0 && (s.lock.Entered? || s.lock.Decided?)))
  }

  predicate LosesFinaliserOf(db: Db, a: Action, s: ScanId) {
    s in db.scans && (a.TakeLock? || a.Unlock?) && a.scan == s && LosesFinaliser(db.scans[s], a)
  }

  predicate OrphanedAt(db: Db, s: ScanId) {
    s in db.scans && Orphaned(db.scans[s])
  }

  lemma SomethingTimedOut(s: Scan, now: Time)
    requires !AllTerminal(s.stages) && AllTerminal(CloseOverdue(s.stages, now))
    ensures TimedOutScan(s, now).calls >= 1
  {
    var i :| 0 <= i < |s.stages| && !s.stages[i].status.Terminal();
    assert CloseOverdue(s.stages, now)[i].status.Terminal();
    assert Overdue(s.stages[i], now);
    var closed := set k | 0 <= k < |s.stages| && Overdue(s.stages[k], now);
    assert Timeouts(s.stages, now) == |closed| && i in closed && |closed| == |closed - {i}| + 1;
  }

  lemma FinishLeavesSomebody(s: Scan, i: nat, st: StageStatus, now: Time)
    requires ScanInv(s) && OutWith(s, i) && RunnerStatus(st) && (st.Cancelled? ==> s.cancelRequested)
    ensures !Orphaned(StepScan(s, Finish(0, i, st), now))
  {
    if st.Cancelled? {
      var after := FinishAt(s.stages, i, st);
      assert after[i].unswept >= 1;
    }
  }

  lemma ScanStepOrphans(s: Scan, a: Action, now: Time)
    requires ScanInv(s) && OnOneScan(a) && ScanEnabled(s, a) && !Orphaned(s)
    ensures Orphaned(StepScan(s, a, now)) <==> LosesFinaliser(s, a)
  {
    match a
    case Finish(_, i, st) => FinishLeavesSomebody(s, i, st, now);
    case CancelScan(_) => CancelLeavesNoOrphan(s);
    case Claim(_, i, _) => assert StepScan(s, a, now).stages[i].status.Running?;
    case Heartbeat(_, i) => SameButLeases(s, StepScan(s, a, now));
    case RenewLease(_, i) => SameButLeases(s, StepScan(s, a, now));
    case CancelPending(_, _) =>
    case _ => FinaliseStepOrphans(s, a, now);
  }

  lemma FinaliseStepOrphans(s: Scan, a: Action, now: Time)
    requires ScanInv(s) && Finalises(a) && ScanEnabled(s, a) && !Orphaned(s)
    ensures Orphaned(StepScan(s, a, now)) <==> LosesFinaliser(s, a)
  {
    hide AllTerminal, AnyUnswept, Outcome;
  }

  lemma SameButLeases(s: Scan, s': Scan)
    requires |s'.stages| == |s.stages| && s' == s.(stages := s'.stages)
    requires forall i :: 0 <= i < |s.stages| ==> s'.stages[i] == s.stages[i].(lease := s'.stages[i].lease)
    ensures Orphaned(s') <==> Orphaned(s)
  {
    if AnyUnswept(s.stages) {
      var i :| 0 <= i < |s.stages| && s.stages[i].unswept >= 1;
      assert s'.stages[i].unswept >= 1;
    }
  }

  lemma CancelLeavesNoOrphan(s: Scan)
    requires s.status.Active()
    ensures !Orphaned(CancelledScan(s))
  {
  }

  /** A scan becomes orphaned in these two ways and in no other. */
  lemma OrphanedExactlyBy(db: Db, a: Action, s: ScanId)
    requires Inv(db) && Enabled(db, a) && !OrphanedAt(db, s)
    ensures OrphanedAt(Apply(db, a), s) <==> LosesFinaliserOf(db, a, s)
  {
    hide Inv, Orphaned, ScanInv, StepScan, TimedOutScan, RequeueExpired;
    if s in db.scans {
      var scan := db.scans[s];
      ScanHasInv(db, s);
      if OnOneScan(a) && a.scan == s {
        OnScan(db, a, s);
        hide Apply, Enabled;
        ScanStepOrphans(scan, a, db.now);
      } else {
        WideStepOrphansNothing(scan, db.now);
      }
    } else if a.Enqueue? && a.scan == s {
      NewScanHasWork(a.assessment, a.plan, db.now);
    }
  }

  lemma NewScanHasWork(assessment: AssessmentId, plan: seq<PlanStage>, now: Time)
    requires ValidPlan(plan)
    ensures !Orphaned(NewScan(assessment, plan, now))
  {
    assert NewScan(assessment, plan, now).stages[0].status.Queued?;
  }

  lemma WideStepOrphansNothing(s: Scan, now: Time)
    requires ScanInv(s) && !Orphaned(s)
    ensures !Orphaned(TimedOutScan(s, now))
    ensures !Orphaned(s.(stages := RequeueExpired(s.stages, now)))
  {
    if AllTerminal(s.stages) {
      NothingTimesOut(s, now);
      assert RequeueExpired(s.stages, now) == s.stages;
    } else {
      if AllTerminal(CloseOverdue(s.stages, now)) {
        SomethingTimedOut(s, now);
      }
      var i :| 0 <= i < |s.stages| && !s.stages[i].status.Terminal();
      assert !RequeueExpired(s.stages, now)[i].status.Terminal();
    }
  }

  ghost predicate NeverOrphaned(db: Db, actions: seq<Action>, s: ScanId)
    requires Legal(db, actions)
    decreases |actions|
  {
    !OrphanedAt(db, s) && (actions != [] ==> NeverOrphaned(Apply(db, actions[0]), actions[1..], s))
  }

  ghost predicate NoFinaliserLost(db: Db, actions: seq<Action>, s: ScanId)
    requires Legal(db, actions)
    decreases |actions|
  {
    actions == [] || (!LosesFinaliserOf(db, actions[0], s) && NoFinaliserLost(Apply(db, actions[0]), actions[1..], s))
  }

  /** So a closed scan has a finaliser throughout a run exactly when no last call is refused too early and no
      last finaliser dies with the lock. */
  lemma {:induction false} NeverOrphanedExactlyWhen(db: Db, actions: seq<Action>, s: ScanId)
    requires Inv(db) && Legal(db, actions) && !OrphanedAt(db, s)
    ensures NeverOrphaned(db, actions, s) <==> NoFinaliserLost(db, actions, s)
    decreases |actions|
  {
    hide Inv, Apply, Enabled, OrphanedAt, LosesFinaliserOf;
    if actions != [] {
      OrphanedExactlyBy(db, actions[0], s);
      StepKeeps(db, actions[0]);
      if !LosesFinaliserOf(db, actions[0], s) {
        NeverOrphanedExactlyWhen(Apply(db, actions[0]), actions[1..], s);
      }
    }
  }

  // ----- what an orphaned scan means for its assessment -----

  /** However the run goes on, the scan stays active with everything closed, and no other scan of its
      assessment can be queued. */
  ghost predicate Blocked(db: Db, later: seq<Action>, s: ScanId)
    requires Legal(db, later) && s in db.scans
  {
    var end := After(db, later);
    && s in end.scans && end.scans[s].status.Active() && AllTerminal(end.scans[s].stages)
    && forall t, plan :: !Enabled(end, Enqueue(t, db.scans[s].assessment, plan))
  }

  lemma OrphanBlocksItsAssessment(db: Db, later: seq<Action>, s: ScanId)
    requires Inv(db) && OrphanedAt(db, s) && Legal(db, later) && LeftAlone(later, s)
    ensures Blocked(db, later, s)
  {
    OrphanStaysOrphaned(db, later, s);
    RunKeeps(db, later);
    var end := After(db, later);
    assert ScanEvolves(db.scans[s], end.scans[s]);
    assert HasActiveScan(end, db.scans[s].assessment);
  }

  /** An operator ends it at once. */
  lemma CancellingEndsAnOrphan(db: Db, s: ScanId)
    requires OrphanedAt(db, s)
    ensures Enabled(db, CancelScan(s)) && s in Apply(db, CancelScan(s)).scans
    ensures Apply(db, CancelScan(s)).scans[s].status.Cancelled?
  {
    assert !AnyRunning(db.scans[s].stages);
  }

  // ----- runs that orphan a scan -----

  /** The lock is let go only by a holder that is done with it. */
  ghost predicate NobodyDies(db: Db, actions: seq<Action>)
    requires Legal(db, actions)
    decreases |actions|
  {
    actions == [] || ((actions[0].Unlock? ==> db.scans[actions[0].scan].lock.Leaving?)
                      && NobodyDies(Apply(db, actions[0]), actions[1..]))
  }

  /** A run to a single scan, in which a holder may die or not. */
  ghost predicate Reaches(actions: seq<Action>, scan: Scan, died: bool) {
    Legal(EMPTY, actions) && After(EMPTY, actions) == Single(0, scan) && (NobodyDies(EMPTY, actions) <==> !died)
  }

  lemma {:induction false} ExtendNobodyDies(db: Db, actions: seq<Action>, a: Action)
    requires Legal(db, actions) && Enabled(After(db, actions), a)
    ensures Legal(db, actions + [a])
    ensures NobodyDies(db, actions + [a]) <==>
            NobodyDies(db, actions) && (a.Unlock? ==> After(db, actions).scans[a.scan].lock.Leaving?)
    decreases |actions|
  {
    Extend(db, actions, a);
    if actions == [] {
      assert [] + [a] == [a] && [a][1..] == [];
    } else {
      assert (actions + [a])[0] == actions[0] && (actions + [a])[1..] == actions[1..] + [a];
      ExtendNobodyDies(Apply(db, actions[0]), actions[1..], a);
    }
  }

  lemma Reach(before: seq<Action>, scan: Scan, died: bool, a: Action) returns (actions: seq<Action>)
    requires Reaches(before, scan, died) && OnOneScan(a) && a.scan == 0 && ScanEnabled(scan, a)
    ensures Reaches(actions, StepScan(scan, a, 0), died || (a.Unlock? && !scan.lock.Leaving?))
    ensures actions == before + [a]
  {
    var db := Single(0, scan);
    OnScan(db, a, 0);
    SingleIs(Apply(db, a), 0, StepScan(scan, a, 0));
    Extend(EMPTY, before, a);
    ExtendNobodyDies(EMPTY, before, a);
    actions := before + [a];
  }

  lemma ReachQueued(plan: seq<PlanStage>) returns (actions: seq<Action>)
    requires ValidPlan(plan)
    ensures Reaches(actions, NewScan(0, plan, 0), false)
  {
    var enqueue := Enqueue(0, 0, plan);
    SingleIs(Apply(EMPTY, enqueue), 0, NewScan(0, plan, 0));
    Extend(EMPTY, [], enqueue);
    ExtendNobodyDies(EMPTY, [], enqueue);
    actions := [] + [enqueue];
  }

  /** The scan after its only runner claimed and finished the stage at position `i`. */
  function WorkedOff(s: Scan, i: nat): Scan
    requires Claimable(s, i)
  {
    var row := Reported(Claimed(s.stages[i], RUNNER, 0), StageStatus.Succeeded);
    s.(status := ScanStatus.Running, stages := s.stages[i := row], calls := s.calls + 1)
  }

  lemma ReachWorkedOff(before: seq<Action>, scan: Scan, i: nat) returns (actions: seq<Action>)
    requires Reaches(before, scan, false) && Claimable(scan, i)
    ensures Reaches(actions, WorkedOff(scan, i), false)
  {
    actions := Reach(before, scan, false, Claim(0, i, RUNNER));
    var running := StepScan(scan, Claim(0, i, RUNNER), 0);
    var end := Finish(0, i, StageStatus.Succeeded);
    actions := Reach(actions, running, false, end);
    assert StepScan(running, end, 0).stages == WorkedOff(scan, i).stages;
  }

  /** For every plan of one stage: its runner finishes the stage, takes the lock and dies. The scan is closed and
      nobody is left to finalise it. */
  lemma DeadFinaliserOrphans(p: PlanStage) returns (actions: seq<Action>)
    requires 1 <= p.timeout <= 86400
    ensures Legal(EMPTY, actions) && OrphanedAt(After(EMPTY, actions), 0)
    ensures forall later :: Legal(After(EMPTY, actions), later) && LeftAlone(later, 0)
                            ==> Blocked(After(EMPTY, actions), later, 0)
  {
    actions := ReachQueued([p]);
    var scan := NewScan(0, [p], 0);
    actions := ReachWorkedOff(actions, scan, 0);
    scan := WorkedOff(scan, 0);
    actions := Reach(actions, scan, false, TakeLock(0));
    scan := StepScan(scan, TakeLock(0), 0);
    actions := Reach(actions, scan, false, Unlock(0));
    BlockedFromHere(actions);
  }

  lemma BlockedFromHere(actions: seq<Action>)
    requires Legal(EMPTY, actions) && OrphanedAt(After(EMPTY, actions), 0)
    ensures forall later :: Legal(After(EMPTY, actions), later) && LeftAlone(later, 0)
                            ==> Blocked(After(EMPTY, actions), later, 0)
  {
    RunKeeps(EMPTY, actions);
    forall later | Legal(After(EMPTY, actions), later) && LeftAlone(later, 0)
      ensures Blocked(After(EMPTY, actions), later, 0)
    {
      OrphanBlocksItsAssessment(After(EMPTY, actions), later, 0);
    }
  }

  /** It also happens without any death. The runner of the first stage reads the rows while the second stage
      waits; before it lets the lock go, another runner works the second stage off and is refused. */
  lemma RefusedFinaliserOrphans(p: PlanStage, q: PlanStage) returns (actions: seq<Action>)
    requires ValidPlan([p, q])
    ensures Legal(EMPTY, actions) && NobodyDies(EMPTY, actions) && OrphanedAt(After(EMPTY, actions), 0)
    ensures After(EMPTY, actions).scans[0].lock.Free?
    ensures forall later :: Legal(After(EMPTY, actions), later) && LeftAlone(later, 0)
                            ==> Blocked(After(EMPTY, actions), later, 0)
  {
    var scan;
    actions, scan := ReachEarlyReader(p, q);
    hide ValidPlan;
    actions := ReachWorkedOff(actions, scan, 1);
    scan := WorkedOff(scan, 1);
    actions := Reach(actions, scan, false, TakeLock(0));
    scan := StepScan(scan, TakeLock(0), 0);
    actions := Reach(actions, scan, false, Unlock(0));
    BlockedFromHere(actions);
  }

  /** The first runner has read the rows and is about to let go, and the second stage can be claimed. */
  lemma ReachEarlyReader(p: PlanStage, q: PlanStage) returns (actions: seq<Action>, scan: Scan)
    requires ValidPlan([p, q])
    ensures Reaches(actions, scan, false) && scan.lock.Leaving? && scan.calls == 0 && Claimable(scan, 1)
    ensures |scan.stages| == 2 && scan.stages[0].status.Terminal()
    ensures scan.stages[0].unswept == scan.stages[1].unswept == 0
  {
    actions := ReachQueued([p, q]);
    scan := NewScan(0, [p, q], 0);
    actions := ReachWorkedOff(actions, scan, 0);
    scan := WorkedOff(scan, 0);
    hide Reaches, ValidPlan, NewScan;
    actions := Reach(actions, scan, false, TakeLock(0));
    scan := StepScan(scan, TakeLock(0), 0);
    actions := Reach(actions, scan, false, ReadRows(0));
    assert scan.stages[1].status.Queued?;
    scan := StepScan(scan, ReadRows(0), 0);
  }

  // ----- when the status of a finished scan is final -----

  /** Every runner has reported and swept, no call is due, and nobody is about to write. */
  predicate Retired(s: Scan) {
    && s.calls == 0 && (s.lock.Free? || s.lock.Leaving?)
    && forall i :: 0 <= i < |s.stages| ==> s.stages[i].unreported == 0 && s.stages[i].unswept == 0
  }

  /** No runner that starts up finds the report of the scan missing. */
  ghost predicate ReportFound(actions: seq<Action>, s: ScanId) {
    forall k :: 0 <= k < |actions| ==> actions[k] != FindReportMissing(s)
  }

  lemma RetiredStep(db: Db, a: Action, s: ScanId)
    requires Inv(db) && Enabled(db, a) && s in db.scans && !db.scans[s].status.Active() && Retired(db.scans[s])
    requires a != FindReportMissing(s)
    ensures s in Apply(db, a).scans && Retired(Apply(db, a).scans[s])
    ensures Apply(db, a).scans[s].status == db.scans[s].status
  {
    assert ScanInv(db.scans[s]);
    if OnOneScan(a) && a.scan == s {
      OnScan(db, a, s);
    } else {
      ClosedScanUntouched(db, a, s);
    }
  }

  ghost predicate StatusKept(db: Db, actions: seq<Action>, s: ScanId)
    requires Legal(db, actions) && s in db.scans
  {
    s in After(db, actions).scans && After(db, actions).scans[s].status == db.scans[s].status
  }

  lemma {:induction false} RetiredKeepsStatus(db: Db, actions: seq<Action>, s: ScanId)
    requires Inv(db) && Legal(db, actions) && s in db.scans && !db.scans[s].status.Active() && Retired(db.scans[s])
    requires ReportFound(actions, s)
    ensures StatusKept(db, actions, s)
    decreases |actions|
  {
    hide Inv, Apply, Enabled, Retired;
    if actions != [] {
      RetiredStep(db, actions[0], s);
      StepKeeps(db, actions[0]);
      assert forall k :: 0 <= k < |actions[1..]| ==> actions[1..][k] == actions[k + 1];
      RetiredKeepsStatus(Apply(db, actions[0]), actions[1..], s);
    }
  }

  ghost predicate TurnsPartial(db: Db, actions: seq<Action>, s: ScanId) {
    && Legal(db, actions) && ReportFound(actions, s)
    && s in After(db, actions).scans && After(db, actions).scans[s].status.Partial?
  }

  lemma PrependTurn(db: Db, a: Action, s: ScanId, rest: seq<Action>) returns (actions: seq<Action>)
    requires Enabled(db, a) && a != FindReportMissing(s) && TurnsPartial(Apply(db, a), rest, s)
    ensures TurnsPartial(db, actions, s)
  {
    Prepend(db, a, rest);
    actions := [a] + rest;
  }

  /** A holder of the lock that has not let go yet can still fail to write the report. */
  lemma HolderCanTurn(db: Db, s: ScanId) returns (actions: seq<Action>)
    requires Inv(db) && s in db.scans && AllTerminal(db.scans[s].stages)
    requires db.scans[s].lock.Entered? || db.scans[s].lock.Decided? || db.scans[s].lock.Written?
    ensures TurnsPartial(db, actions, s)
    decreases if db.scans[s].lock.Entered? then 2 else if db.scans[s].lock.Decided? then 1 else 0
  {
    var scan := db.scans[s];
    var a := if scan.lock.Entered? then ReadRows(s) else if scan.lock.Decided? then WriteStatus(s)
             else FinishReport(s, true);
    assert ScanInv(scan);
    OnScan(db, a, s);
    StepKeeps(db, a);
    hide Inv, Apply, Enabled;
    var rest := [];
    if !scan.lock.Written? {
      rest := HolderCanTurn(Apply(db, a), s);
    }
    actions := PrependTurn(db, a, s, rest);
  }

  lemma CallCanTurn(db: Db, s: ScanId) returns (actions: seq<Action>)
    requires Inv(db) && s in db.scans && AllTerminal(db.scans[s].stages)
    requires db.scans[s].calls >= 1 && (db.scans[s].lock.Free? || db.scans[s].lock.Leaving?)
    ensures TurnsPartial(db, actions, s)
    decreases if db.scans[s].lock.Free? then 0 else 1
  {
    var scan := db.scans[s];
    var a := if scan.lock.Free? then TakeLock(s) else Unlock(s);
    OnScan(db, a, s);
    StepKeeps(db, a);
    hide Inv, Apply, Enabled;
    var rest;
    if scan.lock.Free? {
      rest := HolderCanTurn(Apply(db, a), s);
    } else {
      rest := CallCanTurn(Apply(db, a), s);
    }
    actions := PrependTurn(db, a, s, rest);
  }

  lemma RunnerCanTurn(db: Db, s: ScanId, i: nat) returns (actions: seq<Action>)
    requires Inv(db) && HasStage(db, s, i) && !db.scans[s].status.Active()
    requires db.scans[s].lock.Free? || db.scans[s].lock.Leaving?
    requires db.scans[s].stages[i].unreported >= 1 || db.scans[s].stages[i].unswept >= 1
    ensures TurnsPartial(db, actions, s)
  {
    var scan := db.scans[s];
    assert ScanInv(scan);
    var a := if scan.stages[i].unreported >= 1 then Finish(s, i, StageStatus.Failed) else CancelPending(s, i);
    OnScan(db, a, s);
    StepKeeps(db, a);
    assert ScanEvolves(scan, Apply(db, a).scans[s]);
    assert ScanInv(Apply(db, a).scans[s]);
    hide Inv, Apply, Enabled;
    var rest := CallCanTurn(Apply(db, a), s);
    actions := PrependTurn(db, a, s, rest);
  }

  /** Once its report is there, the status of a finished scan is final when everybody is done with it; and unless it
      is partial already it is final exactly then, because each process that is not done can still turn it partial. */
  lemma FinishedStatusIsFinalExactlyWhen(db: Db, s: ScanId)
    requires Inv(db) && s in db.scans && !db.scans[s].status.Active()
    ensures Retired(db.scans[s])
            ==> forall actions :: Legal(db, actions) && ReportFound(actions, s) ==> StatusKept(db, actions, s)
    ensures !db.scans[s].status.Partial? && !Retired(db.scans[s])
            ==> exists actions :: TurnsPartial(db, actions, s)
  {
    var scan := db.scans[s];
    assert ScanInv(scan);
    if Retired(scan) {
      forall actions | Legal(db, actions) && ReportFound(actions, s)
        ensures StatusKept(db, actions, s)
      {
        RetiredKeepsStatus(db, actions, s);
      }
    } else {
      var actions;
      if scan.lock.Entered? || scan.lock.Decided? || scan.lock.Written? {
        actions := HolderCanTurn(db, s);
      } else if scan.calls >= 1 {
        actions := CallCanTurn(db, s);
      } else {
        var i :| 0 <= i < |scan.stages| && (scan.stages[i].unreported != 0 || scan.stages[i].unswept != 0);
        actions := RunnerCanTurn(db, s, i);
      }
    }
  }

  /** A cancellation that the operator was told is done is overwritten by a finaliser that read the rows before. */
  lemma CancellationIsOverwritten(p: PlanStage) returns (before: seq<Action>, actions: seq<Action>)
    requires 1 <= p.timeout <= 86400
    ensures Legal(EMPTY, before) && 0 in After(EMPTY, before).scans
    ensures After(EMPTY, before).scans[0].status.Cancelled?
    ensures Legal(EMPTY, actions) && before <= actions && 0 in After(EMPTY, actions).scans
    ensures After(EMPTY, actions).scans[0].status.Complete? && After(EMPTY, actions).scans[0].cancelRequested
  {
    var scan;
    before, scan := ReachDecided(p);
    before := Reach(before, scan, false, CancelScan(0));
    assert !AnyRunning(scan.stages);
    scan := StepScan(scan, CancelScan(0), 0);
    actions := Reach(before, scan, false, WriteStatus(0));
  }

  lemma ReachDecided(p: PlanStage) returns (actions: seq<Action>, scan: Scan)
    requires 1 <= p.timeout <= 86400
    ensures Reaches(actions, scan, false) && scan.lock == Decided(Complete)
    ensures scan.status.Active() && AllTerminal(scan.stages)
  {
    hide Reaches, StepScan;
    scan := NewScan(0, [p], 0);
    assert Claimable(scan, 0);
    actions := ReachQueued([p]);
    actions := ReachWorkedOff(actions, scan, 0);
    var closed := WorkedOff(scan, 0);
    assert AllTerminal(closed.stages) && Outcome(closed.stages) == Complete;
    actions, scan := ReachRead(actions, closed);
  }

  lemma ReachRead(before: seq<Action>, closed: Scan) returns (actions: seq<Action>, scan: Scan)
    requires Reaches(before, closed, false) && closed.calls >= 1 && closed.lock.Free?
    requires closed.stages != [] && AllTerminal(closed.stages)
    ensures Reaches(actions, scan, false)
    ensures scan == closed.(calls := closed.calls - 1, lock := Decided(Outcome(closed.stages)))
  {
    hide Reaches, Outcome, AllTerminal;
    actions := Reach(before, closed, false, TakeLock(0));
    scan := StepScan(closed, TakeLock(0), 0);
    actions := Reach(actions, scan, false, ReadRows(0));
    scan := StepScan(scan, ReadRows(0), 0);
  }
}
