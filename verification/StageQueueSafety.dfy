/** What every step of the stage queue keeps, whatever the interleaving of runners, and
    what follows for whole runs. */
module StageQueueSafety {
  import opened Common
  import opened StageQueue

  // ----- the invariant -----

  predicate CoverageMatches(r: Stage) {
    r.coverage.status == CoverageOf(r.status) && r.coverage.required == r.required
  }

  ghost predicate RowInv(r: Stage) {
    && CoverageMatches(r)
    && (r.status.Running? ==> r.attempt >= 1)
    && (r.attempt >= 1 <==> r.startedAt.Some?)
    && r.timeout >= 1
    && r.unreported + r.unswept <= r.attempt
    && (!r.status.Terminal() ==> r.unreported == r.attempt)
  }

  /** A stage is claimed only once everything before it is closed. */
  ghost predicate InOrder(stages: seq<Stage>) {
    forall i, j :: 0 <= i < j < |stages| && stages[j].attempt >= 1 ==> stages[i].status.Terminal()
  }

  /** Some runner still has to cancel what waits behind the stage it finished as cancelled. */
  predicate AnyUnswept(stages: seq<Stage>) {
    exists i :: 0 <= i < |stages| && stages[i].unswept >= 1
  }

  ghost predicate ScanInv(s: Scan) {
    && s.stages != []
    && (forall i :: 0 <= i < |s.stages| ==> RowInv(s.stages[i]))
    && InOrder(s.stages)
    && (!s.status.Active() ==> AllTerminal(s.stages))
    && (s.status.Cancelled? || AnyCancelled(s.stages) || AnyUnswept(s.stages) ==> s.cancelRequested)
    && (s.lock.Decided? ==>
          AllTerminal(s.stages) && !s.lock.outcome.Active() && (s.lock.outcome.Cancelled? ==> s.cancelRequested))
    && (s.lock.Written? ==> !s.status.Active())
  }

  ghost predicate OneActivePerAssessment(db: Db) {
    forall s, t :: s in db.scans && t in db.scans && s != t
                   && db.scans[s].status.Active() && db.scans[t].status.Active()
                   ==> db.scans[s].assessment != db.scans[t].assessment
  }

  ghost predicate Inv(db: Db) {
    && (forall s :: s in db.scans ==> ScanInv(db.scans[s]))
    && OneActivePerAssessment(db)
  }

  // ----- what a step may do to one scan -----

  /** A step leaves a row's plan alone, never reopens a closed row and never forgets a claim. */
  ghost predicate RowEvolves(r: Stage, r': Stage) {
    && r'.adapter == r.adapter && r'.required == r.required && r'.timeout == r.timeout
    && (r.status.Terminal() ==> r'.status.Terminal() && r'.attempt == r.attempt)
    && r'.attempt >= r.attempt
    && (r.startedAt.Some? ==> r'.startedAt == r.startedAt)
  }

  ghost predicate ScanEvolves(s: Scan, s': Scan) {
    && s'.assessment == s.assessment
    && |s'.stages| == |s.stages|
    && (forall i :: 0 <= i < |s.stages| ==> RowEvolves(s.stages[i], s'.stages[i]))
    && (s.cancelRequested ==> s'.cancelRequested)
    && (s'.status.Active() ==> s.status.Active())
  }

  ghost predicate Evolves(db: Db, db': Db) {
    && db.now <= db'.now
    && forall s :: s in db.scans ==> s in db'.scans && ScanEvolves(db.scans[s], db'.scans[s])
  }

  lemma ClaimKeeps(s: Scan, i: nat, owner: Owner, now: Time)
    requires ScanInv(s) && Claimable(s, i)
    ensures var s' := s.(status := ScanStatus.Running, stages := s.stages[i := Claimed(s.stages[i], owner, now)]);
            ScanInv(s') && ScanEvolves(s, s')
  {
    var s' := s.(status := ScanStatus.Running, stages := s.stages[i := Claimed(s.stages[i], owner, now)]);
    assert s.status.Active() by {
      assert !AllTerminal(s.stages);
    }
    assert !AnyCancelled(s.stages);
    assert forall k :: 0 <= k < |s'.stages| ==> !s'.stages[k].status.Cancelled?;
  }

  lemma RowUpdateKeeps(s: Scan, i: nat, r: Stage)
    requires ScanInv(s) && i < |s.stages|
    requires RowInv(r) && RowEvolves(s.stages[i], r) && r.attempt == s.stages[i].attempt
    requires r.status.Cancelled? || r.unswept > s.stages[i].unswept ==> s.cancelRequested
    ensures var s' := s.(stages := s.stages[i := r]); ScanInv(s') && ScanEvolves(s, s')
  {
    RequestCovers(s, s.stages[i := r]);
    hide AnyCancelled, AnyUnswept;
  }

  lemma RequestCovers(s: Scan, stages: seq<Stage>)
    requires ScanInv(s) && |stages| == |s.stages|
    requires forall i :: 0 <= i < |stages| ==>
               stages[i].status.Cancelled? || stages[i].unswept >= 1 ==>
                 s.stages[i].status.Cancelled? || s.stages[i].unswept >= 1 || s.cancelRequested
    ensures AnyCancelled(stages) || AnyUnswept(stages) ==> s.cancelRequested
  {
  }

  /** Any rewriting of rows that keeps each row's invariant, its claims and its closure. */
  lemma RowsKeep(s: Scan, stages: seq<Stage>)
    requires ScanInv(s) && |stages| == |s.stages|
    requires forall i :: 0 <= i < |stages| ==>
               RowInv(stages[i]) && RowEvolves(s.stages[i], stages[i]) && stages[i].attempt == s.stages[i].attempt
    requires forall i :: 0 <= i < |stages| && stages[i].status.Cancelled? ==>
               s.stages[i].status.Cancelled? || s.cancelRequested
    requires forall i :: 0 <= i < |stages| ==> stages[i].unswept <= s.stages[i].unswept
    ensures var s' := s.(stages := stages); ScanInv(s') && ScanEvolves(s, s')
  {
    RequestCovers(s, stages);
    hide AnyCancelled, AnyUnswept;
  }

  lemma FinishKeeps(s: Scan, i: nat, st: StageStatus)
    requires ScanInv(s) && OutWith(s, i) && RunnerStatus(st) && (st.Cancelled? ==> s.cancelRequested)
    ensures forall calls: nat :: var s' := s.(stages := FinishAt(s.stages, i, st), calls := calls);
                                 ScanInv(s') && ScanEvolves(s, s')
  {
    var row := Reported(s.stages[i], st);
    assert RowInv(row) && RowEvolves(s.stages[i], row);
    RowUpdateKeeps(s, i, row);
    var closed := s.(stages := s.stages[i := row]);
    if BlocksDownstream(s.stages[i].adapter, st) {
      RowsKeep(closed, SweepFrom(closed.stages, i + 1, StageStatus.Blocked));
    }
    hide AnyCancelled, AnyUnswept, RowInv, InOrder;
  }

  lemma CancelKeeps(s: Scan)
    requires ScanInv(s) && s.status.Active()
    ensures ScanInv(CancelledScan(s)) && ScanEvolves(s, CancelledScan(s))
    ensures !CancelledScan(s).status.Active() <==> !AnyRunning(s.stages)
  {
    var requested := s.(cancelRequested := true);
    assert ScanInv(requested);
    if !AnyRunning(s.stages) {
      var swept := SweepFrom(s.stages, 0, StageStatus.Cancelled);
      RowsKeep(requested, swept);
      forall k | 0 <= k < |swept|
        ensures swept[k].status.Terminal()
      {
        assert !s.stages[k].status.Running?;
      }
    }
  }

  lemma FinaliseKeeps(s: Scan, a: Action, now: Time)
    requires ScanInv(s) && Finalises(a) && ScanEnabled(s, a)
    ensures ScanInv(StepScan(s, a, now)) && ScanEvolves(s, StepScan(s, a, now))
  {
  }

  /** A step that rewrites scans one by one keeps what holds of the whole database. */
  lemma ScansKeep(db: Db, db': Db)
    requires Inv(db) && db'.scans.Keys == db.scans.Keys && db'.now == db.now
    requires forall s :: s in db.scans ==> ScanInv(db'.scans[s]) && ScanEvolves(db.scans[s], db'.scans[s])
    ensures Inv(db') && Evolves(db, db')
  {
  }

  lemma OneScanKeeps(db: Db, s: ScanId, scan: Scan)
    requires Inv(db) && s in db.scans && ScanInv(scan) && ScanEvolves(db.scans[s], scan)
    ensures var db' := db.(scans := db.scans[s := scan]); Inv(db') && Evolves(db, db')
  {
    var db' := db.(scans := db.scans[s := scan]);
    assert db'.scans.Keys == db.scans.Keys;
    forall t | t in db.scans
      ensures ScanInv(db'.scans[t]) && ScanEvolves(db.scans[t], db'.scans[t])
    {
      if t != s {
        assert db'.scans[t] == db.scans[t];
      }
    }
    ScansKeep(db, db');
  }

  lemma EnqueueKeeps(db: Db, s: ScanId, assessment: AssessmentId, plan: seq<PlanStage>)
    requires Inv(db) && Enabled(db, Enqueue(s, assessment, plan))
    ensures Inv(Apply(db, Enqueue(s, assessment, plan))) && Evolves(db, Apply(db, Enqueue(s, assessment, plan)))
  {
    var db' := Apply(db, Enqueue(s, assessment, plan));
    assert ScanInv(db'.scans[s]);
    forall t | t in db.scans
      ensures db'.scans[t] == db.scans[t]
    {
    }
  }

  lemma SweepAllKeeps(db: Db, a: Action)
    requires Inv(db) && (a.CloseOverdueStages? || a.RequeueExpiredStages?)
    ensures Inv(Apply(db, a)) && Evolves(db, Apply(db, a))
  {
    var db' := Apply(db, a);
    forall s | s in db.scans
      ensures ScanInv(db'.scans[s]) && ScanEvolves(db.scans[s], db'.scans[s])
    {
      match a
      case CloseOverdueStages => CloseOverdueKeeps(db.scans[s], db.now);
      case RequeueExpiredStages => RequeueKeeps(db.scans[s], db.now);
    }
    hide ScanInv, ScanEvolves;
    ScansKeep(db, db');
  }

  lemma CloseOverdueKeeps(s: Scan, now: Time)
    requires ScanInv(s)
    ensures ScanInv(TimedOutScan(s, now)) && ScanEvolves(s, TimedOutScan(s, now))
  {
    RowsKeep(s, CloseOverdue(s.stages, now));
  }

  lemma RequeueKeeps(s: Scan, now: Time)
    requires ScanInv(s)
    ensures var s' := s.(stages := RequeueExpired(s.stages, now)); ScanInv(s') && ScanEvolves(s, s')
  {
    RowsKeep(s, RequeueExpired(s.stages, now));
  }

  lemma ScanStepKeeps(scan: Scan, a: Action, now: Time)
    requires ScanInv(scan) && OnOneScan(a) && ScanEnabled(scan, a)
    ensures ScanInv(StepScan(scan, a, now)) && ScanEvolves(scan, StepScan(scan, a, now))
  {
    match a
    case Claim(_, i, owner) => ClaimKeeps(scan, i, owner, now);
    case Heartbeat(_, i) => RenewKeeps(scan, i, now);
    case RenewLease(_, i) => RenewKeeps(scan, i, now);
    case Finish(_, i, st) => FinishKeeps(scan, i, st);
    case CancelPending(_, i) => SweepKeeps(scan, i);
    case CancelScan(_) => CancelKeeps(scan);
    case _ => FinaliseKeeps(scan, a, now);
  }

  lemma RenewKeeps(s: Scan, i: nat, now: Time)
    requires ScanInv(s) && OutWith(s, i)
    ensures var s' := s.(stages := s.stages[i := s.stages[i].(lease := Some(now + LEASE))]);
            ScanInv(s') && ScanEvolves(s, s')
    ensures ScanEvolves(s, s)
  {
    RowUpdateKeeps(s, i, s.stages[i].(lease := Some(now + LEASE)));
  }

  lemma SweepKeeps(s: Scan, i: nat)
    requires ScanInv(s) && i < |s.stages| && s.stages[i].unswept >= 1
    ensures var s' := s.(stages := SweepBehind(s.stages, i), calls := s.calls + 1); ScanInv(s') && ScanEvolves(s, s')
  {
    assert AnyUnswept(s.stages);
    RowsKeep(s, SweepBehind(s.stages, i));
  }

  lemma OnScan(db: Db, a: Action, s: ScanId)
    requires s in db.scans && OnOneScan(a) && a.scan == s && ScanEnabled(db.scans[s], a)
    ensures Enabled(db, a) && Apply(db, a) == db.(scans := db.scans[s := StepScan(db.scans[s], a, db.now)])
  {
  }

  lemma TickKeeps(db: Db, elapsed: nat)
    requires Inv(db)
    ensures Inv(Apply(db, Tick(elapsed))) && Evolves(db, Apply(db, Tick(elapsed)))
  {
  }

  lemma ScanHasInv(db: Db, s: ScanId)
    requires Inv(db) && s in db.scans
    ensures ScanInv(db.scans[s])
  {
  }

  /** Every step keeps the invariant and only evolves what is already there. */
  lemma StepKeeps(db: Db, a: Action)
    requires Inv(db) && Enabled(db, a)
    ensures Inv(Apply(db, a)) && Evolves(db, Apply(db, a))
  {
    hide Inv, Evolves, Apply, StepScan, ScanEnabled, ScanInv, ScanEvolves;
    match a
    case Tick(elapsed) => TickKeeps(db, elapsed);
    case Enqueue(s, assessment, plan) => EnqueueKeeps(db, s, assessment, plan);
    case CloseOverdueStages => SweepAllKeeps(db, a);
    case RequeueExpiredStages => SweepAllKeeps(db, a);
    case _ =>
      ScanHasInv(db, a.scan);
      OnScan(db, a, a.scan);
      ScanStepKeeps(db.scans[a.scan], a, db.now);
      OneScanKeeps(db, a.scan, StepScan(db.scans[a.scan], a, db.now));
  }

  lemma EvolvesTransitive(a: Db, b: Db, c: Db)
    requires Evolves(a, b) && Evolves(b, c)
    ensures Evolves(a, c)
  {
    forall s | s in a.scans
      ensures s in c.scans && ScanEvolves(a.scans[s], c.scans[s])
    {
      assert ScanEvolves(a.scans[s], b.scans[s]) && ScanEvolves(b.scans[s], c.scans[s]);
      forall i | 0 <= i < |a.scans[s].stages|
        ensures RowEvolves(a.scans[s].stages[i], c.scans[s].stages[i])
      {
        assert RowEvolves(a.scans[s].stages[i], b.scans[s].stages[i]);
        assert RowEvolves(b.scans[s].stages[i], c.scans[s].stages[i]);
      }
    }
  }

  // ----- whole runs -----

  /** Every run, of any length and any interleaving, keeps the invariant; closed stages
      and finished scans stay so, and no stage changes its plan. */
  lemma {:induction false} RunKeeps(db: Db, actions: seq<Action>)
    requires Inv(db) && Legal(db, actions)
    ensures Inv(After(db, actions)) && Evolves(db, After(db, actions))
    decreases |actions|
  {
    if actions != [] {
      StepKeeps(db, actions[0]);
      RunKeeps(Apply(db, actions[0]), actions[1..]);
      EvolvesTransitive(db, Apply(db, actions[0]), After(db, actions));
    }
  }

  /** In every reachable state a scan has at most one running stage, and everything before
      a running stage is closed. */
  lemma OneRunningStage(actions: seq<Action>, s: ScanId, i: nat, j: nat)
    requires Legal(EMPTY, actions) && HasStage(After(EMPTY, actions), s, i) && HasStage(After(EMPTY, actions), s, j)
    requires After(EMPTY, actions).scans[s].stages[i].status.Running?
    ensures After(EMPTY, actions).scans[s].stages[j].status.Running? ==> i == j
    ensures j < i ==> After(EMPTY, actions).scans[s].stages[j].status.Terminal()
  {
    RunKeeps(EMPTY, actions);
    assert ScanInv(After(EMPTY, actions).scans[s]);
  }

  /** Once closed, a stage is never queued, running or claimed again, whoever still acts on it. */
  lemma ClosedStageStaysClosed(db: Db, actions: seq<Action>, s: ScanId, i: nat)
    requires Inv(db) && Legal(db, actions) && HasStage(db, s, i) && db.scans[s].stages[i].status.Terminal()
    ensures HasStage(After(db, actions), s, i)
    ensures After(db, actions).scans[s].stages[i].status.Terminal()
    ensures After(db, actions).scans[s].stages[i].attempt == db.scans[s].stages[i].attempt
  {
    RunKeeps(db, actions);
    assert ScanEvolves(db.scans[s], After(db, actions).scans[s]);
    assert RowEvolves(db.scans[s].stages[i], After(db, actions).scans[s].stages[i]);
  }

  /** A finished scan holds only closed stages and never becomes active again. */
  lemma FinishedScanStaysFinished(db: Db, actions: seq<Action>, s: ScanId)
    requires Inv(db) && Legal(db, actions) && s in db.scans && !db.scans[s].status.Active()
    ensures s in After(db, actions).scans
    ensures !After(db, actions).scans[s].status.Active() && AllTerminal(After(db, actions).scans[s].stages)
  {
    RunKeeps(db, actions);
    assert ScanEvolves(db.scans[s], After(db, actions).scans[s]);
    assert ScanInv(After(db, actions).scans[s]);
  }

  /** Starts, claims, cancels, recoveries and finalisations together never leave an
      assessment with two active scans. */
  lemma OneActiveScan(actions: seq<Action>, s: ScanId, t: ScanId)
    requires Legal(EMPTY, actions) && s in After(EMPTY, actions).scans && t in After(EMPTY, actions).scans
    requires After(EMPTY, actions).scans[s].status.Active() && After(EMPTY, actions).scans[t].status.Active()
    requires After(EMPTY, actions).scans[s].assessment == After(EMPTY, actions).scans[t].assessment
    ensures s == t
  {
    RunKeeps(EMPTY, actions);
  }

  /** In every reachable state each coverage row is the image of its stage row. */
  lemma CoverageIsImage(actions: seq<Action>, s: ScanId, i: nat)
    requires Legal(EMPTY, actions) && HasStage(After(EMPTY, actions), s, i)
    ensures CoverageMatches(After(EMPTY, actions).scans[s].stages[i])
  {
    RunKeeps(EMPTY, actions);
    assert ScanInv(After(EMPTY, actions).scans[s]);
  }

  /** No stage and no scan ends cancelled unless an operator asked for it. */
  lemma CancelledOnlyOnRequest(actions: seq<Action>, s: ScanId)
    requires Legal(EMPTY, actions) && s in After(EMPTY, actions).scans
    requires After(EMPTY, actions).scans[s].status.Cancelled? || AnyCancelled(After(EMPTY, actions).scans[s].stages)
    ensures After(EMPTY, actions).scans[s].cancelRequested
  {
    RunKeeps(EMPTY, actions);
    assert ScanInv(After(EMPTY, actions).scans[s]);
  }

  // ----- a failed scope preflight -----

  /** Finishing a scope preflight without success closes everything behind it exactly when
      nothing behind it was running at that moment. */
  lemma FailedPreflightClosesLaterStages(s: Scan, i: nat, st: StageStatus)
    requires ScanInv(s) && OutWith(s, i) && s.stages[i].adapter == SCOPE_PREFLIGHT
    requires RunnerStatus(st) && !st.Succeeded?
    ensures (forall j :: i < j < |s.stages| ==> FinishAt(s.stages, i, st)[j].status.Terminal())
            <==> (forall j :: i < j < |s.stages| ==> !s.stages[j].status.Running?)
  {
    var after := FinishAt(s.stages, i, st);
    forall j | i < j < |s.stages|
      ensures after[j].status.Terminal() <==> !s.stages[j].status.Running?
    {
      assert after[j] == if s.stages[j].status.Queued? then Swept(s.stages[j], StageStatus.Blocked) else s.stages[j];
    }
  }

  /** When finish_stage closes a scope preflight that is still running (or re-queued) with
      anything but success, no later stage of that scan is claimed in any continuation. */
  lemma FailedPreflightStopsTheScan(db: Db, i: nat, st: StageStatus, actions: seq<Action>, s: ScanId, j: nat)
    requires Inv(db) && Enabled(db, Finish(s, i, st)) && !st.Succeeded?
    requires db.scans[s].stages[i].adapter == SCOPE_PREFLIGHT && !db.scans[s].stages[i].status.Terminal()
    requires i < j < |db.scans[s].stages|
    requires Legal(Apply(db, Finish(s, i, st)), actions)
    ensures HasStage(After(Apply(db, Finish(s, i, st)), actions), s, j)
    ensures After(Apply(db, Finish(s, i, st)), actions).scans[s].stages[j].status.Terminal()
    ensures After(Apply(db, Finish(s, i, st)), actions).scans[s].stages[j].attempt == 0
  {
    StepKeeps(db, Finish(s, i, st));
    FailedPreflightBlocks(db.scans[s], i, st, j);
    var db1 := Apply(db, Finish(s, i, st));
    assert db1.scans[s].stages == FinishAt(db.scans[s].stages, i, st);
    hide Inv, Apply, Enabled, FinishAt;
    ClosedStageStaysClosed(db1, actions, s, j);
  }

  lemma FailedPreflightBlocks(s: Scan, i: nat, st: StageStatus, j: nat)
    requires ScanInv(s) && OutWith(s, i) && s.stages[i].adapter == SCOPE_PREFLIGHT && !s.stages[i].status.Terminal()
    requires RunnerStatus(st) && !st.Succeeded? && i < j < |s.stages|
    ensures FinishAt(s.stages, i, st)[j].status.Terminal() && FinishAt(s.stages, i, st)[j].attempt == 0
  {
    assert forall k :: i < k < |s.stages| ==> s.stages[k].attempt == 0;
    assert RowInv(s.stages[j]);
    FailedPreflightClosesLaterStages(s, i, st);
  }

  /** Recovery at the hard deadline closes a preflight without blocking anything: a later stage is then
      claimable exactly when it waits and everything between the two is closed. */
  lemma OverduePreflightLeavesNextClaimable(s: Scan, i: nat, j: nat, now: Time)
    requires ScanInv(s) && !s.cancelRequested && i < j < |s.stages|
    requires s.stages[i].adapter == SCOPE_PREFLIGHT && Overdue(s.stages[i], now)
    ensures Claimable(s.(stages := CloseOverdue(s.stages, now)), j)
            <==> s.stages[j].status.Queued? && forall k :: i < k < j ==> s.stages[k].status.Terminal()
  {
    var closed := CloseOverdue(s.stages, now);
    assert forall k :: 0 <= k < i ==> closed[k].status.Terminal();
    forall k | i < k < |s.stages|
      ensures closed[k] == s.stages[k]
    {
      assert s.stages[k].attempt == 0;
    }
  }

  // ----- a cancelled scan whose runner is gone -----

  /** Steps by which an operator or a runner that once held a stage of scan `s` acts on it. */
  predicate ActsOn(a: Action, s: ScanId) {
    match a
    case CancelScan(t) => t == s
    case Finish(t, _, _) => t == s
    case CancelPending(t, _) => t == s
    case _ => false
  }

  ghost predicate NobodyActs(actions: seq<Action>, s: ScanId) {
    forall k :: 0 <= k < |actions| ==> !ActsOn(actions[k], s)
  }

  /** What is left to a row of a scan whose cancellation was requested and on which nobody acts. */
  ghost predicate Frozen(r: Stage, r': Stage) {
    && (r.status.Queued? ==> r'.status.Queued?)
    && (r.status.Terminal() ==> r'.status == r.status)
  }

  lemma FrozenStep(db: Db, a: Action, s: ScanId)
    requires Inv(db) && Enabled(db, a) && s in db.scans && db.scans[s].cancelRequested && !ActsOn(a, s)
    ensures s in Apply(db, a).scans && |Apply(db, a).scans[s].stages| == |db.scans[s].stages|
    ensures Apply(db, a).scans[s].cancelRequested
    ensures forall i :: 0 <= i < |db.scans[s].stages| ==>
              Frozen(db.scans[s].stages[i], Apply(db, a).scans[s].stages[i])
  {
    hide Inv;
    StepKeeps(db, a);
    assert ScanEvolves(db.scans[s], Apply(db, a).scans[s]);
  }

  /** Once cancellation is requested, and as long as neither an operator nor a runner of the scan acts on
      it, every waiting stage waits for ever and every closed stage keeps its status; if nothing
      runs, no status changes at all. */
  lemma {:induction false} CancelRequestedScanIsStuck(db: Db, actions: seq<Action>, s: ScanId)
    requires Inv(db) && Legal(db, actions) && s in db.scans
    requires db.scans[s].cancelRequested && NobodyActs(actions, s)
    ensures s in After(db, actions).scans && |After(db, actions).scans[s].stages| == |db.scans[s].stages|
    ensures forall i :: 0 <= i < |db.scans[s].stages| ==>
              Frozen(db.scans[s].stages[i], After(db, actions).scans[s].stages[i])
    ensures !AnyRunning(db.scans[s].stages) ==>
              forall i :: 0 <= i < |db.scans[s].stages| ==>
                After(db, actions).scans[s].stages[i].status == db.scans[s].stages[i].status
    decreases |actions|
  {
    hide Inv, Apply, Enabled;
    if actions != [] {
      assert !ActsOn(actions[0], s);
      FrozenStep(db, actions[0], s);
      StepKeeps(db, actions[0]);
      assert forall k :: 0 <= k < |actions[1..]| ==> actions[1..][k] == actions[k + 1];
      CancelRequestedScanIsStuck(Apply(db, actions[0]), actions[1..], s);
    }
  }

  /** Without anybody acting on it, the stages of a scan whose cancellation was requested can still all close
      exactly when none of them waits. */
  lemma StuckExactlyWhenSomethingWaits(db: Db, s: ScanId)
    requires Inv(db) && s in db.scans && db.scans[s].cancelRequested
    ensures (exists actions :: Legal(db, actions) && NobodyActs(actions, s)
                               && s in After(db, actions).scans && AllTerminal(After(db, actions).scans[s].stages))
            <==> forall i :: 0 <= i < |db.scans[s].stages| ==> !db.scans[s].stages[i].status.Queued?
  {
    if actions :| Legal(db, actions) && NobodyActs(actions, s)
                  && s in After(db, actions).scans && AllTerminal(After(db, actions).scans[s].stages) {
      CancelRequestedScanIsStuck(db, actions, s);
      forall i | 0 <= i < |db.scans[s].stages|
        ensures !db.scans[s].stages[i].status.Queued?
      {
        assert Frozen(db.scans[s].stages[i], After(db, actions).scans[s].stages[i]);
      }
    }
    if forall i :: 0 <= i < |db.scans[s].stages| ==> !db.scans[s].stages[i].status.Queued? {
      var actions := RunningStageTimesOut(db, s);
    }
  }

  /** Waiting for the deadline and one recovery statement close whatever runs. */
  lemma RunningStageTimesOut(db: Db, s: ScanId) returns (actions: seq<Action>)
    requires Inv(db) && s in db.scans
    requires forall i :: 0 <= i < |db.scans[s].stages| ==> !db.scans[s].stages[i].status.Queued?
    ensures Legal(db, actions) && NobodyActs(actions, s)
    ensures s in After(db, actions).scans && AllTerminal(After(db, actions).scans[s].stages)
  {
    var stages := db.scans[s].stages;
    if AllTerminal(stages) {
      actions := [];
    } else {
      var i :| 0 <= i < |stages| && !stages[i].status.Terminal();
      OnlyOneRuns(db.scans[s], i);
      var wait := Tick(if Deadline(stages[i]) <= db.now then 0 else Deadline(stages[i]) - db.now);
      OverdueCloses(db, wait, s, i);
      hide Inv, Apply;
      Prepend(Apply(db, wait), CloseOverdueStages, []);
      Prepend(db, wait, [CloseOverdueStages] + []);
      actions := [wait] + ([CloseOverdueStages] + []);
    }
  }

  lemma OnlyOneRuns(s: Scan, i: nat)
    requires ScanInv(s) && i < |s.stages| && s.stages[i].status.Running?
    requires forall k :: 0 <= k < |s.stages| ==> !s.stages[k].status.Queued?
    ensures s.stages[i].startedAt.Some? && forall k :: 0 <= k < |s.stages| && k != i ==> s.stages[k].status.Terminal()
  {
    assert RowInv(s.stages[i]);
    forall k | 0 <= k < |s.stages| && k != i
      ensures s.stages[k].status.Terminal()
    {
      assert RowInv(s.stages[k]);
    }
  }

  lemma OverdueCloses(db: Db, wait: Action, s: ScanId, i: nat)
    requires wait.Tick? && HasStage(db, s, i) && Overdue(db.scans[s].stages[i], db.now + wait.elapsed)
    requires forall k :: 0 <= k < |db.scans[s].stages| && k != i ==> db.scans[s].stages[k].status.Terminal()
    ensures var after := Apply(Apply(db, wait), CloseOverdueStages);
            s in after.scans && AllTerminal(after.scans[s].stages)
  {
  }

  /** A run is its first step followed by a run. */
  lemma Prepend(db: Db, a: Action, rest: seq<Action>)
    requires Enabled(db, a) && Legal(Apply(db, a), rest)
    ensures Legal(db, [a] + rest) && After(db, [a] + rest) == After(Apply(db, a), rest)
  {
    assert ([a] + rest)[1..] == rest;
  }
}
