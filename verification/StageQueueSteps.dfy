/** What each step of the stage queue writes, told by the columns alone: statuses by name, times in
    microseconds. */
module StageQueueSteps {
  import opened Common
  import opened StageQueue

  // ----- statuses -----

  ghost predicate IsClosed(st: StageStatus) {
    st.Succeeded? || st.Failed? || st.TimedOut? || st.Skipped? || st.Blocked? || st.Cancelled?
  }

  ghost predicate IsFinished(st: ScanStatus) {
    st.Complete? || st.Partial? || st.Failed? || st.Cancelled?
  }

  lemma StatusesByName(st: StageStatus, scan: ScanStatus)
    ensures st.Terminal() <==> IsClosed(st)
    ensures scan.Active() <==> !IsFinished(scan)
  {
  }

  /** The status of the coverage row that belongs to a stage. */
  ghost predicate Shows(st: StageStatus, c: CoverageStatus) {
    && (st.Queued? <==> c.Planned?) && (st.Running? <==> c.Running?)
    && (st.Succeeded? <==> c.Completed?) && (st.Failed? <==> c.Failed?)
    && (st.TimedOut? <==> c.TimedOut?) && (st.Skipped? <==> c.Skipped?)
    && (st.Blocked? <==> c.Blocked?) && (st.Cancelled? <==> c.Cancelled?)
  }

  // ----- rows of a scan -----

  /** The row changes its status, and its coverage row with it; nothing else of them changes. */
  ghost predicate Becomes(r: Stage, r': Stage, st: StageStatus) {
    && r'.status == st && Shows(st, r'.coverage.status)
    && r' == r.(status := st, coverage := r.coverage.(status := r'.coverage.status))
  }

  /** The row is closed by somebody who held it. */
  ghost predicate IsReleased(r: Stage, r': Stage, st: StageStatus) {
    && r'.status == st && Shows(st, r'.coverage.status)
    && r' == r.(status := st, coverage := r.coverage.(status := r'.coverage.status), owner := None, lease := None)
  }

  // ----- claim -----

  ghost predicate CanBeClaimed(s: Scan, i: nat) {
    && i < |s.stages| && s.stages[i].status.Queued? && !s.cancelRequested
    && forall j :: 0 <= j < i ==> IsClosed(s.stages[j].status)
  }

  ghost predicate ClaimWrites(s: Scan, s': Scan, i: nat, owner: Owner, now: Time) {
    && |s'.stages| == |s.stages| > i
    && s' == s.(status := ScanStatus.Running, stages := s'.stages)
    && (forall j :: 0 <= j < |s.stages| && j != i ==> s'.stages[j] == s.stages[j])
    && var r, r' := s.stages[i], s'.stages[i];
       && r'.status.Running? && r'.attempt == r.attempt + 1
       && r'.owner == Some(owner) && r'.lease == Some(now + 120_000_000)
       && r'.startedAt == (if r.startedAt == None then Some(now) else r.startedAt)
       && r'.coverage.status.Running? && r'.coverage.required == r.coverage.required
       && r'.coverage.startedAt == (if r.coverage.startedAt == None then Some(now) else r.coverage.startedAt)
       && r'.adapter == r.adapter && r'.required == r.required && r'.timeout == r.timeout
       && r'.createdAt == r.createdAt && r'.unswept == r.unswept && r'.unreported == r.unreported + 1
  }

  // ----- heartbeat -----

  ghost predicate HeartbeatWrites(s: Scan, s': Scan, i: nat, now: Time) {
    && |s'.stages| == |s.stages| > i && s' == s.(stages := s'.stages)
    && (forall j :: 0 <= j < |s.stages| && j != i ==> s'.stages[j] == s.stages[j])
    && var r := s.stages[i];
       s'.stages[i] == if r.status.Running? && r.startedAt.Some? && now < r.startedAt.value + r.timeout * 1_000_000
                       then r.(lease := Some(now + 120_000_000)) else r
  }

  ghost predicate RenewalWrites(s: Scan, s': Scan, i: nat, now: Time) {
    && |s'.stages| == |s.stages| > i && s' == s.(stages := s'.stages)
    && (forall j :: 0 <= j < |s.stages| && j != i ==> s'.stages[j] == s.stages[j])
    && s'.stages[i] == s.stages[i].(lease := Some(now + 120_000_000))
  }

  // ----- finish -----

  /** The reported row, and what waits behind it: of the other rows exactly those change that are queued
      behind a scope preflight that did not succeed, and they become blocked. */
  ghost predicate FinishWrites(s: Scan, s': Scan, i: nat, st: StageStatus) {
    && |s'.stages| == |s.stages| > i && s.stages[i].unreported >= 1
    && s' == s.(stages := s'.stages, calls := if st.Cancelled? then s.calls else s.calls + 1)
    && IsReleased(s.stages[i].(unreported := s.stages[i].unreported - 1,
                               unswept := s.stages[i].unswept + (if st.Cancelled? then 1 else 0)), s'.stages[i], st)
    && forall j :: 0 <= j < |s.stages| && j != i ==>
         if j > i && s.stages[j].status.Queued? && s.stages[i].adapter == "scope_preflight" && !st.Succeeded?
         then s'.stages[j].status.Blocked? && Becomes(s.stages[j], s'.stages[j], StageStatus.Blocked)
         else s'.stages[j] == s.stages[j]
  }

  // ----- cancel -----

  ghost predicate SweepWrites(s: Scan, s': Scan, i: nat) {
    && |s'.stages| == |s.stages| > i && s.stages[i].unswept >= 1
    && s' == s.(stages := s'.stages, calls := s.calls + 1)
    && forall j :: 0 <= j < |s.stages| ==>
         if j > i && s.stages[j].status.Queued? then Becomes(s.stages[j], s'.stages[j], StageStatus.Cancelled)
         else if j == i then s'.stages[j] == s.stages[j].(unswept := s.stages[j].unswept - 1)
         else s'.stages[j] == s.stages[j]
  }

  ghost predicate CancelWrites(s: Scan, s': Scan) {
    && |s'.stages| == |s.stages| && s'.cancelRequested
    && if exists j :: 0 <= j < |s.stages| && s.stages[j].status.Running?
       then s' == s.(cancelRequested := true)
       else
         && s'.status.Cancelled? && s' == s.(status := s'.status, cancelRequested := true, stages := s'.stages)
         && forall j :: 0 <= j < |s.stages| ==>
              if s.stages[j].status.Queued? then Becomes(s.stages[j], s'.stages[j], StageStatus.Cancelled)
              else s'.stages[j] == s.stages[j]
  }

  // ----- recovery -----

  ghost predicate IsOverdue(r: Stage, now: Time) {
    r.status.Running? && r.startedAt.Some? && r.startedAt.value + r.timeout * 1_000_000 <= now
  }

  ghost predicate TimeOutWrites(rows: seq<Stage>, rows': seq<Stage>, now: Time) {
    |rows'| == |rows|
    && forall j :: 0 <= j < |rows| ==>
         if IsOverdue(rows[j], now) then IsReleased(rows[j], rows'[j], StageStatus.TimedOut) else rows'[j] == rows[j]
  }

  ghost predicate RequeueWrites(rows: seq<Stage>, rows': seq<Stage>, now: Time) {
    |rows'| == |rows|
    && forall j :: 0 <= j < |rows| ==>
         if rows[j].status.Running? && rows[j].lease.Some? && rows[j].lease.value < now
         then IsReleased(rows[j].(coverage := rows[j].coverage.(startedAt := None)), rows'[j], StageStatus.Queued)
         else rows'[j] == rows[j]
  }

  lemma RecoveryMeans(rows: seq<Stage>, now: Time)
    ensures TimeOutWrites(rows, CloseOverdue(rows, now), now)
    ensures Timeouts(rows, now) == |set j | 0 <= j < |rows| && IsOverdue(rows[j], now)|
    ensures RequeueWrites(rows, RequeueExpired(rows, now), now)
  {
    assert (set j | 0 <= j < |rows| && IsOverdue(rows[j], now))
           == (set j | 0 <= j < |rows| && Overdue(rows[j], now));
  }

  // ----- a new scan -----

  ghost predicate IsNew(s: Scan, assessment: AssessmentId, plan: seq<PlanStage>, now: Time) {
    && s.assessment == assessment && s.status.Queued? && !s.cancelRequested && s.calls == 0 && s.lock.Free?
    && |s.stages| == |plan|
    && forall i :: 0 <= i < |plan| ==>
         var r := s.stages[i];
         && r.adapter == plan[i].adapter && r.required == plan[i].required && r.timeout == plan[i].timeout
         && r.createdAt == now && r.status.Queued? && r.attempt == 0 && r.owner == None && r.lease == None
         && r.startedAt == None && r.unreported == 0 && r.unswept == 0
         && r.coverage.required == plan[i].required && r.coverage.status.Planned? && r.coverage.startedAt == None
  }

  // ----- the status of a finalised scan -----

  /** The status that the rows of a closed scan give. */
  ghost predicate Fits(status: ScanStatus, rows: seq<Stage>) {
    var cancelled := exists i :: 0 <= i < |rows| && rows[i].status.Cancelled?;
    var short := exists i :: 0 <= i < |rows| && rows[i].required && !rows[i].status.Succeeded?;
    var some := exists i :: 0 <= i < |rows| && rows[i].status.Succeeded?;
    && (status.Cancelled? <==> cancelled)
    && (status.Failed? <==> !cancelled && short && !some)
    && (status.Partial? <==> !cancelled && short && some)
    && (status.Complete? <==> !cancelled && !short)
  }

  lemma OutcomeFits(rows: seq<Stage>)
    ensures Fits(Outcome(rows), rows)
  {
  }

  ghost predicate AllClosed(rows: seq<Stage>) {
    forall i :: 0 <= i < |rows| ==> IsClosed(rows[i].status)
  }

  /** What the steps of finalize_if_terminal write: reading decides the status that the rows give exactly when
      all of them are closed, writing writes what was decided, and a failing report makes it partial. */
  ghost predicate FinaliserWrites(s: Scan, a: Action, s': Scan)
    requires Finalises(a)
  {
    match a
    case TakeLock(_) =>
      s.calls >= 1 && s' == s.(calls := s.calls - 1, lock := if s.lock.Free? then Entered else s.lock)
    case ReadRows(_) =>
      s' == s.(lock := s'.lock)
      && if s.stages != [] && AllClosed(s.stages) then s'.lock.Decided? && Fits(s'.lock.outcome, s.stages)
         else s'.lock.Leaving?
    case WriteStatus(_) => s.lock.Decided? && s' == s.(status := s.lock.outcome, lock := Written)
    case FinishReport(_, fails) => s' == s.(status := if fails then ScanStatus.Partial else s.status, lock := Leaving)
    case Unlock(_) => s' == s.(lock := Free)
    case FindReportMissing(_) => s' == s.(calls := s.calls + 1)
  }

  // ----- all steps -----

  ghost predicate Writes(s: Scan, a: Action, s': Scan, now: Time)
    requires OnOneScan(a)
  {
    match a
    case Claim(_, i, owner) => ClaimWrites(s, s', i, owner, now)
    case Heartbeat(_, i) => HeartbeatWrites(s, s', i, now)
    case RenewLease(_, i) => RenewalWrites(s, s', i, now)
    case Finish(_, i, st) => FinishWrites(s, s', i, st)
    case CancelPending(_, i) => SweepWrites(s, s', i)
    case CancelScan(_) => CancelWrites(s, s')
    case _ => FinaliserWrites(s, a, s')
  }

  /** When a step on a scan is possible. */
  ghost predicate Possible(s: Scan, a: Action)
    requires OnOneScan(a)
  {
    match a
    case Claim(_, i, _) => CanBeClaimed(s, i)
    case Heartbeat(_, i) => i < |s.stages| && s.stages[i].unreported >= 1
    case RenewLease(_, i) => i < |s.stages| && s.stages[i].unreported >= 1
    case Finish(_, i, st) =>
      && i < |s.stages| && s.stages[i].unreported >= 1
      && (st.Succeeded? || st.Failed? || st.TimedOut? || (st.Cancelled? && s.cancelRequested))
    case CancelPending(_, i) => i < |s.stages| && s.stages[i].unswept >= 1
    case CancelScan(_) => !IsFinished(s.status)
    case TakeLock(_) => s.calls >= 1
    case ReadRows(_) => s.lock.Entered?
    case WriteStatus(_) => s.lock.Decided?
    case FinishReport(_, _) => s.lock.Written?
    case Unlock(_) => !s.lock.Free?
    case FindReportMissing(_) => IsFinished(s.status)
  }

  lemma FinaliserStepWrites(s: Scan, a: Action, now: Time)
    requires Finalises(a) && ScanEnabled(s, a)
    ensures FinaliserWrites(s, a, StepScan(s, a, now))
  {
    OutcomeFits(s.stages);
    hide Outcome, Fits;
  }

  lemma EnabledMeansPossible(s: Scan, a: Action)
    requires OnOneScan(a)
    ensures ScanEnabled(s, a) <==> Possible(s, a)
  {
  }

  lemma RunnerStepWrites(s: Scan, a: Action, now: Time)
    requires (a.Claim? || a.Heartbeat? || a.RenewLease?) && ScanEnabled(s, a)
    ensures Writes(s, a, StepScan(s, a, now), now)
  {
  }

  lemma FinishStepWrites(s: Scan, a: Action, now: Time)
    requires a.Finish? && ScanEnabled(s, a)
    ensures FinishWrites(s, StepScan(s, a, now), a.position, a.status)
  {
    var i, st := a.position, a.status;
    forall j | 0 <= j < |s.stages| && j != i
      ensures FinishAt(s.stages, i, st)[j]
              == if j > i && s.stages[j].status.Queued? && s.stages[i].adapter == "scope_preflight" && !st.Succeeded?
                 then s.stages[j].(status := StageStatus.Blocked,
                                   coverage := s.stages[j].coverage.(status := CoverageStatus.Blocked))
                 else s.stages[j]
    {
    }
    assert FinishAt(s.stages, i, st)[i] == Reported(s.stages[i], st);
    hide FinishAt;
  }

  lemma SweepStepWrites(s: Scan, a: Action, now: Time)
    requires a.CancelPending? && ScanEnabled(s, a)
    ensures SweepWrites(s, StepScan(s, a, now), a.position)
  {
  }

  lemma CancelStepWrites(s: Scan, a: Action, now: Time)
    requires a.CancelScan? && ScanEnabled(s, a)
    ensures CancelWrites(s, StepScan(s, a, now))
  {
  }

  lemma ScanStepWrites(s: Scan, a: Action, now: Time)
    requires OnOneScan(a) && ScanEnabled(s, a)
    ensures Writes(s, a, StepScan(s, a, now), now)
  {
    hide StepScan, FinishWrites, SweepWrites, CancelWrites, FinaliserWrites, ClaimWrites, HeartbeatWrites;
    hide RenewalWrites;
    match a
    case Finish(_, _, _) => FinishStepWrites(s, a, now);
    case CancelPending(_, _) => SweepStepWrites(s, a, now);
    case CancelScan(_) => CancelStepWrites(s, a, now);
    case Claim(_, _, _) => RunnerStepWrites(s, a, now);
    case Heartbeat(_, _) => RunnerStepWrites(s, a, now);
    case RenewLease(_, _) => RunnerStepWrites(s, a, now);
    case _ => FinaliserStepWrites(s, a, now);
  }

  ghost predicate OnlyChanges(scans: map<ScanId, Scan>, scans': map<ScanId, Scan>, s: ScanId) {
    s in scans && s in scans' && scans' == scans[s := scans'[s]]
  }

  /** A step on one scan is possible exactly when the columns say so, and writes exactly what they say, to that scan
      alone. */
  lemma StepWrites(db: Db, a: Action)
    requires OnOneScan(a)
    ensures Enabled(db, a) <==> a.scan in db.scans && Possible(db.scans[a.scan], a)
    ensures Enabled(db, a) ==>
              && Apply(db, a).now == db.now && OnlyChanges(db.scans, Apply(db, a).scans, a.scan)
              && Writes(db.scans[a.scan], a, Apply(db, a).scans[a.scan], db.now)
  {
    if a.scan in db.scans {
      EnabledMeansPossible(db.scans[a.scan], a);
      if Enabled(db, a) {
        ScanStepWrites(db.scans[a.scan], a, db.now);
      }
      hide Writes, StepScan, Possible, ScanEnabled;
    }
  }

  /** The two statements of recovery, on every scan at once. */
  lemma RecoveryWrites(db: Db)
    ensures var after := Apply(db, CloseOverdueStages);
            && after.now == db.now && after.scans.Keys == db.scans.Keys
            && forall s :: s in db.scans ==>
                 var scan, scan' := db.scans[s], after.scans[s];
                 && scan' == scan.(stages := scan'.stages, calls := scan'.calls)
                 && TimeOutWrites(scan.stages, scan'.stages, db.now)
                 && scan'.calls == scan.calls
                                   + |set j | 0 <= j < |scan.stages| && IsOverdue(scan.stages[j], db.now)|
    ensures var after := Apply(db, RequeueExpiredStages);
            && after.now == db.now && after.scans.Keys == db.scans.Keys
            && forall s :: s in db.scans ==>
                 && after.scans[s] == db.scans[s].(stages := after.scans[s].stages)
                 && RequeueWrites(db.scans[s].stages, after.scans[s].stages, db.now)
  {
    forall s | s in db.scans
      ensures TimeOutWrites(db.scans[s].stages, CloseOverdue(db.scans[s].stages, db.now), db.now)
      ensures Timeouts(db.scans[s].stages, db.now)
              == |set j | 0 <= j < |db.scans[s].stages| && IsOverdue(db.scans[s].stages[j], db.now)|
      ensures RequeueWrites(db.scans[s].stages, RequeueExpired(db.scans[s].stages, db.now), db.now)
    {
      RecoveryMeans(db.scans[s].stages, db.now);
    }
    hide TimeOutWrites, RequeueWrites, IsOverdue, Timeouts, CloseOverdue, RequeueExpired;
  }

  /** A scan is queued exactly for a plan that the database accepts and an assessment without an unfinished scan,
      with the rows of the plan. */
  lemma EnqueueWrites(db: Db, s: ScanId, assessment: AssessmentId, plan: seq<PlanStage>)
    ensures var a := Enqueue(s, assessment, plan);
            && (Enabled(db, a)
                <==> && s !in db.scans && plan != []
                     && (forall i :: 0 <= i < |plan| ==> 1 <= plan[i].timeout <= 86400)
                     && forall t :: t in db.scans && db.scans[t].assessment == assessment
                                    ==> IsFinished(db.scans[t].status))
            && (Enabled(db, a) ==>
                  && Apply(db, a).now == db.now && s in Apply(db, a).scans
                  && Apply(db, a).scans == db.scans[s := Apply(db, a).scans[s]]
                  && IsNew(Apply(db, a).scans[s], assessment, plan, db.now))
  {
  }
}
