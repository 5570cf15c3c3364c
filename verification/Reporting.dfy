/** What the report concludes from the coverage rows and the findings of a scan. */
module Reporting {
  import opened Common
  import opened StageQueue
  import opened StageQueueSafety
  import opened StageQueueProgress
  import opened StageQueueWitness
  import opened StageQueueBounds
  import opened Finalisation

  datatype Severity = Critical | High | Medium | Low | Info
  datatype Validation = Candidate | Confirmed | Rejected | Inconclusive

  /** A finding joined with its assurance row; a missing row reads as a candidate. */
  datatype Finding = Finding(severity: Severity, assurance: Option<Validation>) {
    function Status(): Validation {
      if assurance.Some? then assurance.value else Candidate
    }
  }

  datatype Conclusion =
    | ValidatedRisk(severity: Severity, complete: bool)
    | PotentialRisk(complete: bool)
    | CoverageIncomplete
    | NoValidatedRisk

  function RiskFindings(findings: seq<Finding>): seq<Finding> {
    if findings == [] then []
    else if findings[0].severity.Info? then RiskFindings(findings[1..])
    else [findings[0]] + RiskFindings(findings[1..])
  }

  function CoverageRows(stages: seq<Stage>): (r: seq<Coverage>)
    ensures |r| == |stages|
  {
    seq(|stages|, i requires 0 <= i < |stages| => stages[i].coverage)
  }

  predicate CoverageIsComplete(status: ScanStatus, coverage: seq<Coverage>) {
    status.Complete? && forall i :: 0 <= i < |coverage| ==> !coverage[i].required || coverage[i].status.Completed?
  }

  predicate AnyConfirmed(findings: seq<Finding>, severity: Severity) {
    exists i :: 0 <= i < |findings| && findings[i].Status().Confirmed? && findings[i].severity == severity
  }

  predicate AnyCandidate(findings: seq<Finding>) {
    exists i :: 0 <= i < |findings| && findings[i].Status().Candidate?
  }

  function OverallRisk(findings: seq<Finding>, status: ScanStatus, coverage: seq<Coverage>): Conclusion {
    var complete := CoverageIsComplete(status, coverage);
    if AnyConfirmed(findings, Critical) then ValidatedRisk(Critical, complete)
    else if AnyConfirmed(findings, High) then ValidatedRisk(High, complete)
    else if AnyConfirmed(findings, Medium) then ValidatedRisk(Medium, complete)
    else if AnyConfirmed(findings, Low) then ValidatedRisk(Low, complete)
    else if AnyCandidate(findings) then PotentialRisk(complete)
    else if !complete then CoverageIncomplete
    else NoValidatedRisk
  }

  lemma {:induction false} RiskFindingsKeepsRisks(findings: seq<Finding>)
    ensures forall f :: f in RiskFindings(findings) <==> f in findings && !f.severity.Info?
  {
    if findings != [] {
      RiskFindingsKeepsRisks(findings[1..]);
      assert findings == [findings[0]] + findings[1..];
    }
  }

  // ----- the conclusion, told by the findings -----

  /** A finding with this severity is confirmed. */
  predicate IsConfirmed(findings: seq<Finding>, severity: Severity) {
    exists f :: f in findings && f.severity == severity && f.assurance == Some(Confirmed)
  }

  /** A finding above informational severity has no assurance row, or one that says candidate. */
  predicate AwaitsReview(findings: seq<Finding>) {
    exists f :: f in findings && !f.severity.Info? && (f.assurance == None || f.assurance == Some(Candidate))
  }

  /** The scan is complete and every required row of its coverage completed. */
  predicate IsCovered(status: ScanStatus, coverage: seq<Coverage>) {
    status == ScanStatus.Complete
    && forall c :: c in coverage && c.required ==> c.status == CoverageStatus.Completed
  }

  /** The severity is the highest that is confirmed; failing that a candidate, failing that the coverage decides. */
  predicate ConclusionMeans(findings: seq<Finding>, covered: bool, c: Conclusion) {
    var critical, high := IsConfirmed(findings, Critical), IsConfirmed(findings, High);
    var medium, low := IsConfirmed(findings, Medium), IsConfirmed(findings, Low);
    && (c == ValidatedRisk(Critical, covered) <==> critical)
    && (c == ValidatedRisk(High, covered) <==> !critical && high)
    && (c == ValidatedRisk(Medium, covered) <==> !critical && !high && medium)
    && (c == ValidatedRisk(Low, covered) <==> !critical && !high && !medium && low)
    && (!critical && !high && !medium && !low ==>
          && (c == PotentialRisk(covered) <==> AwaitsReview(findings))
          && (c == CoverageIncomplete <==> !AwaitsReview(findings) && !covered)
          && (c == NoValidatedRisk <==> !AwaitsReview(findings) && covered))
  }

  lemma ConfirmedByEntries(findings: seq<Finding>, severity: Severity)
    requires !severity.Info?
    ensures AnyConfirmed(RiskFindings(findings), severity) <==> IsConfirmed(findings, severity)
  {
    RiskFindingsKeepsRisks(findings);
    var risks := RiskFindings(findings);
    if f :| f in findings && f.severity == severity && f.assurance == Some(Confirmed) {
      assert f in risks;
      var i :| 0 <= i < |risks| && risks[i] == f;
    }
    if i :| 0 <= i < |risks| && risks[i].Status().Confirmed? && risks[i].severity == severity {
      assert risks[i] in risks && risks[i].assurance == Some(Confirmed);
    }
  }

  lemma CandidatesByEntries(findings: seq<Finding>)
    ensures AnyCandidate(RiskFindings(findings)) <==> AwaitsReview(findings)
  {
    RiskFindingsKeepsRisks(findings);
    var risks := RiskFindings(findings);
    if f :| f in findings && !f.severity.Info? && (f.assurance == None || f.assurance == Some(Candidate)) {
      assert f in risks;
      var i :| 0 <= i < |risks| && risks[i] == f;
    }
    if i :| 0 <= i < |risks| && risks[i].Status().Candidate? {
      assert risks[i] in risks && (risks[i].assurance == None || risks[i].assurance == Some(Candidate));
    }
  }

  lemma CoverageByEntries(status: ScanStatus, coverage: seq<Coverage>)
    ensures CoverageIsComplete(status, coverage) <==> IsCovered(status, coverage)
  {
    if CoverageIsComplete(status, coverage) {
      forall c | c in coverage && c.required
        ensures c.status == CoverageStatus.Completed
      {
        var i :| 0 <= i < |coverage| && coverage[i] == c;
      }
    } else if status == ScanStatus.Complete {
      var i :| 0 <= i < |coverage| && coverage[i].required && !coverage[i].status.Completed?;
      assert coverage[i] in coverage;
    }
  }

  /** What the report says of the findings of a scan, informational ones included. */
  lemma ConclusionByEntries(findings: seq<Finding>, status: ScanStatus, coverage: seq<Coverage>)
    ensures ConclusionMeans(findings, IsCovered(status, coverage),
                            OverallRisk(RiskFindings(findings), status, coverage))
  {
    ConfirmedByEntries(findings, Critical);
    ConfirmedByEntries(findings, High);
    ConfirmedByEntries(findings, Medium);
    ConfirmedByEntries(findings, Low);
    CandidatesByEntries(findings);
    CoverageByEntries(status, coverage);
    hide RiskFindings, AnyConfirmed, AnyCandidate, CoverageIsComplete, IsConfirmed, AwaitsReview, IsCovered;
  }

  /** Finalisation calls a scan complete exactly when every stage is closed, none was cancelled
      and every required one succeeded; optional stages may have failed. */
  lemma CompleteExactlyWhen(s: Scan)
    requires ScanInv(s) && AllTerminal(s.stages)
    ensures Finalized(s, false).status.Complete?
            <==> (forall i :: 0 <= i < |s.stages| ==>
                    !s.stages[i].status.Cancelled? && (s.stages[i].required ==> s.stages[i].status.Succeeded?))
  {
  }

  /** At the moment of finalisation the execution status and the coverage rows agree. */
  lemma FinalizedCoverageAgrees(s: Scan)
    requires ScanInv(s) && AllTerminal(s.stages)
    ensures var f := Finalized(s, false); f.status.Complete? <==> CoverageIsComplete(f.status, CoverageRows(f.stages))
  {
    forall i | 0 <= i < |s.stages|
      ensures RowInv(s.stages[i]) && CoverageRows(s.stages)[i] == s.stages[i].coverage
    {
    }
  }

  // ----- between reading the rows and writing the status -----

  /** The outcome that is about to be written is the one the rows give now. */
  ghost predicate Current(s: Scan) {
    s.lock.Decided? ==> s.lock.outcome == Outcome(s.stages)
  }

  /** A runner reports on a scan whose finaliser has read the rows and not written the status. */
  predicate ReportsTooLate(db: Db, a: Action, s: ScanId) {
    a.Finish? && a.scan == s && s in db.scans && db.scans[s].lock.Decided?
  }

  lemma SameOutcome(a: seq<Stage>, b: seq<Stage>)
    requires |a| == |b|
    requires forall i :: 0 <= i < |a| ==> a[i].status == b[i].status && a[i].required == b[i].required
    ensures Outcome(a) == Outcome(b)
  {
  }

  lemma CurrentScanStep(s: Scan, a: Action, now: Time)
    requires ScanInv(s) && Current(s) && OnOneScan(a) && ScanEnabled(s, a) && !(a.Finish? && s.lock.Decided?)
    ensures Current(StepScan(s, a, now))
  {
    var s' := StepScan(s, a, now);
    if s.lock.Decided? && s'.stages != s.stages {
      forall i | 0 <= i < |s.stages|
        ensures s'.stages[i].status == s.stages[i].status && s'.stages[i].required == s.stages[i].required
      {
      }
      SameOutcome(s.stages, s'.stages);
    }
  }

  lemma CurrentStep(db: Db, a: Action, s: ScanId)
    requires Inv(db) && Enabled(db, a) && (s in db.scans ==> Current(db.scans[s])) && !ReportsTooLate(db, a, s)
    ensures s in Apply(db, a).scans ==> Current(Apply(db, a).scans[s])
  {
    if s in db.scans {
      assert ScanInv(db.scans[s]);
      hide Inv, Outcome;
      if OnOneScan(a) && a.scan == s {
        OnScan(db, a, s);
        CurrentScanStep(db.scans[s], a, db.now);
      } else if db.scans[s].lock.Decided? {
        ClosedScanUntouched(db, a, s);
      }
    }
  }

  ghost predicate NoReportTooLate(db: Db, actions: seq<Action>, s: ScanId)
    requires Legal(db, actions)
    decreases |actions|
  {
    actions == [] || (!ReportsTooLate(db, actions[0], s) && NoReportTooLate(Apply(db, actions[0]), actions[1..], s))
  }

  lemma {:induction false} CurrentRun(db: Db, actions: seq<Action>, s: ScanId)
    requires Inv(db) && Legal(db, actions) && (s in db.scans ==> Current(db.scans[s]))
    requires NoReportTooLate(db, actions, s)
    ensures s in After(db, actions).scans ==> Current(After(db, actions).scans[s])
    decreases |actions|
  {
    hide Inv, Apply, Enabled, Current, ReportsTooLate;
    if actions != [] {
      CurrentStep(db, actions[0], s);
      StepKeeps(db, actions[0]);
      CurrentRun(Apply(db, actions[0]), actions[1..], s);
    }
  }

  /** In every run in which no runner reports on the scan between the reading of its rows and the writing of its
      status, the status is written complete exactly when the coverage is complete at that moment. */
  lemma WrittenStatusAgrees(actions: seq<Action>, s: ScanId)
    requires Legal(EMPTY, actions) && NoReportTooLate(EMPTY, actions, s)
    requires Enabled(After(EMPTY, actions), Action.WriteStatus(s))
    ensures var written := Apply(After(EMPTY, actions), Action.WriteStatus(s)).scans[s];
            written.status.Complete? <==> CoverageIsComplete(written.status, CoverageRows(written.stages))
  {
    CurrentRun(EMPTY, actions, s);
    RunKeeps(EMPTY, actions);
    var scan := After(EMPTY, actions).scans[s];
    assert ScanInv(scan);
    FinalizedCoverageAgrees(scan);
  }

  /** The report of a finalised scan says that no validated risk was identified exactly when
      every required stage succeeded, none was cancelled, and no finding above informational
      severity is confirmed or still a candidate. */
  lemma NoValidatedRiskExactlyWhen(s: Scan, findings: seq<Finding>)
    requires ScanInv(s) && AllTerminal(s.stages)
    ensures var f := Finalized(s, false);
            OverallRisk(RiskFindings(findings), f.status, CoverageRows(f.stages)).NoValidatedRisk?
            <==>
            && (forall i :: 0 <= i < |s.stages| ==>
                  !s.stages[i].status.Cancelled? && (s.stages[i].required ==> s.stages[i].status.Succeeded?))
            && (forall f :: f in findings && !f.severity.Info? ==> !f.Status().Confirmed? && !f.Status().Candidate?)
  {
    hide ScanInv, Finalized, CoverageIsComplete, AllTerminal, RiskFindings, AnyConfirmed, AnyCandidate;
    FinalizedCoverageAgrees(s);
    CompleteExactlyWhen(s);
    RisksMeaning(findings);
    assert forall f :: f in findings && !f.severity.Info? && (f.Status().Confirmed? || f.Status().Candidate?)
                       ==> f in RiskFindings(findings);
  }

  lemma RisksMeaning(findings: seq<Finding>)
    ensures forall f :: f in RiskFindings(findings) <==> f in findings && !f.severity.Info?
    ensures AnyCandidate(RiskFindings(findings))
            <==> exists f :: f in RiskFindings(findings) && f.Status().Candidate?
    ensures (exists v: Severity :: !v.Info? && AnyConfirmed(RiskFindings(findings), v))
            <==> exists f :: f in RiskFindings(findings) && f.Status().Confirmed?
  {
    RiskFindingsKeepsRisks(findings);
    var risks := RiskFindings(findings);
    assert AnyCandidate(risks) <==> exists f :: f in risks && f.Status().Candidate? by {
      if f :| f in risks && f.Status().Candidate? {
        var i :| 0 <= i < |risks| && risks[i] == f;
      }
    }
    assert (exists v: Severity :: !v.Info? && AnyConfirmed(risks, v))
           <==> exists f :: f in risks && f.Status().Confirmed? by {
      if f :| f in risks && f.Status().Confirmed? {
        var i :| 0 <= i < |risks| && risks[i] == f;
        assert AnyConfirmed(risks, f.severity);
      }
    }
  }

  // ----- what a stale runner can still do to a finalised scan -----

  /** A finish call that closes a required stage of `s` with anything but success. */
  predicate Spoils(a: Action, s: ScanId, stages: seq<Stage>) {
    a.Finish? && a.scan == s && a.position < |stages| && stages[a.position].required && !a.status.Succeeded?
  }

  predicate RequiredCovered(coverage: seq<Coverage>) {
    forall i :: 0 <= i < |coverage| ==> !coverage[i].required || coverage[i].status.Completed?
  }

  lemma FinishOnClosedScan(s: Scan, i: nat, st: StageStatus)
    requires ScanInv(s) && AllTerminal(s.stages) && OutWith(s, i)
    requires RequiredCovered(CoverageRows(s.stages))
    ensures RequiredCovered(CoverageRows(FinishAt(s.stages, i, st))) <==> !(s.stages[i].required && !st.Succeeded?)
  {
    FinishTouchesOne(s, i, st);
    assert RowInv(s.stages[i]);
    var before, after := CoverageRows(s.stages), CoverageRows(FinishAt(s.stages, i, st));
    assert forall k :: 0 <= k < |after| && k != i ==> after[k] == before[k];
    assert after[i].required == s.stages[i].required && (after[i].status.Completed? <==> st.Succeeded?);
    if !(s.stages[i].required && !st.Succeeded?) {
      forall k | 0 <= k < |after|
        ensures !after[k].required || after[k].status.Completed?
      {
        assert k != i ==> !before[k].required || before[k].status.Completed?;
      }
    }
  }

  /** Where everything is closed, finish_stage changes only its own row. */
  lemma FinishTouchesOne(s: Scan, i: nat, st: StageStatus)
    requires AllTerminal(s.stages) && OutWith(s, i)
    ensures FinishAt(s.stages, i, st) == s.stages[i := Reported(s.stages[i], st)]
  {
    var closed := s.stages[i := Reported(s.stages[i], st)];
    forall k | i < k < |s.stages|
      ensures FinishAt(s.stages, i, st)[k] == closed[k]
    {
      assert closed[k] == s.stages[k] && s.stages[k].status.Terminal();
    }
  }

  lemma OtherScanStepOnClosedScan(s: Scan, a: Action, now: Time)
    requires ScanInv(s) && AllTerminal(s.stages) && !s.status.Active()
    requires OnOneScan(a) && !a.Finish? && ScanEnabled(s, a)
    ensures CoverageRows(StepScan(s, a, now).stages) == CoverageRows(s.stages)
    ensures forall i :: 0 <= i < |s.stages| ==>
              StepScan(s, a, now).stages[i].unreported == s.stages[i].unreported
              && StepScan(s, a, now).stages[i].required == s.stages[i].required
  {
  }

  /** finish_stage has no status guard, so a runner that has not reported yet can take the coverage of a
      finished scan away. It does so exactly when it reports something other than success for a
      required stage; no other step can. */
  lemma CoverageOfFinishedScanStep(db: Db, a: Action, s: ScanId)
    requires Inv(db) && Enabled(db, a) && s in db.scans && !db.scans[s].status.Active()
    requires RequiredCovered(CoverageRows(db.scans[s].stages))
    ensures s in Apply(db, a).scans
    ensures RequiredCovered(CoverageRows(Apply(db, a).scans[s].stages)) <==> !Spoils(a, s, db.scans[s].stages)
  {
    hide Inv;
    ScanHasInv(db, s);
    if OnOneScan(a) && a.scan == s {
      OnScan(db, a, s);
      hide Apply, Enabled;
      if a.Finish? {
        FinishOnClosedScan(db.scans[s], a.position, a.status);
      } else {
        OtherScanStepOnClosedScan(db.scans[s], a, db.now);
      }
    } else {
      ClosedScanUntouched(db, a, s);
      hide Apply, Enabled;
    }
  }

  /** Every runner of a required stage has reported. */
  ghost predicate AllReported(stages: seq<Stage>) {
    forall i :: 0 <= i < |stages| && stages[i].required ==> stages[i].unreported == 0
  }

  lemma ReportKeepsReported(s: Scan, i: nat, st: StageStatus)
    requires AllTerminal(s.stages) && OutWith(s, i) && AllReported(s.stages)
    ensures AllReported(FinishAt(s.stages, i, st)) && !s.stages[i].required
  {
    FinishTouchesOne(s, i, st);
  }

  lemma AllReportedStep(db: Db, a: Action, s: ScanId)
    requires Inv(db) && Enabled(db, a)
    requires s in db.scans && !db.scans[s].status.Active() && AllReported(db.scans[s].stages)
    ensures s in Apply(db, a).scans && AllReported(Apply(db, a).scans[s].stages)
    ensures !Spoils(a, s, db.scans[s].stages)
  {
    hide Inv;
    ScanHasInv(db, s);
    if OnOneScan(a) && a.scan == s {
      OnScan(db, a, s);
      hide Apply, Enabled;
      if a.Finish? {
        ReportKeepsReported(db.scans[s], a.position, a.status);
        hide FinishAt;
      } else {
        OtherScanStepOnClosedScan(db.scans[s], a, db.now);
        hide StepScan;
      }
    } else {
      ClosedScanUntouched(db, a, s);
      hide Apply, Enabled;
    }
  }

  lemma {:induction false} ReportedScanKeepsCoverage(db: Db, actions: seq<Action>, s: ScanId)
    requires Inv(db) && Legal(db, actions) && s in db.scans && !db.scans[s].status.Active()
    requires RequiredCovered(CoverageRows(db.scans[s].stages)) && AllReported(db.scans[s].stages)
    ensures s in After(db, actions).scans && RequiredCovered(CoverageRows(After(db, actions).scans[s].stages))
    decreases |actions|
  {
    hide Inv, Apply, Enabled, RequiredCovered, AllReported, Spoils;
    if actions != [] {
      StepKeeps(db, actions[0]);
      assert ScanEvolves(db.scans[s], Apply(db, actions[0]).scans[s]);
      CoverageOfFinishedScanStep(db, actions[0], s);
      AllReportedStep(db, actions[0], s);
      ReportedScanKeepsCoverage(Apply(db, actions[0]), actions[1..], s);
    }
  }

  ghost predicate CoveredAfter(db: Db, actions: seq<Action>, s: ScanId)
    requires Legal(db, actions)
  {
    s in After(db, actions).scans && RequiredCovered(CoverageRows(After(db, actions).scans[s].stages))
  }

  /** A covered, finished scan stays covered in every continuation exactly when every runner of every
      required stage has reported. */
  lemma CoverageIsSafeExactlyWhenAllReported(db: Db, s: ScanId)
    requires Inv(db) && s in db.scans && !db.scans[s].status.Active()
    requires RequiredCovered(CoverageRows(db.scans[s].stages))
    ensures (forall actions :: Legal(db, actions) ==> CoveredAfter(db, actions, s))
            <==> AllReported(db.scans[s].stages)
  {
    hide Inv, Enabled, Apply;
    if AllReported(db.scans[s].stages) {
      forall actions | Legal(db, actions)
        ensures CoveredAfter(db, actions, s)
      {
        ReportedScanKeepsCoverage(db, actions, s);
      }
    } else {
      var i :| 0 <= i < |db.scans[s].stages| && db.scans[s].stages[i].required && db.scans[s].stages[i].unreported != 0;
      var stale := Finish(s, i, StageStatus.Failed);
      assert Spoils(stale, s, db.scans[s].stages);
      OnScan(db, stale, s);
      CoverageOfFinishedScanStep(db, stale, s);
      Prepend(db, stale, []);
      assert !CoveredAfter(db, [stale] + [], s);
    }
  }

  // ----- runs that show the gaps -----

  /** A runner loses its lease, a second one succeeds and finalises the scan as complete, and then the
      first one reports a failure: the scan is still called complete, and its coverage is not. */
  lemma StaleReportSpoilsCompleteScan(p: PlanStage) returns (actions: seq<Action>)
    requires 120 < p.timeout <= 86400 && p.required
    ensures |actions| > 0 && Legal(EMPTY, actions[..|actions| - 1]) && Legal(EMPTY, actions) && OneClock(EMPTY, actions)
    ensures var before := After(EMPTY, actions[..|actions| - 1]);
            && 0 in before.scans && before.scans[0].status.Complete?
            && RequiredCovered(CoverageRows(before.scans[0].stages))
    ensures var after := After(EMPTY, actions);
            && 0 in after.scans && after.scans[0].status.Complete?
            && !RequiredCovered(CoverageRows(after.scans[0].stages))
  {
    var done := Reported(ClaimedRow(p, 1), StageStatus.Succeeded);
    var complete := OneStage(Complete, false, done);
    var before := SecondRunnerCompletes(p);
    var stale := Finish(0, 0, StageStatus.Failed);
    OneStageFinishes(ROUND, complete, done, StageStatus.Failed);
    OneStageCoverage(complete, done);
    OneStageCoverage(complete.(stages := [Reported(done, StageStatus.Failed)]), Reported(done, StageStatus.Failed));
    hide Apply, Enabled, NoneOverdue, LateRequeue, LateRequeues, RequiredCovered, Reported, ClaimedSince;
    Extend(EMPTY, before, stale);
    actions := before + [stale];
    assert actions[..|actions| - 1] == before;
  }

  /** The second runner has succeeded and still has to finalise; the first one has not reported. */
  function SecondRunnerDone(p: PlanStage): Scan {
    OneStage(ScanStatus.Running, false, Reported(ClaimedRow(p, 1), StageStatus.Succeeded)).(calls := 1)
  }

  lemma SecondRunnerSucceeds(p: PlanStage) returns (actions: seq<Action>)
    requires 120 < p.timeout <= 86400
    ensures Legal(EMPTY, actions) && OneClock(EMPTY, actions)
    ensures After(EMPTY, actions) == Single(ROUND, SecondRunnerDone(p))
  {
    var running := ClaimedRow(p, 1);
    var succeed := Finish(0, 0, StageStatus.Succeeded);
    OneStageFinishes(ROUND, OneStage(ScanStatus.Running, false, running), running, StageStatus.Succeeded);
    hide Apply, Enabled, NoneOverdue, LateRequeue, LateRequeues, Reported, ClaimedSince;
    actions := FirstRunnerLost(p);
    Extend(EMPTY, actions, succeed);
    actions := actions + [succeed];
  }

  lemma SecondRunnerCompletes(p: PlanStage) returns (actions: seq<Action>)
    requires 120 < p.timeout <= 86400
    ensures Legal(EMPTY, actions) && OneClock(EMPTY, actions)
    ensures After(EMPTY, actions)
            == OneStageDb(ROUND, Complete, false, Reported(ClaimedRow(p, 1), StageStatus.Succeeded))
  {
    var closed := SecondRunnerDone(p);
    OneStageCompletes(ROUND, closed, Reported(ClaimedRow(p, 1), StageStatus.Succeeded));
    hide Apply, Enabled, NoneOverdue, LateRequeues, Reported, ClaimedSince, CalledDb;
    actions := SecondRunnerSucceeds(p);
    var call := CallIsARun(Single(ROUND, closed), 0, false);
    Append(EMPTY, actions, call);
    actions := actions + call;
  }

  lemma ThenOnSingle(before: seq<Action>, scan: Scan, a: Action) returns (actions: seq<Action>)
    requires Legal(EMPTY, before) && OneClock(EMPTY, before) && After(EMPTY, before) == Single(ROUND, scan)
    requires OnOneScan(a) && a.scan == 0 && ScanEnabled(scan, a)
    ensures Legal(EMPTY, actions) && OneClock(EMPTY, actions)
    ensures After(EMPTY, actions) == Single(ROUND, StepScan(scan, a, ROUND))
  {
    OnScan(Single(ROUND, scan), a, 0);
    SingleIs(Apply(Single(ROUND, scan), a), ROUND, StepScan(scan, a, ROUND));
    hide Apply, Enabled, NoneOverdue, LateRequeues, StepScan;
    Extend(EMPTY, before, a);
    actions := before + [a];
  }

  /** With a report between reading and writing the two can disagree from the start: the second runner reads that
      its stage succeeded, the first one reports a failure, and then the scan is written complete. */
  lemma OutcomeIsOutdated(p: PlanStage) returns (actions: seq<Action>)
    requires 120 < p.timeout <= 86400 && p.required
    ensures Legal(EMPTY, actions) && OneClock(EMPTY, actions)
    ensures Enabled(After(EMPTY, actions), Action.WriteStatus(0))
    ensures var written := Apply(After(EMPTY, actions), Action.WriteStatus(0)).scans[0];
            written.status.Complete? && !RequiredCovered(CoverageRows(written.stages))
  {
    var done := Reported(ClaimedRow(p, 1), StageStatus.Succeeded);
    var scan := SecondRunnerDone(p).(calls := 0, lock := Decided(Complete));
    var late := Finish(0, 0, StageStatus.Failed);
    actions := SecondRunnerReads(p);
    actions := ThenOnSingle(actions, scan, late);
    scan := StepScan(scan, late, ROUND);
    assert scan.stages == [Reported(done, StageStatus.Failed)];
    OneStageCoverage(scan, Reported(done, StageStatus.Failed));
    OnScan(Single(ROUND, scan), Action.WriteStatus(0), 0);
    hide OneClock, After, Legal;
  }

  lemma SecondRunnerReads(p: PlanStage) returns (actions: seq<Action>)
    requires 120 < p.timeout <= 86400
    ensures Legal(EMPTY, actions) && OneClock(EMPTY, actions)
    ensures After(EMPTY, actions) == Single(ROUND, SecondRunnerDone(p).(calls := 0, lock := Decided(Complete)))
  {
    var scan := SecondRunnerDone(p);
    actions := SecondRunnerSucceeds(p);
    actions := ThenOnSingle(actions, scan, TakeLock(0));
    scan := StepScan(scan, TakeLock(0), ROUND);
    actions := ThenOnSingle(actions, scan, ReadRows(0));
  }

  lemma OneStageCompletes(now: Time, scan: Scan, r: Stage)
    requires scan == OneStage(ScanStatus.Running, false, r).(calls := 1) && r.status.Succeeded?
    ensures CalledDb(Single(now, scan), 0, false) == OneStageDb(now, Complete, false, r)
  {
    assert AllTerminal([r]) && !RequiredFailure([r]) && !AnyCancelled([r]);
    SingleIs(CalledDb(Single(now, scan), 0, false), now, OneStage(Complete, false, r));
  }

  lemma OneStageCoverage(scan: Scan, r: Stage)
    requires scan.stages == [r]
    ensures RequiredCovered(CoverageRows(scan.stages)) <==> !r.coverage.required || r.coverage.status.Completed?
  {
    assert CoverageRows([r])[0] == r.coverage;
  }

  lemma FirstRunnerLost(p: PlanStage) returns (actions: seq<Action>)
    requires 120 < p.timeout <= 86400
    ensures Legal(EMPTY, actions) && OneClock(EMPTY, actions)
    ensures After(EMPTY, actions) == OneStageDb(ROUND, ScanStatus.Running, false, ClaimedRow(p, 1))
  {
    var enqueue, claim := Enqueue(0, 0, [p]), Claim(0, 0, RUNNER);
    LoneStage(p);
    LostOnce(p);
    hide Apply, Enabled, NoneOverdue, LateRequeue, LateRequeues, WaitingSince, ClaimedSince;
    Extend(EMPTY, [], enqueue);
    actions := [] + [enqueue];
    Extend(EMPTY, actions, claim);
    actions := actions + [claim];
    Extend(EMPTY, actions, Tick(ROUND));
    actions := actions + [Tick(ROUND)];
    Extend(EMPTY, actions, RequeueExpiredStages);
    actions := actions + [RequeueExpiredStages];
    Extend(EMPTY, actions, claim);
    actions := actions + [claim];
  }

  lemma LostOnce(p: PlanStage)
    requires 120 < p.timeout <= 86400
    ensures var waiting, claimed := OneStageDb(0, ScanStatus.Queued, false, Waiting(p, 0)),
                                    OneStageDb(0, ScanStatus.Running, false, ClaimedRow(p, 0));
            var later, again := OneStageDb(ROUND, ScanStatus.Running, false, ClaimedRow(p, 0)),
                                OneStageDb(ROUND, ScanStatus.Running, false, Waiting(p, 1));
            && Enabled(waiting, Claim(0, 0, RUNNER)) && Apply(waiting, Claim(0, 0, RUNNER)) == claimed
            && Apply(claimed, Tick(ROUND)) == later && NoneOverdue(later)
            && Apply(later, RequeueExpiredStages) == again && Enabled(again, Claim(0, 0, RUNNER))
            && Apply(again, Claim(0, 0, RUNNER)) == OneStageDb(ROUND, ScanStatus.Running, false, ClaimedRow(p, 1))
  {
    OneStageClaims(0, ScanStatus.Queued, Waiting(p, 0));
    OneStageTick(0, ScanStatus.Running, false, ClaimedRow(p, 0), ROUND);
    OneStageRequeues(ROUND, ScanStatus.Running, false, ClaimedRow(p, 0));
    OneStageClaims(ROUND, ScanStatus.Running, Waiting(p, 1));
    assert !Overdue(ClaimedRow(p, 0), ROUND);
  }

  /** Complete does not mean that every planned stage succeeded: an optional stage failed in this run. */
  lemma CompleteWithFailedStage(p: PlanStage, q: PlanStage) returns (actions: seq<Action>)
    requires ValidPlan([p, q]) && p.required && !q.required && q.adapter != SCOPE_PREFLIGHT
    ensures Legal(EMPTY, actions) && HasStage(After(EMPTY, actions), 0, 1)
    ensures After(EMPTY, actions).scans[0].status.Complete?
    ensures After(EMPTY, actions).scans[0].stages[1].status.Failed?
  {
    var scan := NewScan(0, [p, q], 0);
    actions := ReachQueued([p, q]);
    actions := ReachWorkedOff(actions, scan, 0);
    scan := WorkedOff(scan, 0);
    var claim, fail := Claim(0, 1, RUNNER), Finish(0, 1, StageStatus.Failed);
    actions := Reach(actions, scan, false, claim);
    scan := StepScan(scan, claim, 0);
    actions := Reach(actions, scan, false, fail);
    scan := StepScan(scan, fail, 0);
    OptionalFailureCompletes(scan);
    hide Reaches, StepScan;
    actions := ReachStatus(actions, scan, Complete);
  }

  lemma OptionalFailureCompletes(s: Scan)
    requires |s.stages| == 2 && s.stages[0].status.Succeeded? && s.stages[1].status.Failed? && !s.stages[1].required
    ensures AllTerminal(s.stages) && Outcome(s.stages) == Complete
  {
  }

  /** Finalising a closed scan as far as its status. */
  lemma ReachStatus(before: seq<Action>, scan: Scan, status: ScanStatus) returns (actions: seq<Action>)
    requires Reaches(before, scan, false) && scan.calls >= 1 && scan.lock.Free? && scan.stages != []
    requires AllTerminal(scan.stages) && Outcome(scan.stages) == status
    ensures Legal(EMPTY, actions) && 0 in After(EMPTY, actions).scans
    ensures After(EMPTY, actions).scans[0].status == status && After(EMPTY, actions).scans[0].stages == scan.stages
  {
    hide AllTerminal, Outcome;
    actions := Reach(before, scan, false, TakeLock(0));
    var locked := StepScan(scan, TakeLock(0), 0);
    actions := Reach(actions, locked, false, ReadRows(0));
    var read := StepScan(locked, ReadRows(0), 0);
    actions := Reach(actions, read, false, Action.WriteStatus(0));
  }
}
