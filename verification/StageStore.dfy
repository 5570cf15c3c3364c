/** The runner's database operations, carried out on mutable tables. Every method is proved
    to take the corresponding step of the stage queue, so whatever holds of all runs of the
    queue holds of any sequence of calls. */
module StageStore {
  import opened Common
  import opened StageQueue
  import opened StageQueueSteps
  import opened StageQueueSafety
  import opened StageQueueProgress
  import opened StageQueueWitness
  import opened StageQueueBounds
  import opened Finalisation

  datatype QueueError = OutOfScope | ActiveScanExists
  datatype CancelError = ScanNotFound | AlreadyTerminal

  datatype StageKey = StageKey(scan: ScanId, position: nat)

  /** The order in which claim_stage looks at waiting stages. */
  predicate Before(scans: map<ScanId, Scan>, a: StageKey, b: StageKey)
    requires IsStage(scans, a) && IsStage(scans, b)
  {
    var ra, rb := scans[a.scan].stages[a.position], scans[b.scan].stages[b.position];
    ra.createdAt < rb.createdAt || (ra.createdAt == rb.createdAt && a.position < b.position)
  }

  predicate IsStage(scans: map<ScanId, Scan>, k: StageKey) {
    k.scan in scans && k.position < |scans[k.scan].stages|
  }

  function StageKeys(scans: map<ScanId, Scan>): (keys: set<StageKey>)
    ensures forall k :: k in keys <==> IsStage(scans, k)
  {
    set s, i | s in scans && 0 <= i < |scans[s].stages| :: StageKey(s, i)
  }

  function Candidates(scans: map<ScanId, Scan>, locked: set<StageKey>): (keys: set<StageKey>)
    ensures forall k :: k in keys ==> IsStage(scans, k)
  {
    set k | k in StageKeys(scans) && k !in locked && Claimable(scans[k.scan], k.position)
  }

  lemma {:induction false} FirstExists(scans: map<ScanId, Scan>, keys: set<StageKey>) returns (first: StageKey)
    requires keys != {} && forall k :: k in keys ==> IsStage(scans, k)
    ensures first in keys && forall k :: k in keys ==> !Before(scans, k, first)
    decreases |keys|
  {
    var k :| k in keys;
    if keys == {k} {
      first := k;
    } else {
      var rest := FirstExists(scans, keys - {k});
      first := if Before(scans, k, rest) then k else rest;
      forall x | x in keys
        ensures !Before(scans, x, first)
      {
        assert x == k || x in keys - {k};
      }
    }
  }

  /** ORDER BY created_at, position ... SKIP LOCKED LIMIT 1. */
  method FirstCandidate(scans: map<ScanId, Scan>, locked: set<StageKey>) returns (r: Option<StageKey>)
    ensures r.None? <==> Candidates(scans, locked) == {}
    ensures r.Some? ==>
              && r.value in Candidates(scans, locked)
              && (forall k :: k in Candidates(scans, locked) ==> !Before(scans, k, r.value))
  {
    var candidates := Candidates(scans, locked);
    if candidates == {} {
      return None;
    }
    ghost var first := FirstExists(scans, candidates);
    var key :| key in candidates && forall k :: k in candidates ==> !Before(scans, k, key);
    return Some(key);
  }

  class Store {
    var now: Time
    var scans: map<ScanId, Scan>

    constructor ()
      ensures State() == EMPTY && Inv(State())
    {
      now := 0;
      scans := map[];
    }

    function State(): Db
      reads this
    {
      Db(now, scans)
    }

    method Tick(elapsed: nat)
      requires Inv(State())
      modifies this
      ensures State() == Apply(old(State()), Action.Tick(elapsed)) && Inv(State())
    {
      StepKeeps(State(), Action.Tick(elapsed));
      now := now + elapsed;
    }

    /** _queue_assessment_scan: refused outside the stored scope or next to an active scan. */
    method QueueAssessmentScan(assessment: AssessmentId, inScope: bool, plan: seq<PlanStage>)
      returns (r: Result<ScanId, QueueError>)
      requires Inv(State()) && ValidPlan(plan)
      modifies this
      ensures r == Err(OutOfScope) <==> !inScope
      ensures r == Err(ActiveScanExists) <==> inScope && HasActiveScan(old(State()), assessment)
      ensures r.Err? ==> State() == old(State())
      ensures r.Ok? ==> Enabled(old(State()), Enqueue(r.value, assessment, plan))
                        && State() == Apply(old(State()), Enqueue(r.value, assessment, plan))
      ensures Inv(State())
      ensures inScope ==>
                (r.Ok? <==> forall t :: t in old(scans) && old(scans)[t].assessment == assessment
                                        ==> IsFinished(old(scans)[t].status))
      ensures r.Ok? ==>
                && r.value !in old(scans) && r.value in scans && scans == old(scans)[r.value := scans[r.value]]
                && IsNew(scans[r.value], assessment, plan, old(now)) && now == old(now)
    {
      if !inScope {
        return Err(OutOfScope);
      }
      if HasActiveScan(State(), assessment) {
        return Err(ActiveScanExists);
      }
      var id := FreshId(scans.Keys);
      StepKeeps(State(), Enqueue(id, assessment, plan));
      EnqueueWrites(State(), id, assessment, plan);
      var rows: seq<Stage> := [];
      for k := 0 to |plan|
        invariant rows == NewScan(assessment, plan[..k], now).stages
      {
        assert plan[..k + 1] == plan[..k] + [plan[k]];
        rows := rows + [NewStage(plan[k], now)];
      }
      assert plan[..|plan|] == plan;
      scans := scans[id := Scan(assessment, ScanStatus.Queued, false, rows, 0, Free)];
      return Ok(id);
    }

    /** claim_stage: the oldest claimable stage that no concurrent claim has locked. */
    method ClaimStage(owner: Owner, locked: set<StageKey>) returns (r: Option<StageKey>)
      requires Inv(State())
      modifies this
      ensures r.None? <==> Candidates(old(scans), locked) == {}
      ensures r.None? ==> State() == old(State())
      ensures r.Some? ==>
                && r.value in Candidates(old(scans), locked)
                && (forall k :: k in Candidates(old(scans), locked) ==> !Before(old(scans), k, r.value))
                && State() == Apply(old(State()), Claim(r.value.scan, r.value.position, owner))
      ensures Inv(State())
      ensures r.None? <==> forall k :: !CanTake(old(scans), locked, k)
      ensures r.Some? ==>
                && CanTake(old(scans), locked, r.value)
                && (forall k :: CanTake(old(scans), locked, k) ==>
                      var first, other := old(scans)[r.value.scan].stages[r.value.position],
                                          old(scans)[k.scan].stages[k.position];
                      first.createdAt < other.createdAt
                      || (first.createdAt == other.createdAt && r.value.position <= k.position))
                && OnlyChanges(old(scans), scans, r.value.scan) && now == old(now)
                && ClaimWrites(old(scans)[r.value.scan], scans[r.value.scan], r.value.position, owner, now)
    {
      CandidatesByColumns(scans, locked);
      hide Inv, Before, Candidates, CanTake;
      var found := FirstCandidate(scans, locked);
      if found.None? {
        return None;
      }
      var key := found.value;
      FirstByColumns(scans, locked, key);
      StepKeeps(State(), Claim(key.scan, key.position, owner));
      StepWrites(State(), Claim(key.scan, key.position, owner));
      var scan := scans[key.scan];
      var row := scan.stages[key.position];
      row := row.(status := StageStatus.Running, attempt := row.attempt + 1, owner := Some(owner),
                  lease := Some(now + LEASE), startedAt := OrElse(row.startedAt, now),
                  unreported := row.unreported + 1);
      row := row.(coverage := row.coverage.(status := CoverageStatus.Running,
                                            startedAt := OrElse(row.coverage.startedAt, now)));
      scans := scans[key.scan := scan.(status := ScanStatus.Running, stages := scan.stages[key.position := row])];
      return Some(key);
    }

    method HeartbeatStage(s: ScanId, i: nat) returns (renewed: bool)
      requires Inv(State()) && Enabled(State(), Heartbeat(s, i))
      modifies this
      ensures State() == Apply(old(State()), Heartbeat(s, i)) && Inv(State())
      ensures OnlyChanges(old(scans), scans, s) && HeartbeatWrites(old(scans)[s], scans[s], i, old(now))
      ensures !renewed ==> State() == old(State())
    {
      hide Inv;
      StepKeeps(State(), Heartbeat(s, i));
      StepWrites(State(), Heartbeat(s, i));
      var row := scans[s].stages[i];
      renewed := row.status.Running? && row.startedAt.Some? && now < Deadline(row);
      if renewed {
        scans := scans[s := scans[s].(stages := scans[s].stages[i := row.(lease := Some(now + LEASE))])];
      } else {
        assert scans[s := scans[s]] == scans;
      }
    }

    /** The renewal inside run_command, which does not ask whether the stage still runs. */
    method RenewLease(s: ScanId, i: nat)
      requires Inv(State()) && Enabled(State(), Action.RenewLease(s, i))
      modifies this
      ensures State() == Apply(old(State()), Action.RenewLease(s, i)) && Inv(State())
      ensures OnlyChanges(old(scans), scans, s) && RenewalWrites(old(scans)[s], scans[s], i, old(now))
    {
      hide Inv;
      StepKeeps(State(), Action.RenewLease(s, i));
      StepWrites(State(), Action.RenewLease(s, i));
      var row := scans[s].stages[i];
      scans := scans[s := scans[s].(stages := scans[s].stages[i := row.(lease := Some(now + LEASE))])];
    }

    /** Closes the waiting stages behind a position, row by row. */
    method CloseWaiting(stages: seq<Stage>, from: nat, status: StageStatus) returns (rows: seq<Stage>)
      ensures rows == SweepFrom(stages, from, status)
    {
      rows := stages;
      for k := 0 to |stages|
        invariant |rows| == |stages|
        invariant forall j :: 0 <= j < k ==> rows[j] == SweepFrom(stages, from, status)[j]
        invariant forall j :: k <= j < |stages| ==> rows[j] == stages[j]
      {
        if from <= k && rows[k].status.Queued? {
          rows := rows[k := rows[k].(status := status, coverage := rows[k].coverage.(status := CoverageOf(status)))];
        }
      }
    }

    /** finish_stage: no status guard, and a failed scope preflight blocks what waits behind it. */
    method FinishStage(s: ScanId, i: nat, status: StageStatus)
      requires Inv(State()) && Enabled(State(), Finish(s, i, status))
      modifies this
      ensures State() == Apply(old(State()), Finish(s, i, status)) && Inv(State())
      ensures OnlyChanges(old(scans), scans, s) && FinishWrites(old(scans)[s], scans[s], i, status)
    {
      hide Inv;
      StepKeeps(State(), Finish(s, i, status));
      StepWrites(State(), Finish(s, i, status));
      var rows := scans[s].stages;
      var row := rows[i].(status := status, owner := None, lease := None);
      row := row.(coverage := row.coverage.(status := if status.Succeeded? then Completed else CoverageOf(status)));
      row := row.(unreported := row.unreported - 1,
                  unswept := if status.Cancelled? then row.unswept + 1 else row.unswept);
      rows := rows[i := row];
      if BlocksDownstream(row.adapter, status) {
        rows := CloseWaiting(rows, i + 1, StageStatus.Blocked);
      }
      var calls := if status.Cancelled? then scans[s].calls else scans[s].calls + 1;
      scans := scans[s := scans[s].(stages := rows, calls := calls)];
    }

    method CancelPendingStages(s: ScanId, i: nat)
      requires Inv(State()) && Enabled(State(), CancelPending(s, i))
      modifies this
      ensures State() == Apply(old(State()), CancelPending(s, i)) && Inv(State())
      ensures OnlyChanges(old(scans), scans, s) && SweepWrites(old(scans)[s], scans[s], i)
    {
      hide Inv;
      StepKeeps(State(), CancelPending(s, i));
      StepWrites(State(), CancelPending(s, i));
      var rows := scans[s].stages;
      rows := rows[i := rows[i].(unswept := rows[i].unswept - 1)];
      rows := CloseWaiting(rows, i + 1, StageStatus.Cancelled);
      scans := scans[s := scans[s].(stages := rows, calls := scans[s].calls + 1)];
    }

    /** cancel_scan: immediate when nothing runs, otherwise a request to the running stage. */
    method CancelScan(s: ScanId) returns (r: Result<bool, CancelError>)
      requires Inv(State())
      modifies this
      ensures r == Err(ScanNotFound) <==> s !in old(scans)
      ensures r == Err(AlreadyTerminal) <==> s in old(scans) && !old(scans)[s].status.Active()
      ensures r.Err? ==> State() == old(State())
      ensures r.Ok? ==> State() == Apply(old(State()), Action.CancelScan(s))
                        && (r.value <==> !scans[s].status.Active())
      ensures r.Ok? ==> OnlyChanges(old(scans), scans, s) && CancelWrites(old(scans)[s], scans[s])
      ensures Inv(State())
    {
      if s !in scans {
        return Err(ScanNotFound);
      }
      if !scans[s].status.Active() {
        return Err(AlreadyTerminal);
      }
      StepKeeps(State(), Action.CancelScan(s));
      StepWrites(State(), Action.CancelScan(s));
      CancelKeeps(scans[s]);
      if AnyRunning(scans[s].stages) {
        scans := scans[s := scans[s].(cancelRequested := true)];
        return Ok(false);
      }
      var rows := CloseWaiting(scans[s].stages, 0, StageStatus.Cancelled);
      scans := scans[s := scans[s].(status := ScanStatus.Cancelled, cancelRequested := true, stages := rows)];
      return Ok(true);
    }

    /** pg_try_advisory_lock: refused while another process finalises the scan, and the call is over. */
    method TakeReportLock(s: ScanId) returns (taken: bool)
      requires Inv(State()) && Enabled(State(), TakeLock(s))
      modifies this
      ensures taken <==> old(scans)[s].lock.Free?
      ensures State() == Apply(old(State()), TakeLock(s)) && Inv(State())
    {
      hide Inv;
      StepKeeps(State(), TakeLock(s));
      taken := scans[s].lock.Free?;
      scans := scans[s := scans[s].(calls := scans[s].calls - 1)];
      if taken {
        scans := scans[s := scans[s].(lock := Entered)];
      }
    }

    /** The rows are read once; what other processes write from then on is not looked at. */
    method ReadStageRows(s: ScanId) returns (done: bool)
      requires Inv(State()) && Enabled(State(), ReadRows(s))
      modifies this
      ensures done <==> AllTerminal(old(scans)[s].stages)
      ensures State() == Apply(old(State()), ReadRows(s)) && Inv(State())
      ensures OnlyChanges(old(scans), scans, s) && scans[s] == old(scans)[s].(lock := scans[s].lock)
      ensures done <==> AllClosed(old(scans)[s].stages)
      ensures if done then scans[s].lock.Decided? && Fits(scans[s].lock.outcome, scans[s].stages)
              else scans[s].lock.Leaving?
    {
      StepKeeps(State(), ReadRows(s));
      StepWrites(State(), ReadRows(s));
      ScanHasInv(State(), s);
      AllClosedByName(scans[s].stages);
      hide Inv, Outcome, AllTerminal, AllClosed, Fits;
      var outcome;
      done, outcome := OutcomeOf(scans[s].stages);
      scans := scans[s := scans[s].(lock := if done then Decided(outcome) else Leaving)];
    }

    method WriteOutcome(s: ScanId)
      requires Inv(State()) && Enabled(State(), Action.WriteStatus(s))
      modifies this
      ensures State() == Apply(old(State()), Action.WriteStatus(s)) && Inv(State())
    {
      hide Inv;
      StepKeeps(State(), Action.WriteStatus(s));
      scans := scans[s := scans[s].(status := scans[s].lock.outcome, lock := Written)];
    }

    /** A failing report rewrites the status that was just written. */
    method PersistReport(s: ScanId, fails: bool)
      requires Inv(State()) && Enabled(State(), FinishReport(s, fails))
      modifies this
      ensures State() == Apply(old(State()), FinishReport(s, fails)) && Inv(State())
    {
      hide Inv;
      StepKeeps(State(), FinishReport(s, fails));
      if fails {
        scans := scans[s := scans[s].(status := Partial)];
      }
      scans := scans[s := scans[s].(lock := Leaving)];
    }

    method ReleaseReportLock(s: ScanId)
      requires Inv(State()) && Enabled(State(), Unlock(s))
      modifies this
      ensures State() == Apply(old(State()), Unlock(s)) && Inv(State())
    {
      hide Inv;
      StepKeeps(State(), Unlock(s));
      scans := scans[s := scans[s].(lock := Free)];
    }

    /** finalize_if_terminal, from the lock to its release. */
    method FinalizeIfTerminal(s: ScanId, reportFails: bool) returns (done: bool)
      requires Inv(State()) && s in scans && scans[s].calls >= 1
      modifies this
      ensures done <==> old(scans)[s].lock.Free? && AllTerminal(old(scans)[s].stages)
      ensures State() == CalledDb(old(State()), s, reportFails) && Inv(State())
      ensures CallWrites(old(scans), scans, s, reportFails)
    {
      ScanHasStages(State(), s);
      CallWritesByColumns(State(), s, reportFails);
      hide CallWrites;
      CallInSteps(State(), s, reportFails);
      hide Inv, Apply, Enabled, CalledDb;
      var taken := TakeReportLock(s);
      if !taken {
        return false;
      }
      done := ReadStageRows(s);
      if done {
        WriteOutcome(s);
        PersistReport(s, reportFails);
      }
      ReleaseReportLock(s);
    }

    /** The first statement of recover_expired_leases, row by row, and the finalisations of the scans it
        touched. */
    method CloseOverdueRows(failingReports: set<ScanId>)
      requires Inv(State())
      modifies this
      ensures State() == FinalizedAll(Apply(old(State()), CloseOverdueStages), OverdueScans(old(State())),
                                      failingReports)
      ensures Inv(State())
      ensures now == old(now) && PassesOver(old(scans), scans, now, failingReports)
    {
      hide Inv, Apply, Evolves, OverdueScans, TimedOutScan, FinalizedAll, PassesOver;
      StepKeeps(State(), CloseOverdueStages);
      OverdueAreCalled(State());
      WideSteps(State());
      PassByColumns(State(), failingReports);
      var overdue := OverdueScans(State());
      scans := TimeOutScans(scans, now);
      assert State() == Apply(old(State()), CloseOverdueStages);
      FinalizeAll(overdue, failingReports);
    }

    /** The second statement. */
    method RequeueExpiredRows()
      requires Inv(State())
      modifies this
      ensures State() == Apply(old(State()), RequeueExpiredStages) && Inv(State())
      ensures now == old(now) && RequeuesOver(old(scans), scans, now)
    {
      hide Inv, Apply, Evolves, RequeueExpired, RequeuesOver;
      RequeueByColumns(State());
      StepKeeps(State(), RequeueExpiredStages);
      WideSteps(State());
      scans := RequeueScans(scans, now);
    }

    /** recover_expired_leases: close what is overdue, finalise the scans this touched, then, `elapsed` later
        by a clock of its own, re-queue what stopped heartbeating. */
    method RecoverExpiredLeases(failingReports: set<ScanId>, elapsed: nat)
      requires Inv(State())
      modifies this
      ensures State() == Recovered(old(State()), failingReports, elapsed)
      ensures Inv(State())
    {
      CloseOverdueRows(failingReports);
      Tick(elapsed);
      RequeueExpiredRows();
    }

    /** One finalisation after another, in any order. */
    method FinalizeAll(targets: set<ScanId>, failingReports: set<ScanId>)
      requires Inv(State()) && targets <= scans.Keys && forall s :: s in targets ==> scans[s].calls >= 1
      modifies this
      ensures State() == FinalizedAll(old(State()), targets, failingReports) && Inv(State())
    {
      hide Inv, Called;
      var todo := targets;
      while todo != {}
        invariant todo <= targets && targets <= scans.Keys && scans.Keys == old(scans).Keys && now == old(now)
        invariant Inv(State())
        invariant forall s :: s in old(scans) && (s in todo || s !in targets) ==> scans[s] == old(scans)[s]
        invariant forall s :: s in targets - todo ==> scans[s] == Called(old(scans)[s], s in failingReports)
        decreases todo
      {
        var s :| s in todo;
        var done := FinalizeIfTerminal(s, s in failingReports);
        todo := todo - {s};
      }
      assert scans == FinalizedAll(old(State()), targets, failingReports).scans;
    }
  }

  /** What the rows say about the scan: whether all are closed, and the status this gives. */
  method OutcomeOf(stages: seq<Stage>) returns (done: bool, outcome: ScanStatus)
    ensures done <==> AllTerminal(stages)
    ensures outcome == Outcome(stages)
    ensures done <==> AllClosed(stages)
    ensures Fits(outcome, stages)
  {
    OutcomeFits(stages);
    AllClosedByName(stages);
    hide Fits, AllClosed;
    var cancelled, requiredFailure, succeeded := false, false, 0;
    done := true;
    for k := 0 to |stages|
      invariant done <==> AllTerminal(stages[..k])
      invariant cancelled <==> AnyCancelled(stages[..k])
      invariant requiredFailure <==> RequiredFailure(stages[..k])
      invariant succeeded > 0 <==> AnySucceeded(stages[..k])
    {
      var row := stages[k];
      RowsSoFar(stages, k);
      done := done && row.status.Terminal();
      cancelled := cancelled || row.status.Cancelled?;
      requiredFailure := requiredFailure || (row.required && !row.status.Succeeded?);
      succeeded := succeeded + (if row.status.Succeeded? then 1 else 0);
    }
    assert stages[..|stages|] == stages;
    outcome := if cancelled then ScanStatus.Cancelled
               else if requiredFailure && succeeded == 0 then ScanStatus.Failed
               else if requiredFailure then Partial
               else Complete;
  }

  lemma RowsSoFar(stages: seq<Stage>, k: nat)
    requires k < |stages|
    ensures AllTerminal(stages[..k + 1]) <==> AllTerminal(stages[..k]) && stages[k].status.Terminal()
    ensures AnyCancelled(stages[..k + 1]) <==> AnyCancelled(stages[..k]) || stages[k].status.Cancelled?
    ensures RequiredFailure(stages[..k + 1])
            <==> RequiredFailure(stages[..k]) || (stages[k].required && !stages[k].status.Succeeded?)
    ensures AnySucceeded(stages[..k + 1]) <==> AnySucceeded(stages[..k]) || stages[k].status.Succeeded?
  {
    var a, b := stages[..k], stages[..k + 1];
    assert b == a + [stages[k]];
    assert b[k] == stages[k] && forall i :: 0 <= i < k ==> b[i] == a[i];
  }

  /** Closes the overdue rows one by one and counts them. */
  method TimeOutRows(stages: seq<Stage>, now: Time) returns (rows: seq<Stage>, closed: nat)
    ensures rows == CloseOverdue(stages, now) && closed == Timeouts(stages, now)
  {
    rows, closed := stages, 0;
    ghost var found: set<int> := {};
    for k := 0 to |stages|
      invariant |rows| == |stages|
      invariant forall j :: 0 <= j < k ==> rows[j] == CloseOverdue(stages, now)[j]
      invariant forall j :: k <= j < |stages| ==> rows[j] == stages[j]
      invariant found == (set j | 0 <= j < k && Overdue(stages[j], now)) && closed == |found|
    {
      var row := rows[k];
      if row.status.Running? && row.startedAt.Some? && Deadline(row) <= now {
        row := row.(status := StageStatus.TimedOut, owner := None, lease := None);
        rows := rows[k := row.(coverage := row.coverage.(status := CoverageStatus.TimedOut))];
        closed := closed + 1;
        found := found + {k};
      }
    }
  }

  method TimeOutScans(scans: map<ScanId, Scan>, now: Time) returns (after: map<ScanId, Scan>)
    ensures after == map s | s in scans :: TimedOutScan(scans[s], now)
  {
    hide CloseOverdue, Timeouts;
    after := scans;
    var todo := scans.Keys;
    while todo != {}
      invariant todo <= scans.Keys == after.Keys
      invariant forall s :: s in scans ==> after[s] == if s in todo then scans[s] else TimedOutScan(scans[s], now)
      decreases todo
    {
      var s :| s in todo;
      var rows, closed := TimeOutRows(after[s].stages, now);
      after := after[s := after[s].(stages := rows, calls := after[s].calls + closed)];
      todo := todo - {s};
    }
  }

  method RequeueScans(scans: map<ScanId, Scan>, now: Time) returns (after: map<ScanId, Scan>)
    ensures after == map s | s in scans :: scans[s].(stages := RequeueExpired(scans[s].stages, now))
  {
    hide RequeueExpired;
    after := scans;
    var todo := scans.Keys;
    while todo != {}
      invariant todo <= scans.Keys == after.Keys
      invariant forall s :: s in scans ==>
                  after[s] == if s in todo then scans[s]
                              else scans[s].(stages := RequeueExpired(scans[s].stages, now))
      decreases todo
    {
      var s :| s in todo;
      var rows := RequeueRows(after[s].stages, now);
      after := after[s := after[s].(stages := rows)];
      todo := todo - {s};
    }
  }

  method RequeueRows(stages: seq<Stage>, now: Time) returns (rows: seq<Stage>)
    ensures rows == RequeueExpired(stages, now)
  {
    rows := stages;
    for k := 0 to |stages|
      invariant |rows| == |stages|
      invariant forall j :: 0 <= j < k ==> rows[j] == RequeueExpired(stages, now)[j]
      invariant forall j :: k <= j < |stages| ==> rows[j] == stages[j]
    {
      var row := rows[k];
      if row.status.Running? && row.lease.Some? && row.lease.value < now {
        row := row.(status := StageStatus.Queued, owner := None, lease := None);
        rows := rows[k := row.(coverage := row.coverage.(status := Planned, startedAt := None))];
      }
    }
  }

  lemma AllClosedByName(rows: seq<Stage>)
    ensures AllTerminal(rows) <==> AllClosed(rows)
  {
  }

  /** A stage that is not locked and can be claimed. */
  ghost predicate CanTake(scans: map<ScanId, Scan>, locked: set<StageKey>, k: StageKey) {
    k !in locked && k.scan in scans && CanBeClaimed(scans[k.scan], k.position)
  }

  lemma CandidatesByColumns(scans: map<ScanId, Scan>, locked: set<StageKey>)
    ensures forall k :: k in Candidates(scans, locked) <==> CanTake(scans, locked, k)
  {
    forall k: StageKey
      ensures k in Candidates(scans, locked) <==> CanTake(scans, locked, k)
    {
      if k.scan in scans {
        EnabledMeansPossible(scans[k.scan], Claim(k.scan, k.position, ""));
      }
    }
  }

  lemma FirstByColumns(scans: map<ScanId, Scan>, locked: set<StageKey>, first: StageKey)
    requires first in Candidates(scans, locked)
    requires forall k :: k in Candidates(scans, locked) ==> !Before(scans, k, first)
    ensures first.scan in scans && Claimable(scans[first.scan], first.position)
    ensures forall k :: k in Candidates(scans, locked) ==>
              var a, b := scans[first.scan].stages[first.position], scans[k.scan].stages[k.position];
              a.createdAt < b.createdAt || (a.createdAt == b.createdAt && first.position <= k.position)
  {
  }

  /** One call of finalize_if_terminal, told by the columns. */
  ghost predicate CallWrites(scans: map<ScanId, Scan>, scans': map<ScanId, Scan>, s: ScanId, reportFails: bool) {
    && OnlyChanges(scans, scans', s) && scans[s].calls >= 1
    && scans'[s] == scans[s].(calls := scans[s].calls - 1, status := scans'[s].status)
    && if scans[s].lock.Free? && AllClosed(scans[s].stages)
       then if reportFails then scans'[s].status.Partial? else Fits(scans'[s].status, scans[s].stages)
       else scans'[s].status == scans[s].status
  }

  /** The first half of a recovery pass on one scan, told by the columns: its overdue stage is timed out, and then
      the scan is finalised, unless its report lock is held or a stage is open. */
  ghost predicate PassWrites(s: Scan, s': Scan, now: Time, reportFails: bool) {
    var overdue := set j | 0 <= j < |s.stages| && IsOverdue(s.stages[j], now);
    && TimeOutWrites(s.stages, s'.stages, now)
    && s' == s.(stages := s'.stages, calls := s'.calls, status := s'.status)
    && s'.calls == s.calls + |overdue| - (if overdue != {} then 1 else 0)
    && if overdue != {} && s.lock.Free? && AllClosed(s'.stages)
       then if reportFails then s'.status.Partial? else Fits(s'.status, s'.stages)
       else s'.status == s.status
  }

  lemma PassOnScan(s: Scan, now: Time, reportFails: bool)
    requires s.stages != []
    ensures var closed := TimedOutScan(s, now);
            var overdue := exists j :: 0 <= j < |s.stages| && Overdue(s.stages[j], now);
            && (overdue ==> closed.calls >= 1)
            && PassWrites(s, if overdue then Called(closed, reportFails) else closed, now, reportFails)
  {
    RecoveryMeans(s.stages, now);
    SomeOverdue(s.stages, now);
    hide CloseOverdue, Timeouts, TimeOutWrites, IsOverdue, Overdue;
    CallOnScan(TimedOutScan(s, now), reportFails);
    hide Called, Fits, AllClosed;
  }

  lemma CallOnScan(s: Scan, reportFails: bool)
    requires s.stages != []
    ensures s.calls >= 1 ==>
              var s' := Called(s, reportFails);
              && s' == s.(calls := s.calls - 1, status := s'.status)
              && if s.lock.Free? && AllClosed(s.stages)
                 then if reportFails then s'.status.Partial? else Fits(s'.status, s.stages)
                 else s'.status == s.status
  {
    OutcomeFits(s.stages);
    AllClosedByName(s.stages);
    hide Fits, Outcome, AllTerminal, AllClosed;
  }

  lemma SomeOverdue(rows: seq<Stage>, now: Time)
    ensures var overdue := set j | 0 <= j < |rows| && IsOverdue(rows[j], now);
            && (overdue != {} <==> exists j :: 0 <= j < |rows| && Overdue(rows[j], now))
            && (overdue != {} ==> |overdue| >= 1)
  {
    var overdue := set j | 0 <= j < |rows| && IsOverdue(rows[j], now);
    if j :| 0 <= j < |rows| && Overdue(rows[j], now) {
      assert j in overdue;
    }
    if j :| j in overdue {
      assert Overdue(rows[j], now);
    }
  }

  ghost predicate PassesOver(scans: map<ScanId, Scan>, scans': map<ScanId, Scan>, now: Time, failing: set<ScanId>) {
    scans'.Keys == scans.Keys && forall s :: s in scans ==> PassWrites(scans[s], scans'[s], now, s in failing)
  }

  /** The second statement on all scans. */
  ghost predicate RequeuesOver(scans: map<ScanId, Scan>, scans': map<ScanId, Scan>, now: Time) {
    && scans'.Keys == scans.Keys
    && forall s :: s in scans ==>
         && scans'[s] == scans[s].(stages := scans'[s].stages)
         && RequeueWrites(scans[s].stages, scans'[s].stages, now)
  }

  lemma RequeueByColumns(db: Db)
    ensures RequeuesOver(db.scans, Apply(db, RequeueExpiredStages).scans, db.now)
  {
    RecoveryWrites(db);
    hide RequeueWrites;
  }

  lemma PassByColumns(db: Db, failing: set<ScanId>)
    requires Inv(db)
    ensures var after := FinalizedAll(Apply(db, CloseOverdueStages), OverdueScans(db), failing);
            after.now == db.now && PassesOver(db.scans, after.scans, db.now, failing)
  {
    hide PassWrites, TimedOutScan, Called, Inv, FinalizedAll, Apply, OverdueScans;
    AfterPass(db, failing);
    forall s | s in db.scans
      ensures PassWrites(db.scans[s], FinalizedAll(Apply(db, CloseOverdueStages), OverdueScans(db), failing).scans[s],
                         db.now, s in failing)
    {
      ScanHasStages(db, s);
      PassOnScan(db.scans[s], db.now, s in failing);
    }
  }

  lemma AfterPass(db: Db, failing: set<ScanId>)
    requires Inv(db)
    ensures var after := FinalizedAll(Apply(db, CloseOverdueStages), OverdueScans(db), failing);
            && after.now == db.now && after.scans.Keys == db.scans.Keys
            && forall s :: s in db.scans ==>
                 var closed := TimedOutScan(db.scans[s], db.now);
                 var overdue := exists j :: 0 <= j < |db.scans[s].stages| && Overdue(db.scans[s].stages[j], db.now);
                 && (overdue ==> closed.calls >= 1)
                 && after.scans[s] == if overdue then Called(closed, s in failing) else closed
  {
    OverdueAreCalled(db);
    hide TimedOutScan, Called, Overdue, Inv;
  }

  lemma CallWritesByColumns(db: Db, s: ScanId, reportFails: bool)
    requires s in db.scans && db.scans[s].calls >= 1 && db.scans[s].stages != []
    ensures CallWrites(db.scans, CalledDb(db, s, reportFails).scans, s, reportFails)
  {
    OutcomeFits(db.scans[s].stages);
    AllClosedByName(db.scans[s].stages);
    hide Fits, Outcome, AllTerminal, AllClosed;
  }

  function FreshId(used: set<ScanId>): (id: ScanId)
    ensures id !in used
  {
    if used == {} then 0 else MaxOf(used) + 1
  }

  predicate UpperBound(used: set<ScanId>, m: ScanId) {
    forall s :: s in used ==> s <= m
  }

  function MaxOf(used: set<ScanId>): (m: ScanId)
    requires used != {}
    ensures UpperBound(used, m)
  {
    MaxExists(used);
    var m :| m in used && UpperBound(used, m);
    m
  }

  lemma {:induction false} MaxExists(used: set<ScanId>)
    requires used != {}
    ensures exists m :: m in used && UpperBound(used, m)
    decreases |used|
  {
    var x :| x in used;
    var rest := used - {x};
    assert forall s :: s in used ==> s == x || s in rest;
    if rest == {} {
      assert UpperBound(used, x);
    } else {
      MaxExists(rest);
      var m :| m in rest && UpperBound(rest, m);
      assert UpperBound(used, if m < x then x else m);
    }
  }

  /** The scans that own a stage past its hard deadline. */
  function OverdueScans(db: Db): (r: set<ScanId>)
    ensures r <= db.scans.Keys
  {
    set s | s in db.scans && exists i :: 0 <= i < |db.scans[s].stages| && Overdue(db.scans[s].stages[i], db.now)
  }

  /** The steps that are left of a call that began at `db`, once the rows are read. */
  ghost predicate RestInSteps(db: Db, read: Db, s: ScanId, reportFails: bool)
    requires s in db.scans && db.scans[s].calls >= 1
  {
    if !AllTerminal(db.scans[s].stages)
    then Enabled(read, Unlock(s)) && Apply(read, Unlock(s)) == CalledDb(db, s, reportFails)
    else
      && Enabled(read, Action.WriteStatus(s))
      && var written := Apply(read, Action.WriteStatus(s));
         && Enabled(written, FinishReport(s, reportFails))
         && var reported := Apply(written, FinishReport(s, reportFails));
            Enabled(reported, Unlock(s)) && Apply(reported, Unlock(s)) == CalledDb(db, s, reportFails)
  }

  /** The steps of one call, each in the state the one before it leaves. */
  lemma CallInSteps(db: Db, s: ScanId, reportFails: bool)
    requires Inv(db) && s in db.scans && db.scans[s].calls >= 1
    ensures Enabled(db, TakeLock(s))
    ensures var locked := Apply(db, TakeLock(s));
            if !db.scans[s].lock.Free? then locked == CalledDb(db, s, reportFails)
            else
              && Enabled(locked, ReadRows(s)) && s in locked.scans && locked.scans[s].stages == db.scans[s].stages
              && RestInSteps(db, Apply(locked, ReadRows(s)), s, reportFails)
  {
    hide Inv, Enabled, Apply, Outcome, AllTerminal, ScanInv;
    var start := db.scans[s];
    ScanHasStages(db, s);
    Untouched(db, s);
    StepWith(db, s, start, TakeLock(s));
    CalledIsWith(db, s, reportFails);
    hide CalledDb, With;
    var scan := StepScan(start, TakeLock(s), db.now);
    if start.lock.Free? {
      StepWith(db, s, scan, ReadRows(s));
      RestHolds(db, s, reportFails, StepScan(scan, ReadRows(s), db.now));
      hide RestInSteps;
    }
  }

  lemma RestHolds(db: Db, s: ScanId, reportFails: bool, read: Scan)
    requires s in db.scans && db.scans[s].calls >= 1 && db.scans[s].lock.Free? && db.scans[s].stages != []
    requires var stages := db.scans[s].stages;
             read == db.scans[s].(calls := db.scans[s].calls - 1,
                                  lock := if AllTerminal(stages) then Decided(Outcome(stages)) else Leaving)
    ensures RestInSteps(db, With(db, s, read), s, reportFails)
  {
    hide Enabled, Apply, Outcome, AllTerminal;
    CalledIsWith(db, s, reportFails);
    hide CalledDb, With;
    var scan := read;
    if scan.lock.Decided? {
      StepWith(db, s, scan, Action.WriteStatus(s));
      scan := StepScan(scan, Action.WriteStatus(s), db.now);
      StepWith(db, s, scan, FinishReport(s, reportFails));
      scan := StepScan(scan, FinishReport(s, reportFails), db.now);
    }
    StepWith(db, s, scan, Unlock(s));
  }

  /** The database with another row for one of its scans. */
  function With(db: Db, s: ScanId, scan: Scan): (r: Db)
    ensures s in r.scans && r.scans[s] == scan
  {
    db.(scans := db.scans[s := scan])
  }

  lemma ScanHasStages(db: Db, s: ScanId)
    requires Inv(db) && s in db.scans
    ensures db.scans[s].stages != []
  {
    assert ScanInv(db.scans[s]);
  }

  lemma CalledIsWith(db: Db, s: ScanId, reportFails: bool)
    requires s in db.scans && db.scans[s].calls >= 1
    ensures CalledDb(db, s, reportFails) == With(db, s, Called(db.scans[s], reportFails))
  {
  }

  lemma Untouched(db: Db, s: ScanId)
    requires s in db.scans
    ensures With(db, s, db.scans[s]) == db
  {
    assert db.scans[s := db.scans[s]] == db.scans;
  }

  lemma StepWith(db: Db, s: ScanId, scan: Scan, a: Action)
    requires s in db.scans && OnOneScan(a) && a.scan == s && ScanEnabled(scan, a)
    ensures Enabled(With(db, s, scan), a)
    ensures Apply(With(db, s, scan), a) == With(db, s, StepScan(scan, a, db.now))
  {
    assert db.scans[s := scan][s := StepScan(scan, a, db.now)] == db.scans[s := StepScan(scan, a, db.now)];
  }

  lemma WideSteps(db: Db)
    ensures Apply(db, CloseOverdueStages) == Db(db.now, map s | s in db.scans :: TimedOutScan(db.scans[s], db.now))
    ensures Apply(db, RequeueExpiredStages)
            == Db(db.now, map s | s in db.scans ::
                            db.scans[s].(stages := RequeueExpired(db.scans[s].stages, db.now)))
  {
  }

  lemma OverdueAreCalled(db: Db)
    ensures Apply(db, CloseOverdueStages).scans.Keys == db.scans.Keys
    ensures forall s :: s in OverdueScans(db) ==> Apply(db, CloseOverdueStages).scans[s].calls >= 1
  {
    forall s | s in OverdueScans(db)
      ensures Apply(db, CloseOverdueStages).scans[s].calls >= 1
    {
      var stages := db.scans[s].stages;
      var i :| 0 <= i < |stages| && Overdue(stages[i], db.now);
      var closed := set k | 0 <= k < |stages| && Overdue(stages[k], db.now);
      assert Timeouts(stages, db.now) == |closed| && i in closed && |closed| == |closed - {i}| + 1;
    }
  }

  /** One call of finalize_if_terminal for each of these scans for which one is due. */
  function FinalizedAll(db: Db, targets: set<ScanId>, failing: set<ScanId>): Db {
    db.(scans := map s | s in db.scans ::
                   if s in targets && db.scans[s].calls >= 1 then Called(db.scans[s], s in failing) else db.scans[s])
  }

  /** One pass of recovery. */
  function Recovered(db: Db, failing: set<ScanId>, elapsed: nat): Db {
    Apply(Apply(FinalizedAll(Apply(db, CloseOverdueStages), OverdueScans(db), failing), Tick(elapsed)),
          RequeueExpiredStages)
  }

  /** The calls are a run, one after another. */
  lemma {:induction false} CallsAreARun(db: Db, targets: set<ScanId>, failing: set<ScanId>)
    returns (actions: seq<Action>)
    ensures Legal(db, actions) && OnlyFinalises(actions) && OneClock(db, actions)
    ensures After(db, actions) == FinalizedAll(db, targets, failing)
    decreases |targets|
  {
    if targets == {} {
      assert FinalizedAll(db, targets, failing).scans == db.scans;
      actions := [];
    } else {
      var s :| s in targets;
      var rest := targets - {s};
      actions := CallsAreARun(db, rest, failing);
      var mid := FinalizedAll(db, rest, failing);
      var all := FinalizedAll(db, targets, failing);
      if s in db.scans && db.scans[s].calls >= 1 {
        assert CalledDb(mid, s, s in failing).scans == all.scans;
        hide Apply, FinalizedAll, CalledDb;
        var call := CallIsARun(mid, s, s in failing);
        Append(db, actions, call);
        actions := actions + call;
      } else {
        assert mid.scans == all.scans;
      }
    }
  }

  /** A pass is a run of the stage queue, and one of a single clock reading exactly if no deadline passes between
      its statements. */
  lemma RecoveryIsARun(db: Db, failing: set<ScanId>, elapsed: nat) returns (actions: seq<Action>)
    ensures Legal(db, actions) && After(db, actions) == Recovered(db, failing, elapsed)
    ensures OneClock(db, actions)
            <==> NoneOverdue(Apply(FinalizedAll(Apply(db, CloseOverdueStages), OverdueScans(db), failing),
                                   Tick(elapsed)))
    ensures elapsed == 0 ==> OneClock(db, actions)
  {
    var db1 := Apply(db, CloseOverdueStages);
    var calls := CallsAreARun(db1, OverdueScans(db), failing);
    RecoveryPassIsOneClock(db, calls);
    var db2 := FinalizedAll(db1, OverdueScans(db), failing);
    var db3 := Apply(db2, Tick(elapsed));
    assert elapsed == 0 ==> db3 == db2;
    hide Apply, NoneOverdue, OverdueScans, FinalizedAll;
    PrependClock(db3, RequeueExpiredStages, []);
    actions := [RequeueExpiredStages] + [];
    PrependClock(db2, Tick(elapsed), actions);
    actions := [Tick(elapsed)] + actions;
    Append(db1, calls, actions);
    actions := calls + actions;
    PrependClock(db, CloseOverdueStages, actions);
    actions := [CloseOverdueStages] + actions;
  }
}
