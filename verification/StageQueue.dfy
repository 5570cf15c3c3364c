/** The durable stage queue: any number of runners claim, heartbeat, finish and recover
    the stages of a scan through rows of a shared database. Every transition below is one
    statement or one transaction of the source, as a function from the state before to
    the state after. */
module StageQueue {
  import opened Common

  type ScanId = nat
  type AssessmentId = nat
  type Owner = string

  /** Timestamps in microseconds, the resolution of the database. */
  type Time = int

  const SECOND: Time := 1_000_000
  const LEASE: Time := 120 * SECOND
  const SCOPE_PREFLIGHT := "scope_preflight"

  datatype StageStatus = Queued | Running | Succeeded | Failed | TimedOut | Skipped | Blocked | Cancelled {
    predicate Terminal() { !Queued? && !Running? }
  }

  datatype CoverageStatus = Planned | Running | Completed | Failed | TimedOut | Skipped | Blocked | Cancelled

  datatype ScanStatus = Queued | Running | Complete | Partial | Failed | Cancelled {
    predicate Active() { Queued? || Running? }
  }

  /** The methodology coverage row that belongs to one stage. */
  datatype Coverage = Coverage(required: bool, status: CoverageStatus, startedAt: Option<Time>)

  /** A row of stage_runs, together with its coverage row. `timeout` is in seconds. The last two
      entries are no columns but processes: `unreported` counts the claims of the stage whose runner has
      not called finish_stage for it, `unswept` the runners that finished it as cancelled and have not yet
      cancelled what waits behind it. A runner that died stays counted. */
  datatype Stage = Stage(
    adapter: string, required: bool, timeout: nat, createdAt: Time,
    status: StageStatus, attempt: nat, owner: Option<Owner>, lease: Option<Time>,
    startedAt: Option<Time>, coverage: Coverage, unreported: nat, unswept: nat)

  /** Where the holder of a scan's report lock stands in finalize_if_terminal: it has the lock, it has read rows
      that are all closed, it has written the status they give, or it is about to let go. */
  datatype ReportLock = Free | Entered | Decided(outcome: ScanStatus) | Written | Leaving

  /** A row of scans with its stages; the index of a stage is its position. The last two entries are no columns:
      `calls` counts the processes that have closed a stage of the scan and still have to call
      finalize_if_terminal for it, dead ones included, and `lock` is the advisory lock of its report. */
  datatype Scan = Scan(assessment: AssessmentId, status: ScanStatus, cancelRequested: bool, stages: seq<Stage>,
                       calls: nat, lock: ReportLock)

  datatype Db = Db(now: Time, scans: map<ScanId, Scan>)

  datatype PlanStage = PlanStage(adapter: string, required: bool, timeout: nat)

  // ----- single rows -----

  function CoverageOf(s: StageStatus): CoverageStatus {
    match s
    case Queued => Planned
    case Running => CoverageStatus.Running
    case Succeeded => Completed
    case Failed => CoverageStatus.Failed
    case TimedOut => CoverageStatus.TimedOut
    case Skipped => CoverageStatus.Skipped
    case Blocked => CoverageStatus.Blocked
    case Cancelled => CoverageStatus.Cancelled
  }

  function Deadline(r: Stage): Time
    requires r.startedAt.Some?
  {
    r.startedAt.value + r.timeout * SECOND
  }

  predicate Overdue(r: Stage, now: Time) {
    r.status.Running? && r.startedAt.Some? && Deadline(r) <= now
  }

  predicate Expired(r: Stage, now: Time) {
    r.status.Running? && r.lease.Some? && r.lease.value < now
  }

  function OrElse(t: Option<Time>, now: Time): Option<Time> {
    if t.Some? then t else Some(now)
  }

  function NewStage(p: PlanStage, now: Time): Stage {
    Stage(p.adapter, p.required, p.timeout, now, StageStatus.Queued, 0, None, None, None,
          Coverage(p.required, Planned, None), 0, 0)
  }

  function Claimed(r: Stage, owner: Owner, now: Time): Stage {
    r.(status := StageStatus.Running, attempt := r.attempt + 1, owner := Some(owner), lease := Some(now + LEASE),
       startedAt := OrElse(r.startedAt, now), unreported := r.unreported + 1,
       coverage := r.coverage.(status := CoverageStatus.Running, startedAt := OrElse(r.coverage.startedAt, now)))
  }

  /** Closing a row that somebody held: the lease goes too. */
  function Finished(r: Stage, status: StageStatus): Stage {
    Swept(r, status).(owner := None, lease := None)
  }

  /** What the finish_stage call of one of its runners leaves of a row. */
  function Reported(r: Stage, status: StageStatus): Stage
    requires r.unreported >= 1
  {
    Finished(r, status).(unreported := r.unreported - 1,
                         unswept := if status.Cancelled? then r.unswept + 1 else r.unswept)
  }

  /** Closing a row that was waiting: the lease columns stay as they are. */
  function Swept(r: Stage, status: StageStatus): Stage {
    r.(status := status, coverage := r.coverage.(status := CoverageOf(status)))
  }

  function Requeued(r: Stage): Stage {
    r.(status := StageStatus.Queued, owner := None, lease := None,
       coverage := r.coverage.(status := Planned, startedAt := None))
  }

  // ----- the stages of one scan -----

  predicate AllTerminal(stages: seq<Stage>) {
    forall i :: 0 <= i < |stages| ==> stages[i].status.Terminal()
  }

  predicate AnyRunning(stages: seq<Stage>) {
    exists i :: 0 <= i < |stages| && stages[i].status.Running?
  }

  /** The first `n` stages are closed. */
  predicate PriorTerminal(stages: seq<Stage>, n: nat)
    requires n <= |stages|
  {
    forall i :: 0 <= i < n ==> stages[i].status.Terminal()
  }

  predicate Claimable(s: Scan, i: nat) {
    i < |s.stages| && s.stages[i].status.Queued? && !s.cancelRequested && PriorTerminal(s.stages, i)
  }

  /** Close every waiting stage at or after position `from`. */
  function SweepFrom(stages: seq<Stage>, from: nat, status: StageStatus): (r: seq<Stage>)
    ensures |r| == |stages|
  {
    seq(|stages|, i requires 0 <= i < |stages| =>
      if from <= i && stages[i].status.Queued? then Swept(stages[i], status) else stages[i])
  }

  function CloseOverdue(stages: seq<Stage>, now: Time): (r: seq<Stage>)
    ensures |r| == |stages|
  {
    seq(|stages|, i requires 0 <= i < |stages| =>
      if Overdue(stages[i], now) then Finished(stages[i], StageStatus.TimedOut) else stages[i])
  }

  /** How many stages the first statement of recovery closes; it finalises the scan after each. */
  function Timeouts(stages: seq<Stage>, now: Time): nat {
    |set i | 0 <= i < |stages| && Overdue(stages[i], now)|
  }

  function RequeueExpired(stages: seq<Stage>, now: Time): (r: seq<Stage>)
    ensures |r| == |stages|
  {
    seq(|stages|, i requires 0 <= i < |stages| =>
      if Expired(stages[i], now) then Requeued(stages[i]) else stages[i])
  }

  predicate BlocksDownstream(adapter: string, status: StageStatus) {
    adapter == SCOPE_PREFLIGHT && !status.Succeeded?
  }

  function FinishAt(stages: seq<Stage>, i: nat, status: StageStatus): (r: seq<Stage>)
    requires i < |stages| && stages[i].unreported >= 1
    ensures |r| == |stages|
  {
    var closed := stages[i := Reported(stages[i], status)];
    if BlocksDownstream(stages[i].adapter, status)
    then SweepFrom(closed, i + 1, StageStatus.Blocked)
    else closed
  }

  /** What _cancel_pending_stages does behind a stage. */
  function SweepBehind(stages: seq<Stage>, i: nat): (r: seq<Stage>)
    requires i < |stages| && stages[i].unswept >= 1
    ensures |r| == |stages|
  {
    SweepFrom(stages[i := stages[i].(unswept := stages[i].unswept - 1)], i + 1, StageStatus.Cancelled)
  }

  // ----- one scan -----

  predicate AnyCancelled(stages: seq<Stage>) {
    exists i :: 0 <= i < |stages| && stages[i].status.Cancelled?
  }

  predicate RequiredFailure(stages: seq<Stage>) {
    exists i :: 0 <= i < |stages| && stages[i].required && !stages[i].status.Succeeded?
  }

  predicate AnySucceeded(stages: seq<Stage>) {
    exists i :: 0 <= i < |stages| && stages[i].status.Succeeded?
  }

  function Outcome(stages: seq<Stage>): ScanStatus {
    if AnyCancelled(stages) then ScanStatus.Cancelled
    else if RequiredFailure(stages) && !AnySucceeded(stages) then ScanStatus.Failed
    else if RequiredFailure(stages) then Partial
    else Complete
  }

  function TimedOutScan(s: Scan, now: Time): Scan {
    s.(stages := CloseOverdue(s.stages, now), calls := s.calls + Timeouts(s.stages, now))
  }

  /** Finalisation without interruption; a failing report turns every outcome into `Partial`. */
  function Finalized(s: Scan, reportFails: bool): Scan {
    if s.stages == [] || !AllTerminal(s.stages) then s
    else s.(status := if reportFails then Partial else Outcome(s.stages))
  }

  /** An operator cancels a scan that is not finished. */
  function CancelledScan(s: Scan): Scan {
    if AnyRunning(s.stages) then s.(cancelRequested := true)
    else s.(status := ScanStatus.Cancelled, cancelRequested := true,
            stages := SweepFrom(s.stages, 0, StageStatus.Cancelled))
  }

  function NewScan(assessment: AssessmentId, plan: seq<PlanStage>, now: Time): Scan {
    Scan(assessment, ScanStatus.Queued, false,
         seq(|plan|, i requires 0 <= i < |plan| => NewStage(plan[i], now)), 0, Free)
  }

  // ----- the whole database -----

  datatype Action =
    | Tick(elapsed: nat)
    | Enqueue(scan: ScanId, assessment: AssessmentId, plan: seq<PlanStage>)
    | Claim(scan: ScanId, position: nat, owner: Owner)
    | Heartbeat(scan: ScanId, position: nat)
    | RenewLease(scan: ScanId, position: nat)
    | Finish(scan: ScanId, position: nat, status: StageStatus)
    | CancelPending(scan: ScanId, position: nat)
    | CancelScan(scan: ScanId)
    | CloseOverdueStages
    | RequeueExpiredStages
    | TakeLock(scan: ScanId)
    | ReadRows(scan: ScanId)
    | WriteStatus(scan: ScanId)
    | FinishReport(scan: ScanId, fails: bool)
    | Unlock(scan: ScanId)
    | FindReportMissing(scan: ScanId)

  /** The plans the database accepts: at least one stage, timeouts of one second to one day. */
  predicate ValidPlan(plan: seq<PlanStage>) {
    plan != [] && forall i :: 0 <= i < |plan| ==> 1 <= plan[i].timeout <= 86400
  }

  predicate HasStage(db: Db, s: ScanId, i: nat) {
    s in db.scans && i < |db.scans[s].stages|
  }

  predicate HasActiveScan(db: Db, a: AssessmentId) {
    exists s :: s in db.scans && db.scans[s].assessment == a && db.scans[s].status.Active()
  }

  /** The statuses a runner passes to finish_stage. */
  predicate RunnerStatus(st: StageStatus) {
    st.Succeeded? || st.Failed? || st.TimedOut? || st.Cancelled?
  }

  /** A runner acts on a stage from its claim, possibly long ago, until its one call of finish_stage:
      heartbeat, renewal and finish carry no proof that it still holds the lease. */
  predicate OutWith(s: Scan, i: nat) {
    i < |s.stages| && s.stages[i].unreported >= 1
  }

  /** The steps of finalize_if_terminal. A refused attempt to lock ends the call; the lock also falls free when its
      holder dies. A runner that starts up calls it for finished scans whose report is missing. */
  predicate Finalises(a: Action) {
    a.TakeLock? || a.ReadRows? || a.WriteStatus? || a.FinishReport? || a.Unlock? || a.FindReportMissing?
  }

  /** Steps that touch a single scan. */
  predicate OnOneScan(a: Action) {
    a.Claim? || a.Heartbeat? || a.RenewLease? || a.Finish? || a.CancelPending? || a.CancelScan? || Finalises(a)
  }

  predicate ScanEnabled(s: Scan, a: Action)
    requires OnOneScan(a)
  {
    match a
    case Claim(_, i, _) => Claimable(s, i)
    case Heartbeat(_, i) => OutWith(s, i)
    case RenewLease(_, i) => OutWith(s, i)
    case Finish(_, i, st) => OutWith(s, i) && RunnerStatus(st) && (st.Cancelled? ==> s.cancelRequested)
    case CancelPending(_, i) => i < |s.stages| && s.stages[i].unswept >= 1
    case CancelScan(_) => s.status.Active()
    case TakeLock(_) => s.calls >= 1
    case ReadRows(_) => s.lock.Entered?
    case WriteStatus(_) => s.lock.Decided?
    case FinishReport(_, _) => s.lock.Written?
    case Unlock(_) => !s.lock.Free?
    case FindReportMissing(_) => !s.status.Active()
  }

  function StepScan(s: Scan, a: Action, now: Time): Scan
    requires OnOneScan(a) && ScanEnabled(s, a)
  {
    match a
    case Claim(_, i, owner) =>
      s.(status := ScanStatus.Running, stages := s.stages[i := Claimed(s.stages[i], owner, now)])
    case Heartbeat(_, i) =>
      var r := s.stages[i];
      if r.status.Running? && r.startedAt.Some? && now < Deadline(r)
      then s.(stages := s.stages[i := r.(lease := Some(now + LEASE))])
      else s
    case RenewLease(_, i) => s.(stages := s.stages[i := s.stages[i].(lease := Some(now + LEASE))])
    case Finish(_, i, st) =>
      s.(stages := FinishAt(s.stages, i, st), calls := if st.Cancelled? then s.calls else s.calls + 1)
    case CancelPending(_, i) => s.(stages := SweepBehind(s.stages, i), calls := s.calls + 1)
    case CancelScan(_) => CancelledScan(s)
    case TakeLock(_) => s.(calls := s.calls - 1, lock := if s.lock.Free? then Entered else s.lock)
    case ReadRows(_) =>
      s.(lock := if s.stages != [] && AllTerminal(s.stages) then Decided(Outcome(s.stages)) else Leaving)
    case WriteStatus(_) => s.(status := s.lock.outcome, lock := Written)
    case FinishReport(_, fails) => s.(status := if fails then Partial else s.status, lock := Leaving)
    case Unlock(_) => s.(lock := Free)
    case FindReportMissing(_) => s.(calls := s.calls + 1)
  }

  predicate Enabled(db: Db, a: Action) {
    match a
    case Tick(_) => true
    case Enqueue(s, assessment, plan) => s !in db.scans && ValidPlan(plan) && !HasActiveScan(db, assessment)
    case CloseOverdueStages => true
    case RequeueExpiredStages => true
    case _ => a.scan in db.scans && ScanEnabled(db.scans[a.scan], a)
  }

  function Apply(db: Db, a: Action): Db
    requires Enabled(db, a)
  {
    match a
    case Tick(elapsed) => db.(now := db.now + elapsed)
    case Enqueue(s, assessment, plan) => db.(scans := db.scans[s := NewScan(assessment, plan, db.now)])
    case CloseOverdueStages =>
      db.(scans := map s | s in db.scans :: TimedOutScan(db.scans[s], db.now))
    case RequeueExpiredStages =>
      db.(scans := map s | s in db.scans :: db.scans[s].(stages := RequeueExpired(db.scans[s].stages, db.now)))
    case _ => db.(scans := db.scans[a.scan := StepScan(db.scans[a.scan], a, db.now)])
  }

  /** A run: each action is possible in the state its predecessors lead to. */
  ghost predicate Legal(db: Db, actions: seq<Action>)
    decreases |actions|
  {
    actions == [] || (Enabled(db, actions[0]) && Legal(Apply(db, actions[0]), actions[1..]))
  }

  ghost function After(db: Db, actions: seq<Action>): Db
    requires Legal(db, actions)
    decreases |actions|
  {
    if actions == [] then db else After(Apply(db, actions[0]), actions[1..])
  }

  const EMPTY := Db(0, map[])
}
