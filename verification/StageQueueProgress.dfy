/** How often a stage can be claimed, and why every scan that nobody cancels comes to an end. */
module StageQueueProgress {
  import opened Common
  import opened StageQueue
  import opened StageQueueSafety

  // ----- the number of claims -----

  /** A re-queue is late when the stage is already past its hard deadline: recovery's second
      statement reads its own clock, so it may see a deadline the first one did not. */
  predicate LateRequeue(db: Db, a: Action, s: ScanId, i: nat) {
    a.RequeueExpiredStages? && HasStage(db, s, i)
    && Expired(db.scans[s].stages[i], db.now) && Overdue(db.scans[s].stages[i], db.now)
  }

  ghost function LateRequeues(db: Db, actions: seq<Action>, s: ScanId, i: nat): nat
    requires Legal(db, actions)
    decreases |actions|
  {
    if actions == [] then 0
    else (if LateRequeue(db, actions[0], s, i) then 1 else 0)
         + LateRequeues(Apply(db, actions[0]), actions[1..], s, i)
  }

  /** The clock argument: a running stage holds a lease two minutes past its latest claim, so
      after `attempt` claims at least `attempt - 1` whole leases lie between the first claim
      and now; all but `late` of the re-queues happened before the deadline. */
  ghost predicate Timed(r: Stage, now: Time, late: nat) {
    if r.attempt == 0 then late == 0 else
    && r.startedAt.Some?
    && late <= r.attempt
    && (late > 0 ==> Deadline(r) <= now)
    && LEASE * (r.attempt - 1 - late) < r.timeout * SECOND
    && (r.status.Running? ==>
          && late <= r.attempt - 1
          && r.startedAt.value + LEASE * (r.attempt - 1) <= now
          && r.lease.Some? && r.startedAt.value + LEASE * r.attempt <= r.lease.value)
    && (r.status.Queued? ==>
          && r.startedAt.value + LEASE * r.attempt <= now
          && LEASE * (r.attempt - late) < r.timeout * SECOND)
  }

  ghost predicate TimedAt(db: Db, s: ScanId, i: nat, late: nat) {
    if HasStage(db, s, i) then Timed(db.scans[s].stages[i], db.now, late) else late == 0
  }

  /** What a step may do to a row, told by the row alone. */
  ghost predicate RowMove(r: Stage, r': Stage, now: Time) {
    || r' == r
    || (r.status.Queued? && exists owner :: r' == Claimed(r, owner, now))
    || (r.attempt >= 1 && r' == r.(lease := Some(now + LEASE)))
    || (r'.status.Terminal() && r'.attempt == r.attempt && r'.startedAt == r.startedAt && r'.timeout == r.timeout)
    || (r.status.Terminal() && r' == r.(unswept := r'.unswept))
    || (Expired(r, now) && r' == Requeued(r))
  }

  lemma ScanRowMoves(scan: Scan, a: Action, now: Time, i: nat)
    requires ScanInv(scan) && OnOneScan(a) && ScanEnabled(scan, a) && i < |scan.stages|
    ensures |StepScan(scan, a, now).stages| == |scan.stages|
    ensures RowMove(scan.stages[i], StepScan(scan, a, now).stages[i], now)
  {
    var r, r' := scan.stages[i], StepScan(scan, a, now).stages[i];
    assert RowInv(r);
    match a
    case Claim(_, k, owner) => assert r' == if i == k then Claimed(r, owner, now) else r;
    case Heartbeat(_, k) => assert i != k ==> r' == r;
    case RenewLease(_, k) => assert i != k ==> r' == r;
    case Finish(_, k, st) => FinishMovesRow(scan, k, st, now, i);
    case CancelPending(_, k) => SweepMovesRow(scan, k, now, i);
    case CancelScan(_) => assert r' == Swept(r, StageStatus.Cancelled) || r' == r;
    case _ => assert r' == r;
  }

  lemma FinishMovesRow(scan: Scan, k: nat, st: StageStatus, now: Time, i: nat)
    requires ScanInv(scan) && OutWith(scan, k) && RunnerStatus(st) && i < |scan.stages|
    ensures RowMove(scan.stages[i], FinishAt(scan.stages, k, st)[i], now)
  {
    var r, r' := scan.stages[i], FinishAt(scan.stages, k, st)[i];
    if i != k {
      assert r' == Swept(r, StageStatus.Blocked) || r' == r;
    } else {
      assert r' == Reported(r, st);
    }
  }

  lemma SweepMovesRow(scan: Scan, k: nat, now: Time, i: nat)
    requires ScanInv(scan) && k < |scan.stages| && scan.stages[k].unswept >= 1 && i < |scan.stages|
    ensures RowMove(scan.stages[i], SweepBehind(scan.stages, k)[i], now)
  {
    var r, r' := scan.stages[i], SweepBehind(scan.stages, k)[i];
    assert RowInv(r);
    if i != k {
      assert r' == Swept(r, StageStatus.Cancelled) || r' == r;
    }
  }

  /** A step moves a row at the time of the step, or only the clock moves. */
  lemma RowMoves(db: Db, a: Action, s: ScanId, i: nat)
    requires Inv(db) && Enabled(db, a) && HasStage(db, s, i)
    ensures HasStage(Apply(db, a), s, i) && db.now <= Apply(db, a).now
    ensures a.Tick? ==> Apply(db, a).scans[s].stages[i] == db.scans[s].stages[i]
    ensures !a.Tick? ==> Apply(db, a).now == db.now
    ensures RowMove(db.scans[s].stages[i], Apply(db, a).scans[s].stages[i], db.now)
    ensures a.CloseOverdueStages? && Overdue(db.scans[s].stages[i], db.now)
            ==> Apply(db, a).scans[s].stages[i].status.Terminal()
    ensures Apply(db, a).scans[s].stages[i] == Requeued(db.scans[s].stages[i]) && db.scans[s].stages[i].status.Running?
            ==> a.RequeueExpiredStages?
  {
    hide Inv;
    ScanHasInv(db, s);
    var r := db.scans[s].stages[i];
    assert RowInv(r);
    hide ScanInv;
    if OnOneScan(a) && a.scan == s {
      OnScan(db, a, s);
      hide Apply, StepScan, Enabled;
      ScanRowMoves(db.scans[s], a, db.now, i);
      if r.status.Running? {
        StillOwned(db.scans[s], a, db.now, i);
      }
    } else {
      OtherStep(db, a, s, i);
      hide Apply;
    }
  }

  lemma OtherStep(db: Db, a: Action, s: ScanId, i: nat)
    requires Enabled(db, a) && HasStage(db, s, i) && !(OnOneScan(a) && a.scan == s)
    ensures HasStage(Apply(db, a), s, i) && db.now <= Apply(db, a).now && (!a.Tick? ==> Apply(db, a).now == db.now)
    ensures var r := db.scans[s].stages[i];
            Apply(db, a).scans[s].stages[i]
            == if a.RequeueExpiredStages? && Expired(r, db.now) then Requeued(r)
               else if a.CloseOverdueStages? && Overdue(r, db.now) then Finished(r, StageStatus.TimedOut)
               else r
  {
    if OnOneScan(a) {
      assert Apply(db, a).scans[s] == db.scans[s];
    }
  }

  lemma StillOwned(scan: Scan, a: Action, now: Time, i: nat)
    requires ScanInv(scan) && OnOneScan(a) && ScanEnabled(scan, a)
    requires i < |scan.stages| && scan.stages[i].status.Running?
    ensures StepScan(scan, a, now).stages[i].status.Running? || StepScan(scan, a, now).stages[i].status.Terminal()
  {
    assert RowInv(scan.stages[i]);
  }

  lemma TimedRow(r: Stage, r': Stage, now: Time, late: nat)
    requires RowInv(r) && Timed(r, now, late) && RowMove(r, r', now)
    ensures Timed(r', now, late + (if Expired(r, now) && r' == Requeued(r) && Overdue(r, now) then 1 else 0))
  {
  }

  lemma TimedLater(r: Stage, now: Time, then_: Time, late: nat)
    requires Timed(r, now, late) && now <= then_
    ensures Timed(r, then_, late)
  {
  }

  lemma TimedStep(db: Db, a: Action, s: ScanId, i: nat, late: nat)
    requires Inv(db) && Enabled(db, a) && TimedAt(db, s, i, late)
    ensures TimedAt(Apply(db, a), s, i, late + (if LateRequeue(db, a, s, i) then 1 else 0))
  {
    if HasStage(db, s, i) {
      RowMoves(db, a, s, i);
      assert RowInv(db.scans[s].stages[i]) by {
        assert ScanInv(db.scans[s]);
      }
      LateIsRequeued(db, a, s, i);
      hide Inv, Apply, Enabled, RowInv, RowMove, Timed, Expired, Overdue, Requeued;
      var r, r' := db.scans[s].stages[i], Apply(db, a).scans[s].stages[i];
      if a.Tick? {
        TimedLater(r, db.now, Apply(db, a).now, late);
      } else {
        TimedRow(r, r', db.now, late);
      }
    } else {
      NewRowIsFresh(db, a, s, i);
    }
  }

  lemma LateIsRequeued(db: Db, a: Action, s: ScanId, i: nat)
    requires Inv(db) && Enabled(db, a) && HasStage(db, s, i) && HasStage(Apply(db, a), s, i)
    ensures var r, r' := db.scans[s].stages[i], Apply(db, a).scans[s].stages[i];
            LateRequeue(db, a, s, i) <==> Expired(r, db.now) && r' == Requeued(r) && Overdue(r, db.now)
  {
    RowMoves(db, a, s, i);
  }

  lemma NewRowIsFresh(db: Db, a: Action, s: ScanId, i: nat)
    requires Inv(db) && Enabled(db, a) && !HasStage(db, s, i)
    ensures HasStage(Apply(db, a), s, i) ==> Apply(db, a).scans[s].stages[i].attempt == 0
  {
    if s in db.scans {
      StepKeeps(db, a);
      assert ScanEvolves(db.scans[s], Apply(db, a).scans[s]);
    }
  }

  lemma {:induction false} TimedRun(db: Db, actions: seq<Action>, s: ScanId, i: nat, late: nat)
    requires Inv(db) && Legal(db, actions) && TimedAt(db, s, i, late)
    ensures TimedAt(After(db, actions), s, i, late + LateRequeues(db, actions, s, i))
    decreases |actions|
  {
    hide Inv, TimedAt, Apply, Enabled, LateRequeue;
    if actions != [] {
      StepKeeps(db, actions[0]);
      TimedStep(db, actions[0], s, i, late);
      TimedRun(Apply(db, actions[0]), actions[1..], s, i, late + (if LateRequeue(db, actions[0], s, i) then 1 else 0));
    }
  }

  /** In any run, a stage is claimed at most 1 + (timeout - 1) / 120 times, plus once for every
      late re-queue of it. */
  lemma ClaimsAreBounded(actions: seq<Action>, s: ScanId, i: nat)
    requires Legal(EMPTY, actions) && HasStage(After(EMPTY, actions), s, i)
    ensures After(EMPTY, actions).scans[s].stages[i].attempt
            <= 1 + (After(EMPTY, actions).scans[s].stages[i].timeout - 1) / 120 + LateRequeues(EMPTY, actions, s, i)
  {
    TimedRun(EMPTY, actions, s, i, 0);
    RunKeeps(EMPTY, actions);
    assert ScanInv(After(EMPTY, actions).scans[s]);
  }

  /** No stage is past its deadline and still running. */
  predicate NoneOverdue(db: Db) {
    forall s, i :: s in db.scans && 0 <= i < |db.scans[s].stages| ==> !Overdue(db.scans[s].stages[i], db.now)
  }

  /** Every recovery pass acts on one clock reading: it re-queues only after it closed
      everything overdue at that same moment. */
  ghost predicate OneClock(db: Db, actions: seq<Action>)
    requires Legal(db, actions)
    decreases |actions|
  {
    actions == [] || ((actions[0].RequeueExpiredStages? ==> NoneOverdue(db))
                      && OneClock(Apply(db, actions[0]), actions[1..]))
  }

  /** The first statement of a recovery pass, and whatever steps of finalisations follow, leave nothing
      overdue as long as the clock stands still. */
  lemma RecoveryPassIsOneClock(db: Db, actions: seq<Action>)
    requires Legal(Apply(db, CloseOverdueStages), actions) && forall k :: 0 <= k < |actions| ==> Finalises(actions[k])
    ensures NoneOverdue(After(Apply(db, CloseOverdueStages), actions))
  {
    ClosingLeavesNoneOverdue(db);
    hide Apply, NoneOverdue;
    FinalisingKeepsTime(Apply(db, CloseOverdueStages), actions);
  }

  lemma ClosingLeavesNoneOverdue(db: Db)
    ensures NoneOverdue(Apply(db, CloseOverdueStages))
  {
  }

  lemma {:induction false} FinalisingKeepsTime(db: Db, actions: seq<Action>)
    requires NoneOverdue(db) && Legal(db, actions) && forall k :: 0 <= k < |actions| ==> Finalises(actions[k])
    ensures NoneOverdue(After(db, actions))
    decreases |actions|
  {
    if actions != [] {
      FinalisingStepKeepsTime(db, actions[0]);
      FinalisingKeepsTime(Apply(db, actions[0]), actions[1..]);
    }
  }

  lemma FinalisingStepKeepsTime(db: Db, a: Action)
    requires NoneOverdue(db) && Enabled(db, a) && Finalises(a)
    ensures NoneOverdue(Apply(db, a))
  {
    var db' := Apply(db, a);
    forall s, i | s in db'.scans && 0 <= i < |db'.scans[s].stages|
      ensures !Overdue(db'.scans[s].stages[i], db'.now)
    {
      assert db'.scans[s].stages == db.scans[s].stages;
    }
  }

  lemma {:induction false} OneClockIsNeverLate(db: Db, actions: seq<Action>, s: ScanId, i: nat)
    requires Legal(db, actions) && OneClock(db, actions)
    ensures LateRequeues(db, actions, s, i) == 0
    decreases |actions|
  {
    if actions != [] {
      OneClockIsNeverLate(Apply(db, actions[0]), actions[1..], s, i);
    }
  }

  /** With one clock reading per recovery pass the bound is 1 + (timeout - 1) / 120, and a
      stage whose timeout is at most two minutes is never re-queued. */
  lemma OneClockClaimsAreBounded(actions: seq<Action>, s: ScanId, i: nat)
    requires Legal(EMPTY, actions) && OneClock(EMPTY, actions) && HasStage(After(EMPTY, actions), s, i)
    ensures var r := After(EMPTY, actions).scans[s].stages[i];
            && r.attempt <= 1 + (r.timeout - 1) / 120
            && (r.timeout <= 120 ==> r.status.Queued? ==> r.attempt == 0)
  {
    OneClockIsNeverLate(EMPTY, actions, s, i);
    ClaimsAreBounded(actions, s, i);
    TimedRun(EMPTY, actions, s, i, 0);
  }

  /** A run is its first step followed by a run, also where clocks and late re-queues are concerned. */
  lemma PrependClock(db: Db, a: Action, rest: seq<Action>)
    requires Enabled(db, a) && Legal(Apply(db, a), rest)
    ensures Legal(db, [a] + rest) && After(db, [a] + rest) == After(Apply(db, a), rest)
    ensures OneClock(db, [a] + rest) <==>
            (a.RequeueExpiredStages? ==> NoneOverdue(db)) && OneClock(Apply(db, a), rest)
    ensures forall s, i :: LateRequeues(db, [a] + rest, s, i)
                           == (if LateRequeue(db, a, s, i) then 1 else 0) + LateRequeues(Apply(db, a), rest, s, i)
  {
    assert ([a] + rest)[1..] == rest;
  }

  // ----- the moves of one scan -----

  function MaxClaims(timeout: nat): nat
    requires timeout >= 1
  {
    1 + (timeout - 1) / 120
  }

  /** What is left of a stage that was re-queued `late` times past its deadline: two for every claim it may
      still get, one while it runs. */
  function Rank(r: Stage, late: nat): int
    requires r.timeout >= 1
  {
    if r.status.Terminal() then 0
    else 2 * (MaxClaims(r.timeout) + late - r.attempt) + (if r.status.Running? then 1 else 0)
  }

  ghost predicate OnSchedule(s: Scan, now: Time, late: seq<nat>) {
    |late| == |s.stages|
    && forall i :: 0 <= i < |s.stages| ==> s.stages[i].timeout >= 1 && Timed(s.stages[i], now, late[i])
  }

  function RankOf(stages: seq<Stage>, late: seq<nat>): int
    requires |late| == |stages| && forall i :: 0 <= i < |stages| ==> stages[i].timeout >= 1
  {
    if stages == [] then 0 else Rank(stages[0], late[0]) + RankOf(stages[1..], late[1..])
  }

  function Total(counts: seq<nat>): nat {
    if counts == [] then 0 else counts[0] + Total(counts[1..])
  }

  function Plus(a: seq<nat>, b: seq<nat>): (r: seq<nat>)
    requires |a| == |b|
    ensures |r| == |a| && forall i :: 0 <= i < |r| ==> r[i] == a[i] + b[i]
  {
    seq(|a|, i requires 0 <= i < |a| => a[i] + b[i])
  }

  /** One for every stage of the scan that the step re-queues late. */
  function LateFlags(db: Db, a: Action, s: ScanId): (r: seq<nat>)
    requires s in db.scans
    ensures |r| == |db.scans[s].stages|
    ensures forall i :: 0 <= i < |r| ==> r[i] == if LateRequeue(db, a, s, i) then 1 else 0
  {
    seq(|db.scans[s].stages|, i requires 0 <= i < |db.scans[s].stages| => if LateRequeue(db, a, s, i) then 1 else 0)
  }

  /** How often the run re-queues a stage of the scan late. */
  ghost function ScanLateRequeues(db: Db, actions: seq<Action>, s: ScanId): nat
    requires Legal(db, actions)
    decreases |actions|
  {
    if actions == [] then 0
    else (if s in db.scans then Total(LateFlags(db, actions[0], s)) else 0)
         + ScanLateRequeues(Apply(db, actions[0]), actions[1..], s)
  }

  lemma {:induction false} NoFlags(flags: seq<nat>)
    requires forall i :: 0 <= i < |flags| ==> flags[i] == 0
    ensures Total(flags) == 0
  {
    if flags != [] {
      NoFlags(flags[1..]);
    }
  }

  lemma OneClockStepIsNeverLate(db: Db, a: Action, s: ScanId)
    requires s in db.scans && (a.RequeueExpiredStages? ==> NoneOverdue(db))
    ensures Total(LateFlags(db, a, s)) == 0
  {
    NoFlags(LateFlags(db, a, s));
  }

  lemma {:induction false} OneClockScanIsNeverLate(db: Db, actions: seq<Action>, s: ScanId)
    requires Legal(db, actions) && OneClock(db, actions)
    ensures ScanLateRequeues(db, actions, s) == 0
    decreases |actions|
  {
    if actions != [] {
      if s in db.scans {
        OneClockStepIsNeverLate(db, actions[0], s);
      }
      OneClockScanIsNeverLate(Apply(db, actions[0]), actions[1..], s);
    }
  }

  lemma RankPositive(r: Stage, now: Time, late: nat)
    requires r.timeout >= 1 && Timed(r, now, late)
    ensures Rank(r, late) >= 0
    ensures !r.status.Terminal() ==> Rank(r, late) >= 1
  {
  }

  lemma {:induction false} RankNonNegative(stages: seq<Stage>, now: Time, late: seq<nat>)
    requires |late| == |stages|
    requires forall i :: 0 <= i < |stages| ==> stages[i].timeout >= 1 && Timed(stages[i], now, late[i])
    ensures RankOf(stages, late) >= 0
  {
    if stages != [] {
      RankPositive(stages[0], now, late[0]);
      RankNonNegative(stages[1..], now, late[1..]);
    }
  }

  /** An open stage changes status: it is claimed, re-queued or closed. */
  predicate Moved(r: Stage, r': Stage) {
    !r.status.Terminal() && r'.status != r.status
  }

  predicate Moves(s: Scan, s': Scan)
    requires |s.stages| == |s'.stages|
  {
    exists i :: 0 <= i < |s.stages| && Moved(s.stages[i], s'.stages[i])
  }

  /** One row pays one for its move, and is paid two for a late re-queue. */
  ghost predicate Pays(r: Stage, late: nat, r': Stage, late': nat, flag: nat)
    requires r.timeout >= 1 && r'.timeout >= 1
  {
    Rank(r', late') + (if Moved(r, r') then 1 else 0) <= Rank(r, late) + 2 * flag
  }

  lemma RankRow(r: Stage, r': Stage, now: Time, late: nat, flag: nat)
    requires RowInv(r) && Timed(r, now, late) && RowMove(r, r', now) && r'.timeout == r.timeout
    requires flag == if Expired(r, now) && r' == Requeued(r) && Overdue(r, now) then 1 else 0
    ensures Pays(r, late, r', late + flag, flag)
  {
    RankPositive(r, now, late);
    hide Timed, MaxClaims;
  }

  lemma {:induction false} RankSum(a: seq<Stage>, late: seq<nat>, b: seq<Stage>, late': seq<nat>, flags: seq<nat>)
    requires |a| == |b| == |late| == |late'| == |flags|
    requires forall i :: 0 <= i < |a| ==> a[i].timeout >= 1 && b[i].timeout >= 1
    requires forall i :: 0 <= i < |a| ==> Pays(a[i], late[i], b[i], late'[i], flags[i])
    ensures RankOf(b, late') <= RankOf(a, late) + 2 * Total(flags)
    ensures (exists i :: 0 <= i < |a| && Moved(a[i], b[i]))
            ==> RankOf(b, late') + 1 <= RankOf(a, late) + 2 * Total(flags)
  {
    hide Rank, Moved;
    if a != [] {
      assert Pays(a[0], late[0], b[0], late'[0], flags[0]);
      RankSum(a[1..], late[1..], b[1..], late'[1..], flags[1..]);
      if i :| 0 <= i < |a| && Moved(a[i], b[i]) {
        assert i == 0 || (b[1..][i - 1] == b[i] && a[1..][i - 1] == a[i]);
      }
    }
  }

  /** One step of the whole queue, for one row of the scan. */
  lemma RowPays(db: Db, a: Action, s: ScanId, i: nat, late: nat)
    requires Inv(db) && Enabled(db, a) && HasStage(db, s, i) && Timed(db.scans[s].stages[i], db.now, late)
    ensures HasStage(Apply(db, a), s, i)
    ensures var r, r' := db.scans[s].stages[i], Apply(db, a).scans[s].stages[i];
            var flag := if LateRequeue(db, a, s, i) then 1 else 0;
            && r.timeout >= 1 && r'.timeout == r.timeout
            && Timed(r', Apply(db, a).now, late + flag)
            && Pays(r, late, r', late + flag, flag)
  {
    RowMoves(db, a, s, i);
    assert RowInv(db.scans[s].stages[i]) by {
      assert ScanInv(db.scans[s]);
    }
    LateIsRequeued(db, a, s, i);
    TimedStep(db, a, s, i, late);
    SameTimeout(db, a, s, i);
    hide Inv, Apply, Enabled, RowMove, Timed, Expired, Overdue, Requeued, Pays;
    var r, r' := db.scans[s].stages[i], Apply(db, a).scans[s].stages[i];
    RankRow(r, r', db.now, late, if LateRequeue(db, a, s, i) then 1 else 0);
  }

  lemma SameTimeout(db: Db, a: Action, s: ScanId, i: nat)
    requires Inv(db) && Enabled(db, a) && HasStage(db, s, i)
    ensures HasStage(Apply(db, a), s, i) && Apply(db, a).scans[s].stages[i].timeout == db.scans[s].stages[i].timeout
    ensures |Apply(db, a).scans[s].stages| == |db.scans[s].stages|
  {
    StepKeeps(db, a);
    assert ScanEvolves(db.scans[s], Apply(db, a).scans[s]);
    assert RowEvolves(db.scans[s].stages[i], Apply(db, a).scans[s].stages[i]);
  }

  /** Every claim, re-queue and closing lowers the rank of its scan, every late re-queue raises it by
      at most two, and no other step raises it. */
  lemma RankStep(db: Db, a: Action, s: ScanId, late: seq<nat>)
    requires Inv(db) && Enabled(db, a) && s in db.scans && OnSchedule(db.scans[s], db.now, late)
    ensures s in Apply(db, a).scans && |Apply(db, a).scans[s].stages| == |db.scans[s].stages|
    ensures OnSchedule(Apply(db, a).scans[s], Apply(db, a).now, Plus(late, LateFlags(db, a, s)))
    ensures var flags := LateFlags(db, a, s);
            RankOf(Apply(db, a).scans[s].stages, Plus(late, flags))
            + (if Moves(db.scans[s], Apply(db, a).scans[s]) then 1 else 0)
            <= RankOf(db.scans[s].stages, late) + 2 * Total(flags)
  {
    hide Inv, Apply, Enabled, Timed, Pays, Moved, LateRequeue, Total, RankOf;
    SameScan(db, a, s);
    var before, after, flags := db.scans[s].stages, Apply(db, a).scans[s].stages, LateFlags(db, a, s);
    forall i | 0 <= i < |before|
      ensures before[i].timeout >= 1 && after[i].timeout >= 1
      ensures Timed(after[i], Apply(db, a).now, Plus(late, flags)[i])
      ensures Pays(before[i], late[i], after[i], Plus(late, flags)[i], flags[i])
    {
      RowPays(db, a, s, i, late[i]);
    }
    RankSum(before, late, after, Plus(late, flags), flags);
  }

  lemma SameScan(db: Db, a: Action, s: ScanId)
    requires Inv(db) && Enabled(db, a) && s in db.scans
    ensures s in Apply(db, a).scans && |Apply(db, a).scans[s].stages| == |db.scans[s].stages|
  {
    StepKeeps(db, a);
    assert ScanEvolves(db.scans[s], Apply(db, a).scans[s]);
  }

  /** How many steps of the run move the scan. */
  ghost function Movements(db: Db, actions: seq<Action>, s: ScanId): nat
    requires Inv(db) && Legal(db, actions) && s in db.scans
    decreases |actions|
  {
    if actions == [] then 0
    else
      StepKeeps(db, actions[0]);
      assert ScanEvolves(db.scans[s], Apply(db, actions[0]).scans[s]);
      (if Moves(db.scans[s], Apply(db, actions[0]).scans[s]) then 1 else 0)
      + Movements(Apply(db, actions[0]), actions[1..], s)
  }

  /** Whatever any number of runners do, the claims, re-queues and closings of one scan and the rank it is
      left with are at most its rank at the start, plus two for every late re-queue. */
  lemma {:induction false} MovementsAreBounded(db: Db, actions: seq<Action>, s: ScanId, late: seq<nat>)
    returns (later: seq<nat>)
    requires Inv(db) && Legal(db, actions) && s in db.scans && OnSchedule(db.scans[s], db.now, late)
    ensures s in After(db, actions).scans && OnSchedule(After(db, actions).scans[s], After(db, actions).now, later)
    ensures 0 <= RankOf(After(db, actions).scans[s].stages, later)
    ensures Movements(db, actions, s) + RankOf(After(db, actions).scans[s].stages, later)
            <= RankOf(db.scans[s].stages, late) + 2 * ScanLateRequeues(db, actions, s)
    decreases |actions|
  {
    if actions == [] {
      later := late;
      RankNonNegative(db.scans[s].stages, db.now, late);
    } else {
      StepKeeps(db, actions[0]);
      RankStep(db, actions[0], s, late);
      hide Inv, Enabled, Apply, OnSchedule, LateFlags, Moves, RankOf;
      later := MovementsAreBounded(Apply(db, actions[0]), actions[1..], s, Plus(late, LateFlags(db, actions[0], s)));
    }
  }

  /** In every reachable state every scan is on schedule, counting the late re-queues so far. */
  lemma ReachableIsScheduled(actions: seq<Action>, s: ScanId) returns (late: seq<nat>)
    requires Legal(EMPTY, actions) && s in After(EMPTY, actions).scans
    ensures Inv(After(EMPTY, actions)) && OnSchedule(After(EMPTY, actions).scans[s], After(EMPTY, actions).now, late)
    ensures forall i :: 0 <= i < |late| ==> late[i] == LateRequeues(EMPTY, actions, s, i)
  {
    RunKeeps(EMPTY, actions);
    var db := After(EMPTY, actions);
    assert ScanInv(db.scans[s]);
    late := seq(|db.scans[s].stages|, i requires 0 <= i < |db.scans[s].stages| => LateRequeues(EMPTY, actions, s, i));
    forall i | 0 <= i < |db.scans[s].stages|
      ensures db.scans[s].stages[i].timeout >= 1 && Timed(db.scans[s].stages[i], db.now, late[i])
    {
      TimedRun(EMPTY, actions, s, i, 0);
      assert RowInv(db.scans[s].stages[i]);
    }
  }

  /** From every reachable state, in every continuation. */
  lemma ReachableMovementsAreBounded(before: seq<Action>, later: seq<Action>, s: ScanId) returns (late: seq<nat>)
    requires Legal(EMPTY, before) && s in After(EMPTY, before).scans && Legal(After(EMPTY, before), later)
    ensures Inv(After(EMPTY, before)) && OnSchedule(After(EMPTY, before).scans[s], After(EMPTY, before).now, late)
    ensures forall i :: 0 <= i < |late| ==> late[i] == LateRequeues(EMPTY, before, s, i)
    ensures Movements(After(EMPTY, before), later, s)
            <= RankOf(After(EMPTY, before).scans[s].stages, late)
               + 2 * ScanLateRequeues(After(EMPTY, before), later, s)
  {
    late := ReachableIsScheduled(before, s);
    hide Inv, OnSchedule;
    var end := MovementsAreBounded(After(EMPTY, before), later, s, late);
  }

  function PlanBudget(plan: seq<PlanStage>): nat
    requires ValidPlan(plan) || plan == []
  {
    if plan == [] then 0
    else 2 * MaxClaims(plan[0].timeout) + PlanBudget(plan[1..])
  }

  function Zeros(n: nat): (r: seq<nat>)
    ensures |r| == n && forall i :: 0 <= i < n ==> r[i] == 0
  {
    seq(n, i => 0)
  }

  lemma {:induction false} NewScanRank(assessment: AssessmentId, plan: seq<PlanStage>, now: Time)
    requires ValidPlan(plan) || plan == []
    ensures forall i :: 0 <= i < |plan| ==> NewScan(assessment, plan, now).stages[i].timeout >= 1
    ensures RankOf(NewScan(assessment, plan, now).stages, Zeros(|plan|)) == PlanBudget(plan)
  {
    if plan != [] {
      NewScanRank(assessment, plan[1..], now);
      assert NewScan(assessment, plan, now).stages[1..] == NewScan(assessment, plan[1..], now).stages;
      assert Zeros(|plan|)[1..] == Zeros(|plan| - 1);
    }
  }

  /** From the moment a plan is queued, 2 * (1 + (timeout - 1) / 120) moves per stage and two for every late
      re-queue are all that ever happens to the scan; with one clock reading per recovery pass the
      budget of the plan is enough. */
  lemma PlanMovementsAreBounded(db: Db, s: ScanId, assessment: AssessmentId, plan: seq<PlanStage>, actions: seq<Action>)
    requires Inv(db) && Enabled(db, Enqueue(s, assessment, plan))
    requires Legal(Apply(db, Enqueue(s, assessment, plan)), actions)
    ensures Inv(Apply(db, Enqueue(s, assessment, plan)))
    ensures var db1 := Apply(db, Enqueue(s, assessment, plan));
            && Movements(db1, actions, s) <= PlanBudget(plan) + 2 * ScanLateRequeues(db1, actions, s)
            && (OneClock(db1, actions) ==> Movements(db1, actions, s) <= PlanBudget(plan))
  {
    StepKeeps(db, Enqueue(s, assessment, plan));
    NewScanRank(assessment, plan, db.now);
    var db1 := Apply(db, Enqueue(s, assessment, plan));
    assert OnSchedule(db1.scans[s], db1.now, Zeros(|plan|));
    var end := MovementsAreBounded(db1, actions, s, Zeros(|plan|));
    if OneClock(db1, actions) {
      OneClockScanIsNeverLate(db1, actions, s);
    }
  }

  // ----- every uncancelled scan can end -----

  /** The first stage that is not closed. */
  lemma {:induction false} FirstOpen(stages: seq<Stage>) returns (i: nat)
    requires !AllTerminal(stages)
    ensures i < |stages| && !stages[i].status.Terminal() && PriorTerminal(stages, i)
  {
    if stages[0].status.Terminal() {
      assert exists k :: 0 <= k < |stages[1..]| && !stages[1..][k].status.Terminal() by {
        var k :| 0 <= k < |stages| && !stages[k].status.Terminal();
        assert stages[1..][k - 1] == stages[k];
      }
      var j := FirstOpen(stages[1..]);
      i := j + 1;
      assert forall k :: 0 < k < i ==> stages[k] == stages[1..][k - 1];
    } else {
      i := 0;
    }
  }

  /** While a stage of an uncancelled scan is open, the first open one can either be claimed
      now, or it runs and recovery closes it at any time from its deadline on. */
  lemma SomethingIsAlwaysEnabled(db: Db, s: ScanId) returns (i: nat)
    requires Inv(db) && s in db.scans && !db.scans[s].cancelRequested && !AllTerminal(db.scans[s].stages)
    ensures HasStage(db, s, i) && !db.scans[s].stages[i].status.Terminal() && PriorTerminal(db.scans[s].stages, i)
    ensures var r := db.scans[s].stages[i];
            || (forall owner :: Enabled(db, Claim(s, i, owner)))
            || (r.status.Running? && r.startedAt.Some?
                && forall now :: Deadline(r) <= now ==> CloseOverdue(db.scans[s].stages, now)[i].status.TimedOut?)
  {
    i := FirstOpen(db.scans[s].stages);
    assert RowInv(db.scans[s].stages[i]);
  }

  function OpenStages(stages: seq<Stage>): nat {
    if stages == [] then 0 else (if stages[0].status.Terminal() then 0 else 1) + OpenStages(stages[1..])
  }

  /** Stages that never reopen: closing one lowers the count. */
  lemma {:induction false} OpenFalls(a: seq<Stage>, b: seq<Stage>)
    requires |a| == |b| && forall i :: 0 <= i < |a| && a[i].status.Terminal() ==> b[i].status.Terminal()
    ensures OpenStages(b) <= OpenStages(a)
    ensures (exists i :: 0 <= i < |a| && !a[i].status.Terminal() && b[i].status.Terminal())
            ==> OpenStages(b) < OpenStages(a)
  {
    if a != [] {
      OpenFalls(a[1..], b[1..]);
      if i :| 0 <= i < |a| && !a[i].status.Terminal() && b[i].status.Terminal() {
        assert i == 0 || (b[1..][i - 1] == b[i] && a[1..][i - 1] == a[i]);
      }
    }
  }

  lemma OpenFallsByStep(db: Db, a: Action, s: ScanId)
    requires Inv(db) && Enabled(db, a) && s in db.scans
    ensures Inv(Apply(db, a)) && s in Apply(db, a).scans
    ensures |Apply(db, a).scans[s].stages| == |db.scans[s].stages|
    ensures OpenStages(Apply(db, a).scans[s].stages) <= OpenStages(db.scans[s].stages)
    ensures forall i :: 0 <= i < |db.scans[s].stages| && !db.scans[s].stages[i].status.Terminal()
                        && Apply(db, a).scans[s].stages[i].status.Terminal()
                        ==> OpenStages(Apply(db, a).scans[s].stages) < OpenStages(db.scans[s].stages)
  {
    StepKeeps(db, a);
    var before, after := db.scans[s].stages, Apply(db, a).scans[s].stages;
    assert ScanEvolves(db.scans[s], Apply(db, a).scans[s]);
    forall i | 0 <= i < |before| && before[i].status.Terminal()
      ensures after[i].status.Terminal()
    {
      assert RowEvolves(before[i], after[i]);
    }
    OpenFalls(before, after);
  }

  /** Waiting for the deadline of a running stage and one recovery statement close it. */
  lemma TimeOut(db: Db, s: ScanId, i: nat) returns (wait: Action)
    requires Inv(db) && HasStage(db, s, i) && db.scans[s].stages[i].status.Running?
    ensures wait.Tick? && Inv(Apply(Apply(db, wait), CloseOverdueStages))
    ensures s in Apply(Apply(db, wait), CloseOverdueStages).scans
    ensures Apply(Apply(db, wait), CloseOverdueStages).scans[s].cancelRequested == db.scans[s].cancelRequested
    ensures OpenStages(Apply(Apply(db, wait), CloseOverdueStages).scans[s].stages) < OpenStages(db.scans[s].stages)
  {
    var r := db.scans[s].stages[i];
    hide Inv;
    assert RowInv(r) by {
      ScanHasInv(db, s);
    }
    wait := Tick(if Deadline(r) <= db.now then 0 else Deadline(r) - db.now);
    var db1 := Apply(db, wait);
    assert db1.scans == db.scans;
    OverdueRowCloses(db1, s, i);
    hide Apply, OpenStages, Overdue, RowInv;
    OpenFallsByStep(db, wait, s);
    OpenFallsByStep(db1, CloseOverdueStages, s);
  }

  lemma OverdueRowCloses(db: Db, s: ScanId, i: nat)
    requires HasStage(db, s, i) && Overdue(db.scans[s].stages[i], db.now)
    ensures var after := Apply(db, CloseOverdueStages);
            HasStage(after, s, i) && after.scans[s].stages[i].status.TimedOut?
            && after.scans[s].cancelRequested == db.scans[s].cancelRequested
  {
  }

  /** From every state some continuation closes every stage of an uncancelled scan, in at most three
      steps for each open one, without a single re-queue. */
  lemma {:induction false} ScanCanAlwaysEnd(db: Db, s: ScanId) returns (actions: seq<Action>)
    requires Inv(db) && s in db.scans && !db.scans[s].cancelRequested
    ensures Legal(db, actions) && OneClock(db, actions)
    ensures s in After(db, actions).scans && AllTerminal(After(db, actions).scans[s].stages)
    ensures |actions| <= 3 * OpenStages(db.scans[s].stages)
    decreases OpenStages(db.scans[s].stages), 1
  {
    if AllTerminal(db.scans[s].stages) {
      actions := [];
    } else {
      var i := FirstOpen(db.scans[s].stages);
      if db.scans[s].stages[i].status.Queued? {
        var claim := Claim(s, i, "runner");
        OpenFallsByStep(db, claim, s);
        var db1 := Apply(db, claim);
        assert db1.scans[s].stages[i].status.Running?;
        var rest := RunningCanEnd(db1, s, i);
        PrependClock(db, claim, rest);
        actions := [claim] + rest;
      } else {
        actions := RunningCanEnd(db, s, i);
      }
    }
  }

  lemma {:induction false} RunningCanEnd(db: Db, s: ScanId, i: nat) returns (actions: seq<Action>)
    requires Inv(db) && HasStage(db, s, i) && !db.scans[s].cancelRequested && db.scans[s].stages[i].status.Running?
    ensures Legal(db, actions) && OneClock(db, actions)
    ensures s in After(db, actions).scans && AllTerminal(After(db, actions).scans[s].stages)
    ensures |actions| <= 3 * OpenStages(db.scans[s].stages) - 1
    decreases OpenStages(db.scans[s].stages), 0
  {
    var wait := TimeOut(db, s, i);
    hide Inv, Apply, Enabled;
    var rest := ScanCanAlwaysEnd(Apply(Apply(db, wait), CloseOverdueStages), s);
    PrependClock(Apply(db, wait), CloseOverdueStages, rest);
    PrependClock(db, wait, [CloseOverdueStages] + rest);
    actions := [wait] + ([CloseOverdueStages] + rest);
  }
}
