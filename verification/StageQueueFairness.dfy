/** Endless runs of the stage queue: where claiming, recovery and the clock go on, a scan that nobody cancels
    closes all its stages, and where finalising goes on as well it is over in the end, unless it is orphaned. */
module StageQueueFairness {
  import opened Common
  import opened StageQueue
  import opened StageQueueSafety
  import opened StageQueueProgress
  import opened Finalisation

  /** The state before step `n`, and step `n`. */
  datatype Endless = Endless(states: nat -> Db, actions: nat -> Action)

  ghost predicate StepAt(r: Endless, n: nat) {
    Enabled(r.states(n), r.actions(n)) && r.states(n + 1) == Apply(r.states(n), r.actions(n))
  }

  ghost predicate IsRun(r: Endless) {
    r.states(0) == EMPTY && forall n: nat :: StepAt(r, n)
  }

  // ----- what an endless run has in common with every run -----

  lemma {:induction false} InvAt(r: Endless, n: nat)
    requires IsRun(r)
    ensures Inv(r.states(n))
  {
    if n > 0 {
      InvAt(r, n - 1);
      assert StepAt(r, n - 1);
      StepKeeps(r.states(n - 1), r.actions(n - 1));
    }
  }

  lemma StepEvolves(r: Endless, n: nat)
    requires IsRun(r)
    ensures Inv(r.states(n)) && Evolves(r.states(n), r.states(n + 1))
  {
    InvAt(r, n);
    assert StepAt(r, n);
    StepKeeps(r.states(n), r.actions(n));
  }

  lemma {:induction false} EvolvesAt(r: Endless, n: nat, m: nat)
    requires IsRun(r) && n <= m
    ensures Evolves(r.states(n), r.states(m))
    decreases m
  {
    if n < m {
      EvolvesAt(r, n, m - 1);
      StepEvolves(r, m - 1);
      EvolvesTransitive(r.states(n), r.states(m - 1), r.states(m));
    } else {
      InvAt(r, n);
      Unchanged(r.states(n));
    }
  }

  lemma Unchanged(db: Db)
    ensures Evolves(db, db)
  {
  }

  ghost function LateAt(r: Endless, s: ScanId, i: nat, n: nat): nat {
    if n == 0 then 0
    else LateAt(r, s, i, n - 1) + (if LateRequeue(r.states(n - 1), r.actions(n - 1), s, i) then 1 else 0)
  }

  lemma {:induction false} TimedAtStep(r: Endless, s: ScanId, i: nat, n: nat)
    requires IsRun(r)
    ensures TimedAt(r.states(n), s, i, LateAt(r, s, i, n))
  {
    if n > 0 {
      TimedAtStep(r, s, i, n - 1);
      InvAt(r, n - 1);
      assert StepAt(r, n - 1);
      TimedStep(r.states(n - 1), r.actions(n - 1), s, i, LateAt(r, s, i, n - 1));
    }
  }

  lemma ScheduledAt(r: Endless, s: ScanId, n: nat) returns (late: seq<nat>)
    requires IsRun(r) && s in r.states(n).scans
    ensures OnSchedule(r.states(n).scans[s], r.states(n).now, late)
  {
    InvAt(r, n);
    var stages := r.states(n).scans[s].stages;
    late := seq(|stages|, i requires 0 <= i < |stages| => LateAt(r, s, i, n));
    forall i | 0 <= i < |stages|
      ensures stages[i].timeout >= 1 && Timed(stages[i], r.states(n).now, late[i])
    {
      TimedAtStep(r, s, i, n);
      assert ScanInv(r.states(n).scans[s]) && RowInv(stages[i]);
    }
  }

  // ----- moves and late re-queues from some moment on -----

  ghost predicate MovesAt(r: Endless, s: ScanId, n: nat) {
    && s in r.states(n).scans && s in r.states(n + 1).scans
    && |r.states(n).scans[s].stages| == |r.states(n + 1).scans[s].stages|
    && Moves(r.states(n).scans[s], r.states(n + 1).scans[s])
  }

  /** Moves of the scan in the `k` steps from step `n` on. */
  ghost function MovesFrom(r: Endless, s: ScanId, n: nat, k: nat): nat {
    if k == 0 then 0 else MovesFrom(r, s, n, k - 1) + (if MovesAt(r, s, n + k - 1) then 1 else 0)
  }

  ghost function LateInStep(r: Endless, s: ScanId, n: nat): nat {
    if s in r.states(n).scans then Total(LateFlags(r.states(n), r.actions(n), s)) else 0
  }

  ghost function LateFrom(r: Endless, s: ScanId, n: nat, k: nat): nat {
    if k == 0 then 0 else LateFrom(r, s, n, k - 1) + LateInStep(r, s, n + k - 1)
  }

  lemma {:induction false} MovesAreBounded(r: Endless, s: ScanId, n: nat, k: nat, late: seq<nat>)
    returns (later: seq<nat>)
    requires IsRun(r) && s in r.states(n).scans && OnSchedule(r.states(n).scans[s], r.states(n).now, late)
    ensures s in r.states(n + k).scans && OnSchedule(r.states(n + k).scans[s], r.states(n + k).now, later)
    ensures MovesFrom(r, s, n, k) + RankOf(r.states(n + k).scans[s].stages, later)
            <= RankOf(r.states(n).scans[s].stages, late) + 2 * LateFrom(r, s, n, k)
    decreases k
  {
    hide IsRun, OnSchedule, RankOf, MovesAt, LateInStep;
    if k == 0 {
      later := late;
    } else {
      var before := MovesAreBounded(r, s, n, k - 1, late);
      later := MoveIsPaid(r, s, n + k - 1, before);
    }
  }

  lemma MoveIsPaid(r: Endless, s: ScanId, m: nat, late: seq<nat>) returns (later: seq<nat>)
    requires IsRun(r) && s in r.states(m).scans && OnSchedule(r.states(m).scans[s], r.states(m).now, late)
    ensures s in r.states(m + 1).scans && OnSchedule(r.states(m + 1).scans[s], r.states(m + 1).now, later)
    ensures (if MovesAt(r, s, m) then 1 else 0) + RankOf(r.states(m + 1).scans[s].stages, later)
            <= RankOf(r.states(m).scans[s].stages, late) + 2 * LateInStep(r, s, m)
  {
    InvAt(r, m);
    assert StepAt(r, m);
    hide Inv, Apply, Enabled, OnSchedule, RankOf, Moves, LateFlags, Total;
    RankStep(r.states(m), r.actions(m), s, late);
    later := Plus(late, LateFlags(r.states(m), r.actions(m), s));
  }

  /** A bounded count stops growing. */
  lemma {:induction false} CountSettles(r: Endless, s: ScanId, n: nat, k: nat, bound: nat) returns (quiet: nat)
    requires forall j: nat :: MovesFrom(r, s, n, j) <= bound
    ensures quiet >= k && forall j: nat :: j >= quiet ==> MovesFrom(r, s, n, j) == MovesFrom(r, s, n, quiet)
    decreases bound - MovesFrom(r, s, n, k)
  {
    if j: nat :| j >= k && MovesFrom(r, s, n, j) != MovesFrom(r, s, n, k) {
      CountGrows(r, s, n, k, j);
      quiet := CountSettles(r, s, n, j, bound);
    } else {
      quiet := k;
    }
  }

  lemma {:induction false} CountGrows(r: Endless, s: ScanId, n: nat, k: nat, j: nat)
    requires k <= j
    ensures MovesFrom(r, s, n, k) <= MovesFrom(r, s, n, j)
    decreases j
  {
    if k < j {
      CountGrows(r, s, n, k, j - 1);
    }
  }

  // ----- fairness -----

  /** At step `m` the stage is claimed, or it is not claimable. */
  ghost predicate ServedAt(r: Endless, s: ScanId, i: nat, m: nat) {
    || s !in r.states(m).scans || !Claimable(r.states(m).scans[s], i)
    || (r.actions(m).Claim? && r.actions(m).scan == s && r.actions(m).position == i)
  }

  ghost predicate ServedAfter(r: Endless, s: ScanId, i: nat, n: nat) {
    exists m: nat :: m >= n && ServedAt(r, s, i, m)
  }

  /** No stage of the scan stays claimable for ever without being claimed. */
  ghost predicate ClaimingGoesOn(r: Endless, s: ScanId) {
    forall n: nat, i: nat :: ServedAfter(r, s, i, n)
  }

  ghost predicate RecoversAt(r: Endless, m: nat) {
    r.actions(m).CloseOverdueStages?
  }

  ghost predicate RecoversAfter(r: Endless, n: nat) {
    exists m: nat :: m >= n && RecoversAt(r, m)
  }

  ghost predicate RecoveryGoesOn(r: Endless) {
    forall n: nat :: RecoversAfter(r, n)
  }

  ghost predicate Reaches(r: Endless, t: Time) {
    exists n: nat :: r.states(n).now >= t
  }

  ghost predicate TimeGoesOn(r: Endless) {
    forall t: Time :: Reaches(r, t)
  }

  ghost predicate NeverCancelled(r: Endless, s: ScanId) {
    forall n: nat :: s in r.states(n).scans ==> !r.states(n).scans[s].cancelRequested
  }

  ghost predicate FewLateRequeues(r: Endless, s: ScanId, n: nat, bound: nat) {
    forall k: nat :: LateFrom(r, s, n, k) <= bound
  }

  /** Nothing of the scan moves from step `quiet` on. */
  ghost predicate Quiet(r: Endless, s: ScanId, quiet: nat) {
    forall m: nat :: m >= quiet ==> !MovesAt(r, s, m)
  }

  lemma BecomesQuiet(r: Endless, s: ScanId, n: nat, bound: nat) returns (quiet: nat)
    requires IsRun(r) && s in r.states(n).scans && FewLateRequeues(r, s, n, bound)
    ensures quiet >= n && Quiet(r, s, quiet)
  {
    var late := ScheduledAt(r, s, n);
    var most := RankOf(r.states(n).scans[s].stages, late) + 2 * bound;
    forall k: nat
      ensures MovesFrom(r, s, n, k) <= most
    {
      var later := MovesAreBounded(r, s, n, k, late);
      RankNonNegative(r.states(n + k).scans[s].stages, r.states(n + k).now, later);
      assert LateFrom(r, s, n, k) <= bound;
    }
    assert MovesFrom(r, s, n, 0) <= most;
    var k := CountSettles(r, s, n, 0, most);
    quiet := n + k;
    forall m: nat | m >= quiet
      ensures !MovesAt(r, s, m)
    {
      assert MovesFrom(r, s, n, m - n + 1) == MovesFrom(r, s, n, k) == MovesFrom(r, s, n, m - n);
    }
  }

  /** In a quiet scan every open row keeps its status, and every closed one stays closed. */
  lemma {:induction false} QuietRow(r: Endless, s: ScanId, quiet: nat, m: nat, i: nat)
    requires IsRun(r) && Quiet(r, s, quiet) && m >= quiet && HasStage(r.states(quiet), s, i)
    ensures HasStage(r.states(m), s, i)
    ensures var a, b := r.states(quiet).scans[s].stages[i], r.states(m).scans[s].stages[i];
            if a.status.Terminal() then b.status.Terminal()
            else b.status == a.status && b.timeout == a.timeout && (a.startedAt.Some? ==> b.startedAt == a.startedAt)
    decreases m
  {
    if m > quiet {
      QuietRow(r, s, quiet, m - 1, i);
      StepEvolves(r, m - 1);
      var before, after := r.states(m - 1).scans[s], r.states(m).scans[s];
      assert ScanEvolves(before, after);
      assert RowEvolves(before.stages[i], after.stages[i]);
      assert !MovesAt(r, s, m - 1);
      if !before.stages[i].status.Terminal() {
        assert !Moved(before.stages[i], after.stages[i]);
      }
    }
  }

  lemma QuietStaysClaimable(r: Endless, s: ScanId, quiet: nat, m: nat, i: nat)
    requires IsRun(r) && Quiet(r, s, quiet) && m >= quiet && NeverCancelled(r, s)
    requires s in r.states(quiet).scans && Claimable(r.states(quiet).scans[s], i)
    ensures s in r.states(m).scans && Claimable(r.states(m).scans[s], i)
  {
    forall j | 0 <= j <= i
      ensures HasStage(r.states(m), s, j)
      ensures if j == i then r.states(m).scans[s].stages[j].status.Queued?
              else r.states(m).scans[s].stages[j].status.Terminal()
    {
      QuietRow(r, s, quiet, m, j);
    }
    QuietRow(r, s, quiet, m, i);
    assert !r.states(m).scans[s].cancelRequested;
    forall j | 0 <= j < i
      ensures r.states(m).scans[s].stages[j].status.Terminal()
    {
      assert HasStage(r.states(m), s, j);
    }
  }

  lemma ClaimMoves(r: Endless, s: ScanId, m: nat, i: nat)
    requires IsRun(r) && s in r.states(m).scans && Claimable(r.states(m).scans[s], i)
    requires r.actions(m).Claim? && r.actions(m).scan == s && r.actions(m).position == i
    ensures MovesAt(r, s, m)
  {
    assert StepAt(r, m);
    assert Moved(r.states(m).scans[s].stages[i], r.states(m + 1).scans[s].stages[i]);
  }

  lemma RecoveryMoves(r: Endless, s: ScanId, m: nat, i: nat)
    requires IsRun(r) && HasStage(r.states(m), s, i) && Overdue(r.states(m).scans[s].stages[i], r.states(m).now)
    requires RecoversAt(r, m)
    ensures MovesAt(r, s, m)
  {
    assert StepAt(r, m);
    assert Moved(r.states(m).scans[s].stages[i], r.states(m + 1).scans[s].stages[i]);
  }

  /** A quiet scan has no claimable stage ... */
  lemma QuietIsNotClaimable(r: Endless, s: ScanId, quiet: nat, i: nat)
    requires IsRun(r) && Quiet(r, s, quiet) && NeverCancelled(r, s) && ClaimingGoesOn(r, s)
    requires s in r.states(quiet).scans
    ensures !Claimable(r.states(quiet).scans[s], i)
  {
    if Claimable(r.states(quiet).scans[s], i) {
      assert ServedAfter(r, s, i, quiet);
      var m: nat :| m >= quiet && ServedAt(r, s, i, m);
      QuietStaysClaimable(r, s, quiet, m, i);
      ClaimMoves(r, s, m, i);
    }
  }

  /** ... and no running one. */
  lemma QuietIsNotRunning(r: Endless, s: ScanId, quiet: nat, i: nat)
    requires IsRun(r) && Quiet(r, s, quiet) && RecoveryGoesOn(r) && TimeGoesOn(r) && HasStage(r.states(quiet), s, i)
    ensures !r.states(quiet).scans[s].stages[i].status.Running?
  {
    var row := r.states(quiet).scans[s].stages[i];
    if row.status.Running? {
      InvAt(r, quiet);
      assert ScanInv(r.states(quiet).scans[s]) && RowInv(row);
      assert Reaches(r, Deadline(row));
      var n: nat :| r.states(n).now >= Deadline(row);
      var late := if n < quiet then quiet else n;
      assert RecoversAfter(r, late);
      var m: nat :| m >= late && RecoversAt(r, m);
      EvolvesAt(r, n, m);
      QuietRow(r, s, quiet, m, i);
      RecoveryMoves(r, s, m, i);
    }
  }

  /** In every endless run, of any number of runners, in which no stage of the scan stays claimable for ever,
      recovery keeps running and the clock keeps advancing, a scan that nobody cancels and that is re-queued
      late only finitely often closes all its stages, and they stay closed. */
  lemma FairRunsEnd(r: Endless, s: ScanId, start: nat, bound: nat) returns (end: nat)
    requires IsRun(r) && s in r.states(start).scans && NeverCancelled(r, s) && FewLateRequeues(r, s, start, bound)
    requires ClaimingGoesOn(r, s) && RecoveryGoesOn(r) && TimeGoesOn(r)
    ensures end >= start
    ensures forall m: nat :: m >= end ==> s in r.states(m).scans && AllTerminal(r.states(m).scans[s].stages)
  {
    var quiet := BecomesQuiet(r, s, start, bound);
    EvolvesAt(r, start, quiet);
    InvAt(r, quiet);
    if !AllTerminal(r.states(quiet).scans[s].stages) {
      var i := FirstOpen(r.states(quiet).scans[s].stages);
      assert !r.states(quiet).scans[s].cancelRequested;
      QuietIsNotRunning(r, s, quiet, i);
      QuietIsNotClaimable(r, s, quiet, i);
    }
    end := quiet;
    forall m: nat | m >= end
      ensures s in r.states(m).scans && AllTerminal(r.states(m).scans[s].stages)
    {
      EvolvesAt(r, end, m);
      assert ScanEvolves(r.states(end).scans[s], r.states(m).scans[s]);
      forall i | 0 <= i < |r.states(m).scans[s].stages|
        ensures r.states(m).scans[s].stages[i].status.Terminal()
      {
        assert RowEvolves(r.states(end).scans[s].stages[i], r.states(m).scans[s].stages[i]);
      }
    }
  }

  /** Every recovery pass of the run acts at one clock reading. */
  ghost predicate OneClockAt(r: Endless, m: nat) {
    r.actions(m).RequeueExpiredStages? ==> NoneOverdue(r.states(m))
  }

  /** With one clock reading per recovery pass nothing is ever late. */
  lemma {:induction false} OneClockHasNoLate(r: Endless, s: ScanId, n: nat, k: nat)
    requires forall m: nat :: OneClockAt(r, m)
    ensures LateFrom(r, s, n, k) == 0
  {
    if k > 0 {
      OneClockHasNoLate(r, s, n, k - 1);
      assert OneClockAt(r, n + k - 1);
      if s in r.states(n + k - 1).scans {
        OneClockStepIsNeverLate(r.states(n + k - 1), r.actions(n + k - 1), s);
      }
    }
  }

  /** So with one clock reading per recovery pass every such run closes all stages of the scan. */
  lemma FairOneClockRunsEnd(r: Endless, s: ScanId, start: nat) returns (end: nat)
    requires IsRun(r) && s in r.states(start).scans && NeverCancelled(r, s) && forall m: nat :: OneClockAt(r, m)
    requires ClaimingGoesOn(r, s) && RecoveryGoesOn(r) && TimeGoesOn(r)
    ensures end >= start
    ensures forall m: nat :: m >= end ==> s in r.states(m).scans && AllTerminal(r.states(m).scans[s].stages)
  {
    forall k: nat
      ensures LateFrom(r, s, start, k) <= 0
    {
      OneClockHasNoLate(r, s, start, k);
    }
    end := FairRunsEnd(r, s, start, 0);
  }

  // ----- the scan itself -----

  /** What the process that has or may take the report lock of the scan does next. */
  function NextOfFinaliser(s: ScanId, scan: Scan): Option<Action> {
    match scan.lock
    case Free => if scan.calls >= 1 then Some(TakeLock(s)) else None
    case Entered => Some(ReadRows(s))
    case Decided(_) => Some(WriteStatus(s))
    case Written => None
    case Leaving => Some(Unlock(s))
  }

  ghost predicate FinaliserServedAt(r: Endless, s: ScanId, m: nat) {
    s in r.states(m).scans ==>
      var next := NextOfFinaliser(s, r.states(m).scans[s]);
      next.None? || r.actions(m) == next.value
  }

  ghost predicate FinaliserServedAfter(r: Endless, s: ScanId, n: nat) {
    exists m: nat :: m >= n && FinaliserServedAt(r, s, m)
  }

  /** No step of finalising the scan is due for ever without being taken. */
  ghost predicate FinalisingGoesOn(r: Endless, s: ScanId) {
    forall n: nat :: FinaliserServedAfter(r, s, n)
  }

  function Unreported(stages: seq<Stage>): nat {
    if stages == [] then 0 else stages[0].unreported + Unreported(stages[1..])
  }

  /** The steps that processes can still take towards the end of a closed scan. */
  function Unfinished(s: Scan): nat {
    8 * Unreported(s.stages) + 4 * s.calls
    + (match s.lock case Entered => 3 case Decided(_) => 2 case Leaving => 1 case Written => 0 case Free => 0)
  }

  lemma {:induction false} UnreportedFalls(a: seq<Stage>, b: seq<Stage>, i: nat)
    requires |a| == |b| && i < |a| && b[i].unreported <= a[i].unreported
    requires forall k :: 0 <= k < |a| && k != i ==> b[k].unreported == a[k].unreported
    ensures Unreported(b) == Unreported(a) - a[i].unreported + b[i].unreported
    ensures Unreported(a) >= a[i].unreported
  {
    if i == 0 {
      UnreportedSame(a[1..], b[1..]);
    } else {
      UnreportedFalls(a[1..], b[1..], i - 1);
    }
  }

  lemma {:induction false} UnreportedSame(a: seq<Stage>, b: seq<Stage>)
    requires |a| == |b| && forall k :: 0 <= k < |a| ==> b[k].unreported == a[k].unreported
    ensures Unreported(b) == Unreported(a)
  {
    if a != [] {
      UnreportedSame(a[1..], b[1..]);
    }
  }

  /** A closed scan that is active and whose cancellation was not requested. */
  ghost predicate Closing(scan: Scan) {
    ScanInv(scan) && scan.status.Active() && AllTerminal(scan.stages) && !scan.cancelRequested
  }

  lemma ClosingStep(s: Scan, a: Action, now: Time)
    requires Closing(s) && OnOneScan(a) && ScanEnabled(s, a) && Closing(StepScan(s, a, now))
    ensures Unfinished(StepScan(s, a, now)) <= Unfinished(s)
    ensures NextOfFinaliser(a.scan, s) == Some(a) ==> Unfinished(StepScan(s, a, now)) < Unfinished(s)
  {
    var s' := StepScan(s, a, now);
    match a
    case Finish(_, i, st) => ReportIsLess(s, a, now);
    case CancelPending(_, _) => assert false;
    case Heartbeat(_, i) => UnreportedSame(s.stages, s'.stages);
    case RenewLease(_, i) => UnreportedSame(s.stages, s'.stages);
    case _ =>
  }

  ghost predicate ClosingAt(r: Endless, s: ScanId, m: nat) {
    s in r.states(m).scans && Closing(r.states(m).scans[s])
  }

  ghost function Left(r: Endless, s: ScanId, m: nat): nat {
    if s in r.states(m).scans then Unfinished(r.states(m).scans[s]) else 0
  }

  lemma UnfinishedFalls(r: Endless, s: ScanId, m: nat)
    requires IsRun(r) && ClosingAt(r, s, m) && ClosingAt(r, s, m + 1)
    ensures Left(r, s, m + 1) <= Left(r, s, m)
    ensures FinaliserServedAt(r, s, m) && NextOfFinaliser(s, r.states(m).scans[s]).Some?
            ==> Left(r, s, m + 1) < Left(r, s, m)
  {
    assert StepAt(r, m);
    var db, a := r.states(m), r.actions(m);
    hide Unfinished, IsRun;
    if OnOneScan(a) && a.scan == s {
      OnScan(db, a, s);
      ClosingStep(db.scans[s], a, db.now);
    } else {
      ClosedScanUntouched(db, a, s);
    }
  }

  ghost predicate ActiveAt(r: Endless, s: ScanId, m: nat) {
    s in r.states(m).scans && r.states(m).scans[s].status.Active()
  }

  lemma {:induction false} UnfinishedFallsTo(r: Endless, s: ScanId, n: nat, m: nat)
    requires IsRun(r) && n <= m && forall k: nat :: k >= n ==> ClosingAt(r, s, k)
    ensures Left(r, s, m) <= Left(r, s, n)
    decreases m
  {
    hide IsRun, Unfinished, Left;
    assert ClosingAt(r, s, n) && ClosingAt(r, s, m);
    if n < m {
      assert ClosingAt(r, s, m - 1);
      UnfinishedFallsTo(r, s, n, m - 1);
      UnfinishedFalls(r, s, m - 1);
    }
  }

  lemma NoneIsOrphaned(s: ScanId, scan: Scan)
    requires Closing(scan) && NextOfFinaliser(s, scan).None?
    ensures Orphaned(scan)
  {
    assert !AnyUnswept(scan.stages);
  }

  lemma OrphanedOrLess(r: Endless, s: ScanId, m: nat)
    requires IsRun(r) && ClosingAt(r, s, m) && ClosingAt(r, s, m + 1) && OrphanedAt(r.states(m), s)
    ensures OrphanedAt(r.states(m + 1), s)
            || Left(r, s, m + 1) < Left(r, s, m)
  {
    assert StepAt(r, m);
    InvAt(r, m);
    var db, a := r.states(m), r.actions(m);
    if Revives(a, s) {
      OnScan(db, a, s);
      ReportIsLess(db.scans[s], a, db.now);
    } else {
      hide Unfinished, Inv, Apply, Enabled;
      OrphanedStep(db, a, s);
    }
  }

  lemma ReportIsLess(s: Scan, a: Action, now: Time)
    requires Closing(s) && (a.CancelScan? || a.Finish?) && ScanEnabled(s, a)
    requires Closing(StepScan(s, a, now))
    ensures Unfinished(StepScan(s, a, now)) < Unfinished(s)
  {
    var s' := StepScan(s, a, now);
    assert a.Finish?;
    assert forall k :: 0 <= k < |s.stages| && k != a.position ==> s'.stages[k] == s.stages[k];
    UnreportedFalls(s.stages, s'.stages, a.position);
  }

  lemma {:induction false} StaysOrphaned(r: Endless, s: ScanId, n: nat, m: nat, k: nat)
    requires IsRun(r) && n <= m <= k && forall j: nat :: j >= n ==> ClosingAt(r, s, j)
    requires forall j: nat :: j >= n ==> Left(r, s, j) >= Left(r, s, n)
    requires OrphanedAt(r.states(m), s)
    ensures OrphanedAt(r.states(k), s)
    decreases k
  {
    hide IsRun, Left, OrphanedAt, Closing;
    if m < k {
      StaysOrphaned(r, s, n, m, k - 1);
      assert ClosingAt(r, s, k - 1) && ClosingAt(r, s, k);
      UnfinishedFallsTo(r, s, n, k - 1);
      OrphanedOrLess(r, s, k - 1);
    }
  }

  /** A scan that stays active although everything is closed comes to rest with nobody left to finalise it. */
  lemma {:induction false} ClosingRests(r: Endless, s: ScanId, n: nat) returns (rest: nat)
    requires IsRun(r) && FinalisingGoesOn(r, s) && forall k: nat :: k >= n ==> ClosingAt(r, s, k)
    ensures rest >= n && forall k: nat :: k >= rest ==> OrphanedAt(r.states(k), s)
    decreases Left(r, s, n)
  {
    hide IsRun, Closing, Left, OrphanedAt;
    assert ClosingAt(r, s, n);
    if m: nat :| m >= n && Left(r, s, m) < Left(r, s, n) {
      rest := ClosingRests(r, s, m);
    } else {
      rest := NobodyIsLeft(r, s, n);
      forall k: nat | k >= rest
        ensures OrphanedAt(r.states(k), s)
      {
        assert ClosingAt(r, s, k);
        StaysOrphaned(r, s, n, rest, k);
      }
    }
  }

  lemma NobodyIsLeft(r: Endless, s: ScanId, n: nat) returns (m: nat)
    requires IsRun(r) && FinalisingGoesOn(r, s) && forall j: nat :: j >= n ==> ClosingAt(r, s, j)
    requires forall j: nat :: j >= n ==> Left(r, s, j) >= Left(r, s, n)
    ensures m >= n && OrphanedAt(r.states(m), s)
  {
    hide IsRun, Left, Orphaned;
    assert FinaliserServedAfter(r, s, n);
    m :| m >= n && FinaliserServedAt(r, s, m);
    assert ClosingAt(r, s, m) && ClosingAt(r, s, m + 1);
    UnfinishedFalls(r, s, m);
    UnfinishedFallsTo(r, s, n, m);
    NoneIsOrphaned(s, r.states(m).scans[s]);
  }

  ghost predicate Fair(r: Endless, s: ScanId) {
    ClaimingGoesOn(r, s) && RecoveryGoesOn(r) && TimeGoesOn(r) && FinalisingGoesOn(r, s)
  }

  /** Where finalising goes on too, the scan is over for good in the end, or it is orphaned for good. */
  lemma FairRunsFinish(r: Endless, s: ScanId, start: nat, bound: nat) returns (end: nat)
    requires IsRun(r) && s in r.states(start).scans && NeverCancelled(r, s) && FewLateRequeues(r, s, start, bound)
    requires Fair(r, s)
    ensures end >= start
    ensures (forall m: nat :: m >= end ==> s in r.states(m).scans && !r.states(m).scans[s].status.Active())
            || (forall m: nat :: m >= end ==> OrphanedAt(r.states(m), s))
  {
    var closed := FairRunsEnd(r, s, start, bound);
    hide IsRun, AllTerminal, ClaimingGoesOn, RecoveryGoesOn, TimeGoesOn, FinalisingGoesOn;
    if n: nat :| n >= closed && !r.states(n).scans[s].status.Active() {
      end := n;
      forall m: nat | m >= end
        ensures s in r.states(m).scans && !r.states(m).scans[s].status.Active()
      {
        EvolvesAt(r, n, m);
        assert ScanEvolves(r.states(n).scans[s], r.states(m).scans[s]);
      }
    } else {
      forall k: nat | k >= closed
        ensures ClosingAt(r, s, k)
      {
        InvAt(r, k);
      }
      end := ClosingRests(r, s, closed);
    }
  }

  ghost predicate NoneLostAt(r: Endless, s: ScanId, m: nat) {
    !LosesFinaliserOf(r.states(m), r.actions(m), s)
  }

  lemma {:induction false} NotOrphanedAt(r: Endless, s: ScanId, m: nat)
    requires IsRun(r) && forall k: nat :: NoneLostAt(r, s, k)
    ensures !OrphanedAt(r.states(m), s)
  {
    if m > 0 {
      NotOrphanedAt(r, s, m - 1);
      InvAt(r, m - 1);
      assert StepAt(r, m - 1) && NoneLostAt(r, s, m - 1);
      hide IsRun, Inv, Apply, Enabled, LosesFinaliserOf;
      OrphanedExactlyBy(r.states(m - 1), r.actions(m - 1), s);
    }
  }

  /** So with one clock reading per recovery pass, and as long as no last call is refused too early and no last
      finaliser dies with the lock, the scan is over for good in the end. */
  lemma FairOneClockRunsFinish(r: Endless, s: ScanId, start: nat) returns (end: nat)
    requires IsRun(r) && s in r.states(start).scans && NeverCancelled(r, s) && Fair(r, s)
    requires forall m: nat :: OneClockAt(r, m)
    requires forall m: nat :: NoneLostAt(r, s, m)
    ensures end >= start
    ensures forall m: nat :: m >= end ==> s in r.states(m).scans && !r.states(m).scans[s].status.Active()
  {
    forall k: nat
      ensures LateFrom(r, s, start, k) <= 0
    {
      OneClockHasNoLate(r, s, start, k);
    }
    hide IsRun, Fair, NeverCancelled;
    end := FairRunsFinish(r, s, start, 0);
    NotOrphanedAt(r, s, end);
  }

  // ----- such runs exist -----

  function FinaliserStep(scan: Scan): Action {
    var next := NextOfFinaliser(0, scan);
    if next.Some? then next.value else if scan.lock.Written? then FinishReport(0, false) else Tick(0)
  }

  ghost function Wanted(plan: seq<PlanStage>, owner: Owner, n: nat, db: Db): Action {
    if n == 0 then Enqueue(0, 0, plan)
    else if n % 4 == 1 then Tick(1)
    else if n % 4 == 2 then CloseOverdueStages
    else if n % 4 == 0 && 0 in db.scans then FinaliserStep(db.scans[0])
    else if i: nat :| 0 in db.scans && Claimable(db.scans[0], i) then Claim(0, i, owner)
    else Tick(0)
  }

  /** One scan, and a runner that claims every stage and never reports: the clock ticks, recovery closes what
      is overdue, the runner claims, a step of finalising is taken, and so on. */
  ghost function Turn(plan: seq<PlanStage>, owner: Owner, n: nat, db: Db): (a: Action)
    ensures Enabled(db, a)
  {
    if Enabled(db, Wanted(plan, owner, n, db)) then Wanted(plan, owner, n, db) else Tick(0)
  }

  ghost function TurnsTaken(plan: seq<PlanStage>, owner: Owner, n: nat): Db {
    if n == 0 then EMPTY
    else Apply(TurnsTaken(plan, owner, n - 1), Turn(plan, owner, n - 1, TurnsTaken(plan, owner, n - 1)))
  }

  ghost function Patient(plan: seq<PlanStage>, owner: Owner): Endless {
    Endless((n: nat) => TurnsTaken(plan, owner, n), (n: nat) => Turn(plan, owner, n, TurnsTaken(plan, owner, n)))
  }

  /** The steps such a run is made of. */
  predicate PatientStep(a: Action) {
    a.Tick? || a.CloseOverdueStages? || ((a.Claim? || Finalises(a)) && a.scan == 0)
  }

  lemma TurnIs(plan: seq<PlanStage>, owner: Owner, n: nat, db: Db)
    requires n > 0 && 0 in db.scans
    ensures var a := Turn(plan, owner, n, db);
            && PatientStep(a) && (Finalises(a) ==> a == FinaliserStep(db.scans[0]))
            && (n % 4 == 1 ==> a == Tick(1)) && (n % 4 == 2 ==> a == CloseOverdueStages)
            && (n % 4 == 3 ==> forall i: nat :: Claimable(db.scans[0], i) ==> a.Claim? && a.position == i)
            && (n % 4 == 0 ==> a == FinaliserStep(db.scans[0]))
  {
    if i: nat :| n % 4 == 3 && Claimable(db.scans[0], i) {
      var a := Wanted(plan, owner, n, db);
      assert a.Claim? && Claimable(db.scans[0], a.position);
      assert Enabled(db, a);
    }
  }

  lemma TurnKeeps(db: Db, a: Action)
    requires 0 in db.scans && Enabled(db, a) && PatientStep(a)
    ensures 0 in Apply(db, a).scans
    ensures Apply(db, a).scans[0].cancelRequested == db.scans[0].cancelRequested
    ensures Apply(db, a).now == db.now + (if a.Tick? then a.elapsed else 0)
  {
  }

  lemma FirstTurn(plan: seq<PlanStage>, owner: Owner)
    requires ValidPlan(plan)
    ensures Turn(plan, owner, 0, EMPTY) == Enqueue(0, 0, plan)
    ensures 0 in TurnsTaken(plan, owner, 1).scans && !TurnsTaken(plan, owner, 1).scans[0].cancelRequested
    ensures TurnsTaken(plan, owner, 1).now == 0
  {
    assert TurnsTaken(plan, owner, 0) == EMPTY;
  }

  lemma {:induction false} PatientState(plan: seq<PlanStage>, owner: Owner, n: nat)
    requires ValidPlan(plan) && n > 0
    ensures 0 in TurnsTaken(plan, owner, n).scans && !TurnsTaken(plan, owner, n).scans[0].cancelRequested
    ensures TurnsTaken(plan, owner, n).now >= (n + 2) / 4
  {
    hide Turn, Wanted, Apply, Enabled, ValidPlan;
    if n == 1 {
      FirstTurn(plan, owner);
    } else {
      PatientState(plan, owner, n - 1);
      var before := TurnsTaken(plan, owner, n - 1);
      TurnIs(plan, owner, n - 1, before);
      TurnKeeps(before, Turn(plan, owner, n - 1, before));
    }
  }

  lemma PatientServes(plan: seq<PlanStage>, owner: Owner, n: nat)
    requires ValidPlan(plan)
    ensures forall i: nat :: ServedAfter(Patient(plan, owner), 0, i, n)
    ensures RecoversAfter(Patient(plan, owner), n)
    ensures FinaliserServedAfter(Patient(plan, owner), 0, n)
  {
    hide TurnsTaken, Turn, Wanted, NoneOverdue, Claimable, NextOfFinaliser;
    var r := Patient(plan, owner);
    PatientState(plan, owner, 4 * n + 3);
    TurnIs(plan, owner, 4 * n + 3, r.states(4 * n + 3));
    forall i: nat
      ensures ServedAfter(r, 0, i, n)
    {
      assert ServedAt(r, 0, i, 4 * n + 3);
    }
    PatientState(plan, owner, 4 * n + 2);
    TurnIs(plan, owner, 4 * n + 2, r.states(4 * n + 2));
    assert RecoversAt(r, 4 * n + 2);
    PatientState(plan, owner, 4 * n + 4);
    TurnIs(plan, owner, 4 * n + 4, r.states(4 * n + 4));
    assert FinaliserServedAt(r, 0, 4 * n + 4);
  }

  lemma PatientLosesNobody(plan: seq<PlanStage>, owner: Owner, n: nat)
    requires ValidPlan(plan)
    ensures OneClockAt(Patient(plan, owner), n) && NoneLostAt(Patient(plan, owner), 0, n)
  {
    hide TurnsTaken, Turn, Wanted, NoneOverdue, Claimable;
    var r := Patient(plan, owner);
    if n == 0 {
      FirstTurn(plan, owner);
      assert r.actions(0) == Turn(plan, owner, 0, EMPTY) by { NoTurns(plan, owner); }
    } else {
      PatientState(plan, owner, n);
      TurnIs(plan, owner, n, r.states(n));
    }
  }

  lemma NoTurns(plan: seq<PlanStage>, owner: Owner)
    ensures TurnsTaken(plan, owner, 0) == EMPTY
  {
  }

  lemma PatientRuns(plan: seq<PlanStage>, owner: Owner)
    ensures IsRun(Patient(plan, owner))
  {
    hide Turn, Wanted, Apply;
    forall n: nat
      ensures StepAt(Patient(plan, owner), n)
    {
    }
  }

  lemma PatientClock(plan: seq<PlanStage>, owner: Owner)
    requires ValidPlan(plan)
    ensures TimeGoesOn(Patient(plan, owner)) && NeverCancelled(Patient(plan, owner), 0)
  {
    hide TurnsTaken, Turn, Wanted, ValidPlan;
    var r := Patient(plan, owner);
    forall t: Time
      ensures Reaches(r, t)
    {
      var n: nat := if t < 0 then 1 else 4 * t + 1;
      PatientState(plan, owner, n);
      assert r.states(n).now >= t;
    }
    forall n: nat
      ensures 0 in r.states(n).scans ==> !r.states(n).scans[0].cancelRequested
    {
      if n > 0 {
        PatientState(plan, owner, n);
      } else {
        NoTurns(plan, owner);
      }
    }
  }

  /** The conditions of the theorems above can be met together: for every plan there is such a run, and so
      one in which the scan is over in the end. */
  lemma FairRunExists(plan: seq<PlanStage>, owner: Owner) returns (r: Endless, end: nat)
    requires ValidPlan(plan)
    ensures IsRun(r) && r.actions(0) == Enqueue(0, 0, plan) && 0 in r.states(1).scans
    ensures NeverCancelled(r, 0) && Fair(r, 0)
    ensures forall m: nat :: OneClockAt(r, m)
    ensures forall m: nat :: NoneLostAt(r, 0, m)
    ensures forall m: nat :: m >= end ==> 0 in r.states(m).scans && !r.states(m).scans[0].status.Active()
  {
    r := Patient(plan, owner);
    PatientRuns(plan, owner);
    NoTurns(plan, owner);
    FirstTurn(plan, owner);
    assert r.actions(0) == Enqueue(0, 0, plan) && 0 in r.states(1).scans;
    PatientIsFair(plan, owner);
    hide Patient, TurnsTaken, Turn, IsRun, NeverCancelled, Fair;
    end := FairOneClockRunsFinish(r, 0, 1);
  }

  lemma PatientIsFair(plan: seq<PlanStage>, owner: Owner)
    requires ValidPlan(plan)
    ensures NeverCancelled(Patient(plan, owner), 0) && Fair(Patient(plan, owner), 0)
    ensures forall m: nat :: OneClockAt(Patient(plan, owner), m)
    ensures forall m: nat :: NoneLostAt(Patient(plan, owner), 0, m)
  {
    var r := Patient(plan, owner);
    hide Patient, TurnsTaken, Turn, Wanted, ValidPlan, TimeGoesOn;
    hide ServedAfter, RecoversAfter, FinaliserServedAfter, OneClockAt, NoneLostAt;
    forall n: nat
      ensures OneClockAt(r, n) && NoneLostAt(r, 0, n)
    {
      PatientLosesNobody(plan, owner, n);
    }
    forall n: nat
      ensures RecoversAfter(r, n) && FinaliserServedAfter(r, 0, n)
    {
      PatientServes(plan, owner, n);
    }
    forall n: nat, i: nat
      ensures ServedAfter(r, 0, i, n)
    {
      PatientServes(plan, owner, n);
    }
    PatientClock(plan, owner);
  }
}
