/** Runs of the stage queue that show its gaps are real. */
module StageQueueWitness {
  import opened Common
  import opened StageQueue
  import opened StageQueueSafety
  import opened StageQueueProgress

  /** A run and one more step. */
  lemma {:induction false} Extend(db: Db, actions: seq<Action>, a: Action)
    requires Legal(db, actions) && Enabled(After(db, actions), a)
    ensures Legal(db, actions + [a]) && After(db, actions + [a]) == Apply(After(db, actions), a)
    ensures OneClock(db, actions + [a]) <==>
            OneClock(db, actions) && (a.RequeueExpiredStages? ==> NoneOverdue(After(db, actions)))
    ensures forall s, i :: LateRequeues(db, actions + [a], s, i)
                           == LateRequeues(db, actions, s, i)
                              + (if LateRequeue(After(db, actions), a, s, i) then 1 else 0)
    decreases |actions|
  {
    if actions == [] {
      assert [] + [a] == [a] && [a][1..] == [];
    } else {
      assert (actions + [a])[0] == actions[0] && (actions + [a])[1..] == actions[1..] + [a];
      Extend(Apply(db, actions[0]), actions[1..], a);
    }
  }

  lemma {:induction false} ExtendMovements(db: Db, actions: seq<Action>, a: Action, s: ScanId)
    requires Inv(db) && s in db.scans && Legal(db, actions) && Enabled(After(db, actions), a)
    ensures Legal(db, actions + [a])
    ensures s in After(db, actions).scans && s in Apply(After(db, actions), a).scans
    ensures |After(db, actions).scans[s].stages| == |Apply(After(db, actions), a).scans[s].stages|
    ensures Movements(db, actions + [a], s)
            == Movements(db, actions, s)
               + (if Moves(After(db, actions).scans[s], Apply(After(db, actions), a).scans[s]) then 1 else 0)
    decreases |actions|
  {
    hide Inv, Apply, Enabled, Moves, OneClock, LateRequeues;
    Extend(db, actions, a);
    if actions == [] {
      assert [] + [a] == [a] && [a][1..] == [];
      StepKeeps(db, a);
      assert ScanEvolves(db.scans[s], Apply(db, a).scans[s]);
    } else {
      assert (actions + [a])[0] == actions[0] && (actions + [a])[1..] == actions[1..] + [a];
      StepKeeps(db, actions[0]);
      assert ScanEvolves(db.scans[s], Apply(db, actions[0]).scans[s]);
      ExtendMovements(Apply(db, actions[0]), actions[1..], a, s);
    }
  }

  lemma {:induction false} ExtendLate(db: Db, actions: seq<Action>, a: Action, s: ScanId)
    requires Legal(db, actions) && Enabled(After(db, actions), a)
    ensures Legal(db, actions + [a])
    ensures ScanLateRequeues(db, actions + [a], s)
            == ScanLateRequeues(db, actions, s)
               + (if s in After(db, actions).scans then Total(LateFlags(After(db, actions), a, s)) else 0)
    decreases |actions|
  {
    Extend(db, actions, a);
    hide Apply, Enabled, LateFlags, Total;
    if actions == [] {
      assert [] + [a] == [a] && [a][1..] == [];
    } else {
      assert (actions + [a])[0] == actions[0] && (actions + [a])[1..] == actions[1..] + [a];
      ExtendLate(Apply(db, actions[0]), actions[1..], a, s);
    }
  }

  // ----- one stage on its own -----

  const RUNNER: Owner := "runner"

  function Single(now: Time, scan: Scan): Db {
    Db(now, map[0 := scan])
  }

  lemma SingleIs(db: Db, now: Time, scan: Scan)
    requires db.scans.Keys == {0} && db.now == now && db.scans[0] == scan
    ensures db == Single(now, scan)
  {
    assert db.scans == Single(now, scan).scans;
  }

  function OneStage(status: ScanStatus, cancelRequested: bool, r: Stage): Scan {
    Scan(0, status, cancelRequested, [r], 0, Free)
  }

  function OneStageDb(now: Time, status: ScanStatus, cancelRequested: bool, r: Stage): Db {
    Single(now, OneStage(status, cancelRequested, r))
  }

  lemma OneStageEnqueue(p: PlanStage)
    requires 1 <= p.timeout <= 86400
    ensures Enabled(EMPTY, Enqueue(0, 0, [p]))
    ensures Apply(EMPTY, Enqueue(0, 0, [p])) == OneStageDb(0, ScanStatus.Queued, false, NewStage(p, 0))
  {
    assert NewScan(0, [p], 0).stages == [NewStage(p, 0)];
    SingleIs(Apply(EMPTY, Enqueue(0, 0, [p])), 0, OneStage(ScanStatus.Queued, false, NewStage(p, 0)));
  }

  lemma OneStageTick(now: Time, status: ScanStatus, c: bool, r: Stage, elapsed: nat)
    ensures Apply(OneStageDb(now, status, c, r), Tick(elapsed)) == OneStageDb(now + elapsed, status, c, r)
  {
  }

  lemma OneStageCloses(now: Time, status: ScanStatus, c: bool, r: Stage)
    requires !Overdue(r, now)
    ensures Apply(OneStageDb(now, status, c, r), CloseOverdueStages) == OneStageDb(now, status, c, r)
  {
    NothingTimesOut(OneStage(status, c, r), now);
    SingleIs(Apply(OneStageDb(now, status, c, r), CloseOverdueStages), now, OneStage(status, c, r));
  }

  lemma NothingTimesOut(s: Scan, now: Time)
    requires forall i :: 0 <= i < |s.stages| ==> !Overdue(s.stages[i], now)
    ensures TimedOutScan(s, now) == s
  {
    assert CloseOverdue(s.stages, now) == s.stages;
    assert (set i | 0 <= i < |s.stages| && Overdue(s.stages[i], now)) == {};
  }

  lemma OneStageRequeues(now: Time, status: ScanStatus, c: bool, r: Stage)
    ensures Apply(OneStageDb(now, status, c, r), RequeueExpiredStages)
            == OneStageDb(now, status, c, if Expired(r, now) then Requeued(r) else r)
  {
    var r' := if Expired(r, now) then Requeued(r) else r;
    var after := Apply(OneStageDb(now, status, c, r), RequeueExpiredStages);
    assert after.scans[0].stages == [r'];
    SingleIs(after, now, OneStage(status, c, r'));
  }

  lemma OneStageClaims(now: Time, status: ScanStatus, r: Stage)
    requires r.status.Queued?
    ensures Enabled(OneStageDb(now, status, false, r), Claim(0, 0, RUNNER))
    ensures Apply(OneStageDb(now, status, false, r), Claim(0, 0, RUNNER))
            == OneStageDb(now, ScanStatus.Running, false, Claimed(r, RUNNER, now))
  {
    var after := Apply(OneStageDb(now, status, false, r), Claim(0, 0, RUNNER));
    assert after.scans[0].stages == [Claimed(r, RUNNER, now)];
    SingleIs(after, now, OneStage(ScanStatus.Running, false, Claimed(r, RUNNER, now)));
  }

  lemma OneStageFinishes(now: Time, scan: Scan, r: Stage, st: StageStatus)
    requires scan.stages == [r] && r.unreported >= 1 && RunnerStatus(st) && !st.Cancelled?
    ensures Enabled(Single(now, scan), Finish(0, 0, st))
    ensures Apply(Single(now, scan), Finish(0, 0, st))
            == Single(now, scan.(stages := [Reported(r, st)], calls := scan.calls + 1))
  {
    var after := Apply(Single(now, scan), Finish(0, 0, st));
    assert after.scans[0].stages == [Reported(r, st)];
    SingleIs(after, now, scan.(stages := [Reported(r, st)], calls := scan.calls + 1));
  }

  lemma OneStageCancels(now: Time, r: Stage)
    requires r.status.Running?
    ensures Enabled(OneStageDb(now, ScanStatus.Running, false, r), CancelScan(0))
    ensures Apply(OneStageDb(now, ScanStatus.Running, false, r), CancelScan(0))
            == OneStageDb(now, ScanStatus.Running, true, r)
  {
    var after := Apply(OneStageDb(now, ScanStatus.Running, false, r), CancelScan(0));
    assert AnyRunning([r]) by {
      assert [r][0].status.Running?;
    }
    SingleIs(after, now, OneStage(ScanStatus.Running, true, r));
  }

  // ----- a stage whose runners die -----

  const ROUND: nat := 120_000_001

  /** The waiting row after `n` claims, the first at `start`, each followed by a re-queue one lease and one
      tick later. */
  function WaitingSince(p: PlanStage, n: nat, start: Time): Stage {
    Stage(p.adapter, p.required, p.timeout, 0, StageStatus.Queued, n, None, None,
          if n == 0 then None else Some(start), Coverage(p.required, Planned, None), n, 0)
  }

  function ClaimedSince(p: PlanStage, n: nat, start: Time): Stage {
    Claimed(WaitingSince(p, n, start), RUNNER, start + n * ROUND)
  }

  function Waiting(p: PlanStage, n: nat): Stage {
    WaitingSince(p, n, 0)
  }

  function ClaimedRow(p: PlanStage, n: nat): Stage {
    ClaimedSince(p, n, 0)
  }

  lemma LoneStage(p: PlanStage)
    requires 1 <= p.timeout <= 86400
    ensures Enabled(EMPTY, Enqueue(0, 0, [p]))
    ensures Apply(EMPTY, Enqueue(0, 0, [p])) == OneStageDb(0, ScanStatus.Queued, false, Waiting(p, 0))
  {
    OneStageEnqueue(p);
  }

  // ----- a cancelled scan whose runner died -----

  lemma ReadyToStick(p: PlanStage)
    requires 120 < p.timeout <= 86400
    ensures var claimed, later := OneStageDb(0, ScanStatus.Running, false, ClaimedRow(p, 0)),
                                  OneStageDb(ROUND, ScanStatus.Running, true, ClaimedRow(p, 0));
            && Apply(OneStageDb(0, ScanStatus.Queued, false, Waiting(p, 0)), Claim(0, 0, RUNNER)) == claimed
            && Enabled(claimed, CancelScan(0))
            && Apply(Apply(claimed, CancelScan(0)), Tick(ROUND)) == later
            && Apply(later, CloseOverdueStages) == later && NoneOverdue(later)
            && Apply(later, RequeueExpiredStages) == OneStageDb(ROUND, ScanStatus.Running, true, Waiting(p, 1))
  {
    OneStageClaims(0, ScanStatus.Queued, Waiting(p, 0));
    OneStageCancels(0, ClaimedRow(p, 0));
    OneStageTick(0, ScanStatus.Running, true, ClaimedRow(p, 0), ROUND);
    assert !Overdue(ClaimedRow(p, 0), ROUND);
    OneStageCloses(ROUND, ScanStatus.Running, true, ClaimedRow(p, 0));
    OneStageRequeues(ROUND, ScanStatus.Running, true, ClaimedRow(p, 0));
  }

  /** The runner of a stage dies, the operator cancels while the row still says running, recovery re-queues
      the stage: the scan is then active, and stays so in every continuation in which nobody acts on it. */
  lemma CancelledScanGetsStuck(p: PlanStage) returns (actions: seq<Action>)
    requires 120 < p.timeout <= 86400
    ensures Legal(EMPTY, actions) && OneClock(EMPTY, actions)
    ensures After(EMPTY, actions) == OneStageDb(ROUND, ScanStatus.Running, true, Waiting(p, 1))
    ensures forall later :: Legal(After(EMPTY, actions), later) && NobodyActs(later, 0)
                            ==> 0 in After(After(EMPTY, actions), later).scans
                                && !AllTerminal(After(After(EMPTY, actions), later).scans[0].stages)
  {
    actions := StuckRun(p);
    RunKeeps(EMPTY, actions);
    var end := OneStageDb(ROUND, ScanStatus.Running, true, Waiting(p, 1));
    assert end.scans[0].stages == [Waiting(p, 1)] && end.scans[0].stages[0].status.Queued?;
    forall later | Legal(end, later) && NobodyActs(later, 0)
      ensures 0 in After(end, later).scans && !AllTerminal(After(end, later).scans[0].stages)
    {
      CancelRequestedScanIsStuck(end, later, 0);
      assert Frozen(end.scans[0].stages[0], After(end, later).scans[0].stages[0]);
    }
  }

  lemma StuckRun(p: PlanStage) returns (actions: seq<Action>)
    requires 120 < p.timeout <= 86400
    ensures Legal(EMPTY, actions) && OneClock(EMPTY, actions)
    ensures After(EMPTY, actions) == OneStageDb(ROUND, ScanStatus.Running, true, Waiting(p, 1))
  {
    LoneStage(p);
    ReadyToStick(p);
    var enqueue, claim := Enqueue(0, 0, [p]), Claim(0, 0, RUNNER);
    hide Apply, NoneOverdue, LateRequeue, Inv;
    Extend(EMPTY, [], enqueue);
    actions := [] + [enqueue];
    Extend(EMPTY, actions, claim);
    actions := actions + [claim];
    Extend(EMPTY, actions, CancelScan(0));
    actions := actions + [CancelScan(0)];
    Extend(EMPTY, actions, Tick(ROUND));
    actions := actions + [Tick(ROUND)];
    Extend(EMPTY, actions, CloseOverdueStages);
    actions := actions + [CloseOverdueStages];
    Extend(EMPTY, actions, RequeueExpiredStages);
    actions := actions + [RequeueExpiredStages];
  }

  // ----- an overdue preflight -----

  /** For every plan that begins with a scope preflight: if its runner dies, recovery times it out, and the
      next stage is claimed all the same. */
  lemma OverduePreflightIsPassed(plan: seq<PlanStage>) returns (actions: seq<Action>)
    requires ValidPlan(plan) && |plan| >= 2 && plan[0].adapter == SCOPE_PREFLIGHT
    ensures Legal(EMPTY, actions) && HasStage(After(EMPTY, actions), 0, 0) && HasStage(After(EMPTY, actions), 0, 1)
    ensures After(EMPTY, actions).scans[0].stages[0].adapter == SCOPE_PREFLIGHT
    ensures After(EMPTY, actions).scans[0].stages[0].status.TimedOut?
    ensures After(EMPTY, actions).scans[0].stages[1].status.Running?
  {
    var enqueue, claim, wait := Enqueue(0, 0, plan), Claim(0, 0, RUNNER), Tick(plan[0].timeout * SECOND);
    var db1, db2, db3, db4 := OverdueIsClosed(plan);
    hide Apply;
    Extend(EMPTY, [], enqueue);
    actions := [] + [enqueue];
    Extend(EMPTY, actions, claim);
    actions := actions + [claim];
    Extend(EMPTY, actions, wait);
    actions := actions + [wait];
    Extend(EMPTY, actions, CloseOverdueStages);
    actions := actions + [CloseOverdueStages];
    ClaimRuns(After(EMPTY, actions), 1);
    Extend(EMPTY, actions, Claim(0, 1, RUNNER));
    actions := actions + [Claim(0, 1, RUNNER)];
  }

  lemma OverdueIsClosed(plan: seq<PlanStage>) returns (db1: Db, db2: Db, db3: Db, db4: Db)
    requires ValidPlan(plan) && |plan| >= 2
    ensures Enabled(EMPTY, Enqueue(0, 0, plan)) && db1 == Apply(EMPTY, Enqueue(0, 0, plan))
    ensures Enabled(db1, Claim(0, 0, RUNNER)) && db2 == Apply(db1, Claim(0, 0, RUNNER))
    ensures db3 == Apply(db2, Tick(plan[0].timeout * SECOND))
    ensures db4 == Apply(db3, CloseOverdueStages)
    ensures HasStage(db4, 0, 1) && db4.scans[0].stages[0].adapter == plan[0].adapter
    ensures db4.scans[0].stages[0].status.TimedOut? && Enabled(db4, Claim(0, 1, RUNNER))
  {
    db1 := Apply(EMPTY, Enqueue(0, 0, plan));
    assert db1.scans[0].stages[0] == NewStage(plan[0], 0) && db1.scans[0].stages[1] == NewStage(plan[1], 0);
    db2 := Apply(db1, Claim(0, 0, RUNNER));
    assert db2.scans[0].stages[0] == Claimed(NewStage(plan[0], 0), RUNNER, 0);
    db3 := Apply(db2, Tick(plan[0].timeout * SECOND));
    db4 := Apply(db3, CloseOverdueStages);
    FirstOfTwoCloses(db3);
  }

  lemma FirstOfTwoCloses(db: Db)
    requires HasStage(db, 0, 1) && !db.scans[0].cancelRequested && Overdue(db.scans[0].stages[0], db.now)
    requires db.scans[0].stages[1].status.Queued?
    ensures var after := Apply(db, CloseOverdueStages);
            && HasStage(after, 0, 1) && after.scans[0].stages[0].adapter == db.scans[0].stages[0].adapter
            && after.scans[0].stages[0].status.TimedOut? && Enabled(after, Claim(0, 1, RUNNER))
  {
  }

  lemma ClaimRuns(db: Db, i: nat)
    requires Enabled(db, Claim(0, i, RUNNER))
    ensures HasStage(Apply(db, Claim(0, i, RUNNER)), 0, i)
    ensures |Apply(db, Claim(0, i, RUNNER)).scans[0].stages| == |db.scans[0].stages|
    ensures Apply(db, Claim(0, i, RUNNER)).scans[0].stages[i].status.Running?
    ensures forall j :: 0 <= j < |db.scans[0].stages| && j != i ==>
              Apply(db, Claim(0, i, RUNNER)).scans[0].stages[j] == db.scans[0].stages[j]
  {
  }
}
