/** The bounds on claims and moves are exact: for every plan some run reaches all of them. */
module StageQueueBounds {
  import opened StageQueue
  import opened StageQueueSafety
  import opened StageQueueProgress
  import opened StageQueueWitness

  /** Re-queues that fit before the deadline. */
  function Timely(p: PlanStage): nat
    requires p.timeout >= 1
  {
    (p.timeout - 1) / 120
  }

  function LateRounds(p: PlanStage, n: nat): nat
    requires p.timeout >= 1
  {
    if n <= Timely(p) then 0 else n - Timely(p)
  }

  lemma DeadlineOfRound(p: PlanStage, n: nat)
    requires 1 <= p.timeout <= 86400 && n > 0
    ensures p.timeout * SECOND <= n * ROUND <==> n > Timely(p)
  {
    var q := Timely(p);
    assert 120 * q < p.timeout <= 120 * (q + 1);
    if n <= q {
      assert n * ROUND == n * 120_000_000 + n <= (p.timeout - 1) * SECOND + n;
    } else {
      assert n * ROUND >= (q + 1) * 120_000_000;
    }
  }

  /** What stands around the stage at work: closed stages before it, untouched ones behind it. */
  datatype Around = Around(before: seq<Stage>, behind: seq<Stage>, status: ScanStatus, calls: nat)

  ghost predicate Settled(c: Around) {
    && (forall i :: 0 <= i < |c.before| ==> c.before[i].status.Terminal())
    && (forall i :: 0 <= i < |c.behind| ==> c.behind[i].status.Queued?)
  }

  function Rows(c: Around, r: Stage): (rows: seq<Stage>)
    ensures |rows| == |c.before| + 1 + |c.behind| && rows[|c.before|] == r
    ensures forall i :: 0 <= i < |rows| && i != |c.before| ==>
              rows[i] == if i < |c.before| then c.before[i] else c.behind[i - |c.before| - 1]
  {
    c.before + [r] + c.behind
  }

  function ScanOf(c: Around, r: Stage): Scan {
    Scan(0, c.status, false, Rows(c, r), c.calls, Free)
  }

  function DbOf(c: Around, now: Time, r: Stage): Db {
    Single(now, ScanOf(c, r))
  }

  lemma AroundClaim(c: Around, now: Time, r: Stage)
    requires Settled(c) && r.status.Queued?
    ensures Enabled(DbOf(c, now, r), Claim(0, |c.before|, RUNNER))
    ensures Apply(DbOf(c, now, r), Claim(0, |c.before|, RUNNER))
            == DbOf(c.(status := ScanStatus.Running), now, Claimed(r, RUNNER, now))
  {
    var after := Apply(DbOf(c, now, r), Claim(0, |c.before|, RUNNER));
    assert after.scans[0].stages == Rows(c, Claimed(r, RUNNER, now));
    SingleIs(after, now, ScanOf(c.(status := ScanStatus.Running), Claimed(r, RUNNER, now)));
  }

  lemma AroundTick(c: Around, now: Time, r: Stage, elapsed: nat)
    ensures Apply(DbOf(c, now, r), Tick(elapsed)) == DbOf(c, now + elapsed, r)
  {
  }

  lemma AroundIdle(c: Around, now: Time, r: Stage)
    requires Settled(c)
    ensures NoneOverdue(DbOf(c, now, r)) <==> !Overdue(r, now)
    ensures !Overdue(r, now) ==> Apply(DbOf(c, now, r), CloseOverdueStages) == DbOf(c, now, r)
  {
    var db := DbOf(c, now, r);
    assert db.scans[0].stages[|c.before|] == r;
    if !Overdue(r, now) {
      NothingTimesOut(ScanOf(c, r), now);
      SingleIs(Apply(db, CloseOverdueStages), now, ScanOf(c, r));
    }
  }

  lemma AroundRequeue(c: Around, now: Time, r: Stage)
    requires Settled(c) && Expired(r, now)
    ensures Apply(DbOf(c, now, r), RequeueExpiredStages) == DbOf(c, now, Requeued(r))
    ensures LateRequeue(DbOf(c, now, r), RequeueExpiredStages, 0, |c.before|) <==> Overdue(r, now)
    ensures forall j: nat :: j != |c.before| ==> !LateRequeue(DbOf(c, now, r), RequeueExpiredStages, 0, j)
  {
    var after := Apply(DbOf(c, now, r), RequeueExpiredStages);
    assert after.scans[0].stages == Rows(c, Requeued(r));
    SingleIs(after, now, ScanOf(c, Requeued(r)));
  }

  lemma AroundFinish(c: Around, now: Time, r: Stage)
    requires r.unreported >= 1
    ensures Enabled(DbOf(c, now, r), Finish(0, |c.before|, StageStatus.Succeeded))
    ensures Apply(DbOf(c, now, r), Finish(0, |c.before|, StageStatus.Succeeded))
            == DbOf(c.(calls := c.calls + 1), now, Reported(r, StageStatus.Succeeded))
  {
    var after := Apply(DbOf(c, now, r), Finish(0, |c.before|, StageStatus.Succeeded));
    assert after.scans[0].stages == Rows(c, Reported(r, StageStatus.Succeeded));
    SingleIs(after, now, ScanOf(c.(calls := c.calls + 1), Reported(r, StageStatus.Succeeded)));
  }

  lemma AroundMoves(c: Around, c': Around, now: Time, later: Time, r: Stage, r': Stage)
    requires c'.before == c.before && c'.behind == c.behind
    ensures |DbOf(c, now, r).scans[0].stages| == |DbOf(c', later, r').scans[0].stages|
    ensures Moves(DbOf(c, now, r).scans[0], DbOf(c', later, r').scans[0]) <==> Moved(r, r')
  {
    var a, b := Rows(c, r), Rows(c', r');
    if Moved(r, r') {
      assert Moved(a[|c.before|], b[|c.before|]);
    }
  }

  /** A run that works on stage `i` of scan 0, with its late re-queues and moves. */
  ghost predicate RunTo(start: Db, actions: seq<Action>, db: Db, i: nat, late: nat, moves: nat, oneClock: bool) {
    && Inv(start) && 0 in start.scans && Legal(start, actions) && After(start, actions) == db
    && (forall j: nat :: LateRequeues(start, actions, 0, j) == if j == i then late else 0)
    && ScanLateRequeues(start, actions, 0) == late
    && Movements(start, actions, 0) == moves
    && (oneClock ==> OneClock(start, actions))
  }

  lemma Nothing(start: Db, i: nat)
    requires Inv(start) && 0 in start.scans
    ensures RunTo(start, [], start, i, 0, 0, true)
  {
  }

  lemma {:induction false} OneFlag(flags: seq<nat>, i: nat)
    requires i < |flags| && forall j :: 0 <= j < |flags| && j != i ==> flags[j] == 0
    ensures Total(flags) == flags[i]
  {
    if i == 0 {
      NoFlags(flags[1..]);
    } else {
      OneFlag(flags[1..], i - 1);
    }
  }

  lemma Then(start: Db, actions: seq<Action>, db: Db, i: nat, late: nat, moves: nat, oneClock: bool, a: Action, db': Db,
             isLate: bool, isMove: bool)
    requires RunTo(start, actions, db, i, late, moves, oneClock) && Enabled(db, a) && db' == Apply(db, a)
    requires HasStage(db, 0, i) && 0 in db'.scans && |db.scans[0].stages| == |db'.scans[0].stages|
    requires forall j: nat :: LateRequeue(db, a, 0, j) <==> isLate && j == i
    requires isMove <==> Moves(db.scans[0], db'.scans[0])
    requires oneClock && a.RequeueExpiredStages? ==> NoneOverdue(db)
    ensures RunTo(start, actions + [a], db', i, late + (if isLate then 1 else 0), moves + (if isMove then 1 else 0),
                  oneClock)
  {
    hide Apply, Enabled, Moves, LateRequeue, NoneOverdue, Inv;
    Extend(start, actions, a);
    ExtendMovements(start, actions, a, 0);
    ExtendLate(start, actions, a, 0);
    OneFlag(LateFlags(db, a, 0), i);
  }

  lemma NeverLate(db: Db, a: Action)
    requires !a.RequeueExpiredStages?
    ensures forall j: nat :: !LateRequeue(db, a, 0, j)
  {
  }

  /** `n` rounds, each a claim whose runner dies, the recovery pass in whose course it was made, and the re-queue
      at its end. */
  lemma {:induction false} Rounds(c: Around, p: PlanStage, start: Time, n: nat) returns (actions: seq<Action>)
    requires 1 <= p.timeout <= 86400 && Settled(c) && Inv(DbOf(c, start, WaitingSince(p, 0, start)))
    ensures RunTo(DbOf(c, start, WaitingSince(p, 0, start)), actions, RoundDb(c, p, start, n), |c.before|,
                  LateRounds(p, n), 2 * n, n <= Timely(p))
  {
    if n == 0 {
      Nothing(DbOf(c, start, WaitingSince(p, 0, start)), |c.before|);
      actions := [];
    } else {
      hide RunTo, DbOf, LateRounds, Timely, Inv, WaitingSince, Settled;
      var m: nat := n - 1;
      var before := Rounds(c, p, start, m);
      actions := AddRound(c, p, start, m, before);
    }
  }

  /** A scan that has been claimed runs. */
  function AfterClaims(c: Around, n: nat): Around {
    if n == 0 then c else c.(status := ScanStatus.Running)
  }

  function RoundDb(c: Around, p: PlanStage, start: Time, n: nat): Db {
    DbOf(AfterClaims(c, n), start + n * ROUND, WaitingSince(p, n, start))
  }

  function ClaimedDb(c: Around, p: PlanStage, start: Time, n: nat, now: Time): Db {
    DbOf(c.(status := ScanStatus.Running), now, ClaimedSince(p, n, start))
  }

  lemma AddRound(c: Around, p: PlanStage, start: Time, n: nat, before: seq<Action>) returns (actions: seq<Action>)
    requires 1 <= p.timeout <= 86400 && Settled(c)
    requires RunTo(DbOf(c, start, WaitingSince(p, 0, start)), before, RoundDb(c, p, start, n), |c.before|,
                   LateRounds(p, n), 2 * n, n <= Timely(p))
    ensures RunTo(DbOf(c, start, WaitingSince(p, 0, start)), actions, RoundDb(c, p, start, n + 1), |c.before|,
                  LateRounds(p, n + 1), 2 * (n + 1), n + 1 <= Timely(p))
  {
    hide RunTo, RoundDb, ClaimedDb, DbOf, WaitingSince, ClaimedSince, Settled;
    var timely, late, first := n + 1 <= Timely(p), LateRounds(p, n), DbOf(c, start, WaitingSince(p, 0, start));
    Weaker(first, before, RoundDb(c, p, start, n), |c.before|, late, 2 * n, n <= Timely(p), timely);
    hide Timely;
    actions := HalfRound(c, p, start, n, first, before, late, timely);
    actions := OtherHalf(c, p, start, n, first, actions, late, timely);
  }

  lemma RoundClaims(c: Around, p: PlanStage, start: Time, n: nat)
    requires Settled(c)
    ensures var db, claim := RoundDb(c, p, start, n), Claim(0, |c.before|, RUNNER);
            && HasStage(db, 0, |c.before|)
            && Apply(db, CloseOverdueStages) == db && !Moves(db.scans[0], db.scans[0])
            && Enabled(db, claim) && Apply(db, claim) == ClaimedDb(c, p, start, n, start + n * ROUND)
            && var db' := Apply(db, claim);
               0 in db'.scans && |db'.scans[0].stages| == |db.scans[0].stages| && Moves(db.scans[0], db'.scans[0])
  {
    var around, now, r := AfterClaims(c, n), start + n * ROUND, WaitingSince(p, n, start);
    assert around.before == c.before && around.behind == c.behind;
    AroundIdle(around, now, r);
    AroundClaim(around, now, r);
    AroundMoves(around, around, now, now, r, r);
    AroundMoves(around, c.(status := ScanStatus.Running), now, now, r, ClaimedSince(p, n, start));
  }

  lemma RowOfRound(p: PlanStage, start: Time, n: nat)
    requires 1 <= p.timeout <= 86400
    ensures var r, t := ClaimedSince(p, n, start), start + (n + 1) * ROUND;
            && (Overdue(r, t) <==> n + 1 > Timely(p)) && Expired(r, t)
            && Requeued(r) == WaitingSince(p, n + 1, start) && !Moved(r, r) && Moved(r, Requeued(r))
  {
    DeadlineOfRound(p, n + 1);
  }

  lemma RoundRequeues(c: Around, p: PlanStage, start: Time, n: nat)
    requires Settled(c) && 1 <= p.timeout <= 86400
    ensures var now, later := ClaimedDb(c, p, start, n, start + n * ROUND),
                              ClaimedDb(c, p, start, n, start + (n + 1) * ROUND);
            && HasStage(now, 0, |c.before|) && HasStage(later, 0, |c.before|)
            && Apply(now, Tick(ROUND)) == later
            && |now.scans[0].stages| == |later.scans[0].stages| && !Moves(now.scans[0], later.scans[0])
            && (NoneOverdue(later) <==> n + 1 <= Timely(p))
            && (forall j: nat :: LateRequeue(later, RequeueExpiredStages, 0, j)
                                 <==> n + 1 > Timely(p) && j == |c.before|)
            && var db' := Apply(later, RequeueExpiredStages);
               && db' == RoundDb(c, p, start, n + 1) && 0 in db'.scans
               && |db'.scans[0].stages| == |later.scans[0].stages| && Moves(later.scans[0], db'.scans[0])
  {
    var around, t, r := c.(status := ScanStatus.Running), start + (n + 1) * ROUND, ClaimedSince(p, n, start);
    RowOfRound(p, start, n);
    hide ClaimedSince, WaitingSince, Settled, Overdue, Expired, Requeued, Timely;
    AroundTick(around, start + n * ROUND, r, ROUND);
    AroundIdle(around, t, r);
    AroundRequeue(around, t, r);
    AroundMoves(around, around, start + n * ROUND, t, r, r);
    AroundMoves(around, around, t, t, r, Requeued(r));
  }

  lemma HalfRound(c: Around, p: PlanStage, start: Time, n: nat, first: Db, before: seq<Action>, late: nat, timely: bool)
    returns (actions: seq<Action>)
    requires Settled(c) && RunTo(first, before, RoundDb(c, p, start, n), |c.before|, late, 2 * n, timely)
    ensures RunTo(first, actions, ClaimedDb(c, p, start, n, start + n * ROUND), |c.before|, late, 2 * n + 1, timely)
  {
    var i, db, claim := |c.before|, RoundDb(c, p, start, n), Claim(0, |c.before|, RUNNER);
    RoundClaims(c, p, start, n);
    NeverLate(db, CloseOverdueStages);
    NeverLate(db, claim);
    hide RunTo, Apply, Enabled, Moves, RoundDb, ClaimedDb, LateRequeue;
    Then(first, before, db, i, late, 2 * n, timely, CloseOverdueStages, db, false, false);
    actions := before + [CloseOverdueStages];
    Then(first, actions, db, i, late, 2 * n, timely, claim, Apply(db, claim), false, true);
    actions := actions + [claim];
  }

  lemma OtherHalf(c: Around, p: PlanStage, start: Time, n: nat, first: Db, before: seq<Action>, late: nat, timely: bool)
    returns (actions: seq<Action>)
    requires Settled(c) && 1 <= p.timeout <= 86400 && (timely <==> n + 1 <= Timely(p))
    requires RunTo(first, before, ClaimedDb(c, p, start, n, start + n * ROUND), |c.before|, late, 2 * n + 1, timely)
    ensures RunTo(first, actions, RoundDb(c, p, start, n + 1), |c.before|, late + (if timely then 0 else 1), 2 * n + 2,
                  timely)
  {
    var i, claimed, later := |c.before|, ClaimedDb(c, p, start, n, start + n * ROUND),
                             ClaimedDb(c, p, start, n, start + (n + 1) * ROUND);
    RoundRequeues(c, p, start, n);
    NeverLate(claimed, Tick(ROUND));
    hide RunTo, Apply, Moves, NoneOverdue, RoundDb, ClaimedDb, Timely, LateRequeue;
    Then(first, before, claimed, i, late, 2 * n + 1, timely, Tick(ROUND), later, false, false);
    actions := before + [Tick(ROUND)];
    Then(first, actions, later, i, late, 2 * n + 1, timely, RequeueExpiredStages, RoundDb(c, p, start, n + 1), !timely,
         true);
    actions := actions + [RequeueExpiredStages];
  }

  lemma Weaker(start: Db, actions: seq<Action>, db: Db, i: nat, late: nat, moves: nat, oneClock: bool, less: bool)
    requires RunTo(start, actions, db, i, late, moves, oneClock) && (less ==> oneClock)
    ensures RunTo(start, actions, db, i, late, moves, less)
  {
  }

  /** The row of a stage that got all the claims it can get, and succeeded in the last. */
  function Exhausted(p: PlanStage, late: nat, start: Time): Stage
    requires p.timeout >= 1
  {
    Reported(ClaimedSince(p, Timely(p) + late, start), StageStatus.Succeeded)
  }

  function AfterStage(c: Around): Around {
    c.(status := ScanStatus.Running, calls := c.calls + 1)
  }

  lemma LateBeyondTimely(p: PlanStage, late: nat)
    requires p.timeout >= 1
    ensures LateRounds(p, Timely(p) + late) == late
  {
  }

  /** One stage uses all its claims and moves, with `late` late re-queues. */
  lemma StageIsExhausted(c: Around, p: PlanStage, start: Time, late: nat) returns (actions: seq<Action>)
    requires 1 <= p.timeout <= 86400 && Settled(c) && Inv(DbOf(c, start, WaitingSince(p, 0, start)))
    ensures RunTo(DbOf(c, start, WaitingSince(p, 0, start)), actions,
                  DbOf(AfterStage(c), start + (Timely(p) + late) * ROUND, Exhausted(p, late, start)),
                  |c.before|, late, 2 * (Timely(p) + 1 + late), late == 0)
  {
    hide RunTo, RoundDb, ClaimedDb, DbOf, LateRounds, Timely, Settled, Inv;
    var n: nat := Timely(p) + late;
    LateBeyondTimely(p, late);
    var rounds := Rounds(c, p, start, n);
    actions := ClaimAndFinish(c, p, start, n, DbOf(c, start, WaitingSince(p, 0, start)), rounds, late, late == 0);
  }

  lemma ClaimAndFinish(c: Around, p: PlanStage, start: Time, n: nat, first: Db, rounds: seq<Action>, late: nat,
                       oneClock: bool)
    returns (actions: seq<Action>)
    requires Settled(c) && RunTo(first, rounds, RoundDb(c, p, start, n), |c.before|, late, 2 * n, oneClock)
    ensures RunTo(first, actions,
                  DbOf(AfterStage(c), start + n * ROUND, Reported(ClaimedSince(p, n, start), StageStatus.Succeeded)),
                  |c.before|, late, 2 * n + 2, oneClock)
  {
    var i, db, claimed := |c.before|, RoundDb(c, p, start, n), ClaimedDb(c, p, start, n, start + n * ROUND);
    var claim, finish := Claim(0, |c.before|, RUNNER), Finish(0, |c.before|, StageStatus.Succeeded);
    RoundClaims(c, p, start, n);
    LastFinish(c, p, start, n);
    NeverLate(db, claim);
    NeverLate(claimed, finish);
    hide RunTo, Apply, Enabled, Moves, RoundDb, ClaimedDb, DbOf, LateRequeue, NoneOverdue, Reported;
    Then(first, rounds, db, i, late, 2 * n, oneClock, claim, claimed, false, true);
    actions := rounds + [claim];
    Then(first, actions, claimed, i, late, 2 * n + 1, oneClock, finish, Apply(claimed, finish), false, true);
    actions := actions + [finish];
  }

  lemma LastFinish(c: Around, p: PlanStage, start: Time, n: nat)
    ensures var db := ClaimedDb(c, p, start, n, start + n * ROUND);
            var finish := Finish(0, |c.before|, StageStatus.Succeeded);
            && HasStage(db, 0, |c.before|) && Enabled(db, finish)
            && Apply(db, finish)
               == DbOf(AfterStage(c), start + n * ROUND, Reported(ClaimedSince(p, n, start), StageStatus.Succeeded))
            && var db' := Apply(db, finish);
               0 in db'.scans && |db'.scans[0].stages| == |db.scans[0].stages| && Moves(db.scans[0], db'.scans[0])
  {
    var running, now, r := c.(status := ScanStatus.Running), start + n * ROUND, ClaimedSince(p, n, start);
    AroundFinish(running, now, r);
    AroundMoves(running, AfterStage(c), now, now, r, Reported(r, StageStatus.Succeeded));
  }

  // ----- stage after stage -----

  /** A run and another run after it. */
  lemma {:induction false} Append(db: Db, a: seq<Action>, b: seq<Action>)
    requires Legal(db, a) && Legal(After(db, a), b)
    ensures Legal(db, a + b) && After(db, a + b) == After(After(db, a), b)
    ensures OneClock(db, a + b) <==> OneClock(db, a) && OneClock(After(db, a), b)
    ensures forall s, i :: LateRequeues(db, a + b, s, i)
                           == LateRequeues(db, a, s, i) + LateRequeues(After(db, a), b, s, i)
    ensures forall s :: ScanLateRequeues(db, a + b, s)
                        == ScanLateRequeues(db, a, s) + ScanLateRequeues(After(db, a), b, s)
    decreases |a|
  {
    hide Apply, Enabled, LateRequeue, LateFlags, Total, NoneOverdue;
    if a == [] {
      assert a + b == b;
    } else {
      assert (a + b)[0] == a[0] && (a + b)[1..] == a[1..] + b;
      Append(Apply(db, a[0]), a[1..], b);
    }
  }

  lemma {:induction false} AppendMovements(db: Db, a: seq<Action>, b: seq<Action>, s: ScanId)
    requires Inv(db) && s in db.scans && Legal(db, a) && Legal(After(db, a), b)
    ensures Legal(db, a + b) && Inv(After(db, a)) && s in After(db, a).scans
    ensures Movements(db, a + b, s) == Movements(db, a, s) + Movements(After(db, a), b, s)
    decreases |a|
  {
    hide Inv, Apply, Enabled, Moves, OneClock, LateRequeues, ScanLateRequeues;
    Append(db, a, b);
    if a == [] {
      assert a + b == b;
    } else {
      assert (a + b)[0] == a[0] && (a + b)[1..] == a[1..] + b;
      StepKeeps(db, a[0]);
      assert ScanEvolves(db.scans[s], Apply(db, a[0]).scans[s]);
      AppendMovements(Apply(db, a[0]), a[1..], b, s);
    }
  }

  function NewStages(plan: seq<PlanStage>): (r: seq<Stage>)
    ensures |r| == |plan|
  {
    seq(|plan|, i requires 0 <= i < |plan| => NewStage(plan[i], 0))
  }

  /** Every stage of `plan` is claimed as often as it can be with `late` late re-queues, and succeeded. */
  ghost predicate UsedUp(plan: seq<PlanStage>, late: seq<nat>, stages: seq<Stage>)
    requires |late| == |plan| && forall i :: 0 <= i < |plan| ==> plan[i].timeout >= 1
  {
    && |stages| == |plan|
    && forall i :: 0 <= i < |plan| ==>
         stages[i].status.Succeeded? && stages[i].timeout == plan[i].timeout
         && stages[i].attempt == MaxClaims(plan[i].timeout) + late[i]
  }

  /** The run works off the stages from position `from` on. */
  ghost predicate WorksOff(start: Db, actions: seq<Action>, from: nat, plan: seq<PlanStage>, late: seq<nat>)
    requires |late| == |plan| && (ValidPlan(plan) || plan == [])
  {
    && Inv(start) && 0 in start.scans && Legal(start, actions)
    && 0 in After(start, actions).scans
    && |After(start, actions).scans[0].stages| == |start.scans[0].stages| == from + |plan|
    && After(start, actions).scans[0].stages[..from] == start.scans[0].stages[..from]
    && UsedUp(plan, late, After(start, actions).scans[0].stages[from..])
    && (forall j: nat :: LateRequeues(start, actions, 0, j) == if from <= j < from + |plan| then late[j - from] else 0)
    && ScanLateRequeues(start, actions, 0) == Total(late)
    && Movements(start, actions, 0) == PlanBudget(plan) + 2 * Total(late)
    && (Total(late) == 0 ==> OneClock(start, actions))
  }

  /** Stages that were closed before, and the rest of the plan still untouched. */
  ghost predicate Ahead(db: Db, before: seq<Stage>, plan: seq<PlanStage>) {
    && 0 in db.scans && db == Single(db.now, db.scans[0])
    && db.scans[0].assessment == 0 && !db.scans[0].cancelRequested && db.scans[0].lock.Free?
    && db.scans[0].stages == before + NewStages(plan)
    && forall i :: 0 <= i < |before| ==> before[i].status.Terminal()
  }

  lemma {:induction false} PlanIsExhausted(db: Db, before: seq<Stage>, plan: seq<PlanStage>, late: seq<nat>)
    returns (actions: seq<Action>)
    requires Inv(db) && Ahead(db, before, plan) && |late| == |plan| && (ValidPlan(plan) || plan == [])
    ensures WorksOff(db, actions, |before|, plan, late)
    decreases |plan|
  {
    hide Inv, Ahead, WorksOff, RunTo, Settled, DbOf, PlanBudget, Exhausted, WaitingSince;
    if plan == [] {
      NothingAhead(db, before);
      actions := [];
    } else {
      var c, r := FirstAhead(db, before, plan);
      var first := StageIsExhausted(c, plan[0], db.now, late[0]);
      var next := NextAhead(db, c, before, plan, late[0], first);
      var rest := PlanIsExhausted(next, before + [Exhausted(plan[0], late[0], db.now)], plan[1..], late[1..]);
      Compose(db, before, plan, late, first, next, rest);
      actions := first + rest;
    }
  }

  lemma NothingAhead(db: Db, before: seq<Stage>)
    requires Inv(db) && Ahead(db, before, [])
    ensures WorksOff(db, [], |before|, [], [])
  {
    assert before + NewStages([]) == before;
  }

  lemma FirstAhead(db: Db, before: seq<Stage>, plan: seq<PlanStage>) returns (c: Around, r: Stage)
    requires Ahead(db, before, plan) && ValidPlan(plan)
    ensures c == Around(before, NewStages(plan[1..]), db.scans[0].status, db.scans[0].calls)
    ensures r == WaitingSince(plan[0], 0, db.now)
    ensures Settled(c) && db == DbOf(c, db.now, r)
  {
    c := Around(before, NewStages(plan[1..]), db.scans[0].status, db.scans[0].calls);
    r := WaitingSince(plan[0], 0, db.now);
    assert r == NewStage(plan[0], 0);
    assert before + NewStages(plan) == Rows(c, r);
  }

  lemma NextAhead(db: Db, c: Around, before: seq<Stage>, plan: seq<PlanStage>, late: nat, first: seq<Action>)
    returns (next: Db)
    requires Ahead(db, before, plan) && ValidPlan(plan)
    requires c == Around(before, NewStages(plan[1..]), db.scans[0].status, db.scans[0].calls)
    requires db == DbOf(c, db.now, WaitingSince(plan[0], 0, db.now))
    requires RunTo(db, first, DbOf(AfterStage(c), db.now + (Timely(plan[0]) + late) * ROUND,
                                   Exhausted(plan[0], late, db.now)),
                   |before|, late, 2 * (Timely(plan[0]) + 1 + late), late == 0)
    ensures RunTo(db, first, next, |before|, late, 2 * (Timely(plan[0]) + 1 + late), late == 0)
    ensures Inv(next) && Ahead(next, before + [Exhausted(plan[0], late, db.now)], plan[1..])
  {
    next := DbOf(AfterStage(c), db.now + (Timely(plan[0]) + late) * ROUND, Exhausted(plan[0], late, db.now));
    RunKeeps(db, first);
    var r := Exhausted(plan[0], late, db.now);
    assert Rows(AfterStage(c), r) == (before + [r]) + NewStages(plan[1..]);
  }

  lemma Compose(db: Db, before: seq<Stage>, plan: seq<PlanStage>, late: seq<nat>, first: seq<Action>, next: Db,
                rest: seq<Action>)
    requires ValidPlan(plan) && |late| == |plan|
    requires Ahead(db, before, plan) && Ahead(next, before + [Exhausted(plan[0], late[0], db.now)], plan[1..])
    requires RunTo(db, first, next, |before|, late[0], 2 * (Timely(plan[0]) + 1 + late[0]), late[0] == 0)
    requires ValidPlan(plan[1..]) || plan[1..] == []
    requires WorksOff(next, rest, |before| + 1, plan[1..], late[1..])
    ensures WorksOff(db, first + rest, |before|, plan, late)
  {
    hide Ahead, UsedUp, Inv, RunTo, Total, PlanBudget, Timely, Exhausted;
    hide LateRequeues, ScanLateRequeues, Movements, OneClock, MaxClaims;
    RunToMeaning(db, first, next, |before|, late[0], 2 * (Timely(plan[0]) + 1 + late[0]), late[0] == 0);
    ComposeRows(db, before, plan, late, next, After(next, rest));
    ComposeCounts(db, |before|, plan, late, first, next, rest);
    Append(db, first, rest);
  }

  lemma RunToMeaning(start: Db, actions: seq<Action>, db: Db, i: nat, late: nat, moves: nat, oneClock: bool)
    requires RunTo(start, actions, db, i, late, moves, oneClock)
    ensures Inv(start) && 0 in start.scans && Legal(start, actions) && After(start, actions) == db
  {
  }

  lemma ComposeCounts(db: Db, n: nat, plan: seq<PlanStage>, late: seq<nat>, first: seq<Action>, next: Db,
                      rest: seq<Action>)
    requires ValidPlan(plan) && |late| == |plan|
    requires RunTo(db, first, next, n, late[0], 2 * (Timely(plan[0]) + 1 + late[0]), late[0] == 0)
    requires (ValidPlan(plan[1..]) || plan[1..] == []) && WorksOff(next, rest, n + 1, plan[1..], late[1..])
    ensures Legal(db, first + rest)
    ensures forall j: nat :: LateRequeues(db, first + rest, 0, j) == if n <= j < n + |plan| then late[j - n] else 0
    ensures ScanLateRequeues(db, first + rest, 0) == Total(late)
    ensures Movements(db, first + rest, 0) == PlanBudget(plan) + 2 * Total(late)
    ensures Total(late) == 0 ==> OneClock(db, first + rest)
  {
    assert PlanBudget(plan) == 2 * (Timely(plan[0]) + 1) + PlanBudget(plan[1..]);
    assert Total(late) == late[0] + Total(late[1..]);
    hide UsedUp, Inv, Total, PlanBudget, Timely;
    Append(db, first, rest);
    AppendMovements(db, first, rest, 0);
    forall j: nat
      ensures LateRequeues(db, first + rest, 0, j) == if n <= j < n + |plan| then late[j - n] else 0
    {
      assert n < j < n + |plan| ==> late[1..][j - n - 1] == late[j - n];
    }
  }

  lemma ComposeRows(db: Db, before: seq<Stage>, plan: seq<PlanStage>, late: seq<nat>, next: Db, end: Db)
    requires ValidPlan(plan) && |late| == |plan|
    requires Ahead(db, before, plan) && Ahead(next, before + [Exhausted(plan[0], late[0], db.now)], plan[1..])
    requires 0 in end.scans && |end.scans[0].stages| == |next.scans[0].stages|
    requires end.scans[0].stages[..|before| + 1] == next.scans[0].stages[..|before| + 1]
    requires UsedUp(plan[1..], late[1..], end.scans[0].stages[|before| + 1..])
    ensures |db.scans[0].stages| == |end.scans[0].stages| == |before| + |plan|
    ensures end.scans[0].stages[..|before|] == db.scans[0].stages[..|before|]
    ensures UsedUp(plan, late, end.scans[0].stages[|before|..])
  {
    var stages, n := end.scans[0].stages, |before|;
    assert stages[..n + 1][..n] == stages[..n];
    assert stages[n] == stages[..n + 1][n] == Exhausted(plan[0], late[0], db.now);
    forall i | 0 <= i < |plan|
      ensures stages[n..][i].status.Succeeded? && stages[n..][i].timeout == plan[i].timeout
      ensures stages[n..][i].attempt == MaxClaims(plan[i].timeout) + late[i]
    {
      if i > 0 {
        assert stages[n..][i] == stages[n + 1..][i - 1];
        assert plan[1..][i - 1] == plan[i] && late[1..][i - 1] == late[i];
      }
    }
  }

  /** Every bound on claims and moves is reached at once: for every plan and every number of late re-queues of each
      stage. */
  lemma PlanRun(plan: seq<PlanStage>, late: seq<nat>) returns (actions: seq<Action>)
    requires ValidPlan(plan) && |late| == |plan|
    ensures Enabled(EMPTY, Enqueue(0, 0, plan))
    ensures WorksOff(Apply(EMPTY, Enqueue(0, 0, plan)), actions, 0, plan, late)
  {
    StepKeeps(EMPTY, Enqueue(0, 0, plan));
    var db := Apply(EMPTY, Enqueue(0, 0, plan));
    assert db.scans[0].stages == [] + NewStages(plan);
    SingleIs(db, 0, NewScan(0, plan, 0));
    actions := PlanIsExhausted(db, [], plan, late);
  }

  /** For every plan and every number of late re-queues of each stage some run claims every stage
      1 + (timeout - 1) / 120 times and once more for each of its late re-queues. Without late ones it
      needs only one clock reading per pass; with them two readings exceed the one-clock bound. */
  lemma TwoClocksExceedTheBound(plan: seq<PlanStage>, late: seq<nat>) returns (actions: seq<Action>)
    requires ValidPlan(plan) && |late| == |plan|
    ensures Legal(EMPTY, actions) && 0 in After(EMPTY, actions).scans
    ensures |After(EMPTY, actions).scans[0].stages| == |plan|
    ensures forall i :: 0 <= i < |plan| ==>
              var r := After(EMPTY, actions).scans[0].stages[i];
              && r.timeout == plan[i].timeout && LateRequeues(EMPTY, actions, 0, i) == late[i]
              && r.attempt == 1 + (r.timeout - 1) / 120 + late[i]
    ensures (forall i :: 0 <= i < |late| ==> late[i] == 0) ==> OneClock(EMPTY, actions)
  {
    var run := PlanRun(plan, late);
    PrependClock(EMPTY, Enqueue(0, 0, plan), run);
    actions := [Enqueue(0, 0, plan)] + run;
    assert After(EMPTY, actions).scans[0].stages[0..] == After(EMPTY, actions).scans[0].stages;
    if forall i :: 0 <= i < |late| ==> late[i] == 0 {
      NoFlags(late);
    }
  }

  /** The bound on moves is reached as well, for every plan, when the last runner of each stage finishes it. */
  lemma MovesReachTheBudget(plan: seq<PlanStage>, late: seq<nat>) returns (actions: seq<Action>)
    requires ValidPlan(plan) && |late| == |plan|
    ensures Enabled(EMPTY, Enqueue(0, 0, plan)) && Inv(Apply(EMPTY, Enqueue(0, 0, plan)))
    ensures var db := Apply(EMPTY, Enqueue(0, 0, plan));
            && Legal(db, actions) && ScanLateRequeues(db, actions, 0) == Total(late)
            && Movements(db, actions, 0) == PlanBudget(plan) + 2 * Total(late)
            && 0 in After(db, actions).scans && AllTerminal(After(db, actions).scans[0].stages)
  {
    actions := PlanRun(plan, late);
    var stages := After(Apply(EMPTY, Enqueue(0, 0, plan)), actions).scans[0].stages;
    assert stages[0..] == stages;
  }
}
