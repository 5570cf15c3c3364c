/** The outbox of integration deliveries: claimed for five minutes, retried with growing delays,
    given up after five failures. A report on an attempt carries no proof that its claim is
    still the current one. */
module Outbox {
  import opened Common

  type Key = string

  /** Seconds. */
  type Time = int

  const MINUTE: Time := 60
  const CLAIM: Time := 5 * MINUTE
  const MAX_ATTEMPTS: nat := 5

  datatype Status = Pending | Delivered | Abandoned

  /** An attempt some runner has claimed and not reported on. */
  datatype Attempt = Attempt(number: nat, claimedAt: Time)

  /** A row of exposure_delivery_events, with the attempts that are out and the times of all claims. */
  datatype Delivery = Delivery(
    status: Status, attempts: nat, nextAttempt: Time, createdAt: Time,
    inFlight: set<Attempt>, claims: seq<Time>)

  type Rows = map<Key, Delivery>

  datatype State = State(now: Time, rows: Rows)

  function Min(a: int, b: int): int {
    if a < b then a else b
  }

  function Pow2(k: nat): nat {
    if k == 0 then 1 else 2 * Pow2(k - 1)
  }

  /** Minutes to wait after failure number `attempt`. */
  function DelayMinutes(attempt: nat): int {
    Min(60, Pow2(Min(attempt, 6)))
  }

  function NewDelivery(now: Time): Delivery {
    Delivery(Pending, 0, now, now, {}, [])
  }

  predicate Due(d: Delivery, now: Time) {
    d.status.Pending? && d.nextAttempt <= now
  }

  function Claimed(d: Delivery, now: Time): Delivery {
    d.(attempts := d.attempts + 1, nextAttempt := now + CLAIM,
       inFlight := d.inFlight + {Attempt(d.attempts + 1, now)}, claims := d.claims + [now])
  }

  function Failed(d: Delivery, a: Attempt, now: Time): Delivery {
    d.(status := if a.number >= MAX_ATTEMPTS then Abandoned else Pending,
       nextAttempt := now + DelayMinutes(a.number) * MINUTE, inFlight := d.inFlight - {a})
  }

  function Succeeded(d: Delivery, a: Attempt): Delivery {
    d.(status := Delivered, inFlight := d.inFlight - {a})
  }

  datatype Action =
    | Tick(elapsed: nat)
    | Enqueue(key: Key)
    | Claim(key: Key, credentials: bool)
    | ReportFailure(key: Key, attempt: Attempt)
    | ReportDelivered(key: Key, attempt: Attempt)

  predicate Enabled(s: State, a: Action) {
    match a
    case Tick(_) => true
    case Enqueue(_) => true
    case Claim(k, _) => k in s.rows && Due(s.rows[k], s.now)
    case ReportFailure(k, attempt) => k in s.rows && attempt in s.rows[k].inFlight
    case ReportDelivered(k, attempt) => k in s.rows && attempt in s.rows[k].inFlight
  }

  function Apply(s: State, a: Action): State
    requires Enabled(s, a)
  {
    match a
    case Tick(elapsed) => s.(now := s.now + elapsed)
    case Enqueue(k) => if k in s.rows then s else s.(rows := s.rows[k := NewDelivery(s.now)])
    case Claim(k, credentials) =>
      s.(rows := s.rows[k := if credentials then Claimed(s.rows[k], s.now) else s.rows[k].(status := Abandoned)])
    case ReportFailure(k, attempt) => s.(rows := s.rows[k := Failed(s.rows[k], attempt, s.now)])
    case ReportDelivered(k, attempt) => s.(rows := s.rows[k := Succeeded(s.rows[k], attempt)])
  }

  ghost predicate Legal(s: State, actions: seq<Action>)
    decreases |actions|
  {
    actions == [] || (Enabled(s, actions[0]) && Legal(Apply(s, actions[0]), actions[1..]))
  }

  ghost function After(s: State, actions: seq<Action>): State
    requires Legal(s, actions)
    decreases |actions|
  {
    if actions == [] then s else After(Apply(s, actions[0]), actions[1..])
  }

  /** Time never reaches the end of a claim that has not been reported on. */
  ghost predicate ReportsInTime(s: State, actions: seq<Action>)
    requires Legal(s, actions)
    decreases |actions|
  {
    actions == [] || (ClaimsHold(s, actions[0]) && ReportsInTime(Apply(s, actions[0]), actions[1..]))
  }

  ghost predicate ClaimsHold(s: State, a: Action) {
    a.Tick? ==> forall k, attempt :: k in s.rows && attempt in s.rows[k].inFlight
                                     ==> s.now + a.elapsed < attempt.claimedAt + CLAIM
  }

  const EMPTY := State(0, map[])

  // ----- what a step writes, told by the columns; times in seconds -----

  predicate Waits(d: Delivery, now: Time) {
    d.status == Pending && d.nextAttempt <= now
  }

  /** Seconds until the next attempt, after failure number `n`. */
  predicate RetryGap(n: nat, gap: int) {
    && (n == 0 ==> gap == 60) && (n == 1 ==> gap == 120) && (n == 2 ==> gap == 240) && (n == 3 ==> gap == 480)
    && (n == 4 ==> gap == 960) && (n == 5 ==> gap == 1920) && (n >= 6 ==> gap == 3600)
  }

  /** Without credentials the event is given up and nothing else of it changes; with them the attempt is counted and
      the event held for five minutes. */
  predicate ClaimWrites(d: Delivery, d': Delivery, credentials: bool, now: Time) {
    if credentials
    then
      && d'.attempts == d.attempts + 1 && d'.nextAttempt == now + 300
      && d'.inFlight == d.inFlight + {Attempt(d.attempts + 1, now)} && d'.claims == d.claims + [now]
      && d'.status == d.status && d'.createdAt == d.createdAt
    else d'.status == Abandoned && d' == d.(status := Abandoned)
  }

  /** The fifth failure gives the event up, and so does every later one. */
  predicate FailureWrites(d: Delivery, d': Delivery, a: Attempt, now: Time) {
    && (a.number < 5 ==> d'.status == Pending) && (a.number >= 5 ==> d'.status == Abandoned)
    && RetryGap(a.number, d'.nextAttempt - now)
    && d'.inFlight == d.inFlight - {a} && d'.attempts == d.attempts && d'.claims == d.claims
    && d'.createdAt == d.createdAt
  }

  predicate DeliveryWrites(d: Delivery, d': Delivery, a: Attempt) {
    d'.status == Delivered && d' == d.(status := Delivered, inFlight := d.inFlight - {a})
  }

  predicate IsNew(d: Delivery, now: Time) {
    && d.status == Pending && d.attempts == 0 && d.nextAttempt == now && d.createdAt == now
    && d.inFlight == {} && d.claims == []
  }

  /** Nothing but the row of `k` changes, and no row goes away. */
  predicate OnlyRow(s: State, s': State, k: Key) {
    s'.now == s.now && k in s'.rows && s'.rows == s.rows[k := s'.rows[k]]
  }

  predicate StepMeans(s: State, a: Action, s': State) {
    match a
    case Tick(elapsed) => s'.now == s.now + elapsed && s'.rows == s.rows
    case Enqueue(k) => if k in s.rows then s' == s else OnlyRow(s, s', k) && IsNew(s'.rows[k], s.now)
    case Claim(k, credentials) =>
      k in s.rows && OnlyRow(s, s', k) && Waits(s.rows[k], s.now)
      && ClaimWrites(s.rows[k], s'.rows[k], credentials, s.now)
    case ReportFailure(k, attempt) =>
      k in s.rows && OnlyRow(s, s', k) && FailureWrites(s.rows[k], s'.rows[k], attempt, s.now)
    case ReportDelivered(k, attempt) =>
      k in s.rows && OnlyRow(s, s', k) && DeliveryWrites(s.rows[k], s'.rows[k], attempt)
  }

  lemma GapsInSeconds(n: nat)
    ensures RetryGap(n, DelayMinutes(n) * MINUTE)
  {
    assert Pow2(0) == 1;
    assert Pow2(1) == 2;
    assert Pow2(2) == 4;
    assert Pow2(3) == 8;
    assert Pow2(4) == 16;
    assert Pow2(5) == 32;
    assert Pow2(6) == 64;
  }

  /** Every step writes what its columns say. */
  lemma StepByColumns(s: State, a: Action)
    requires Enabled(s, a)
    ensures StepMeans(s, a, Apply(s, a))
  {
    if a.ReportFailure? {
      GapsInSeconds(a.attempt.number);
    }
    hide DelayMinutes, RetryGap;
  }

  // ----- the store -----

  class DeliveryStore {
    var now: Time
    var rows: Rows

    constructor ()
      ensures Current() == EMPTY
    {
      now := 0;
      rows := map[];
    }

    function Current(): State
      reads this
    {
      State(now, rows)
    }

    /** enqueue_integration_deliveries: one row per idempotency key, for ever. */
    method EnqueueDelivery(key: Key)
      modifies this
      ensures Current() == Apply(old(Current()), Enqueue(key))
      ensures key in old(rows) ==> rows == old(rows)
      ensures key !in old(rows) ==> rows.Keys == old(rows.Keys) + {key} && IsNew(rows[key], now)
    {
      StepByColumns(Current(), Enqueue(key));
      if key !in rows {
        rows := rows[key := NewDelivery(now)];
      }
    }

    /** The first transaction of deliver_one_pending_integration: the oldest due row of an active
        integration that no other runner has locked. */
    method ClaimOne(active: set<Key>, locked: set<Key>, credentialed: set<Key>)
      returns (r: Option<(Key, Option<Attempt>)>)
      modifies this
      ensures r.None? <==> DueKeys(old(Current()), active - locked) == {}
      ensures r.None? <==> forall k :: k in active && k !in locked && k in old(rows) ==> !Waits(old(rows)[k], old(now))
      ensures r.None? ==> Current() == old(Current())
      ensures r.Some? ==>
                var (key, attempt) := r.value;
                && key in DueKeys(old(Current()), active - locked)
                && (forall k :: k in DueKeys(old(Current()), active - locked)
                                ==> old(rows)[key].createdAt <= old(rows)[k].createdAt)
                && Current() == Apply(old(Current()), Claim(key, key in credentialed))
                && (attempt.Some? <==> key in credentialed)
                && (attempt.Some? ==> attempt.value in rows[key].inFlight && attempt.value.number == rows[key].attempts)
      ensures r.Some? ==>
                var key := r.value.0;
                && key in old(rows) && OnlyRow(old(Current()), Current(), key)
                && key in active && key !in locked && Waits(old(rows)[key], old(now))
                && ClaimWrites(old(rows)[key], rows[key], key in credentialed, old(now))
                && forall k :: k in active && k !in locked && k in old(rows) && Waits(old(rows)[k], old(now))
                               ==> old(rows)[key].createdAt <= old(rows)[k].createdAt
    {
      var due := DueKeys(Current(), active - locked);
      assert forall k :: k in due <==> k in active && k !in locked && k in rows && Waits(rows[k], now);
      if due == {} {
        return None;
      }
      OldestExists(rows, due);
      var key :| key in due && forall k :: k in due ==> rows[key].createdAt <= rows[k].createdAt;
      var d := rows[key];
      if key !in credentialed {
        rows := rows[key := d.(status := Abandoned)];
        return Some((key, None));
      }
      var attempt := Attempt(d.attempts + 1, now);
      rows := rows[key := d.(attempts := attempt.number, nextAttempt := now + CLAIM,
                             inFlight := d.inFlight + {attempt}, claims := d.claims + [now])];
      return Some((key, Some(attempt)));
    }

    /** The second transaction, after the webhook answered. */
    method Report(key: Key, attempt: Attempt, delivered: bool)
      requires Enabled(Current(), if delivered then ReportDelivered(key, attempt) else ReportFailure(key, attempt))
      modifies this
      ensures Current() == Apply(old(Current()), if delivered then ReportDelivered(key, attempt)
                                                 else ReportFailure(key, attempt))
      ensures key in old(rows) && OnlyRow(old(Current()), Current(), key)
      ensures delivered ==> DeliveryWrites(old(rows)[key], rows[key], attempt)
      ensures !delivered ==> FailureWrites(old(rows)[key], rows[key], attempt, now)
    {
      StepByColumns(Current(), if delivered then ReportDelivered(key, attempt) else ReportFailure(key, attempt));
      var d := rows[key];
      if delivered {
        rows := rows[key := d.(status := Delivered, inFlight := d.inFlight - {attempt})];
      } else {
        var delayMinutes := Min(60, Pow2(Min(attempt.number, 6)));
        var terminal := attempt.number >= MAX_ATTEMPTS;
        rows := rows[key := d.(status := if terminal then Abandoned else Pending,
                               nextAttempt := now + delayMinutes * MINUTE, inFlight := d.inFlight - {attempt})];
      }
    }
  }

  function DueKeys(s: State, keys: set<Key>): set<Key> {
    set k | k in keys && k in s.rows && Due(s.rows[k], s.now)
  }

  lemma {:induction false} OldestExists(rows: Rows, keys: set<Key>)
    requires keys != {} && forall k :: k in keys ==> k in rows
    ensures exists key :: key in keys && forall k :: k in keys ==> rows[key].createdAt <= rows[k].createdAt
    decreases |keys|
  {
    var x :| x in keys;
    if keys == {x} {
      assert forall k :: k in keys ==> rows[x].createdAt <= rows[k].createdAt;
    } else {
      OldestExists(rows, keys - {x});
      var y :| y in keys - {x} && forall k :: k in keys - {x} ==> rows[y].createdAt <= rows[k].createdAt;
      var best := if rows[x].createdAt <= rows[y].createdAt then x else y;
      forall k | k in keys
        ensures rows[best].createdAt <= rows[k].createdAt
      {
        assert k == x || k in keys - {x};
      }
    }
  }

  // ----- how many attempts, whatever the runners do -----

  /** A runner claims the event while an earlier attempt on it is still out. */
  predicate Overlap(s: State, a: Action, k: Key) {
    a.Claim? && a.key == k && a.credentials && k in s.rows && s.rows[k].inFlight != {}
  }

  ghost function Overlaps(s: State, actions: seq<Action>, k: Key): nat
    requires Legal(s, actions)
    decreases |actions|
  {
    if actions == [] then 0
    else (if Overlap(s, actions[0], k) then 1 else 0) + Overlaps(Apply(s, actions[0]), actions[1..], k)
  }

  /** After `overlaps` overlapping claims: every attempt that is out is at most that far behind. */
  ghost predicate Counted(s: State, k: Key, overlaps: nat) {
    k in s.rows ==>
      var d := s.rows[k];
      && |d.claims| == d.attempts <= MAX_ATTEMPTS + overlaps
      && (forall a :: a in d.inFlight ==> a.number <= d.attempts <= a.number + overlaps)
      && (d.status.Pending? && d.inFlight == {} ==> d.attempts < MAX_ATTEMPTS + overlaps)
  }

  lemma CountedStep(s: State, a: Action, k: Key, overlaps: nat)
    requires Enabled(s, a) && Counted(s, k, overlaps)
    ensures Counted(Apply(s, a), k, overlaps + (if Overlap(s, a, k) then 1 else 0))
  {
  }

  lemma {:induction false} CountedRun(s: State, actions: seq<Action>, k: Key, overlaps: nat)
    requires Legal(s, actions) && Counted(s, k, overlaps)
    ensures Counted(After(s, actions), k, overlaps + Overlaps(s, actions, k))
    decreases |actions|
  {
    hide Counted, Apply, Enabled, Overlap;
    if actions != [] {
      CountedStep(s, actions[0], k, overlaps);
      CountedRun(Apply(s, actions[0]), actions[1..], k, overlaps + (if Overlap(s, actions[0], k) then 1 else 0));
    }
  }

  /** In any run an event is attempted at most five times, and once more for every claim made while an
      earlier attempt on it is out. */
  lemma AttemptsAreBounded(actions: seq<Action>, k: Key)
    requires Legal(EMPTY, actions) && k in After(EMPTY, actions).rows
    ensures var d := After(EMPTY, actions).rows[k];
            |d.claims| == d.attempts <= MAX_ATTEMPTS + Overlaps(EMPTY, actions, k)
  {
    CountedRun(EMPTY, actions, k, 0);
  }

  // ----- one attempt at a time -----

  /** In every state of the run at most one attempt on the event is out. */
  ghost predicate OneOutThroughout(s: State, actions: seq<Action>, k: Key)
    requires Legal(s, actions)
    decreases |actions|
  {
    && (k in s.rows ==> |s.rows[k].inFlight| <= 1)
    && (actions != [] ==> OneOutThroughout(Apply(s, actions[0]), actions[1..], k))
  }

  /** Claim `k + 1` comes at least 2^k minutes after claim `k`. */
  ghost predicate Spaced(claims: seq<Time>) {
    forall k :: 1 <= k < |claims| ==> claims[k - 1] + Pow2(k) * MINUTE <= claims[k]
  }

  ghost predicate Orderly(d: Delivery, now: Time) {
    && |d.claims| == d.attempts <= MAX_ATTEMPTS
    && Spaced(d.claims)
    && (d.attempts > 0 ==> d.claims[d.attempts - 1] <= now)
    && (if d.inFlight == {}
        then d.status.Pending? ==>
               d.attempts < MAX_ATTEMPTS
               && (d.attempts > 0 ==> d.claims[d.attempts - 1] + Pow2(d.attempts) * MINUTE <= d.nextAttempt)
        else d.attempts > 0 && d.inFlight == {Attempt(d.attempts, d.claims[d.attempts - 1])})
  }

  ghost predicate OrderlyAt(s: State, k: Key) {
    k in s.rows ==> Orderly(s.rows[k], s.now)
  }

  lemma ShortDelays(n: nat)
    requires n < MAX_ATTEMPTS
    ensures DelayMinutes(n) == Pow2(n)
  {
    assert Pow2(0) == 1;
    assert Pow2(1) == 2;
    assert Pow2(2) == 4;
    assert Pow2(3) == 8;
    assert Pow2(4) == 16;
  }

  lemma ClaimKeepsOrder(d: Delivery, now: Time)
    requires Orderly(d, now) && Due(d, now) && d.inFlight == {}
    ensures Orderly(Claimed(d, now), now)
  {
    var d' := Claimed(d, now);
    assert d'.inFlight == {Attempt(d'.attempts, now)};
    forall k | 1 <= k < |d'.claims|
      ensures d'.claims[k - 1] + Pow2(k) * MINUTE <= d'.claims[k]
    {
      assert k < |d.claims| ==> d.claims[k - 1] + Pow2(k) * MINUTE <= d.claims[k];
    }
  }

  lemma ReportKeepsOrder(d: Delivery, a: Attempt, now: Time)
    requires Orderly(d, now) && a in d.inFlight
    ensures Orderly(Failed(d, a, now), now) && Orderly(Succeeded(d, a), now)
  {
    assert d.inFlight - {a} == {};
    if a.number < MAX_ATTEMPTS {
      ShortDelays(a.number);
    }
  }

  lemma OrderlyStep(s: State, a: Action, k: Key)
    requires OrderlyAt(s, k) && Enabled(s, a) && !Overlap(s, a, k)
    ensures OrderlyAt(Apply(s, a), k)
  {
    if k in s.rows && (a.Claim? || a.ReportFailure? || a.ReportDelivered?) && a.key == k {
      var d := s.rows[k];
      if a.Claim? {
        if a.credentials {
          ClaimKeepsOrder(d, s.now);
        }
      } else {
        ReportKeepsOrder(d, a.attempt, s.now);
        hide Orderly;
      }
    }
  }

  lemma OneOut(d: Delivery, now: Time)
    requires Orderly(d, now)
    ensures |d.inFlight| <= 1
  {
  }

  lemma {:induction false} OrderlyRun(s: State, actions: seq<Action>, k: Key)
    requires OrderlyAt(s, k) && Legal(s, actions) && Overlaps(s, actions, k) == 0
    ensures OrderlyAt(After(s, actions), k) && OneOutThroughout(s, actions, k)
    decreases |actions|
  {
    hide Orderly, Apply, Enabled, Overlap;
    if k in s.rows {
      OneOut(s.rows[k], s.now);
    }
    if actions != [] {
      OrderlyStep(s, actions[0], k);
      OrderlyRun(Apply(s, actions[0]), actions[1..], k);
    }
  }

  lemma OverlapPutsTwoOut(s: State, a: Action, k: Key, overlaps: nat)
    requires Enabled(s, a) && Counted(s, k, overlaps) && Overlap(s, a, k)
    ensures k in Apply(s, a).rows && |Apply(s, a).rows[k].inFlight| >= 2
  {
    var d := s.rows[k];
    var second := Attempt(d.attempts + 1, s.now);
    assert second !in d.inFlight;
    assert |d.inFlight + {second}| == |d.inFlight| + 1;
  }

  lemma {:induction false} OneOutNeedsNoOverlap(s: State, actions: seq<Action>, k: Key, overlaps: nat)
    requires Legal(s, actions) && Counted(s, k, overlaps) && OneOutThroughout(s, actions, k)
    ensures Overlaps(s, actions, k) == 0
    decreases |actions|
  {
    hide Counted, Apply, Enabled, Overlap;
    if actions != [] {
      var next := Apply(s, actions[0]);
      if Overlap(s, actions[0], k) {
        OverlapPutsTwoOut(s, actions[0], k, overlaps);
      }
      CountedStep(s, actions[0], k, overlaps);
      OneOutNeedsNoOverlap(next, actions[1..], k, overlaps);
    }
  }

  /** At most one attempt on an event is out throughout a run exactly when no claim in it overlaps. */
  lemma OneOutExactlyWithoutOverlap(actions: seq<Action>, k: Key)
    requires Legal(EMPTY, actions)
    ensures OneOutThroughout(EMPTY, actions, k) <==> Overlaps(EMPTY, actions, k) == 0
  {
    if Overlaps(EMPTY, actions, k) == 0 {
      OrderlyRun(EMPTY, actions, k);
    }
    if OneOutThroughout(EMPTY, actions, k) {
      OneOutNeedsNoOverlap(EMPTY, actions, k, 0);
    }
  }

  /** Then there are at most five attempts, and claim `j + 1` comes at least 2^j minutes after claim `j`. */
  lemma DeliveriesWithoutOverlap(actions: seq<Action>, k: Key)
    requires Legal(EMPTY, actions) && Overlaps(EMPTY, actions, k) == 0 && k in After(EMPTY, actions).rows
    ensures var d := After(EMPTY, actions).rows[k];
            && |d.inFlight| <= 1
            && |d.claims| == d.attempts <= MAX_ATTEMPTS
            && forall j :: 1 <= j < |d.claims| ==> d.claims[j - 1] + Pow2(j) * MINUTE <= d.claims[j]
  {
    OrderlyRun(EMPTY, actions, k);
    assert Orderly(After(EMPTY, actions).rows[k], After(EMPTY, actions).now);
  }

  // ----- what timely reports guarantee -----

  /** No runner, with credentials or without, takes the event up while an attempt on it is out. */
  ghost predicate Undisturbed(s: State, actions: seq<Action>, k: Key)
    requires Legal(s, actions)
    decreases |actions|
  {
    actions == [] || (!Disturbs(s, actions[0], k) && Undisturbed(Apply(s, actions[0]), actions[1..], k))
  }

  predicate Disturbs(s: State, a: Action, k: Key) {
    a.Claim? && a.key == k && k in s.rows && s.rows[k].inFlight != {}
  }

  /** What the claim columns say while an attempt is out. */
  ghost predicate Held(s: State, k: Key) {
    k in s.rows && s.rows[k].inFlight != {} ==>
      && s.rows[k].status.Pending?
      && forall a :: a in s.rows[k].inFlight ==> s.rows[k].nextAttempt == a.claimedAt + CLAIM
  }

  lemma {:induction false} UndisturbedRun(s: State, actions: seq<Action>, k: Key)
    requires OrderlyAt(s, k) && Held(s, k) && Legal(s, actions) && Undisturbed(s, actions, k)
    ensures Held(After(s, actions), k) && Overlaps(s, actions, k) == 0
    decreases |actions|
  {
    if actions != [] {
      HeldStep(s, actions[0], k);
      OrderlyStep(s, actions[0], k);
      hide Orderly, OrderlyAt, Held, Apply, Enabled;
      UndisturbedRun(Apply(s, actions[0]), actions[1..], k);
    }
  }

  lemma HeldStep(s: State, a: Action, k: Key)
    requires OrderlyAt(s, k) && Held(s, k) && Enabled(s, a) && !Disturbs(s, a, k)
    ensures Held(Apply(s, a), k)
  {
    if k in s.rows && (a.ReportFailure? || a.ReportDelivered?) && a.key == k {
      assert s.rows[k].inFlight - {a.attempt} == {};
    }
  }

  /** Reports within the five minutes of the claim leave no room for a second claim. */
  lemma {:induction false} TimelyIsUndisturbed(s: State, actions: seq<Action>, k: Key)
    requires OrderlyAt(s, k) && Held(s, k) && Prompt(s, k) && Legal(s, actions) && ReportsInTime(s, actions)
    ensures Undisturbed(s, actions, k)
    decreases |actions|
  {
    if actions != [] {
      assert !Disturbs(s, actions[0], k);
      HeldStep(s, actions[0], k);
      OrderlyStep(s, actions[0], k);
      PromptStep(s, actions[0], k);
      hide Orderly, OrderlyAt, Held, Prompt, Apply, Enabled, ClaimsHold;
      TimelyIsUndisturbed(Apply(s, actions[0]), actions[1..], k);
    }
  }

  ghost predicate Prompt(s: State, k: Key) {
    k in s.rows ==> forall a :: a in s.rows[k].inFlight ==> s.now < a.claimedAt + CLAIM
  }

  lemma PromptStep(s: State, a: Action, k: Key)
    requires Prompt(s, k) && Enabled(s, a) && ClaimsHold(s, a)
    ensures Prompt(Apply(s, a), k)
  {
  }

  lemma TimelyReportsNeverOverlap(actions: seq<Action>, k: Key)
    requires Legal(EMPTY, actions) && ReportsInTime(EMPTY, actions)
    ensures Undisturbed(EMPTY, actions, k) && Overlaps(EMPTY, actions, k) == 0
  {
    TimelyIsUndisturbed(EMPTY, actions, k);
    UndisturbedRun(EMPTY, actions, k);
  }

  /** If every claimed attempt reports back within its five minutes, then whatever any number of
      runners do an event has at most one attempt in flight and at most five in all, and claim
      `j + 1` comes at least 2^j minutes after claim `j`. */
  lemma TimelyDeliveries(actions: seq<Action>, k: Key)
    requires Legal(EMPTY, actions) && ReportsInTime(EMPTY, actions) && k in After(EMPTY, actions).rows
    ensures var d := After(EMPTY, actions).rows[k];
            && |d.inFlight| <= 1
            && |d.claims| == d.attempts <= MAX_ATTEMPTS
            && forall j :: 1 <= j < |d.claims| ==> d.claims[j - 1] + Pow2(j) * MINUTE <= d.claims[j]
  {
    TimelyReportsNeverOverlap(actions, k);
    DeliveriesWithoutOverlap(actions, k);
  }

  /** An event that was never taken up while an attempt on it was out and is now delivered or abandoned never
      changes again, whatever happens later. */
  lemma SettledForGood(before: seq<Action>, later: seq<Action>, k: Key)
    requires Legal(EMPTY, before) && Undisturbed(EMPTY, before, k) && Legal(After(EMPTY, before), later)
    requires k in After(EMPTY, before).rows && !After(EMPTY, before).rows[k].status.Pending?
    ensures k in After(After(EMPTY, before), later).rows
    ensures After(After(EMPTY, before), later).rows[k] == After(EMPTY, before).rows[k]
  {
    UndisturbedRun(EMPTY, before, k);
    QuietStaysSettled(After(EMPTY, before), later, k);
  }

  // ----- what happens without timely reports -----

  /** A report reads no status, so a late one can undo a settled event: a step keeps a settled
      status exactly when it is not a report that says otherwise. */
  lemma SettledExactlyUntilContradicted(s: State, a: Action, k: Key)
    requires Enabled(s, a) && k in s.rows && !s.rows[k].status.Pending?
    ensures k in Apply(s, a).rows
    ensures Apply(s, a).rows[k].status == s.rows[k].status
            <==>
            && (a.ReportFailure? && a.key == k ==> s.rows[k].status.Abandoned? && a.attempt.number >= MAX_ATTEMPTS)
            && (a.ReportDelivered? && a.key == k ==> s.rows[k].status.Delivered?)
  {
  }

  lemma {:induction false} QuietStaysSettled(s: State, actions: seq<Action>, k: Key)
    requires Legal(s, actions) && k in s.rows && !s.rows[k].status.Pending? && s.rows[k].inFlight == {}
    ensures k in After(s, actions).rows && After(s, actions).rows[k] == s.rows[k]
    decreases |actions|
  {
    if actions != [] {
      assert k in Apply(s, actions[0]).rows && Apply(s, actions[0]).rows[k] == s.rows[k];
      QuietStaysSettled(Apply(s, actions[0]), actions[1..], k);
    }
  }

  ghost predicate StatusKept(s: State, actions: seq<Action>, k: Key)
    requires Legal(s, actions) && k in s.rows
  {
    k in After(s, actions).rows && After(s, actions).rows[k].status == s.rows[k].status
  }

  /** Delivered and abandoned are final, whatever any number of runners do, exactly when no attempt on
      the event is still out. */
  lemma SettledExactlyWhenNothingIsOut(s: State, k: Key)
    requires k in s.rows && !s.rows[k].status.Pending?
    ensures (forall actions :: Legal(s, actions) ==> StatusKept(s, actions, k)) <==> s.rows[k].inFlight == {}
  {
    if s.rows[k].inFlight == {} {
      forall actions | Legal(s, actions)
        ensures StatusKept(s, actions, k)
      {
        QuietStaysSettled(s, actions, k);
      }
    } else {
      var attempt :| attempt in s.rows[k].inFlight;
      var report := if s.rows[k].status.Delivered? then ReportFailure(k, attempt) else ReportDelivered(k, attempt);
      Prepend(s, report, []);
      assert !StatusKept(s, [report] + [], k);
    }
  }

  lemma Prepend(s: State, a: Action, rest: seq<Action>)
    requires Enabled(s, a) && Legal(Apply(s, a), rest)
    ensures Legal(s, [a] + rest) && After(s, [a] + rest) == After(Apply(s, a), rest)
    ensures forall k :: Overlaps(s, [a] + rest, k)
                        == (if Overlap(s, a, k) then 1 else 0) + Overlaps(Apply(s, a), rest, k)
  {
    assert ([a] + rest)[1..] == rest;
  }

  /** Runners that die before reporting push the number of attempts past any bound: only a failure
      report ever abandons an event. Every claim but a first one overlaps. */
  lemma {:induction false} SilentRunnersExceedAnyBound(s: State, k: Key, n: nat) returns (actions: seq<Action>)
    requires k in s.rows && Due(s.rows[k], s.now)
    ensures Legal(s, actions) && k in After(s, actions).rows
    ensures After(s, actions).rows[k].status.Pending?
    ensures After(s, actions).rows[k].attempts == s.rows[k].attempts + n
    ensures Overlaps(s, actions, k) == if s.rows[k].inFlight == {} && n > 0 then n - 1 else n
    decreases n
  {
    if n == 0 {
      actions := [];
    } else {
      var s1 := Apply(s, Claim(k, true));
      var s2 := Apply(s1, Tick(CLAIM));
      assert Attempt(s.rows[k].attempts + 1, s.now) in s2.rows[k].inFlight;
      var rest := SilentRunnersExceedAnyBound(s2, k, n - 1);
      Prepend(s1, Tick(CLAIM), rest);
      Prepend(s, Claim(k, true), [Tick(CLAIM)] + rest);
      actions := [Claim(k, true)] + ([Tick(CLAIM)] + rest);
    }
  }

  /** A due event without an attempt out, after `attempts` attempts. */
  ghost predicate Retried(s: State, k: Key, attempts: nat) {
    k in s.rows && Due(s.rows[k], s.now) && s.rows[k].inFlight == {} && s.rows[k].attempts == attempts
  }

  /** Four failures in a row, each reported at once, and then `n + 1` runners that never report. */
  lemma {:induction false} FailThenFallSilent(s: State, k: Key, attempts: nat, n: nat) returns (actions: seq<Action>)
    requires attempts < MAX_ATTEMPTS && Retried(s, k, attempts)
    ensures Legal(s, actions) && k in After(s, actions).rows
    ensures After(s, actions).rows[k].attempts == MAX_ATTEMPTS + n && Overlaps(s, actions, k) == n
    decreases MAX_ATTEMPTS - attempts
  {
    if attempts == MAX_ATTEMPTS - 1 {
      actions := SilentRunnersExceedAnyBound(s, k, n + 1);
    } else {
      var attempt := Attempt(attempts + 1, s.now);
      var claim, fail := Claim(k, true), ReportFailure(k, attempt);
      var s1, wait := FailAndWait(s, k, attempts);
      hide Apply, Retried;
      var rest := FailThenFallSilent(Apply(s1, wait), k, attempts + 1, n);
      Prepend(s1, wait, rest);
      Prepend(Apply(s, claim), fail, [wait] + rest);
      Prepend(s, claim, [fail] + ([wait] + rest));
      actions := [claim] + ([fail] + ([wait] + rest));
    }
  }

  lemma FailAndWait(s: State, k: Key, attempts: nat) returns (s1: State, wait: Action)
    requires attempts < MAX_ATTEMPTS - 1 && Retried(s, k, attempts)
    ensures var claim, fail := Claim(k, true), ReportFailure(k, Attempt(attempts + 1, s.now));
            && Enabled(s, claim) && !Overlap(s, claim, k)
            && Enabled(Apply(s, claim), fail) && !Overlap(Apply(s, claim), fail, k)
            && s1 == Apply(Apply(s, claim), fail)
    ensures wait.Tick? && Retried(Apply(s1, wait), k, attempts + 1)
  {
    var attempt := Attempt(attempts + 1, s.now);
    s1 := Apply(Apply(s, Claim(k, true)), ReportFailure(k, attempt));
    assert {attempt} - {attempt} == {};
    ShortDelays(attempts + 1);
    wait := Tick(Pow2(attempts + 1) * MINUTE);
  }

  /** The bound on attempts is reached, for every number of overlapping claims. */
  lemma OverlapsReachTheBound(k: Key, n: nat) returns (actions: seq<Action>)
    ensures Legal(EMPTY, actions) && k in After(EMPTY, actions).rows && Overlaps(EMPTY, actions, k) == n
    ensures After(EMPTY, actions).rows[k].attempts == MAX_ATTEMPTS + n
  {
    var rest := FailThenFallSilent(Apply(EMPTY, Enqueue(k)), k, 0, n);
    Prepend(EMPTY, Enqueue(k), rest);
    actions := [Enqueue(k)] + rest;
  }

  /** A runner that reports a failure after its claim ran out puts an event that another runner
      delivered back in the queue. */
  lemma LateFailureUndoesDelivery(s: State, k: Key) returns (actions: seq<Action>)
    requires k in s.rows && Due(s.rows[k], s.now) && s.rows[k].attempts == 0
    ensures Legal(s, actions) && |actions| > 0 && Legal(s, actions[..|actions| - 1])
    ensures k in After(s, actions[..|actions| - 1]).rows && After(s, actions[..|actions| - 1]).rows[k].status.Delivered?
    ensures k in After(s, actions).rows && After(s, actions).rows[k].status.Pending?
  {
    var first, second := Attempt(1, s.now), Attempt(2, s.now + CLAIM);
    var claim, wait := Claim(k, true), Tick(CLAIM);
    var deliver, fail := ReportDelivered(k, second), ReportFailure(k, first);
    var s1 := Apply(s, claim);
    var s2 := Apply(s1, wait);
    var s3 := Apply(s2, claim);
    var s4 := Apply(s3, deliver);
    var short := [deliver] + [];
    Prepend(s3, deliver, []);
    Prepend(s2, claim, short);
    Prepend(s1, wait, [claim] + short);
    Prepend(s, claim, [wait] + ([claim] + short));
    var tail := [deliver] + ([fail] + []);
    Prepend(s4, fail, []);
    Prepend(s3, deliver, [fail] + []);
    Prepend(s2, claim, tail);
    Prepend(s1, wait, [claim] + tail);
    Prepend(s, claim, [wait] + ([claim] + tail));
    actions := [claim] + ([wait] + ([claim] + tail));
    assert actions[..|actions| - 1] == [claim] + ([wait] + ([claim] + short));
  }
}
