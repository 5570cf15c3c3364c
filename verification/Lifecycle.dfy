/** The durable finding history of one organisation: scan synchronisations and human updates
    move a finding between lifecycle states and write an append-only event log. */
module Lifecycle {
  import opened Common

  type Fingerprint = string
  type ScanId = nat
  type AssetId = nat

  datatype Status = Open | AcceptedRisk | Dismissed | Resolved | NeedsRevalidation

  datatype Detail = Detail(title: string, severity: string, validation: string)

  datatype Finding = Finding(asset: Option<AssetId>, detail: Detail, status: Status,
                             firstSeen: ScanId, lastSeen: ScanId)

  /** One row of the scan's findings above informational severity. */
  datatype Observation = Observation(fingerprint: Fingerprint, asset: Option<AssetId>, detail: Detail)

  datatype EventKind = Opened | Reopened | Observed | ResolvedByScan | LifecycleUpdated(status: Status)
  datatype Event = Event(fingerprint: Fingerprint, kind: EventKind)

  type Findings = map<Fingerprint, Finding>

  datatype History = History(findings: Findings, events: seq<Event>)

  // ----- one observation -----

  function Seen(findings: Findings, o: Observation, scan: ScanId): Findings {
    if o.fingerprint !in findings
    then findings[o.fingerprint := Finding(o.asset, o.detail, Open, scan, scan)]
    else
      var f := findings[o.fingerprint];
      findings[o.fingerprint := f.(asset := if o.asset.Some? then o.asset else f.asset, detail := o.detail,
                                   lastSeen := scan, status := if f.status.Resolved? then Open else f.status)]
  }

  function SeenKind(findings: Findings, fp: Fingerprint): EventKind {
    if fp !in findings then Opened
    else if findings[fp].status.Resolved? then Reopened
    else Observed
  }

  function SeenAll(findings: Findings, observed: seq<Observation>, scan: ScanId): Findings
    decreases |observed|
  {
    if observed == [] then findings
    else Seen(SeenAll(findings, observed[..|observed| - 1], scan), observed[|observed| - 1], scan)
  }

  function SeenEvents(findings: Findings, observed: seq<Observation>, scan: ScanId): (events: seq<Event>)
    ensures |events| == |observed|
    decreases |observed|
  {
    if observed == [] then []
    else
      var rest, o := observed[..|observed| - 1], observed[|observed| - 1];
      SeenEvents(findings, rest, scan)
      + [Event(o.fingerprint, SeenKind(SeenAll(findings, rest, scan), o.fingerprint))]
  }

  lemma NextSeen(findings: Findings, observed: seq<Observation>, k: nat, scan: ScanId)
    requires k < |observed|
    ensures var before, o := SeenAll(findings, observed[..k], scan), observed[k];
            && SeenAll(findings, observed[..k + 1], scan) == Seen(before, o, scan)
            && SeenEvents(findings, observed[..k + 1], scan)
               == SeenEvents(findings, observed[..k], scan) + [Event(o.fingerprint, SeenKind(before, o.fingerprint))]
  {
    assert observed[..k + 1][..k] == observed[..k];
  }

  // ----- resolution -----

  predicate Unsettled(s: Status) {
    s.Open? || s.NeedsRevalidation?
  }

  /** What a complete scan of `assets` resolves: unsettled findings there that it did not see. */
  predicate Stale(f: Finding, scan: ScanId, assets: set<AssetId>) {
    Unsettled(f.status) && f.asset.Some? && f.asset.value in assets && f.lastSeen != scan
  }

  function StaleSet(findings: Findings, scan: ScanId, assets: set<AssetId>): set<Fingerprint> {
    set fp | fp in findings && Stale(findings[fp], scan, assets)
  }

  function ResolveAll(findings: Findings, fps: set<Fingerprint>): Findings {
    map fp | fp in findings :: if fp in fps then findings[fp].(status := Resolved) else findings[fp]
  }

  function SyncFindings(findings: Findings, scan: ScanId, complete: bool, observed: seq<Observation>,
                        assets: set<AssetId>): Findings {
    var seen := SeenAll(findings, observed, scan);
    if complete then ResolveAll(seen, StaleSet(seen, scan, assets)) else seen
  }

  function ResolvedEvents(fps: seq<Fingerprint>): (events: seq<Event>)
    ensures |events| == |fps|
  {
    seq(|fps|, i requires 0 <= i < |fps| => Event(fps[i], ResolvedByScan))
  }

  /** A synchronisation: the new rows, and the events it appended. The order in which the
      database returns the resolved rows is open. */
  ghost predicate Synced(h: History, h': History, scan: ScanId, complete: bool, observed: seq<Observation>,
                         assets: set<AssetId>, resolved: seq<Fingerprint>)
  {
    && h'.findings == SyncFindings(h.findings, scan, complete, observed, assets)
    && Distinct(resolved)
    && SetOf(resolved) == (if complete then StaleSet(SeenAll(h.findings, observed, scan), scan, assets) else {})
    && h'.events == h.events + SeenEvents(h.findings, observed, scan) + ResolvedEvents(resolved)
  }

  /** A human update: any status but resolved. */
  ghost predicate HumanUpdate(h: History, h': History, fp: Fingerprint, status: Status) {
    && fp in h.findings && !status.Resolved?
    && h'.findings == h.findings[fp := h.findings[fp].(status := status)]
    && h'.events == h.events + [Event(fp, LifecycleUpdated(status))]
  }

  class ExposureStore {
    var findings: Findings
    var events: seq<Event>

    constructor ()
      ensures State() == History(map[], [])
    {
      findings := map[];
      events := [];
    }

    function State(): History
      reads this
    {
      History(findings, events)
    }

    /** sync_scan_finding_lifecycle. */
    method SyncScan(scan: ScanId, complete: bool, observed: seq<Observation>, assets: set<AssetId>)
      returns (resolved: seq<Fingerprint>)
      modifies this
      ensures Synced(old(State()), State(), scan, complete, observed, assets, resolved)
      ensures RowsWritten(old(findings), findings, scan, complete, observed, assets)
      ensures exists seen, gone ::
                && events == old(events) + seen + gone && SeenKinds(old(findings), observed, seen)
                && ResolvedKinds(old(findings), observed, scan, complete, assets, gone)
    {
      RecordObserved(scan, observed);
      resolved := [];
      if complete {
        resolved := ResolveStale(scan, assets);
      } else {
        assert events == events + ResolvedEvents([]);
      }
      SyncByColumns(old(State()), State(), scan, complete, observed, assets, resolved);
      hide RowsWritten, SeenKinds, ResolvedKinds;
    }

    /** One row and one event per observation, in their order. */
    method RecordObserved(scan: ScanId, observed: seq<Observation>)
      modifies this
      ensures findings == SeenAll(old(findings), observed, scan)
      ensures events == old(events) + SeenEvents(old(findings), observed, scan)
    {
      for k := 0 to |observed|
        invariant findings == SeenAll(old(findings), observed[..k], scan)
        invariant events == old(events) + SeenEvents(old(findings), observed[..k], scan)
      {
        hide SeenAll, SeenEvents;
        NextSeen(old(findings), observed, k, scan);
        var o := observed[k];
        var kind := Opened;
        if o.fingerprint in findings {
          var previous := findings[o.fingerprint];
          kind := if previous.status.Resolved? then Reopened else Observed;
          findings := findings[o.fingerprint := previous.(
                        asset := if o.asset.Some? then o.asset else previous.asset,
                        detail := o.detail, lastSeen := scan,
                        status := if previous.status.Resolved? then Open else previous.status)];
        } else {
          findings := findings[o.fingerprint := Finding(o.asset, o.detail, Open, scan, scan)];
        }
        events := events + [Event(o.fingerprint, kind)];
      }
      assert observed[..|observed|] == observed;
    }

    /** The lifecycle step that only a complete scan may take. */
    method ResolveStale(scan: ScanId, assets: set<AssetId>) returns (resolved: seq<Fingerprint>)
      modifies this
      ensures Distinct(resolved) && SetOf(resolved) == StaleSet(old(findings), scan, assets)
      ensures findings == ResolveAll(old(findings), StaleSet(old(findings), scan, assets))
      ensures events == old(events) + ResolvedEvents(resolved)
    {
      var stale := StaleSet(findings, scan, assets);
      var todo := stale;
      findings := ResolveAll(findings, stale);
      resolved := [];
      while todo != {}
        invariant todo <= stale && Distinct(resolved) && SetOf(resolved) == stale - todo
        invariant findings == ResolveAll(old(findings), stale)
        invariant events == old(events) + ResolvedEvents(resolved)
        decreases todo
      {
        var fp :| fp in todo;
        assert fp !in SetOf(resolved);
        assert ResolvedEvents(resolved + [fp]) == ResolvedEvents(resolved) + [Event(fp, ResolvedByScan)];
        SetOfAppend(resolved, fp);
        events := events + [Event(fp, ResolvedByScan)];
        resolved := resolved + [fp];
        todo := todo - {fp};
      }
    }

    /** update_exposure_finding_lifecycle. */
    method UpdateLifecycle(fp: Fingerprint, status: Status) returns (found: bool)
      requires !status.Resolved?
      modifies this
      ensures found <==> fp in old(findings)
      ensures !found ==> State() == old(State())
      ensures found ==> HumanUpdate(old(State()), State(), fp, status)
      ensures found ==> fp in findings && findings[fp].status == status
                        && findings == old(findings)[fp := old(findings)[fp].(status := status)]
                        && |events| == |old(events)| + 1 && old(events) <= events
                        && events[|events| - 1].kind == LifecycleUpdated(status)
                        && events[|events| - 1].fingerprint == fp
    {
      found := fp in findings;
      if found {
        findings := findings[fp := findings[fp].(status := status)];
        events := events + [Event(fp, LifecycleUpdated(status))];
      }
    }
  }

  // ----- replay -----

  function ReplayOne(status: Option<Status>, kind: EventKind): Option<Status> {
    match kind
    case Opened => Some(Open)
    case Reopened => Some(Open)
    case Observed => status
    case ResolvedByScan => Some(Resolved)
    case LifecycleUpdated(s) => Some(s)
  }

  /** The lifecycle status that the log alone gives to a finding. */
  function Replay(events: seq<Event>, fp: Fingerprint): Option<Status>
    decreases |events|
  {
    if events == [] then None
    else
      var before, e := Replay(events[..|events| - 1], fp), events[|events| - 1];
      if e.fingerprint == fp then ReplayOne(before, e.kind) else before
  }

  function Stored(findings: Findings, fp: Fingerprint): Option<Status> {
    if fp in findings then Some(findings[fp].status) else None
  }

  /** Which event may follow when the log so far gives a finding `status`. */
  predicate Follows(status: Option<Status>, kind: EventKind) {
    match kind
    case Opened => status.None?
    case Reopened => status == Some(Resolved)
    case Observed => status.Some? && !status.value.Resolved?
    case ResolvedByScan => status.Some? && Unsettled(status.value)
    case LifecycleUpdated(s) => status.Some? && !s.Resolved?
  }

  ghost predicate WellFormedLog(events: seq<Event>)
    decreases |events|
  {
    events != [] ==>
      var before, e := events[..|events| - 1], events[|events| - 1];
      WellFormedLog(before) && Follows(Replay(before, e.fingerprint), e.kind)
  }

  /** The log explains the rows, and every event in it was possible where it stands. */
  ghost predicate Faithful(h: History) {
    (forall fp :: Replay(h.events, fp) == Stored(h.findings, fp)) && WellFormedLog(h.events)
  }

  lemma AppendEvent(h: History, e: Event, findings: Findings)
    requires Faithful(h) && Follows(Stored(h.findings, e.fingerprint), e.kind)
    requires forall fp :: Stored(findings, fp)
                          == if fp == e.fingerprint then ReplayOne(Stored(h.findings, fp), e.kind)
                             else Stored(h.findings, fp)
    ensures Faithful(History(findings, h.events + [e]))
  {
    var events := h.events + [e];
    assert events[..|events| - 1] == h.events;
    assert Replay(h.events, e.fingerprint) == Stored(h.findings, e.fingerprint);
    forall fp
      ensures Replay(events, fp) == Stored(findings, fp)
    {
      assert Replay(h.events, fp) == Stored(h.findings, fp);
    }
  }

  lemma {:induction false} SeenAllFaithful(h: History, observed: seq<Observation>, scan: ScanId)
    requires Faithful(h)
    ensures Faithful(History(SeenAll(h.findings, observed, scan), h.events + SeenEvents(h.findings, observed, scan)))
    decreases |observed|
  {
    if observed == [] {
      assert h.events + [] == h.events;
    } else {
      var rest, o := observed[..|observed| - 1], observed[|observed| - 1];
      SeenAllFaithful(h, rest, scan);
      var mid := History(SeenAll(h.findings, rest, scan), h.events + SeenEvents(h.findings, rest, scan));
      var e := Event(o.fingerprint, SeenKind(mid.findings, o.fingerprint));
      AppendEvent(mid, e, SeenAll(h.findings, observed, scan));
      assert mid.events + [e] == h.events + SeenEvents(h.findings, observed, scan);
    }
  }

  lemma {:induction false} ResolvedFaithful(h: History, resolved: seq<Fingerprint>)
    requires Faithful(h) && Distinct(resolved)
    requires forall fp :: fp in resolved ==> fp in h.findings && Unsettled(h.findings[fp].status)
    ensures Faithful(History(ResolveAll(h.findings, SetOf(resolved)), h.events + ResolvedEvents(resolved)))
    decreases |resolved|
  {
    if resolved == [] {
      assert h.events + ResolvedEvents([]) == h.events;
      assert ResolveAll(h.findings, {}) == h.findings;
    } else {
      var n := |resolved| - 1;
      var rest, fp := resolved[..n], resolved[n];
      ResolvedFaithful(h, rest);
      var mid := History(ResolveAll(h.findings, SetOf(rest)), h.events + ResolvedEvents(rest));
      assert fp !in rest;
      assert mid.findings[fp] == h.findings[fp];
      ResolveOneMore(h.findings, rest, fp);
      assert resolved == rest + [fp];
      AppendEvent(mid, Event(fp, ResolvedByScan), ResolveAll(h.findings, SetOf(resolved)));
      assert ResolvedEvents(resolved) == ResolvedEvents(rest) + [Event(fp, ResolvedByScan)];
      assert mid.events + [Event(fp, ResolvedByScan)] == h.events + ResolvedEvents(resolved);
    }
  }

  lemma ResolveOneMore(findings: Findings, rest: seq<Fingerprint>, fp: Fingerprint)
    requires fp in findings
    ensures forall x :: Stored(ResolveAll(findings, SetOf(rest + [fp])), x)
                        == if x == fp then Some(Resolved) else Stored(ResolveAll(findings, SetOf(rest)), x)
  {
    SetOfAppend(rest, fp);
  }

  /** A synchronisation keeps the log faithful. */
  lemma SyncKeepsLogFaithful(h: History, h': History, scan: ScanId, complete: bool, observed: seq<Observation>,
                             assets: set<AssetId>, resolved: seq<Fingerprint>)
    requires Faithful(h) && Synced(h, h', scan, complete, observed, assets, resolved)
    ensures Faithful(h')
  {
    SeenAllFaithful(h, observed, scan);
    var mid := History(SeenAll(h.findings, observed, scan), h.events + SeenEvents(h.findings, observed, scan));
    if complete {
      assert forall fp :: fp in resolved ==> fp in SetOf(resolved);
      ResolvedFaithful(mid, resolved);
    } else {
      DistinctCardinality(resolved);
      assert resolved == [];
      assert h'.events == mid.events;
    }
  }

  lemma HumanUpdateKeepsLogFaithful(h: History, h': History, fp: Fingerprint, status: Status)
    requires Faithful(h) && HumanUpdate(h, h', fp, status)
    ensures Faithful(h')
  {
    AppendEvent(h, Event(fp, LifecycleUpdated(status)), h'.findings);
  }

  // ----- runs -----

  datatype Change =
    | Sync(scan: ScanId, complete: bool, observed: seq<Observation>, assets: set<AssetId>, resolved: seq<Fingerprint>)
    | Update(fingerprint: Fingerprint, status: Status)

  ghost predicate Step(h: History, c: Change, h': History) {
    match c
    case Sync(scan, complete, observed, assets, resolved) => Synced(h, h', scan, complete, observed, assets, resolved)
    case Update(fp, status) => HumanUpdate(h, h', fp, status)
  }

  ghost predicate Run(states: seq<History>, changes: seq<Change>) {
    && |states| == |changes| + 1
    && states[0] == History(map[], [])
    && forall i :: 0 <= i < |changes| ==> Step(states[i], changes[i], states[i + 1])
  }

  /** After any sequence of synchronisations and human updates, replaying the event log gives
      every finding its stored status, and each event was possible where it stands: opened only
      once, reopened only from resolved, resolved only from open or needs-revalidation. */
  lemma {:induction false} LogExplainsState(states: seq<History>, changes: seq<Change>)
    requires Run(states, changes)
    ensures Faithful(states[|changes|])
    decreases |changes|
  {
    if changes != [] {
      var n := |changes| - 1;
      var before, earlier := states[..|states| - 1], changes[..n];
      assert Run(before, earlier) by {
        forall i | 0 <= i < n
          ensures Step(before[i], earlier[i], before[i + 1])
        {
          assert Step(states[i], changes[i], states[i + 1]);
        }
      }
      LogExplainsState(before, earlier);
      assert Step(states[n], changes[n], states[n + 1]);
      match changes[n]
      case Sync(scan, complete, observed, assets, resolved) =>
        SyncKeepsLogFaithful(states[n], states[n + 1], scan, complete, observed, assets, resolved);
      case Update(fp, status) => HumanUpdateKeepsLogFaithful(states[n], states[n + 1], fp, status);
    }
  }

  /** Every event of a well-formed log was possible where it stands; in particular a finding is
      reopened only where the log so far says resolved, and opened only where it is unknown. */
  lemma {:induction false} EveryEventFollows(events: seq<Event>, i: nat)
    requires WellFormedLog(events) && i < |events|
    ensures Follows(Replay(events[..i], events[i].fingerprint), events[i].kind)
    ensures events[i].kind.Reopened? ==> Replay(events[..i], events[i].fingerprint) == Some(Resolved)
    decreases |events|
  {
    var n := |events| - 1;
    if i < n {
      EveryEventFollows(events[..n], i);
      assert events[..n][..i] == events[..i];
    }
  }

  // ----- what one synchronisation does to the rows -----

  predicate IsObserved(observed: seq<Observation>, fp: Fingerprint) {
    exists i :: 0 <= i < |observed| && observed[i].fingerprint == fp
  }

  /** The asset a finding is left with: the last one named, else the one it had. */
  function MergedAsset(observed: seq<Observation>, fp: Fingerprint, asset: Option<AssetId>): Option<AssetId>
    decreases |observed|
  {
    if observed == [] then asset
    else
      var o := observed[|observed| - 1];
      if o.fingerprint == fp && o.asset.Some? then o.asset else MergedAsset(observed[..|observed| - 1], fp, asset)
  }

  function LastDetail(observed: seq<Observation>, fp: Fingerprint, detail: Detail): Detail
    decreases |observed|
  {
    if observed == [] then detail
    else
      var o := observed[|observed| - 1];
      if o.fingerprint == fp then o.detail else LastDetail(observed[..|observed| - 1], fp, detail)
  }

  lemma {:induction false} MergeTwice(observed: seq<Observation>, fp: Fingerprint, asset: Option<AssetId>)
    ensures MergedAsset(observed, fp, MergedAsset(observed, fp, asset)) == MergedAsset(observed, fp, asset)
    decreases |observed|
  {
    if observed != [] {
      MergeTwice(observed[..|observed| - 1], fp, asset);
    }
  }

  lemma {:induction false} LastDetailFixed(observed: seq<Observation>, fp: Fingerprint, a: Detail, b: Detail)
    requires IsObserved(observed, fp)
    ensures LastDetail(observed, fp, a) == LastDetail(observed, fp, b)
    decreases |observed|
  {
    var n := |observed| - 1;
    if observed[n].fingerprint != fp {
      var i :| 0 <= i < |observed| && observed[i].fingerprint == fp;
      assert observed[..n][i].fingerprint == fp;
      LastDetailFixed(observed[..n], fp, a, b);
    }
  }

  /** The row a finding has after all observations of a scan. */
  lemma {:induction false} SeenAllRow(findings: Findings, observed: seq<Observation>, scan: ScanId, fp: Fingerprint)
    ensures fp in SeenAll(findings, observed, scan) <==> fp in findings || IsObserved(observed, fp)
    ensures !IsObserved(observed, fp) && fp in findings ==> SeenAll(findings, observed, scan)[fp] == findings[fp]
    ensures IsObserved(observed, fp) && fp in findings ==>
              var f, f' := findings[fp], SeenAll(findings, observed, scan)[fp];
              f' == Finding(MergedAsset(observed, fp, f.asset), LastDetail(observed, fp, f.detail),
                            if f.status.Resolved? then Open else f.status, f.firstSeen, scan)
    ensures IsObserved(observed, fp) && fp !in findings ==>
              var f' := SeenAll(findings, observed, scan)[fp];
              f'.status.Open? && f'.firstSeen == scan && f'.lastSeen == scan
              && f'.asset == MergedAsset(observed, fp, None)
              && forall d :: LastDetail(observed, fp, d) == f'.detail
    decreases |observed|
  {
    if observed != [] {
      var n := |observed| - 1;
      var rest, o := observed[..n], observed[n];
      SeenAllRow(findings, rest, scan, fp);
      assert IsObserved(observed, fp) <==> IsObserved(rest, fp) || o.fingerprint == fp by {
        if i :| 0 <= i < |observed| && observed[i].fingerprint == fp {
          assert i == n || rest[i].fingerprint == fp;
        }
        if i :| 0 <= i < |rest| && rest[i].fingerprint == fp {
          assert observed[i].fingerprint == fp;
        }
      }
      if !IsObserved(rest, fp) {
        MergedUntouched(rest, fp);
      }
    }
  }

  lemma {:induction false} MergedUntouched(observed: seq<Observation>, fp: Fingerprint)
    requires !IsObserved(observed, fp)
    ensures forall a :: MergedAsset(observed, fp, a) == a
    decreases |observed|
  {
    if observed != [] {
      var n := |observed| - 1;
      assert observed[n].fingerprint != fp;
      assert forall i :: 0 <= i < n ==> observed[..n][i] == observed[i];
      assert !IsObserved(observed[..n], fp);
      MergedUntouched(observed[..n], fp);
    }
  }

  /** After a complete synchronisation nothing the scan saw is resolved, and every unsettled
      finding on the scan's assets was last seen in that scan. */
  lemma CompleteSyncIsClean(findings: Findings, scan: ScanId, observed: seq<Observation>, assets: set<AssetId>,
                            fp: Fingerprint)
    requires fp in SyncFindings(findings, scan, true, observed, assets)
    ensures var f := SyncFindings(findings, scan, true, observed, assets)[fp];
            && (IsObserved(observed, fp) ==> !f.status.Resolved? && f.lastSeen == scan)
            && (Unsettled(f.status) && f.asset.Some? && f.asset.value in assets ==> f.lastSeen == scan)
  {
    SeenAllRow(findings, observed, scan, fp);
  }

  /** No synchronisation changes a decision to accept or dismiss, and none resolves anything
      unless its scan was complete. */
  lemma SyncRespectsDecisions(findings: Findings, scan: ScanId, complete: bool, observed: seq<Observation>,
                              assets: set<AssetId>, fp: Fingerprint)
    requires fp in findings
    ensures fp in SyncFindings(findings, scan, complete, observed, assets)
    ensures var f, f' := findings[fp], SyncFindings(findings, scan, complete, observed, assets)[fp];
            && (f.status.AcceptedRisk? || f.status.Dismissed? ==> f'.status == f.status)
            && (f'.status.AcceptedRisk? || f'.status.Dismissed? ==> f'.status == f.status)
            && (!complete && f'.status.Resolved? ==> f.status.Resolved? && !IsObserved(observed, fp))
            && (f'.status != f.status ==> f'.status.Open? || f'.status.Resolved?)
  {
    SeenAllRow(findings, observed, scan, fp);
  }

  /** Synchronising the same scan twice leaves the rows exactly as synchronising it once. */
  lemma SyncTwiceIsOnce(findings: Findings, scan: ScanId, complete: bool, observed: seq<Observation>,
                        assets: set<AssetId>)
    ensures SyncFindings(SyncFindings(findings, scan, complete, observed, assets), scan, complete, observed, assets)
            == SyncFindings(findings, scan, complete, observed, assets)
  {
    var once := SyncFindings(findings, scan, complete, observed, assets);
    var again := SeenAll(once, observed, scan);
    forall fp
      ensures fp in again <==> fp in once
      ensures fp in once ==> again[fp] == once[fp]
    {
      SeenAgain(findings, scan, complete, observed, assets, fp);
    }
    assert again == once;
    if complete {
      assert StaleSet(once, scan, assets) == {};
      assert ResolveAll(once, {}) == once;
    }
  }

  lemma SeenAgain(findings: Findings, scan: ScanId, complete: bool, observed: seq<Observation>, assets: set<AssetId>,
                  fp: Fingerprint)
    ensures var once := SyncFindings(findings, scan, complete, observed, assets);
            var again := SeenAll(once, observed, scan);
            (fp in again <==> fp in once) && (fp in once ==> again[fp] == once[fp])
  {
    var once := SyncFindings(findings, scan, complete, observed, assets);
    SeenAllRow(findings, observed, scan, fp);
    SeenAllRow(once, observed, scan, fp);
    if IsObserved(observed, fp) {
      MergeTwice(observed, fp, if fp in findings then findings[fp].asset else None);
      LastDetailFixed(observed, fp, once[fp].detail, if fp in findings then findings[fp].detail else once[fp].detail);
    }
  }

  // ----- a scan that is synchronised late -----

  ghost predicate KeepsStatuses(findings: Findings, findings': Findings) {
    forall fp :: fp in findings ==> fp in findings' && findings'[fp].status == findings[fp].status
  }

  /** Whatever happened before, a complete synchronisation leaves every status as it was exactly when nothing
      the scan saw is resolved and nothing else on its assets is unsettled, unless last seen in it. */
  lemma SyncKeepsStatusesExactlyWhen(findings: Findings, scan: ScanId, observed: seq<Observation>,
                                     assets: set<AssetId>)
    ensures KeepsStatuses(findings, SyncFindings(findings, scan, true, observed, assets))
            <==> forall fp :: fp in findings ==>
                   if IsObserved(observed, fp) then !findings[fp].status.Resolved?
                   else !Stale(findings[fp], scan, assets)
  {
    var after := SyncFindings(findings, scan, true, observed, assets);
    forall fp | fp in findings
      ensures fp in after
      ensures after[fp].status == findings[fp].status
              <==> if IsObserved(observed, fp) then !findings[fp].status.Resolved?
                   else !Stale(findings[fp], scan, assets)
    {
      SeenAllRow(findings, observed, scan, fp);
    }
  }

  /** Scan `a` is synchronised, then scan `b`, and then a runner of `a` finalises it again: of what only `b`
      saw, and left open, this resolves exactly what is unsettled on the assets of `a`. */
  lemma LateSyncResolvesWhatOnlyTheOtherSaw(findings: Findings, a: ScanId, seenA: seq<Observation>,
                                            assetsA: set<AssetId>, b: ScanId, seenB: seq<Observation>,
                                            assetsB: set<AssetId>, fp: Fingerprint)
    requires a != b && IsObserved(seenB, fp) && !IsObserved(seenA, fp)
    ensures var current := SyncFindings(SyncFindings(findings, a, true, seenA, assetsA), b, true, seenB, assetsB);
            var late := SyncFindings(current, a, true, seenA, assetsA);
            && fp in current && !current[fp].status.Resolved? && current[fp].lastSeen == b && fp in late
            && (late[fp].status.Resolved?
                <==> Unsettled(current[fp].status) && current[fp].asset.Some? && current[fp].asset.value in assetsA)
            && (!late[fp].status.Resolved? ==> late[fp].status == current[fp].status)
  {
    var first := SyncFindings(findings, a, true, seenA, assetsA);
    var current := SyncFindings(first, b, true, seenB, assetsB);
    SeenAllRow(first, seenB, b, fp);
    SeenAllRow(current, seenA, a, fp);
  }

  /** So a late synchronisation can resolve a finding that the latest complete scan has just opened. */
  lemma LateSyncResolvesAnOpenFinding(a: ScanId, b: ScanId, fp: Fingerprint, asset: AssetId, detail: Detail)
    requires a != b
    ensures var seen := [Observation(fp, Some(asset), detail)];
            var current := SyncFindings(SyncFindings(map[], a, true, [], {asset}), b, true, seen, {asset});
            var late := SyncFindings(current, a, true, [], {asset});
            && fp in current && current[fp].status.Open? && fp in late && late[fp].status.Resolved?
  {
    var seen := [Observation(fp, Some(asset), detail)];
    assert seen[0].fingerprint == fp;
    LateSyncResolvesWhatOnlyTheOtherSaw(map[], a, [], {asset}, b, seen, {asset}, fp);
    var first := SyncFindings(map[], a, true, [], {asset});
    SeenAllRow(first, seen, b, fp);
    assert seen[..0] == [];
  }

  // ----- one synchronisation, told by the columns -----

  /** The last observation of a finding is number `k`. */
  ghost predicate IsLast(observed: seq<Observation>, fp: Fingerprint, k: nat) {
    && k < |observed| && observed[k].fingerprint == fp
    && forall i :: k < i < |observed| ==> observed[i].fingerprint != fp
  }

  /** The asset is the last one that an observation of the finding names, or the one from before. */
  ghost predicate LastNamed(observed: seq<Observation>, fp: Fingerprint, before: Option<AssetId>,
                            after: Option<AssetId>)
  {
    || (after == before
        && forall i :: 0 <= i < |observed| && observed[i].fingerprint == fp ==> observed[i].asset == None)
    || (exists k :: 0 <= k < |observed| && observed[k].fingerprint == fp && observed[k].asset.Some?
                    && after == observed[k].asset
                    && forall i :: k < i < |observed| && observed[i].fingerprint == fp ==> observed[i].asset == None)
  }

  lemma {:induction false} MergedIsLastNamed(observed: seq<Observation>, fp: Fingerprint, asset: Option<AssetId>)
    ensures LastNamed(observed, fp, asset, MergedAsset(observed, fp, asset))
    decreases |observed|
  {
    if observed != [] {
      var n := |observed| - 1;
      var init := observed[..n];
      MergedIsLastNamed(init, fp, asset);
      if !(observed[n].fingerprint == fp && observed[n].asset.Some?) {
        if k :| 0 <= k < |init| && init[k].fingerprint == fp && init[k].asset.Some?
                && MergedAsset(init, fp, asset) == init[k].asset
                && forall i :: k < i < |init| && init[i].fingerprint == fp ==> init[i].asset == None {
          assert observed[k] == init[k];
          assert forall i :: k < i < n ==> observed[i] == init[i];
        } else {
          assert forall i :: 0 <= i < n ==> observed[i] == init[i];
        }
      }
    }
  }

  lemma {:induction false} LastDetailIsLast(observed: seq<Observation>, fp: Fingerprint, detail: Detail)
    requires IsObserved(observed, fp)
    ensures exists k: nat :: IsLast(observed, fp, k) && LastDetail(observed, fp, detail) == observed[k].detail
    decreases |observed|
  {
    var n := |observed| - 1;
    if observed[n].fingerprint == fp {
      assert IsLast(observed, fp, n);
    } else {
      var i :| 0 <= i < |observed| && observed[i].fingerprint == fp;
      var init := observed[..n];
      assert init[i].fingerprint == fp;
      LastDetailIsLast(init, fp, detail);
      assert LastDetail(observed, fp, detail) == LastDetail(init, fp, detail);
      hide LastDetail, IsObserved;
      var k: nat :| IsLast(init, fp, k) && LastDetail(init, fp, detail) == init[k].detail;
      LastOfMore(observed, fp, k);
    }
  }

  lemma LastOfMore(observed: seq<Observation>, fp: Fingerprint, k: nat)
    requires observed != [] && observed[|observed| - 1].fingerprint != fp
    requires IsLast(observed[..|observed| - 1], fp, k)
    ensures IsLast(observed, fp, k)
  {
    var init := observed[..|observed| - 1];
    assert forall j :: 0 <= j < |init| ==> observed[j] == init[j];
  }

  /** The row an observed finding is left with. */
  ghost predicate ObservedRow(findings: Findings, observed: seq<Observation>, scan: ScanId, fp: Fingerprint,
                              f': Finding)
  {
    && f'.lastSeen == scan
    && (exists k: nat :: IsLast(observed, fp, k) && f'.detail == observed[k].detail)
    && if fp in findings
       then
         && f'.firstSeen == findings[fp].firstSeen && LastNamed(observed, fp, findings[fp].asset, f'.asset)
         && f'.status == if findings[fp].status.Resolved? then Open else findings[fp].status
       else f'.firstSeen == scan && LastNamed(observed, fp, None, f'.asset) && f'.status == Open
  }

  /** What a complete scan of `assets` resolves. */
  ghost predicate GoesAway(f: Finding, scan: ScanId, assets: set<AssetId>) {
    && (f.status.Open? || f.status.NeedsRevalidation?)
    && f.asset.Some? && f.asset.value in assets && f.lastSeen != scan
  }

  /** The rows after a synchronisation: observed findings are updated, and of the others a complete scan resolves
      exactly those that go away; nothing else changes. */
  ghost predicate RowsWritten(findings: Findings, findings': Findings, scan: ScanId, complete: bool,
                              observed: seq<Observation>, assets: set<AssetId>)
  {
    forall fp ::
      && (fp in findings' <==> fp in findings || IsObserved(observed, fp))
      && (fp in findings' ==>
            if IsObserved(observed, fp) then ObservedRow(findings, observed, scan, fp, findings'[fp])
            else findings'[fp] == if complete && GoesAway(findings[fp], scan, assets)
                                  then findings[fp].(status := Resolved) else findings[fp])
  }

  /** An observation opens an unknown finding, reopens a resolved one, and otherwise just sees it; what an earlier
      observation of the same scan opened or reopened is just seen. */
  ghost predicate SeenKinds(findings: Findings, observed: seq<Observation>, events: seq<Event>) {
    && |events| == |observed|
    && forall k :: 0 <= k < |observed| ==> SeenAs(findings, observed, k, events[k])
  }

  ghost predicate SeenAs(findings: Findings, observed: seq<Observation>, k: nat, e: Event)
    requires k < |observed|
  {
    var fp := observed[k].fingerprint;
    var again := exists i :: 0 <= i < k && observed[i].fingerprint == fp;
    && e.fingerprint == fp
    && (e.kind == Opened <==> !again && fp !in findings)
    && (e.kind == Reopened <==> !again && fp in findings && findings[fp].status.Resolved?)
    && (e.kind == Observed <==> again || (fp in findings && !findings[fp].status.Resolved?))
  }

  lemma SeenAsBefore(findings: Findings, observed: seq<Observation>, n: nat, k: nat, e: Event)
    requires k < n <= |observed|
    ensures SeenAs(findings, observed[..n], k, e) <==> SeenAs(findings, observed, k, e)
  {
    assert forall i :: 0 <= i < n ==> observed[..n][i] == observed[i];
  }

  /** One event for every finding that goes away, and for no other. */
  ghost predicate ResolvedKinds(findings: Findings, observed: seq<Observation>, scan: ScanId, complete: bool,
                                assets: set<AssetId>, events: seq<Event>)
  {
    && (forall j :: 0 <= j < |events| ==> events[j].kind == ResolvedByScan)
    && (forall i, j :: 0 <= i < j < |events| ==> events[i].fingerprint != events[j].fingerprint)
    && forall fp :: HasEvent(events, fp) <==> complete && fp in findings && GoesAway(findings[fp], scan, assets)
                                              && !IsObserved(observed, fp)
  }

  ghost predicate HasEvent(events: seq<Event>, fp: Fingerprint) {
    exists j :: 0 <= j < |events| && events[j].fingerprint == fp
  }

  lemma RowsByColumns(findings: Findings, scan: ScanId, complete: bool, observed: seq<Observation>,
                      assets: set<AssetId>)
    ensures RowsWritten(findings, SyncFindings(findings, scan, complete, observed, assets), scan, complete, observed,
                        assets)
  {
    var after := SyncFindings(findings, scan, complete, observed, assets);
    forall fp
      ensures fp in after <==> fp in findings || IsObserved(observed, fp)
      ensures fp in after ==>
                if IsObserved(observed, fp) then ObservedRow(findings, observed, scan, fp, after[fp])
                else after[fp] == if complete && GoesAway(findings[fp], scan, assets)
                                  then findings[fp].(status := Resolved) else findings[fp]
    {
      RowByColumns(findings, scan, complete, observed, assets, fp);
    }
  }

  lemma RowByColumns(findings: Findings, scan: ScanId, complete: bool, observed: seq<Observation>,
                     assets: set<AssetId>, fp: Fingerprint)
    ensures var after := SyncFindings(findings, scan, complete, observed, assets);
            && (fp in after <==> fp in findings || IsObserved(observed, fp))
            && (fp in after ==>
                  if IsObserved(observed, fp) then ObservedRow(findings, observed, scan, fp, after[fp])
                  else after[fp] == if complete && GoesAway(findings[fp], scan, assets)
                                    then findings[fp].(status := Resolved) else findings[fp])
  {
    SeenAllRow(findings, observed, scan, fp);
    if IsObserved(observed, fp) {
      var seen := SeenAll(findings, observed, scan)[fp];
      var known := fp in findings;
      MergedIsLastNamed(observed, fp, if known then findings[fp].asset else None);
      LastDetailIsLast(observed, fp, if known then findings[fp].detail else seen.detail);
    }
  }

  lemma {:induction false} SeenByColumns(findings: Findings, observed: seq<Observation>, scan: ScanId)
    ensures SeenKinds(findings, observed, SeenEvents(findings, observed, scan))
    decreases |observed|
  {
    if observed != [] {
      var n := |observed| - 1;
      var init, fp := observed[..n], observed[n].fingerprint;
      SeenByColumns(findings, init, scan);
      var events, before := SeenEvents(findings, observed, scan), SeenEvents(findings, init, scan);
      assert events == before + [Event(fp, SeenKind(SeenAll(findings, init, scan), fp))];
      LastSeenAs(findings, observed, scan);
      hide SeenAll, SeenEvents, SeenAs, SeenKind;
      forall k | 0 <= k < |observed|
        ensures SeenAs(findings, observed, k, events[k])
      {
        if k < n {
          assert SeenAs(findings, init, k, before[k]);
          SeenAsBefore(findings, observed, n, k, before[k]);
        }
      }
    }
  }

  lemma LastSeenAs(findings: Findings, observed: seq<Observation>, scan: ScanId)
    requires observed != []
    ensures var n := |observed| - 1;
            var fp := observed[n].fingerprint;
            SeenAs(findings, observed, n, Event(fp, SeenKind(SeenAll(findings, observed[..n], scan), fp)))
  {
    var n := |observed| - 1;
    var init, fp := observed[..n], observed[n].fingerprint;
    SeenAllRow(findings, init, scan, fp);
    assert forall i :: 0 <= i < n ==> init[i] == observed[i];
    assert IsObserved(init, fp) <==> exists i :: 0 <= i < n && observed[i].fingerprint == fp;
    hide SeenAll;
  }

  lemma ResolvedByColumns(findings: Findings, scan: ScanId, complete: bool, observed: seq<Observation>,
                          assets: set<AssetId>, resolved: seq<Fingerprint>)
    requires Distinct(resolved)
    requires SetOf(resolved) == if complete then StaleSet(SeenAll(findings, observed, scan), scan, assets) else {}
    ensures ResolvedKinds(findings, observed, scan, complete, assets, ResolvedEvents(resolved))
  {
    var events := ResolvedEvents(resolved);
    forall fp
      ensures HasEvent(events, fp)
              <==> complete && fp in findings && GoesAway(findings[fp], scan, assets) && !IsObserved(observed, fp)
    {
      SeenAllRow(findings, observed, scan, fp);
      if j :| 0 <= j < |events| && events[j].fingerprint == fp {
        assert resolved[j] == fp && fp in SetOf(resolved);
      }
      if fp in SetOf(resolved) {
        var j :| 0 <= j < |resolved| && resolved[j] == fp;
        assert events[j].fingerprint == fp;
      }
    }
    assert forall j :: 0 <= j < |events| ==> events[j] == Event(resolved[j], ResolvedByScan);
    hide StaleSet, ResolvedEvents, GoesAway, HasEvent, IsObserved;
  }

  /** Everything a synchronisation writes. */
  lemma SyncByColumns(h: History, h': History, scan: ScanId, complete: bool, observed: seq<Observation>,
                      assets: set<AssetId>, resolved: seq<Fingerprint>)
    requires Synced(h, h', scan, complete, observed, assets, resolved)
    ensures RowsWritten(h.findings, h'.findings, scan, complete, observed, assets)
    ensures exists seen, gone ::
              && h'.events == h.events + seen + gone && SeenKinds(h.findings, observed, seen)
              && ResolvedKinds(h.findings, observed, scan, complete, assets, gone)
  {
    RowsByColumns(h.findings, scan, complete, observed, assets);
    SeenByColumns(h.findings, observed, scan);
    ResolvedByColumns(h.findings, scan, complete, observed, assets, resolved);
  }
}
