/** Scoring of scan findings against a labelled vulnerability benchmark. */
module Benchmark {
  import opened Common
  import opened Metrics = Classification
  import opened Grades

  datatype Profile = Light | Medium | Aggressive | Other(name: string)

  datatype Case = Case(id: Id, positive: bool, profiles: set<Profile>, evidence: set<Id>)

  datatype Observation = Observation(id: Id, caseId: Option<Id>, evidence: set<Id>)

  datatype BenchmarkError = DatasetVersionRequired | NoApplicableCase
                          | DuplicateCase | DuplicateObservation | UnknownProfile

  datatype Score = Score(
    tp: nat, fp: nat, fn: nat, tn: nat, duplicates: nat,
    truePositives: set<Id>, falsePositiveCases: set<Id>, falseNegatives: set<Id>, unmatched: seq<Id>,
    evidenceFailures: set<Id>, precision: real, recall: real, evidenceCompleteness: real,
    accuracy: Option<real>, eligible: bool,
    f1: real, specificity: real, falsePositiveRate: real, falseNegativeRate: real)

  // ----- what the loops compute -----

  function Applicable(cases: seq<Case>, profile: Profile): seq<Case> {
    if cases == [] then []
    else (if profile in cases[0].profiles then [cases[0]] else []) + Applicable(cases[1..], profile)
  }

  function LabelledIds(cases: seq<Case>): seq<Id> {
    seq(|cases|, i requires 0 <= i < |cases| => cases[i].id)
  }

  function Positives(cases: seq<Case>): set<Id> {
    set c | c in cases && c.positive :: c.id
  }

  function Negatives(cases: seq<Case>): set<Id> {
    SetOf(LabelledIds(cases)) - Positives(cases)
  }

  predicate Matched(o: Observation, truth: set<Id>) {
    o.caseId != None && o.caseId.value in truth
  }

  function Unmatched(observations: seq<Observation>, truth: set<Id>): seq<Id> {
    if observations == [] then []
    else (if Matched(observations[0], truth) then [] else [observations[0].id]) + Unmatched(observations[1..], truth)
  }

  function Detected(observations: seq<Observation>, truth: set<Id>): set<Id> {
    set o | o in observations && Matched(o, truth) :: o.caseId.value
  }

  function CaseOf(o: Observation): Option<Id> {
    o.caseId
  }

  function Group(observations: seq<Observation>, c: Id): seq<Observation> {
    GroupBy(observations, CaseOf, Some(c))
  }

  /** The size of the groups of the listed cases. */
  function Grouped(observations: seq<Observation>, cases: seq<Id>): nat {
    if cases == [] then 0 else Grouped(observations, cases[..|cases| - 1]) + |Group(observations, cases[|cases| - 1])|
  }

  ghost predicate Shown(c: Case, observations: seq<Observation>) {
    exists o :: o in observations && o.caseId == Some(c.id) && c.evidence <= o.evidence
  }

  ghost function EvidenceFailures(cases: seq<Case>, observations: seq<Observation>, truePositives: set<Id>): set<Id> {
    set c | c in cases && c.id in truePositives && !Shown(c, observations) :: c.id
  }

  // ----- score_vulnerability_benchmark -----

  lemma {:induction false} UnmatchedAppend(observations: seq<Observation>, o: Observation, truth: set<Id>)
    ensures Unmatched(observations + [o], truth)
            == Unmatched(observations, truth) + (if Matched(o, truth) then [] else [o.id])
  {
    if observations == [] {
      assert observations + [o] == [o] && [o][1..] == [];
    } else {
      assert (observations + [o])[1..] == observations[1..] + [o];
      UnmatchedAppend(observations[1..], o, truth);
    }
  }

  ghost predicate Sorted(observations: seq<Observation>, truth: set<Id>, groups: map<Id, seq<Observation>>,
                         order: seq<Id>) {
    && Distinct(order) && (forall c :: c in order <==> c in groups) && groups.Keys == Detected(observations, truth)
    && forall c :: c in groups ==> groups[c] == Group(observations, c)
  }

  lemma GroupsAppend(observations: seq<Observation>, o: Observation)
    ensures forall c :: Group(observations + [o], c)
                        == Group(observations, c) + (if o.caseId == Some(c) then [o] else [])
  {
    forall c
      ensures Group(observations + [o], c)
              == Group(observations, c) + (if o.caseId == Some(c) then [o] else [])
    {
      GroupByAppend(observations, CaseOf, Some(c), o);
    }
  }

  lemma DetectedAppend(observations: seq<Observation>, o: Observation, truth: set<Id>)
    ensures Detected(observations + [o], truth)
            == Detected(observations, truth) + (if Matched(o, truth) then {o.caseId.value} else {})
  {
    forall c ensures c in Detected(observations + [o], truth)
                     <==> c in Detected(observations, truth) || (Matched(o, truth) && c == o.caseId.value) {
      if Matched(o, truth) && c == o.caseId.value {
        assert o in observations + [o];
      }
      if c in Detected(observations, truth) {
        var e :| e in observations && Matched(e, truth) && e.caseId.value == c;
        assert e in observations + [o];
      }
    }
  }

  lemma SortedSkip(observations: seq<Observation>, truth: set<Id>, groups: map<Id, seq<Observation>>, order: seq<Id>,
                   o: Observation)
    requires Sorted(observations, truth, groups, order) && !Matched(o, truth)
    ensures Sorted(observations + [o], truth, groups, order)
  {
    GroupsAppend(observations, o);
    DetectedAppend(observations, o, truth);
  }

  lemma SortedAgain(observations: seq<Observation>, truth: set<Id>, groups: map<Id, seq<Observation>>, order: seq<Id>,
                    o: Observation)
    requires Sorted(observations, truth, groups, order) && Matched(o, truth) && o.caseId.value in groups
    ensures Sorted(observations + [o], truth, groups[o.caseId.value := groups[o.caseId.value] + [o]], order)
  {
    GroupsAppend(observations, o);
    DetectedAppend(observations, o, truth);
  }

  lemma SortedNew(observations: seq<Observation>, truth: set<Id>, groups: map<Id, seq<Observation>>, order: seq<Id>,
                  o: Observation)
    requires Sorted(observations, truth, groups, order) && Matched(o, truth) && o.caseId.value !in groups
    ensures Sorted(observations + [o], truth, groups[o.caseId.value := [o]], order + [o.caseId.value])
  {
    hide Detected, Group;
    var c := o.caseId.value;
    Undetected(observations, truth, c);
    GroupsAppend(observations, o);
    DetectedAppend(observations, o, truth);
    assert Group(observations + [o], c) == [] + [o] == [o];
  }

  lemma Undetected(observations: seq<Observation>, truth: set<Id>, c: Id)
    requires c in truth && c !in Detected(observations, truth)
    ensures Group(observations, c) == []
  {
    forall e | e in observations
      ensures e.caseId != Some(c)
    {
      assert Matched(e, truth) ==> e.caseId.value in Detected(observations, truth);
    }
    GroupByNothing(observations, CaseOf, Some(c));
  }

  method SortObservations(observations: seq<Observation>, truth: set<Id>)
    returns (groups: map<Id, seq<Observation>>, order: seq<Id>, unmatched: seq<Id>)
    ensures Sorted(observations, truth, groups, order) && unmatched == Unmatched(observations, truth)
    ensures Distinct(order) && SetOf(order) == groups.Keys == Detected(observations, truth)
  {
    groups, order, unmatched := map[], [], [];
    for k := 0 to |observations|
      invariant Sorted(observations[..k], truth, groups, order)
      invariant unmatched == Unmatched(observations[..k], truth)
    {
      var o := observations[k];
      assert observations[..k + 1] == observations[..k] + [o];
      UnmatchedAppend(observations[..k], o, truth);
      if !Matched(o, truth) {
        SortedSkip(observations[..k], truth, groups, order, o);
        unmatched := unmatched + [o.id];
      } else if o.caseId.value in groups {
        SortedAgain(observations[..k], truth, groups, order, o);
        groups := groups[o.caseId.value := groups[o.caseId.value] + [o]];
      } else {
        SortedNew(observations[..k], truth, groups, order, o);
        order := order + [o.caseId.value];
        groups := groups[o.caseId.value := [o]];
      }
    }
    assert observations[..|observations|] == observations;
  }

  lemma {:induction false} GroupsAreWithin(observations: seq<Observation>, cases: seq<Id>, o: Observation)
    requires Distinct(cases)
    ensures Grouped([o] + observations, cases)
            == Grouped(observations, cases) + (if o.caseId != None && o.caseId.value in cases then 1 else 0)
  {
    if cases != [] {
      var init, last := cases[..|cases| - 1], cases[|cases| - 1];
      assert cases == init + [last];
      GroupsAreWithin(observations, init, o);
      assert ([o] + observations)[1..] == observations;
    }
  }

  /** Every observation is unmatched or lies in exactly one group. */
  lemma {:induction false} GroupsPartition(observations: seq<Observation>, truth: set<Id>, order: seq<Id>)
    requires Distinct(order) && Detected(observations, truth) <= SetOf(order) <= truth
    ensures |observations| == |Unmatched(observations, truth)| + Grouped(observations, order)
  {
    if observations == [] {
      NothingGrouped(order);
    } else {
      var o := observations[0];
      assert observations == [o] + observations[1..];
      assert Matched(o, truth) ==> o.caseId.value in Detected(observations, truth);
      assert Detected(observations[1..], truth) <= Detected(observations, truth);
      assert forall c :: c in order <==> c in SetOf(order);
      GroupsPartition(observations[1..], truth, order);
      GroupsAreWithin(observations[1..], order, o);
    }
  }

  lemma {:induction false} NothingGrouped(cases: seq<Id>)
    ensures Grouped([], cases) == 0
  {
    if cases != [] {
      NothingGrouped(cases[..|cases| - 1]);
    }
  }

  lemma DetectedHasGroup(observations: seq<Observation>, truth: set<Id>, c: Id)
    requires c in Detected(observations, truth)
    ensures |Group(observations, c)| > 0
  {
    var o :| o in observations && Matched(o, truth) && o.caseId.value == c;
    GroupByMembers(observations, CaseOf, Some(c), o);
  }

  method CountDuplicates(observations: seq<Observation>, groups: map<Id, seq<Observation>>, order: seq<Id>,
                         truth: set<Id>)
    returns (duplicates: nat)
    requires Sorted(observations, truth, groups, order)
    ensures duplicates + |order| == Grouped(observations, order)
  {
    hide Detected, Group;
    duplicates := 0;
    for k := 0 to |order|
      invariant duplicates + k == Grouped(observations, order[..k])
    {
      assert order[..k + 1][..k] == order[..k];
      DetectedHasGroup(observations, truth, order[k]);
      var items := |groups[order[k]]|;
      duplicates := duplicates + (if items - 1 > 0 then items - 1 else 0);
    }
    assert order[..|order|] == order;
  }

  method FailedEvidence(cases: seq<Case>, observations: seq<Observation>, groups: map<Id, seq<Observation>>,
                        order: seq<Id>, truePositives: set<Id>)
    returns (failures: set<Id>)
    requires Sorted(observations, SetOf(LabelledIds(cases)), groups, order) && truePositives <= groups.Keys
    ensures failures == EvidenceFailures(cases, observations, truePositives)
  {
    failures := {};
    for k := 0 to |cases|
      invariant failures == EvidenceFailures(cases[..k], observations, truePositives)
    {
      var c := cases[k];
      assert cases[..k + 1] == cases[..k] + [c];
      if c.id in truePositives {
        forall o ensures o in groups[c.id] <==> o in observations && o.caseId == Some(c.id) {
          GroupByMembers(observations, CaseOf, Some(c.id), o);
        }
        var shown := exists o :: o in groups[c.id] && c.evidence <= o.evidence;
        assert shown <==> Shown(c, observations);
        if !shown {
          failures := failures + {c.id};
        }
      }
    }
    assert cases[..|cases|] == cases;
  }

  /** measured_quality_gate: precision, recall and evidence thresholds of the profile. */
  function RecallThreshold(profile: Profile): Option<real> {
    match profile
    case Light => Some(0.80)
    case Medium => Some(0.90)
    case Aggressive => Some(0.95)
    case Other(_) => None
  }

  function Completeness(failures: nat, tp: nat): real
    requires failures <= tp
  {
    if tp == 0 then 1.0 else Ratio((tp - failures) as real, tp as real)
  }

  ghost predicate Describes(r: Score, cases: seq<Case>, observations: seq<Observation>) {
    var truth := SetOf(LabelledIds(cases));
    var detected := Detected(observations, truth);
    && r.truePositives == Positives(cases) * detected && r.falseNegatives == Positives(cases) - detected
    && r.falsePositiveCases == Negatives(cases) * detected && r.unmatched == Unmatched(observations, truth)
    && r.tp == |r.truePositives| && r.fn == |r.falseNegatives| && r.tn == |Negatives(cases) - detected|
    && r.fp == |r.falsePositiveCases| + |r.unmatched|
    && r.evidenceFailures == EvidenceFailures(cases, observations, r.truePositives)
    && r.precision == Ratio(r.tp as real, (r.tp + r.fp) as real)
    && r.recall == Ratio(r.tp as real, (r.tp + r.fn) as real)
    && r.f1 == HarmonicMeanOf(r.precision, r.recall)
    && r.specificity == Ratio(r.tn as real, (r.tn + r.fp) as real)
    && r.falsePositiveRate == Ratio(r.fp as real, (r.fp + r.tn) as real)
    && r.falseNegativeRate == Ratio(r.fn as real, (r.fn + r.tp) as real)
    && |r.evidenceFailures| <= r.tp && r.evidenceCompleteness == Completeness(|r.evidenceFailures|, r.tp)
    && (r.accuracy == None <==> Negatives(cases) == {})
    && (r.accuracy != None ==> r.accuracy.value == Ratio((r.tp + r.tn) as real, (r.tp + r.fp + r.fn + r.tn) as real))
  }

  function ObservationIds(observations: seq<Observation>): seq<Id> {
    seq(|observations|, i requires 0 <= i < |observations| => observations[i].id)
  }

  /** The first rule that is broken. */
  ghost function Objection(versionBlank: bool, profile: Profile, cases: seq<Case>, observations: seq<Observation>)
    : Option<BenchmarkError>
  {
    if versionBlank then Some(DatasetVersionRequired)
    else if cases == [] then Some(NoApplicableCase)
    else if !Distinct(LabelledIds(cases)) then Some(DuplicateCase)
    else if !Distinct(ObservationIds(observations)) then Some(DuplicateObservation)
    else if RecallThreshold(profile) == None then Some(UnknownProfile)
    else None
  }

  lemma FailuresAreTruePositives(cases: seq<Case>, observations: seq<Observation>, truePositives: set<Id>)
    ensures |EvidenceFailures(cases, observations, truePositives)| <= |truePositives|
  {
    SubsetCardinality(EvidenceFailures(cases, observations, truePositives), truePositives);
  }

  method ScoreBenchmark(versionBlank: bool, profile: Profile, truthCases: seq<Case>, observations: seq<Observation>)
    returns (r: Result<Score, BenchmarkError>)
    ensures var cases := Applicable(truthCases, profile);
            && (r.Ok? <==> Objection(versionBlank, profile, cases, observations) == None)
            && (r.Err? ==> Objection(versionBlank, profile, cases, observations) == Some(r.error))
            && (r.Ok? ==>
                  && Describes(r.value, cases, observations)
                  && |observations| == r.value.tp + r.value.fp + r.value.duplicates
                  && r.value.tp + r.value.fn == |Positives(cases)|
                  && |r.value.falsePositiveCases| + r.value.tn == |Negatives(cases)|
                  && (r.value.eligible <==> && r.value.precision >= 0.95
                                            && r.value.recall >= RecallThreshold(profile).value
                                            && r.value.evidenceFailures == {}))
    ensures ChecksSay(versionBlank, profile, truthCases, observations, if r.Err? then Some(r.error) else None)
    ensures r.Ok? ==>
              CountsAre(r.value, truthCases, profile, observations) && RatesAre(r.value, truthCases, profile)
  {
    ObjectionByEntries(versionBlank, profile, truthCases, observations);
    hide ChecksSay, CountsAre, RatesAre;
    if versionBlank {
      return Err(DatasetVersionRequired);
    }
    var cases := Applicable(truthCases, profile);
    if cases == [] {
      return Err(NoApplicableCase);
    }
    var ids := ObservationIds(observations);
    SetOfCardinality(LabelledIds(cases));
    if |SetOf(LabelledIds(cases))| != |cases| {
      if Distinct(LabelledIds(cases)) {
        DistinctCardinality(LabelledIds(cases));
      }
      return Err(DuplicateCase);
    }
    SetOfCardinality(ids);
    if |SetOf(ids)| != |observations| {
      if Distinct(ids) {
        DistinctCardinality(ids);
      }
      return Err(DuplicateObservation);
    }
    if RecallThreshold(profile) == None {
      return Err(UnknownProfile);
    }
    var report, order := Tabulate(cases, observations, RecallThreshold(profile).value);
    Conservation(report, cases, observations, order);
    ScoreByEntries(report, truthCases, profile, observations, RecallThreshold(profile).value);
    r := Ok(report);
  }

  /** The body of the scoring, once the inputs are accepted. */
  method Tabulate(cases: seq<Case>, observations: seq<Observation>, recallThreshold: real)
    returns (r: Score, ghost order: seq<Id>)
    ensures Describes(r, cases, observations)
    ensures Distinct(order) && SetOf(order) == Detected(observations, SetOf(LabelledIds(cases)))
    ensures r.duplicates + |order| == Grouped(observations, order)
    ensures r.eligible <==> r.precision >= 0.95 && r.recall >= recallThreshold && r.evidenceFailures == {}
  {
    hide Assemble, EvidenceFailures, Positives, Negatives, LabelledIds, Ratio, HarmonicMeanOf, Detected, Unmatched;
    var truth := SetOf(LabelledIds(cases));
    var positives, negatives := Positives(cases), Negatives(cases);
    var groups, found, unmatched := SortObservations(observations, truth);
    order := found;
    var detected := groups.Keys;
    var duplicates := CountDuplicates(observations, groups, found, truth);
    var failures := FailedEvidence(cases, observations, groups, found, positives * detected);
    FailuresAreTruePositives(cases, observations, positives * detected);
    r := Assemble(positives, negatives, detected, unmatched, failures, duplicates, recallThreshold);
    AssembledDescribes(cases, observations, failures, duplicates, recallThreshold);
  }

  /** The result dictionary, from the sets and lists the loops produced. */
  function Assemble(positives: set<Id>, negatives: set<Id>, detected: set<Id>, unmatched: seq<Id>, failures: set<Id>,
                    duplicates: nat, recallThreshold: real): Score
    requires |failures| <= |positives * detected|
  {
    var tp, fn, tn := |positives * detected|, |positives - detected|, |negatives - detected|;
    var fp := |negatives * detected| + |unmatched|;
    var precision, recall := Ratio(tp as real, (tp + fp) as real), Ratio(tp as real, (tp + fn) as real);
    var completeness := Completeness(|failures|, tp);
    Score(tp, fp, fn, tn, duplicates, positives * detected, negatives * detected, positives - detected, unmatched,
          failures, precision, recall, completeness,
          if negatives != {} then Some(Ratio((tp + tn) as real, (tp + fp + fn + tn) as real)) else None,
          precision >= 0.95 && recall >= recallThreshold && completeness >= 1.0,
          HarmonicMeanOf(precision, recall), Ratio(tn as real, (tn + fp) as real), Ratio(fp as real, (fp + tn) as real),
          Ratio(fn as real, (fn + tp) as real))
  }

  lemma AssembledDescribes(cases: seq<Case>, observations: seq<Observation>, failures: set<Id>, duplicates: nat,
                           recallThreshold: real)
    requires var detected := Detected(observations, SetOf(LabelledIds(cases)));
             && failures == EvidenceFailures(cases, observations, Positives(cases) * detected)
             && |failures| <= |Positives(cases) * detected|
    ensures var truth := SetOf(LabelledIds(cases));
            var r := Assemble(Positives(cases), Negatives(cases), Detected(observations, truth),
                              Unmatched(observations, truth), failures, duplicates, recallThreshold);
            && Describes(r, cases, observations) && r.duplicates == duplicates
            && (r.eligible <==> r.precision >= 0.95 && r.recall >= recallThreshold && r.evidenceFailures == {})
  {
    hide EvidenceFailures, Positives, Negatives, LabelledIds, Ratio, HarmonicMeanOf, Detected, Unmatched;
    CompletenessMeaning(|failures|, |Positives(cases) * Detected(observations, SetOf(LabelledIds(cases)))|);
  }

  lemma CompletenessMeaning(failures: nat, tp: nat)
    requires failures <= tp
    ensures Completeness(failures, tp) >= 1.0 <==> failures == 0
  {
    if tp > 0 {
      RatioOfCounts(tp - failures, failures);
    }
  }

  lemma SplitCardinality(a: set<Id>, b: set<Id>)
    ensures |a * b| + |a - b| == |a|
  {
    assert a == (a * b) + (a - b) && (a * b) !! (a - b);
  }

  /** Conservation, for any grouping order of the detected cases. */
  lemma Counts(cases: seq<Case>, observations: seq<Observation>, order: seq<Id>)
    requires Distinct(order) && SetOf(order) == Detected(observations, SetOf(LabelledIds(cases)))
    ensures var truth := SetOf(LabelledIds(cases)); var detected := Detected(observations, truth);
            && |Positives(cases) * detected| + |Positives(cases) - detected| == |Positives(cases)|
            && |Negatives(cases) * detected| + |Negatives(cases) - detected| == |Negatives(cases)|
            && |Positives(cases) * detected| + |Negatives(cases) * detected| == |order|
            && |observations| == |Unmatched(observations, truth)| + Grouped(observations, order)
  {
    var truth := SetOf(LabelledIds(cases));
    var detected := Detected(observations, truth);
    SplitCardinality(Positives(cases), detected);
    SplitCardinality(Negatives(cases), detected);
    GroupsPartition(observations, truth, order);
    DistinctCardinality(order);
    PositivesAreCases(cases);
    assert detected * Positives(cases) == Positives(cases) * detected;
    assert detected - Positives(cases) == Negatives(cases) * detected;
    SplitCardinality(detected, Positives(cases));
  }

  /** Every observation is a true positive, a false positive or a duplicate of one already counted. */
  lemma Conservation(r: Score, cases: seq<Case>, observations: seq<Observation>, order: seq<Id>)
    requires Describes(r, cases, observations)
    requires Distinct(order) && SetOf(order) == Detected(observations, SetOf(LabelledIds(cases)))
    requires r.duplicates + |order| == Grouped(observations, order)
    ensures |observations| == r.tp + r.fp + r.duplicates
    ensures r.tp + r.fn == |Positives(cases)| && |r.falsePositiveCases| + r.tn == |Negatives(cases)|
  {
    hide Ratio, Grouped, SetOf, LabelledIds, Positives, Negatives, Unmatched, Detected, EvidenceFailures;
    Counts(cases, observations, order);
  }

  lemma PositivesAreCases(cases: seq<Case>)
    ensures Positives(cases) <= SetOf(LabelledIds(cases))
  {
    forall c | c in cases && c.positive
      ensures c.id in SetOf(LabelledIds(cases))
    {
      var i :| 0 <= i < |cases| && cases[i] == c;
      assert LabelledIds(cases)[i] == c.id;
    }
  }

  // ----- the confirmed subset of a scan -----

  /** A finding of the scored scan, with the assurance that makes it confirmed. */
  datatype Row = Row(observation: Observation, info: bool, confirmed: bool)

  function Observations(rows: seq<Row>, confirmedOnly: bool): seq<Observation> {
    if rows == [] then []
    else (if rows[0].info || (confirmedOnly && !rows[0].confirmed) then [] else [rows[0].observation])
         + Observations(rows[1..], confirmedOnly)
  }

  lemma {:induction false} ConfirmedAreFewer(rows: seq<Row>, truth: set<Id>)
    ensures |Unmatched(Observations(rows, true), truth)| <= |Unmatched(Observations(rows, false), truth)|
    ensures SetOf(Observations(rows, true)) <= SetOf(Observations(rows, false))
  {
    if rows != [] {
      ConfirmedAreFewer(rows[1..], truth);
      HeadUnmatched(rows[0].observation, Observations(rows[1..], true), truth);
      HeadUnmatched(rows[0].observation, Observations(rows[1..], false), truth);
      SetOfObservations(rows, true);
      SetOfObservations(rows, false);
    }
  }

  lemma SetOfObservations(rows: seq<Row>, confirmedOnly: bool)
    requires rows != []
    ensures SetOf(Observations(rows, confirmedOnly))
            == (if rows[0].info || (confirmedOnly && !rows[0].confirmed) then {} else {rows[0].observation})
               + SetOf(Observations(rows[1..], confirmedOnly))
  {
  }

  lemma HeadUnmatched(o: Observation, rest: seq<Observation>, truth: set<Id>)
    ensures Unmatched([o] + rest, truth) == (if Matched(o, truth) then [] else [o.id]) + Unmatched(rest, truth)
    ensures [] + rest == rest
  {
    assert ([o] + rest)[1..] == rest;
  }

  lemma ConfirmedDetectsLess(rows: seq<Row>, truth: set<Id>)
    ensures Detected(Observations(rows, true), truth) <= Detected(Observations(rows, false), truth)
  {
    ConfirmedAreFewer(rows, truth);
    forall o | o in Observations(rows, true) && Matched(o, truth)
      ensures o.caseId.value in Detected(Observations(rows, false), truth)
    {
      assert o in SetOf(Observations(rows, true));
      assert o in SetOf(Observations(rows, false));
    }
  }

  /** Scoring only the confirmed findings never raises true positives, false positives or recall. */
  lemma ConfirmedNeverScoresMore(rows: seq<Row>, cases: seq<Case>, reported: Score, confirmed: Score)
    requires Describes(reported, cases, Observations(rows, false))
    requires Describes(confirmed, cases, Observations(rows, true))
    ensures confirmed.tp <= reported.tp && confirmed.fp <= reported.fp && confirmed.recall <= reported.recall
  {
    hide Ratio, Observations, Detected, Unmatched, Positives, Negatives, EvidenceFailures;
    var truth := SetOf(LabelledIds(cases));
    ConfirmedAreFewer(rows, truth);
    ConfirmedDetectsLess(rows, truth);
    SubsetCardinality(confirmed.truePositives, reported.truePositives);
    SubsetCardinality(confirmed.falsePositiveCases, reported.falsePositiveCases);
    SplitCardinality(Positives(cases), Detected(Observations(rows, false), truth));
    SplitCardinality(Positives(cases), Detected(Observations(rows, true), truth));
    RatioGrows(confirmed.tp, reported.tp, |Positives(cases)|);
  }

  lemma RatioGrows(a: nat, b: nat, n: nat)
    requires a <= b <= n
    ensures Ratio(a as real, n as real) <= Ratio(b as real, n as real)
  {
    if n > 0 {
      Quotient((b - a) as real, n as real);
      assert b as real / n as real == a as real / n as real + (b - a) as real / n as real;
    }
  }

  /** Precision and recall are both one exactly when the matched cases are the positive cases, and
      nothing is left over. */
  lemma PerfectScore(cases: seq<Case>, observations: seq<Observation>, r: Score)
    requires Describes(r, cases, observations)
    ensures r.precision == 1.0 && r.recall == 1.0
            <==> Positives(cases) != {} && Unmatched(observations, SetOf(LabelledIds(cases))) == []
                 && Detected(observations, SetOf(LabelledIds(cases))) == Positives(cases)
  {
    hide Ratio, HarmonicMeanOf, Completeness, LabelledIds, Detected, Unmatched, EvidenceFailures, SetOf;
    hide Positives, Negatives;
    RatioOfCounts(r.tp, r.fp);
    RatioOfCounts(r.tp, r.fn);
    DetectedAreCases(cases, observations);
    SplitsTruth(Positives(cases), Negatives(cases), Detected(observations, SetOf(LabelledIds(cases))));
  }

  lemma DetectedAreCases(cases: seq<Case>, observations: seq<Observation>)
    ensures Detected(observations, SetOf(LabelledIds(cases))) <= Positives(cases) + Negatives(cases)
    ensures Positives(cases) !! Negatives(cases)
  {
    PositivesAreCases(cases);
  }

  lemma SplitsTruth(positives: set<Id>, negatives: set<Id>, detected: set<Id>)
    requires detected <= positives + negatives && positives !! negatives
    ensures |positives * detected| > 0 && |negatives * detected| == 0 && |positives - detected| == 0
            <==> positives != {} && detected == positives
  {
    if |negatives * detected| == 0 && |positives - detected| == 0 {
      assert negatives * detected == {} && positives - detected == {};
      assert detected == positives && positives * detected == positives;
    }
    if detected == positives {
      assert negatives * detected == {} && positives - detected == {} && positives * detected == positives;
    }
  }

  lemma SharesAddUp(a: nat, b: nat)
    ensures a + b > 0 ==> Ratio(a as real, (a + b) as real) + Ratio(b as real, (b + a) as real) == 1.0
  {
    if a + b > 0 {
      var n := (a + b) as real;
      assert a as real / n + b as real / n == (a as real + b as real) / n;
    }
  }

  /** The rates of a result: F1 is twice the true positives among all that was positive or reported, and each rate
      and its opposite add up to one wherever there is anything to count. */
  lemma RatesOfResult(cases: seq<Case>, observations: seq<Observation>, r: Score)
    requires Describes(r, cases, observations)
    ensures r.f1 == Ratio((2 * r.tp) as real, (2 * r.tp + r.fp + r.fn) as real)
    ensures Positives(cases) != {} ==> r.recall + r.falseNegativeRate == 1.0
    ensures r.tn + r.fp > 0 ==> r.specificity + r.falsePositiveRate == 1.0
  {
    hide Ratio, HarmonicMeanOf, Completeness, LabelledIds, Detected, Unmatched, EvidenceFailures, Positives, Negatives;
    F1FromCounts(r.tp, r.fp, r.fn);
    SharesAddUp(r.tp, r.fn);
    SharesAddUp(r.tn, r.fp);
    SplitCardinality(Positives(cases), Detected(observations, SetOf(LabelledIds(cases))));
  }

  // ----- the score, told by the entries of dataset and scan -----

  ghost function LabelledAs(truth: seq<Case>, profile: Profile, positive: bool): set<Id> {
    set c | c in truth && profile in c.profiles && c.positive == positive :: c.id
  }

  /** A finding names the case. */
  ghost predicate Found(observations: seq<Observation>, id: Id) {
    exists o :: o in observations && o.caseId == Some(id)
  }

  /** The observations that name a labelled case, and those that do not. */
  ghost function Naming(observations: seq<Observation>, ids: set<Id>, named: bool): set<nat> {
    set k: nat | k < |observations|
                 && (named <==> observations[k].caseId.Some? && observations[k].caseId.value in ids)
  }

  /** A case whose evidence no observation shows. */
  ghost predicate LacksEvidence(truth: seq<Case>, profile: Profile, observations: seq<Observation>, id: Id) {
    exists c :: c in truth && profile in c.profiles && c.id == id
                && forall o :: o in observations && o.caseId == Some(id) ==> !(c.evidence <= o.evidence)
  }

  ghost predicate ThresholdOf(profile: Profile, recall: real) {
    (profile.Light? && recall == 0.80) || (profile.Medium? && recall == 0.90) || (profile.Aggressive? && recall == 0.95)
  }

  ghost predicate CountsAre(r: Score, truth: seq<Case>, profile: Profile, observations: seq<Observation>) {
    var positives, negatives := LabelledAs(truth, profile, true), LabelledAs(truth, profile, false);
    var ids := positives + negatives;
    && r.truePositives == (set id | id in positives && Found(observations, id))
    && r.falseNegatives == (set id | id in positives && !Found(observations, id))
    && r.falsePositiveCases == (set id | id in negatives && Found(observations, id))
    && r.tp == |r.truePositives| && r.fn == |r.falseNegatives|
    && r.tn == |set id | id in negatives && !Found(observations, id)|
    && r.fp == |r.falsePositiveCases| + |Naming(observations, ids, false)|
    && r.duplicates + |set id | id in ids && Found(observations, id)| == |Naming(observations, ids, true)|
    && |r.unmatched| == |Naming(observations, ids, false)|
    && (forall x :: x in r.unmatched <==> exists k :: k in Naming(observations, ids, false) && observations[k].id == x)
    && r.evidenceFailures
       == (set id | id in r.truePositives && LacksEvidence(truth, profile, observations, id))
  }

  ghost predicate RatesAre(r: Score, truth: seq<Case>, profile: Profile) {
    && IsShare(r.precision, r.tp, r.tp + r.fp) && IsShare(r.recall, r.tp, r.tp + r.fn)
    && IsShare(r.f1, 2 * r.tp, 2 * r.tp + r.fp + r.fn)
    && IsShare(r.specificity, r.tn, r.tn + r.fp)
    && IsShare(r.falsePositiveRate, r.fp, r.fp + r.tn) && IsShare(r.falseNegativeRate, r.fn, r.fn + r.tp)
    && (if r.tp == 0 then r.evidenceCompleteness == 1.0
        else |r.evidenceFailures| <= r.tp && IsShare(r.evidenceCompleteness, r.tp - |r.evidenceFailures|, r.tp))
    && (if LabelledAs(truth, profile, false) == {} then r.accuracy == None
        else r.accuracy.Some? && IsShare(r.accuracy.value, r.tp + r.tn, r.tp + r.fp + r.fn + r.tn))
    && (exists recall ::
          && ThresholdOf(profile, recall)
          && (r.eligible <==> r.precision >= 0.95 && r.recall >= recall && r.evidenceFailures == {}))
  }

  /** What the checks say, and in which order. */
  ghost predicate ChecksSay(versionBlank: bool, profile: Profile, truth: seq<Case>, observations: seq<Observation>,
                            e: Option<BenchmarkError>)
  {
    if versionBlank then e == Some(DatasetVersionRequired)
    else if forall c :: c in truth ==> profile !in c.profiles then e == Some(NoApplicableCase)
    else if CaseTwice(truth, profile) then e == Some(DuplicateCase)
    else if exists i, j :: 0 <= i < j < |observations| && observations[i].id == observations[j].id
    then e == Some(DuplicateObservation)
    else if profile.Other? then e == Some(UnknownProfile)
    else e == None
  }

  ghost predicate CaseTwice(truth: seq<Case>, profile: Profile) {
    exists i, j :: 0 <= i < j < |truth| && profile in truth[i].profiles && profile in truth[j].profiles
                   && truth[i].id == truth[j].id
  }

  lemma {:induction false} ApplicableMeaning(truth: seq<Case>, profile: Profile)
    ensures forall c :: c in Applicable(truth, profile) <==> c in truth && profile in c.profiles
    ensures Applicable(truth, profile) == [] <==> forall c :: c in truth ==> profile !in c.profiles
  {
    if truth != [] {
      ApplicableMeaning(truth[1..], profile);
      assert truth == [truth[0]] + truth[1..];
      assert truth[0] in truth;
    }
  }

  lemma {:induction false} DistinctApplicable(truth: seq<Case>, profile: Profile)
    ensures Distinct(LabelledIds(Applicable(truth, profile))) <==> !CaseTwice(truth, profile)
  {
    if truth != [] {
      var first, rest := truth[0], truth[1..];
      var ids, all := LabelledIds(Applicable(rest, profile)), LabelledIds(Applicable(truth, profile));
      DistinctApplicable(rest, profile);
      assert forall i :: 0 <= i < |rest| ==> rest[i] == truth[i + 1];
      if profile in first.profiles {
        assert all == [first.id] + ids;
        FirstIsDistinct(first.id, ids);
        IdsOfApplicable(rest, profile, first.id);
      } else {
        assert all == ids;
      }
    }
  }

  lemma FirstIsDistinct(x: Id, ids: seq<Id>)
    ensures Distinct([x] + ids) <==> x !in ids && Distinct(ids)
  {
    var all := [x] + ids;
    assert forall i :: 0 <= i < |ids| ==> all[i + 1] == ids[i];
    if Distinct(all) {
      forall i | 0 <= i < |ids|
        ensures ids[i] != x
      {
        assert all[0] != all[i + 1];
      }
    }
  }

  lemma IdsOfApplicable(truth: seq<Case>, profile: Profile, x: Id)
    ensures x in LabelledIds(Applicable(truth, profile))
            <==> exists i :: 0 <= i < |truth| && profile in truth[i].profiles && truth[i].id == x
  {
    ApplicableMeaning(truth, profile);
    var cases := Applicable(truth, profile);
    if x in LabelledIds(cases) {
      var i :| 0 <= i < |cases| && LabelledIds(cases)[i] == x;
      assert cases[i] in cases;
      var j :| 0 <= j < |truth| && truth[j] == cases[i];
    }
    if i :| 0 <= i < |truth| && profile in truth[i].profiles && truth[i].id == x {
      assert truth[i] in cases;
      var j :| 0 <= j < |cases| && cases[j] == truth[i];
      assert LabelledIds(cases)[j] == x;
    }
  }

  lemma ObjectionByEntries(versionBlank: bool, profile: Profile, truth: seq<Case>, observations: seq<Observation>)
    ensures ChecksSay(versionBlank, profile, truth, observations,
                      Objection(versionBlank, profile, Applicable(truth, profile), observations))
  {
    ApplicableMeaning(truth, profile);
    DistinctApplicable(truth, profile);
    ObservationTwice(observations);
    hide Applicable, LabelledIds, ObservationIds, Distinct, CaseTwice;
  }

  lemma ObservationTwice(observations: seq<Observation>)
    ensures Distinct(ObservationIds(observations))
            <==> !exists i, j :: 0 <= i < j < |observations| && observations[i].id == observations[j].id
  {
    assert forall i :: 0 <= i < |observations| ==> ObservationIds(observations)[i] == observations[i].id;
  }

  lemma {:induction false} UnmatchedByEntries(observations: seq<Observation>, ids: set<Id>)
    ensures |Unmatched(observations, ids)| == |Naming(observations, ids, false)|
    ensures |Naming(observations, ids, true)| + |Naming(observations, ids, false)| == |observations|
    ensures forall x :: x in Unmatched(observations, ids)
                        <==> exists k :: k in Naming(observations, ids, false) && observations[k].id == x
    decreases |observations|
  {
    if observations == [] {
      assert Naming(observations, ids, false) == {} && Naming(observations, ids, true) == {};
    } else {
      var n: nat := |observations| - 1;
      var init, last := observations[..n], observations[n];
      assert observations == init + [last];
      UnmatchedByEntries(init, ids);
      UnmatchedAppend(init, last, ids);
      var gained := !Matched(last, ids);
      assert forall k :: 0 <= k < n ==> init[k] == observations[k];
      OneMorePosition(Naming(init, ids, false), Naming(observations, ids, false), n, gained);
      OneMorePosition(Naming(init, ids, true), Naming(observations, ids, true), n, !gained);
      hide Unmatched;
      forall x
        ensures x in Unmatched(observations, ids)
                <==> exists k :: k in Naming(observations, ids, false) && observations[k].id == x
      {
        if k :| k in Naming(observations, ids, false) && observations[k].id == x {
          assert k < n ==> k in Naming(init, ids, false) && init[k].id == x;
        }
        if gained && x == last.id {
          assert n in Naming(observations, ids, false);
        }
        if k :| k in Naming(init, ids, false) && init[k].id == x {
          assert k in Naming(observations, ids, false) && observations[k].id == x;
        }
      }
    }
  }

  lemma SetsByEntries(truth: seq<Case>, profile: Profile, observations: seq<Observation>)
    requires Distinct(LabelledIds(Applicable(truth, profile)))
    ensures var cases := Applicable(truth, profile);
            && Positives(cases) == LabelledAs(truth, profile, true)
            && Negatives(cases) == LabelledAs(truth, profile, false)
            && SetOf(LabelledIds(cases)) == LabelledAs(truth, profile, true) + LabelledAs(truth, profile, false)
            && Detected(observations, SetOf(LabelledIds(cases)))
               == set id | id in SetOf(LabelledIds(cases)) && Found(observations, id)
  {
    var cases := Applicable(truth, profile);
    var ids := SetOf(LabelledIds(cases));
    ApplicableMeaning(truth, profile);
    forall id
      ensures id in Positives(cases) <==> id in LabelledAs(truth, profile, true)
      ensures id in ids <==> id in LabelledAs(truth, profile, true) || id in LabelledAs(truth, profile, false)
    {
      IdsOfApplicable(truth, profile, id);
      if i :| 0 <= i < |truth| && profile in truth[i].profiles && truth[i].id == id {
        assert truth[i] in truth;
      }
      if c :| c in truth && profile in c.profiles && c.id == id {
        var i :| 0 <= i < |truth| && truth[i] == c;
      }
    }
    NoLabelTwice(truth, profile);
    hide Applicable, LabelledIds, Positives;
    assert Detected(observations, ids) == set id | id in ids && Found(observations, id) by {
      forall id
        ensures id in Detected(observations, ids) <==> id in ids && Found(observations, id)
      {
        if id in ids && Found(observations, id) {
          var o :| o in observations && o.caseId == Some(id);
          assert Matched(o, ids);
        }
      }
    }
  }

  /** With distinct ids no case is positive and negative. */
  lemma NoLabelTwice(truth: seq<Case>, profile: Profile)
    requires Distinct(LabelledIds(Applicable(truth, profile)))
    ensures LabelledAs(truth, profile, true) !! LabelledAs(truth, profile, false)
  {
    DistinctApplicable(truth, profile);
    forall c, d | c in truth && d in truth && profile in c.profiles && profile in d.profiles
                  && c.positive && !d.positive
      ensures c.id != d.id
    {
      var i :| 0 <= i < |truth| && truth[i] == c;
      var j :| 0 <= j < |truth| && truth[j] == d;
    }
  }

  /** A result says of dataset and scan what its entries say. */
  lemma ScoreByEntries(r: Score, truth: seq<Case>, profile: Profile, observations: seq<Observation>, recall: real)
    requires Describes(r, Applicable(truth, profile), observations)
    requires Distinct(LabelledIds(Applicable(truth, profile)))
    requires |observations| == r.tp + r.fp + r.duplicates && ThresholdOf(profile, recall)
    requires r.eligible <==> r.precision >= 0.95 && r.recall >= recall && r.evidenceFailures == {}
    ensures CountsAre(r, truth, profile, observations) && RatesAre(r, truth, profile)
  {
    CountsByEntries(r, truth, profile, observations);
    RatesByEntries(r, truth, profile, observations, recall);
  }

  lemma FailuresByEntries(truth: seq<Case>, profile: Profile, observations: seq<Observation>, positives: set<Id>)
    ensures EvidenceFailures(Applicable(truth, profile), observations, positives)
            == set id | id in positives && LacksEvidence(truth, profile, observations, id)
  {
    var cases := Applicable(truth, profile);
    ApplicableMeaning(truth, profile);
    hide Applicable;
    forall id
      ensures id in EvidenceFailures(cases, observations, positives)
              <==> id in positives && LacksEvidence(truth, profile, observations, id)
    {
      if id in EvidenceFailures(cases, observations, positives) {
        var c :| c in cases && c.id in positives && !Shown(c, observations) && c.id == id;
        assert c in truth && profile in c.profiles;
      }
      if id in positives && LacksEvidence(truth, profile, observations, id) {
        var c :| c in truth && profile in c.profiles && c.id == id
                 && forall o :: o in observations && o.caseId == Some(id) ==> !(c.evidence <= o.evidence);
        assert c in cases && !Shown(c, observations);
      }
    }
  }

  ghost function Seen(observations: seq<Observation>, ids: set<Id>, found: bool): set<Id> {
    set id | id in ids && Found(observations, id) == found
  }

  lemma HalvesByEntries(observations: seq<Observation>, positives: set<Id>, negatives: set<Id>)
    requires positives !! negatives
    ensures var ids := positives + negatives;
            var detected := set id | id in ids && Found(observations, id);
            && detected == Seen(observations, ids, true)
            && positives * detected == Seen(observations, positives, true)
            && positives - detected == Seen(observations, positives, false)
            && negatives * detected == Seen(observations, negatives, true)
            && negatives - detected == Seen(observations, negatives, false)
            && |detected| == |positives * detected| + |negatives * detected|
  {
    hide Found;
    var detected := set id | id in positives + negatives && Found(observations, id);
    assert detected == positives * detected + negatives * detected;
  }

  lemma CountsByEntries(r: Score, truth: seq<Case>, profile: Profile, observations: seq<Observation>)
    requires Describes(r, Applicable(truth, profile), observations)
    requires Distinct(LabelledIds(Applicable(truth, profile)))
    requires |observations| == r.tp + r.fp + r.duplicates
    ensures CountsAre(r, truth, profile, observations)
  {
    hide Ratio, HarmonicMeanOf, Completeness, Unmatched, EvidenceFailures, LacksEvidence, Naming, Found, LabelledAs;
    hide Applicable, Positives, Negatives, Detected, LabelledIds, SetOf, CountsAre;
    var cases := Applicable(truth, profile);
    SetsByEntries(truth, profile, observations);
    NoLabelTwice(truth, profile);
    UnmatchedByEntries(observations, SetOf(LabelledIds(cases)));
    FailuresByEntries(truth, profile, observations, r.truePositives);
    HalvesByEntries(observations, LabelledAs(truth, profile, true), LabelledAs(truth, profile, false));
    SumOfCounts(r, truth, profile, observations);
  }

  lemma SumOfCounts(r: Score, truth: seq<Case>, profile: Profile, observations: seq<Observation>)
    requires var positives, negatives := LabelledAs(truth, profile, true), LabelledAs(truth, profile, false);
             var ids := positives + negatives;
             && r.truePositives == Seen(observations, positives, true)
             && r.falseNegatives == Seen(observations, positives, false)
             && r.falsePositiveCases == Seen(observations, negatives, true)
             && r.tp == |r.truePositives| && r.fn == |r.falseNegatives|
             && r.tn == |Seen(observations, negatives, false)|
             && r.fp == |r.falsePositiveCases| + |r.unmatched|
             && |Seen(observations, ids, true)| == r.tp + |r.falsePositiveCases|
             && |observations| == r.tp + r.fp + r.duplicates
             && |Naming(observations, ids, true)| + |Naming(observations, ids, false)| == |observations|
             && |r.unmatched| == |Naming(observations, ids, false)|
             && (forall x :: x in r.unmatched
                             <==> exists k :: k in Naming(observations, ids, false) && observations[k].id == x)
             && r.evidenceFailures == set id | id in r.truePositives && LacksEvidence(truth, profile, observations, id)
    ensures CountsAre(r, truth, profile, observations)
  {
    hide LabelledAs, Found, Naming, LacksEvidence;
    var positives, negatives := LabelledAs(truth, profile, true), LabelledAs(truth, profile, false);
    var ids := positives + negatives;
    assert (set id | id in positives && Found(observations, id)) == Seen(observations, positives, true);
    assert (set id | id in positives && !Found(observations, id)) == Seen(observations, positives, false);
    assert (set id | id in negatives && Found(observations, id)) == Seen(observations, negatives, true);
    assert (set id | id in negatives && !Found(observations, id)) == Seen(observations, negatives, false);
    assert (set id | id in ids && Found(observations, id)) == Seen(observations, ids, true);
  }

  lemma RatesByEntries(r: Score, truth: seq<Case>, profile: Profile, observations: seq<Observation>, recall: real)
    requires Describes(r, Applicable(truth, profile), observations)
    requires Distinct(LabelledIds(Applicable(truth, profile))) && ThresholdOf(profile, recall)
    requires r.eligible <==> r.precision >= 0.95 && r.recall >= recall && r.evidenceFailures == {}
    ensures RatesAre(r, truth, profile)
  {
    hide Ratio, HarmonicMeanOf, IsShare, Unmatched, EvidenceFailures, Applicable, Positives, Negatives, Detected;
    hide LabelledIds, SetOf, LabelledAs;
    SetsByEntries(truth, profile, observations);
    RatioIsShare(r.tp, r.tp + r.fp);
    RatioIsShare(r.tp, r.tp + r.fn);
    RatioIsShare(r.tn, r.tn + r.fp);
    RatioIsShare(r.fp, r.fp + r.tn);
    RatioIsShare(r.fn, r.fn + r.tp);
    RatioIsShare(2 * r.tp, 2 * r.tp + r.fp + r.fn);
    RatioIsShare(r.tp + r.tn, r.tp + r.fp + r.fn + r.tn);
    RatioIsShare(r.tp - |r.evidenceFailures|, r.tp);
    F1FromCounts(r.tp, r.fp, r.fn);
  }
}
