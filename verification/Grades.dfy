/** Grades supplied with an evaluation and the metric components computed from them, in exact
    rationals before rounding. */
module Grades {
  import opened Common
  import opened Classification

  datatype Id = Id(text: string)

  /** The component entries that a release gate reads. A flag is one or zero. */
  datatype Field =
    | SampleSize | GroundTruthClassCount | MacroPrecision | MacroRecall | MacroF1 | MacroFalsePositiveRate
    | BrierScore | CalibrationError | UnsupportedClaimRate
    | OutcomeAccuracy | DetectionRate | FalseDetectionRate | EvidenceCoverage
    | TrajectoryScore | PolicyCompliant
    | ContextPrecision | RecallAtK | Faithfulness | CitationValidity
    | VariationCoverage | Accuracy | Consistency | PairwiseAgreement
    | CostPerCase | P95Latency | TimeoutRate | FallbackRate

  /** A component dictionary: an absent entry and an entry holding None read the same. */
  datatype Component = Component(measured: bool, values: map<Field, real>)

  const NOTHING := Component(false, map[])

  function Count<T>(s: seq<T>, p: T -> bool): nat {
    if s == [] then 0 else (if p(s[0]) then 1 else 0) + Count(s[1..], p)
  }

  lemma {:induction false} CountBounds<T>(s: seq<T>, p: T -> bool)
    ensures Count(s, p) <= |s|
    ensures Count(s, p) == |s| <==> forall x :: x in s ==> p(x)
    ensures Count(s, p) == 0 <==> forall x :: x in s ==> !p(x)
  {
    if s != [] {
      CountBounds(s[1..], p);
      assert s == [s[0]] + s[1..];
      assert s[0] in s;
      assert forall x :: x in s <==> x == s[0] || x in s[1..];
    }
  }

  function Share<T>(s: seq<T>, p: T -> bool): real {
    Ratio(Count(s, p) as real, |s| as real)
  }

  // ----- groundedness -----

  datatype ClaimGrade = ClaimGrade(
    id: Id, evidence: seq<Id>, entailment: real, citationsValid: bool, integrity: Option<bool>)

  const MINIMUM_ENTAILMENT := 0.8

  predicate Unsupported(c: ClaimGrade) {
    c.evidence == [] || !c.citationsValid || c.integrity != Some(true) || c.entailment < MINIMUM_ENTAILMENT
  }

  function UnsupportedIds(claims: seq<ClaimGrade>): seq<Id> {
    if claims == [] then []
    else (if Unsupported(claims[0]) then [claims[0].id] else []) + UnsupportedIds(claims[1..])
  }

  function GroundednessMetrics(claims: seq<ClaimGrade>): Component {
    if claims == [] then NOTHING
    else Component(true, map[UnsupportedClaimRate := Ratio(|UnsupportedIds(claims)| as real, |claims| as real)])
  }

  // ----- security -----

  datatype SecurityCase = SecurityCase(
    expectedAttack: bool, observedAttack: bool, expectedDetection: bool, observedDetection: bool,
    evidence: seq<Id>, integrity: Option<bool>)

  predicate Hit(c: SecurityCase) {
    c.expectedDetection && c.observedDetection
  }

  predicate Alarm(c: SecurityCase) {
    !c.expectedDetection && c.observedDetection
  }

  predicate Miss(c: SecurityCase) {
    c.expectedDetection && !c.observedDetection
  }

  predicate Quiet(c: SecurityCase) {
    !c.expectedDetection && !c.observedDetection
  }

  function SecurityMetrics(security: Option<seq<SecurityCase>>): Component {
    if security == None || security.value == [] then NOTHING
    else
      var cases := security.value;
      var tp, fp, fn, tn := Count(cases, Hit), Count(cases, Alarm), Count(cases, Miss), Count(cases, Quiet);
      var positives := exists c :: c in cases && c.expectedDetection;
      var negatives := exists c :: c in cases && !c.expectedDetection;
      var partial := map[
        OutcomeAccuracy := Share(cases, (c: SecurityCase) => c.expectedAttack == c.observedAttack),
        EvidenceCoverage := Share(cases, (c: SecurityCase) => c.evidence != [] && c.integrity == Some(true))];
      var detection := if positives then map[DetectionRate := Ratio(tp as real, (tp + fn) as real)] else map[];
      var alarms := if negatives then map[FalseDetectionRate := Ratio(fp as real, (fp + tn) as real)] else map[];
      Component(positives && negatives, partial + detection + alarms)
  }

  lemma MeasuredSecurity(cases: seq<SecurityCase>)
    requires SecurityMetrics(Some(cases)).measured
    ensures var m := SecurityMetrics(Some(cases));
            && DetectionRate in m.values && FalseDetectionRate in m.values
            && m.values[DetectionRate]
               == Ratio(Count(cases, Hit) as real, (Count(cases, Hit) + Count(cases, Miss)) as real)
            && m.values[FalseDetectionRate]
               == Ratio(Count(cases, Alarm) as real, (Count(cases, Alarm) + Count(cases, Quiet)) as real)
    ensures exists c :: c in cases && c.expectedDetection
  {
    hide Ratio, Share, Count;
  }

  /** Detection is perfect on both rates exactly when every case was called as labelled. */
  lemma PerfectDetection(cases: seq<SecurityCase>)
    ensures var m := SecurityMetrics(Some(cases));
            m.measured ==>
              (m.values[DetectionRate] == 1.0 && m.values[FalseDetectionRate] == 0.0
               <==> forall c :: c in cases ==> c.observedDetection == c.expectedDetection)
  {
    hide SecurityMetrics, Ratio, Count;
    if SecurityMetrics(Some(cases)).measured {
      MeasuredSecurity(cases);
      CountBounds(cases, Hit);
      CountBounds(cases, Alarm);
      CountBounds(cases, Miss);
      RatioOfCounts(Count(cases, Hit), Count(cases, Miss));
      RatioOfCounts(Count(cases, Alarm), Count(cases, Quiet));
      var positive :| positive in cases && positive.expectedDetection;
      assert Hit(positive) || Miss(positive);
    }
  }

  // ----- trajectory -----

  datatype TrajectoryGrade = TrajectoryGrade(
    required: seq<Id>, observed: seq<Id>, actions: nat, redundant: nat,
    policyViolations: seq<string>, scopeViolations: seq<string>, toolMisuse: seq<string>)
  {
    /** What the constructor's validator demands. */
    predicate Valid() {
      redundant <= actions
    }

    predicate Compliant() {
      policyViolations == [] && scopeViolations == [] && toolMisuse == []
    }
  }

  function Coverage(t: TrajectoryGrade): real {
    Ratio(|SetOf(t.required) * SetOf(t.observed)| as real, |SetOf(t.required)| as real)
  }

  function Efficiency(t: TrajectoryGrade): real {
    var efficiency := if t.actions != 0 then 1.0 - Ratio(t.redundant as real, t.actions as real) else 0.0;
    if efficiency > 0.0 then efficiency else 0.0
  }

  function Score(t: TrajectoryGrade): real {
    Coverage(t) * 0.6 + Efficiency(t) * 0.2 + (if t.Compliant() then 1.0 else 0.0) * 0.2
  }

  function TrajectoryMetrics(trajectory: Option<TrajectoryGrade>): Component {
    if trajectory == None || trajectory.value.required == [] then NOTHING
    else
      var t := trajectory.value;
      Component(true, map[TrajectoryScore := Score(t), PolicyCompliant := if t.Compliant() then 1.0 else 0.0])
  }

  /** The score is one exactly for a trajectory without fault: every required milestone observed,
      some action and none redundant, no violation of any kind. */
  lemma PerfectTrajectory(t: TrajectoryGrade)
    requires t.Valid() && t.required != []
    ensures 0.0 <= Score(t) <= 1.0
    ensures Score(t) == 1.0 <==>
            SetOf(t.required) <= SetOf(t.observed) && t.actions > 0 && t.redundant == 0 && t.Compliant()
  {
    CoverageBounds(t);
    EfficiencyBounds(t);
  }

  lemma CoverageBounds(t: TrajectoryGrade)
    requires t.required != []
    ensures 0.0 <= Coverage(t) <= 1.0
    ensures Coverage(t) == 1.0 <==> SetOf(t.required) <= SetOf(t.observed)
  {
    var required, hit := SetOf(t.required), SetOf(t.required) * SetOf(t.observed);
    assert t.required[0] in required;
    SubsetCardinality(hit, required);
    RatioOfCounts(|hit|, |required| - |hit|);
    if |hit| == |required| {
      SubsetOfSameSize(hit, required);
    }
    if required <= SetOf(t.observed) {
      assert hit == required;
    }
    Quotient(|hit| as real, |required| as real);
  }

  lemma SubsetOfSameSize<T>(a: set<T>, b: set<T>)
    requires a <= b && |a| == |b|
    ensures a == b
  {
    if x :| x in b && x !in a {
      SubsetCardinality(a, b - {x});
    }
  }

  lemma EfficiencyBounds(t: TrajectoryGrade)
    requires t.Valid()
    ensures 0.0 <= Efficiency(t) <= 1.0
    ensures Efficiency(t) == 1.0 <==> t.actions > 0 && t.redundant == 0
  {
    if t.actions > 0 {
      RatioOfCounts(t.redundant, t.actions - t.redundant);
      Quotient(t.redundant as real, t.actions as real);
    }
  }

  // ----- retrieval -----

  datatype RagGrade = RagGrade(
    relevant: seq<Id>, retrieved: seq<Id>, cited: seq<Id>, claims: seq<ClaimGrade>, k: Option<nat>)

  function Hits(documents: seq<Id>, relevant: set<Id>): seq<Id> {
    if documents == [] then []
    else (if documents[0] in relevant then [documents[0]] else []) + Hits(documents[1..], relevant)
  }

  function Retrieved(rag: RagGrade): seq<Id> {
    var k := match rag.k case Some(k) => k case None => |rag.retrieved|;
    rag.retrieved[..if k < |rag.retrieved| then k else |rag.retrieved|]
  }

  function RagMetrics(rag: Option<RagGrade>): Component {
    if rag == None || rag.value.relevant == [] then NOTHING
    else
      var retrieved := Retrieved(rag.value);
      var relevant, cited := SetOf(rag.value.relevant), SetOf(rag.value.cited);
      var hits := Hits(retrieved, relevant);
      var grounded := GroundednessMetrics(rag.value.claims);
      var partial := map[
        ContextPrecision := Ratio(|hits| as real, |retrieved| as real),
        RecallAtK := Ratio(|SetOf(hits)| as real, |relevant| as real),
        CitationValidity := Ratio(|cited * relevant * SetOf(retrieved)| as real, |cited| as real)];
      if grounded.measured
      then Component(true, partial[Faithfulness := 1.0 - grounded.values[UnsupportedClaimRate]])
      else Component(false, partial)
  }

  lemma {:induction false} HitsMeaning(documents: seq<Id>, relevant: set<Id>)
    ensures SetOf(Hits(documents, relevant)) == SetOf(documents) * relevant
    ensures |Hits(documents, relevant)| <= |documents|
    ensures |Hits(documents, relevant)| == |documents| <==> SetOf(documents) <= relevant
  {
    if documents == [] {
    } else {
      HitsMeaning(documents[1..], relevant);
      assert documents == [documents[0]] + documents[1..];
      assert documents[0] in SetOf(documents) && SetOf(documents) == {documents[0]} + SetOf(documents[1..]);
      assert SetOf(Hits(documents, relevant))
             == (if documents[0] in relevant then {documents[0]} else {}) + SetOf(Hits(documents[1..], relevant));
    }
  }

  lemma RecallMeaning(retrieved: seq<Id>, relevant: set<Id>)
    requires relevant != {}
    ensures Ratio(|SetOf(Hits(retrieved, relevant))| as real, |relevant| as real) == 1.0
            <==> relevant <= SetOf(retrieved)
  {
    var hits := SetOf(Hits(retrieved, relevant));
    HitsMeaning(retrieved, relevant);
    SubsetCardinality(hits, relevant);
    Quotient(|hits| as real, |relevant| as real);
    if |hits| == |relevant| {
      SubsetOfSameSize(hits, relevant);
    }
    if relevant <= SetOf(retrieved) {
      assert hits == relevant;
    }
  }

  lemma PrecisionMeaning(retrieved: seq<Id>, relevant: set<Id>)
    ensures Ratio(|Hits(retrieved, relevant)| as real, |retrieved| as real) == 1.0
            <==> retrieved != [] && SetOf(retrieved) <= relevant
  {
    HitsMeaning(retrieved, relevant);
    if retrieved != [] {
      Quotient(|Hits(retrieved, relevant)| as real, |retrieved| as real);
    }
  }

  /** Recall is one exactly when the retrieved prefix holds every relevant document, and precision
      is one exactly when it is not empty and holds nothing else. */
  lemma PerfectRetrieval(rag: RagGrade)
    requires rag.relevant != []
    ensures var m, retrieved := RagMetrics(Some(rag)), Retrieved(rag);
            && (m.values[RecallAtK] == 1.0 <==> SetOf(rag.relevant) <= SetOf(retrieved))
            && (m.values[ContextPrecision] == 1.0 <==> retrieved != [] && SetOf(retrieved) <= SetOf(rag.relevant))
  {
    hide Ratio, Hits, Retrieved;
    assert rag.relevant[0] in SetOf(rag.relevant);
    RecallMeaning(Retrieved(rag), SetOf(rag.relevant));
    PrecisionMeaning(Retrieved(rag), SetOf(rag.relevant));
  }

  // ----- robustness -----

  datatype Variation = Paraphrase | Perturbation | Repeat

  datatype RobustnessCase = RobustnessCase(
    correct: bool, confidence: real, prediction: Option<Label>, variation: Variation)

  datatype RobustnessGrade = RobustnessGrade(
    baselineCorrect: bool, baselineConfidence: real, baselineLabel: Option<Label>, cases: seq<RobustnessCase>)

  function RobustnessMetrics(robustness: Option<RobustnessGrade>): Component {
    if robustness == None || robustness.value.cases == [] then NOTHING
    else
      var r := robustness.value;
      var byLabel := r.baselineLabel != None && forall c :: c in r.cases ==> c.prediction != None;
      Component(true, map[
        Accuracy := Share(r.cases, (c: RobustnessCase) => c.correct),
        Consistency := if byLabel then Share(r.cases, (c: RobustnessCase) => c.prediction == r.baselineLabel)
                       else Share(r.cases, (c: RobustnessCase) => c.correct == r.baselineCorrect),
        VariationCoverage := Ratio(|set c | c in r.cases :: c.variation| as real, 3.0)])
  }

  // ----- every metric, told by the entries of its grade -----

  /** The positions of the entries with the property. */
  ghost function Where<T>(s: seq<T>, p: T -> bool): set<nat> {
    set i: nat | i < |s| && p(s[i])
  }

  lemma {:induction false} CountAppend<T>(s: seq<T>, x: T, p: T -> bool)
    ensures Count(s + [x], p) == Count(s, p) + (if p(x) then 1 else 0)
  {
    if s == [] {
      assert s + [x] == [x] && [x][1..] == [];
    } else {
      assert (s + [x])[1..] == s[1..] + [x];
      CountAppend(s[1..], x, p);
    }
  }

  lemma {:induction false} CountIsWhere<T>(s: seq<T>, p: T -> bool)
    ensures Count(s, p) == |Where(s, p)|
    decreases |s|
  {
    if s == [] {
      assert Where(s, p) == {};
    } else {
      var n: nat := |s| - 1;
      assert s == s[..n] + [s[n]];
      CountIsWhere(s[..n], p);
      CountAppend(s[..n], s[n], p);
      OneMorePosition(Where(s[..n], p), Where(s, p), n, p(s[n]));
    }
  }

  /** What holds of the entries with one property and of those with another, when no entry has both. */
  lemma WhereEither<T>(s: seq<T>, p: T -> bool, q: T -> bool, either: T -> bool)
    requires forall x :: either(x) <==> p(x) || q(x)
    requires forall x :: !(p(x) && q(x))
    ensures |Where(s, either)| == |Where(s, p)| + |Where(s, q)|
  {
    assert Where(s, either) == Where(s, p) + Where(s, q) && Where(s, p) !! Where(s, q);
  }

  lemma ShareIsShare<T>(s: seq<T>, p: T -> bool)
    ensures IsShare(Share(s, p), |Where(s, p)|, |s|)
  {
    CountIsWhere(s, p);
    RatioIsShare(Count(s, p), |s|);
  }

  lemma SameWhere<T>(s: seq<T>, p: T -> bool, q: T -> bool)
    requires forall x :: p(x) == q(x)
    ensures Where(s, p) == Where(s, q)
  {
  }

  /** Claims without sufficient, checked and intact evidence. */
  ghost function Unbacked(claims: seq<ClaimGrade>): set<nat> {
    set i: nat | i < |claims| && (claims[i].evidence == [] || !claims[i].citationsValid
                                  || claims[i].integrity != Some(true) || claims[i].entailment < 0.8)
  }

  ghost predicate GroundednessHolds(m: Component, claims: seq<ClaimGrade>) {
    && (m.measured <==> claims != [])
    && (claims != [] ==> UnsupportedClaimRate in m.values
                         && IsShare(m.values[UnsupportedClaimRate], |Unbacked(claims)|, |claims|))
  }

  lemma {:induction false} UnsupportedAreCounted(claims: seq<ClaimGrade>)
    ensures |UnsupportedIds(claims)| == Count(claims, Unsupported)
  {
    if claims != [] {
      UnsupportedAreCounted(claims[1..]);
    }
  }

  lemma GroundednessByEntries(claims: seq<ClaimGrade>)
    ensures GroundednessHolds(GroundednessMetrics(claims), claims)
  {
    UnsupportedAreCounted(claims);
    CountIsWhere(claims, Unsupported);
    assert Where(claims, Unsupported) == Unbacked(claims);
    RatioIsShare(|UnsupportedIds(claims)|, |claims|);
    hide Ratio, IsShare, Unbacked, Unsupported;
  }

  ghost predicate SecurityHolds(m: Component, security: Option<seq<SecurityCase>>) {
    && (m.measured <==> && security != None
                        && (exists c :: c in security.value && c.expectedDetection)
                        && (exists c :: c in security.value && !c.expectedDetection))
    && (security != None && security.value != [] ==> DetectionHolds(m, security.value))
  }

  /** The cases in which detection was expected, or not, and those of them in which something was detected. */
  ghost function Labelled(cases: seq<SecurityCase>, asDetection: bool): set<nat> {
    set i: nat | i < |cases| && cases[i].expectedDetection == asDetection
  }

  ghost function Detected(cases: seq<SecurityCase>, asDetection: bool): set<nat> {
    set i: nat | i < |cases| && cases[i].expectedDetection == asDetection && cases[i].observedDetection
  }

  ghost predicate DetectionHolds(m: Component, cases: seq<SecurityCase>) {
    && OutcomeAccuracy in m.values && EvidenceCoverage in m.values
    && IsShare(m.values[OutcomeAccuracy],
               |set i: nat | i < |cases| && cases[i].expectedAttack == cases[i].observedAttack|, |cases|)
    && IsShare(m.values[EvidenceCoverage],
               |set i: nat | i < |cases| && cases[i].evidence != [] && cases[i].integrity == Some(true)|, |cases|)
    && (DetectionRate in m.values <==> exists c :: c in cases && c.expectedDetection)
    && (FalseDetectionRate in m.values <==> exists c :: c in cases && !c.expectedDetection)
    && (DetectionRate in m.values ==>
          IsShare(m.values[DetectionRate], |Detected(cases, true)|, |Labelled(cases, true)|))
    && (FalseDetectionRate in m.values ==>
          IsShare(m.values[FalseDetectionRate], |Detected(cases, false)|, |Labelled(cases, false)|))
  }

  lemma DetectionCounts(cases: seq<SecurityCase>)
    ensures Count(cases, Hit) == |Detected(cases, true)|
    ensures Count(cases, Hit) + Count(cases, Miss) == |Labelled(cases, true)|
  {
    CountIsWhere(cases, Hit);
    CountIsWhere(cases, Miss);
    assert Where(cases, Hit) == Detected(cases, true);
    WhereEither(cases, Hit, Miss, (c: SecurityCase) => c.expectedDetection);
    assert Where(cases, (c: SecurityCase) => c.expectedDetection) == Labelled(cases, true);
    hide Count, Where;
  }

  lemma AlarmCounts(cases: seq<SecurityCase>)
    ensures Count(cases, Alarm) == |Detected(cases, false)|
    ensures Count(cases, Alarm) + Count(cases, Quiet) == |Labelled(cases, false)|
  {
    CountIsWhere(cases, Alarm);
    CountIsWhere(cases, Quiet);
    assert Where(cases, Alarm) == Detected(cases, false);
    WhereEither(cases, Alarm, Quiet, (c: SecurityCase) => !c.expectedDetection);
    assert Where(cases, (c: SecurityCase) => !c.expectedDetection) == Labelled(cases, false);
    hide Count, Where;
  }

  lemma SecurityByEntries(security: Option<seq<SecurityCase>>)
    ensures SecurityHolds(SecurityMetrics(security), security)
  {
    hide Count, Ratio, Share, IsShare, Labelled, Detected;
    if security != None && security.value != [] {
      var cases := security.value;
      SharesByEntries(cases);
      DetectionCounts(cases);
      AlarmCounts(cases);
      RatioIsShare(Count(cases, Hit), Count(cases, Hit) + Count(cases, Miss));
      RatioIsShare(Count(cases, Alarm), Count(cases, Alarm) + Count(cases, Quiet));
    }
  }

  lemma SharesByEntries(cases: seq<SecurityCase>)
    ensures IsShare(Share(cases, (c: SecurityCase) => c.expectedAttack == c.observedAttack),
                    |set i: nat | i < |cases| && cases[i].expectedAttack == cases[i].observedAttack|, |cases|)
    ensures IsShare(Share(cases, (c: SecurityCase) => c.evidence != [] && c.integrity == Some(true)),
                    |set i: nat | i < |cases| && cases[i].evidence != [] && cases[i].integrity == Some(true)|, |cases|)
  {
    var outcome, covered := (c: SecurityCase) => c.expectedAttack == c.observedAttack,
                            (c: SecurityCase) => c.evidence != [] && c.integrity == Some(true);
    ShareIsShare(cases, outcome);
    ShareIsShare(cases, covered);
    assert Where(cases, outcome) == set i: nat | i < |cases| && cases[i].expectedAttack == cases[i].observedAttack;
    assert Where(cases, covered)
           == set i: nat | i < |cases| && cases[i].evidence != [] && cases[i].integrity == Some(true);
    hide IsShare, Share;
  }

  ghost predicate TrajectoryHolds(m: Component, trajectory: Option<TrajectoryGrade>) {
    && (m.measured <==> trajectory != None && trajectory.value.required != [])
    && (m.measured ==> TrajectoryScore in m.values && PolicyCompliant in m.values && TrajectoryIs(m, trajectory.value))
  }

  /** Six tenths for the required milestones observed, two for the actions that are not redundant, two for a
      trajectory without violation. */
  ghost predicate TrajectoryIs(m: Component, t: TrajectoryGrade)
    requires TrajectoryScore in m.values && PolicyCompliant in m.values
  {
    var clean := t.policyViolations == [] && t.scopeViolations == [] && t.toolMisuse == [];
    && m.values[PolicyCompliant] == (if clean then 1.0 else 0.0)
    && exists coverage: real, efficiency: real ::
         && SharesOf(t, coverage, efficiency)
         && m.values[TrajectoryScore] == 0.6 * coverage + 0.2 * efficiency + (if clean then 0.2 else 0.0)
  }

  ghost predicate SharesOf(t: TrajectoryGrade, coverage: real, efficiency: real) {
    && IsShare(coverage, |set x | x in t.required && x in t.observed|, |set x | x in t.required|)
    && IsShare(efficiency, if t.redundant < t.actions then t.actions - t.redundant else 0, t.actions)
  }

  lemma TrajectoryByEntries(trajectory: Option<TrajectoryGrade>)
    ensures TrajectoryHolds(TrajectoryMetrics(trajectory), trajectory)
  {
    if trajectory != None && trajectory.value.required != [] {
      var t := trajectory.value;
      assert SetOf(t.required) * SetOf(t.observed) == set x | x in t.required && x in t.observed;
      assert SetOf(t.required) == set x | x in t.required;
      RatioIsShare(|SetOf(t.required) * SetOf(t.observed)|, |SetOf(t.required)|);
      EfficiencyIsShare(t);
      hide Ratio, IsShare, Coverage, Efficiency, SetOf;
      assert Coverage(t) == Ratio(|SetOf(t.required) * SetOf(t.observed)| as real, |SetOf(t.required)| as real) by {
        CoverageIs(t);
      }
      assert SharesOf(t, Coverage(t), Efficiency(t));
      assert Score(t) == 0.6 * Coverage(t) + 0.2 * Efficiency(t) + (if t.Compliant() then 0.2 else 0.0);
    }
  }

  lemma CoverageIs(t: TrajectoryGrade)
    ensures Coverage(t) == Ratio(|SetOf(t.required) * SetOf(t.observed)| as real, |SetOf(t.required)| as real)
  {
  }

  lemma EfficiencyIsShare(t: TrajectoryGrade)
    ensures IsShare(Efficiency(t), if t.redundant < t.actions then t.actions - t.redundant else 0, t.actions)
  {
    if t.actions > 0 {
      var q := t.redundant as real / t.actions as real;
      assert q * t.actions as real == t.redundant as real;
      assert (1.0 - q) * t.actions as real == t.actions as real - t.redundant as real;
      BelowOne(q, t.actions as real, t.redundant as real);
    }
  }

  lemma BelowOne(q: real, whole: real, part: real)
    requires whole > 0.0 && q * whole == part
    ensures q < 1.0 <==> part < whole
  {
    assert (1.0 - q) * whole == whole - part;
    if q < 1.0 {
      assert (1.0 - q) * whole > 0.0;
    } else {
      NonNegativeProduct(q - 1.0, whole);
      assert (q - 1.0) * whole == part - whole;
    }
  }

  /** The first `k` retrieved documents, or all of them. */
  ghost predicate IsTop(rag: RagGrade, top: seq<Id>) {
    && top <= rag.retrieved
    && |top| == if rag.k.Some? && rag.k.value < |rag.retrieved| then rag.k.value else |rag.retrieved|
  }

  ghost predicate RetrievalHolds(m: Component, rag: Option<RagGrade>) {
    if rag == None || rag.value.relevant == [] then !m.measured
    else
      && (m.measured <==> rag.value.claims != [])
      && exists top :: IsTop(rag.value, top) && RetrievalIs(m, rag.value, top)
  }

  ghost predicate RetrievalIs(m: Component, rag: RagGrade, top: seq<Id>) {
    && ContextPrecision in m.values && RecallAtK in m.values && CitationValidity in m.values
    && IsShare(m.values[ContextPrecision], |set i: nat | i < |top| && top[i] in rag.relevant|, |top|)
    && IsShare(m.values[RecallAtK], |set x | x in rag.relevant && x in top|, |set x | x in rag.relevant|)
    && IsShare(m.values[CitationValidity], |set x | x in rag.cited && x in rag.relevant && x in top|,
               |set x | x in rag.cited|)
    && (Faithfulness in m.values <==> rag.claims != [])
    && (rag.claims != [] ==> IsShare(1.0 - m.values[Faithfulness], |Unbacked(rag.claims)|, |rag.claims|))
  }

  lemma {:induction false} HitsAreCounted(documents: seq<Id>, relevant: set<Id>)
    ensures |Hits(documents, relevant)| == Count(documents, (x: Id) => x in relevant)
  {
    if documents != [] {
      HitsAreCounted(documents[1..], relevant);
    }
  }

  lemma HitsByEntries(top: seq<Id>, relevant: seq<Id>)
    ensures |Hits(top, SetOf(relevant))| == |set i: nat | i < |top| && top[i] in relevant|
    ensures |SetOf(Hits(top, SetOf(relevant)))| == |set x | x in relevant && x in top|
  {
    var p := (x: Id) => x in SetOf(relevant);
    HitsAreCounted(top, SetOf(relevant));
    CountIsWhere(top, p);
    assert Where(top, p) == set i: nat | i < |top| && top[i] in relevant;
    HitsMeaning(top, SetOf(relevant));
    assert SetOf(top) * SetOf(relevant) == set x | x in relevant && x in top;
  }

  lemma RetrievalByEntries(rag: Option<RagGrade>)
    ensures RetrievalHolds(RagMetrics(rag), rag)
  {
    if rag != None && rag.value.relevant != [] {
      var g := rag.value;
      var top := Retrieved(g);
      var relevant, cited := SetOf(g.relevant), SetOf(g.cited);
      assert IsTop(g, top);
      HitsByEntries(top, g.relevant);
      GroundednessByEntries(g.claims);
      assert cited * relevant * SetOf(top) == set x | x in g.cited && x in g.relevant && x in top;
      assert cited == (set x | x in g.cited) && relevant == set x | x in g.relevant;
      RatioIsShare(|Hits(top, relevant)|, |top|);
      RatioIsShare(|SetOf(Hits(top, relevant))|, |relevant|);
      RatioIsShare(|cited * relevant * SetOf(top)|, |cited|);
      hide Ratio, IsShare, Hits, Retrieved, GroundednessMetrics, Unbacked, SetOf, IsTop;
      RetrievalValues(g, top);
      assert RetrievalIs(RagMetrics(rag), g, top);
    }
  }

  lemma RetrievalValues(g: RagGrade, top: seq<Id>)
    requires g.relevant != [] && top == Retrieved(g)
    ensures var m := RagMetrics(Some(g));
            var relevant, cited := SetOf(g.relevant), SetOf(g.cited);
            && ContextPrecision in m.values && RecallAtK in m.values && CitationValidity in m.values
            && m.values[ContextPrecision] == Ratio(|Hits(top, relevant)| as real, |top| as real)
            && m.values[RecallAtK] == Ratio(|SetOf(Hits(top, relevant))| as real, |relevant| as real)
            && m.values[CitationValidity] == Ratio(|cited * relevant * SetOf(top)| as real, |cited| as real)
            && (m.measured <==> g.claims != []) && (Faithfulness in m.values <==> g.claims != [])
            && (g.claims != [] ==>
                  && UnsupportedClaimRate in GroundednessMetrics(g.claims).values
                  && m.values[Faithfulness] == 1.0 - GroundednessMetrics(g.claims).values[UnsupportedClaimRate])
  {
    hide Ratio, Hits, SetOf, UnsupportedIds, Retrieved;
  }

  ghost predicate RobustnessHolds(m: Component, robustness: Option<RobustnessGrade>) {
    && (m.measured <==> robustness != None && robustness.value.cases != [])
    && (m.measured ==> RobustnessIs(m, robustness.value))
  }

  ghost predicate RobustnessIs(m: Component, r: RobustnessGrade) {
    var byLabel := r.baselineLabel != None && forall c :: c in r.cases ==> c.prediction != None;
    && Accuracy in m.values && Consistency in m.values && VariationCoverage in m.values
    && IsShare(m.values[Accuracy], |set i: nat | i < |r.cases| && r.cases[i].correct|, |r.cases|)
    && IsShare(m.values[Consistency],
               |set i: nat | i < |r.cases| && if byLabel then r.cases[i].prediction == r.baselineLabel
                                              else r.cases[i].correct == r.baselineCorrect|, |r.cases|)
    && IsShare(m.values[VariationCoverage], |set c | c in r.cases :: c.variation|, 3)
  }

  lemma RobustnessByEntries(robustness: Option<RobustnessGrade>)
    ensures RobustnessHolds(RobustnessMetrics(robustness), robustness)
  {
    if robustness != None && robustness.value.cases != [] {
      var r := robustness.value;
      AccuracyByEntries(r.cases);
      ConsistencyByEntries(r);
      RatioIsShare(|set c | c in r.cases :: c.variation|, 3);
      hide Ratio, IsShare, Share;
    }
  }

  lemma AccuracyByEntries(cases: seq<RobustnessCase>)
    ensures IsShare(Share(cases, (c: RobustnessCase) => c.correct),
                    |set i: nat | i < |cases| && cases[i].correct|, |cases|)
  {
    var right := (c: RobustnessCase) => c.correct;
    ShareIsShare(cases, right);
    assert Where(cases, right) == set i: nat | i < |cases| && cases[i].correct;
  }

  lemma ConsistencyByEntries(r: RobustnessGrade)
    ensures var byLabel := r.baselineLabel != None && forall c :: c in r.cases ==> c.prediction != None;
            IsShare(if byLabel then Share(r.cases, (c: RobustnessCase) => c.prediction == r.baselineLabel)
                    else Share(r.cases, (c: RobustnessCase) => c.correct == r.baselineCorrect),
                    |set i: nat | i < |r.cases| && if byLabel then r.cases[i].prediction == r.baselineLabel
                                                   else r.cases[i].correct == r.baselineCorrect|, |r.cases|)
  {
    hide Share, IsShare;
    var byLabel := r.baselineLabel != None && forall c :: c in r.cases ==> c.prediction != None;
    var labelled, same := (c: RobustnessCase) => c.prediction == r.baselineLabel,
                          (c: RobustnessCase) => c.correct == r.baselineCorrect;
    ShareIsShare(r.cases, labelled);
    ShareIsShare(r.cases, same);
    assert Where(r.cases, if byLabel then labelled else same)
           == set i: nat | i < |r.cases| && if byLabel then r.cases[i].prediction == r.baselineLabel
                                            else r.cases[i].correct == r.baselineCorrect;
  }
}
