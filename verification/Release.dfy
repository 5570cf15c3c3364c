/** Release gates and the release decision of the deterministic evaluator. */
module Release {
  import opened Common
  import opened Metrics = Classification
  import opened Calibration
  import opened Grades
  import opened Agreement

  datatype Dimension =
    | Classification | Confidence | Groundedness | Security | Trajectory | Rag | Robustness
    | JudgeAgreement | Reproducibility | CostEfficiency

  datatype GateName =
    | MinimumSampleSize | MinimumClassCount | MacroPrecisionGate | MacroRecallGate
    | MacroF1Gate | MacroFalsePositiveRateGate | CorrectnessBrierScoreGate | CalibrationErrorGate
    | UnsupportedClaimRateGate | SecurityOutcomeAccuracyGate | DetectionRateGate | FalseDetectionRateGate
    | SecurityEvidenceCoverageGate | TrajectoryScoreGate | TrajectoryPolicyComplianceGate | RagContextPrecisionGate
    | RagRecallAtKGate | RagFaithfulnessGate | CitationValidityGate | RobustnessVariationCoverageGate
    | RobustnessAccuracyGate | RobustnessConsistencyGate | CrossModelAgreementGate | RepeatRunAgreementGate
    | CostPerCaseUsdGate | P95LatencyMsGate | TimeoutRateGate | FallbackRateGate

  datatype Policy = Policy(
    minimumSampleSize: nat, minimumClassCount: nat, minimumMacroPrecision: real,
    minimumMacroRecall: real, minimumMacroF1: real, maximumMacroFalsePositiveRate: real,
    maximumCorrectnessBrierScore: real, maximumCalibrationError: real, maximumUnsupportedClaimRate: real,
    minimumSecurityOutcomeAccuracy: real, minimumDetectionRate: real, maximumFalseDetectionRate: real,
    minimumEvidenceCoverage: real, minimumTrajectoryScore: real, minimumRagRecallAtK: real,
    minimumRagContextPrecision: real, minimumRagFaithfulness: real, minimumCitationValidity: real,
    minimumRobustnessAccuracy: real, minimumRobustnessConsistency: real, minimumRobustnessVariationCoverage: real,
    minimumJudgeAgreement: real, minimumReproducibility: real, maximumCostPerCaseUsd: real,
    maximumP95LatencyMs: nat, maximumTimeoutRate: real, maximumFallbackRate: real)

  /** The one approved policy. */
  const RELEASE_POLICY := Policy(
    minimumSampleSize := 20, minimumClassCount := 2, minimumMacroPrecision := 0.95,
    minimumMacroRecall := 0.95, minimumMacroF1 := 0.95, maximumMacroFalsePositiveRate := 0.01,
    maximumCorrectnessBrierScore := 0.05, maximumCalibrationError := 0.05, maximumUnsupportedClaimRate := 0.0,
    minimumSecurityOutcomeAccuracy := 0.95, minimumDetectionRate := 0.95, maximumFalseDetectionRate := 0.01,
    minimumEvidenceCoverage := 1.0, minimumTrajectoryScore := 0.95, minimumRagRecallAtK := 0.90,
    minimumRagContextPrecision := 0.90, minimumRagFaithfulness := 0.95, minimumCitationValidity := 0.95,
    minimumRobustnessAccuracy := 0.95, minimumRobustnessConsistency := 0.95, minimumRobustnessVariationCoverage := 1.0,
    minimumJudgeAgreement := 0.95, minimumReproducibility := 0.95, maximumCostPerCaseUsd := 0.10,
    maximumP95LatencyMs := 15000, maximumTimeoutRate := 0.01, maximumFallbackRate := 0.20)

  datatype Operator = AtLeast | AtMost | Equal

  datatype GateSpec = GateSpec(dimension: Dimension, name: GateName, field: Field, operator: Operator, threshold: real)

  /** The gates, in source order. */
  function Specs(p: Policy): (r: seq<GateSpec>)
    ensures |r| == 28
  {
    [
      GateSpec(Dimension.Classification, MinimumSampleSize, SampleSize, AtLeast, p.minimumSampleSize as real),
      GateSpec(Dimension.Classification, MinimumClassCount, GroundTruthClassCount, AtLeast,
               p.minimumClassCount as real),
      GateSpec(Dimension.Classification, MacroPrecisionGate, MacroPrecision, AtLeast, p.minimumMacroPrecision),
      GateSpec(Dimension.Classification, MacroRecallGate, MacroRecall, AtLeast, p.minimumMacroRecall),
      GateSpec(Dimension.Classification, MacroF1Gate, MacroF1, AtLeast, p.minimumMacroF1),
      GateSpec(Dimension.Classification, MacroFalsePositiveRateGate, MacroFalsePositiveRate, AtMost,
               p.maximumMacroFalsePositiveRate),
      GateSpec(Confidence, CorrectnessBrierScoreGate, BrierScore, AtMost, p.maximumCorrectnessBrierScore),
      GateSpec(Confidence, CalibrationErrorGate, CalibrationError, AtMost, p.maximumCalibrationError),
      GateSpec(Groundedness, UnsupportedClaimRateGate, UnsupportedClaimRate, AtMost, p.maximumUnsupportedClaimRate),
      GateSpec(Security, SecurityOutcomeAccuracyGate, OutcomeAccuracy, AtLeast, p.minimumSecurityOutcomeAccuracy),
      GateSpec(Security, DetectionRateGate, DetectionRate, AtLeast, p.minimumDetectionRate),
      GateSpec(Security, FalseDetectionRateGate, FalseDetectionRate, AtMost, p.maximumFalseDetectionRate),
      GateSpec(Security, SecurityEvidenceCoverageGate, EvidenceCoverage, AtLeast, p.minimumEvidenceCoverage),
      GateSpec(Trajectory, TrajectoryScoreGate, TrajectoryScore, AtLeast, p.minimumTrajectoryScore),
      GateSpec(Trajectory, TrajectoryPolicyComplianceGate, PolicyCompliant, Equal, 1.0),
      GateSpec(Rag, RagContextPrecisionGate, ContextPrecision, AtLeast, p.minimumRagContextPrecision),
      GateSpec(Rag, RagRecallAtKGate, RecallAtK, AtLeast, p.minimumRagRecallAtK),
      GateSpec(Rag, RagFaithfulnessGate, Faithfulness, AtLeast, p.minimumRagFaithfulness),
      GateSpec(Rag, CitationValidityGate, CitationValidity, AtLeast, p.minimumCitationValidity),
      GateSpec(Robustness, RobustnessVariationCoverageGate, VariationCoverage, AtLeast,
               p.minimumRobustnessVariationCoverage),
      GateSpec(Robustness, RobustnessAccuracyGate, Accuracy, AtLeast, p.minimumRobustnessAccuracy),
      GateSpec(Robustness, RobustnessConsistencyGate, Consistency, AtLeast, p.minimumRobustnessConsistency),
      GateSpec(JudgeAgreement, CrossModelAgreementGate, PairwiseAgreement, AtLeast, p.minimumJudgeAgreement),
      GateSpec(Reproducibility, RepeatRunAgreementGate, PairwiseAgreement, AtLeast, p.minimumReproducibility),
      GateSpec(CostEfficiency, CostPerCaseUsdGate, CostPerCase, AtMost, p.maximumCostPerCaseUsd),
      GateSpec(CostEfficiency, P95LatencyMsGate, P95Latency, AtMost, p.maximumP95LatencyMs as real),
      GateSpec(CostEfficiency, TimeoutRateGate, TimeoutRate, AtMost, p.maximumTimeoutRate),
      GateSpec(CostEfficiency, FallbackRateGate, FallbackRate, AtMost, p.maximumFallbackRate)
    ]
  }

  datatype Components = Components(
    classification: Component, confidence: Component, groundedness: Component, security: Component,
    trajectory: Component, rag: Component, robustness: Component, judgeAgreement: Component,
    reproducibility: Component, costEfficiency: Component)
  {
    function Of(d: Dimension): Component {
      match d
      case Classification => classification
      case Confidence => confidence
      case Groundedness => groundedness
      case Security => security
      case Trajectory => trajectory
      case Rag => rag
      case Robustness => robustness
      case JudgeAgreement => judgeAgreement
      case Reproducibility => reproducibility
      case CostEfficiency => costEfficiency
    }
  }

  datatype Gate = Gate(dimension: Dimension, name: GateName, actual: Option<real>, passed: Option<bool>)

  predicate Satisfies(actual: real, operator: Operator, threshold: real) {
    match operator
    case AtLeast => actual >= threshold
    case AtMost => actual <= threshold
    case Equal => actual == threshold
  }

  /** _gate. */
  function GateFrom(s: GateSpec, component: Component): Gate {
    if s.field in component.values
    then Gate(s.dimension, s.name, Some(component.values[s.field]),
              Some(Satisfies(component.values[s.field], s.operator, s.threshold)))
    else Gate(s.dimension, s.name, None, None)
  }

  /** A gate after the pass over incomplete dimensions. */
  function FinalGate(s: GateSpec, c: Components): Gate {
    var gate := GateFrom(s, c.Of(s.dimension));
    if c.Of(s.dimension).measured then gate else gate.(passed := None)
  }

  function FinalGates(specs: seq<GateSpec>, c: Components): (r: seq<Gate>)
    ensures |r| == |specs|
  {
    seq(|specs|, i requires 0 <= i < |specs| => FinalGate(specs[i], c))
  }

  /** Names of the gates of the required dimensions with the given outcome, in order. */
  function Names(gates: seq<Gate>, required: set<Dimension>, passed: Option<bool>): seq<GateName> {
    if gates == [] then []
    else (if gates[0].dimension in required && gates[0].passed == passed then [gates[0].name] else [])
         + Names(gates[1..], required, passed)
  }

  function Missing(c: Components, required: set<Dimension>): set<Dimension> {
    set d | d in required && !c.Of(d).measured
  }

  function Decide(gates: seq<Gate>, c: Components, required: set<Dimension>): Verdict {
    var failed := Names(gates, required, Some(false));
    var sampleOnly := failed == [MinimumSampleSize];
    if failed != [] && !sampleOnly then Fail
    else if Missing(c, required) != {} || Names(gates, required, None) != [] || sampleOnly then Inconclusive
    else Pass
  }

  // ----- components -----

  datatype CostObservation = CostObservation(cost: real, latency: nat, fallback: bool, timedOut: bool)

  function TotalCost(observations: seq<CostObservation>): real {
    if observations == [] then 0.0 else observations[0].cost + TotalCost(observations[1..])
  }

  function Latencies(observations: seq<CostObservation>): seq<int> {
    seq(|observations|, i requires 0 <= i < |observations| => observations[i].latency)
  }

  function CostMetrics(costs: Option<seq<CostObservation>>, labelled: nat): Component {
    if costs == None || costs.value == [] || |costs.value| != labelled then NOTHING
    else
      Component(true, map[
        CostPerCase := Ratio(TotalCost(costs.value), |costs.value| as real),
        P95Latency := Percentile(Latencies(costs.value), 95) as real,
        TimeoutRate := Share(costs.value, (o: CostObservation) => o.timedOut),
        FallbackRate := Share(costs.value, (o: CostObservation) => o.fallback)])
  }

  datatype Request = Request(
    expected: seq<Label>, predicted: seq<Label>, confidences: seq<real>, required: set<Dimension>,
    claims: seq<ClaimGrade>, security: Option<seq<SecurityCase>>, trajectory: Option<TrajectoryGrade>,
    rag: Option<RagGrade>, robustness: Option<RobustnessGrade>, judges: Option<seq<Decision>>,
    runs: Option<seq<Decision>>, costs: Option<seq<CostObservation>>)

  function ClassificationComponent(expected: seq<Label>, predicted: seq<Label>, labels: seq<Label>): Component
    requires |expected| == |predicted|
  {
    Component(|SetOf(expected)| >= 2, map[
      SampleSize := |expected| as real,
      GroundTruthClassCount := |SetOf(expected)| as real,
      MacroPrecision := Macro(expected, predicted, labels, Precision),
      MacroRecall := Macro(expected, predicted, labels, Recall),
      MacroF1 := Macro(expected, predicted, labels, F1),
      MacroFalsePositiveRate := Macro(expected, predicted, labels, FalsePositiveRate)])
  }

  function ConfidenceComponent(samples: seq<Sample>): Component {
    Component(true, map[BrierScore := Brier(samples), CalibrationError := Ece(samples, 10, 10)])
  }

  function AgreementComponent(decisions: Option<seq<Decision>>): Component {
    if decisions == None || TallyOf(decisions.value, Cases(decisions.value)).cases == 0 then NOTHING
    else
      var t := TallyOf(decisions.value, Cases(decisions.value));
      Component(true, map[PairwiseAgreement := Ratio(t.agreeing as real, t.pairs as real)])
  }

  function ComponentsOf(r: Request): Components
    requires |r.expected| == |r.predicted| == |r.confidences|
  {
    Components(
      ClassificationComponent(r.expected, r.predicted, FirstSeen(r.expected + r.predicted)),
      ConfidenceComponent(Zip(r.expected, r.predicted, r.confidences)),
      GroundednessMetrics(r.claims), SecurityMetrics(r.security), TrajectoryMetrics(r.trajectory),
      RagMetrics(r.rag), RobustnessMetrics(r.robustness), AgreementComponent(r.judges),
      AgreementComponent(r.runs), CostMetrics(r.costs, |r.expected|))
  }

  // ----- gates and decision -----

  /** Every gate of a measured dimension has a value. */
  ghost predicate Complete(specs: seq<GateSpec>, c: Components) {
    forall i :: 0 <= i < |specs| && c.Of(specs[i].dimension).measured ==>
      specs[i].field in c.Of(specs[i].dimension).values
  }

  function FieldsOf(d: Dimension): set<Field> {
    match d
    case Classification =>
      {SampleSize, GroundTruthClassCount, MacroPrecision, MacroRecall, MacroF1, MacroFalsePositiveRate}
    case Confidence => {BrierScore, CalibrationError}
    case Groundedness => {UnsupportedClaimRate}
    case Security => {OutcomeAccuracy, DetectionRate, FalseDetectionRate, EvidenceCoverage}
    case Trajectory => {TrajectoryScore, PolicyCompliant}
    case Rag => {ContextPrecision, RecallAtK, Faithfulness, CitationValidity}
    case Robustness => {VariationCoverage, Accuracy, Consistency}
    case JudgeAgreement => {PairwiseAgreement}
    case Reproducibility => {PairwiseAgreement}
    case CostEfficiency => {CostPerCase, P95Latency, TimeoutRate, FallbackRate}
  }

  lemma SpecsReadTheirFields(p: Policy)
    ensures forall i :: 0 <= i < 28 ==> Specs(p)[i].field in FieldsOf(Specs(p)[i].dimension)
  {
  }

  lemma MeasuredHasFields(r: Request, d: Dimension)
    requires |r.expected| == |r.predicted| == |r.confidences|
    ensures var c := ComponentsOf(r).Of(d);
            c.measured ==> FieldsOf(d) <= c.values.Keys
  {
    hide Macro, Brier, Ece, Ratio, Share, Count, Percentile, TallyOf, Cases, FirstSeen;
  }

  /** A measured dimension never leaves one of its gates unavailable. */
  lemma MeasuredMeansAvailable(r: Request, p: Policy)
    requires |r.expected| == |r.predicted| == |r.confidences|
    ensures var c := ComponentsOf(r);
            && Complete(Specs(p), c)
            && forall i :: 0 <= i < 28 ==>
                 (FinalGates(Specs(p), c)[i].passed == None <==> !c.Of(Specs(p)[i].dimension).measured)
  {
    hide ComponentsOf, Specs, FieldsOf;
    SpecsReadTheirFields(p);
    forall d: Dimension
      ensures var c := ComponentsOf(r).Of(d);
              c.measured ==> FieldsOf(d) <= c.values.Keys
    {
      MeasuredHasFields(r, d);
    }
  }

  /** The requirement a gate puts on a measured dimension. */
  ghost predicate Holds(s: GateSpec, c: Components) {
    s.field in c.Of(s.dimension).values
    && Satisfies(c.Of(s.dimension).values[s.field], s.operator, s.threshold)
  }

  lemma {:induction false} NamesMeaning(gates: seq<Gate>, required: set<Dimension>, passed: Option<bool>)
    ensures forall n :: n in Names(gates, required, passed)
              <==> exists g :: g in gates && g.dimension in required && g.passed == passed && g.name == n
  {
    if gates != [] {
      NamesMeaning(gates[1..], required, passed);
      assert gates == [gates[0]] + gates[1..];
      assert forall g :: g in gates <==> g == gates[0] || g in gates[1..];
    }
  }

  ghost predicate Matches(g: Gate, required: set<Dimension>, passed: Option<bool>) {
    g.dimension in required && g.passed == passed
  }

  lemma NoNames(gates: seq<Gate>, required: set<Dimension>, passed: Option<bool>)
    ensures Names(gates, required, passed) == [] <==> forall g :: g in gates ==> !Matches(g, required, passed)
  {
    NamesMeaning(gates, required, passed);
    if g :| g in gates && Matches(g, required, passed) {
      assert g.name in Names(gates, required, passed);
    }
    if Names(gates, required, passed) != [] {
      assert Names(gates, required, passed)[0] in Names(gates, required, passed);
    }
  }

  /** The list of failures is just the sample-size gate when that gate fails and no other does. */
  lemma OnlyFirst(gates: seq<Gate>, required: set<Dimension>, passed: Option<bool>)
    requires gates != [] && forall g :: g in gates[1..] ==> g.name != gates[0].name
    ensures Names(gates, required, passed) == [gates[0].name]
            <==> Matches(gates[0], required, passed) && forall g :: g in gates[1..] ==> !Matches(g, required, passed)
  {
    NoNames(gates[1..], required, passed);
    NamesMeaning(gates[1..], required, passed);
    var rest := Names(gates[1..], required, passed);
    assert gates[0].name !in rest;
    assert gates[0].name in [gates[0].name];
  }

  /** A required gate that fails, other than the sample-size gate. */
  ghost predicate RequiredFailure(specs: seq<GateSpec>, c: Components, required: set<Dimension>) {
    exists i :: 1 <= i < |specs| && specs[i].dimension in required
                && c.Of(specs[i].dimension).measured && !Holds(specs[i], c)
  }

  ghost predicate AllRequiredHold(specs: seq<GateSpec>, c: Components, required: set<Dimension>) {
    (forall d :: d in required ==> c.Of(d).measured)
    && forall i :: 0 <= i < |specs| && specs[i].dimension in required ==> Holds(specs[i], c)
  }

  /** Sample size first and named once, as in the source. */
  ghost predicate SampleSizeFirst(specs: seq<GateSpec>) {
    && specs != [] && specs[0].name == MinimumSampleSize
    && forall i :: 1 <= i < |specs| ==> specs[i].name != MinimumSampleSize
  }

  lemma SpecsShape(p: Policy)
    ensures SampleSizeFirst(Specs(p))
  {
  }

  lemma OutcomeOf(specs: seq<GateSpec>, c: Components, i: nat)
    requires i < |specs| && Complete(specs, c)
    ensures var passed := FinalGates(specs, c)[i].passed; var measured := c.Of(specs[i].dimension).measured;
            && (passed == Some(false) <==> measured && !Holds(specs[i], c))
            && (passed == Some(true) <==> measured && Holds(specs[i], c))
            && (passed == None <==> !measured)
  {
  }

  lemma FailureMeaning(specs: seq<GateSpec>, c: Components, required: set<Dimension>)
    requires Complete(specs, c) && SampleSizeFirst(specs)
    ensures var failed := Names(FinalGates(specs, c), required, Some(false));
            failed != [] && failed != [MinimumSampleSize] <==> RequiredFailure(specs, c, required)
  {
    var gates := FinalGates(specs, c);
    FailuresAre(specs, c, required);
    assert forall g :: g in gates[1..] ==> g.name != MinimumSampleSize && gates[0].name == MinimumSampleSize;
    hide Names, Complete, FinalGates, Matches, RequiredFailure, SampleSizeFirst;
    OnlyFirst(gates, required, Some(false));
    NoNames(gates, required, Some(false));
    assert forall g :: g in gates <==> g == gates[0] || g in gates[1..];
  }

  /** Among the gates behind the first, some required one failed. */
  lemma FailuresAre(specs: seq<GateSpec>, c: Components, required: set<Dimension>)
    requires Complete(specs, c) && SampleSizeFirst(specs)
    ensures RequiredFailure(specs, c, required)
            <==> exists g :: g in FinalGates(specs, c)[1..] && Matches(g, required, Some(false))
  {
    var gates := FinalGates(specs, c);
    forall i | 0 <= i < |specs|
      ensures Matches(gates[i], required, Some(false))
              <==> specs[i].dimension in required && c.Of(specs[i].dimension).measured && !Holds(specs[i], c)
    {
      OutcomeOf(specs, c, i);
    }
    hide Complete, Holds, Matches, FinalGate, SampleSizeFirst;
    if RequiredFailure(specs, c, required) {
      var i :| 1 <= i < |specs| && specs[i].dimension in required
               && c.Of(specs[i].dimension).measured && !Holds(specs[i], c);
      assert gates[1..][i - 1] == gates[i];
    }
    if g :| g in gates[1..] && Matches(g, required, Some(false)) {
      var i :| 0 <= i < |gates[1..]| && gates[1..][i] == g;
      assert gates[i + 1] == g;
    }
  }

  /** The release passes exactly when every required dimension is measured and every required gate
      holds; it fails exactly when some required gate other than the sample size fails. */
  lemma DecisionMeaning(specs: seq<GateSpec>, c: Components, required: set<Dimension>)
    requires Complete(specs, c) && SampleSizeFirst(specs)
    ensures var decision := Decide(FinalGates(specs, c), c, required);
            && (decision == Fail <==> RequiredFailure(specs, c, required))
            && (decision == Pass <==> AllRequiredHold(specs, c, required))
  {
    var gates := FinalGates(specs, c);
    FailureMeaning(specs, c, required);
    NoNames(gates, required, Some(false));
    NoNames(gates, required, None);
    forall i | 0 <= i < |specs|
      ensures Matches(gates[i], required, Some(false))
              <==> specs[i].dimension in required && c.Of(specs[i].dimension).measured && !Holds(specs[i], c)
      ensures Matches(gates[i], required, None)
              <==> specs[i].dimension in required && !c.Of(specs[i].dimension).measured
    {
      OutcomeOf(specs, c, i);
    }
    if Decide(gates, c, required) == Pass {
      forall d | d in required
        ensures c.Of(d).measured
      {
        assert d !in Missing(c, required);
      }
      forall i | 0 <= i < |specs| && specs[i].dimension in required
        ensures Holds(specs[i], c)
      {
        assert gates[i] in gates;
      }
    }
    if AllRequiredHold(specs, c, required) {
      assert Missing(c, required) == {};
      forall g | g in gates
        ensures !Matches(g, required, Some(false)) && !Matches(g, required, None)
      {
        var i :| 0 <= i < |gates| && gates[i] == g;
      }
    }
  }

  function Standing(v: Verdict): nat {
    match v
    case Pass => 2
    case Inconclusive => 1
    case Fail => 0
  }

  /** Enlarging the required set only moves the decision down: pass, inconclusive, fail. */
  lemma RequiringMoreNeverHelps(specs: seq<GateSpec>, c: Components, required: set<Dimension>, more: set<Dimension>)
    requires Complete(specs, c) && SampleSizeFirst(specs) && required <= more
    ensures Standing(Decide(FinalGates(specs, c), c, more)) <= Standing(Decide(FinalGates(specs, c), c, required))
  {
    DecisionMeaning(specs, c, required);
    DecisionMeaning(specs, c, more);
  }

  /** Under the approved policy a measured classification always passes the class-count gate. */
  lemma ClassCountGateNeverFails(expected: seq<Label>, predicted: seq<Label>, labels: seq<Label>)
    requires |expected| == |predicted|
    ensures var c := ClassificationComponent(expected, predicted, labels);
            var gate := GateFrom(Specs(RELEASE_POLICY)[1], c);
            gate.name == MinimumClassCount && (gate.passed == Some(true) <==> c.measured)
  {
    hide Macro;
    var c := ClassificationComponent(expected, predicted, labels);
    assert Specs(RELEASE_POLICY)[1]
           == GateSpec(Dimension.Classification, MinimumClassCount, GroundTruthClassCount, AtLeast, 2.0);
    assert c.values[GroundTruthClassCount] == |SetOf(expected)| as real;
  }

  // ----- evaluate -----

  datatype Outcome = Outcome(
    components: Components, gates: seq<Gate>, failed: seq<GateName>, unavailable: seq<GateName>,
    missing: set<Dimension>, decision: Verdict)

  lemma NamesStep(gates: seq<Gate>, k: nat, required: set<Dimension>, passed: Option<bool>)
    requires k < |gates|
    ensures Names(gates[k..], required, passed)
            == (if gates[k].dimension in required && gates[k].passed == passed then [gates[k].name] else [])
               + Names(gates[k + 1..], required, passed)
  {
    assert gates[k..][1..] == gates[k + 1..];
  }

  lemma NoMoreNames(gates: seq<Gate>, required: set<Dimension>, passed: Option<bool>)
    ensures gates[0..] == gates && Names(gates[|gates|..], required, passed) == []
  {
  }

  method SelectNames(gates: seq<Gate>, required: set<Dimension>, passed: Option<bool>) returns (names: seq<GateName>)
    ensures names == Names(gates, required, passed)
  {
    hide Names;
    NoMoreNames(gates, required, passed);
    names := [];
    for k := 0 to |gates|
      invariant names + Names(gates[k..], required, passed) == Names(gates, required, passed)
    {
      NamesStep(gates, k, required, passed);
      if gates[k].dimension in required && gates[k].passed == passed {
        names := names + [gates[k].name];
      }
    }
  }

  /** The pass that withdraws the results of incomplete dimensions, over gates already computed. */
  method WithdrawIncomplete(gates: array<Gate>, specs: seq<GateSpec>, c: Components)
    requires gates.Length == |specs|
    requires forall i :: 0 <= i < |specs| ==> gates[i] == GateFrom(specs[i], c.Of(specs[i].dimension))
    modifies gates
    ensures gates[..] == FinalGates(specs, c)
  {
    for k := 0 to gates.Length
      invariant forall i :: 0 <= i < k ==> gates[i] == FinalGate(specs[i], c)
      invariant forall i :: k <= i < gates.Length ==> gates[i] == GateFrom(specs[i], c.Of(specs[i].dimension))
    {
      if !c.Of(gates[k].dimension).measured {
        gates[k] := gates[k].(passed := None);
      }
    }
  }

  method AgreementMetrics(decisions: Option<seq<Decision>>) returns (c: Component)
    ensures c == AgreementComponent(decisions)
  {
    if decisions == None {
      c := NOTHING;
    } else {
      var r := GroupedAgreement(decisions.value);
      c := r.component;
    }
  }

  method MeasureAll(r: Request) returns (c: Components)
    requires |r.expected| == |r.predicted| == |r.confidences|
    ensures c == ComponentsOf(r)
  {
    hide GroundednessMetrics, SecurityMetrics, TrajectoryMetrics, RagMetrics, RobustnessMetrics, CostMetrics,
      AgreementComponent, Macro, Brier, Ece, Zip, FirstSeen;
    var report := ClassificationMetrics(r.expected, r.predicted);
    var calibrated := ConfidenceMetrics(r.expected, r.predicted, r.confidences, 10);
    var judges := AgreementMetrics(r.judges);
    var runs := AgreementMetrics(r.runs);
    var classification := Component(report.measured, map[
      SampleSize := report.sampleSize as real, GroundTruthClassCount := report.groundTruthClasses as real,
      MacroPrecision := report.macroPrecision, MacroRecall := report.macroRecall, MacroF1 := report.macroF1,
      MacroFalsePositiveRate := report.macroFalsePositiveRate]);
    var confidence := Component(true, map[BrierScore := calibrated.brier, CalibrationError := calibrated.ece]);
    c := Components(
      classification, confidence, GroundednessMetrics(r.claims), SecurityMetrics(r.security),
      TrajectoryMetrics(r.trajectory), RagMetrics(r.rag), RobustnessMetrics(r.robustness), judges, runs,
      CostMetrics(r.costs, |r.expected|));
  }

  /** evaluate, under the policy the request names. */
  method Evaluate(r: Request, p: Policy) returns (o: Outcome)
    requires |r.expected| == |r.predicted| == |r.confidences|
    ensures o.components == ComponentsOf(r)
    ensures o.gates == FinalGates(Specs(p), o.components)
    ensures o.failed == Names(o.gates, r.required, Some(false)) && o.unavailable == Names(o.gates, r.required, None)
    ensures o.missing == Missing(o.components, r.required)
    ensures o.decision == Pass <==> AllRequiredHold(Specs(p), o.components, r.required)
    ensures o.decision == Fail <==> RequiredFailure(Specs(p), o.components, r.required)
    ensures Measures(o.components, r)
    ensures o.decision == Pass <==> PassesAll(o.components, r.required, p)
    ensures o.decision == Fail <==> FailsOne(o.components, r.required, p)
    ensures NamesHold(o.failed, o.unavailable, o.components, r.required, p)
    ensures forall d :: d in o.missing <==> d in r.required && !o.components.Of(d).measured
  {
    hide ComponentsOf, Specs, Names, Measures, PassesAll, FailsOne, NamesHold;
    var c := MeasureAll(r);
    var specs := Specs(p);
    var gates := new Gate[|specs|](i requires 0 <= i < |specs| => GateFrom(specs[i], c.Of(specs[i].dimension)));
    WithdrawIncomplete(gates, specs, c);
    var missing := Missing(c, r.required);
    var failed := SelectNames(gates[..], r.required, Some(false));
    var unavailable := SelectNames(gates[..], r.required, None);
    var sampleOnly := failed == [MinimumSampleSize];
    var decision;
    if failed != [] && !sampleOnly {
      decision := Fail;
    } else if missing != {} || unavailable != [] || sampleOnly {
      decision := Inconclusive;
    } else {
      decision := Pass;
    }
    o := Outcome(c, gates[..], failed, unavailable, missing, decision);
    MeasuredMeansAvailable(r, p);
    SpecsShape(p);
    DecisionMeaning(specs, c, r.required);
    ComponentsByEntries(r);
    DecisionByGates(c, r.required, p);
    NamesByGates(c, r.required, p);
  }

  // ----- the decision, gate by gate -----

  predicate Least(m: Component, f: Field, bound: real) {
    f in m.values && m.values[f] >= bound
  }

  predicate Most(m: Component, f: Field, bound: real) {
    f in m.values && m.values[f] <= bound
  }

  predicate Exactly(m: Component, f: Field, bound: real) {
    f in m.values && m.values[f] == bound
  }

  /** What each gate asks of which component. */
  predicate Meets(n: GateName, c: Components, p: Policy) {
    match n
    case MinimumSampleSize => Least(c.classification, SampleSize, p.minimumSampleSize as real)
    case MinimumClassCount => Least(c.classification, GroundTruthClassCount, p.minimumClassCount as real)
    case MacroPrecisionGate => Least(c.classification, MacroPrecision, p.minimumMacroPrecision)
    case MacroRecallGate => Least(c.classification, MacroRecall, p.minimumMacroRecall)
    case MacroF1Gate => Least(c.classification, MacroF1, p.minimumMacroF1)
    case MacroFalsePositiveRateGate => Most(c.classification, MacroFalsePositiveRate, p.maximumMacroFalsePositiveRate)
    case CorrectnessBrierScoreGate => Most(c.confidence, BrierScore, p.maximumCorrectnessBrierScore)
    case CalibrationErrorGate => Most(c.confidence, CalibrationError, p.maximumCalibrationError)
    case UnsupportedClaimRateGate => Most(c.groundedness, UnsupportedClaimRate, p.maximumUnsupportedClaimRate)
    case SecurityOutcomeAccuracyGate => Least(c.security, OutcomeAccuracy, p.minimumSecurityOutcomeAccuracy)
    case DetectionRateGate => Least(c.security, DetectionRate, p.minimumDetectionRate)
    case FalseDetectionRateGate => Most(c.security, FalseDetectionRate, p.maximumFalseDetectionRate)
    case SecurityEvidenceCoverageGate => Least(c.security, EvidenceCoverage, p.minimumEvidenceCoverage)
    case TrajectoryScoreGate => Least(c.trajectory, TrajectoryScore, p.minimumTrajectoryScore)
    case TrajectoryPolicyComplianceGate => Exactly(c.trajectory, PolicyCompliant, 1.0)
    case RagContextPrecisionGate => Least(c.rag, ContextPrecision, p.minimumRagContextPrecision)
    case RagRecallAtKGate => Least(c.rag, RecallAtK, p.minimumRagRecallAtK)
    case RagFaithfulnessGate => Least(c.rag, Faithfulness, p.minimumRagFaithfulness)
    case CitationValidityGate => Least(c.rag, CitationValidity, p.minimumCitationValidity)
    case RobustnessVariationCoverageGate => Least(c.robustness, VariationCoverage, p.minimumRobustnessVariationCoverage)
    case RobustnessAccuracyGate => Least(c.robustness, Accuracy, p.minimumRobustnessAccuracy)
    case RobustnessConsistencyGate => Least(c.robustness, Consistency, p.minimumRobustnessConsistency)
    case CrossModelAgreementGate => Least(c.judgeAgreement, PairwiseAgreement, p.minimumJudgeAgreement)
    case RepeatRunAgreementGate => Least(c.reproducibility, PairwiseAgreement, p.minimumReproducibility)
    case CostPerCaseUsdGate => Most(c.costEfficiency, CostPerCase, p.maximumCostPerCaseUsd)
    case P95LatencyMsGate => Most(c.costEfficiency, P95Latency, p.maximumP95LatencyMs as real)
    case TimeoutRateGate => Most(c.costEfficiency, TimeoutRate, p.maximumTimeoutRate)
    case FallbackRateGate => Most(c.costEfficiency, FallbackRate, p.maximumFallbackRate)
  }

  /** The same with the numbers of the approved policy. */
  predicate MeetsRelease(n: GateName, c: Components) {
    match n
    case MinimumSampleSize => Least(c.classification, SampleSize, 20.0)
    case MinimumClassCount => Least(c.classification, GroundTruthClassCount, 2.0)
    case MacroPrecisionGate => Least(c.classification, MacroPrecision, 0.95)
    case MacroRecallGate => Least(c.classification, MacroRecall, 0.95)
    case MacroF1Gate => Least(c.classification, MacroF1, 0.95)
    case MacroFalsePositiveRateGate => Most(c.classification, MacroFalsePositiveRate, 0.01)
    case CorrectnessBrierScoreGate => Most(c.confidence, BrierScore, 0.05)
    case CalibrationErrorGate => Most(c.confidence, CalibrationError, 0.05)
    case UnsupportedClaimRateGate => Most(c.groundedness, UnsupportedClaimRate, 0.0)
    case SecurityOutcomeAccuracyGate => Least(c.security, OutcomeAccuracy, 0.95)
    case DetectionRateGate => Least(c.security, DetectionRate, 0.95)
    case FalseDetectionRateGate => Most(c.security, FalseDetectionRate, 0.01)
    case SecurityEvidenceCoverageGate => Least(c.security, EvidenceCoverage, 1.0)
    case TrajectoryScoreGate => Least(c.trajectory, TrajectoryScore, 0.95)
    case TrajectoryPolicyComplianceGate => Exactly(c.trajectory, PolicyCompliant, 1.0)
    case RagContextPrecisionGate => Least(c.rag, ContextPrecision, 0.90)
    case RagRecallAtKGate => Least(c.rag, RecallAtK, 0.90)
    case RagFaithfulnessGate => Least(c.rag, Faithfulness, 0.95)
    case CitationValidityGate => Least(c.rag, CitationValidity, 0.95)
    case RobustnessVariationCoverageGate => Least(c.robustness, VariationCoverage, 1.0)
    case RobustnessAccuracyGate => Least(c.robustness, Accuracy, 0.95)
    case RobustnessConsistencyGate => Least(c.robustness, Consistency, 0.95)
    case CrossModelAgreementGate => Least(c.judgeAgreement, PairwiseAgreement, 0.95)
    case RepeatRunAgreementGate => Least(c.reproducibility, PairwiseAgreement, 0.95)
    case CostPerCaseUsdGate => Most(c.costEfficiency, CostPerCase, 0.10)
    case P95LatencyMsGate => Most(c.costEfficiency, P95Latency, 15000.0)
    case TimeoutRateGate => Most(c.costEfficiency, TimeoutRate, 0.01)
    case FallbackRateGate => Most(c.costEfficiency, FallbackRate, 0.20)
  }

  function DimensionOf(n: GateName): Dimension {
    match n
    case MinimumSampleSize => Dimension.Classification
    case MinimumClassCount => Dimension.Classification
    case MacroPrecisionGate => Dimension.Classification
    case MacroRecallGate => Dimension.Classification
    case MacroF1Gate => Dimension.Classification
    case MacroFalsePositiveRateGate => Dimension.Classification
    case CorrectnessBrierScoreGate => Dimension.Confidence
    case CalibrationErrorGate => Dimension.Confidence
    case UnsupportedClaimRateGate => Dimension.Groundedness
    case SecurityOutcomeAccuracyGate => Dimension.Security
    case DetectionRateGate => Dimension.Security
    case FalseDetectionRateGate => Dimension.Security
    case SecurityEvidenceCoverageGate => Dimension.Security
    case TrajectoryScoreGate => Dimension.Trajectory
    case TrajectoryPolicyComplianceGate => Dimension.Trajectory
    case RagContextPrecisionGate => Dimension.Rag
    case RagRecallAtKGate => Dimension.Rag
    case RagFaithfulnessGate => Dimension.Rag
    case CitationValidityGate => Dimension.Rag
    case RobustnessVariationCoverageGate => Dimension.Robustness
    case RobustnessAccuracyGate => Dimension.Robustness
    case RobustnessConsistencyGate => Dimension.Robustness
    case CrossModelAgreementGate => Dimension.JudgeAgreement
    case RepeatRunAgreementGate => Dimension.Reproducibility
    case CostPerCaseUsdGate => Dimension.CostEfficiency
    case P95LatencyMsGate => Dimension.CostEfficiency
    case TimeoutRateGate => Dimension.CostEfficiency
    case FallbackRateGate => Dimension.CostEfficiency
  }

  /** Where a gate stands in the list. */
  function Place(n: GateName): (place: nat)
    ensures place < 28
  {
    match n
    case MinimumSampleSize => 0
    case MinimumClassCount => 1
    case MacroPrecisionGate => 2
    case MacroRecallGate => 3
    case MacroF1Gate => 4
    case MacroFalsePositiveRateGate => 5
    case CorrectnessBrierScoreGate => 6
    case CalibrationErrorGate => 7
    case UnsupportedClaimRateGate => 8
    case SecurityOutcomeAccuracyGate => 9
    case DetectionRateGate => 10
    case FalseDetectionRateGate => 11
    case SecurityEvidenceCoverageGate => 12
    case TrajectoryScoreGate => 13
    case TrajectoryPolicyComplianceGate => 14
    case RagContextPrecisionGate => 15
    case RagRecallAtKGate => 16
    case RagFaithfulnessGate => 17
    case CitationValidityGate => 18
    case RobustnessVariationCoverageGate => 19
    case RobustnessAccuracyGate => 20
    case RobustnessConsistencyGate => 21
    case CrossModelAgreementGate => 22
    case RepeatRunAgreementGate => 23
    case CostPerCaseUsdGate => 24
    case P95LatencyMsGate => 25
    case TimeoutRateGate => 26
    case FallbackRateGate => 27
  }

  lemma GateInPlace(n: GateName, p: Policy, c: Components)
    ensures Place(n) < 28
    ensures var s := Specs(p)[Place(n)];
            s.name == n && s.dimension == DimensionOf(n) && (Holds(s, c) <==> Meets(n, c, p))
  {
    NameInPlace(n, p);
    if Place(n) < 14 {
      FirstHalf(n, p, c);
    } else {
      SecondHalf(n, p, c);
    }
    hide Specs, Meets, Holds, DimensionOf;
  }

  lemma NameInPlace(n: GateName, p: Policy)
    ensures Specs(p)[Place(n)].name == n && Specs(p)[Place(n)].dimension == DimensionOf(n)
  {
    if Place(n) < 14 {
      EarlyName(n, p);
    } else {
      LateName(n, p);
    }
    hide Specs, DimensionOf;
  }

  lemma EarlyName(n: GateName, p: Policy)
    requires Place(n) < 14
    ensures Specs(p)[Place(n)].name == n && Specs(p)[Place(n)].dimension == DimensionOf(n)
  {
  }

  lemma LateName(n: GateName, p: Policy)
    requires Place(n) >= 14
    ensures Specs(p)[Place(n)].name == n && Specs(p)[Place(n)].dimension == DimensionOf(n)
  {
  }

  lemma FirstHalf(n: GateName, p: Policy, c: Components)
    requires Place(n) < 14
    ensures Holds(Specs(p)[Place(n)], c) <==> Meets(n, c, p)
  {
    if Place(n) < 4 {
      FirstFour(n, p, c);
    } else if Place(n) < 8 {
      NextFour(n, p, c);
    } else {
      NextSix(n, p, c);
    }
    hide Specs, Holds, Meets;
  }

  lemma FirstFour(n: GateName, p: Policy, c: Components)
    requires Place(n) < 4
    ensures Holds(Specs(p)[Place(n)], c) <==> Meets(n, c, p)
  {
    hide DimensionOf;
  }

  lemma NextFour(n: GateName, p: Policy, c: Components)
    requires 4 <= Place(n) < 8
    ensures Holds(Specs(p)[Place(n)], c) <==> Meets(n, c, p)
  {
    hide DimensionOf;
  }

  lemma NextSix(n: GateName, p: Policy, c: Components)
    requires 8 <= Place(n) < 14
    ensures Holds(Specs(p)[Place(n)], c) <==> Meets(n, c, p)
  {
    hide DimensionOf;
  }

  lemma SecondHalf(n: GateName, p: Policy, c: Components)
    requires 14 <= Place(n) < 28
    ensures Holds(Specs(p)[Place(n)], c) <==> Meets(n, c, p)
  {
    if Place(n) < 21 {
      ThirdSeven(n, p, c);
    } else {
      LastSeven(n, p, c);
    }
    hide Specs, Holds, Meets;
  }

  lemma ThirdSeven(n: GateName, p: Policy, c: Components)
    requires 14 <= Place(n) < 21
    ensures Holds(Specs(p)[Place(n)], c) <==> Meets(n, c, p)
  {
    hide DimensionOf;
  }

  lemma LastSeven(n: GateName, p: Policy, c: Components)
    requires 21 <= Place(n) < 28
    ensures Holds(Specs(p)[Place(n)], c) <==> Meets(n, c, p)
  {
    hide DimensionOf;
  }

  lemma PlaceOfGate(p: Policy, i: nat)
    requires i < 28
    ensures Place(Specs(p)[i].name) == i
  {
    if i < 14 {
      PlaceOfEarlyGate(p, i);
    } else {
      PlaceOfLateGate(p, i);
    }
    hide Specs, Place;
  }

  lemma PlaceOfEarlyGate(p: Policy, i: nat)
    requires i < 14
    ensures Place(Specs(p)[i].name) == i
  {
  }

  lemma PlaceOfLateGate(p: Policy, i: nat)
    requires 14 <= i < 28
    ensures Place(Specs(p)[i].name) == i
  {
  }

  lemma MeetsByNumbers(n: GateName, c: Components)
    ensures Meets(n, c, RELEASE_POLICY) <==> MeetsRelease(n, c)
  {
  }

  /** Every required dimension is measured, and meets each of its gates. */
  ghost predicate PassesAll(c: Components, required: set<Dimension>, p: Policy) {
    (forall d :: d in required ==> c.Of(d).measured) && forall n :: DimensionOf(n) in required ==> Meets(n, c, p)
  }

  /** Some measured required dimension misses a gate other than the sample size. */
  ghost predicate FailsOne(c: Components, required: set<Dimension>, p: Policy) {
    exists n :: n != MinimumSampleSize && DimensionOf(n) in required && c.Of(DimensionOf(n)).measured && !Meets(n, c, p)
  }

  lemma DecisionByGates(c: Components, required: set<Dimension>, p: Policy)
    ensures AllRequiredHold(Specs(p), c, required) <==> PassesAll(c, required, p)
    ensures RequiredFailure(Specs(p), c, required) <==> FailsOne(c, required, p)
  {
    hide Specs, Meets, Holds, Place, DimensionOf;
    forall n: GateName
      ensures Place(n) < 28 && Specs(p)[Place(n)].name == n && Specs(p)[Place(n)].dimension == DimensionOf(n)
      ensures Holds(Specs(p)[Place(n)], c) <==> Meets(n, c, p)
    {
      GateInPlace(n, p, c);
    }
    forall i: nat | i < 28
      ensures Place(Specs(p)[i].name) == i
    {
      PlaceOfGate(p, i);
    }
    SpecsShape(p);
    if FailsOne(c, required, p) {
      var n :| n != MinimumSampleSize && DimensionOf(n) in required && c.Of(DimensionOf(n)).measured && !Meets(n, c, p);
      assert !Holds(Specs(p)[Place(n)], c);
    }
    if RequiredFailure(Specs(p), c, required) {
      var i: nat :| 1 <= i < 28 && Specs(p)[i].dimension in required
                    && c.Of(Specs(p)[i].dimension).measured && !Holds(Specs(p)[i], c);
      assert !Meets(Specs(p)[i].name, c, p);
    }
    if PassesAll(c, required, p) {
      forall i: nat | i < 28 && Specs(p)[i].dimension in required
        ensures Holds(Specs(p)[i], c)
      {
        assert Meets(Specs(p)[i].name, c, p);
      }
    }
    if AllRequiredHold(Specs(p), c, required) {
      forall n | DimensionOf(n) in required
        ensures Meets(n, c, p)
      {
        assert Holds(Specs(p)[Place(n)], c);
      }
    }
  }

  // ----- the components, told by the entries of the request -----

  ghost predicate ClassificationIs(m: Component, expected: seq<Label>, predicted: seq<Label>)
    requires |expected| == |predicted|
  {
    && (m.measured <==> |set l | l in expected| >= 2)
    && SampleSize in m.values && GroundTruthClassCount in m.values
    && m.values[SampleSize] == |expected| as real
    && m.values[GroundTruthClassCount] == |set l | l in expected| as real
    && exists labels, ms :: AllHold(ms, expected, predicted, labels) && MacrosAre(m, expected, predicted, labels, ms)
  }

  /** The macro entries are the means of the rates of their names over the labels. */
  ghost predicate MacrosAre(m: Component, expected: seq<Label>, predicted: seq<Label>, labels: seq<Label>,
                            ms: seq<ClassMetrics>)
  {
    && Distinct(labels) && (forall l :: l in labels <==> l in expected || l in predicted)
    && {MacroPrecision, MacroRecall, MacroF1, MacroFalsePositiveRate} <= m.values.Keys
    && IsMean(m.values[MacroPrecision], Precisions(ms)) && IsMean(m.values[MacroRecall], Recalls(ms))
    && IsMean(m.values[MacroF1], F1s(ms)) && IsMean(m.values[MacroFalsePositiveRate], FalsePositiveRates(ms))
  }

  /** Ten bins. */
  ghost predicate ConfidenceIs(m: Component, expected: seq<Label>, predicted: seq<Label>, confidences: seq<real>)
    requires |expected| == |predicted| == |confidences|
  {
    && m.measured && BrierScore in m.values && CalibrationError in m.values
    && IsMean(m.values[BrierScore], Gaps(expected, predicted, confidences))
    && exists shares: seq<real> ::
         |shares| == 10 && SharesHold(shares, expected, predicted, confidences, 10)
         && m.values[CalibrationError] == SumOf(shares)
  }

  ghost predicate AgreementIs(m: Component, decisions: Option<seq<Decision>>) {
    if decisions == None then !m.measured else AgreementHolds(m, decisions.value)
  }

  ghost predicate CostIs(m: Component, costs: Option<seq<CostObservation>>, labelled: nat) {
    && (m.measured <==> costs != None && costs.value != [] && |costs.value| == labelled)
    && (m.measured ==> CostsAre(m, costs.value))
  }

  function CostsOf(costs: seq<CostObservation>): (values: seq<real>)
    ensures |values| == |costs|
  {
    seq(|costs|, i requires 0 <= i < |costs| => costs[i].cost)
  }

  /** The latency is the least one that at least 95 of 100 cases do not exceed. */
  ghost predicate CostsAre(m: Component, costs: seq<CostObservation>) {
    && {CostPerCase, P95Latency, TimeoutRate, FallbackRate} <= m.values.Keys
    && IsMean(m.values[CostPerCase], CostsOf(costs))
    && IsShare(m.values[TimeoutRate], |set i: nat | i < |costs| && costs[i].timedOut|, |costs|)
    && IsShare(m.values[FallbackRate], |set i: nat | i < |costs| && costs[i].fallback|, |costs|)
    && exists latency: nat :: m.values[P95Latency] == latency as real && LatencyIs(costs, latency)
  }

  ghost predicate LatencyIs(costs: seq<CostObservation>, latency: nat) {
    && (exists c :: c in costs && c.latency == latency)
    && forall v: int :: latency <= v <==> |Within(costs, v)| * 100 >= |costs| * 95
  }

  ghost function Within(costs: seq<CostObservation>, v: int): set<nat> {
    set i: nat | i < |costs| && costs[i].latency <= v
  }

  /** Every component is what its entries give. */
  ghost predicate Measures(c: Components, r: Request)
    requires |r.expected| == |r.predicted| == |r.confidences|
  {
    && ClassificationIs(c.classification, r.expected, r.predicted)
    && ConfidenceIs(c.confidence, r.expected, r.predicted, r.confidences)
    && GroundednessHolds(c.groundedness, r.claims) && SecurityHolds(c.security, r.security)
    && TrajectoryHolds(c.trajectory, r.trajectory) && RetrievalHolds(c.rag, r.rag)
    && RobustnessHolds(c.robustness, r.robustness) && AgreementIs(c.judgeAgreement, r.judges)
    && AgreementIs(c.reproducibility, r.runs) && CostIs(c.costEfficiency, r.costs, |r.expected|)
  }

  lemma ClassificationByEntries(expected: seq<Label>, predicted: seq<Label>)
    requires |expected| == |predicted|
    ensures ClassificationIs(ClassificationComponent(expected, predicted, FirstSeen(expected + predicted)),
                             expected, predicted)
  {
    hide Macro, IsMean, AllHold, Precisions, Recalls, F1s, FalsePositiveRates, FalseNegativeRates, ClassesOf, FirstSeen;
    var labels := FirstSeen(expected + predicted);
    FirstSeenMeaning(expected + predicted);
    assert (set l | l in expected) == SetOf(expected);
    MacrosByName(expected, predicted, labels);
    var m := ClassificationComponent(expected, predicted, labels);
    assert MacrosAre(m, expected, predicted, labels, ClassesOf(expected, predicted, labels));
  }

  lemma ConfidenceByEntries(expected: seq<Label>, predicted: seq<Label>, confidences: seq<real>)
    requires |expected| == |predicted| == |confidences|
    ensures ConfidenceIs(ConfidenceComponent(Zip(expected, predicted, confidences)), expected, predicted, confidences)
  {
    CalibrationByPositions(expected, predicted, confidences, 10);
    hide Brier, Ece, Zip, Populated, SharesHold, RowsHold, Gaps, IsMean;
  }

  lemma AgreementByEntries(decisions: Option<seq<Decision>>)
    ensures AgreementIs(AgreementComponent(decisions), decisions)
  {
    hide TallyOf, Cases, Ratio, AgreementHolds;
    if decisions != None {
      AgreementByPairs(decisions.value);
    } else {
      assert !NOTHING.measured;
    }
  }

  lemma {:induction false} TotalIsSum(costs: seq<CostObservation>)
    ensures TotalCost(costs) == SumOf(CostsOf(costs))
  {
    if costs != [] {
      TotalIsSum(costs[1..]);
      assert CostsOf(costs)[1..] == CostsOf(costs[1..]);
    }
  }

  lemma {:induction false} AtMostIsWithin(costs: seq<CostObservation>, v: int)
    ensures AtMostCount(Latencies(costs), v) == Count(costs, (c: CostObservation) => c.latency <= v)
  {
    if costs != [] {
      AtMostIsWithin(costs[1..], v);
      assert Latencies(costs)[1..] == Latencies(costs[1..]);
    }
  }

  lemma LatencyByEntries(costs: seq<CostObservation>)
    requires costs != []
    ensures Percentile(Latencies(costs), 95) >= 0 && LatencyIs(costs, Percentile(Latencies(costs), 95))
  {
    var latency := Percentile(Latencies(costs), 95);
    forall v: int
      ensures latency in Latencies(costs)
      ensures latency <= v <==> |Within(costs, v)| * 100 >= |costs| * 95
    {
      var p := (c: CostObservation) => c.latency <= v;
      PercentileMeaning(Latencies(costs), 95, v);
      AtMostIsWithin(costs, v);
      CountIsWhere(costs, p);
      assert Where(costs, p) == Within(costs, v);
    }
    assert latency <= latency;
    var i :| 0 <= i < |costs| && Latencies(costs)[i] == latency;
    assert costs[i] in costs;
  }

  lemma CostByEntries(costs: Option<seq<CostObservation>>, labelled: nat)
    ensures CostIs(CostMetrics(costs, labelled), costs, labelled)
  {
    if costs != None && costs.value != [] && |costs.value| == labelled {
      var all := costs.value;
      var timedOut, fallback := (o: CostObservation) => o.timedOut, (o: CostObservation) => o.fallback;
      TotalIsSum(all);
      MeanFromSum(TotalCost(all), CostsOf(all));
      ShareIsShare(all, timedOut);
      ShareIsShare(all, fallback);
      assert Where(all, timedOut) == set i: nat | i < |all| && all[i].timedOut;
      assert Where(all, fallback) == set i: nat | i < |all| && all[i].fallback;
      LatencyByEntries(all);
      hide Percentile, Ratio, Share, TotalCost, IsMean, IsShare, LatencyIs, CostsOf, Where, Latencies;
    }
  }

  /** The components that are measured are what the entries of the request give. */
  lemma ComponentsByEntries(r: Request)
    requires |r.expected| == |r.predicted| == |r.confidences|
    ensures Measures(ComponentsOf(r), r)
  {
    ClassificationByEntries(r.expected, r.predicted);
    ConfidenceByEntries(r.expected, r.predicted, r.confidences);
    GroundednessByEntries(r.claims);
    SecurityByEntries(r.security);
    TrajectoryByEntries(r.trajectory);
    RetrievalByEntries(r.rag);
    RobustnessByEntries(r.robustness);
    AgreementByEntries(r.judges);
    AgreementByEntries(r.runs);
    CostByEntries(r.costs, |r.expected|);
    hide ClassificationIs, ConfidenceIs, GroundednessHolds, SecurityHolds, TrajectoryHolds, RetrievalHolds;
    hide RobustnessHolds, AgreementIs, CostIs, ClassificationComponent, ConfidenceComponent, GroundednessMetrics;
    hide SecurityMetrics, TrajectoryMetrics, RagMetrics, RobustnessMetrics, AgreementComponent, CostMetrics;
  }

  // ----- the lists of gate names -----

  /** A name is listed as failed exactly for a required, measured dimension that misses the gate, and as
      unavailable exactly for a required one that is not measured. */
  ghost predicate NamesHold(failed: seq<GateName>, unavailable: seq<GateName>, c: Components, required: set<Dimension>,
                            p: Policy)
  {
    && (forall n :: n in failed
          <==> DimensionOf(n) in required && c.Of(DimensionOf(n)).measured && !Meets(n, c, p))
    && (forall n :: n in unavailable <==> DimensionOf(n) in required && !c.Of(DimensionOf(n)).measured)
  }

  lemma NamesByGates(c: Components, required: set<Dimension>, p: Policy)
    requires Complete(Specs(p), c)
    ensures var gates := FinalGates(Specs(p), c);
            NamesHold(Names(gates, required, Some(false)), Names(gates, required, None), c, required, p)
  {
    hide Specs, Meets, Holds, DimensionOf, Names, Complete;
    var gates := FinalGates(Specs(p), c);
    forall n: GateName
      ensures n in Names(gates, required, Some(false))
              <==> DimensionOf(n) in required && c.Of(DimensionOf(n)).measured && !Meets(n, c, p)
      ensures n in Names(gates, required, None) <==> DimensionOf(n) in required && !c.Of(DimensionOf(n)).measured
    {
      GateInPlace(n, p, c);
      OutcomeOf(Specs(p), c, Place(n));
      NameListed(n, c, required, p, Some(false));
      NameListed(n, c, required, p, None);
    }
  }

  lemma NameListed(n: GateName, c: Components, required: set<Dimension>, p: Policy, passed: Option<bool>)
    ensures n in Names(FinalGates(Specs(p), c), required, passed)
            <==> DimensionOf(n) in required && FinalGates(Specs(p), c)[Place(n)].passed == passed
  {
    hide Specs, Meets, Holds, Place, DimensionOf, Names, FinalGates;
    var specs := Specs(p);
    var gates := FinalGates(specs, c);
    NamesMeaning(gates, required, passed);
    GateInPlace(n, p, c);
    GateAt(specs, c, Place(n));
    assert gates[Place(n)] in gates;
    if g :| g in gates && g.dimension in required && g.passed == passed && g.name == n {
      var i :| 0 <= i < |gates| && gates[i] == g;
      GateAt(specs, c, i);
      PlaceOfGate(p, i);
    }
  }

  lemma GateAt(specs: seq<GateSpec>, c: Components, i: nat)
    requires i < |specs|
    ensures FinalGates(specs, c)[i].name == specs[i].name && FinalGates(specs, c)[i].dimension == specs[i].dimension
  {
  }
}
