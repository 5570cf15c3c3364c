/** The semantic judge: validation of its output, the grades built from it, and what they mean for
    the release gates. */
module Semantic {
  import opened Common
  import opened Metrics = Classification
  import opened Grades
  import opened Agreement
  import opened Release

  // ----- judge input and output -----

  datatype Claim = Claim(id: Id, evidence: seq<Id>)

  datatype TrajectoryInput = TrajectoryInput(required: seq<Id>, actions: seq<Id>)

  /** Model names are stripped and lower-cased. */
  datatype Payload = Payload(producers: seq<Id>, claims: seq<Claim>, trajectory: Option<TrajectoryInput>)

  datatype Stance = Supports | Refutes | Undecided

  datatype ClaimVerdict = ClaimVerdict(claimId: Id, stance: Stance, entailment: real, cited: seq<Id>)

  datatype Violation = Violation(actionId: Id, summary: string)

  datatype TrajectoryVerdict = TrajectoryVerdict(
    evaluated: bool, observed: seq<Id>, redundant: seq<Id>,
    policy: seq<Violation>, scope: seq<Violation>, misuse: seq<Violation>)

  datatype Output = Output(verdicts: seq<ClaimVerdict>, trajectory: TrajectoryVerdict, limitations: seq<string>)

  datatype SemanticError =
    | JudgeNotIndependent | ClaimSetMismatch | InvalidCitation | UnexpectedTrajectory
    | MissingTrajectoryVerdict | InvalidMilestone | InvalidActionReference | GradeRejected

  /** _ensure_unique accepts the list. */
  predicate Unique<T(==)>(s: seq<T>) {
    |s| == |SetOf(s)|
  }

  function ClaimIds(claims: seq<Claim>): seq<Id> {
    seq(|claims|, i requires 0 <= i < |claims| => claims[i].id)
  }

  function VerdictIds(verdicts: seq<ClaimVerdict>): seq<Id> {
    seq(|verdicts|, i requires 0 <= i < |verdicts| => verdicts[i].claimId)
  }

  /** The validators of the judge input. */
  predicate ValidPayload(p: Payload) {
    && Unique(ClaimIds(p.claims))
    && (p.trajectory != None ==>
          var t := p.trajectory.value; t.required != [] && t.actions != [] && Unique(t.required) && Unique(t.actions))
  }

  predicate Coherent(v: ClaimVerdict) {
    && 0.0 <= v.entailment <= 1.0
    && Unique(v.cited)
    && (v.stance == Supports ==> v.entailment >= 0.8 && v.cited != [])
    && (v.stance == Refutes ==> v.entailment < 0.8)
  }

  /** The validators of the judge output. */
  predicate ValidOutput(o: Output) {
    && (forall v :: v in o.verdicts ==> Coherent(v))
    && Unique(VerdictIds(o.verdicts)) && Unique(o.trajectory.observed) && Unique(o.trajectory.redundant)
  }

  // ----- validate_semantic_output -----

  predicate HasDecisions(t: TrajectoryVerdict) {
    t.observed != [] || t.redundant != [] || t.policy != [] || t.scope != [] || t.misuse != []
  }

  function Blamed(violations: seq<Violation>): set<Id> {
    set v | v in violations :: v.actionId
  }

  function Referenced(t: TrajectoryVerdict): set<Id> {
    SetOf(t.redundant) + Blamed(t.policy) + Blamed(t.scope) + Blamed(t.misuse)
  }

  /** Cites only evidence linked to its claim. */
  ghost predicate Linked(p: Payload, v: ClaimVerdict) {
    forall c :: c in p.claims && c.id == v.claimId ==> SetOf(v.cited) <= SetOf(c.evidence)
  }

  ghost predicate TrajectoryAccepted(p: Payload, t: TrajectoryVerdict) {
    match p.trajectory
    case None => !t.evaluated && !HasDecisions(t)
    case Some(input) =>
      t.evaluated && SetOf(t.observed) <= SetOf(input.required) && Referenced(t) <= SetOf(input.actions)
  }

  ghost predicate Accepted(p: Payload, o: Output) {
    && SetOf(VerdictIds(o.verdicts)) == SetOf(ClaimIds(p.claims))
    && (forall v :: v in o.verdicts ==> Linked(p, v))
    && TrajectoryAccepted(p, o.trajectory)
  }

  /** The error raised, by the first rule that is broken. */
  ghost function Objection(p: Payload, o: Output): Option<SemanticError> {
    var t := o.trajectory;
    if SetOf(VerdictIds(o.verdicts)) != SetOf(ClaimIds(p.claims)) then Some(ClaimSetMismatch)
    else if exists v :: v in o.verdicts && !Linked(p, v) then Some(InvalidCitation)
    else if p.trajectory == None then (if t.evaluated || HasDecisions(t) then Some(UnexpectedTrajectory) else None)
    else if !t.evaluated then Some(MissingTrajectoryVerdict)
    else if !(SetOf(t.observed) <= SetOf(p.trajectory.value.required)) then Some(InvalidMilestone)
    else if !(Referenced(t) <= SetOf(p.trajectory.value.actions)) then Some(InvalidActionReference)
    else None
  }

  lemma UniqueMeansDistinct<T>(s: seq<T>)
    ensures Unique(s) <==> Distinct(s)
  {
    SetOfCardinality(s);
    if Distinct(s) {
      DistinctCardinality(s);
    }
  }

  method ClaimsById(claims: seq<Claim>) returns (byId: map<Id, Claim>)
    requires Unique(ClaimIds(claims))
    ensures byId.Keys == SetOf(ClaimIds(claims))
    ensures forall c :: c in claims ==> c.id in byId && byId[c.id] == c
    ensures forall i :: i in byId ==> byId[i] in claims && byId[i].id == i
  {
    UniqueMeansDistinct(ClaimIds(claims));
    byId := map[];
    for k := 0 to |claims|
      invariant forall j :: 0 <= j < k ==> claims[j].id in byId && byId[claims[j].id] == claims[j]
      invariant forall i :: i in byId ==> byId[i] in claims[..k] && byId[i].id == i
    {
      assert claims[..k + 1] == claims[..k] + [claims[k]];
      forall j | 0 <= j < k ensures claims[j].id != claims[k].id {
        assert ClaimIds(claims)[j] != ClaimIds(claims)[k];
      }
      byId := byId[claims[k].id := claims[k]];
    }
    forall i ensures i in byId <==> i in SetOf(ClaimIds(claims)) {
      if i in byId {
        var j :| 0 <= j < |claims| && claims[j] == byId[i];
        assert ClaimIds(claims)[j] == i;
      }
      if i in ClaimIds(claims) {
        var j :| 0 <= j < |claims| && ClaimIds(claims)[j] == i;
        assert claims[j].id == i;
      }
    }
  }

  method CheckCitations(p: Payload, o: Output) returns (linked: bool)
    requires ValidPayload(p) && SetOf(VerdictIds(o.verdicts)) == SetOf(ClaimIds(p.claims))
    ensures linked <==> forall v :: v in o.verdicts ==> Linked(p, v)
  {
    var claims := ClaimsById(p.claims);
    for k := 0 to |o.verdicts|
      invariant forall j :: 0 <= j < k ==> Linked(p, o.verdicts[j])
    {
      var v := o.verdicts[k];
      assert VerdictIds(o.verdicts)[k] == v.claimId;
      assert v.claimId in SetOf(VerdictIds(o.verdicts));
      var allowed := SetOf(claims[v.claimId].evidence);
      assert Linked(p, v) <==> SetOf(v.cited) <= allowed;
      if !(SetOf(v.cited) <= allowed) {
        return false;
      }
    }
    linked := true;
  }

  /** The actions a trajectory verdict refers to. */
  method ReferencedActions(t: TrajectoryVerdict) returns (referenced: set<Id>)
    ensures referenced == Referenced(t)
  {
    var collections := [t.policy, t.scope, t.misuse];
    referenced := SetOf(t.redundant);
    for k := 0 to 3
      invariant referenced == SetOf(t.redundant) + (if k > 0 then Blamed(collections[0]) else {})
                              + (if k > 1 then Blamed(collections[1]) else {})
                              + (if k > 2 then Blamed(collections[2]) else {})
    {
      referenced := referenced + Blamed(collections[k]);
    }
  }

  method ValidateSemanticOutput(p: Payload, o: Output) returns (e: Option<SemanticError>)
    requires ValidPayload(p)
    ensures e == Objection(p, o)
    ensures e == None <==> Accepted(p, o)
    ensures ValidationSays(p, o, e)
  {
    ValidationByFields(p, o);
    hide ValidationSays;
    hide Linked, Referenced;
    if SetOf(VerdictIds(o.verdicts)) != SetOf(ClaimIds(p.claims)) {
      return Some(ClaimSetMismatch);
    }
    var linked := CheckCitations(p, o);
    if !linked {
      return Some(InvalidCitation);
    }
    if p.trajectory == None {
      return if o.trajectory.evaluated || HasDecisions(o.trajectory) then Some(UnexpectedTrajectory) else None;
    }
    if !o.trajectory.evaluated {
      return Some(MissingTrajectoryVerdict);
    }
    if !(SetOf(o.trajectory.observed) <= SetOf(p.trajectory.value.required)) {
      return Some(InvalidMilestone);
    }
    var referenced := ReferencedActions(o.trajectory);
    e := if referenced <= SetOf(p.trajectory.value.actions) then None else Some(InvalidActionReference);
  }

  // ----- run_semantic_evaluation -----

  function GradeOf(v: ClaimVerdict, evidence: seq<Id>): ClaimGrade {
    ClaimGrade(v.claimId, v.cited, v.entailment,
               v.stance == Supports && v.cited != [] && SetOf(v.cited) <= SetOf(evidence), Some(true))
  }

  function Summaries(violations: seq<Violation>): seq<string> {
    seq(|violations|, i requires 0 <= i < |violations| => violations[i].summary)
  }

  /** The constructor of a trajectory grade, which refuses more redundant actions than actions. */
  function MakeTrajectoryGrade(input: TrajectoryInput, t: TrajectoryVerdict): Result<TrajectoryGrade, SemanticError> {
    if |t.redundant| > |input.actions| then Err(GradeRejected)
    else Ok(TrajectoryGrade(input.required, t.observed, |input.actions|, |t.redundant|,
                            Summaries(t.policy), Summaries(t.scope), Summaries(t.misuse)))
  }

  predicate NeedsReview(p: Payload, o: Output) {
    || (exists v :: v in o.verdicts && v.stance != Supports)
    || o.trajectory.policy != [] || o.trajectory.scope != [] || o.trajectory.misuse != []
    || o.limitations != []
    || (p.trajectory != None && SetOf(p.trajectory.value.required) - SetOf(o.trajectory.observed) != {})
  }

  datatype Evaluation = Evaluation(
    review: bool, claimGrades: seq<ClaimGrade>, trajectoryGrade: Option<TrajectoryGrade>)

  /** The grade of a verdict, on the claim it names. */
  ghost predicate GradedBy(p: Payload, v: ClaimVerdict, grade: ClaimGrade) {
    exists c :: c in p.claims && c.id == v.claimId && grade == GradeOf(v, c.evidence)
  }

  /** The grades stand for the verdicts, one for one. */
  ghost predicate Graded(p: Payload, o: Output, grades: seq<ClaimGrade>) {
    && |grades| == |o.verdicts|
    && forall i :: 0 <= i < |grades| ==> GradedBy(p, o.verdicts[i], grades[i])
  }

  /** Distinct redundant ids taken from the distinct action ids cannot outnumber the actions. */
  lemma RedundantWithinActions(p: Payload, o: Output)
    requires ValidPayload(p) && ValidOutput(o) && Accepted(p, o) && p.trajectory != None
    ensures |o.trajectory.redundant| <= |p.trajectory.value.actions|
  {
    SubsetCardinality(SetOf(o.trajectory.redundant), SetOf(p.trajectory.value.actions));
  }

  lemma VerdictsNameClaims(p: Payload, o: Output)
    requires Accepted(p, o)
    ensures forall k :: 0 <= k < |o.verdicts| ==> o.verdicts[k].claimId in SetOf(ClaimIds(p.claims))
  {
    forall k | 0 <= k < |o.verdicts|
      ensures o.verdicts[k].claimId in SetOf(ClaimIds(p.claims))
    {
      assert VerdictIds(o.verdicts)[k] in SetOf(VerdictIds(o.verdicts));
    }
  }

  method GradeVerdicts(p: Payload, o: Output) returns (grades: seq<ClaimGrade>)
    requires ValidPayload(p) && Accepted(p, o)
    ensures Graded(p, o, grades)
  {
    hide GradeOf, Accepted, SetOf, ClaimIds, VerdictIds, Unique;
    var claims := ClaimsById(p.claims);
    VerdictsNameClaims(p, o);
    grades := [];
    for k := 0 to |o.verdicts|
      invariant |grades| == k
      invariant forall i :: 0 <= i < k ==> GradedBy(p, o.verdicts[i], grades[i])
    {
      var v := o.verdicts[k];
      var claim := claims[v.claimId];
      assert claim in p.claims && claim.id == v.claimId;
      grades := grades + [GradeOf(v, claim.evidence)];
    }
  }

  /** The evaluation a successful run returns. */
  ghost predicate Returned(p: Payload, o: Output, e: Evaluation) {
    && Graded(p, o, e.claimGrades) && e.review == NeedsReview(p, o)
    && (p.trajectory == None <==> e.trajectoryGrade == None)
    && (p.trajectory != None ==> MakeTrajectoryGrade(p.trajectory.value, o.trajectory) == Ok(e.trajectoryGrade.value))
  }

  /** Validated output never makes a grade constructor raise: no result is GradeRejected. */
  method RunSemanticEvaluation(p: Payload, judge: Id, resolved: Id, o: Output)
    returns (r: Result<Evaluation, SemanticError>)
    requires ValidPayload(p) && ValidOutput(o)
    ensures r.Ok? <==> judge !in p.producers && resolved !in p.producers && Accepted(p, o)
    ensures r.Err? ==> r.error == (if judge in p.producers || resolved in p.producers then JudgeNotIndependent
                                   else Objection(p, o).value) && r.error != GradeRejected
    ensures r.Ok? ==> Returned(p, o, r.value)
    ensures r.Ok? <==> judge !in p.producers && resolved !in p.producers && ValidationSays(p, o, None)
    ensures r.Err? ==> if judge in p.producers || resolved in p.producers then r.error == JudgeNotIndependent
                       else ValidationSays(p, o, Some(r.error))
    ensures r.Ok? ==> RunSays(p, o, r.value)
  {
    ValidationByFields(p, o);
    OneVerdictOfValidation(p, o);
    hide ValidationSays, RunSays;
    if judge in p.producers || resolved in p.producers {
      return Err(JudgeNotIndependent);
    }
    var objection := ValidateSemanticOutput(p, o);
    if objection != None {
      return Err(objection.value);
    }
    var grades := GradeVerdicts(p, o);
    var trajectory := None;
    if p.trajectory != None {
      RedundantWithinActions(p, o);
      var made := MakeTrajectoryGrade(p.trajectory.value, o.trajectory);
      assert made.Ok?;
      trajectory := Some(made.value);
    }
    r := Ok(Evaluation(NeedsReview(p, o), grades, trajectory));
    RunByFields(p, o, r.value);
  }

  /** The validation says one thing only. */
  lemma OneVerdictOfValidation(p: Payload, o: Output)
    ensures forall e :: ValidationSays(p, o, e) ==> e == Objection(p, o)
  {
    ValidationByFields(p, o);
    hide OnTheClaims, CitesEvidence, NamesActions, NamesMilestones, SaysNothing, Objection;
  }

  // ----- from validated output to gates -----

  /** A grade counts as unsupported exactly when the judge did not support the claim. */
  lemma UnsupportedExactlyUnlessSupports(v: ClaimVerdict, evidence: seq<Id>)
    requires Coherent(v) && SetOf(v.cited) <= SetOf(evidence)
    ensures Unsupported(GradeOf(v, evidence)) <==> v.stance != Supports
  {
  }

  lemma {:induction false} UnsupportedIdsEmpty(claims: seq<ClaimGrade>)
    ensures |UnsupportedIds(claims)| == 0 <==> forall c :: c in claims ==> !Unsupported(c)
    ensures |UnsupportedIds(claims)| <= |claims|
  {
    if claims != [] {
      UnsupportedIdsEmpty(claims[1..]);
      assert claims == [claims[0]] + claims[1..];
      assert forall c :: c in claims <==> c == claims[0] || c in claims[1..];
    }
  }

  ghost predicate AllSupported(o: Output) {
    forall v :: v in o.verdicts ==> v.stance == Supports
  }

  lemma GradesFollowVerdicts(p: Payload, o: Output, grades: seq<ClaimGrade>)
    requires ValidOutput(o) && Accepted(p, o) && Graded(p, o, grades)
    ensures AllSupported(o) <==> forall c :: c in grades ==> !Unsupported(c)
  {
    forall i | 0 <= i < |grades|
      ensures Unsupported(grades[i]) <==> o.verdicts[i].stance != Supports
    {
      assert GradedBy(p, o.verdicts[i], grades[i]) && o.verdicts[i] in o.verdicts;
      var c :| c in p.claims && c.id == o.verdicts[i].claimId && grades[i] == GradeOf(o.verdicts[i], c.evidence);
      UnsupportedExactlyUnlessSupports(o.verdicts[i], c.evidence);
    }
    if forall c :: c in grades ==> !Unsupported(c) {
      forall v | v in o.verdicts ensures v.stance == Supports {
        var i :| 0 <= i < |o.verdicts| && o.verdicts[i] == v;
        assert grades[i] in grades;
      }
    }
  }

  lemma RateIsZero(claims: seq<ClaimGrade>)
    requires claims != []
    ensures var m := GroundednessMetrics(claims);
            m.measured && UnsupportedClaimRate in m.values
            && (m.values[UnsupportedClaimRate] <= 0.0 <==> forall c :: c in claims ==> !Unsupported(c))
  {
    UnsupportedIdsEmpty(claims);
    RatioOfCounts(|UnsupportedIds(claims)|, |claims| - |UnsupportedIds(claims)|);
  }

  /** For supplied claims, the unsupported-claim gate holds exactly when the judge supported them all. */
  lemma GroundednessGateExactlyWhenAllSupported(p: Payload, o: Output, grades: seq<ClaimGrade>)
    requires ValidPayload(p) && ValidOutput(o) && Accepted(p, o) && Graded(p, o, grades) && p.claims != []
    ensures var m := GroundednessMetrics(grades);
            m.measured && UnsupportedClaimRate in m.values
            && (m.values[UnsupportedClaimRate] <= RELEASE_POLICY.maximumUnsupportedClaimRate <==> AllSupported(o))
  {
    hide GroundednessMetrics, Unsupported;
    assert ClaimIds(p.claims)[0] == p.claims[0].id;
    assert p.claims[0].id in SetOf(VerdictIds(o.verdicts));
    GradesFollowVerdicts(p, o, grades);
    RateIsZero(grades);
  }

  lemma FullScore(t: TrajectoryGrade)
    requires t.Valid() && t.required != [] && t.actions > 0
    requires SetOf(t.required) <= SetOf(t.observed) && t.Compliant()
    ensures Score(t) == 1.0 - 0.2 * (t.redundant as real / t.actions as real)
  {
    CoverageBounds(t);
    Quotient(t.redundant as real, t.actions as real);
  }

  lemma QuarterRedundant(redundant: nat, actions: nat)
    requires actions > 0
    ensures 1.0 - 0.2 * (redundant as real / actions as real) >= 0.95 <==> 4 * redundant <= actions
  {
    var r, a := redundant as real, actions as real;
    var q := r / a;
    assert q * a == r;
    if q <= 0.25 {
      NonNegativeProduct(0.25 - q, a);
      assert (0.25 - q) * a == 0.25 * a - r;
    } else {
      assert (q - 0.25) * a > 0.0;
      assert (q - 0.25) * a == r - 0.25 * a;
    }
  }

  /** When no review is required: the unsupported-claim gate holds for supplied claims, the
      policy-compliance gate holds for a supplied trajectory, and its score gate holds exactly when
      at most a quarter of the actions are redundant. */
  lemma WithoutReviewGates(p: Payload, o: Output, grades: seq<ClaimGrade>)
    requires ValidPayload(p) && ValidOutput(o) && Accepted(p, o) && Graded(p, o, grades) && !NeedsReview(p, o)
    ensures p.claims != [] ==>
              GroundednessMetrics(grades).measured && UnsupportedClaimRate in GroundednessMetrics(grades).values
              && GroundednessMetrics(grades).values[UnsupportedClaimRate] <= RELEASE_POLICY.maximumUnsupportedClaimRate
    ensures p.trajectory != None ==>
              MakeTrajectoryGrade(p.trajectory.value, o.trajectory).Ok?
              && var m := TrajectoryMetrics(Some(MakeTrajectoryGrade(p.trajectory.value, o.trajectory).value));
                 && m.measured && m.values[PolicyCompliant] == 1.0
                 && (m.values[TrajectoryScore] >= RELEASE_POLICY.minimumTrajectoryScore
                     <==> 4 * |o.trajectory.redundant| <= |p.trajectory.value.actions|)
  {
    hide GroundednessMetrics, Score;
    if p.claims != [] {
      GroundednessGateExactlyWhenAllSupported(p, o, grades);
    }
    if p.trajectory != None {
      RedundantWithinActions(p, o);
      var t := MakeTrajectoryGrade(p.trajectory.value, o.trajectory).value;
      assert SetOf(t.required) <= SetOf(t.observed);
      FullScore(t);
      QuarterRedundant(t.redundant, t.actions);
    }
  }

  // ----- the semantic hold of create_evaluation -----

  datatype RequestError = CombinedGrades | MandatoryDimensionMissing | UndeclaredDimension

  function When(supplied: bool, d: Dimension): (dimensions: set<Dimension>)
    ensures forall e :: e in dimensions <==> supplied && e == d
  {
    if supplied then {d} else {}
  }

  function Supplied(r: Request): set<Dimension> {
    When(r.claims != [], Groundedness) + When(r.security != None, Dimension.Security)
    + When(r.trajectory != None, Trajectory) + When(r.rag != None, Rag)
    + When(r.robustness != None, Robustness) + When(r.judges != None, JudgeAgreement)
    + When(r.runs != None, Reproducibility) + When(r.costs != None, CostEfficiency)
  }

  /** What the request validator says about grades and dimensions, by the first rule that is broken. */
  function Rejection(r: Request, withRun: bool): Option<RequestError> {
    if withRun && (r.claims != [] || r.trajectory != None) then Some(CombinedGrades)
    else if !({Dimension.Classification, Dimension.Confidence} <= r.required) then Some(MandatoryDimensionMissing)
    else if !(Supplied(r) <= r.required) then Some(UndeclaredDimension)
    else None
  }

  function Effective(r: Request, run: Option<Evaluation>): Request {
    match run
    case None => r
    case Some(e) => r.(claims := e.claimGrades, trajectory := e.trajectoryGrade)
  }

  /** The rejection of the request as submitted, or of the request with the grades of the run in it. */
  function RejectionWith(r: Request, run: Option<Evaluation>): Option<RequestError> {
    var first := Rejection(r, run != None);
    if first != None then first else Rejection(Effective(r, run), false)
  }

  method CreateEvaluation(r: Request, run: Option<Evaluation>)
    returns (d: Result<Verdict, RequestError>)
    requires |r.expected| == |r.predicted| == |r.confidences|
    ensures d.Err? <==> RejectionWith(r, run) != None
    ensures d.Err? ==> RejectionWith(r, run) == Some(d.error)
    ensures d.Ok? ==>
              var c := ComponentsOf(Effective(r, run));
              && (d.value == Pass <==> AllRequiredHold(Specs(RELEASE_POLICY), c, r.required)
                                       && (run != None ==> !run.value.review))
              && (d.value == Fail <==> RequiredFailure(Specs(RELEASE_POLICY), c, r.required))
    ensures RequestSays(r, run, if d.Err? then Some(d.error) else None)
    ensures d.Ok? ==>
              exists c ::
                && Measures(c, Effective(r, run))
                && (d.value == Pass <==> PassesAll(c, r.required, RELEASE_POLICY) && (run == None || !run.value.review))
                && (d.value == Fail <==> FailsOne(c, r.required, RELEASE_POLICY))
  {
    RequestByFields(r, run);
    hide RequestSays, Measures, PassesAll, FailsOne;
    hide ComponentsOf, Specs, Supplied;
    var rejection := Rejection(r, run != None);
    if rejection != None {
      return Err(rejection.value);
    }
    var effective := Effective(r, run);
    rejection := Rejection(effective, false);
    if rejection != None {
      return Err(rejection.value);
    }
    var outcome := Evaluate(effective, RELEASE_POLICY);
    var decision := outcome.decision;
    if run != None && run.value.review && decision == Pass {
      decision := Inconclusive;
    }
    d := Ok(decision);
  }

  /** A release that passes on a semantic run rests on a run without fault: every claim supported, no
      violation, every milestone observed, and at most a quarter of the actions redundant. */
  lemma PassedRunIsClean(p: Payload, o: Output, e: Evaluation, r: Request)
    requires ValidPayload(p) && ValidOutput(o) && Accepted(p, o) && Returned(p, o, e)
    requires |r.expected| == |r.predicted| == |r.confidences|
    requires var effective := Effective(r, Some(e));
             RejectionWith(r, Some(e)) == None && !e.review
             && AllRequiredHold(Specs(RELEASE_POLICY), ComponentsOf(effective), r.required)
    ensures AllSupported(o)
    ensures p.trajectory != None ==>
              && SetOf(o.trajectory.observed) == SetOf(p.trajectory.value.required)
              && o.trajectory.policy == [] && o.trajectory.scope == [] && o.trajectory.misuse == []
              && 4 * |o.trajectory.redundant| <= |p.trajectory.value.actions|
  {
    hide ComponentsOf, Specs, Supplied, TrajectoryMetrics, GroundednessMetrics, Score, Graded, AllRequiredHold;
    WithoutReviewGates(p, o, e.claimGrades);
    if p.trajectory != None {
      TrajectoryIsRequired(r, e);
      ScoreGateHolds(Effective(r, Some(e)), r.required);
    }
  }

  lemma TrajectoryIsRequired(r: Request, e: Evaluation)
    requires RejectionWith(r, Some(e)) == None && e.trajectoryGrade != None
    ensures Trajectory in r.required
  {
    assert Trajectory in Supplied(Effective(r, Some(e)));
  }

  lemma ScoreGateHolds(r: Request, required: set<Dimension>)
    requires |r.expected| == |r.predicted| == |r.confidences| && Trajectory in required
    requires AllRequiredHold(Specs(RELEASE_POLICY), ComponentsOf(r), required)
    ensures var m := TrajectoryMetrics(r.trajectory);
            TrajectoryScore in m.values && m.values[TrajectoryScore] >= RELEASE_POLICY.minimumTrajectoryScore
  {
    hide TrajectoryMetrics, GroundednessMetrics, ClassificationComponent, ConfidenceComponent, SecurityMetrics,
      RagMetrics, RobustnessMetrics, AgreementComponent, CostMetrics;
    var s := Specs(RELEASE_POLICY)[13];
    assert s == GateSpec(Trajectory, TrajectoryScoreGate, TrajectoryScore, AtLeast, 0.95);
    assert Holds(s, ComponentsOf(r));
  }

  // ----- the run, told by the fields of input and output -----

  /** The verdicts are on the claims of the input, all of them and no other. */
  ghost predicate OnTheClaims(p: Payload, o: Output) {
    && (forall v :: v in o.verdicts ==> exists c :: c in p.claims && c.id == v.claimId)
    && (forall c :: c in p.claims ==> exists v :: v in o.verdicts && v.claimId == c.id)
  }

  /** Every citation is evidence of the claim it is cited for. */
  ghost predicate CitesEvidence(p: Payload, o: Output) {
    forall v, c, x :: v in o.verdicts && c in p.claims && c.id == v.claimId && x in v.cited ==> x in c.evidence
  }

  ghost predicate SaysNothing(t: TrajectoryVerdict) {
    t.observed == [] && t.redundant == [] && t.policy == [] && t.scope == [] && t.misuse == []
  }

  ghost predicate BlamesActions(violations: seq<Violation>, actions: seq<Id>) {
    forall v :: v in violations ==> v.actionId in actions
  }

  ghost predicate NamesActions(t: TrajectoryVerdict, actions: seq<Id>) {
    && (forall x :: x in t.redundant ==> x in actions)
    && BlamesActions(t.policy, actions) && BlamesActions(t.scope, actions) && BlamesActions(t.misuse, actions)
  }

  ghost predicate NamesMilestones(t: TrajectoryVerdict, required: seq<Id>) {
    forall x :: x in t.observed ==> x in required
  }

  /** What the validation says, and in which order it looks. */
  ghost predicate ValidationSays(p: Payload, o: Output, e: Option<SemanticError>) {
    if !OnTheClaims(p, o) then e == Some(ClaimSetMismatch)
    else if !CitesEvidence(p, o) then e == Some(InvalidCitation)
    else if p.trajectory == None then
      e == if o.trajectory.evaluated || !SaysNothing(o.trajectory) then Some(UnexpectedTrajectory) else None
    else if !o.trajectory.evaluated then e == Some(MissingTrajectoryVerdict)
    else if !NamesMilestones(o.trajectory, p.trajectory.value.required) then e == Some(InvalidMilestone)
    else if !NamesActions(o.trajectory, p.trajectory.value.actions) then e == Some(InvalidActionReference)
    else e == None
  }

  lemma ClaimsByFields(p: Payload, o: Output)
    ensures SetOf(VerdictIds(o.verdicts)) == SetOf(ClaimIds(p.claims)) <==> OnTheClaims(p, o)
    ensures (forall v :: v in o.verdicts ==> Linked(p, v)) <==> CitesEvidence(p, o)
  {
    CitationsByFields(p, o);
    hide VerdictIds, ClaimIds, Linked, CitesEvidence, SetOf;
    if OnTheClaims(p, o) {
      forall x
        ensures x in SetOf(VerdictIds(o.verdicts)) <==> x in SetOf(ClaimIds(p.claims))
      {
        IdsByFields(p, o, x);
      }
    }
    if SetOf(VerdictIds(o.verdicts)) == SetOf(ClaimIds(p.claims)) {
      forall v | v in o.verdicts
        ensures exists c :: c in p.claims && c.id == v.claimId
      {
        IdsByFields(p, o, v.claimId);
      }
      forall c | c in p.claims
        ensures exists v :: v in o.verdicts && v.claimId == c.id
      {
        IdsByFields(p, o, c.id);
      }
    }
  }

  lemma IdsByFields(p: Payload, o: Output, x: Id)
    ensures x in SetOf(VerdictIds(o.verdicts)) <==> exists v :: v in o.verdicts && v.claimId == x
    ensures x in SetOf(ClaimIds(p.claims)) <==> exists c :: c in p.claims && c.id == x
  {
    if v :| v in o.verdicts && v.claimId == x {
      var i :| 0 <= i < |o.verdicts| && o.verdicts[i] == v;
      assert VerdictIds(o.verdicts)[i] == x;
    }
    if x in VerdictIds(o.verdicts) {
      var i :| 0 <= i < |o.verdicts| && VerdictIds(o.verdicts)[i] == x;
      assert o.verdicts[i] in o.verdicts;
    }
    if c :| c in p.claims && c.id == x {
      var i :| 0 <= i < |p.claims| && p.claims[i] == c;
      assert ClaimIds(p.claims)[i] == x;
    }
    if x in ClaimIds(p.claims) {
      var i :| 0 <= i < |p.claims| && ClaimIds(p.claims)[i] == x;
      assert p.claims[i] in p.claims;
    }
  }

  lemma CitationsByFields(p: Payload, o: Output)
    ensures (forall v :: v in o.verdicts ==> Linked(p, v)) <==> CitesEvidence(p, o)
  {
    if forall v :: v in o.verdicts ==> Linked(p, v) {
      forall v, c, x | v in o.verdicts && c in p.claims && c.id == v.claimId && x in v.cited
        ensures x in c.evidence
      {
        assert Linked(p, v) && x in SetOf(v.cited);
      }
    }
  }

  lemma SubsetByMembers<T>(a: seq<T>, b: seq<T>)
    ensures SetOf(a) <= SetOf(b) <==> forall x :: x in a ==> x in b
  {
    if SetOf(a) <= SetOf(b) {
      forall x | x in a
        ensures x in b
      {
        assert x in SetOf(a);
      }
    }
  }

  lemma BlameByFields(violations: seq<Violation>, actions: seq<Id>)
    ensures Blamed(violations) <= SetOf(actions) <==> BlamesActions(violations, actions)
  {
    if Blamed(violations) <= SetOf(actions) {
      forall v | v in violations
        ensures v.actionId in actions
      {
        assert v.actionId in Blamed(violations);
      }
    }
  }

  lemma TrajectoryByFields(t: TrajectoryVerdict, required: seq<Id>, actions: seq<Id>)
    ensures Referenced(t) <= SetOf(actions) <==> NamesActions(t, actions)
    ensures SetOf(t.observed) <= SetOf(required) <==> NamesMilestones(t, required)
    ensures HasDecisions(t) <==> !SaysNothing(t)
  {
    BlameByFields(t.policy, actions);
    BlameByFields(t.scope, actions);
    BlameByFields(t.misuse, actions);
    SubsetByMembers(t.redundant, actions);
    SubsetByMembers(t.observed, required);
    hide Blamed, BlamesActions, SetOf;
  }

  lemma ValidationByFields(p: Payload, o: Output)
    ensures ValidationSays(p, o, Objection(p, o))
  {
    hide Linked, OnTheClaims, CitesEvidence, Referenced, NamesActions, NamesMilestones, SaysNothing, HasDecisions;
    hide VerdictIds, ClaimIds, SetOf;
    ClaimsByFields(p, o);
    TrajectoryByFields(o.trajectory, if p.trajectory == None then [] else p.trajectory.value.required,
                       if p.trajectory == None then [] else p.trajectory.value.actions);
  }

  /** Nobody has to look at the run: every claim is supported, nothing is held against the trajectory, the judge names
      no limitation, and every required milestone was observed. */
  ghost predicate SpeaksForItself(p: Payload, o: Output) {
    && (forall v :: v in o.verdicts ==> v.stance.Supports?)
    && |o.trajectory.policy| + |o.trajectory.scope| + |o.trajectory.misuse| + |o.limitations| == 0
    && (p.trajectory != None ==> forall x :: x in p.trajectory.value.required ==> x in o.trajectory.observed)
  }

  lemma ReviewByFields(p: Payload, o: Output)
    ensures NeedsReview(p, o) <==> !SpeaksForItself(p, o)
  {
    if p.trajectory != None {
      var missing := SetOf(p.trajectory.value.required) - SetOf(o.trajectory.observed);
      if x :| x in p.trajectory.value.required && x !in o.trajectory.observed {
        assert x in missing;
      }
      if missing != {} {
        var x :| x in missing;
      }
    }
  }

  /** The grade of a verdict on a claim. */
  ghost predicate GradeSays(grade: ClaimGrade, v: ClaimVerdict, c: Claim) {
    && grade.id == v.claimId && grade.evidence == v.cited && grade.entailment == v.entailment
    && (grade.citationsValid <==> v.stance.Supports? && v.cited != [] && forall x :: x in v.cited ==> x in c.evidence)
    && grade.integrity == Some(true)
  }

  ghost predicate OnItsClaim(p: Payload, v: ClaimVerdict, grade: ClaimGrade) {
    exists c :: c in p.claims && c.id == v.claimId && GradeSays(grade, v, c)
  }

  ghost predicate SummariesOf(summaries: seq<string>, violations: seq<Violation>) {
    |summaries| == |violations| && forall i :: 0 <= i < |summaries| ==> summaries[i] == violations[i].summary
  }

  ghost predicate TrajectorySays(grade: TrajectoryGrade, input: TrajectoryInput, t: TrajectoryVerdict) {
    && grade.required == input.required && grade.observed == t.observed
    && grade.actions == |input.actions| && grade.redundant == |t.redundant|
    && SummariesOf(grade.policyViolations, t.policy) && SummariesOf(grade.scopeViolations, t.scope)
    && SummariesOf(grade.toolMisuse, t.misuse)
  }

  /** What a successful run returns. */
  ghost predicate RunSays(p: Payload, o: Output, e: Evaluation) {
    && (e.review <==> !SpeaksForItself(p, o))
    && |e.claimGrades| == |o.verdicts|
    && (forall i :: 0 <= i < |o.verdicts| ==> OnItsClaim(p, o.verdicts[i], e.claimGrades[i]))
    && (e.trajectoryGrade != None <==> p.trajectory != None)
    && (p.trajectory != None ==> TrajectorySays(e.trajectoryGrade.value, p.trajectory.value, o.trajectory))
  }

  lemma RunByFields(p: Payload, o: Output, e: Evaluation)
    requires Returned(p, o, e)
    ensures RunSays(p, o, e)
  {
    hide NeedsReview, SpeaksForItself, OnItsClaim, GradedBy, MakeTrajectoryGrade, TrajectorySays;
    ReviewByFields(p, o);
    forall i | 0 <= i < |o.verdicts|
      ensures OnItsClaim(p, o.verdicts[i], e.claimGrades[i])
    {
      GradeByFields(p, o.verdicts[i], e.claimGrades[i]);
    }
    if p.trajectory != None {
      MadeByFields(p.trajectory.value, o.trajectory);
    }
  }

  lemma GradeByFields(p: Payload, v: ClaimVerdict, grade: ClaimGrade)
    requires GradedBy(p, v, grade)
    ensures OnItsClaim(p, v, grade)
  {
    var c :| c in p.claims && c.id == v.claimId && grade == GradeOf(v, c.evidence);
    SubsetByMembers(v.cited, c.evidence);
    assert GradeSays(grade, v, c);
  }

  lemma MadeByFields(input: TrajectoryInput, t: TrajectoryVerdict)
    ensures var made := MakeTrajectoryGrade(input, t);
            made.Ok? ==> TrajectorySays(made.value, input, t)
  {
  }

  /** The dimensions for which a request carries something. */
  ghost predicate Carries(r: Request, d: Dimension) {
    match d
    case Classification => false
    case Confidence => false
    case Groundedness => r.claims != []
    case Security => r.security != None
    case Trajectory => r.trajectory != None
    case Rag => r.rag != None
    case Robustness => r.robustness != None
    case JudgeAgreement => r.judges != None
    case Reproducibility => r.runs != None
    case CostEfficiency => r.costs != None
  }

  /** What the validators say to the request, with the grades of its semantic run in place of its own. */
  ghost predicate RequestSays(r: Request, run: Option<Evaluation>, e: Option<RequestError>) {
    var graded := if run == None then r
                  else r.(claims := run.value.claimGrades, trajectory := run.value.trajectoryGrade);
    if run != None && (r.claims != [] || r.trajectory != None) then e == Some(CombinedGrades)
    else if Dimension.Classification !in r.required || Confidence !in r.required
    then e == Some(MandatoryDimensionMissing)
    else if exists d :: d !in r.required && (Carries(r, d) || Carries(graded, d)) then e == Some(UndeclaredDimension)
    else e == None
  }

  lemma CarriedIsSupplied(r: Request, d: Dimension)
    ensures d in Supplied(r) <==> Carries(r, d)
  {
    hide When;
  }

  lemma CarriesAreSupplied(r: Request)
    ensures Supplied(r) <= r.required <==> forall d :: Carries(r, d) ==> d in r.required
  {
    forall d: Dimension
      ensures d in Supplied(r) <==> Carries(r, d)
    {
      CarriedIsSupplied(r, d);
    }
    hide Carries, Supplied;
  }

  lemma RequestByFields(r: Request, run: Option<Evaluation>)
    ensures RequestSays(r, run, RejectionWith(r, run))
  {
    CarriesAreSupplied(r);
    CarriesAreSupplied(Effective(r, run));
    hide Supplied, Carries;
  }
}
