/** Binned calibration of the deterministic evaluator, in exact rationals before rounding. */
module Calibration {
  import opened Common
  import opened Classification

  /** One prediction: its confidence and whether it was right. */
  datatype Sample = Sample(confidence: real, correct: bool) {
    function Score(): real {
      if correct then 1.0 else 0.0
    }

    function Error(): real {
      Score() - confidence
    }
  }

  datatype Bin = Bin(lower: real, upper: real, count: nat, accuracy: real, averageConfidence: real)

  datatype Calibrated = Calibrated(brier: real, ece: real, bins: seq<Bin>)

  function Abs(x: real): real {
    if x < 0.0 then -x else x
  }

  function Zip(expected: seq<Label>, predicted: seq<Label>, confidences: seq<real>): (r: seq<Sample>)
    requires |expected| == |predicted| == |confidences|
    ensures |r| == |expected|
  {
    seq(|expected|, i requires 0 <= i < |expected| => Sample(confidences[i], expected[i] == predicted[i]))
  }

  function Lower(index: nat, bins: nat): real
    requires bins > 0
  {
    index as real / bins as real
  }

  predicate InBin(confidence: real, index: nat, bins: nat)
    requires index < bins
  {
    Lower(index, bins) <= confidence <= Lower(index + 1, bins)
    && (index == bins - 1 || confidence < Lower(index + 1, bins))
  }

  function Members(samples: seq<Sample>, index: nat, bins: nat): seq<Sample>
    requires index < bins
  {
    if samples == [] then []
    else (if InBin(samples[0].confidence, index, bins) then [samples[0]] else []) + Members(samples[1..], index, bins)
  }

  function ScoreSum(samples: seq<Sample>): real {
    if samples == [] then 0.0 else samples[0].Score() + ScoreSum(samples[1..])
  }

  function ConfidenceSum(samples: seq<Sample>): real {
    if samples == [] then 0.0 else samples[0].confidence + ConfidenceSum(samples[1..])
  }

  function SquaredErrors(samples: seq<Sample>): real {
    if samples == [] then 0.0 else samples[0].Error() * samples[0].Error() + SquaredErrors(samples[1..])
  }

  function AbsoluteErrors(samples: seq<Sample>): real {
    if samples == [] then 0.0 else Abs(samples[0].Error()) + AbsoluteErrors(samples[1..])
  }

  function Brier(samples: seq<Sample>): real {
    Ratio(SquaredErrors(samples), |samples| as real)
  }

  function MeanAbsoluteError(samples: seq<Sample>): real {
    Ratio(AbsoluteErrors(samples), |samples| as real)
  }

  /** The share of a bin, as a function of the sums over its members. */
  function BinShare(score: real, confidence: real, m: real, n: real): real
    requires m > 0.0 && n > 0.0
  {
    m / n * Abs(Ratio(score, m) - Ratio(confidence, m))
  }

  /** The share of one bin in the expected calibration error. */
  function BinTerm(samples: seq<Sample>, index: nat, bins: nat): real
    requires index < bins
  {
    var members := Members(samples, index, bins);
    if members == [] then 0.0
    else
      MembersAreFewer(samples, index, bins);
      BinShare(ScoreSum(members), ConfidenceSum(members), |members| as real, |samples| as real)
  }

  lemma {:induction false} MembersAreFewer(samples: seq<Sample>, index: nat, bins: nat)
    requires index < bins
    ensures |Members(samples, index, bins)| <= |samples|
  {
    if samples != [] {
      MembersAreFewer(samples[1..], index, bins);
    }
  }

  function Ece(samples: seq<Sample>, upTo: nat, bins: nat): real
    requires upTo <= bins
  {
    if upTo == 0 then 0.0 else Ece(samples, upTo - 1, bins) + BinTerm(samples, upTo - 1, bins)
  }

  function BinOf(samples: seq<Sample>, index: nat, bins: nat): Bin
    requires index < bins
  {
    var members := Members(samples, index, bins);
    Bin(Lower(index, bins), Lower(index + 1, bins), |members|,
        Ratio(ScoreSum(members), |members| as real), Ratio(ConfidenceSum(members), |members| as real))
  }

  /** The populated bins, in order. */
  function Populated(samples: seq<Sample>, upTo: nat, bins: nat): seq<Bin>
    requires upTo <= bins
  {
    if upTo == 0 then []
    else Populated(samples, upTo - 1, bins)
         + (if Members(samples, upTo - 1, bins) == [] then [] else [BinOf(samples, upTo - 1, bins)])
  }

  method CollectMembers(samples: seq<Sample>, index: nat, bins: nat) returns (members: seq<Sample>)
    requires index < bins
    ensures members == Members(samples, index, bins)
  {
    members := [];
    for k := 0 to |samples|
      invariant members == Members(samples[..k], index, bins)
    {
      assert samples[..k + 1] == samples[..k] + [samples[k]];
      MembersAppend(samples[..k], samples[k], index, bins);
      if InBin(samples[k].confidence, index, bins) {
        members := members + [samples[k]];
      }
    }
    assert samples[..|samples|] == samples;
  }

  lemma {:induction false} MembersAppend(samples: seq<Sample>, x: Sample, index: nat, bins: nat)
    requires index < bins
    ensures Members(samples + [x], index, bins)
            == Members(samples, index, bins) + (if InBin(x.confidence, index, bins) then [x] else [])
  {
    hide InBin;
    if samples == [] {
      assert samples + [x] == [x] && [x][1..] == [];
    } else {
      assert (samples + [x])[1..] == samples[1..] + [x];
      MembersAppend(samples[1..], x, index, bins);
      var head := if InBin(samples[0].confidence, index, bins) then [samples[0]] else [];
      var last := if InBin(x.confidence, index, bins) then [x] else [];
      assert head + (Members(samples[1..], index, bins) + last) == head + Members(samples[1..], index, bins) + last;
    }
  }

  /** The sums over the members of one bin. */
  method MemberSums(members: seq<Sample>) returns (score: real, confidence: real)
    ensures score == ScoreSum(members) && confidence == ConfidenceSum(members)
  {
    score, confidence := 0.0, 0.0;
    for k := 0 to |members|
      invariant score + ScoreSum(members[k..]) == ScoreSum(members)
      invariant confidence + ConfidenceSum(members[k..]) == ConfidenceSum(members)
    {
      assert members[k..][0] == members[k] && members[k..][1..] == members[k + 1..];
      score := score + members[k].Score();
      confidence := confidence + members[k].confidence;
    }
  }

  /** The Brier score, summed over the sample. */
  method BrierScore(samples: seq<Sample>) returns (brier: real)
    ensures brier == Brier(samples)
  {
    var total := 0.0;
    for k := 0 to |samples|
      invariant total + SquaredErrors(samples[k..]) == SquaredErrors(samples)
    {
      assert samples[k..][0] == samples[k] && samples[k..][1..] == samples[k + 1..];
      var error := samples[k].confidence - samples[k].Score();
      assert error * error == samples[k].Error() * samples[k].Error();
      total := total + error * error;
    }
    brier := Ratio(total, |samples| as real);
  }

  /** confidence_metrics. */
  method ConfidenceMetrics(expected: seq<Label>, predicted: seq<Label>, confidences: seq<real>, bins: nat)
    returns (r: Calibrated)
    requires |expected| == |predicted| == |confidences| && bins > 0
    ensures var samples := Zip(expected, predicted, confidences);
            r == Calibrated(Brier(samples), Ece(samples, bins, bins), Populated(samples, bins, bins))
    ensures CalibrationHolds(r, expected, predicted, confidences, bins)
  {
    CalibrationByPositions(expected, predicted, confidences, bins);
    hide CalibrationHolds;
    hide Zip, Brier, BinTerm, BinOf, Members;
    var samples := Zip(expected, predicted, confidences);
    var brier := BrierScore(samples);
    var ece := 0.0;
    var populated := [];
    for index := 0 to bins
      invariant ece == Ece(samples, index, bins)
      invariant populated == Populated(samples, index, bins)
    {
      var term, row := OneBin(samples, index, bins);
      ece := ece + term;
      populated := populated + row;
    }
    r := Calibrated(brier, ece, populated);
  }

  /** One turn of the loop over the bins: its share of the error, and its row if it is populated. */
  method OneBin(samples: seq<Sample>, index: nat, bins: nat) returns (term: real, row: seq<Bin>)
    requires index < bins
    ensures term == BinTerm(samples, index, bins)
    ensures row == if Members(samples, index, bins) == [] then [] else [BinOf(samples, index, bins)]
  {
    hide Members, Ratio, Abs, Lower;
    var members := CollectMembers(samples, index, bins);
    MembersAreFewer(samples, index, bins);
    if members == [] {
      return 0.0, [];
    }
    var score, confidence := MemberSums(members);
    var m := |members| as real;
    var accuracy, averageConfidence := Ratio(score, m), Ratio(confidence, m);
    term := m / |samples| as real * Abs(accuracy - averageConfidence);
    row := [Bin(Lower(index, bins), Lower(index + 1, bins), |members|, accuracy, averageConfidence)];
  }

  // ----- every confidence has one bin -----

  function BinIndex(confidence: real, bins: nat): nat
    requires 0.0 <= confidence <= 1.0 && bins > 0
  {
    var i := (confidence * bins as real).Floor;
    ScaledInRange(confidence, bins as real);
    if i >= bins then bins - 1 else i
  }

  lemma ScaledInRange(c: real, n: real)
    requires 0.0 <= c <= 1.0 && n > 0.0
    ensures 0.0 <= c * n <= n
    ensures c * n == n ==> c == 1.0
  {
    NonNegativeProduct(c, n);
    NonNegativeProduct(1.0 - c, n);
    assert (1.0 - c) * n == n - c * n;
  }

  lemma LowerScaled(index: nat, bins: nat, c: real)
    requires bins > 0
    ensures Lower(index, bins) <= c <==> index as real <= c * bins as real
  {
    var n, q := bins as real, Lower(index, bins);
    assert q * n == index as real;
    if q <= c {
      NonNegativeProduct(c - q, n);
      assert (c - q) * n == c * n - q * n;
    } else {
      assert (q - c) * n > 0.0;
      assert (q - c) * n == q * n - c * n;
    }
  }

  /** Every confidence in [0, 1] falls in exactly one bin. */
  lemma ExactlyOneBin(c: real, index: nat, bins: nat)
    requires 0.0 <= c <= 1.0 && index < bins
    ensures InBin(c, index, bins) <==> index == BinIndex(c, bins)
  {
    var n := bins as real;
    var scaled := c * n;
    ScaledInRange(c, n);
    LowerScaled(index, bins, c);
    LowerScaled(index + 1, bins, c);
    assert c == Lower(index + 1, bins) ==> scaled == (index + 1) as real by {
      if c == Lower(index + 1, bins) {
        assert Lower(index + 1, bins) * n == (index + 1) as real;
      }
    }
    if index == bins - 1 {
      assert Lower(index + 1, bins) == 1.0;
    }
  }

  // ----- sums over bins -----

  ghost predicate Confidences(samples: seq<Sample>) {
    forall i :: 0 <= i < |samples| ==> 0.0 <= samples[i].confidence <= 1.0
  }

  function CountUpTo(samples: seq<Sample>, upTo: nat, bins: nat): nat
    requires upTo <= bins
  {
    if upTo == 0 then 0 else CountUpTo(samples, upTo - 1, bins) + |Members(samples, upTo - 1, bins)|
  }

  function AbsoluteUpTo(samples: seq<Sample>, upTo: nat, bins: nat): real
    requires upTo <= bins
  {
    if upTo == 0 then 0.0 else AbsoluteUpTo(samples, upTo - 1, bins) + AbsoluteErrors(Members(samples, upTo - 1, bins))
  }

  lemma MembersStep(samples: seq<Sample>, index: nat, bins: nat)
    requires samples != [] && index < bins && 0.0 <= samples[0].confidence <= 1.0
    ensures var here := BinIndex(samples[0].confidence, bins) == index;
            && |Members(samples, index, bins)| == |Members(samples[1..], index, bins)| + (if here then 1 else 0)
            && AbsoluteErrors(Members(samples, index, bins))
               == AbsoluteErrors(Members(samples[1..], index, bins)) + (if here then Abs(samples[0].Error()) else 0.0)
  {
    ExactlyOneBin(samples[0].confidence, index, bins);
    var rest := Members(samples[1..], index, bins);
    if InBin(samples[0].confidence, index, bins) {
      assert Members(samples, index, bins) == [samples[0]] + rest;
      assert ([samples[0]] + rest)[1..] == rest;
    } else {
      assert Members(samples, index, bins) == [] + rest == rest;
    }
  }

  lemma {:induction false} SumsOverBins(samples: seq<Sample>, upTo: nat, bins: nat)
    requires samples != [] && upTo <= bins && bins > 0 && Confidences(samples)
    ensures var b := BinIndex(samples[0].confidence, bins);
            && CountUpTo(samples, upTo, bins) == CountUpTo(samples[1..], upTo, bins) + (if b < upTo then 1 else 0)
            && AbsoluteUpTo(samples, upTo, bins)
               == AbsoluteUpTo(samples[1..], upTo, bins) + (if b < upTo then Abs(samples[0].Error()) else 0.0)
  {
    if upTo > 0 {
      SumsOverBins(samples, upTo - 1, bins);
      MembersStep(samples, upTo - 1, bins);
    }
  }

  lemma {:induction false} EmptySums(upTo: nat, bins: nat)
    requires upTo <= bins
    ensures CountUpTo([], upTo, bins) == 0 && AbsoluteUpTo([], upTo, bins) == 0.0
  {
    if upTo > 0 {
      EmptySums(upTo - 1, bins);
    }
  }

  /** The bins partition the sample: their counts and their absolute errors add up to its own. */
  lemma {:induction false} BinsPartition(samples: seq<Sample>, bins: nat)
    requires bins > 0 && Confidences(samples)
    ensures CountUpTo(samples, bins, bins) == |samples|
    ensures AbsoluteUpTo(samples, bins, bins) == AbsoluteErrors(samples)
  {
    if samples == [] {
      EmptySums(bins, bins);
    } else {
      SumsOverBins(samples, bins, bins);
      BinsPartition(samples[1..], bins);
    }
  }

  function BinCounts(bins: seq<Bin>): nat {
    if bins == [] then 0 else BinCounts(bins[..|bins| - 1]) + bins[|bins| - 1].count
  }

  lemma {:induction false} PopulatedCounts(samples: seq<Sample>, upTo: nat, bins: nat)
    requires upTo <= bins
    ensures BinCounts(Populated(samples, upTo, bins)) == CountUpTo(samples, upTo, bins)
  {
    if upTo > 0 {
      PopulatedCounts(samples, upTo - 1, bins);
      var before := Populated(samples, upTo - 1, bins);
      if Members(samples, upTo - 1, bins) != [] {
        assert (before + [BinOf(samples, upTo - 1, bins)])[..|before|] == before;
      } else {
        assert before + [] == before;
      }
    }
  }

  /** The counts of the populated bins sum to the sample size. */
  lemma PopulatedCountsSumToSample(samples: seq<Sample>, bins: nat)
    requires bins > 0 && Confidences(samples)
    ensures BinCounts(Populated(samples, bins, bins)) == |samples|
  {
    PopulatedCounts(samples, bins, bins);
    BinsPartition(samples, bins);
  }

  // ----- bounds on the calibration error -----

  lemma {:induction false} ErrorOfSums(samples: seq<Sample>)
    ensures Abs(ScoreSum(samples) - ConfidenceSum(samples)) <= AbsoluteErrors(samples)
  {
    if samples != [] {
      ErrorOfSums(samples[1..]);
    }
  }

  lemma ScaledDifference(s: real, c: real, m: real, n: real)
    requires m > 0.0 && n > 0.0
    ensures m / n * Abs(s / m - c / m) == Abs(s - c) / n
  {
    var d := s / m - c / m;
    assert d * m == s - c by {
      assert s / m * m == s;
      assert c / m * m == c;
    }
    assert Abs(d) * m == Abs(s - c) by {
      if d < 0.0 {
        assert (-d) * m == -(d * m);
        NonNegativeProduct(-d, m);
      } else {
        NonNegativeProduct(d, m);
      }
    }
    assert m / n * Abs(d) == Abs(d) * m / n;
  }

  lemma MultiplyOrder(a: real, b: real, n: real)
    requires n > 0.0 && a < b
    ensures a * n < b * n
  {
    assert (b - a) * n > 0.0;
    assert (b - a) * n == b * n - a * n;
  }

  lemma CancelPositive(a: real, b: real, n: real)
    requires n > 0.0 && a * n <= b * n
    ensures a <= b
  {
    if a > b {
      MultiplyOrder(b, a, n);
    }
  }

  lemma DivideBack(d: real, n: real)
    requires n > 0.0
    ensures d / n * n == d
  {
  }

  lemma AddBounds(a: real, b: real, n: real, x: real, y: real)
    requires a * n <= x && b * n <= y
    ensures (a + b) * n <= x + y
  {
    assert (a + b) * n == a * n + b * n;
  }

  /** One bin, given the sums over its members. */
  lemma TermBound(score: real, confidence: real, absolute: real, m: real, n: real)
    requires m > 0.0 && n > 0.0 && Abs(score - confidence) <= absolute
    ensures 0.0 <= m / n * Abs(score / m - confidence / m)
    ensures m / n * Abs(score / m - confidence / m) * n <= absolute
  {
    ScaledDifference(score, confidence, m, n);
    DivideBack(Abs(score - confidence), n);
    CancelPositive(0.0, Abs(score - confidence) / n, n);
  }

  lemma BinShareBound(score: real, confidence: real, absolute: real, m: real, n: real)
    requires m > 0.0 && n > 0.0 && Abs(score - confidence) <= absolute
    ensures 0.0 <= BinShare(score, confidence, m, n) && BinShare(score, confidence, m, n) * n <= absolute
  {
    assert Ratio(score, m) == score / m && Ratio(confidence, m) == confidence / m;
    TermBound(score, confidence, absolute, m, n);
  }

  lemma BinTermBound(samples: seq<Sample>, index: nat, bins: nat, n: real)
    requires index < bins && samples != [] && n == |samples| as real
    ensures 0.0 <= BinTerm(samples, index, bins)
    ensures BinTerm(samples, index, bins) * n <= AbsoluteErrors(Members(samples, index, bins))
  {
    hide BinShare, Ratio, Abs;
    var members := Members(samples, index, bins);
    if members != [] {
      ErrorOfSums(members);
      BinShareBound(ScoreSum(members), ConfidenceSum(members), AbsoluteErrors(members), |members| as real, n);
    }
  }

  lemma {:induction false} EceBound(samples: seq<Sample>, upTo: nat, bins: nat, n: real)
    requires upTo <= bins && samples != [] && n == |samples| as real
    ensures 0.0 <= Ece(samples, upTo, bins)
    ensures Ece(samples, upTo, bins) * n <= AbsoluteUpTo(samples, upTo, bins)
  {
    hide BinTerm, Members, AbsoluteErrors;
    if upTo > 0 {
      EceBound(samples, upTo - 1, bins, n);
      BinTermBound(samples, upTo - 1, bins, n);
      AddBounds(Ece(samples, upTo - 1, bins), BinTerm(samples, upTo - 1, bins), n,
                AbsoluteUpTo(samples, upTo - 1, bins), AbsoluteErrors(Members(samples, upTo - 1, bins)));
    }
  }

  lemma MeanBound(e: real, total: real, n: real)
    requires n > 0.0 && e * n <= total
    ensures e <= total / n
  {
    DivideBack(total, n);
    CancelPositive(e, total / n, n);
  }

  /** The expected calibration error never exceeds the mean absolute error. */
  lemma EceAtMostMeanAbsoluteError(samples: seq<Sample>, bins: nat)
    requires bins > 0 && Confidences(samples)
    ensures 0.0 <= Ece(samples, bins, bins) <= MeanAbsoluteError(samples)
  {
    hide Ece, AbsoluteUpTo, BinTerm, AbsoluteErrors;
    if samples == [] {
      EceOfNothing(bins, bins);
    } else {
      EceBound(samples, bins, bins, |samples| as real);
      BinsPartition(samples, bins);
      MeanBound(Ece(samples, bins, bins), AbsoluteErrors(samples), |samples| as real);
    }
  }

  lemma {:induction false} EceOfNothing(upTo: nat, bins: nat)
    requires upTo <= bins
    ensures Ece([], upTo, bins) == 0.0
  {
    if upTo > 0 {
      EceOfNothing(upTo - 1, bins);
    }
  }

  /** One step of the inequality between the mean and the root mean square. */
  lemma SquareStep(s: real, q: real, x: real, n: real)
    requires n > 0.0 && s * s <= n * q
    ensures (s + x) * (s + x) <= (n + 1.0) * (q + x * x)
  {
    var d := s - n * x;
    assert d * d >= 0.0;
    assert d * d == s * s - 2.0 * (n * (s * x)) + n * (n * (x * x));
    assert n * q - 2.0 * (n * (s * x)) + n * (n * (x * x)) >= 0.0;
    assert n * (q - 2.0 * (s * x) + n * (x * x)) == n * q - 2.0 * (n * (s * x)) + n * (n * (x * x));
    CancelPositive(0.0, q - 2.0 * (s * x) + n * (x * x), n);
    assert (s + x) * (s + x) == s * s + 2.0 * (s * x) + x * x;
    assert (n + 1.0) * (q + x * x) == n * q + n * (x * x) + q + x * x;
  }

  lemma {:induction false} SquareOfAbsoluteErrors(samples: seq<Sample>)
    ensures AbsoluteErrors(samples) >= 0.0
    ensures AbsoluteErrors(samples) * AbsoluteErrors(samples) <= |samples| as real * SquaredErrors(samples)
  {
    if samples != [] {
      SquareOfAbsoluteErrors(samples[1..]);
      var x, n := Abs(samples[0].Error()), |samples[1..]| as real;
      assert x * x == samples[0].Error() * samples[0].Error();
      var s, q := AbsoluteErrors(samples[1..]), SquaredErrors(samples[1..]);
      if samples[1..] == [] {
        assert s == 0.0 && q == 0.0;
      } else {
        SquareStep(s, q, x, n);
        assert AbsoluteErrors(samples) == s + x;
        assert SquaredErrors(samples) == q + x * x;
        assert |samples| as real == n + 1.0;
      }
    }
  }

  lemma SameProduct(a: real, b: real, c: real, d: real)
    requires a == c && b == d
    ensures a * b == c * d
  {
  }

  lemma CancelSquare(m: real, b: real, n: real, a: real, q: real)
    requires n > 0.0 && a == m * n && q == b * n && a * a <= n * q
    ensures m * m <= b
  {
    SameProduct(a, a, m * n, m * n);
    SameProduct(n, q, n, b * n);
    assert (m * n) * (m * n) == m * m * n * n;
    assert n * (b * n) == b * n * n;
    CancelPositive(m * m * n, b * n, n);
    CancelPositive(m * m, b, n);
  }

  lemma DivideSquare(a: real, q: real, n: real)
    requires n > 0.0 && a * a <= n * q
    ensures (a / n) * (a / n) <= q / n
  {
    DivideBack(a, n);
    DivideBack(q, n);
    CancelSquare(a / n, q / n, n, a, q);
  }

  /** The square of the expected calibration error never exceeds the Brier score. */
  lemma EceSquaredAtMostBrier(samples: seq<Sample>, bins: nat)
    requires bins > 0 && Confidences(samples)
    ensures Ece(samples, bins, bins) * Ece(samples, bins, bins) <= Brier(samples)
  {
    hide Ece, AbsoluteErrors, SquaredErrors;
    EceAtMostMeanAbsoluteError(samples, bins);
    var e, m := Ece(samples, bins, bins), MeanAbsoluteError(samples);
    if samples != [] {
      SquareOfAbsoluteErrors(samples);
      DivideSquare(AbsoluteErrors(samples), SquaredErrors(samples), |samples| as real);
      NonNegativeProduct(m - e, m + e);
      assert (m - e) * (m + e) == m * m - e * e;
    } else {
      EceOfNothing(bins, bins);
    }
  }

  // ----- the result, told by the positions of the lists -----

  /** The squared distance of each confidence from one, where the prediction was right, and from zero where not. */
  function Gaps(expected: seq<Label>, predicted: seq<Label>, confidences: seq<real>): (gaps: seq<real>)
    requires |expected| == |predicted| == |confidences|
    ensures |gaps| == |expected|
  {
    seq(|expected|, i requires 0 <= i < |expected| =>
      if expected[i] == predicted[i] then (confidences[i] - 1.0) * (confidences[i] - 1.0)
      else confidences[i] * confidences[i])
  }

  /** Bin `b` of `bins` reaches from b / bins to (b + 1) / bins, the last one with its upper end. */
  predicate FallsIn(c: real, b: nat, bins: nat)
    requires b < bins
  {
    && b as real / bins as real <= c
    && (if b == bins - 1 then c <= (b + 1) as real / bins as real else c < (b + 1) as real / bins as real)
  }

  ghost function InBinAt(confidences: seq<real>, b: nat, bins: nat): set<nat>
    requires b < bins
  {
    set i: nat | i < |confidences| && FallsIn(confidences[i], b, bins)
  }

  ghost function RightInBinAt(expected: seq<Label>, predicted: seq<Label>, confidences: seq<real>, b: nat, bins: nat)
    : set<nat>
    requires |expected| == |predicted| == |confidences| && b < bins
  {
    set i: nat | i < |confidences| && FallsIn(confidences[i], b, bins) && expected[i] == predicted[i]
  }

  /** The confidences of the bin, and zero for all others. */
  function Inside(confidences: seq<real>, b: nat, bins: nat): (values: seq<real>)
    requires b < bins
    ensures |values| == |confidences|
  {
    seq(|confidences|, i requires 0 <= i < |confidences| =>
      if FallsIn(confidences[i], b, bins) then confidences[i] else 0.0)
  }

  /** The row of a populated bin. */
  ghost predicate RowHolds(row: Bin, expected: seq<Label>, predicted: seq<Label>, confidences: seq<real>, b: nat,
                           bins: nat)
    requires |expected| == |predicted| == |confidences| && b < bins
  {
    && row.lower == b as real / bins as real && row.upper == (b + 1) as real / bins as real
    && row.count == |InBinAt(confidences, b, bins)| && row.count > 0
    && row.accuracy * row.count as real == |RightInBinAt(expected, predicted, confidences, b, bins)| as real
    && row.averageConfidence * row.count as real == SumOf(Inside(confidences, b, bins))
  }

  /** The share of a bin: the distance of its accuracy from its mean confidence, weighted by its size. */
  ghost predicate ShareHolds(share: real, expected: seq<Label>, predicted: seq<Label>, confidences: seq<real>, b: nat,
                             bins: nat)
    requires |expected| == |predicted| == |confidences| && b < bins
  {
    var count := |InBinAt(confidences, b, bins)|;
    if count == 0 then share == 0.0
    else
      share * |confidences| as real
      == Distance(|RightInBinAt(expected, predicted, confidences, b, bins)| as real,
                  SumOf(Inside(confidences, b, bins)))
  }

  function Distance(x: real, y: real): real {
    if x <= y then y - x else x - y
  }

  /** The rows are those of the populated bins, in order, and of no other. */
  ghost predicate RowsHold(rows: seq<Bin>, expected: seq<Label>, predicted: seq<Label>, confidences: seq<real>,
                           upTo: nat, bins: nat, order: seq<nat>)
    requires |expected| == |predicted| == |confidences|
  {
    && |order| == |rows| && upTo <= bins
    && (forall k :: 0 <= k < |order| ==>
          order[k] < upTo && RowHolds(rows[k], expected, predicted, confidences, order[k], bins))
    && (forall j, k :: 0 <= j < k < |order| ==> order[j] < order[k])
    && forall b :: 0 <= b < upTo && b !in order ==> InBinAt(confidences, b, bins) == {}
  }

  ghost predicate SharesHold(shares: seq<real>, expected: seq<Label>, predicted: seq<Label>, confidences: seq<real>,
                             bins: nat)
    requires |expected| == |predicted| == |confidences|
  {
    |shares| <= bins
    && forall b :: 0 <= b < |shares| ==> ShareHolds(shares[b], expected, predicted, confidences, b, bins)
  }

  /** Brier score, calibration error and rows, told by the three lists. */
  ghost predicate CalibrationHolds(r: Calibrated, expected: seq<Label>, predicted: seq<Label>, confidences: seq<real>,
                                   bins: nat)
    requires |expected| == |predicted| == |confidences|
  {
    && IsMean(r.brier, Gaps(expected, predicted, confidences))
    && (exists shares: seq<real> ::
          |shares| == bins && SharesHold(shares, expected, predicted, confidences, bins) && r.ece == SumOf(shares))
    && (exists order :: RowsHold(r.bins, expected, predicted, confidences, bins, bins, order))
  }

  lemma {:induction false} SumAppended(values: seq<real>, x: real)
    ensures SumOf(values + [x]) == SumOf(values) + x
  {
    if values == [] {
      assert values + [x] == [x] && [x][1..] == [];
    } else {
      assert (values + [x])[1..] == values[1..] + [x];
      SumAppended(values[1..], x);
    }
  }

  lemma {:induction false} SquaredErrorsAreGaps(expected: seq<Label>, predicted: seq<Label>, confidences: seq<real>)
    requires |expected| == |predicted| == |confidences|
    ensures SquaredErrors(Zip(expected, predicted, confidences)) == SumOf(Gaps(expected, predicted, confidences))
  {
    if expected != [] {
      var e, p, c := expected[1..], predicted[1..], confidences[1..];
      SquaredErrorsAreGaps(e, p, c);
      assert Zip(expected, predicted, confidences)[1..] == Zip(e, p, c);
      forall i | 0 <= i < |e|
        ensures Gaps(expected, predicted, confidences)[1..][i] == Gaps(e, p, c)[i]
      {
        assert e[i] == expected[i + 1] && p[i] == predicted[i + 1] && c[i] == confidences[i + 1];
      }
      assert Gaps(expected, predicted, confidences)[1..] == Gaps(e, p, c);
      var x, gap := Zip(expected, predicted, confidences)[0], Gaps(expected, predicted, confidences)[0];
      assert x.Error() * x.Error() == gap by {
        SquareOfOpposite(x.Error());
      }
    }
  }

  lemma SquareOfOpposite(x: real)
    ensures x * x == (-x) * (-x)
  {
  }

  lemma {:induction false} BinSums(expected: seq<Label>, predicted: seq<Label>, confidences: seq<real>, b: nat,
                                   bins: nat)
    requires |expected| == |predicted| == |confidences| && b < bins
    ensures var members := Members(Zip(expected, predicted, confidences), b, bins);
            && |members| == |InBinAt(confidences, b, bins)|
            && ScoreSum(members) == |RightInBinAt(expected, predicted, confidences, b, bins)| as real
            && ConfidenceSum(members) == SumOf(Inside(confidences, b, bins))
    decreases |expected|
  {
    if expected == [] {
      assert InBinAt(confidences, b, bins) == {} && RightInBinAt(expected, predicted, confidences, b, bins) == {};
    } else {
      var n: nat := |expected| - 1;
      BinSums(expected[..n], predicted[..n], confidences[..n], b, bins);
      BinSumsStep(expected, predicted, confidences, b, bins);
    }
  }

  lemma {:induction false} ScoresAppend(members: seq<Sample>, x: Sample)
    ensures ScoreSum(members + [x]) == ScoreSum(members) + x.Score()
    ensures ConfidenceSum(members + [x]) == ConfidenceSum(members) + x.confidence
  {
    if members == [] {
      assert members + [x] == [x] && [x][1..] == [];
    } else {
      assert (members + [x])[1..] == members[1..] + [x];
      ScoresAppend(members[1..], x);
    }
  }

  /** The last entry of the lists, on both sides. */
  lemma BinSumsStep(expected: seq<Label>, predicted: seq<Label>, confidences: seq<real>, b: nat, bins: nat)
    requires |expected| == |predicted| == |confidences| > 0 && b < bins
    ensures var n := |expected| - 1;
            var members, before := Members(Zip(expected, predicted, confidences), b, bins),
                                   Members(Zip(expected[..n], predicted[..n], confidences[..n]), b, bins);
            var inBin, right := FallsIn(confidences[n], b, bins), expected[n] == predicted[n];
            && |members| == |before| + (if inBin then 1 else 0)
            && ScoreSum(members) == ScoreSum(before) + (if inBin && right then 1.0 else 0.0)
            && ConfidenceSum(members) == ConfidenceSum(before) + (if inBin then confidences[n] else 0.0)
            && |InBinAt(confidences, b, bins)| == |InBinAt(confidences[..n], b, bins)| + (if inBin then 1 else 0)
            && |RightInBinAt(expected, predicted, confidences, b, bins)|
               == |RightInBinAt(expected[..n], predicted[..n], confidences[..n], b, bins)|
                  + (if inBin && right then 1 else 0)
            && SumOf(Inside(confidences, b, bins))
               == SumOf(Inside(confidences[..n], b, bins)) + (if inBin then confidences[n] else 0.0)
  {
    MembersGrow(expected, predicted, confidences, b, bins);
    PositionsGrowInBin(expected, predicted, confidences, b, bins);
    var n: nat := |expected| - 1;
    var x := if FallsIn(confidences[n], b, bins) then confidences[n] else 0.0;
    assert Inside(confidences, b, bins) == Inside(confidences[..n], b, bins) + [x];
    SumAppended(Inside(confidences[..n], b, bins), x);
    hide Members, ScoreSum, ConfidenceSum, Zip, InBinAt, RightInBinAt, Inside, SumOf, FallsIn;
  }

  lemma MembersGrow(expected: seq<Label>, predicted: seq<Label>, confidences: seq<real>, b: nat, bins: nat)
    requires |expected| == |predicted| == |confidences| > 0 && b < bins
    ensures var n := |expected| - 1;
            var members, before := Members(Zip(expected, predicted, confidences), b, bins),
                                   Members(Zip(expected[..n], predicted[..n], confidences[..n]), b, bins);
            var inBin, right := FallsIn(confidences[n], b, bins), expected[n] == predicted[n];
            && |members| == |before| + (if inBin then 1 else 0)
            && ScoreSum(members) == ScoreSum(before) + (if inBin && right then 1.0 else 0.0)
            && ConfidenceSum(members) == ConfidenceSum(before) + (if inBin then confidences[n] else 0.0)
  {
    var n: nat := |expected| - 1;
    var before := Zip(expected[..n], predicted[..n], confidences[..n]);
    var last := Sample(confidences[n], expected[n] == predicted[n]);
    assert Zip(expected, predicted, confidences) == before + [last];
    MembersAppend(before, last, b, bins);
    FallsInBin(confidences[n], b, bins);
    ScoresAppend(Members(before, b, bins), last);
    var grown := Members(before, b, bins) + [last];
    assert Members(before + [last], b, bins)
           == if InBin(last.confidence, b, bins) then grown else Members(before, b, bins);
    hide Members, ScoreSum, ConfidenceSum, Zip, FallsIn, InBin;
  }

  lemma FallsInBin(c: real, b: nat, bins: nat)
    requires b < bins
    ensures InBin(c, b, bins) <==> FallsIn(c, b, bins)
  {
  }

  lemma PositionsGrowInBin(expected: seq<Label>, predicted: seq<Label>, confidences: seq<real>, b: nat, bins: nat)
    requires |expected| == |predicted| == |confidences| > 0 && b < bins
    ensures var n := |expected| - 1;
            var inBin, right := FallsIn(confidences[n], b, bins), expected[n] == predicted[n];
            && |InBinAt(confidences, b, bins)| == |InBinAt(confidences[..n], b, bins)| + (if inBin then 1 else 0)
            && |RightInBinAt(expected, predicted, confidences, b, bins)|
               == |RightInBinAt(expected[..n], predicted[..n], confidences[..n], b, bins)|
                  + (if inBin && right then 1 else 0)
  {
    hide FallsIn;
    var n: nat := |expected| - 1;
    var inBin, right := FallsIn(confidences[n], b, bins), expected[n] == predicted[n];
    OneMorePosition(InBinAt(confidences[..n], b, bins), InBinAt(confidences, b, bins), n, inBin);
    OneMorePosition(RightInBinAt(expected[..n], predicted[..n], confidences[..n], b, bins),
                    RightInBinAt(expected, predicted, confidences, b, bins), n, inBin && right);
  }

  /** m / n times the distance of two means of m values is the distance of their sums over n. */
  lemma ShareOfSums(score: real, confidence: real, m: real, n: real)
    requires m > 0.0 && n > 0.0
    ensures BinShare(score, confidence, m, n) * n == Distance(score, confidence)
    ensures Ratio(score, m) * m == score && Ratio(confidence, m) * m == confidence
  {
    var a, c := score / m, confidence / m;
    assert a * m == score && c * m == confidence;
    var d := Abs(a - c);
    assert d * m == Distance(score, confidence) by {
      assert (a - c) * m == score - confidence;
      if a < c {
        NonNegativeProduct(c - a, m);
        assert (c - a) * m == confidence - score;
      } else {
        NonNegativeProduct(a - c, m);
      }
    }
    assert m / n * d * n == d * m by {
      var q := m / n;
      assert q * n == m;
      assert q * d * n == (q * n) * d;
    }
  }

  lemma BinByPositions(expected: seq<Label>, predicted: seq<Label>, confidences: seq<real>, b: nat, bins: nat)
    requires |expected| == |predicted| == |confidences| && b < bins
    ensures var samples := Zip(expected, predicted, confidences);
            && ShareHolds(BinTerm(samples, b, bins), expected, predicted, confidences, b, bins)
            && (Members(samples, b, bins) == [] <==> InBinAt(confidences, b, bins) == {})
            && (Members(samples, b, bins) != []
                ==> RowHolds(BinOf(samples, b, bins), expected, predicted, confidences, b, bins))
  {
    hide InBinAt, RightInBinAt, Inside, Distance, BinShare, Ratio, Members, ScoreSum, ConfidenceSum, SumOf;
    var samples := Zip(expected, predicted, confidences);
    var members := Members(samples, b, bins);
    BinSums(expected, predicted, confidences, b, bins);
    MembersAreFewer(samples, b, bins);
    if members != [] {
      ShareOfSums(ScoreSum(members), ConfidenceSum(members), |members| as real, |samples| as real);
    }
  }

  lemma {:induction false} BinsByPositions(expected: seq<Label>, predicted: seq<Label>, confidences: seq<real>,
                                           upTo: nat, bins: nat)
    returns (shares: seq<real>, order: seq<nat>)
    requires |expected| == |predicted| == |confidences| && upTo <= bins
    ensures var samples := Zip(expected, predicted, confidences);
            && |shares| == upTo && SharesHold(shares, expected, predicted, confidences, bins)
            && Ece(samples, upTo, bins) == SumOf(shares)
            && RowsHold(Populated(samples, upTo, bins), expected, predicted, confidences, upTo, bins, order)
  {
    hide ShareHolds, RowHolds, BinTerm, BinOf, Members, InBinAt;
    var samples := Zip(expected, predicted, confidences);
    if upTo == 0 {
      shares, order := [], [];
    } else {
      var b: nat := upTo - 1;
      shares, order := BinsByPositions(expected, predicted, confidences, b, bins);
      BinByPositions(expected, predicted, confidences, b, bins);
      SumAppended(shares, BinTerm(samples, b, bins));
      shares := shares + [BinTerm(samples, b, bins)];
      if Members(samples, b, bins) != [] {
        assert forall x :: x in order + [b] <==> x in order || x == b;
        order := order + [b];
      }
    }
  }

  lemma CalibrationByPositions(expected: seq<Label>, predicted: seq<Label>, confidences: seq<real>, bins: nat)
    requires |expected| == |predicted| == |confidences|
    ensures var samples := Zip(expected, predicted, confidences);
            CalibrationHolds(Calibrated(Brier(samples), Ece(samples, bins, bins), Populated(samples, bins, bins)),
                             expected, predicted, confidences, bins)
  {
    hide SharesHold, RowsHold, Ece, Populated, Gaps;
    SquaredErrorsAreGaps(expected, predicted, confidences);
    MeanFromSum(SquaredErrors(Zip(expected, predicted, confidences)), Gaps(expected, predicted, confidences));
    var shares, order := BinsByPositions(expected, predicted, confidences, bins, bins);
  }
}
