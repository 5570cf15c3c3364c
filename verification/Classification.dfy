/** Confusion-matrix metrics of the deterministic evaluator, in exact rationals: values as they
    are before rounding. */
module Classification {
  import opened Common

  datatype Label = Label(name: string)

  // ----- counting pairs of expected and predicted labels -----

  datatype Kind = TruePositive | FalsePositive | FalseNegative | TrueNegative | Support

  /** Whether one pair counts for class `cls`. */
  function Item(kind: Kind, actual: Label, guess: Label, cls: Label): nat {
    match kind
    case TruePositive => if actual == cls && guess == cls then 1 else 0
    case FalsePositive => if actual != cls && guess == cls then 1 else 0
    case FalseNegative => if actual == cls && guess != cls then 1 else 0
    case TrueNegative => if actual != cls && guess != cls then 1 else 0
    case Support => if actual == cls then 1 else 0
  }

  function Cell(kind: Kind, expected: seq<Label>, predicted: seq<Label>, cls: Label): nat
    requires |expected| == |predicted|
  {
    if expected == [] then 0
    else Item(kind, expected[0], predicted[0], cls) + Cell(kind, expected[1..], predicted[1..], cls)
  }

  function CellFn(kind: Kind, expected: seq<Label>, predicted: seq<Label>): Label -> int
    requires |expected| == |predicted|
  {
    l => Cell(kind, expected, predicted, l)
  }

  /** How often `actual` was predicted as `guess`. */
  function Entry(expected: seq<Label>, predicted: seq<Label>, actual: Label, guess: Label): nat
    requires |expected| == |predicted|
  {
    if expected == [] then 0
    else (if expected[0] == actual && predicted[0] == guess then 1 else 0)
         + Entry(expected[1..], predicted[1..], actual, guess)
  }

  function Correct(expected: seq<Label>, predicted: seq<Label>): nat
    requires |expected| == |predicted|
  {
    if expected == [] then 0
    else (if expected[0] == predicted[0] then 1 else 0) + Correct(expected[1..], predicted[1..])
  }

  // ----- sums over labels -----

  function Sum(labels: seq<Label>, f: Label -> int): int {
    if labels == [] then 0 else f(labels[0]) + Sum(labels[1..], f)
  }

  lemma {:induction false} SumAdds(labels: seq<Label>, f: Label -> int, g: Label -> int, h: Label -> int)
    requires forall l :: l in labels ==> h(l) == f(l) + g(l)
    ensures Sum(labels, h) == Sum(labels, f) + Sum(labels, g)
  {
    if labels != [] {
      assert forall l :: l in labels[1..] ==> l in labels;
      SumAdds(labels[1..], f, g, h);
    }
  }

  /** A function that is `c` on one label and zero elsewhere. */
  lemma {:induction false} SumOfOne(labels: seq<Label>, f: Label -> int, x: Label, c: int)
    requires Distinct(labels) && forall l :: l in labels ==> f(l) == if l == x then c else 0
    ensures Sum(labels, f) == if x in labels then c else 0
  {
    if labels != [] {
      assert labels == [labels[0]] + labels[1..];
      assert forall l :: l in labels[1..] ==> l in labels;
      SumOfOne(labels[1..], f, x, c);
    }
  }

  // ----- rates -----

  function Ratio(numerator: real, denominator: real): real {
    if denominator != 0.0 then numerator / denominator else 0.0
  }

  datatype ClassMetrics = ClassMetrics(
    tp: nat, fp: nat, fn: nat, tn: int, support: nat,
    precision: real, recall: real, f1: real, falsePositiveRate: real, falseNegativeRate: real)

  function HarmonicMeanOf(p: real, r: real): real {
    Ratio(2.0 * p * r, p + r)
  }

  function MetricsFrom(tp: nat, fp: nat, fn: nat, tn: int, support: nat): ClassMetrics {
    var precision := Ratio(tp as real, (tp + fp) as real);
    var recall := Ratio(tp as real, (tp + fn) as real);
    ClassMetrics(tp, fp, fn, tn, support, precision, recall,
                 HarmonicMeanOf(precision, recall),
                 Ratio(fp as real, (fp + tn) as real), Ratio(fn as real, (fn + tp) as real))
  }

  /** The metrics of one class, from the counts of the pairs themselves. */
  function ClassOf(expected: seq<Label>, predicted: seq<Label>, cls: Label): ClassMetrics
    requires |expected| == |predicted|
  {
    MetricsFrom(Cell(TruePositive, expected, predicted, cls), Cell(FalsePositive, expected, predicted, cls),
                Cell(FalseNegative, expected, predicted, cls), Cell(TrueNegative, expected, predicted, cls),
                Cell(Support, expected, predicted, cls))
  }

  datatype Metric = Precision | Recall | F1 | FalsePositiveRate | FalseNegativeRate

  function Value(c: ClassMetrics, m: Metric): real {
    match m
    case Precision => c.precision
    case Recall => c.recall
    case F1 => c.f1
    case FalsePositiveRate => c.falsePositiveRate
    case FalseNegativeRate => c.falseNegativeRate
  }

  function MetricSum(expected: seq<Label>, predicted: seq<Label>, labels: seq<Label>, m: Metric): real
    requires |expected| == |predicted|
  {
    if labels == [] then 0.0
    else Value(ClassOf(expected, predicted, labels[0]), m) + MetricSum(expected, predicted, labels[1..], m)
  }

  function WeightedBySupport(c: ClassMetrics, m: Metric): real {
    Value(c, m) * c.support as real
  }

  function WeightedSum(expected: seq<Label>, predicted: seq<Label>, labels: seq<Label>, m: Metric): real
    requires |expected| == |predicted|
  {
    if labels == [] then 0.0
    else WeightedBySupport(ClassOf(expected, predicted, labels[0]), m)
         + WeightedSum(expected, predicted, labels[1..], m)
  }

  function Macro(expected: seq<Label>, predicted: seq<Label>, labels: seq<Label>, m: Metric): real
    requires |expected| == |predicted|
  {
    Ratio(MetricSum(expected, predicted, labels, m), |labels| as real)
  }

  function Weighted(expected: seq<Label>, predicted: seq<Label>, labels: seq<Label>, m: Metric): real
    requires |expected| == |predicted|
  {
    Ratio(WeightedSum(expected, predicted, labels, m), |expected| as real)
  }

  // ----- classification_metrics -----

  datatype Pair = Pair(actual: Label, guess: Label)

  /** The confusion matrix, one entry for every ordered pair of labels. */
  type Matrix = map<Pair, nat>

  datatype Report = Report(
    labels: seq<Label>, matrix: Matrix, perClass: map<Label, ClassMetrics>, accuracy: real,
    macroPrecision: real, macroRecall: real, macroF1: real, macroFalsePositiveRate: real,
    macroFalseNegativeRate: real, weightedF1: real, sampleSize: nat, groundTruthClasses: nat, measured: bool)

  method DistinctLabels(expected: seq<Label>, predicted: seq<Label>) returns (labels: seq<Label>)
    ensures labels == FirstSeen(expected + predicted)
    ensures Distinct(labels) && SetOf(labels) == SetOf(expected) + SetOf(predicted)
  {
    var all := expected + predicted;
    labels := [];
    for k := 0 to |all|
      invariant labels == FirstSeen(all[..k])
    {
      assert all[..k + 1][..k] == all[..k];
      if all[k] !in labels {
        labels := labels + [all[k]];
      }
    }
    assert all[..|all|] == all;
    FirstSeenMeaning(all);
  }

  /** The matrix counts the pairs it was given. */
  ghost predicate Counts(matrix: Matrix, labels: seq<Label>, expected: seq<Label>, predicted: seq<Label>)
    requires |expected| == |predicted|
  {
    forall a, g :: a in labels && g in labels ==>
      Pair(a, g) in matrix && matrix[Pair(a, g)] == Entry(expected, predicted, a, g)
  }

  lemma CountOneMore(matrix: Matrix, labels: seq<Label>, expected: seq<Label>, predicted: seq<Label>, actual: Label,
                     guess: Label)
    requires |expected| == |predicted| && Counts(matrix, labels, expected, predicted)
    requires actual in labels && guess in labels
    ensures Pair(actual, guess) in matrix
    ensures Counts(matrix[Pair(actual, guess) := matrix[Pair(actual, guess)] + 1], labels,
                   expected + [actual], predicted + [guess])
  {
    forall a, g | a in labels && g in labels
      ensures Entry(expected + [actual], predicted + [guess], a, g)
              == Entry(expected, predicted, a, g) + (if actual == a && guess == g then 1 else 0)
    {
      EntryAppend(expected, predicted, actual, guess, a, g);
    }
  }

  method FillMatrix(expected: seq<Label>, predicted: seq<Label>, labels: seq<Label>) returns (matrix: Matrix)
    requires |expected| == |predicted|
    requires forall i :: 0 <= i < |expected| ==> expected[i] in labels && predicted[i] in labels
    ensures Counts(matrix, labels, expected, predicted)
  {
    matrix := map a, g | a in labels && g in labels :: Pair(a, g) := 0;
    assert Counts(matrix, labels, expected[..0], predicted[..0]);
    hide Counts, Entry;
    for k := 0 to |expected|
      invariant Counts(matrix, labels, expected[..k], predicted[..k])
    {
      var pair := Pair(expected[k], predicted[k]);
      CountOneMore(matrix, labels, expected[..k], predicted[..k], pair.actual, pair.guess);
      assert expected[..k + 1] == expected[..k] + [pair.actual] && predicted[..k + 1] == predicted[..k] + [pair.guess];
      matrix := matrix[pair := matrix[pair] + 1];
    }
    assert expected[..|expected|] == expected && predicted[..|predicted|] == predicted;
  }

  lemma {:induction false} EntryAppend(expected: seq<Label>, predicted: seq<Label>, actual: Label, guess: Label,
                                       a: Label, g: Label)
    requires |expected| == |predicted|
    ensures Entry(expected + [actual], predicted + [guess], a, g)
            == Entry(expected, predicted, a, g) + (if actual == a && guess == g then 1 else 0)
  {
    if expected == [] {
      assert expected + [actual] == [actual] && predicted + [guess] == [guess];
      assert [actual][1..] == [] && [guess][1..] == [];
    } else {
      assert (expected + [actual])[1..] == expected[1..] + [actual];
      assert (predicted + [guess])[1..] == predicted[1..] + [guess];
      EntryAppend(expected[1..], predicted[1..], actual, guess, a, g);
    }
  }

  /** Sum of a matrix column or row, leaving out the diagonal: the false positives and the false
      negatives of a class. */
  method OffDiagonal(matrix: Matrix, labels: seq<Label>, cls: Label, column: bool,
                     ghost expected: seq<Label>, ghost predicted: seq<Label>) returns (total: nat)
    requires |expected| == |predicted| && Counts(matrix, labels, expected, predicted)
    requires cls in labels && Distinct(labels)
    requires forall i :: 0 <= i < |expected| ==> expected[i] in labels && predicted[i] in labels
    ensures total == Cell(if column then FalsePositive else FalseNegative, expected, predicted, cls)
  {
    total := 0;
    ghost var entries := EntryOff(expected, predicted, cls, column);
    for k := 0 to |labels|
      invariant total == Sum(labels[..k], entries)
    {
      var other := labels[k];
      assert labels[..k + 1] == labels[..k] + [other];
      SumAppend(labels[..k], other, entries);
      assert other in SetOf(labels) && cls in SetOf(labels);
      if other != cls {
        total := total + (if column then matrix[Pair(other, cls)] else matrix[Pair(cls, other)]);
      }
    }
    assert labels[..|labels|] == labels;
    OffDiagonalCounts(expected, predicted, labels, cls, column);
  }

  function EntryOff(expected: seq<Label>, predicted: seq<Label>, cls: Label, column: bool): Label -> int
    requires |expected| == |predicted|
  {
    other => if other == cls then 0
             else if column then Entry(expected, predicted, other, cls) else Entry(expected, predicted, cls, other)
  }

  /** The off-diagonal entries of a column or row add up to the pairs that count there. */
  lemma {:induction false} OffDiagonalCounts(expected: seq<Label>, predicted: seq<Label>, labels: seq<Label>,
                                             cls: Label, column: bool)
    requires |expected| == |predicted| && Distinct(labels)
    requires forall i :: 0 <= i < |expected| ==> expected[i] in labels && predicted[i] in labels
    ensures Sum(labels, EntryOff(expected, predicted, cls, column))
            == Cell(if column then FalsePositive else FalseNegative, expected, predicted, cls)
  {
    var all := EntryOff(expected, predicted, cls, column);
    if expected == [] {
      SumOfOne(labels, all, cls, 0);
    } else {
      var actual, guess := expected[0], predicted[0];
      var kind := if column then FalsePositive else FalseNegative;
      var rest := EntryOff(expected[1..], predicted[1..], cls, column);
      var here := other => if other != cls && other == (if column then actual else guess)
                              && cls == (if column then guess else actual) then 1 else 0;
      OffDiagonalCounts(expected[1..], predicted[1..], labels, cls, column);
      forall l | l in labels
        ensures all(l) == here(l) + rest(l)
      {
      }
      SumAdds(labels, here, rest, all);
      SumOfOne(labels, here, if column then actual else guess, Item(kind, actual, guess, cls));
    }
  }

  lemma {:induction false} CellsAddUp(expected: seq<Label>, predicted: seq<Label>, cls: Label)
    requires |expected| == |predicted|
    ensures Cell(TruePositive, expected, predicted, cls) + Cell(FalsePositive, expected, predicted, cls)
            + Cell(FalseNegative, expected, predicted, cls) + Cell(TrueNegative, expected, predicted, cls) == |expected|
    ensures Cell(Support, expected, predicted, cls)
            == Cell(TruePositive, expected, predicted, cls) + Cell(FalseNegative, expected, predicted, cls)
    ensures Entry(expected, predicted, cls, cls) == Cell(TruePositive, expected, predicted, cls)
  {
    if expected != [] {
      CellsAddUp(expected[1..], predicted[1..], cls);
    }
  }

  /** The per-class loop: counts read off the matrix are those of the pairs. */
  method PerClass(expected: seq<Label>, predicted: seq<Label>, labels: seq<Label>, matrix: Matrix)
    returns (perClass: map<Label, ClassMetrics>, correct: nat)
    requires |expected| == |predicted| && Distinct(labels) && Counts(matrix, labels, expected, predicted)
    requires forall i :: 0 <= i < |expected| ==> expected[i] in labels && predicted[i] in labels
    ensures forall l :: l in labels <==> l in perClass
    ensures forall l :: l in labels ==> perClass[l] == ClassOf(expected, predicted, l)
    ensures correct == Sum(labels, CellFn(TruePositive, expected, predicted))
  {
    correct := 0;
    perClass := map[];
    for k := 0 to |labels|
      invariant correct == Sum(labels[..k], CellFn(TruePositive, expected, predicted))
      invariant forall l :: l in labels[..k] <==> l in perClass
      invariant forall l :: l in perClass ==> perClass[l] == ClassOf(expected, predicted, l)
    {
      var cls := labels[k];
      assert labels[..k + 1] == labels[..k] + [cls];
      SumAppend(labels[..k], cls, CellFn(TruePositive, expected, predicted));
      var m := OneClass(expected, predicted, labels, matrix, cls);
      perClass := perClass[cls := m];
      correct := correct + m.tp;
    }
    assert labels[..|labels|] == labels;
  }

  method OneClass(expected: seq<Label>, predicted: seq<Label>, labels: seq<Label>, matrix: Matrix, cls: Label)
    returns (m: ClassMetrics)
    requires |expected| == |predicted| && Distinct(labels) && Counts(matrix, labels, expected, predicted)
    requires forall i :: 0 <= i < |expected| ==> expected[i] in labels && predicted[i] in labels
    requires cls in labels
    ensures m == ClassOf(expected, predicted, cls)
  {
    CellsAddUp(expected, predicted, cls);
    var tp := matrix[Pair(cls, cls)];
    var fp := OffDiagonal(matrix, labels, cls, true, expected, predicted);
    var fn := OffDiagonal(matrix, labels, cls, false, expected, predicted);
    var tn := |expected| - tp - fp - fn;
    m := MetricsFrom(tp, fp, fn, tn, tp + fn);
  }

  /** macro: the mean of one rate over the per-class results. */
  method MacroAverage(perClass: map<Label, ClassMetrics>, labels: seq<Label>, m: Metric,
                      ghost expected: seq<Label>, ghost predicted: seq<Label>)
    returns (average: real)
    requires |expected| == |predicted|
    requires forall l :: l in labels ==> l in perClass && perClass[l] == ClassOf(expected, predicted, l)
    ensures average == Macro(expected, predicted, labels, m)
  {
    hide Ratio, Value, ClassOf;
    var total := 0.0;
    for k := 0 to |labels|
      invariant total + MetricSum(expected, predicted, labels[k..], m) == MetricSum(expected, predicted, labels, m)
    {
      assert labels[k..][0] == labels[k] && labels[k..][1..] == labels[k + 1..];
      assert labels[k] in labels;
      total := total + Value(perClass[labels[k]], m);
    }
    average := Ratio(total, |labels| as real);
  }

  /** weighted: the per-class results weighted by their support. */
  method WeightedAverage(perClass: map<Label, ClassMetrics>, labels: seq<Label>, m: Metric, n: nat,
                         ghost expected: seq<Label>, ghost predicted: seq<Label>)
    returns (average: real)
    requires |expected| == |predicted| == n
    requires forall l :: l in labels ==> l in perClass && perClass[l] == ClassOf(expected, predicted, l)
    ensures average == Weighted(expected, predicted, labels, m)
  {
    hide Ratio, WeightedBySupport, ClassOf;
    var total := 0.0;
    for k := 0 to |labels|
      invariant total + WeightedSum(expected, predicted, labels[k..], m) == WeightedSum(expected, predicted, labels, m)
    {
      assert labels[k..][0] == labels[k] && labels[k..][1..] == labels[k + 1..];
      assert labels[k] in labels;
      total := total + WeightedBySupport(perClass[labels[k]], m);
    }
    average := Ratio(total, n as real);
  }

  /** classification_metrics: every count and rate of the report is that of the pairs. */
  method ClassificationMetrics(expected: seq<Label>, predicted: seq<Label>) returns (r: Report)
    requires |expected| == |predicted|
    ensures r.labels == FirstSeen(expected + predicted)
    ensures Distinct(r.labels) && SetOf(r.labels) == SetOf(expected) + SetOf(predicted)
    ensures Counts(r.matrix, r.labels, expected, predicted)
    ensures forall l :: l in r.labels <==> l in r.perClass
    ensures forall l :: l in r.labels ==> r.perClass[l] == ClassOf(expected, predicted, l)
    ensures r.accuracy == Ratio(Correct(expected, predicted) as real, |expected| as real)
    ensures r.macroPrecision == Macro(expected, predicted, r.labels, Precision)
    ensures r.macroRecall == Macro(expected, predicted, r.labels, Recall)
    ensures r.macroF1 == Macro(expected, predicted, r.labels, F1)
    ensures r.macroFalsePositiveRate == Macro(expected, predicted, r.labels, FalsePositiveRate)
    ensures r.macroFalseNegativeRate == Macro(expected, predicted, r.labels, FalseNegativeRate)
    ensures r.weightedF1 == Weighted(expected, predicted, r.labels, F1)
    ensures r.sampleSize == |expected| && r.groundTruthClasses == |SetOf(expected)|
    ensures r.measured <==> |SetOf(expected)| >= 2
    ensures ReportHolds(r, expected, predicted)
  {
    hide ReportHolds;
    var labels := DistinctLabels(expected, predicted);
    forall i | 0 <= i < |expected|
      ensures expected[i] in labels && predicted[i] in labels
    {
      assert expected[i] in SetOf(labels) && predicted[i] in SetOf(labels);
    }
    var matrix := FillMatrix(expected, predicted, labels);
    var perClass, correct := PerClass(expected, predicted, labels, matrix);
    KindTotals(expected, predicted, labels);
    hide Macro, Weighted, ClassOf, Ratio, Counts;
    var precision := MacroAverage(perClass, labels, Precision, expected, predicted);
    var recall := MacroAverage(perClass, labels, Recall, expected, predicted);
    var f1 := MacroAverage(perClass, labels, F1, expected, predicted);
    var falsePositives := MacroAverage(perClass, labels, FalsePositiveRate, expected, predicted);
    var falseNegatives := MacroAverage(perClass, labels, FalseNegativeRate, expected, predicted);
    var weighted := WeightedAverage(perClass, labels, F1, |expected|, expected, predicted);
    r := Report(labels, matrix, perClass, Ratio(correct as real, |expected| as real), precision, recall, f1,
                falsePositives, falseNegatives, weighted, |expected|, |SetOf(expected)|, |SetOf(expected)| >= 2);
    ReportByPositions(r, expected, predicted);
  }

  lemma {:induction false} SumAppend(labels: seq<Label>, x: Label, f: Label -> int)
    ensures Sum(labels + [x], f) == Sum(labels, f) + f(x)
  {
    if labels == [] {
      assert labels + [x] == [x] && [x][1..] == [];
    } else {
      assert (labels + [x])[1..] == labels[1..] + [x];
      SumAppend(labels[1..], x, f);
    }
  }

  // ----- conservation -----

  /** What one pair adds to the totals over all labels. */
  function TotalItem(kind: Kind, actual: Label, guess: Label): nat
    requires !kind.TrueNegative?
  {
    match kind
    case TruePositive => if actual == guess then 1 else 0
    case FalsePositive => if actual != guess then 1 else 0
    case FalseNegative => if actual != guess then 1 else 0
    case Support => 1
  }

  function Total(kind: Kind, expected: seq<Label>, predicted: seq<Label>): nat
    requires |expected| == |predicted| && !kind.TrueNegative?
  {
    if expected == [] then 0
    else TotalItem(kind, expected[0], predicted[0]) + Total(kind, expected[1..], predicted[1..])
  }

  /** Summing over labels and then over pairs is summing over pairs and then over labels. */
  lemma {:induction false} SumOfCells(kind: Kind, expected: seq<Label>, predicted: seq<Label>, labels: seq<Label>)
    requires |expected| == |predicted| && Distinct(labels) && !kind.TrueNegative?
    requires forall i :: 0 <= i < |expected| ==> expected[i] in labels && predicted[i] in labels
    ensures Sum(labels, CellFn(kind, expected, predicted)) == Total(kind, expected, predicted)
  {
    var all := CellFn(kind, expected, predicted);
    if expected == [] {
      SumOfOne(labels, all, Label(""), 0);
    } else {
      var actual, guess := expected[0], predicted[0];
      var here := l => Item(kind, actual, guess, l);
      var rest := CellFn(kind, expected[1..], predicted[1..]);
      SumOfCells(kind, expected[1..], predicted[1..], labels);
      SumAdds(labels, here, rest, all);
      SumOfOne(labels, here, if kind.FalsePositive? then guess else actual, TotalItem(kind, actual, guess));
    }
  }

  lemma {:induction false} TotalsMeaning(expected: seq<Label>, predicted: seq<Label>)
    requires |expected| == |predicted|
    ensures Total(TruePositive, expected, predicted) == Correct(expected, predicted) <= |expected|
    ensures Total(FalsePositive, expected, predicted) == |expected| - Correct(expected, predicted)
    ensures Total(FalseNegative, expected, predicted) == |expected| - Correct(expected, predicted)
    ensures Total(Support, expected, predicted) == |expected|
    ensures Correct(expected, predicted) == |expected| <==> expected == predicted
  {
    if expected != [] {
      TotalsMeaning(expected[1..], predicted[1..]);
      assert expected == [expected[0]] + expected[1..] && predicted == [predicted[0]] + predicted[1..];
    }
  }

  /** The confusion matrix conserves the sample: over all classes the false positives and the
      false negatives both count the wrong predictions, and the supports add up to the sample. */
  lemma KindTotals(expected: seq<Label>, predicted: seq<Label>, labels: seq<Label>)
    requires |expected| == |predicted| && Distinct(labels) && SetOf(labels) == SetOf(expected) + SetOf(predicted)
    ensures Sum(labels, CellFn(TruePositive, expected, predicted)) == Correct(expected, predicted)
    ensures Sum(labels, CellFn(FalsePositive, expected, predicted)) == |expected| - Correct(expected, predicted)
    ensures Sum(labels, CellFn(FalseNegative, expected, predicted)) == |expected| - Correct(expected, predicted)
    ensures Sum(labels, CellFn(Support, expected, predicted)) == |expected|
  {
    forall i | 0 <= i < |expected|
      ensures expected[i] in labels && predicted[i] in labels
    {
      assert expected[i] in SetOf(labels) && predicted[i] in SetOf(labels);
    }
    TotalsMeaning(expected, predicted);
    SumOfCells(TruePositive, expected, predicted, labels);
    SumOfCells(FalsePositive, expected, predicted, labels);
    SumOfCells(FalseNegative, expected, predicted, labels);
    SumOfCells(Support, expected, predicted, labels);
  }

  // ----- bounds -----

  lemma RatioOfCounts(a: nat, b: nat)
    ensures 0.0 <= Ratio(a as real, (a + b) as real) <= 1.0
    ensures Ratio(a as real, (a + b) as real) == 1.0 <==> a > 0 && b == 0
    ensures Ratio(a as real, (a + b) as real) == 0.0 <==> a == 0
    ensures Ratio(a as real, (a + b) as real) * (a + b) as real == a as real
  {
    if a + b != 0 {
      var x, y := a as real, (a + b) as real;
      assert x / y * y == x;
    }
  }

  lemma Quotient(a: real, b: real)
    requires 0.0 <= a <= b && b > 0.0
    ensures 0.0 <= a / b <= 1.0 && (a / b == 1.0 <==> a == b)
  {
    var q := a / b;
    assert q * b == a;
  }

  lemma NonNegativeProduct(a: real, b: real)
    requires a >= 0.0 && b >= 0.0
    ensures a * b >= 0.0
  {
  }

  lemma ProductOfRates(p: real, r: real)
    requires 0.0 <= p <= 1.0 && 0.0 <= r <= 1.0
    ensures 0.0 <= p * r <= p && p * r <= r
    ensures p * r == p == r ==> p == 0.0 || p == 1.0
  {
    NonNegativeProduct(p, r);
    NonNegativeProduct(p, 1.0 - r);
    NonNegativeProduct(r, 1.0 - p);
    assert p * (1.0 - r) == p - p * r;
    assert r * (1.0 - p) == r - p * r;
  }

  lemma HarmonicMean(p: real, r: real)
    requires 0.0 <= p <= 1.0 && 0.0 <= r <= 1.0
    ensures 0.0 <= HarmonicMeanOf(p, r) <= 1.0
    ensures HarmonicMeanOf(p, r) == 1.0 <==> p == 1.0 && r == 1.0
  {
    var x := p * r;
    ProductOfRates(p, r);
    assert 2.0 * p * r == 2.0 * x;
    if p + r != 0.0 {
      assert x <= p && x <= r;
      Quotient(2.0 * x, p + r);
    }
  }

  /** Every rate lies in [0, 1], and F1 is one exactly when there are hits and no errors. */
  lemma ClassRates(tp: nat, fp: nat, fn: nat, tn: nat, m: Metric)
    ensures 0.0 <= Value(MetricsFrom(tp, fp, fn, tn, tp + fn), m) <= 1.0
    ensures MetricsFrom(tp, fp, fn, tn, tp + fn).f1 == 1.0 <==> tp > 0 && fp == 0 && fn == 0
    ensures MetricsFrom(tp, fp, fn, tn, tp + fn).recall * (tp + fn) as real == tp as real
  {
    hide Ratio, HarmonicMeanOf;
    RatioOfCounts(tp, fp);
    RatioOfCounts(tp, fn);
    RatioOfCounts(fp, tn);
    RatioOfCounts(fn, tp);
    HarmonicMean(Ratio(tp as real, (tp + fp) as real), Ratio(tp as real, (tp + fn) as real));
  }

  /** Every rate of every class lies in [0, 1], its four counts add up to the sample, and its F1 is
      one exactly when the class is hit and nothing was mistaken for it or taken away from it. */
  lemma RatesAreBounded(expected: seq<Label>, predicted: seq<Label>, cls: Label, m: Metric)
    requires |expected| == |predicted|
    ensures var c := ClassOf(expected, predicted, cls);
            && 0.0 <= Value(c, m) <= 1.0
            && c.tp + c.fp + c.fn + c.tn == |expected|
            && (c.f1 == 1.0 <==> c.tp > 0 && c.fp == 0 && c.fn == 0)
            && c.recall * c.support as real == c.tp as real
  {
    hide Ratio, HarmonicMeanOf, Value, Cell;
    CellsAddUp(expected, predicted, cls);
    ClassRates(Cell(TruePositive, expected, predicted, cls), Cell(FalsePositive, expected, predicted, cls),
               Cell(FalseNegative, expected, predicted, cls), Cell(TrueNegative, expected, predicted, cls), m);
  }

  lemma {:induction false} MetricSumBounds(expected: seq<Label>, predicted: seq<Label>, labels: seq<Label>, m: Metric)
    requires |expected| == |predicted|
    ensures 0.0 <= MetricSum(expected, predicted, labels, m) <= |labels| as real
    ensures MetricSum(expected, predicted, labels, m) == |labels| as real
            <==> forall l :: l in labels ==> Value(ClassOf(expected, predicted, l), m) == 1.0
  {
    if labels != [] {
      RatesAreBounded(expected, predicted, labels[0], m);
      MetricSumBounds(expected, predicted, labels[1..], m);
      assert labels == [labels[0]] + labels[1..];
    }
  }

  lemma WeightedTerm(expected: seq<Label>, predicted: seq<Label>, cls: Label)
    requires |expected| == |predicted|
    ensures WeightedBySupport(ClassOf(expected, predicted, cls), Recall)
            == Cell(TruePositive, expected, predicted, cls) as real
  {
    hide ClassOf, Cell;
    RatesAreBounded(expected, predicted, cls, Recall);
    HitsOf(expected, predicted, cls);
  }

  lemma HitsOf(expected: seq<Label>, predicted: seq<Label>, cls: Label)
    requires |expected| == |predicted|
    ensures ClassOf(expected, predicted, cls).tp == Cell(TruePositive, expected, predicted, cls)
  {
    hide Ratio, HarmonicMeanOf, Cell;
  }

  lemma {:induction false} WeightedRecallSum(expected: seq<Label>, predicted: seq<Label>, labels: seq<Label>)
    requires |expected| == |predicted|
    ensures WeightedSum(expected, predicted, labels, Recall)
            == Sum(labels, CellFn(TruePositive, expected, predicted)) as real
  {
    hide ClassOf, WeightedBySupport, Cell;
    if labels != [] {
      WeightedTerm(expected, predicted, labels[0]);
      WeightedRecallSum(expected, predicted, labels[1..]);
    }
  }

  /** Support-weighted recall is accuracy. */
  lemma WeightedRecallIsAccuracy(expected: seq<Label>, predicted: seq<Label>, labels: seq<Label>)
    requires |expected| == |predicted| && Distinct(labels) && SetOf(labels) == SetOf(expected) + SetOf(predicted)
    ensures Weighted(expected, predicted, labels, Recall)
            == Ratio(Correct(expected, predicted) as real, |expected| as real)
  {
    WeightedRecallSum(expected, predicted, labels);
    KindTotals(expected, predicted, labels);
  }

  lemma {:induction false} ZeroSum(labels: seq<Label>, f: Label -> int)
    requires (forall l :: l in labels ==> f(l) == 0)
    ensures Sum(labels, f) == 0
  {
    if labels != [] {
      assert forall l :: l in labels[1..] ==> l in labels;
      ZeroSum(labels[1..], f);
    }
  }

  lemma {:induction false} SelfAgreement(labels: seq<Label>, cls: Label)
    ensures Cell(FalsePositive, labels, labels, cls) == 0 && Cell(FalseNegative, labels, labels, cls) == 0
    ensures cls in labels ==> Cell(TruePositive, labels, labels, cls) > 0
  {
    if labels != [] {
      SelfAgreement(labels[1..], cls);
      assert labels == [labels[0]] + labels[1..];
    }
  }

  lemma MacroBounds(expected: seq<Label>, predicted: seq<Label>, labels: seq<Label>, m: Metric)
    requires |expected| == |predicted|
    ensures 0.0 <= Macro(expected, predicted, labels, m) <= 1.0
    ensures labels != [] ==>
              (Macro(expected, predicted, labels, m) == 1.0
               <==> forall l :: l in labels ==> Value(ClassOf(expected, predicted, l), m) == 1.0)
  {
    MetricSumBounds(expected, predicted, labels, m);
    if labels != [] {
      Quotient(MetricSum(expected, predicted, labels, m), |labels| as real);
    }
  }

  /** On a non-empty sample macro F1 is one exactly when every prediction equals the expected label. */
  lemma MacroF1IsOneExactlyWhenPerfect(expected: seq<Label>, predicted: seq<Label>, labels: seq<Label>)
    requires |expected| == |predicted| > 0 && Distinct(labels) && SetOf(labels) == SetOf(expected) + SetOf(predicted)
    ensures Macro(expected, predicted, labels, F1) == 1.0 <==> expected == predicted
  {
    assert expected[0] in SetOf(labels);
    MacroBounds(expected, predicted, labels, F1);
    if Macro(expected, predicted, labels, F1) == 1.0 {
      forall l | l in labels
        ensures Cell(FalsePositive, expected, predicted, l) == 0
      {
        assert Value(ClassOf(expected, predicted, l), F1) == 1.0;
        RatesAreBounded(expected, predicted, l, F1);
      }
      ZeroSum(labels, CellFn(FalsePositive, expected, predicted));
      KindTotals(expected, predicted, labels);
      TotalsMeaning(expected, predicted);
    }
    if expected == predicted {
      forall l | l in labels
        ensures Value(ClassOf(expected, predicted, l), F1) == 1.0
      {
        assert l in SetOf(labels);
        SelfAgreement(expected, l);
        RatesAreBounded(expected, predicted, l, F1);
      }
    }
  }

  /** F1 is twice the hits among all that was expected or predicted. */
  lemma F1FromCounts(tp: nat, fp: nat, fn: nat)
    ensures HarmonicMeanOf(Ratio(tp as real, (tp + fp) as real), Ratio(tp as real, (tp + fn) as real))
            == Ratio((2 * tp) as real, (2 * tp + fp + fn) as real)
  {
    var t, a, b := tp as real, (tp + fp) as real, (tp + fn) as real;
    assert a + b == (2 * tp + fp + fn) as real;
    if tp > 0 {
      var p := PositiveShare(t, a);
      var r := PositiveShare(t, b);
      HarmonicFromShares(t, a, b, p, r);
      assert 2.0 * p * r == 2.0 * (p * r);
    } else {
      NoHits(fp, fn);
    }
  }

  lemma NoHits(fp: nat, fn: nat)
    ensures HarmonicMeanOf(Ratio(0.0, fp as real), Ratio(0.0, fn as real)) == 0.0 == Ratio(0.0, (fp + fn) as real)
  {
    assert Ratio(0.0, fp as real) == 0.0 == Ratio(0.0, fn as real);
  }

  lemma PositiveShare(t: real, a: real) returns (q: real)
    requires t > 0.0 && a > 0.0
    ensures q == t / a && q > 0.0 && q * a == t
  {
    q := t / a;
  }

  lemma HarmonicFromShares(t: real, a: real, b: real, p: real, r: real)
    requires a > 0.0 && b > 0.0 && p > 0.0 && r > 0.0 && p * a == t && r * b == t
    ensures 2.0 * (p * r) / (p + r) == 2.0 * t / (a + b)
  {
    var x := p * r;
    ProductTimes(p, r, a);
    ProductTimes(r, p, b);
    assert x == r * p;
    assert x * (a + b) == x * a + x * b;
    assert t * (p + r) == t * p + t * r;
    CrossMultiplied(2.0 * x, p + r, 2.0 * t, a + b);
  }

  lemma ProductTimes(p: real, r: real, a: real)
    ensures (p * r) * a == (p * a) * r
  {
  }

  lemma CrossMultiplied(a: real, b: real, c: real, d: real)
    requires b > 0.0 && d > 0.0 && a * d == c * b
    ensures a / b == c / d
  {
    var q := a / b;
    assert q * b == a;
    assert (q * d) * b == (q * b) * d == c * b;
    assert q * d == c;
  }

  // ----- the report, told by the positions of the two lists -----

  /** The share `part` of `whole`, and zero of nothing. */
  ghost predicate IsShare(q: real, part: nat, whole: nat) {
    if whole == 0 then q == 0.0 else q * whole as real == part as real
  }

  lemma RatioIsShare(part: nat, whole: nat)
    ensures IsShare(Ratio(part as real, whole as real), part, whole)
  {
    if whole != 0 {
      var q := part as real / whole as real;
      assert q * whole as real == part as real;
    }
  }

  /** The positions where the class is expected or not, and predicted or not. */
  ghost function Positions(expected: seq<Label>, predicted: seq<Label>, cls: Label, isExpected: bool, isPredicted: bool)
    : set<nat>
    requires |expected| == |predicted|
  {
    set i: nat | i < |expected| && (expected[i] == cls <==> isExpected) && (predicted[i] == cls <==> isPredicted)
  }

  lemma {:induction false} CellAppend(kind: Kind, expected: seq<Label>, predicted: seq<Label>, actual: Label,
                                      guess: Label, cls: Label)
    requires |expected| == |predicted|
    ensures Cell(kind, expected + [actual], predicted + [guess], cls)
            == Cell(kind, expected, predicted, cls) + Item(kind, actual, guess, cls)
  {
    hide Item;
    if expected == [] {
      assert expected + [actual] == [actual] && predicted + [guess] == [guess];
      assert [actual][1..] == [] && [guess][1..] == [];
    } else {
      assert (expected + [actual])[1..] == expected[1..] + [actual];
      assert (predicted + [guess])[1..] == predicted[1..] + [guess];
      CellAppend(kind, expected[1..], predicted[1..], actual, guess, cls);
    }
  }

  lemma {:induction false} CellsArePositions(expected: seq<Label>, predicted: seq<Label>, cls: Label)
    requires |expected| == |predicted|
    ensures Cell(TruePositive, expected, predicted, cls) == |Positions(expected, predicted, cls, true, true)|
    ensures Cell(FalsePositive, expected, predicted, cls) == |Positions(expected, predicted, cls, false, true)|
    ensures Cell(FalseNegative, expected, predicted, cls) == |Positions(expected, predicted, cls, true, false)|
    ensures Cell(TrueNegative, expected, predicted, cls) == |Positions(expected, predicted, cls, false, false)|
    decreases |expected|
  {
    if expected == [] {
      forall x, y
        ensures Positions(expected, predicted, cls, x, y) == {}
      {
      }
    } else {
      var n: nat := |expected| - 1;
      CellsArePositions(expected[..n], predicted[..n], cls);
      assert expected == expected[..n] + [expected[n]] && predicted == predicted[..n] + [predicted[n]];
      forall kind: Kind
        ensures Cell(kind, expected, predicted, cls)
                == Cell(kind, expected[..n], predicted[..n], cls) + Item(kind, expected[n], predicted[n], cls)
      {
        CellAppend(kind, expected[..n], predicted[..n], expected[n], predicted[n], cls);
      }
      hide Cell;
      forall x, y
        ensures |Positions(expected, predicted, cls, x, y)|
                == |Positions(expected[..n], predicted[..n], cls, x, y)|
                   + (if (expected[n] == cls <==> x) && (predicted[n] == cls <==> y) then 1 else 0)
      {
        PositionsGrow(expected, predicted, cls, x, y);
      }
    }
  }

  lemma PositionsGrow(expected: seq<Label>, predicted: seq<Label>, cls: Label, x: bool, y: bool)
    requires |expected| == |predicted| > 0
    ensures var n := |expected| - 1;
            |Positions(expected, predicted, cls, x, y)|
            == |Positions(expected[..n], predicted[..n], cls, x, y)|
               + (if (expected[n] == cls <==> x) && (predicted[n] == cls <==> y) then 1 else 0)
  {
    var n: nat := |expected| - 1;
    var gained := (expected[n] == cls <==> x) && (predicted[n] == cls <==> y);
    var before, after := Positions(expected[..n], predicted[..n], cls, x, y), Positions(expected, predicted, cls, x, y);
    forall i
      ensures i in after <==> i in before || (i == n && gained)
    {
      assert 0 <= i < n ==> expected[..n][i] == expected[i] && predicted[..n][i] == predicted[i];
    }
    OneMorePosition(before, after, n, gained);
  }

  /** The counts of a class, and each of its rates by its name. */
  ghost predicate ClassHolds(c: ClassMetrics, expected: seq<Label>, predicted: seq<Label>, cls: Label)
    requires |expected| == |predicted|
  {
    var tp, fp := |Positions(expected, predicted, cls, true, true)|, |Positions(expected, predicted, cls, false, true)|;
    var fn, tn := |Positions(expected, predicted, cls, true, false)|,
                  |Positions(expected, predicted, cls, false, false)|;
    && c.tp == tp && c.fp == fp && c.fn == fn && c.tn == tn && c.support == tp + fn
    && IsShare(c.precision, tp, tp + fp) && IsShare(c.recall, tp, tp + fn)
    && IsShare(c.falsePositiveRate, fp, fp + tn) && IsShare(c.falseNegativeRate, fn, fn + tp)
    && IsShare(c.f1, 2 * tp, 2 * tp + fp + fn)
  }

  lemma ClassOfHolds(expected: seq<Label>, predicted: seq<Label>, cls: Label)
    requires |expected| == |predicted|
    ensures ClassHolds(ClassOf(expected, predicted, cls), expected, predicted, cls)
  {
    CellsArePositions(expected, predicted, cls);
    CellsAddUp(expected, predicted, cls);
    hide Cell, Positions;
    MetricsHold(Cell(TruePositive, expected, predicted, cls), Cell(FalsePositive, expected, predicted, cls),
                Cell(FalseNegative, expected, predicted, cls), Cell(TrueNegative, expected, predicted, cls));
    hide MetricsFrom, IsShare;
  }

  lemma MetricsHold(tp: nat, fp: nat, fn: nat, tn: nat)
    ensures var c := MetricsFrom(tp, fp, fn, tn, tp + fn);
            && c.tp == tp && c.fp == fp && c.fn == fn && c.tn == tn && c.support == tp + fn
            && IsShare(c.precision, tp, tp + fp) && IsShare(c.recall, tp, tp + fn)
            && IsShare(c.falsePositiveRate, fp, fp + tn) && IsShare(c.falseNegativeRate, fn, fn + tp)
            && IsShare(c.f1, 2 * tp, 2 * tp + fp + fn)
  {
    hide Ratio, HarmonicMeanOf, IsShare;
    RatioIsShare(tp, tp + fp);
    RatioIsShare(tp, tp + fn);
    RatioIsShare(fp, fp + tn);
    RatioIsShare(fn, fn + tp);
    RatioIsShare(2 * tp, 2 * tp + fp + fn);
    F1FromCounts(tp, fp, fn);
  }

  function SumOf(values: seq<real>): real {
    if values == [] then 0.0 else values[0] + SumOf(values[1..])
  }

  /** The mean of the values, and zero of none. */
  ghost predicate IsMean(q: real, values: seq<real>) {
    if values == [] then q == 0.0 else q * |values| as real == SumOf(values)
  }

  ghost predicate AllHold(ms: seq<ClassMetrics>, expected: seq<Label>, predicted: seq<Label>, labels: seq<Label>)
    requires |expected| == |predicted|
  {
    |ms| == |labels| && forall i :: 0 <= i < |labels| ==> ClassHolds(ms[i], expected, predicted, labels[i])
  }

  /** The metrics of the labels, in their order. */
  function ClassesOf(expected: seq<Label>, predicted: seq<Label>, labels: seq<Label>): (ms: seq<ClassMetrics>)
    requires |expected| == |predicted|
    ensures |ms| == |labels|
  {
    seq(|labels|, i requires 0 <= i < |labels| => ClassOf(expected, predicted, labels[i]))
  }

  lemma ClassesHold(expected: seq<Label>, predicted: seq<Label>, labels: seq<Label>)
    requires |expected| == |predicted|
    ensures AllHold(ClassesOf(expected, predicted, labels), expected, predicted, labels)
  {
    hide ClassOf, ClassHolds;
    forall i | 0 <= i < |labels|
      ensures ClassHolds(ClassesOf(expected, predicted, labels)[i], expected, predicted, labels[i])
    {
      ClassOfHolds(expected, predicted, labels[i]);
    }
  }

  function Each(ms: seq<ClassMetrics>, m: Metric): (values: seq<real>)
    ensures |values| == |ms|
  {
    seq(|ms|, i requires 0 <= i < |ms| => Value(ms[i], m))
  }

  lemma {:induction false} MetricSumIsSum(expected: seq<Label>, predicted: seq<Label>, labels: seq<Label>, m: Metric)
    requires |expected| == |predicted|
    ensures MetricSum(expected, predicted, labels, m) == SumOf(Each(ClassesOf(expected, predicted, labels), m))
  {
    hide ClassOf, Value;
    if labels != [] {
      MetricSumIsSum(expected, predicted, labels[1..], m);
      assert Each(ClassesOf(expected, predicted, labels), m)[1..]
             == Each(ClassesOf(expected, predicted, labels[1..]), m);
    }
  }

  lemma MacroIsMean(expected: seq<Label>, predicted: seq<Label>, labels: seq<Label>, m: Metric)
    requires |expected| == |predicted|
    ensures IsMean(Macro(expected, predicted, labels, m), Each(ClassesOf(expected, predicted, labels), m))
  {
    hide MetricSum, ClassesOf, Each, ClassOf, Value;
    MetricSumIsSum(expected, predicted, labels, m);
    MeanFromSum(MetricSum(expected, predicted, labels, m), Each(ClassesOf(expected, predicted, labels), m));
  }

  lemma MeanFromSum(total: real, values: seq<real>)
    requires total == SumOf(values)
    ensures IsMean(Ratio(total, |values| as real), values)
  {
    if values != [] {
      var n := |values| as real;
      assert total / n * n == total;
    }
  }

  function Precisions(ms: seq<ClassMetrics>): (values: seq<real>)
    ensures |values| == |ms| && forall i :: 0 <= i < |ms| ==> values[i] == ms[i].precision
  {
    seq(|ms|, i requires 0 <= i < |ms| => ms[i].precision)
  }

  function Recalls(ms: seq<ClassMetrics>): (values: seq<real>)
    ensures |values| == |ms| && forall i :: 0 <= i < |ms| ==> values[i] == ms[i].recall
  {
    seq(|ms|, i requires 0 <= i < |ms| => ms[i].recall)
  }

  function F1s(ms: seq<ClassMetrics>): (values: seq<real>)
    ensures |values| == |ms| && forall i :: 0 <= i < |ms| ==> values[i] == ms[i].f1
  {
    seq(|ms|, i requires 0 <= i < |ms| => ms[i].f1)
  }

  function FalsePositiveRates(ms: seq<ClassMetrics>): (values: seq<real>)
    ensures |values| == |ms| && forall i :: 0 <= i < |ms| ==> values[i] == ms[i].falsePositiveRate
  {
    seq(|ms|, i requires 0 <= i < |ms| => ms[i].falsePositiveRate)
  }

  function FalseNegativeRates(ms: seq<ClassMetrics>): (values: seq<real>)
    ensures |values| == |ms| && forall i :: 0 <= i < |ms| ==> values[i] == ms[i].falseNegativeRate
  {
    seq(|ms|, i requires 0 <= i < |ms| => ms[i].falseNegativeRate)
  }

  /** F1 of each class, as often as the class is expected. */
  function SupportedF1s(ms: seq<ClassMetrics>): (values: seq<real>)
    ensures |values| == |ms| && forall i :: 0 <= i < |ms| ==> values[i] == ms[i].f1 * ms[i].support as real
  {
    seq(|ms|, i requires 0 <= i < |ms| => ms[i].f1 * ms[i].support as real)
  }

  /** Each macro average is the mean of the rate of its name over the classes. */
  lemma MacrosByName(expected: seq<Label>, predicted: seq<Label>, labels: seq<Label>)
    requires |expected| == |predicted|
    ensures var ms := ClassesOf(expected, predicted, labels);
            && AllHold(ms, expected, predicted, labels)
            && IsMean(Macro(expected, predicted, labels, Precision), Precisions(ms))
            && IsMean(Macro(expected, predicted, labels, Recall), Recalls(ms))
            && IsMean(Macro(expected, predicted, labels, F1), F1s(ms))
            && IsMean(Macro(expected, predicted, labels, FalsePositiveRate), FalsePositiveRates(ms))
            && IsMean(Macro(expected, predicted, labels, FalseNegativeRate), FalseNegativeRates(ms))
  {
    var ms := ClassesOf(expected, predicted, labels);
    ClassesHold(expected, predicted, labels);
    assert Each(ms, Precision) == Precisions(ms) && Each(ms, Recall) == Recalls(ms) && Each(ms, F1) == F1s(ms);
    assert Each(ms, FalsePositiveRate) == FalsePositiveRates(ms);
    assert Each(ms, FalseNegativeRate) == FalseNegativeRates(ms);
    hide ClassesOf, Macro, IsMean, AllHold, Each;
    MacroIsMean(expected, predicted, labels, Precision);
    MacroIsMean(expected, predicted, labels, Recall);
    MacroIsMean(expected, predicted, labels, F1);
    MacroIsMean(expected, predicted, labels, FalsePositiveRate);
    MacroIsMean(expected, predicted, labels, FalseNegativeRate);
  }

  lemma {:induction false} WeightedSumIsSum(expected: seq<Label>, predicted: seq<Label>, labels: seq<Label>)
    requires |expected| == |predicted|
    ensures WeightedSum(expected, predicted, labels, F1) == SumOf(SupportedF1s(ClassesOf(expected, predicted, labels)))
  {
    hide ClassOf;
    if labels != [] {
      WeightedSumIsSum(expected, predicted, labels[1..]);
      var all, rest := SupportedF1s(ClassesOf(expected, predicted, labels)),
                       SupportedF1s(ClassesOf(expected, predicted, labels[1..]));
      forall i | 0 <= i < |rest|
        ensures all[1..][i] == rest[i]
      {
        assert ClassesOf(expected, predicted, labels)[i + 1] == ClassesOf(expected, predicted, labels[1..])[i];
      }
      assert all[1..] == rest;
    }
  }

  ghost function Agreements(expected: seq<Label>, predicted: seq<Label>): set<nat>
    requires |expected| == |predicted|
  {
    set i: nat | i < |expected| && expected[i] == predicted[i]
  }

  ghost function Confusions(expected: seq<Label>, predicted: seq<Label>, a: Label, g: Label): set<nat>
    requires |expected| == |predicted|
  {
    set i: nat | i < |expected| && expected[i] == a && predicted[i] == g
  }

  lemma {:induction false} AgreementsArePositions(expected: seq<Label>, predicted: seq<Label>)
    requires |expected| == |predicted|
    ensures Correct(expected, predicted) == |Agreements(expected, predicted)|
    decreases |expected|
  {
    if expected == [] {
      assert Agreements(expected, predicted) == {};
    } else {
      var n: nat := |expected| - 1;
      var e, p := expected[..n], predicted[..n];
      AgreementsArePositions(e, p);
      CorrectAppend(e, p, expected[n], predicted[n]);
      assert expected == e + [expected[n]] && predicted == p + [predicted[n]];
      hide Correct;
      forall i
        ensures i in Agreements(expected, predicted)
                <==> i in Agreements(e, p) || (i == n && expected[n] == predicted[n])
      {
        assert 0 <= i < n ==> e[i] == expected[i] && p[i] == predicted[i];
      }
      OneMorePosition(Agreements(e, p), Agreements(expected, predicted), n, expected[n] == predicted[n]);
    }
  }

  lemma {:induction false} CorrectAppend(expected: seq<Label>, predicted: seq<Label>, actual: Label, guess: Label)
    requires |expected| == |predicted|
    ensures Correct(expected + [actual], predicted + [guess])
            == Correct(expected, predicted) + (if actual == guess then 1 else 0)
  {
    if expected == [] {
      assert expected + [actual] == [actual] && predicted + [guess] == [guess];
      assert [actual][1..] == [] && [guess][1..] == [];
    } else {
      assert (expected + [actual])[1..] == expected[1..] + [actual];
      assert (predicted + [guess])[1..] == predicted[1..] + [guess];
      CorrectAppend(expected[1..], predicted[1..], actual, guess);
    }
  }

  lemma {:induction false} EntriesArePositions(expected: seq<Label>, predicted: seq<Label>, a: Label, g: Label)
    requires |expected| == |predicted|
    ensures Entry(expected, predicted, a, g) == |Confusions(expected, predicted, a, g)|
    decreases |expected|
  {
    if expected == [] {
      assert Confusions(expected, predicted, a, g) == {};
    } else {
      var n: nat := |expected| - 1;
      var e, p := expected[..n], predicted[..n];
      EntriesArePositions(e, p, a, g);
      EntryAppend(e, p, expected[n], predicted[n], a, g);
      assert expected == e + [expected[n]] && predicted == p + [predicted[n]];
      hide Entry;
      var gained := expected[n] == a && predicted[n] == g;
      forall i
        ensures i in Confusions(expected, predicted, a, g) <==> i in Confusions(e, p, a, g) || (i == n && gained)
      {
        assert 0 <= i < n ==> e[i] == expected[i] && p[i] == predicted[i];
      }
      OneMorePosition(Confusions(e, p, a, g), Confusions(expected, predicted, a, g), n, gained);
    }
  }

  /** Each average is the mean of the rate of its name over the classes. */
  ghost predicate AveragesHold(r: Report, expected: seq<Label>, predicted: seq<Label>, ms: seq<ClassMetrics>)
    requires |expected| == |predicted|
  {
    && AllHold(ms, expected, predicted, r.labels)
    && IsMean(r.macroPrecision, Precisions(ms)) && IsMean(r.macroRecall, Recalls(ms)) && IsMean(r.macroF1, F1s(ms))
    && IsMean(r.macroFalsePositiveRate, FalsePositiveRates(ms))
    && IsMean(r.macroFalseNegativeRate, FalseNegativeRates(ms))
    && (expected != [] ==> r.weightedF1 * |expected| as real == SumOf(SupportedF1s(ms)))
  }

  ghost predicate MatrixHolds(r: Report, expected: seq<Label>, predicted: seq<Label>)
    requires |expected| == |predicted|
  {
    forall a, g :: a in r.labels && g in r.labels ==>
      Pair(a, g) in r.matrix && r.matrix[Pair(a, g)] == |Confusions(expected, predicted, a, g)|
  }

  /** Everything a report says, told by the positions of the two lists. */
  ghost predicate ReportHolds(r: Report, expected: seq<Label>, predicted: seq<Label>)
    requires |expected| == |predicted|
  {
    && (forall l :: l in r.labels <==> l in expected || l in predicted) && Distinct(r.labels)
    && (forall l :: l in r.labels ==> l in r.perClass && ClassHolds(r.perClass[l], expected, predicted, l))
    && MatrixHolds(r, expected, predicted)
    && IsShare(r.accuracy, |Agreements(expected, predicted)|, |expected|)
    && (exists ms :: AveragesHold(r, expected, predicted, ms))
    && r.sampleSize == |expected| && r.groundTruthClasses == |set l | l in expected|
    && (r.measured <==> |set l | l in expected| >= 2)
  }

  lemma MatrixByPositions(r: Report, expected: seq<Label>, predicted: seq<Label>)
    requires |expected| == |predicted| && Counts(r.matrix, r.labels, expected, predicted)
    ensures MatrixHolds(r, expected, predicted)
  {
    hide Entry, Confusions;
    forall a, g | a in r.labels && g in r.labels
      ensures Pair(a, g) in r.matrix && r.matrix[Pair(a, g)] == |Confusions(expected, predicted, a, g)|
    {
      EntriesArePositions(expected, predicted, a, g);
    }
  }

  ghost predicate AveragesOf(r: Report, expected: seq<Label>, predicted: seq<Label>)
    requires |expected| == |predicted|
  {
    && r.macroPrecision == Macro(expected, predicted, r.labels, Precision)
    && r.macroRecall == Macro(expected, predicted, r.labels, Recall)
    && r.macroF1 == Macro(expected, predicted, r.labels, F1)
    && r.macroFalsePositiveRate == Macro(expected, predicted, r.labels, FalsePositiveRate)
    && r.macroFalseNegativeRate == Macro(expected, predicted, r.labels, FalseNegativeRate)
    && r.weightedF1 == Weighted(expected, predicted, r.labels, F1)
  }

  lemma AveragesByName(r: Report, expected: seq<Label>, predicted: seq<Label>)
    requires |expected| == |predicted| && AveragesOf(r, expected, predicted)
    ensures AveragesHold(r, expected, predicted, ClassesOf(expected, predicted, r.labels))
  {
    hide Macro, Weighted, AllHold, IsMean, Precisions, Recalls, F1s, FalsePositiveRates, FalseNegativeRates;
    hide SupportedF1s, ClassesOf;
    WeightedByName(expected, predicted, r.labels);
    MacrosByName(expected, predicted, r.labels);
  }

  lemma WeightedByName(expected: seq<Label>, predicted: seq<Label>, labels: seq<Label>)
    requires |expected| == |predicted|
    ensures expected != [] ==>
              Weighted(expected, predicted, labels, F1) * |expected| as real
              == SumOf(SupportedF1s(ClassesOf(expected, predicted, labels)))
  {
    hide WeightedSum, SupportedF1s, ClassesOf, SumOf;
    WeightedSumIsSum(expected, predicted, labels);
    if expected != [] {
      RatioTimes(WeightedSum(expected, predicted, labels, F1), |expected| as real);
    }
  }

  lemma RatioTimes(total: real, n: real)
    requires n != 0.0
    ensures Ratio(total, n) * n == total
  {
    assert total / n * n == total;
  }

  lemma ReportByPositions(r: Report, expected: seq<Label>, predicted: seq<Label>)
    requires |expected| == |predicted| && Counts(r.matrix, r.labels, expected, predicted)
    requires Distinct(r.labels) && SetOf(r.labels) == SetOf(expected) + SetOf(predicted)
    requires forall l :: l in r.labels <==> l in r.perClass
    requires forall l :: l in r.labels ==> r.perClass[l] == ClassOf(expected, predicted, l)
    requires r.accuracy == Ratio(Correct(expected, predicted) as real, |expected| as real)
    requires AveragesOf(r, expected, predicted)
    requires r.sampleSize == |expected| && r.groundTruthClasses == |SetOf(expected)|
    requires r.measured <==> |SetOf(expected)| >= 2
    ensures ReportHolds(r, expected, predicted)
  {
    hide ClassOf, Ratio, Correct, Counts, ClassHolds, IsShare, Agreements, AveragesHold, AveragesOf, MatrixHolds;
    assert forall l :: l in r.labels <==> l in SetOf(r.labels);
    assert (set l | l in expected) == SetOf(expected);
    AgreementsArePositions(expected, predicted);
    RatioIsShare(Correct(expected, predicted), |expected|);
    MatrixByPositions(r, expected, predicted);
    AveragesByName(r, expected, predicted);
    forall l | l in r.labels
      ensures ClassHolds(r.perClass[l], expected, predicted, l)
    {
      ClassOfHolds(expected, predicted, l);
    }
  }
}
