// calibration_metrics of services/ai_evaluation.py.
// Figures are exact; rounding and the square-root interval are not modelled.
module Calibration {
  import opened Common
  import opened Folds

  /** A probability already clamped to [0, 1] and its outcome as 0 or 1. */
  datatype Sample = Sample(p: real, y: real) {
    predicate Valid() { 0.0 <= p <= 1.0 && (y == 0.0 || y == 1.0) }
  }

  datatype Bucket = Bucket(index: nat, count: nat, confidence: real, accuracy: real)

  datatype Report = NoSamples | Report(sampleSize: nat, brier: real, ece: real, reliability: seq<Bucket>)

  function Normalize(raw: (real, bool)): (s: Sample)
    ensures s.Valid()
  {
    Sample(RMax(0.0, RMin(1.0, raw.0)), if raw.1 then 1.0 else 0.0)
  }

  function NormalizeAll(raw: seq<(real, bool)>): (r: seq<Sample>)
    ensures |r| == |raw| && forall s | s in r :: s.Valid()
  {
    seq(|raw|, i requires 0 <= i < |raw| => Normalize(raw[i]))
  }

  function P(): Sample -> real { (s: Sample) => s.p }

  function Y(): Sample -> real { (s: Sample) => s.y }

  function Error(): Sample -> real { (s: Sample) => s.p - s.y }

  function AbsError(): Sample -> real { (s: Sample) => Abs(s.p - s.y) }

  function SquaredError(): Sample -> real { (s: Sample) => (s.p - s.y) * (s.p - s.y) }

  function Mean(xs: seq<Sample>, w: Sample -> real): real
    requires xs != []
  { Total(xs, w) / |xs| as real }

  /** The bucket test of the source: half-open ranges, and the last one also takes p == 1. */
  predicate InBucket(s: Sample, index: nat, buckets: nat)
    requires buckets > 0
  {
    (index as real / buckets as real <= s.p < (index + 1) as real / buckets as real)
    || (index == buckets - 1 && s.p == 1.0)
  }

  function BucketTest(index: nat, buckets: nat): Sample -> bool
    requires buckets > 0
  { (s: Sample) => InBucket(s, index, buckets) }

  function Values(xs: seq<Sample>, index: nat, buckets: nat): seq<Sample>
    requires buckets > 0
  { Where(xs, BucketTest(index, buckets)) }

  function Gap(vs: seq<Sample>, n: nat): real
    requires vs != [] && n > 0
  { |vs| as real / n as real * Abs(Mean(vs, P()) - Mean(vs, Y())) }

  /** What one bucket adds to the error: nothing when it is empty. */
  function Contribution(vs: seq<Sample>, n: nat): real
    requires n > 0
  { if vs == [] then 0.0 else Gap(vs, n) }

  /** Expected calibration error over the buckets before k. */
  function EceBefore(xs: seq<Sample>, k: nat, buckets: nat): real
    requires buckets > 0 && xs != []
  {
    if k == 0 then 0.0
    else
      var vs := Values(xs, k - 1, buckets);
      EceBefore(xs, k - 1, buckets) + Contribution(vs, |xs|)
  }

  function RowsBefore(xs: seq<Sample>, k: nat, buckets: nat): seq<Bucket>
    requires buckets > 0
  {
    if k == 0 then []
    else
      var vs := Values(xs, k - 1, buckets);
      RowsBefore(xs, k - 1, buckets)
      + (if vs == [] then [] else [Bucket(k - 1, |vs|, Mean(vs, P()), Mean(vs, Y()))])
  }

  function Brier(xs: seq<Sample>): real
    requires xs != []
  { Mean(xs, SquaredError()) }

  /** The whole report; a bucket count below one makes the bucket loop empty. */
  function ReportOf(raw: seq<(real, bool)>, buckets: int): Report {
    if raw == [] then NoSamples
    else
      var xs := NormalizeAll(raw);
      if buckets <= 0 then Report(|xs|, Brier(xs), 0.0, [])
      else Report(|xs|, Brier(xs), EceBefore(xs, buckets, buckets), RowsBefore(xs, buckets, buckets))
  }

  method CalibrationMetrics(samples: seq<(real, bool)>, buckets: int) returns (r: Report)
    ensures r == ReportOf(samples, buckets)
  {
    if samples == [] {
      return NoSamples;
    }
    var normalized := NormalizeAll(samples);
    var brier := Total(normalized, SquaredError()) / |normalized| as real;
    var rows: seq<Bucket> := [];
    var ece := 0.0;
    var index := 0;
    while index < buckets
      invariant 0 <= index
      invariant buckets > 0 ==> index <= buckets
      invariant buckets > 0 ==> ece == EceBefore(normalized, index, buckets)
      invariant buckets > 0 ==> rows == RowsBefore(normalized, index, buckets)
      invariant buckets <= 0 ==> ece == 0.0 && rows == []
    {
      var values := Values(normalized, index, buckets);
      index := index + 1;
      if values == [] {
        continue;
      }
      var confidence := Total(values, P()) / |values| as real;
      var accuracy := Total(values, Y()) / |values| as real;
      ece := ece + |values| as real / |normalized| as real * Abs(confidence - accuracy);
      rows := rows + [Bucket(index - 1, |values|, confidence, accuracy)];
    }
    r := Report(|normalized|, brier, ece, rows);
  }

  // ---- the buckets partition the samples -------------------------------

  function BucketOf(buckets: nat): Sample -> nat
    requires buckets > 0
  {
    (s: Sample) => if s.p == 1.0 || s.p < 0.0 then buckets - 1
                   else if (s.p * buckets as real).Floor < 0 then 0 else (s.p * buckets as real).Floor
  }

  lemma ScaleBounds(p: real, k: real, b: real)
    requires b > 0.0
    ensures k / b <= p <==> k <= p * b
  {
    var q := k / b;
    assert q * b == k;
    if q <= p {
      assert (p - q) * b >= 0.0;
    } else {
      assert (q - p) * b > 0.0;
    }
  }

  lemma ScaledUnit(p: real, b: real)
    requires b > 0.0 && 0.0 <= p < 1.0
    ensures 0.0 <= p * b < b
  {
    assert (1.0 - p) * b > 0.0;
  }

  lemma FloorIs(x: real, k: int)
    ensures x.Floor == k <==> k as real <= x < (k + 1) as real
  {
  }

  lemma InBucketScaled(s: Sample, index: nat, buckets: nat)
    requires buckets > 0
    ensures var x := s.p * buckets as real;
      InBucket(s, index, buckets)
      <==> index as real <= x < (index + 1) as real || (index == buckets - 1 && s.p == 1.0)
  {
    ScaleBounds(s.p, index as real, buckets as real);
    ScaleBounds(s.p, (index + 1) as real, buckets as real);
  }

  /** Every clamped probability falls into exactly one bucket. */
  lemma BucketIsUnique(s: Sample, index: nat, buckets: nat)
    requires s.Valid() && buckets > 0 && index < buckets
    ensures BucketOf(buckets)(s) < buckets
    ensures InBucket(s, index, buckets) <==> BucketOf(buckets)(s) == index
  {
    InBucketScaled(s, index, buckets);
    hide InBucket;
    var x := s.p * buckets as real;
    if s.p < 1.0 {
      ScaledUnit(s.p, buckets as real);
      FloorIs(x, index);
      assert BucketOf(buckets)(s) == x.Floor;
    }
  }

  lemma ValuesAreClass(xs: seq<Sample>, index: nat, buckets: nat)
    requires buckets > 0 && index < buckets && forall s | s in xs :: s.Valid()
    ensures Values(xs, index, buckets) == Where(xs, InClass(BucketOf(buckets), index))
  {
    forall s | s in xs ensures BucketTest(index, buckets)(s) == InClass(BucketOf(buckets), index)(s) {
      BucketIsUnique(s, index, buckets);
    }
    WhereAgree(xs, BucketTest(index, buckets), InClass(BucketOf(buckets), index));
  }

  /** The per-bucket total of the source is the per-class total of the partition. */
  lemma ClassStep(xs: seq<Sample>, w: Sample -> real, k: nat, buckets: nat)
    requires 0 < k <= buckets && forall s | s in xs :: s.Valid()
    ensures ByClass(xs, w, BucketOf(buckets), k)
            == ByClass(xs, w, BucketOf(buckets), k - 1) + Total(Values(xs, k - 1, buckets), w)
  {
    ValuesAreClass(xs, k - 1, buckets);
  }

  function CountRows(rows: seq<Bucket>): nat {
    if rows == [] then 0 else CountRows(rows[..|rows| - 1]) + rows[|rows| - 1].count
  }

  lemma RowsStep(xs: seq<Sample>, k: nat, buckets: nat)
    requires 0 < k <= buckets
    ensures CountRows(RowsBefore(xs, k, buckets))
            == CountRows(RowsBefore(xs, k - 1, buckets)) + |Values(xs, k - 1, buckets)|
  {
    var before, rows := RowsBefore(xs, k - 1, buckets), RowsBefore(xs, k, buckets);
    if Values(xs, k - 1, buckets) == [] {
      assert rows == before;
    } else {
      assert rows[..|rows| - 1] == before;
    }
  }

  lemma {:induction false} RowsCount(xs: seq<Sample>, k: nat, buckets: nat)
    requires buckets > 0 && k <= buckets && forall s | s in xs :: s.Valid()
    ensures CountRows(RowsBefore(xs, k, buckets)) as real == ByClass(xs, One<Sample>(), BucketOf(buckets), k)
  {
    if k > 0 {
      RowsCount(xs, k - 1, buckets);
      RowsStep(xs, k, buckets);
      ClassStep(xs, One<Sample>(), k, buckets);
      TotalOfOnes(Values(xs, k - 1, buckets));
    }
  }

  // ---- error totals ----------------------------------------------------

  lemma {:induction false} ErrorIsDifference(xs: seq<Sample>)
    ensures Total(xs, Error()) == Total(xs, P()) - Total(xs, Y())
  {
    if xs != [] {
      ErrorIsDifference(xs[..|xs| - 1]);
    }
  }

  lemma {:induction false} TriangleInequality(xs: seq<Sample>)
    ensures Abs(Total(xs, Error())) <= Total(xs, AbsError())
  {
    if xs != [] {
      TriangleInequality(xs[..|xs| - 1]);
    }
  }

  /** (A + x)^2 <= (k + 1)(B + x^2) whenever A^2 <= k B. */
  lemma CauchySchwarzStep(a: real, b: real, k: real, x: real)
    requires k >= 1.0 && a * a <= k * b
    ensures (a + x) * (a + x) <= (k + 1.0) * (b + x * x)
  {
    var d := a - k * x;
    assert d * d >= 0.0;
    assert d * d == a * a - 2.0 * k * a * x + k * k * x * x;
    assert k * (2.0 * a * x) <= k * (b + k * x * x);
    assert 2.0 * a * x <= b + k * x * x;
    assert (a + x) * (a + x) == a * a + 2.0 * a * x + x * x;
    assert (k + 1.0) * (b + x * x) == k * b + b + k * x * x + x * x;
  }

  lemma {:induction false} CauchySchwarz(xs: seq<Sample>)
    ensures Total(xs, AbsError()) * Total(xs, AbsError()) <= |xs| as real * Total(xs, SquaredError())
  {
    if |xs| == 1 {
      assert xs[..0] == [];
    } else if xs != [] {
      var init, last := xs[..|xs| - 1], xs[|xs| - 1];
      CauchySchwarz(init);
      CauchySchwarzStep(Total(init, AbsError()), Total(init, SquaredError()), |init| as real, AbsError()(last));
      assert AbsError()(last) * AbsError()(last) == SquaredError()(last);
    }
  }

  lemma NonNegativeProduct(a: real, b: real)
    requires a >= 0.0 && b >= 0.0
    ensures a * b >= 0.0
  {
  }

  lemma UnitSquare(d: real)
    requires -1.0 <= d <= 1.0
    ensures 0.0 <= d * d <= 1.0
  {
    var e := Abs(d);
    NonNegativeProduct(1.0 - e, e);
    assert e * e == d * d && (1.0 - e) * e == e - e * e;
  }

  lemma SquaredErrorOfOne(s: Sample)
    requires s.Valid()
    ensures 0.0 <= SquaredError()(s) <= 1.0
  {
    UnitSquare(s.p - s.y);
  }

  lemma {:induction false} SquaredErrorAtMostOne(xs: seq<Sample>)
    requires forall s | s in xs :: s.Valid()
    ensures 0.0 <= Total(xs, SquaredError()) <= |xs| as real
  {
    hide SquaredError;
    if xs != [] {
      SquaredErrorAtMostOne(xs[..|xs| - 1]);
      assert xs[|xs| - 1] in xs;
      SquaredErrorOfOne(xs[|xs| - 1]);
    }
  }

  lemma GapArithmetic(m: real, k: real, p: real, y: real)
    requires m > 0.0 && k > 0.0
    ensures k * (m / k * Abs(p / m - y / m)) == Abs(p - y)
  {
    var g := p / m - y / m;
    assert g * m == p - y;
    assert Abs(g) * m == Abs(p - y);
    assert k * (m / k) == m;
    assert k * (m / k * Abs(g)) == k * (m / k) * Abs(g);
  }

  /** A bucket contributes the absolute value of its summed error, over n. */
  lemma GapIsSummedError(vs: seq<Sample>, n: nat)
    requires vs != [] && n > 0
    ensures n as real * Gap(vs, n) == Abs(Total(vs, Error()))
  {
    ErrorIsDifference(vs);
    GapArithmetic(|vs| as real, n as real, Total(vs, P()), Total(vs, Y()));
  }

  /** The absolute summed errors of the buckets before k: ECE without its division by n. */
  function GapSum(xs: seq<Sample>, k: nat, buckets: nat): real
    requires buckets > 0
  { if k == 0 then 0.0 else GapSum(xs, k - 1, buckets) + Abs(Total(Values(xs, k - 1, buckets), Error())) }

  function Scale(n: real, x: real): real { n * x }

  lemma ScaleIsLinear(n: real, a: real, b: real)
    ensures Scale(n, 0.0) == 0.0 && Scale(n, a + b) == Scale(n, a) + Scale(n, b)
  {
  }

  lemma ContributionScaled(vs: seq<Sample>, n: nat)
    requires n > 0
    ensures Scale(n as real, Contribution(vs, n)) == Abs(Total(vs, Error()))
  {
    if vs != [] {
      GapIsSummedError(vs, n);
    }
  }

  lemma {:induction false} EceScaled(xs: seq<Sample>, k: nat, buckets: nat)
    requires xs != [] && buckets > 0
    ensures Scale(|xs| as real, EceBefore(xs, k, buckets)) == GapSum(xs, k, buckets)
  {
    hide Scale, Contribution, Values, Total, Error, Abs;
    var n := |xs| as real;
    ScaleIsLinear(n, 0.0, 0.0);
    if k > 0 {
      var c := Contribution(Values(xs, k - 1, buckets), |xs|);
      EceScaled(xs, k - 1, buckets);
      ContributionScaled(Values(xs, k - 1, buckets), |xs|);
      ScaleIsLinear(n, EceBefore(xs, k - 1, buckets), c);
    }
  }

  /** The summed bucket errors lie between the absolute summed error and the summed absolute error. */
  lemma {:induction false} GapSumBracket(xs: seq<Sample>, k: nat, buckets: nat)
    requires buckets > 0 && k <= buckets && forall s | s in xs :: s.Valid()
    ensures Abs(ByClass(xs, Error(), BucketOf(buckets), k)) <= GapSum(xs, k, buckets)
    ensures GapSum(xs, k, buckets) <= ByClass(xs, AbsError(), BucketOf(buckets), k)
  {
    if k > 0 {
      GapSumBracket(xs, k - 1, buckets);
      ClassStep(xs, Error(), k, buckets);
      ClassStep(xs, AbsError(), k, buckets);
      TriangleInequality(Values(xs, k - 1, buckets));
    }
  }

  lemma SquareMonotone(a: real, b: real)
    requires 0.0 <= a <= b
    ensures a * a <= b * b
  {
  }

  lemma CancelFactor(n: real, a: real, b: real)
    requires n > 0.0 && a * n <= b * n
    ensures a <= b
  {
    assert (b - a) * n >= 0.0;
  }

  lemma MeanErrorBelowEce(n: real, p: real, y: real, ece: real)
    requires n > 0.0 && Abs(p - y) <= n * ece
    ensures Abs(p / n - y / n) <= ece
  {
    var d := p / n - y / n;
    assert d * n == p - y;
    assert Abs(d) * n <= ece * n;
    CancelFactor(n, Abs(d), ece);
  }

  lemma EceSquaredBelowBrier(n: real, ece: real, a: real, q: real)
    requires n > 0.0 && 0.0 <= n * ece <= a && a * a <= n * q
    ensures ece * ece <= q / n
  {
    SquareMonotone(n * ece, a);
    var b := q / n;
    assert q == b * n;
    assert n * ece * (n * ece) == ece * ece * n * n;
    assert n * q == b * n * n;
    CancelFactor(n, ece * ece * n, b * n);
    CancelFactor(n, ece * ece, b);
  }

  lemma AllInBuckets(xs: seq<Sample>, buckets: nat)
    requires buckets > 0 && forall s | s in xs :: s.Valid()
    ensures forall s | s in xs :: BucketOf(buckets)(s) < buckets
  {
    forall s | s in xs ensures BucketOf(buckets)(s) < buckets {
      BucketIsUnique(s, 0, buckets);
    }
  }

  /** The reliability rows count every sample once. */
  lemma RowsPartition(xs: seq<Sample>, buckets: nat)
    requires buckets > 0 && forall s | s in xs :: s.Valid()
    ensures CountRows(RowsBefore(xs, buckets, buckets)) == |xs|
  {
    AllInBuckets(xs, buckets);
    RowsCount(xs, buckets, buckets);
    Partition(xs, One<Sample>(), BucketOf(buckets), buckets);
    TotalOfOnes(xs);
  }

  /** |n (mean p - mean y)| <= n ECE <= the summed absolute error. */
  lemma EceBracket(xs: seq<Sample>, buckets: nat)
    requires xs != [] && buckets > 0 && forall s | s in xs :: s.Valid()
    ensures var e := Scale(|xs| as real, EceBefore(xs, buckets, buckets));
      Abs(Total(xs, P()) - Total(xs, Y())) <= e <= Total(xs, AbsError())
  {
    AllInBuckets(xs, buckets);
    EceScaled(xs, buckets, buckets);
    GapSumBracket(xs, buckets, buckets);
    Partition(xs, Error(), BucketOf(buckets), buckets);
    Partition(xs, AbsError(), BucketOf(buckets), buckets);
    ErrorIsDifference(xs);
  }

  /**
   * For every non-empty sample list and every bucket count of at least one: the reliability rows partition the
   * samples, the calibration-in-the-large error never exceeds ECE, and ECE squared never exceeds the Brier score.
   */
  lemma CalibrationInequalities(raw: seq<(real, bool)>, buckets: nat)
    requires raw != [] && buckets >= 1
    ensures var xs, r := NormalizeAll(raw), ReportOf(raw, buckets);
      && CountRows(r.reliability) == |raw| == r.sampleSize
      && Abs(Mean(xs, P()) - Mean(xs, Y())) <= r.ece
      && r.ece * r.ece <= r.brier <= 1.0
  {
    hide EceBefore, RowsBefore, CountRows, Total, AbsError, SquaredError, P, Y, NormalizeAll;
    var xs := NormalizeAll(raw);
    var n, ece := |xs| as real, EceBefore(xs, buckets, buckets);
    RowsPartition(xs, buckets);
    EceBracket(xs, buckets);
    MeanErrorBelowEce(n, Total(xs, P()), Total(xs, Y()), ece);
    CauchySchwarz(xs);
    EceSquaredBelowBrier(n, ece, Total(xs, AbsError()), Total(xs, SquaredError()));
    SquaredErrorAtMostOne(xs);
    CancelFactor(n, Brier(xs), 1.0);
  }
}
