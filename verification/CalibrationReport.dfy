// What the calibration report says about the samples it was given, sample by
// sample: the rows of the reliability table, the expected calibration error
// that they add up to, and the Brier score.
module CalibrationReport {
  import opened Common
  import opened Folds
  import opened Calibration

  /** The probability of a raw sample, moved into [0, 1]. */
  function Clamped(raw: (real, bool)): real {
    if raw.0 < 0.0 then 0.0 else if raw.0 > 1.0 then 1.0 else raw.0
  }

  /** Bucket b holds the probabilities from b/buckets up to the next boundary; the last one also holds 1. */
  predicate Falls(raw: (real, bool), b: nat, buckets: nat) {
    var scaled := Clamped(raw) * buckets as real;
    b as real <= scaled && (scaled < (b + 1) as real || (b == buckets - 1 && Clamped(raw) == 1.0))
  }

  function Members(raw: seq<(real, bool)>, b: nat, buckets: nat): set<nat> {
    set k: nat | k < |raw| && Falls(raw[k], b, buckets)
  }

  function Positives(raw: seq<(real, bool)>, b: nat, buckets: nat): set<nat> {
    set k: nat | k < |raw| && Falls(raw[k], b, buckets) && raw[k].1
  }

  /** The probability of sample k if it falls into bucket b. */
  function Share(raw: seq<(real, bool)>, b: nat, buckets: nat): nat -> real {
    (k: nat) => if k < |raw| && Falls(raw[k], b, buckets) then Clamped(raw[k]) else 0.0
  }

  /** The squared distance of a sample's probability from its outcome. */
  function Missed(raw: (real, bool)): real {
    if raw.1 then (1.0 - Clamped(raw)) * (1.0 - Clamped(raw)) else Clamped(raw) * Clamped(raw)
  }

  function Miss(raw: seq<(real, bool)>): nat -> real { (k: nat) => if k < |raw| then Missed(raw[k]) else 0.0 }

  function WeightedGap(row: Bucket): real { row.count as real * Abs(row.confidence - row.accuracy) }

  function RowGap(rows: seq<Bucket>): nat -> real {
    (k: nat) => if k < |rows| then WeightedGap(rows[k]) else 0.0
  }

  lemma FallsExactly(raw: (real, bool), b: nat, buckets: nat)
    requires 0 < buckets && b < buckets
    ensures InBucket(Normalize(raw), b, buckets) <==> Falls(raw, b, buckets)
    ensures Normalize(raw).p == Clamped(raw) && Normalize(raw).y == (if raw.1 then 1.0 else 0.0)
  {
    InBucketScaled(Normalize(raw), b, buckets);
    hide InBucket;
    if Clamped(raw) == 1.0 {
      assert 1.0 * buckets as real == buckets as real;
    }
  }

  lemma MembersCount(raw: seq<(real, bool)>, b: nat, buckets: nat)
    requires 0 < buckets && b < buckets
    ensures |Values(NormalizeAll(raw), b, buckets)| == |Members(raw, b, buckets)|
  {
    var xs := NormalizeAll(raw);
    forall k: nat | k < |raw| ensures BucketTest(b, buckets)(xs[k]) <==> Falls(raw[k], b, buckets) {
      FallsExactly(raw[k], b, buckets);
    }
    WhereCounts(xs, BucketTest(b, buckets));
    hide InBucket, Falls;
    assert Indices(xs, BucketTest(b, buckets)) == Members(raw, b, buckets);
  }

  lemma ConfidenceSums(raw: seq<(real, bool)>, b: nat, buckets: nat)
    requires 0 < buckets && b < buckets
    ensures Total(Values(NormalizeAll(raw), b, buckets), P()) == Sum(|raw|, Share(raw, b, buckets))
  {
    var xs, test := NormalizeAll(raw), BucketTest(b, buckets);
    WhereSums(xs, test, P());
    TotalIsSum(xs, Picked(test, P()));
    forall k: nat | k < |raw| ensures Term(xs, Picked(test, P()))(k) == Share(raw, b, buckets)(k) {
      FallsExactly(raw[k], b, buckets);
    }
    SumDependsOnTerms(|raw|, Term(xs, Picked(test, P())), Share(raw, b, buckets));
  }

  lemma {:induction false} OnesCount(n: nat, term: nat -> real)
    requires forall k: nat | k < n :: term(k) == 0.0 || term(k) == 1.0
    ensures Sum(n, term) == |set k: nat | k < n && term(k) == 1.0| as real
  {
    if n == 0 {
      assert (set k: nat | k < n && term(k) == 1.0) == {};
    } else {
      OnesCount(n - 1, term);
      assert (set k: nat | k < n && term(k) == 1.0)
          == (set k: nat | k < n - 1 && term(k) == 1.0) + (if term(n - 1) == 1.0 then {n - 1} else {});
    }
  }

  lemma AccuracyCounts(raw: seq<(real, bool)>, b: nat, buckets: nat)
    requires 0 < buckets && b < buckets
    ensures Total(Values(NormalizeAll(raw), b, buckets), Y()) == |Positives(raw, b, buckets)| as real
  {
    var xs, test := NormalizeAll(raw), BucketTest(b, buckets);
    var term := Term(xs, Picked(test, Y()));
    WhereSums(xs, test, Y());
    TotalIsSum(xs, Picked(test, Y()));
    forall k: nat | k < |raw|
      ensures term(k) == if Falls(raw[k], b, buckets) && raw[k].1 then 1.0 else 0.0
    {
      FallsExactly(raw[k], b, buckets);
    }
    OnesCount(|raw|, term);
    hide Falls;
    assert (set k: nat | k < |raw| && term(k) == 1.0) == Positives(raw, b, buckets);
  }

  // ---- the rows --------------------------------------------------------

  /** A row counts its bucket's samples; confidence and accuracy are their mean probability and hit rate. */
  ghost predicate RowTells(raw: seq<(real, bool)>, buckets: nat, row: Bucket) {
    && row.index < buckets && row.count == |Members(raw, row.index, buckets)| && row.count > 0
    && row.confidence * row.count as real == Sum(|raw|, Share(raw, row.index, buckets))
    && row.accuracy * row.count as real == |Positives(raw, row.index, buckets)| as real
  }

  lemma MeanTimesCount(vs: seq<Sample>, w: Sample -> real)
    requires vs != []
    ensures Mean(vs, w) * |vs| as real == Total(vs, w)
  {
    var t, n := Total(vs, w), |vs| as real;
    assert t / n * n == t;
  }

  lemma RowIsRight(raw: seq<(real, bool)>, b: nat, buckets: nat)
    requires 0 < buckets && b < buckets && Values(NormalizeAll(raw), b, buckets) != []
    ensures var vs := Values(NormalizeAll(raw), b, buckets);
      RowTells(raw, buckets, Bucket(b, |vs|, Mean(vs, P()), Mean(vs, Y())))
  {
    hide Values, Mean, Total, Sum, Members, Positives;
    var vs := Values(NormalizeAll(raw), b, buckets);
    MembersCount(raw, b, buckets);
    ConfidenceSums(raw, b, buckets);
    AccuracyCounts(raw, b, buckets);
    MeanTimesCount(vs, P());
    MeanTimesCount(vs, Y());
  }

  /** One row per non-empty bucket before k, in ascending order, each telling the truth. */
  ghost predicate RowsTell(raw: seq<(real, bool)>, buckets: nat, rows: seq<Bucket>, k: nat) {
    && (forall j | 0 <= j < |rows| :: rows[j].index < k && RowTells(raw, buckets, rows[j]))
    && (forall i, j | 0 <= i < j < |rows| :: rows[i].index < rows[j].index)
    && (forall b: nat | b < k && Members(raw, b, buckets) != {} :: exists row | row in rows :: row.index == b)
  }

  lemma NoRowsYet(raw: seq<(real, bool)>, buckets: nat)
    ensures RowsTell(raw, buckets, [], 0)
  {
  }

  lemma RowsGrow(raw: seq<(real, bool)>, buckets: nat, rows: seq<Bucket>, k: nat, more: seq<Bucket>)
    requires k > 0 && RowsTell(raw, buckets, rows, k - 1) && |more| <= 1
    requires more == [] ==> Members(raw, k - 1, buckets) == {}
    requires more != [] ==> more[0].index == k - 1 && RowTells(raw, buckets, more[0])
    ensures RowsTell(raw, buckets, rows + more, k)
  {
    hide RowTells, Members;
    forall b: nat | b < k && Members(raw, b, buckets) != {} ensures exists row | row in rows + more :: row.index == b {
      if b < k - 1 {
        var row :| row in rows && row.index == b;
        assert row in rows + more;
      } else {
        assert more[0] in rows + more;
      }
    }
  }

  lemma {:induction false} RowsAreRight(raw: seq<(real, bool)>, buckets: nat, k: nat)
    requires 0 < buckets && k <= buckets
    ensures RowsTell(raw, buckets, RowsBefore(NormalizeAll(raw), k, buckets), k)
  {
    hide RowsTell, RowTells, Members, Values, Mean;
    if k == 0 {
      NoRowsYet(raw, buckets);
    } else {
      var xs := NormalizeAll(raw);
      var rows, vs := RowsBefore(xs, k - 1, buckets), Values(xs, k - 1, buckets);
      RowsAreRight(raw, buckets, k - 1);
      MembersCount(raw, k - 1, buckets);
      if vs == [] {
        RowsGrow(raw, buckets, rows, k, []);
        assert rows + [] == rows;
      } else {
        RowIsRight(raw, k - 1, buckets);
        RowsGrow(raw, buckets, rows, k, [Bucket(k - 1, |vs|, Mean(vs, P()), Mean(vs, Y()))]);
      }
    }
  }

  // ---- the scores ------------------------------------------------------

  lemma LastTerm(n: nat, term: nat -> real)
    ensures Sum(n + 1, term) == Sum(n, term) + term(n)
  {
  }

  lemma SumGrows(rows: seq<Bucket>, row: Bucket)
    ensures Sum(|rows| + 1, RowGap(rows + [row])) == Sum(|rows|, RowGap(rows)) + WeightedGap(row)
  {
    hide Sum, WeightedGap;
    var longer, n := rows + [row], |rows|;
    SumDependsOnTerms(n, RowGap(longer), RowGap(rows));
    LastTerm(n, RowGap(longer));
  }

  lemma GapTimesSize(vs: seq<Sample>, n: nat)
    requires vs != [] && n > 0
    ensures n as real * Gap(vs, n) == |vs| as real * Abs(Mean(vs, P()) - Mean(vs, Y()))
  {
    var c, m, d := |vs| as real, n as real, Abs(Mean(vs, P()) - Mean(vs, Y()));
    assert m * (c / m * d) == c * d;
  }

  lemma EmptySum(term: nat -> real)
    ensures Sum(0, term) == 0.0
  {
  }

  lemma ScaledGap(vs: seq<Sample>, n: nat)
    requires vs != [] && n > 0
    ensures Scale(n as real, Gap(vs, n)) == |vs| as real * Abs(Mean(vs, P()) - Mean(vs, Y()))
  {
    GapTimesSize(vs, n);
  }

  /** The error is the rows' gaps between confidence and accuracy, weighted by their share of the samples. */
  lemma {:induction false} EceAddsUpRows(xs: seq<Sample>, k: nat, buckets: nat)
    requires xs != [] && buckets > 0
    ensures var rows := RowsBefore(xs, k, buckets);
      Scale(|xs| as real, EceBefore(xs, k, buckets)) == Sum(|rows|, RowGap(rows))
  {
    hide Scale, Values, Mean, Gap, Sum;
    var n := |xs| as real;
    ScaleIsLinear(n, 0.0, 0.0);
    if k == 0 {
      EmptySum(RowGap([]));
    } else {
      var vs := Values(xs, k - 1, buckets);
      EceAddsUpRows(xs, k - 1, buckets);
      ScaleIsLinear(n, EceBefore(xs, k - 1, buckets), Contribution(vs, |xs|));
      var rows := RowsBefore(xs, k - 1, buckets);
      if vs == [] {
        assert RowsBefore(xs, k, buckets) == rows;
      } else {
        ScaledGap(vs, |xs|);
        SumGrows(rows, Bucket(k - 1, |vs|, Mean(vs, P()), Mean(vs, Y())));
      }
    }
  }

  lemma ScaledMean(xs: seq<Sample>, w: Sample -> real)
    requires xs != []
    ensures Scale(|xs| as real, Mean(xs, w)) == Total(xs, w)
  {
    MeanTimesCount(xs, w);
  }

  lemma SquareFlips(p: real)
    ensures (p - 1.0) * (p - 1.0) == (1.0 - p) * (1.0 - p) && (p - 0.0) * (p - 0.0) == p * p
  {
  }

  lemma MissIsSquaredError(raw: (real, bool))
    ensures SquaredError()(Normalize(raw)) == Missed(raw)
  {
    assert Normalize(raw).p == Clamped(raw);
    hide Clamped;
    SquareFlips(Clamped(raw));
  }

  lemma BrierSums(raw: seq<(real, bool)>)
    requires raw != []
    ensures Scale(|raw| as real, Brier(NormalizeAll(raw))) == Sum(|raw|, Miss(raw))
  {
    var xs := NormalizeAll(raw);
    ScaledMean(xs, SquaredError());
    TotalIsSum(xs, SquaredError());
    hide Sum, Mean, Total, SquaredError, Missed, Scale;
    forall k: nat | k < |raw| ensures Term(xs, SquaredError())(k) == Miss(raw)(k) {
      MissIsSquaredError(raw[k]);
    }
    SumDependsOnTerms(|raw|, Term(xs, SquaredError()), Miss(raw));
  }

  /**
   * The report on the samples as given, for any bucket count of at least one: one row per non-empty bucket with its
   * number of samples, their mean probability as confidence and their share of positive outcomes as accuracy; the
   * calibration error as the weighted gaps of those rows; and the Brier score as the mean squared miss.
   */
  lemma ReportTells(raw: seq<(real, bool)>, buckets: nat)
    requires raw != [] && buckets >= 1
    ensures var r := ReportOf(raw, buckets);
      && r.Report? && r.sampleSize == |raw|
      && RowsTell(raw, buckets, r.reliability, buckets)
      && Scale(|raw| as real, r.ece) == Sum(|r.reliability|, RowGap(r.reliability))
      && Scale(|raw| as real, r.brier) == Sum(|raw|, Miss(raw))
  {
    var xs := NormalizeAll(raw);
    RowsAreRight(raw, buckets, buckets);
    EceAddsUpRows(xs, buckets, buckets);
    BrierSums(raw);
    hide RowsTell, RowsBefore, EceBefore, Brier, Sum, Scale, NormalizeAll, Miss, RowGap;
  }
}
