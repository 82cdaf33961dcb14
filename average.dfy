/**
 * The per-neighborhood average (static/js/logic.js:67-78) and the average line
 * of the popup (static/js/logic.js:96-102).
 */
module Average {
  import opened Wrappers
  import opened GeoJson
  import opened SpatialJoin

  /** `reduce((total, score) => total + score, 0)`. */
  function Sum(s: seq<int>): int {
    if s == [] then 0 else Sum(s[..|s| - 1]) + s[|s| - 1]
  }

  /**
   * `Math.round(sum / length)` on whole-number scores: the integer nearest to
   * the mean, halves rounded up (towards positive infinity, as Math.round does).
   */
  function RoundedMean(s: seq<int>): (r: int)
    requires s != []
    ensures 2 * |s| * r - |s| <= 2 * Sum(s) < 2 * |s| * r + |s|
  {
    var n := |s|;
    var q := (2 * Sum(s) + n) / (2 * n);
    assert 2 * Sum(s) + n == 2 * n * q + (2 * Sum(s) + n) % (2 * n);
    q
  }

  /** A positive multiple of a whole number that is at least one is at least the multiplier. */
  lemma MultipleAtLeast(n: int, d: int)
    requires n > 0 && d >= 1
    ensures n * d >= n
  {
    assert n * d == n * (d - 1) + n;
    assert n * (d - 1) >= 0;
  }

  /** At most one integer lies within half of `total / (2 * n)` in the sense of `RoundedMean`. */
  lemma HalfWindowUnique(n: int, total: int, r: int, m: int)
    requires n > 0
    requires 2 * n * r - n <= total < 2 * n * r + n
    requires 2 * n * m - n <= total < 2 * n * m + n
    ensures r == m
  {
    if r > m {
      assert 2 * n * r - 2 * n * m == 2 * n * (r - m);
      MultipleAtLeast(2 * n, r - m);
    } else if r < m {
      assert 2 * n * m - 2 * n * r == 2 * n * (m - r);
      MultipleAtLeast(2 * n, m - r);
    }
  }

  /** The rounding condition fixes the result: nothing else lies within half of the mean. */
  lemma RoundedMeanUnique(s: seq<int>, r: int)
    requires s != []
    requires 2 * |s| * r - |s| <= 2 * Sum(s) < 2 * |s| * r + |s|
    ensures r == RoundedMean(s)
  {
    HalfWindowUnique(|s|, 2 * Sum(s), r, RoundedMean(s));
  }

  lemma {:induction false} SumWithin(s: seq<int>, lo: int, hi: int)
    requires forall i :: 0 <= i < |s| ==> lo <= s[i] <= hi
    ensures |s| * lo <= Sum(s) <= |s| * hi
  {
    if s != [] {
      SumWithin(s[..|s| - 1], lo, hi);
    }
  }

  lemma RoundedWithin(n: int, total: int, r: int, lo: int, hi: int)
    requires n > 0
    requires n * lo <= total <= n * hi
    requires 2 * n * r - n <= 2 * total < 2 * n * r + n
    ensures lo <= r <= hi
  {
    if r > hi {
      assert 2 * total <= 2 * n * hi;
      assert 2 * n * r - 2 * n * hi == 2 * n * (r - hi);
      MultipleAtLeast(2 * n, r - hi);
    }
    if r < lo {
      assert 2 * n * lo <= 2 * total;
      assert 2 * n * lo - 2 * n * r == 2 * n * (lo - r);
      MultipleAtLeast(2 * n, lo - r);
    }
  }

  /** A mean rounded this way never leaves the range of the scores it averages. */
  lemma MeanWithin(s: seq<int>, lo: int, hi: int)
    requires s != []
    requires forall i :: 0 <= i < |s| ==> lo <= s[i] <= hi
    ensures lo <= RoundedMean(s) <= hi
  {
    SumWithin(s, lo, hi);
    RoundedWithin(|s|, Sum(s), RoundedMean(s), lo, hi);
  }

  function Min(s: seq<int>): (m: int)
    requires s != []
    ensures m in s && forall i :: 0 <= i < |s| ==> m <= s[i]
  {
    if |s| == 1 then s[0]
    else
      var rest := Min(s[1..]);
      if s[0] <= rest then s[0] else rest
  }

  function Max(s: seq<int>): (m: int)
    requires s != []
    ensures m in s && forall i :: 0 <= i < |s| ==> s[i] <= m
  {
    if |s| == 1 then s[0]
    else
      var rest := Max(s[1..]);
      if s[0] >= rest then s[0] else rest
  }

  /** The average of a list lies between the list's minimum and its maximum. */
  lemma MeanBetweenMinAndMax(s: seq<int>)
    requires s != []
    ensures Min(s) <= RoundedMean(s) <= Max(s)
  {
    MeanWithin(s, Min(s), Max(s));
  }

  /** Three scores 70, 80 and 90 average to 80; scores 80 and 81 average to 81, the half rounded up. */
  lemma AverageExamples()
    ensures RoundedMean([70, 80, 90]) == 80
    ensures RoundedMean([80, 81]) == 81
  {
    assert Sum([70, 80, 90]) == 240 by {
      assert [70, 80, 90][..2] == [70, 80];
      assert [70, 80][..1] == [70];
      assert [70][..0] == [];
    }
    assert Sum([80, 81]) == 161 by {
      assert [80, 81][..1] == [80];
      assert [80][..0] == [];
    }
  }

  /**
   * The value written to `average_inspection_score` for a feature whose key is
   * `key`: `undefined` when the dictionary has no list for it, never 0.
   */
  function AverageFor(inspectionScores: map<MultiPolygon, seq<int>>, key: MultiPolygon): (r: Option<int>)
    requires key in inspectionScores ==> inspectionScores[key] != []
    ensures r.None? <==> key !in inspectionScores
    ensures r.Some? ==> var s := inspectionScores[key];
      2 * |s| * r.value - |s| <= 2 * Sum(s) < 2 * |s| * r.value + |s|
  {
    if key in inspectionScores then Some(RoundedMean(inspectionScores[key])) else None
  }

  /**
   * The averaging `forEach`: each feature's `average_inspection_score` is set
   * from the list under its own coordinates; nothing else about the features
   * changes.
   */
  method ApplyAverages(features: array<Feature>, inspectionScores: map<MultiPolygon, seq<int>>)
    requires forall key :: key in inspectionScores ==> inspectionScores[key] != []
    modifies features
    ensures forall i :: 0 <= i < features.Length ==>
      features[i] == old(features[i]).(properties := old(features[i]).properties.(
        averageInspectionScore := AverageFor(inspectionScores, old(features[i]).geometry.coordinates)))
  {
    for i := 0 to features.Length
      invariant forall k :: 0 <= k < i ==>
        features[k] == old(features[k]).(properties := old(features[k]).properties.(
          averageInspectionScore := AverageFor(inspectionScores, old(features[k]).geometry.coordinates)))
      invariant forall k :: i <= k < features.Length ==> features[k] == old(features[k])
    {
      var feature := features[i];
      var coordinates := feature.geometry.coordinates;
      var average: Option<int>;
      if coordinates in inspectionScores {
        var scores := inspectionScores[coordinates];
        average := Some(RoundedMean(scores));
      } else {
        average := None;
      }
      features[i] := feature.(properties := feature.properties.(averageInspectionScore := average));
    }
  }

  /**
   * Grouping followed by averaging. Afterwards a feature's average is
   * `undefined` exactly when no record was filed under its coordinates, and
   * otherwise the rounded mean of the scores filed there.
   */
  method JoinAndAverage(features: array<Feature>, records: seq<InspectionRecord>, contains: Containment)
    modifies features
    ensures forall i :: 0 <= i < features.Length ==>
      && features[i].geometry == old(features[i]).geometry
      && features[i].properties.name == old(features[i]).properties.name
      && features[i].properties.coordinates == old(features[i]).properties.coordinates
    ensures forall i :: 0 <= i < features.Length ==>
      var scores := ScoresFor(old(features[..]), records, contains, old(features[i]).geometry.coordinates, |records|);
      features[i].properties.averageInspectionScore == if scores == [] then None else Some(RoundedMean(scores))
  {
    var inspectionScores := GroupScores(features[..], records, contains);
    ApplyAverages(features, inspectionScores);
  }

  /** The popup's average line. */
  datatype AverageLine = Score(value: int) | NoData

  /**
   * As written: `score !== undefined ? (score ? score.toFixed(0) : "No data") : "No data"`.
   * A defined average of 0 is falsy and so also reads "No data".
   */
  function AverageLineAsWritten(score: Option<int>): AverageLine {
    match score
    case None => NoData
    case Some(v) => if v != 0 then Score(v) else NoData
  }

  /** An average of 0 and a missing average both read "No data" instead of a score. */
  lemma AsWrittenZeroReadsNoData()
    ensures AverageLineAsWritten(Some(0)) == AverageLineAsWritten(None)
  {
  }

  /** The average line as the no-data marker is meant to work: only a missing average reads "No data". */
  function AverageLineFor(score: Option<int>): (line: AverageLine)
    ensures line.NoData? <==> score.None?
    ensures score.Some? ==> line == Score(score.value)
  {
    match score
    case None => NoData
    case Some(v) => Score(v)
  }

  /** The printed line and the corrected one disagree on an average of 0 and on nothing else. */
  lemma AsWrittenDiffersOnlyAtZero(score: Option<int>)
    ensures AverageLineAsWritten(score) != AverageLineFor(score) <==> score == Some(0)
  {
  }
}
