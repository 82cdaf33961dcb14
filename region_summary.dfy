/**
 * The per-feature summary built in `onEachFeature` (static/js/logic.js:94-134):
 * a second pass over all records that counts those inside the feature and
 * keeps the highest and lowest score with the name of the business that first
 * reached it, then the popup's N/A decisions.
 */
module RegionSummary {
  import opened GeoJson
  import opened Filters
  import opened SpatialJoin
  import Average

  /** A score or one of the sentinels `-Infinity` and `Infinity`. */
  datatype Extended = NegInfinity | Finite(value: int) | PosInfinity

  /** JavaScript's `<` on numbers that are whole or infinite. */
  predicate Below(a: Extended, b: Extended) {
    match (a, b)
    case (NegInfinity, NegInfinity) => false
    case (NegInfinity, _) => true
    case (Finite(x), Finite(y)) => x < y
    case (Finite(_), PosInfinity) => true
    case (_, _) => false
  }

  /**
   * Among the first `n` records, record `k` lies inside `polygon`, no record
   * inside scores higher, and every record inside before it scores strictly
   * lower: the record whose name the strict `>` keeps.
   */
  ghost predicate IsFirstHighest(records: seq<InspectionRecord>, n: nat, polygon: MultiPolygon, contains: Containment, k: int)
    requires n <= |records|
  {
    && 0 <= k < n && InPolygon(records[k], polygon, contains)
    && (forall j :: 0 <= j < n && InPolygon(records[j], polygon, contains) ==>
          records[j].inspectionScore.value <= records[k].inspectionScore.value)
    && (forall j :: 0 <= j < k && InPolygon(records[j], polygon, contains) ==>
          records[j].inspectionScore.value < records[k].inspectionScore.value)
  }

  /** The same for the lowest score and the strict `<`. */
  ghost predicate IsFirstLowest(records: seq<InspectionRecord>, n: nat, polygon: MultiPolygon, contains: Containment, k: int)
    requires n <= |records|
  {
    && 0 <= k < n && InPolygon(records[k], polygon, contains)
    && (forall j :: 0 <= j < n && InPolygon(records[j], polygon, contains) ==>
          records[k].inspectionScore.value <= records[j].inspectionScore.value)
    && (forall j :: 0 <= j < k && InPolygon(records[j], polygon, contains) ==>
          records[k].inspectionScore.value < records[j].inspectionScore.value)
  }

  /** The number of the first `n` records that pass the filter and lie inside `polygon`. */
  function InsideCount(records: seq<InspectionRecord>, polygon: MultiPolygon, contains: Containment, n: nat): nat
    requires n <= |records|
  {
    if n == 0 then 0
    else InsideCount(records, polygon, contains, n - 1) + (if InPolygon(records[n - 1], polygon, contains) then 1 else 0)
  }

  /** Counting record by record gives the length of `businesses` over the same records. */
  lemma {:induction false} InsideCountIsBusinesses(records: seq<InspectionRecord>, polygon: MultiPolygon,
                                                   contains: Containment, n: nat)
    requires n <= |records|
    ensures InsideCount(records, polygon, contains, n) == |Businesses(records[..n], polygon, contains)|
  {
    if n > 0 {
      InsideCountIsBusinesses(records, polygon, contains, n - 1);
      assert records[..n][..n - 1] == records[..n - 1];
    }
  }

  /**
   * The scan over all records for one feature. `businessCount` counts every
   * record inside the polygon; the highest and lowest scores and their business
   * names come from the first record to reach each extreme; with no record
   * inside, all four keep their sentinels.
   */
  method ScanFeature(polygon: MultiPolygon, records: seq<InspectionRecord>, contains: Containment)
    returns (businessCount: nat, highestScore: Extended, highestBusiness: string,
             lowestScore: Extended, lowestBusiness: string)
    ensures businessCount == |Businesses(records, polygon, contains)|
    ensures businessCount == 0 ==>
      highestScore == NegInfinity && highestBusiness == "" && lowestScore == PosInfinity && lowestBusiness == ""
    ensures businessCount > 0 ==>
      exists k :: (IsFirstHighest(records, |records|, polygon, contains, k) &&
        highestScore == Finite(records[k].inspectionScore.value) && highestBusiness == records[k].businessName)
    ensures businessCount > 0 ==>
      exists k :: (IsFirstLowest(records, |records|, polygon, contains, k) &&
        lowestScore == Finite(records[k].inspectionScore.value) && lowestBusiness == records[k].businessName)
  {
    businessCount, highestScore, lowestScore, highestBusiness, lowestBusiness := 0, NegInfinity, PosInfinity, "", "";
    ghost var highestAt, lowestAt := 0, 0;
    for i := 0 to |records|
      invariant businessCount == InsideCount(records, polygon, contains, i)
      invariant businessCount == 0 ==> forall j :: 0 <= j < i ==> !InPolygon(records[j], polygon, contains)
      invariant businessCount == 0 ==>
        highestScore == NegInfinity && highestBusiness == "" && lowestScore == PosInfinity && lowestBusiness == ""
      invariant businessCount > 0 ==> highestAt < i && IsFirstHighest(records, i, polygon, contains, highestAt)
      invariant businessCount > 0 ==>
        highestScore == Finite(records[highestAt].inspectionScore.value) && highestBusiness == records[highestAt].businessName
      invariant businessCount > 0 ==> lowestAt < i && IsFirstLowest(records, i, polygon, contains, lowestAt)
      invariant businessCount > 0 ==>
        lowestScore == Finite(records[lowestAt].inspectionScore.value) && lowestBusiness == records[lowestAt].businessName
    {
      var item := records[i];
      if item.businessLocation.Some? && item.inspectionScore.Some? && contains(polygon, item.businessLocation.value) {
        businessCount := businessCount + 1;
        var inspectionScore := item.inspectionScore.value;
        if Below(highestScore, Finite(inspectionScore)) {
          highestScore, highestBusiness := Finite(inspectionScore), item.businessName;
          highestAt := i;
        }
        if Below(Finite(inspectionScore), lowestScore) {
          lowestScore, lowestBusiness := Finite(inspectionScore), item.businessName;
          lowestAt := i;
        }
      }
    }
    InsideCountIsBusinesses(records, polygon, contains, |records|);
    assert records[..|records|] == records;
  }

  /** The first-occurrence rule singles out one record: two records cannot both be the first to reach the maximum. */
  lemma FirstHighestUnique(records: seq<InspectionRecord>, polygon: MultiPolygon, contains: Containment, k1: int, k2: int)
    requires IsFirstHighest(records, |records|, polygon, contains, k1) && IsFirstHighest(records, |records|, polygon, contains, k2)
    ensures k1 == k2
  {
  }

  lemma FirstLowestUnique(records: seq<InspectionRecord>, polygon: MultiPolygon, contains: Containment, k1: int, k2: int)
    requires IsFirstLowest(records, |records|, polygon, contains, k1) && IsFirstLowest(records, |records|, polygon, contains, k2)
    ensures k1 == k2
  {
  }

  /**
   * `businessCount` counts every feature that contains a record, the score
   * list only the first: the count for a feature is never below the length of
   * the list under its coordinates.
   */
  lemma {:induction false} CountCoversScoreList(features: seq<Feature>, records: seq<InspectionRecord>,
                                                contains: Containment, key: MultiPolygon, n: nat)
    requires n <= |records|
    ensures |ScoresFor(features, records, contains, key, n)| <= |Businesses(records[..n], key, contains)|
  {
    if n > 0 {
      CountCoversScoreList(features, records, contains, key, n - 1);
      assert records[..n][..n - 1] == records[..n - 1];
      if RoutedTo(features, records[n - 1], contains, key) {
        assert InPolygon(records[n - 1], key, contains);
      }
    }
  }

  /** One cell of the popup: a value, or "N/A". */
  datatype Cell<T> = NotAvailable | Shown(value: T)

  /** What the popup tells about one feature. */
  datatype Popup = Popup(
    neighborhood: string,
    average: Average.AverageLine,
    businessCount: nat,
    highestScore: Cell<Extended>,
    highestBusiness: Cell<string>,
    lowestScore: Cell<Extended>,
    lowestBusiness: Cell<string>)

  /** `x !== sentinel ? x : "N/A"` for a score. */
  function ScoreCell(score: Extended, sentinel: Extended): (c: Cell<Extended>)
    ensures c.NotAvailable? <==> score == sentinel
    ensures c.Shown? ==> c.value == score
  {
    if score != sentinel then Shown(score) else NotAvailable
  }

  /** `name !== "" ? name : "N/A"` for a business name. */
  function BusinessCell(name: string): (c: Cell<string>)
    ensures c.NotAvailable? <==> name == ""
    ensures c.Shown? ==> c.value == name
  {
    if name != "" then Shown(name) else NotAvailable
  }

  /**
   * `onEachFeature` up to the popup text. A feature with no record inside
   * shows "N/A" for both scores and both businesses; otherwise it shows the
   * highest and lowest scores and the names of the first records to reach them
   * (a record named "" also reads "N/A"). The average line is the one the
   * script prints, so an average of 0 reads "No data".
   */
  method DescribeFeature(feature: Feature, records: seq<InspectionRecord>, contains: Containment) returns (popup: Popup)
    ensures popup.neighborhood == feature.properties.name
    ensures popup.average == Average.AverageLineAsWritten(feature.properties.averageInspectionScore)
    ensures popup.businessCount == |Businesses(records, feature.geometry.coordinates, contains)|
    ensures popup.businessCount == 0 ==>
      && popup.highestScore.NotAvailable? && popup.highestBusiness.NotAvailable?
      && popup.lowestScore.NotAvailable? && popup.lowestBusiness.NotAvailable?
    ensures popup.businessCount > 0 ==>
      exists k :: (IsFirstHighest(records, |records|, feature.geometry.coordinates, contains, k) &&
        popup.highestScore == Shown(Finite(records[k].inspectionScore.value)) &&
        popup.highestBusiness == BusinessCell(records[k].businessName))
    ensures popup.businessCount > 0 ==>
      exists k :: (IsFirstLowest(records, |records|, feature.geometry.coordinates, contains, k) &&
        popup.lowestScore == Shown(Finite(records[k].inspectionScore.value)) &&
        popup.lowestBusiness == BusinessCell(records[k].businessName))
  {
    var businessCount, highestScore, highestBusiness, lowestScore, lowestBusiness :=
      ScanFeature(feature.geometry.coordinates, records, contains);
    popup := Popup(
      feature.properties.name,
      Average.AverageLineAsWritten(feature.properties.averageInspectionScore),
      businessCount,
      ScoreCell(highestScore, NegInfinity),
      BusinessCell(highestBusiness),
      ScoreCell(lowestScore, PosInfinity),
      BusinessCell(lowestBusiness));
  }
}
