/**
 * The first-match spatial join that groups inspection scores by neighborhood
 * (static/js/logic.js:40-59). The dictionary `inspectionScores` is keyed by the
 * serialized coordinates of a feature's geometry; serialization is taken to be
 * injective, so the key is the coordinates value itself.
 */
module SpatialJoin {
  import opened Wrappers
  import opened GeoJson

  /**
   * `features.find(feature => booleanPointInPolygon(point, feature.geometry))`:
   * the index of the first feature, in sequence order, whose polygon contains
   * `point`, or `None` when no feature does.
   */
  function FirstMatch(features: seq<Feature>, point: Position, contains: Containment): (r: Option<nat>)
    ensures r.Some? ==> r.value < |features| && contains(features[r.value].geometry.coordinates, point)
    ensures r.Some? ==> forall k :: 0 <= k < r.value ==> !contains(features[k].geometry.coordinates, point)
    ensures r.None? <==> forall k :: 0 <= k < |features| ==> !contains(features[k].geometry.coordinates, point)
  {
    if features == [] then None
    else if contains(features[0].geometry.coordinates, point) then Some(0)
    else
      match FirstMatch(features[1..], point, contains)
      case Some(j) => Some(j + 1)
      case None => None
  }

  /** The feature a record is attributed to: skipped records and unmatched points go nowhere. */
  function Route(features: seq<Feature>, item: InspectionRecord, contains: Containment): (r: Option<nat>)
    ensures r.Some? ==> HasLocationAndScore(item) && r.value < |features|
  {
    if HasLocationAndScore(item) then FirstMatch(features, item.businessLocation.value, contains) else None
  }

  /** The record's score is pushed onto the list stored under `key`. */
  predicate RoutedTo(features: seq<Feature>, item: InspectionRecord, contains: Containment, key: MultiPolygon) {
    match Route(features, item, contains)
    case Some(j) => features[j].geometry.coordinates == key
    case None => false
  }

  /** The indices, in input order, of the first `n` records whose scores go under `key`. */
  function Attributed(features: seq<Feature>, records: seq<InspectionRecord>, contains: Containment,
                      key: MultiPolygon, n: nat): (r: seq<nat>)
    requires n <= |records|
    ensures forall k: nat :: k in r <==> k < n && RoutedTo(features, records[k], contains, key)
    ensures forall i :: 0 <= i < |r| ==> r[i] < n && HasLocationAndScore(records[r[i]])
    ensures forall i, j :: 0 <= i < j < |r| ==> r[i] < r[j]
  {
    if n == 0 then []
    else
      Attributed(features, records, contains, key, n - 1)
        + (if RoutedTo(features, records[n - 1], contains, key) then [n - 1] else [])
  }

  /**
   * The list the grouping keeps under `key` after the first `n` records: their
   * scores, in input order, for the records routed to a feature with that key.
   */
  function ScoresFor(features: seq<Feature>, records: seq<InspectionRecord>, contains: Containment,
                     key: MultiPolygon, n: nat): seq<int>
    requires n <= |records|
  {
    if n == 0 then []
    else
      ScoresFor(features, records, contains, key, n - 1)
        + (if RoutedTo(features, records[n - 1], contains, key) then [records[n - 1].inspectionScore.value] else [])
  }

  /** The number of the first `n` records that pass the filter and lie in some feature. */
  function RoutedCount(features: seq<Feature>, records: seq<InspectionRecord>, contains: Containment, n: nat): nat
    requires n <= |records|
  {
    if n == 0 then 0
    else RoutedCount(features, records, contains, n - 1) + (if Route(features, records[n - 1], contains).Some? then 1 else 0)
  }

  /** The list under `key` holds, position by position, the scores of the records `Attributed` names. */
  lemma {:induction false} ScoresForAttributed(features: seq<Feature>, records: seq<InspectionRecord>,
                                               contains: Containment, key: MultiPolygon, n: nat)
    requires n <= |records|
    ensures var a := Attributed(features, records, contains, key, n);
      |ScoresFor(features, records, contains, key, n)| == |a| &&
      forall j :: 0 <= j < |a| ==> ScoresFor(features, records, contains, key, n)[j] == records[a[j]].inspectionScore.value
  {
    if n > 0 {
      ScoresForAttributed(features, records, contains, key, n - 1);
      var a0, s0 := Attributed(features, records, contains, key, n - 1), ScoresFor(features, records, contains, key, n - 1);
      if RoutedTo(features, records[n - 1], contains, key) {
        ExtendScores(records, a0, s0, n - 1);
      }
    }
  }

  /** Appending record `k` to an index list and its score to the score list keeps them in step. */
  lemma ExtendScores(records: seq<InspectionRecord>, a: seq<nat>, s: seq<int>, k: nat)
    requires k < |records| && records[k].inspectionScore.Some?
    requires forall i :: 0 <= i < |a| ==> a[i] < |records| && records[a[i]].inspectionScore.Some?
    requires |s| == |a| && forall j :: 0 <= j < |a| ==> s[j] == records[a[j]].inspectionScore.value
    ensures var a', s' := a + [k], s + [records[k].inspectionScore.value];
      |s'| == |a'| && forall j :: 0 <= j < |a'| ==> s'[j] == records[a'[j]].inspectionScore.value
  {
  }

  /** `inspectionScores` is what grouping the first `n` records produces. */
  ghost predicate GroupedUpTo(features: seq<Feature>, records: seq<InspectionRecord>, contains: Containment,
                              inspectionScores: map<MultiPolygon, seq<int>>, n: nat)
    requires n <= |records|
  {
    && (forall key :: key in inspectionScores <==> ScoresFor(features, records, contains, key, n) != [])
    && (forall key :: key in inspectionScores ==>
          inspectionScores[key] == ScoresFor(features, records, contains, key, n))
  }

  /** A record that goes nowhere leaves the dictionary as it is. */
  lemma GroupSkip(features: seq<Feature>, records: seq<InspectionRecord>, contains: Containment,
                  inspectionScores: map<MultiPolygon, seq<int>>, i: nat)
    requires i < |records| && GroupedUpTo(features, records, contains, inspectionScores, i)
    requires Route(features, records[i], contains).None?
    ensures GroupedUpTo(features, records, contains, inspectionScores, i + 1)
  {
    forall key ensures ScoresFor(features, records, contains, key, i + 1) == ScoresFor(features, records, contains, key, i) {
    }
  }

  /** A record routed to the feature with coordinates `key0` extends that key's list by its score. */
  lemma GroupPush(features: seq<Feature>, records: seq<InspectionRecord>, contains: Containment,
                  before: map<MultiPolygon, seq<int>>, after: map<MultiPolygon, seq<int>>, i: nat, key0: MultiPolygon)
    requires i < |records| && GroupedUpTo(features, records, contains, before, i)
    requires Route(features, records[i], contains).Some?
    requires key0 == features[Route(features, records[i], contains).value].geometry.coordinates
    requires key0 in before ==> after == before[key0 := before[key0] + [records[i].inspectionScore.value]]
    requires key0 !in before ==> after == before[key0 := [records[i].inspectionScore.value]]
    ensures GroupedUpTo(features, records, contains, after, i + 1)
  {
    forall key
      ensures key in after <==> ScoresFor(features, records, contains, key, i + 1) != []
      ensures key in after ==> after[key] == ScoresFor(features, records, contains, key, i + 1)
    {
      if key != key0 {
        assert ScoresFor(features, records, contains, key, i + 1) == ScoresFor(features, records, contains, key, i);
      }
    }
  }

  /**
   * The grouping `forEach`. Every key's list holds, in input order, the scores
   * of exactly the records whose first containing feature has that key; a key
   * is present exactly when its list would be non-empty.
   */
  method GroupScores(features: seq<Feature>, records: seq<InspectionRecord>, contains: Containment)
    returns (inspectionScores: map<MultiPolygon, seq<int>>)
    ensures forall key :: key in inspectionScores <==> ScoresFor(features, records, contains, key, |records|) != []
    ensures forall key :: key in inspectionScores ==>
      inspectionScores[key] == ScoresFor(features, records, contains, key, |records|)
  {
    inspectionScores := map[];
    for i := 0 to |records|
      invariant GroupedUpTo(features, records, contains, inspectionScores, i)
    {
      var item := records[i];
      if item.businessLocation.Some? && item.inspectionScore.Some? {
        var inspectionScore := item.inspectionScore.value;
        var neighborhood := FirstMatch(features, item.businessLocation.value, contains);
        if neighborhood.Some? {
          var neighborhoodCoordinates := features[neighborhood.value].geometry.coordinates;
          ghost var before := inspectionScores;
          if neighborhoodCoordinates in inspectionScores {
            inspectionScores := inspectionScores[neighborhoodCoordinates := inspectionScores[neighborhoodCoordinates] + [inspectionScore]];
          } else {
            inspectionScores := inspectionScores[neighborhoodCoordinates := [inspectionScore]];
          }
          GroupPush(features, records, contains, before, inspectionScores, i, neighborhoodCoordinates);
        } else {
          GroupSkip(features, records, contains, inspectionScores, i);
        }
      } else {
        GroupSkip(features, records, contains, inspectionScores, i);
      }
    }
  }

  /** The coordinates of the features, without repeats, in order of first occurrence. */
  function DistinctKeys(features: seq<Feature>): (r: seq<MultiPolygon>)
    ensures forall key :: key in r <==> exists j :: 0 <= j < |features| && features[j].geometry.coordinates == key
    ensures forall i, j :: 0 <= i < j < |r| ==> r[i] != r[j]
  {
    if features == [] then []
    else
      var init := features[..|features| - 1];
      var key := features[|features| - 1].geometry.coordinates;
      assert forall j :: 0 <= j < |init| ==> init[j] == features[j];
      DistinctKeys(init) + (if key in DistinctKeys(init) then [] else [key])
  }

  /** The total length of the lists stored under `keys` after the first `n` records. */
  function TotalLength(features: seq<Feature>, records: seq<InspectionRecord>, contains: Containment,
                       keys: seq<MultiPolygon>, n: nat): nat
    requires n <= |records|
  {
    if keys == [] then 0
    else |ScoresFor(features, records, contains, keys[0], n)| + TotalLength(features, records, contains, keys[1..], n)
  }

  /** Record `n` lengthens the lists under pairwise distinct `keys` by one exactly when its key is among them. */
  lemma {:induction false} TotalLengthStep(features: seq<Feature>, records: seq<InspectionRecord>, contains: Containment,
                                           keys: seq<MultiPolygon>, n: nat)
    requires n < |records|
    requires forall i, j :: 0 <= i < j < |keys| ==> keys[i] != keys[j]
    ensures TotalLength(features, records, contains, keys, n + 1) ==
      TotalLength(features, records, contains, keys, n)
        + (if exists key :: key in keys && RoutedTo(features, records[n], contains, key) then 1 else 0)
  {
    if keys != [] {
      TotalLengthStep(features, records, contains, keys[1..], n);
      if RoutedTo(features, records[n], contains, keys[0]) {
        assert forall key :: key in keys[1..] ==> !RoutedTo(features, records[n], contains, key);
      } else {
        assert forall key :: key in keys && RoutedTo(features, records[n], contains, key) ==> key in keys[1..];
      }
    }
  }

  lemma {:induction false} TotalLengthInitially(features: seq<Feature>, records: seq<InspectionRecord>,
                                                 contains: Containment, keys: seq<MultiPolygon>)
    ensures TotalLength(features, records, contains, keys, 0) == 0
  {
    if keys != [] {
      TotalLengthInitially(features, records, contains, keys[1..]);
    }
  }

  /**
   * The lists of all keys together hold one score for each record that passes
   * the filter and lies in some feature, and nothing else.
   */
  lemma {:induction false} ListsHoldEveryRoutedRecord(features: seq<Feature>, records: seq<InspectionRecord>,
                                                       contains: Containment, n: nat)
    requires n <= |records|
    ensures TotalLength(features, records, contains, DistinctKeys(features), n) == RoutedCount(features, records, contains, n)
  {
    if n == 0 {
      TotalLengthInitially(features, records, contains, DistinctKeys(features));
    } else {
      ListsHoldEveryRoutedRecord(features, records, contains, n - 1);
      var keys := DistinctKeys(features);
      TotalLengthStep(features, records, contains, keys, n - 1);
      match Route(features, records[n - 1], contains)
      case Some(j) =>
        assert features[j].geometry.coordinates in keys;
        assert RoutedTo(features, records[n - 1], contains, features[j].geometry.coordinates);
      case None =>
    }
  }

  /** Only the coordinates of some feature ever key a non-empty list. */
  lemma {:induction false} ListedKeysAreFeatureKeys(features: seq<Feature>, records: seq<InspectionRecord>,
                                                     contains: Containment, key: MultiPolygon, n: nat)
    requires n <= |records|
    requires ScoresFor(features, records, contains, key, n) != []
    ensures key in DistinctKeys(features)
  {
    if RoutedTo(features, records[n - 1], contains, key) {
      var j := Route(features, records[n - 1], contains).value;
      assert 0 <= j < |features| && features[j].geometry.coordinates == key;
    } else {
      assert ScoresFor(features, records, contains, key, n) == ScoresFor(features, records, contains, key, n - 1);
      ListedKeysAreFeatureKeys(features, records, contains, key, n - 1);
    }
  }

  /** A record goes somewhere exactly when it passes the filter and some feature contains it. */
  lemma RoutedIffContained(features: seq<Feature>, item: InspectionRecord, contains: Containment)
    ensures Route(features, item, contains).Some? <==>
      exists j :: 0 <= j < |features| && InPolygon(item, features[j].geometry.coordinates, contains)
  {
  }

  /**
   * A record's index is filed under the key of the first feature that contains
   * it and under no other key; a skipped or unmatched record is filed nowhere.
   */
  lemma FiledUnderFirstMatchOnly(features: seq<Feature>, records: seq<InspectionRecord>, contains: Containment, k: nat)
    requires k < |records|
    ensures forall key :: k in Attributed(features, records, contains, key, |records|) <==>
      (Route(features, records[k], contains).Some? &&
       key == features[Route(features, records[k], contains).value].geometry.coordinates)
  {
  }

  /** A later feature with the same coordinates as an earlier one is never the first match. */
  lemma LaterDuplicateNeverMatched(features: seq<Feature>, point: Position, contains: Containment, j: nat, i: nat)
    requires j < i < |features|
    requires features[j].geometry.coordinates == features[i].geometry.coordinates
    ensures FirstMatch(features, point, contains) != Some(i)
  {
  }

  /**
   * When no two features share coordinates, the list under feature `i`'s
   * coordinates holds exactly the records whose first containing feature is `i`.
   */
  lemma AttributedToFeature(features: seq<Feature>, records: seq<InspectionRecord>, contains: Containment,
                            i: nat, k: nat)
    requires forall a, b :: 0 <= a < b < |features| ==> features[a].geometry.coordinates != features[b].geometry.coordinates
    requires i < |features| && k < |records|
    ensures k in Attributed(features, records, contains, features[i].geometry.coordinates, |records|) <==>
      Route(features, records[k], contains) == Some(i)
  {
  }
}
