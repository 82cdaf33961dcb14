/**
 * The records the map script works on and the conversion of the boundary
 * records into a GeoJSON feature collection (static/js/logic.js:15-30).
 */
module GeoJson {
  import opened Wrappers

  /** A `[longitude, latitude]` coordinate pair. */
  datatype Position = Position(lon: real, lat: real)

  /** The nested coordinate arrays of a MultiPolygon: polygons of rings of positions. */
  type MultiPolygon = seq<seq<seq<Position>>>

  /** The geometry type every converted feature carries. */
  const MultiPolygonType: string := "MultiPolygon"

  datatype Geometry = Geometry(kind: string, coordinates: MultiPolygon)

  /**
   * A feature's `properties` object. `averageInspectionScore` is `None` while
   * the property is absent or explicitly `undefined`.
   */
  datatype Properties = Properties(name: string, coordinates: MultiPolygon, averageInspectionScore: Option<int>)

  datatype Feature = Feature(properties: Properties, geometry: Geometry)

  /** A neighborhood boundary record; `theGeom` is `None` when the record has no `the_geom` object. */
  datatype BoundaryRecord = BoundaryRecord(name: string, theGeom: Option<MultiPolygon>)

  /**
   * An inspection record. A missing `business_location` and an undefined
   * `inspection_score` are `None`; a present score is already a whole number.
   */
  datatype InspectionRecord = InspectionRecord(
    businessName: string,
    businessLocation: Option<Position>,
    inspectionScore: Option<int>)

  /**
   * The point-in-polygon test, a parameter of the model. Every feature is a
   * MultiPolygon, so the answer depends only on the coordinates and the point.
   */
  type Containment = (MultiPolygon, Position) -> bool

  /** The record filter `item.business_location && item.inspection_score !== undefined`. */
  predicate HasLocationAndScore(item: InspectionRecord) {
    item.businessLocation.Some? && item.inspectionScore.Some?
  }

  /** A record that passes the filter and whose location lies in `polygon`. */
  predicate InPolygon(item: InspectionRecord, polygon: MultiPolygon, contains: Containment) {
    HasLocationAndScore(item) && contains(polygon, item.businessLocation.value)
  }

  /** `feature` is what the conversion makes of `item`. */
  predicate IsFeatureOf(item: BoundaryRecord, feature: Feature) {
    && item.theGeom.Some?
    && feature.properties.name == item.name
    && feature.properties.coordinates == item.theGeom.value
    && feature.geometry.kind == MultiPolygonType
    && feature.geometry.coordinates == item.theGeom.value
    && feature.properties.averageInspectionScore.None?
  }

  /**
   * `neighborhoodData.map(...)`: one feature per boundary record, in order.
   * A record without `the_geom` makes the property access throw, which ends
   * the whole load; that outcome is `None`.
   */
  function ToFeatures(items: seq<BoundaryRecord>): (r: Option<seq<Feature>>)
    ensures r.None? <==> exists i :: 0 <= i < |items| && items[i].theGeom.None?
    ensures r.Some? ==> |r.value| == |items|
    ensures r.Some? ==> forall i :: 0 <= i < |items| ==> IsFeatureOf(items[i], r.value[i])
  {
    if items == [] then Some([])
    else
      match (items[0].theGeom, ToFeatures(items[1..]))
      case (Some(c), Some(rest)) =>
        Some([Feature(Properties(items[0].name, c, None), Geometry(MultiPolygonType, c))] + rest)
      case (None, _) => None
      case (_, None) =>
        assert forall i :: 0 <= i < |items| - 1 ==> items[1..][i] == items[i + 1];
        None
  }
}
