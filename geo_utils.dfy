/** Conversion of database rows into GeoJSON features (app/utils/geo_utils.py). */
module GeoUtils {
  import opened Wrappers
  import opened Values
  import opened Foreign

  /** A GeoJSON Feature: `{"type": kind, "geometry": geometry, "properties": properties}`. */
  datatype Feature = Feature(kind: string, geometry: Option<GeoJsonGeometry>, properties: Record)

  /** `{"type": kind, "features": features}` */
  datatype FeatureCollection = FeatureCollection(kind: string, features: seq<Feature>)

  /** A value with an `isoformat` method becomes its ISO text; every other value is kept. */
  function ProjectValue(eng: Engine, v: Value): Value {
    if v.Time? then Text(eng.isoformat(v.t)) else v
  }

  /** The properties built from a row: same keys in the same order, projected values. */
  function Properties(eng: Engine, r: Record): (p: Record)
    ensures |p| == |r|
    ensures forall i :: 0 <= i < |r| ==> p[i] == Field(r[i].name, ProjectValue(eng, r[i].value))
  {
    seq(|r|, i requires 0 <= i < |r| => Field(r[i].name, ProjectValue(eng, r[i].value)))
  }

  /** The `properties` loop: one entry per key of the row, in order. */
  method FillProperties(eng: Engine, rowDict: Record) returns (properties: Record)
    ensures properties == Properties(eng, rowDict)
  {
    properties := [];
    var k := 0;
    while k < |rowDict|
      invariant 0 <= k <= |rowDict|
      invariant properties == Properties(eng, rowDict[..k])
    {
      var key, value := rowDict[k].name, rowDict[k].value;
      if value.Time? {
        properties := properties + [Field(key, Text(eng.isoformat(value.t)))];
      } else {
        properties := properties + [Field(key, value)];
      }
      k := k + 1;
    }
    assert rowDict[..k] == rowDict;
  }

  /** Looking a key up in the properties gives the projected value of the row's entry. */
  lemma {:induction false} PropertiesGet(eng: Engine, r: Record, k: string)
    ensures Get(Properties(eng, r), k) == (if Get(r, k).Some? then Some(ProjectValue(eng, Get(r, k).value)) else None)
    decreases |r|
  {
    if r != [] {
      assert Properties(eng, r)[1..] == Properties(eng, r[1..]);
      PropertiesGet(eng, r[1..], k);
    }
  }

  lemma PropertiesNames(eng: Engine, r: Record)
    ensures Names(Properties(eng, r)) == Names(r)
  {
  }

  /** The column values `geometry_to_geojson` converts: a geometry or NULL (`to_shape` raises on anything else). */
  predicate IsGeometryOrNull(v: Value) {
    v.Null? || v.Geo?
  }

  /**
   * `geometry_to_geojson`: the outer None is the exception `to_shape` raises
   * on a value that is not a geometry; otherwise Some(None) for NULL and
   * Some(Some(`mapping(to_shape(g))`)) for a geometry.
   */
  function GeometryToGeoJson(eng: Engine, v: Value): (r: Option<Option<GeoJsonGeometry>>)
    ensures r.None? <==> !IsGeometryOrNull(v)
    ensures r == Some(None) <==> v.Null?
    ensures v.Geo? ==> r == Some(Some(eng.mapping(v.g)))
  {
    if v.Null? then Some(None) else if v.Geo? then Some(Some(eng.mapping(v.g))) else None
  }

  predicate GeometryColumnOk(row: Record, geometryColumn: string) {
    IsGeometryOrNull(GetOrNull(row, geometryColumn))
  }

  /** The feature `row_to_feature` builds from a row; None when the geometry conversion raises. */
  function RowFeature(eng: Engine, row: Record, geometryColumn: string): (f: Option<Feature>)
    ensures f.Some? <==> GeometryColumnOk(row, geometryColumn)
  {
    var g := GeometryToGeoJson(eng, GetOrNull(row, geometryColumn));
    if g.None? then None
    else Some(Feature("Feature", g.value, Properties(eng, Without(row, geometryColumn))))
  }

  /** `row_to_feature`: pop the geometry column, convert it (which may raise), then fill the properties entry by entry. */
  method RowToFeature(eng: Engine, row: Record, geometryColumn: string) returns (f: Option<Feature>)
    ensures f == RowFeature(eng, row, geometryColumn)
    ensures f.None? <==> !GeometryColumnOk(row, geometryColumn)
  {
    var geometry := GetOrNull(row, geometryColumn);
    var rowDict := Without(row, geometryColumn);
    var geojsonGeometry := GeometryToGeoJson(eng, geometry);
    if geojsonGeometry.None? {
      return None;
    }
    var properties := FillProperties(eng, rowDict);
    f := Some(Feature("Feature", geojsonGeometry.value, properties));
  }

  /**
   * What a feature holds: type "Feature"; property keys exactly the row's keys
   * except the geometry column; each property the projected value of its column;
   * no geometry when the column is absent or NULL, `mapping` of it when it is a geometry.
   */
  lemma RowFeatureContents(eng: Engine, row: Record, geometryColumn: string)
    requires GeometryColumnOk(row, geometryColumn)
    ensures RowFeature(eng, row, geometryColumn).Some?
    ensures RowFeature(eng, row, geometryColumn).value.kind == "Feature"
    ensures geometryColumn !in Names(RowFeature(eng, row, geometryColumn).value.properties)
    ensures forall k :: k != geometryColumn ==>
      (k in Names(RowFeature(eng, row, geometryColumn).value.properties) <==> k in Names(row))
    ensures forall k :: k != geometryColumn ==>
      Get(RowFeature(eng, row, geometryColumn).value.properties, k)
        == (if Get(row, k).Some? then Some(ProjectValue(eng, Get(row, k).value)) else None)
    ensures geometryColumn !in Names(row) ==> RowFeature(eng, row, geometryColumn).value.geometry == None
    ensures GetOrNull(row, geometryColumn).Geo? ==>
      RowFeature(eng, row, geometryColumn).value.geometry == Some(eng.mapping(GetOrNull(row, geometryColumn).g))
  {
    var rest := Without(row, geometryColumn);
    WithoutNames(row, geometryColumn);
    PropertiesNames(eng, rest);
    forall k | k != geometryColumn
      ensures Get(Properties(eng, rest), k)
        == (if Get(row, k).Some? then Some(ProjectValue(eng, Get(row, k).value)) else None)
    {
      PropertiesGet(eng, rest, k);
      WithoutGet(row, geometryColumn, k);
    }
    if geometryColumn !in Names(row) {
      GetAbsent(row, geometryColumn);
    }
  }

  predicate AllGeometryColumnsOk(rows: seq<Record>, geometryColumn: string) {
    forall i :: 0 <= i < |rows| ==> GeometryColumnOk(rows[i], geometryColumn)
  }

  /**
   * `rows_to_feature_collection`: one feature per row, in row order; None
   * (the exception propagates) when the conversion of any row raises.
   */
  function RowsToFeatureCollection(eng: Engine, rows: seq<Record>, geometryColumn: string): (fc: Option<FeatureCollection>)
    ensures fc.None? <==> exists i :: 0 <= i < |rows| && RowFeature(eng, rows[i], geometryColumn).None?
    ensures fc.Some? ==> fc.value.kind == "FeatureCollection" && |fc.value.features| == |rows|
    ensures fc.Some? ==> forall i :: 0 <= i < |rows| ==> Some(fc.value.features[i]) == RowFeature(eng, rows[i], geometryColumn)
  {
    if AllGeometryColumnsOk(rows, geometryColumn) then
      Some(FeatureCollection("FeatureCollection",
        seq(|rows|, i requires 0 <= i < |rows| => RowFeature(eng, rows[i], geometryColumn).value)))
    else None
  }

  /** The collection of concatenated row lists is the concatenation of the collections, and raises iff either part does. */
  lemma CollectionConcat(eng: Engine, a: seq<Record>, b: seq<Record>, geometryColumn: string)
    ensures RowsToFeatureCollection(eng, a + b, geometryColumn).Some?
        <==> RowsToFeatureCollection(eng, a, geometryColumn).Some? && RowsToFeatureCollection(eng, b, geometryColumn).Some?
    ensures RowsToFeatureCollection(eng, a + b, geometryColumn).Some? ==>
      RowsToFeatureCollection(eng, a + b, geometryColumn).value.features
         == RowsToFeatureCollection(eng, a, geometryColumn).value.features
          + RowsToFeatureCollection(eng, b, geometryColumn).value.features
  {
    assert forall i :: 0 <= i < |a + b| ==> (a + b)[i] == if i < |a| then a[i] else b[i - |a|];
    if !AllGeometryColumnsOk(a, geometryColumn) {
      var i :| 0 <= i < |a| && !GeometryColumnOk(a[i], geometryColumn);
      assert (a + b)[i] == a[i];
    }
    if !AllGeometryColumnsOk(b, geometryColumn) {
      var i :| 0 <= i < |b| && !GeometryColumnOk(b[i], geometryColumn);
      assert (a + b)[|a| + i] == b[i];
    }
  }
}
