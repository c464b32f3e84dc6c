/**
 * What the four GeoJSON endpoints share: their outcomes and the conversion of
 * result rows (selected columns plus the `ST_AsGeoJSON` text labelled
 * "geometry") into features.
 */
module Api {
  import opened Wrappers
  import opened Values
  import opened Foreign
  import opened GeoUtils
  import Sql

  /** A handler's outcome: the body, or the HTTPException it raises. */
  datatype Response<T> =
    | Ok(body: T)
    | BadRequest(detail: string)
    | NotFound(detail: string)
    | InternalError(detail: string)
  {
    function Status(): int {
      match this
      case Ok(_) => 200
      case BadRequest(_) => 400
      case NotFound(_) => 404
      case InternalError(_) => 500
    }
  }

  /** Python truthiness of a query parameter: present and non-empty. */
  predicate Given(o: Option<string>) {
    o.Some? && o.value != ""
  }

  /** Python truthiness of a column value. */
  predicate Truthy(v: Value) {
    match v
    case Null => false
    case Int(i) => i != 0
    case Num(x) => x != 0.0
    case Text(s) => s != ""
    case _ => true
  }

  /**
   * One iteration of the endpoints' row loop: pop "geometry", `json.loads` it
   * when truthy, and fill the properties. None when a step raises (a missing
   * "geometry" key, unparsable or non-text GeoJSON), which the handlers turn into 500.
   */
  function EndpointFeature(eng: Engine, row: Record): Option<Feature> {
    var geometryStr := Get(row, "geometry");
    if geometryStr.None? then None
    else
      var properties := Properties(eng, Without(row, "geometry"));
      if !Truthy(geometryStr.value) then Some(Feature("Feature", None, properties))
      else if !geometryStr.value.Text? then None
      else match eng.parseJson(geometryStr.value.s)
        case None => None
        case Some(g) => Some(Feature("Feature", Some(g), properties))
  }

  method RowToEndpointFeature(eng: Engine, row: Record) returns (f: Option<Feature>)
    ensures f == EndpointFeature(eng, row)
  {
    var geometryStr := Get(row, "geometry");
    if geometryStr.None? {
      return None;
    }
    var rowDict := Without(row, "geometry");
    var geometry: Option<GeoJsonGeometry> := None;
    if Truthy(geometryStr.value) {
      if !geometryStr.value.Text? {
        return None;
      }
      var parsed := eng.parseJson(geometryStr.value.s);
      if parsed.None? {
        return None;
      }
      geometry := parsed;
    }
    var properties := FillProperties(eng, rowDict);
    f := Some(Feature("Feature", geometry, properties));
  }

  /** All rows' features, or None when any row's conversion raises. */
  function EndpointFeatures(eng: Engine, rows: seq<Record>): (r: Option<seq<Feature>>)
    ensures r.Some? <==> forall i :: 0 <= i < |rows| ==> EndpointFeature(eng, rows[i]).Some?
    ensures r.Some? ==> |r.value| == |rows| && forall i :: 0 <= i < |rows| ==> Some(r.value[i]) == EndpointFeature(eng, rows[i])
  {
    if forall i :: 0 <= i < |rows| ==> EndpointFeature(eng, rows[i]).Some? then
      Some(seq(|rows|, i requires 0 <= i < |rows| => EndpointFeature(eng, rows[i]).value))
    else None
  }

  /** The `for row in rows: ... features.append(...)` loop. */
  method RowsToFeatures(eng: Engine, rows: seq<Record>) returns (r: Option<seq<Feature>>)
    ensures r == EndpointFeatures(eng, rows)
  {
    var features: seq<Feature> := [];
    var i := 0;
    while i < |rows|
      invariant 0 <= i <= |rows|
      invariant |features| == i
      invariant forall k :: 0 <= k < i ==> Some(features[k]) == EndpointFeature(eng, rows[k])
    {
      var f := RowToEndpointFeature(eng, rows[i]);
      if f.None? {
        assert !(EndpointFeature(eng, rows[i]).Some?);
        return None;
      }
      features := features + [f.value];
      i := i + 1;
    }
    r := Some(features);
    assert EndpointFeatures(eng, rows).Some?;
    assert EndpointFeatures(eng, rows).value == features;
  }

  /**
   * A feature built from a projected result row: its properties are exactly
   * the selected columns, in order, with their projected values; its geometry
   * is the parsed GeoJSON text of the row's geometry, or None when that is NULL or empty.
   */
  lemma ProjectedRowFeature<T>(eng: Engine, column: (T, string) -> Value, columns: seq<string>,
                               output: Sql.GeometryOutput, row: T)
    requires "geometry" !in columns
    ensures var rec := Sql.ProjectRow(eng, column, columns, output, row);
            var g := Sql.GeometryText(eng, output, column(row, "geometry"));
            var f := EndpointFeature(eng, rec);
            && (f.Some? <==> (!Truthy(g) || eng.parseJson(g.s).Some?))
            && (f.Some? ==> f.value.kind == "Feature" && Names(f.value.properties) == columns)
            && (f.Some? ==> forall i :: 0 <= i < |columns| ==>
                  f.value.properties[i] == Field(columns[i], ProjectValue(eng, column(row, columns[i]))))
            && (f.Some? ==> f.value.geometry == (if Truthy(g) then eng.parseJson(g.s) else None))
  {
    var rec := Sql.ProjectRow(eng, column, columns, output, row);
    var g := Sql.GeometryText(eng, output, column(row, "geometry"));
    var prefix := rec[..|columns|];
    assert rec == prefix + [Field("geometry", g)];
    assert Names(prefix) == columns;
    LastColumn(prefix, "geometry", g);
  }

  /** Every feature of a converted result set carries exactly the selected columns of its row, in order. */
  lemma ProjectedFeatures<T>(eng: Engine, column: (T, string) -> Value, columns: seq<string>,
                             output: Sql.GeometryOutput, rows: seq<T>)
    requires "geometry" !in columns
    requires EndpointFeatures(eng, Sql.ProjectAll(eng, column, columns, output, rows)).Some?
    ensures var fs := EndpointFeatures(eng, Sql.ProjectAll(eng, column, columns, output, rows)).value;
            && |fs| == |rows|
            && forall i :: 0 <= i < |rows| ==>
                 && fs[i].kind == "Feature"
                 && Names(fs[i].properties) == columns
                 && forall j :: 0 <= j < |columns| ==>
                      fs[i].properties[j] == Field(columns[j], ProjectValue(eng, column(rows[i], columns[j])))
  {
    var recs := Sql.ProjectAll(eng, column, columns, output, rows);
    var fs := EndpointFeatures(eng, recs).value;
    forall i | 0 <= i < |rows|
      ensures fs[i].kind == "Feature" && Names(fs[i].properties) == columns
      ensures forall j :: 0 <= j < |columns| ==>
                fs[i].properties[j] == Field(columns[j], ProjectValue(eng, column(rows[i], columns[j])))
    {
      ProjectedRowFeature(eng, column, columns, output, rows[i]);
      assert Some(fs[i]) == EndpointFeature(eng, recs[i]);
    }
  }

  /** The `metadata` block of the zoning listing. */
  datatype Metadata = Metadata(count: nat, skip: nat, limit: nat, simplified: bool, tolerance: Option<real>)

  /** A listing body: a FeatureCollection, with metadata only for zoning. */
  datatype Listing = Listing(kind: string, features: seq<Feature>, metadata: Option<Metadata>)
}
