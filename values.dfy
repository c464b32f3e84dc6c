/**
 * The values the system moves around: database column values, rows as
 * ordered dictionaries, geometries and GeoJSON fragments.
 */
module Values {
  import opened Wrappers

  /** A date or date-time; its ISO text comes from the engine (see Foreign). */
  datatype Timestamp = Timestamp(instant: int)

  datatype Position = Position(lon: real, lat: real)

  /** A geometry as the geometry engine sees it; FromWkt is geometry read from WKT text. */
  datatype Geometry =
    | Point(at: Position)
    | LineString(points: seq<Position>)
    | MultiLineString(lines: seq<seq<Position>>)
    | Polygon(rings: seq<seq<Position>>)
    | MultiPolygon(polygons: seq<seq<seq<Position>>>)
    | FromWkt(wkt: string)

  /** An envelope min_lon, min_lat, max_lon, max_lat, in that order. */
  datatype Box = Box(minLon: real, minLat: real, maxLon: real, maxLat: real)

  /** A JSON value as found under "coordinates": numbers, lists, and any other leaf. */
  datatype Json = JNum(x: real) | JArray(items: seq<Json>) | JOther(text: string)

  /** A GeoJSON geometry object; `coordinates` is None when the key is absent. */
  datatype GeoJsonGeometry = GeoJsonGeometry(kind: string, coordinates: Option<Json>)

  /** A column value; Null is SQL NULL and Python None. */
  datatype Value =
    | Null
    | Int(i: int)
    | Num(x: real)
    | Text(s: string)
    | Time(t: Timestamp)
    | Geo(g: Geometry)

  datatype Field = Field(name: string, value: Value)

  /** A row or a dictionary, in insertion order. */
  type Record = seq<Field>

  function Names(r: Record): (ns: seq<string>)
    ensures |ns| == |r|
    ensures forall i :: 0 <= i < |r| ==> ns[i] == r[i].name
  {
    seq(|r|, i requires 0 <= i < |r| => r[i].name)
  }

  predicate UniqueNames(r: Record) {
    forall i, j :: 0 <= i < j < |r| ==> r[i].name != r[j].name
  }

  /** `d.get(k)`: the value stored under k, if any. */
  function Get(r: Record, k: string): Option<Value> {
    if r == [] then None
    else if r[0].name == k then Some(r[0].value)
    else Get(r[1..], k)
  }

  /** `d.get(k)` with None for a missing key. */
  function GetOrNull(r: Record, k: string): Value {
    Get(r, k).GetOr(Null)
  }

  /** `d.pop(k, None)`: the dictionary without k. */
  function Without(r: Record, k: string): (w: Record)
    ensures |w| <= |r|
  {
    if r == [] then []
    else if r[0].name == k then Without(r[1..], k)
    else [r[0]] + Without(r[1..], k)
  }

  /** Apply f to every value, keeping keys and order. */
  function MapValues(f: Value -> Value, r: Record): (m: Record)
    ensures |m| == |r|
    ensures forall i :: 0 <= i < |r| ==> m[i] == Field(r[i].name, f(r[i].value))
  {
    seq(|r|, i requires 0 <= i < |r| => Field(r[i].name, f(r[i].value)))
  }

  /** Popping k removes exactly k: the remaining keys are the old ones except k, in order. */
  lemma {:induction false} WithoutNames(r: Record, k: string)
    ensures k !in Names(Without(r, k))
    ensures forall j :: j != k ==> (j in Names(Without(r, k)) <==> j in Names(r))
    decreases |r|
  {
    if r != [] {
      WithoutNames(r[1..], k);
      assert Names(r) == [r[0].name] + Names(r[1..]);
      if r[0].name != k {
        assert Names(Without(r, k)) == [r[0].name] + Names(Without(r[1..], k));
      }
    }
  }

  /** Popping k leaves every other key's value as it was. */
  lemma {:induction false} WithoutGet(r: Record, k: string, j: string)
    requires j != k
    ensures Get(Without(r, k), j) == Get(r, j)
    decreases |r|
  {
    if r != [] {
      WithoutGet(r[1..], k, j);
    }
  }

  /** A key that is absent is not popped from anything. */
  lemma {:induction false} WithoutAbsent(r: Record, k: string)
    requires k !in Names(r)
    ensures Without(r, k) == r
    decreases |r|
  {
    if r != [] {
      assert Names(r) == [r[0].name] + Names(r[1..]);
      WithoutAbsent(r[1..], k);
    }
  }

  lemma {:induction false} GetAbsent(r: Record, k: string)
    requires k !in Names(r)
    ensures Get(r, k) == None
    decreases |r|
  {
    if r != [] {
      assert Names(r) == [r[0].name] + Names(r[1..]);
      GetAbsent(r[1..], k);
    }
  }

  /** A row that ends with a column k found nowhere else: getting k gives that value, popping k gives the rest. */
  lemma {:induction false} LastColumn(r: Record, k: string, v: Value)
    requires k !in Names(r)
    ensures Get(r + [Field(k, v)], k) == Some(v)
    ensures Without(r + [Field(k, v)], k) == r
    decreases |r|
  {
    if r != [] {
      assert Names(r) == [r[0].name] + Names(r[1..]);
      assert (r + [Field(k, v)])[1..] == r[1..] + [Field(k, v)];
      LastColumn(r[1..], k, v);
    }
  }

  function OptText(o: Option<string>): Value {
    if o.Some? then Text(o.value) else Null
  }

  function OptNum(o: Option<real>): Value {
    if o.Some? then Num(o.value) else Null
  }

  function OptInt(o: Option<int>): Value {
    if o.Some? then Int(o.value) else Null
  }

  function OptTime(o: Option<Timestamp>): Value {
    if o.Some? then Time(o.value) else Null
  }
}
