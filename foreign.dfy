/**
 * The collaborators the system calls but does not implement: Python's float
 * parser and round, ISO formatting, JSON parsing, and the PostGIS / shapely
 * geometry engine. They are fields of an Engine value, so every property
 * proved here holds for every behaviour of these collaborators.
 */
module Foreign {
  import opened Wrappers
  import opened Values

  datatype Engine = Engine(
    /** `float(s)`; None when it raises ValueError. */
    parseFloat: string -> Option<real>,
    /** `round(x, 6)` */
    round: real -> real,
    /** `value.isoformat()` */
    isoformat: Timestamp -> string,
    /** `ST_Intersects(geometry, ST_MakeEnvelope(..., 4326))` */
    intersects: (Geometry, Box) -> bool,
    /** `ST_Simplify(geometry, tolerance)` */
    simplify: (Geometry, real) -> Geometry,
    /** `ST_AsGeoJSON(geometry)` */
    asGeoJson: Geometry -> string,
    /** `json.loads(text)` of a geometry; None when it raises. */
    parseJson: string -> Option<GeoJsonGeometry>,
    /** `mapping(to_shape(geometry))` */
    mapping: Geometry -> GeoJsonGeometry,
    /** shapely `is_valid` */
    isValid: Geometry -> bool,
    /** shapely `is_empty` */
    isEmpty: Geometry -> bool,
    /** shapely `buffer(0)` */
    buffer0: Geometry -> Geometry,
    /** line length in kilometres after `to_crs(epsg=3857)` */
    lengthKm: Geometry -> real,
    /** `pd.to_datetime(value, errors="coerce")`; None for NaT. */
    toDatetime: Value -> Option<Timestamp>,
    /** `pd.to_numeric(value, errors="coerce")`; None for NaN. */
    toNumeric: Value -> Option<real>,
    /** `int(s)` or numpy's integer cast of a text value; None when it raises. */
    parseInt: string -> Option<int>,
    /** `to_crs`: a geometry reprojected from the first EPSG code to the second. */
    toCrs: (Geometry, int, int) -> Geometry
  )
}
