/**
 * What the geodatabase and CSV loaders share (scripts/extrair_linhas_at.py,
 * scripts/extrair_subestacoes.py, scripts/process_aneel_subestacoes.py,
 * scripts/process_aneel_linhas.py and scripts/process_anatel_fibra.py): a
 * geopandas frame with its coordinate reference system, the high-voltage
 * filter, layer detection, geometry clean-up and the reprojection to WGS 84.
 */
module GisEtl {
  import opened Wrappers
  import opened Values
  import opened Foreign
  import opened Frames
  import Text
  import Sql

  /** A GeoDataFrame: its columns and rows, and its CRS as an EPSG code (None when it has none). */
  datatype GeoFrame = GeoFrame(frame: Frame, crs: Option<int>)

  /** How a loader ends. */
  datatype Outcome =
    | FileMissing   // the input path does not exist: return before anything else
    | NoLayer       // no layer to read
    | NoEncoding    // no encoding decodes the file
    | Raised        // an exception escapes (the scripts log it and re-raise)
    | Loaded        // the rows were written

  const Wgs84 := 4326

  // ------------------------------------------------------------ columns

  /** `df[c] = df[c].apply(fn)` when the frame has c; None is the KeyError otherwise. */
  function MapColumn(f: Frame, c: string, fn: Value -> Value): (g: Option<Frame>)
    ensures g.Some? <==> c in f.columns
    ensures g.Some? ==> g.value.columns == f.columns && |g.value.rows| == |f.rows|
    ensures g.Some? ==> forall i :: 0 <= i < |f.rows| ==> Get(g.value.rows[i], c) == Some(fn(GetOrNull(f.rows[i], c)))
    ensures g.Some? ==> forall i, k :: 0 <= i < |f.rows| && k != c ==> Get(g.value.rows[i], k) == Get(f.rows[i], k)
  {
    if c !in f.columns then None
    else Some(SetColumn(f, c, seq(|f.rows|, i requires 0 <= i < |f.rows| => fn(GetOrNull(f.rows[i], c)))))
  }

  /** One geometry value reprojected; a missing geometry stays missing. */
  function ReprojectValue(eng: Engine, from: int, to: int, v: Value): Value {
    if v.Geo? then Geo(eng.toCrs(v.g, from, to)) else v
  }

  /**
   * `gdf.to_crs(EPSG:to)`: the geometry column reprojected from the frame's
   * CRS; None when the frame has no CRS (a naive frame cannot be
   * transformed) or no geometry column.
   */
  function ToCrs(eng: Engine, g: GeoFrame, to: int): (h: Option<GeoFrame>)
    ensures h.Some? <==> g.crs.Some? && "geometry" in g.frame.columns
    ensures h.Some? ==> h.value.crs == Some(to) && h.value.frame.columns == g.frame.columns
    ensures h.Some? ==> |h.value.frame.rows| == |g.frame.rows|
  {
    if g.crs.None? then None
    else
      var from := g.crs.value;
      var f := MapColumn(g.frame, "geometry", v => ReprojectValue(eng, from, to, v));
      if f.None? then None else Some(GeoFrame(f.value, Some(to)))
  }

  /**
   * `if gdf.crs != "EPSG:4326": gdf = gdf.to_crs("EPSG:4326")`: a frame
   * already in WGS 84 is kept as it is, any other is reprojected (and a
   * frame with no CRS raises).
   */
  function ToWgs84(eng: Engine, g: GeoFrame): (h: Option<GeoFrame>)
    ensures g.crs == Some(Wgs84) ==> h == Some(g)
    ensures g.crs != Some(Wgs84) ==> h == ToCrs(eng, g, Wgs84)
    ensures h.Some? ==> h.value.crs == Some(Wgs84) && h.value.frame.columns == g.frame.columns
    ensures h.Some? ==> |h.value.frame.rows| == |g.frame.rows|
  {
    if g.crs == Some(Wgs84) then Some(g) else ToCrs(eng, g, Wgs84)
  }

  /** Reprojecting to WGS 84 twice is reprojecting once. */
  lemma ToWgs84Once(eng: Engine, g: GeoFrame)
    requires ToWgs84(eng, g).Some?
    ensures ToWgs84(eng, ToWgs84(eng, g).value) == ToWgs84(eng, g)
  {
  }

  // ------------------------------------------------------------ the high-voltage filter

  /** The nominal voltage column of the ANEEL geodatabase. */
  const VoltageColumn := "TEN_NOM"

  /** The threshold the extractors filter on, in kV. */
  const HighVoltageKv: real := 69.0

  /** `astype(float)` of the row's voltage succeeds and is at least 69. */
  predicate IsHighVoltage(eng: Engine, r: Record) {
    var c := AsFloat(eng, GetOrNull(r, VoltageColumn));
    c.Cast? && c.value >= HighVoltageKv
  }

  /** Some row's voltage cannot be cast to float. */
  predicate VoltageUncastable(eng: Engine, f: Frame) {
    exists i :: 0 <= i < |f.rows| && AsFloat(eng, GetOrNull(f.rows[i], VoltageColumn)).Raises?
  }

  /**
   * `gdf[gdf["TEN_NOM"].astype(float) >= 69]` when the column exists, and the
   * whole frame when it does not.  None is the ValueError of a voltage that
   * is not a number; a null voltage is NaN and fails the comparison.
   */
  function FilterHighVoltage(eng: Engine, f: Frame): (g: Option<Frame>)
    ensures g.None? <==> VoltageColumn in f.columns && VoltageUncastable(eng, f)
    ensures VoltageColumn !in f.columns ==> g == Some(f)
    ensures g.Some? ==> g.value.columns == f.columns
  {
    if VoltageColumn !in f.columns then Some(f)
    else if VoltageUncastable(eng, f) then None
    else Some(Select(f, r => IsHighVoltage(eng, r)))
  }

  /**
   * When the voltage column exists and casts, the filter keeps exactly the
   * rows of at least 69 kV, in their order: the kept rows of a concatenation
   * are the kept rows of each part.
   */
  lemma HighVoltageRows(eng: Engine, f: Frame)
    requires VoltageColumn in f.columns && !VoltageUncastable(eng, f)
    ensures forall r :: r in FilterHighVoltage(eng, f).value.rows <==> r in f.rows && IsHighVoltage(eng, r)
    ensures FilterHighVoltage(eng, f).value.rows == Sql.Filter(f.rows, r => IsHighVoltage(eng, r))
  {
  }

  /** 69 kV itself is high voltage; anything below, and a null, is not. */
  lemma HighVoltageBoundary(eng: Engine, x: real)
    ensures IsHighVoltage(eng, [Field(VoltageColumn, Num(x))]) <==> x >= 69.0
    ensures !IsHighVoltage(eng, [Field(VoltageColumn, Null)])
    ensures IsHighVoltage(eng, [Field(VoltageColumn, Int(69))])
  {
  }

  // ------------------------------------------------------------ renaming

  /**
   * `{k: v for k, v in columns_map.items() if k in gdf.columns}` followed by
   * `rename`: only the mapping keys that are columns take effect.
   */
  function RenamePresent(f: Frame, m: Mapping): (g: Frame)
    ensures |g.rows| == |f.rows| && |g.columns| == |f.columns|
  {
    Rename(f, ValidColumns(m, f.columns))
  }

  // ------------------------------------------------------------ layers

  /** `any(name in l.lower() for name in candidates)` */
  predicate LayerMatches(l: string, candidates: seq<string>) {
    exists j :: 0 <= j < |candidates| && Text.IsSubstring(candidates[j], Text.Lower(l))
  }

  /** The index of the first layer that matches, if any. */
  function FirstMatch(layers: seq<string>, candidates: seq<string>): (i: Option<nat>)
    ensures i.Some? ==> i.value < |layers| && LayerMatches(layers[i.value], candidates)
    ensures i.Some? ==> forall j :: 0 <= j < i.value ==> !LayerMatches(layers[j], candidates)
    ensures i.None? ==> forall j :: 0 <= j < |layers| ==> !LayerMatches(layers[j], candidates)
    decreases |layers|
  {
    if layers == [] then None
    else if LayerMatches(layers[0], candidates) then Some(0)
    else
      var rest := FirstMatch(layers[1..], candidates);
      assert forall j :: 1 <= j < |layers| ==> layers[j] == layers[1..][j - 1];
      if rest.None? then None else Some(rest.value + 1)
  }

  /**
   * `layer_name` when given; otherwise
   * `next((l for l in layers if any(...)), layers[0] if layers else None)`.
   */
  function DetectLayer(layers: seq<string>, candidates: seq<string>, given: Option<string>): Option<string> {
    if given.Some? then given
    else
      var i := FirstMatch(layers, candidates);
      if i.Some? then Some(layers[i.value])
      else if |layers| > 0 then Some(layers[0])
      else None
  }

  /**
   * An explicit layer is used as given; otherwise the result is the first
   * matching layer, or the first layer when none matches, and None exactly
   * when there are no layers at all.
   */
  lemma DetectLayerChoice(layers: seq<string>, candidates: seq<string>, given: Option<string>)
    ensures given.Some? ==> DetectLayer(layers, candidates, given) == given
    ensures given.None? ==> (DetectLayer(layers, candidates, given).None? <==> layers == [])
    ensures given.None? && layers != [] ==>
      exists i :: 0 <= i < |layers| && DetectLayer(layers, candidates, given) == Some(layers[i])
        && (LayerMatches(layers[i], candidates) || (i == 0 && forall j :: 0 <= j < |layers| ==> !LayerMatches(layers[j], candidates)))
        && forall j :: 0 <= j < i ==> !LayerMatches(layers[j], candidates)
  {
    if given.None? && layers != [] {
      var i := FirstMatch(layers, candidates);
      var k := if i.Some? then i.value else 0;
      assert DetectLayer(layers, candidates, given) == Some(layers[k]);
    }
  }

  // ------------------------------------------------------------ validate_gdf

  /** `gdf.loc[~is_valid, "geometry"] = ....buffer(0)` on one value; a missing geometry stays missing. */
  function RepairValue(eng: Engine, v: Value): Value {
    if v.Geo? && !eng.isValid(v.g) then Geo(eng.buffer0(v.g)) else v
  }

  /** `~gdf.geometry.is_empty` on one row; a missing geometry is not empty. */
  predicate NotEmptyGeometry(eng: Engine, r: Record) {
    var v := GetOrNull(r, "geometry");
    !(v.Geo? && eng.isEmpty(v.g))
  }

  /** The repair, the removal of empty geometries and of duplicates, before the CRS step. */
  function CleanGeometries(eng: Engine, f: Frame): (g: Option<Frame>)
    ensures g.Some? <==> "geometry" in f.columns
    ensures g.Some? ==> g.value.columns == f.columns
    ensures g.Some? ==> forall i, j :: 0 <= i < j < |g.value.rows| ==> g.value.rows[i] != g.value.rows[j]
    ensures g.Some? ==> forall r :: r in g.value.rows ==> NotEmptyGeometry(eng, r)
  {
    var repaired := MapColumn(f, "geometry", v => RepairValue(eng, v));
    if repaired.None? then None
    else Some(DropDuplicates(Select(repaired.value, r => NotEmptyGeometry(eng, r))))
  }

  /** Every row of a mapped column comes from an input row: c holds the mapped value, every other key reads as before. */
  lemma MapColumnRowOrigin(f: Frame, c: string, fn: Value -> Value, r: Record)
    requires MapColumn(f, c, fn).Some? && r in MapColumn(f, c, fn).value.rows
    ensures exists i ::
      && 0 <= i < |f.rows|
      && Get(r, c) == Some(fn(GetOrNull(f.rows[i], c)))
      && (forall k :: k != c ==> Get(r, k) == Get(f.rows[i], k))
  {
    var g := MapColumn(f, c, fn).value;
    var i :| 0 <= i < |g.rows| && g.rows[i] == r;
    assert Get(r, c) == Some(fn(GetOrNull(f.rows[i], c)));
  }

  /** Every row after the clean-up is a repaired input row: its geometry is the repair of the input's. */
  lemma CleanedRowsRepaired(eng: Engine, f: Frame, r: Record)
    requires CleanGeometries(eng, f).Some? && r in CleanGeometries(eng, f).value.rows
    ensures exists i ::
      && 0 <= i < |f.rows|
      && Get(r, "geometry") == Some(RepairValue(eng, GetOrNull(f.rows[i], "geometry")))
      && (forall k :: k != "geometry" ==> Get(r, k) == Get(f.rows[i], k))
  {
    var fn := v => RepairValue(eng, v);
    var repaired := MapColumn(f, "geometry", fn).value;
    assert r in repaired.rows;
    MapColumnRowOrigin(f, "geometry", fn, r);
  }

  /**
   * `validate_gdf`: repair invalid geometries with `buffer(0)`, drop the
   * empty ones and the duplicate rows, then reproject to WGS 84 when the
   * frame has another CRS, or declare WGS 84 when it has none.  None is the
   * exception of a frame with no geometry column.
   */
  function ValidateGdf(eng: Engine, g: GeoFrame): (h: Option<GeoFrame>)
    ensures h.Some? <==> "geometry" in g.frame.columns
    ensures h.Some? ==> h.value.crs == Some(Wgs84) && h.value.frame.columns == g.frame.columns
    ensures h.Some? && (g.crs.None? || g.crs == Some(Wgs84)) ==> h.value.frame == CleanGeometries(eng, g.frame).value
    ensures h.Some? ==> |h.value.frame.rows| == |CleanGeometries(eng, g.frame).value.rows|
  {
    var cleaned := CleanGeometries(eng, g.frame);
    if cleaned.None? then None
    else if g.crs.Some? && g.crs.value != Wgs84 then ToCrs(eng, GeoFrame(cleaned.value, g.crs), Wgs84)
    else Some(GeoFrame(cleaned.value, Some(Wgs84)))
  }
}
