/**
 * The transmission-line extractor (scripts/extrair_linhas_at.py): the `SLT`
 * layer of the ANEEL geodatabase, filtered to at least 69 kV, reprojected to
 * WGS 84, forced to MultiLineString, renamed, and written to
 * `linhas_transmissao`, replacing what was there.
 */
module ExtrairLinhasAt {
  import opened Wrappers
  import opened Values
  import opened Foreign
  import opened Frames
  import opened GisEtl
  import Chunks

  /** `force_multilinestring` */
  function ForceMultiLineString(g: Geometry): Geometry {
    if g.LineString? then MultiLineString([g.points]) else g
  }

  /**
   * A LineString becomes the MultiLineString holding exactly that line, any
   * other geometry is unchanged, no LineString is left, and forcing twice is
   * forcing once.
   */
  lemma ForceMultiLineStringSpec(g: Geometry)
    ensures g.LineString? ==> ForceMultiLineString(g) == MultiLineString([g.points])
    ensures !g.LineString? ==> ForceMultiLineString(g) == g
    ensures !ForceMultiLineString(g).LineString?
    ensures ForceMultiLineString(ForceMultiLineString(g)) == ForceMultiLineString(g)
  {
  }

  /** `force_multilinestring` on a column value; a missing geometry is not a LineString and stays. */
  function ForceValue(v: Value): Value {
    if v.Geo? then Geo(ForceMultiLineString(v.g)) else v
  }

  /** `columns_map` */
  const ColumnsMap: Mapping := [("NOME", "nome"), ("COD_ID", "codigo"), ("TEN_NOM", "tensao_kv"), ("COMP", "comprimento_km")]

  /**
   * Filter, reprojection, forcing and rename.  None is the exception one of
   * them raises: a voltage that is not a number, a frame with no CRS, or a
   * frame with no geometry column.
   */
  function Transform(eng: Engine, g: GeoFrame): Option<Frame> {
    var at := FilterHighVoltage(eng, g.frame);
    if at.None? then None
    else
      var wgs := ToWgs84(eng, GeoFrame(at.value, g.crs));
      if wgs.None? then None
      else
        var forced := MapColumn(wgs.value.frame, "geometry", ForceValue);
        if forced.None? then None
        else Some(RenamePresent(forced.value, ColumnsMap))
  }

  /** The transform raises exactly on an uncastable voltage, a missing geometry column or a missing CRS. */
  lemma TransformFails(eng: Engine, g: GeoFrame)
    ensures Transform(eng, g).None? <==>
      (VoltageColumn in g.frame.columns && VoltageUncastable(eng, g.frame)) || "geometry" !in g.frame.columns || g.crs.None?
  {
  }

  /** The transformed frame has one row per high-voltage row (every row when there is no voltage column). */
  lemma TransformRowCount(eng: Engine, g: GeoFrame)
    requires Transform(eng, g).Some?
    ensures |Transform(eng, g).value.rows| == |FilterHighVoltage(eng, g.frame).value.rows|
    ensures VoltageColumn !in g.frame.columns ==> |Transform(eng, g).value.rows| == |g.frame.rows|
  {
  }

  /** No row of the transformed frame holds a LineString. */
  lemma NoLineStringsLeft(eng: Engine, g: GeoFrame, i: nat)
    requires Transform(eng, g).Some? && i < |Transform(eng, g).value.rows|
    ensures var v := GetOrNull(Transform(eng, g).value.rows[i], "geometry");
      !(v.Geo? && v.g.LineString?)
  {
    var at := FilterHighVoltage(eng, g.frame).value;
    var wgs := ToWgs84(eng, GeoFrame(at, g.crs)).value;
    var forced := MapColumn(wgs.frame, "geometry", ForceValue).value;
    var valid := ValidColumns(ColumnsMap, forced.columns);
    MapUntouchesGeometry();
    assert forall e :: e in valid ==> e.0 != "geometry" && e.1 != "geometry";
    assert Transform(eng, g).value.rows[i] == RenameRecord(valid, forced.rows[i]);
    RenameGetUnmapped(valid, forced.rows[i], "geometry");
    var v := GetOrNull(wgs.frame.rows[i], "geometry");
    assert Get(forced.rows[i], "geometry") == Some(ForceValue(v));
    if v.Geo? {
      ForceMultiLineStringSpec(v.g);
    }
  }

  /** No entry of the mapping renames `geometry` or renames anything to it. */
  lemma MapUntouchesGeometry()
    ensures forall e :: e in ColumnsMap ==> e.0 != "geometry" && e.1 != "geometry"
  {
  }

  /**
   * `extrair_linhas_at`: a missing file returns before anything is read;
   * then the layer is read (`read` is None when that raises), transformed and
   * written with `if_exists="replace"` (`saveFails` when that raises).  Any
   * exception is re-raised and leaves the table as it was.
   */
  method ExtrairLinhasAt(eng: Engine, fileExists: bool, read: Option<GeoFrame>, saveFails: bool, table: Chunks.Table)
    returns (outcome: Outcome)
    modifies table
    ensures !fileExists ==> outcome == FileMissing
    ensures fileExists ==> (outcome == Loaded <==> read.Some? && Transform(eng, read.value).Some? && !saveFails)
    ensures fileExists && outcome != Loaded ==> outcome == Raised
    ensures outcome == Loaded ==> table.rows == Transform(eng, read.value).value.rows && table.writes == old(table.writes) + [Chunks.Replace]
    ensures outcome != Loaded ==> table.rows == old(table.rows) && table.writes == old(table.writes)
  {
    if !fileExists {
      return FileMissing;
    }
    if read.None? {
      return Raised;
    }
    var gdf := read.value;
    var at := FilterHighVoltage(eng, gdf.frame);
    if at.None? {
      return Raised;
    }
    var wgs := ToWgs84(eng, GeoFrame(at.value, gdf.crs));
    if wgs.None? {
      return Raised;
    }
    var forced := MapColumn(wgs.value.frame, "geometry", ForceValue);
    if forced.None? {
      return Raised;
    }
    var final := RenamePresent(forced.value, ColumnsMap);
    if saveFails {
      return Raised;
    }
    table.ToSql(final.rows, Chunks.Replace);
    return Loaded;
  }
}
