/**
 * The substation extractor (scripts/extrair_subestacoes.py): the `SUB` layer
 * of the ANEEL geodatabase, filtered to at least 69 kV, reprojected to
 * WGS 84, renamed, and written to `subestacoes`, replacing what was there.
 */
module ExtrairSubestacoes {
  import opened Wrappers
  import opened Values
  import opened Foreign
  import opened Frames
  import opened GisEtl
  import Chunks

  /** `columns_map` */
  const ColumnsMap: Mapping := [("NOME", "nome"), ("COD_ID", "codigo"), ("TEN_NOM", "tensao_kv")]

  /**
   * Filter, reprojection and rename.  None is the exception one of them
   * raises: a voltage that is not a number, or a frame that needs
   * reprojecting and has no CRS or no geometry column.
   */
  function Transform(eng: Engine, g: GeoFrame): Option<Frame> {
    var at := FilterHighVoltage(eng, g.frame);
    if at.None? then None
    else
      var wgs := ToWgs84(eng, GeoFrame(at.value, g.crs));
      if wgs.None? then None
      else Some(RenamePresent(wgs.value.frame, ColumnsMap))
  }

  /**
   * The transform raises exactly on an uncastable voltage, or on a frame
   * not already in WGS 84 that has no CRS or no geometry column.
   */
  lemma TransformFails(eng: Engine, g: GeoFrame)
    ensures Transform(eng, g).None? <==>
      || (VoltageColumn in g.frame.columns && VoltageUncastable(eng, g.frame))
      || (g.crs != Some(Wgs84) && (g.crs.None? || "geometry" !in g.frame.columns))
  {
  }

  /** A frame already in WGS 84 keeps its row values: only the column names change. */
  lemma InWgs84KeepsValues(eng: Engine, g: GeoFrame)
    requires g.crs == Some(Wgs84) && Transform(eng, g).Some?
    ensures Transform(eng, g).value == RenamePresent(FilterHighVoltage(eng, g.frame).value, ColumnsMap)
  {
  }

  /**
   * With no voltage column every row is kept, and in WGS 84 every row
   * reaches the table renamed: the whole frame under the present keys of the
   * mapping.
   */
  lemma NoVoltageColumnKeepsAll(eng: Engine, g: GeoFrame)
    requires VoltageColumn !in g.frame.columns && g.crs == Some(Wgs84)
    ensures Transform(eng, g) == Some(RenamePresent(g.frame, ColumnsMap))
  {
  }

  /**
   * `extrair_subestacoes`: a missing file returns before anything is read;
   * then the layer is read (`read` is None when that raises), transformed and
   * written with `if_exists="replace"` (`saveFails` when that raises).  Any
   * exception is re-raised and leaves the table as it was.
   */
  method ExtrairSubestacoes(eng: Engine, fileExists: bool, read: Option<GeoFrame>, saveFails: bool, table: Chunks.Table)
    returns (outcome: Outcome)
    modifies table
    ensures !fileExists ==> outcome == FileMissing
    ensures fileExists ==> (outcome == Loaded <==> read.Some? && Transform(eng, read.value).Some? && !saveFails)
    ensures fileExists && outcome != Loaded ==> outcome == Raised
    ensures outcome == Loaded ==> table.rows == Transform(eng, read.value).value.rows && table.writes == old(table.writes) + [Chunks.Replace]
    ensures outcome != Loaded ==> table.rows == old(table.rows) && table.writes == old(table.writes)
  {
    if !fileExists {
      return FileMissing;
    }
    if read.None? {
      return Raised;
    }
    var final := Transform(eng, read.value);
    if final.None? || saveFails {
      return Raised;
    }
    table.ToSql(final.value.rows, Chunks.Replace);
    return Loaded;
  }
}
