/**
 * The ANEEL substation loader (scripts/process_aneel_subestacoes.py): the
 * substation layer is detected by name, validated, tagged with its source
 * and appended to `geo.subestacoes`; the voltage bands are computed for the
 * statistics that follow.
 */
module ProcessAneelSubestacoes {
  import opened Wrappers
  import opened Values
  import opened Foreign
  import opened Frames
  import opened GisEtl
  import Chunks

  /** `possible_names` */
  const LayerNames := ["subestacao", "subestacoes", "substation", "substations", "se"]

  const DataSource := "ANEEL"

  // ------------------------------------------------------------ voltage bands

  /** `bins=[0, 69, 138, 230, 500, 1000]` */
  const Bins: seq<real> := [0.0, 69.0, 138.0, 230.0, 500.0, 1000.0]

  /** `labels` */
  const Labels := ["< 69kV", "69-138kV", "138-230kV", "230-500kV", "> 500kV"]

  /** `pd.cut` of one voltage with those bins and labels; the intervals are closed on the right. */
  function VoltageBand(x: real): Option<string> {
    if x <= 0.0 then None
    else if x <= 69.0 then Some("< 69kV")
    else if x <= 138.0 then Some("69-138kV")
    else if x <= 230.0 then Some("138-230kV")
    else if x <= 500.0 then Some("230-500kV")
    else if x <= 1000.0 then Some("> 500kV")
    else None
  }

  /**
   * A voltage gets label i exactly when it lies in (Bins[i], Bins[i + 1]],
   * and no label exactly when it is at most 0 or above 1000.
   */
  lemma VoltageBandBins(x: real)
    ensures forall i :: 0 <= i < |Labels| ==> (VoltageBand(x) == Some(Labels[i]) <==> Bins[i] < x <= Bins[i + 1])
    ensures VoltageBand(x).None? <==> x <= Bins[0] || x > Bins[|Bins| - 1]
  {
    assert |Labels| == 5 && |Bins| == 6;
    forall i | 0 <= i < |Labels| ensures VoltageBand(x) == Some(Labels[i]) <==> Bins[i] < x <= Bins[i + 1] {
      DistinctLabels(i);
    }
  }

  /** The labels are different from each other, so a voltage has at most one. */
  lemma DistinctLabels(i: nat)
    requires i < |Labels|
    ensures forall j :: 0 <= j < |Labels| && j != i ==> Labels[j] != Labels[i]
  {
    assert Labels[0][0] == '<' && Labels[4][0] == '>';
    assert Labels[1][0] == '6' && Labels[2][1] == '3' && Labels[3][0] == '2';
    assert Labels[2][0] == '1';
  }

  /** The band boundaries: 69 is in the lowest band and 69.5 in the next; 1000 is banded and anything above is not. */
  lemma VoltageBandEdges()
    ensures VoltageBand(69.0) == Some("< 69kV") && VoltageBand(69.5) == Some("69-138kV")
    ensures VoltageBand(1000.0) == Some("> 500kV") && VoltageBand(1000.5).None? && VoltageBand(0.0).None?
  {
  }

  /** `pd.cut` on a column value: a null is NaN; a value that is not a number raises. */
  function BandOf(v: Value): Cast<string> {
    match v
    case Null => NaN
    case Int(i) => if VoltageBand(i as real).Some? then Cast(VoltageBand(i as real).value) else NaN
    case Num(x) => if VoltageBand(x).Some? then Cast(VoltageBand(x).value) else NaN
    case _ => Raises
  }

  /** The banding of the statistics raises: the frame has `tensao_kv` and some value of it is not a number. */
  predicate BandingRaises(f: Frame) {
    "tensao_kv" in f.columns && exists i :: 0 <= i < |f.rows| && BandOf(GetOrNull(f.rows[i], "tensao_kv")).Raises?
  }

  // ------------------------------------------------------------ the load

  /** The rows `process_subestacoes` appends: the validated frame tagged with its source. */
  function Prepared(eng: Engine, g: GeoFrame): Option<Frame> {
    var v := ValidateGdf(eng, g);
    if v.None? then None else Some(SetConst(v.value.frame, "data_source", Text(DataSource)))
  }

  /** Every prepared row is tagged "ANEEL", and there is one per row the validation keeps. */
  lemma PreparedTagged(eng: Engine, g: GeoFrame)
    requires Prepared(eng, g).Some?
    ensures forall i :: 0 <= i < |Prepared(eng, g).value.rows| ==> Get(Prepared(eng, g).value.rows[i], "data_source") == Some(Text(DataSource))
    ensures |Prepared(eng, g).value.rows| == |CleanGeometries(eng, g.frame).value.rows|
  {
  }

  /**
   * `process_subestacoes`: a missing file returns at once; the layer list is
   * read (`layers` is None when that raises) and the layer is detected
   * unless one is given; no layer returns without loading.  The layer is
   * read (`read` gives None when that raises), validated, tagged and
   * appended (`saveFails` when that raises).  The banding of the statistics
   * runs after the append, so when it raises the rows are already in the
   * table.
   */
  method ProcessSubestacoes(eng: Engine, fileExists: bool, layers: Option<seq<string>>, given: Option<string>,
                            read: string -> Option<GeoFrame>, saveFails: bool, table: Chunks.Table)
    returns (outcome: Outcome)
    modifies table
    ensures !fileExists ==> outcome == FileMissing
    ensures fileExists && layers.Some? && given.None? && layers.value == [] ==> outcome == NoLayer
    ensures outcome == NoLayer ==> fileExists && layers.Some? && DetectLayer(layers.value, LayerNames, given).None?
    ensures var layer := if layers.Some? then DetectLayer(layers.value, LayerNames, given) else None;
      var appended := fileExists && layer.Some? && read(layer.value).Some? && Prepared(eng, read(layer.value).value).Some? && !saveFails;
      && (appended ==> table.rows == old(table.rows) + Prepared(eng, read(layer.value).value).value.rows
                       && table.writes == old(table.writes) + [Chunks.Append])
      && (!appended ==> table.rows == old(table.rows) && table.writes == old(table.writes))
      && (outcome == Loaded <==> appended && !BandingRaises(Prepared(eng, read(layer.value).value).value))
  {
    if !fileExists {
      return FileMissing;
    }
    if layers.None? {
      return Raised;
    }
    DetectLayerChoice(layers.value, LayerNames, given);
    var layer := DetectLayer(layers.value, LayerNames, given);
    if layer.None? {
      return NoLayer;
    }
    var gdf := read(layer.value);
    if gdf.None? {
      return Raised;
    }
    var toInsert := Prepared(eng, gdf.value);
    if toInsert.None? || saveFails {
      return Raised;
    }
    table.ToSql(toInsert.value.rows, Chunks.Append);
    if BandingRaises(toInsert.value) {
      return Raised;
    }
    return Loaded;
  }
}
