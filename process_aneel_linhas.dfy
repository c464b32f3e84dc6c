/**
 * The ANEEL transmission-line loader (scripts/process_aneel_linhas.py): the
 * line layer is detected by name and validated, its length in kilometres is
 * computed when the file does not carry one, and the rows are tagged with
 * their source and appended to `geo.linhas_transmissao`.
 */
module ProcessAneelLinhas {
  import opened Wrappers
  import opened Values
  import opened Foreign
  import opened Frames
  import opened GisEtl
  import Chunks

  /** `possible_names` */
  const LayerNames := ["linha", "linhas", "transmissao", "transmission", "lt"]

  const DataSource := "ANEEL"

  const LengthColumn := "extensao_km"

  /** `gdf_metric.geometry.length / 1000` on one row; a missing geometry has no length. */
  function LengthOf(eng: Engine, r: Record): Value {
    var v := GetOrNull(r, "geometry");
    if v.Geo? then Num(eng.lengthKm(v.g)) else Null
  }

  /** `extensao_km` is computed only when the frame does not have it. */
  function WithLength(eng: Engine, f: Frame): Frame {
    if LengthColumn in f.columns then f
    else SetColumn(f, LengthColumn, seq(|f.rows|, i requires 0 <= i < |f.rows| => LengthOf(eng, f.rows[i])))
  }

  /**
   * A length the file carries is kept as it is; otherwise every row gets the
   * length of its own geometry, and nothing else in the row changes.
   */
  lemma WithLengthValues(eng: Engine, f: Frame)
    ensures LengthColumn in f.columns ==> WithLength(eng, f) == f
    ensures LengthColumn in WithLength(eng, f).columns && |WithLength(eng, f).rows| == |f.rows|
    ensures LengthColumn !in f.columns ==>
      forall i :: 0 <= i < |f.rows| ==> Get(WithLength(eng, f).rows[i], LengthColumn) == Some(LengthOf(eng, f.rows[i]))
    ensures forall i, k :: 0 <= i < |f.rows| && k != LengthColumn ==> Get(WithLength(eng, f).rows[i], k) == Get(f.rows[i], k)
  {
  }

  /** Computing the length twice changes nothing the first time did not. */
  lemma WithLengthIdempotent(eng: Engine, f: Frame)
    ensures WithLength(eng, WithLength(eng, f)) == WithLength(eng, f)
  {
  }

  /** The rows `process_linhas` appends: validated, with their length, tagged with their source. */
  function Prepared(eng: Engine, g: GeoFrame): Option<Frame> {
    var v := ValidateGdf(eng, g);
    if v.None? then None else Some(SetConst(WithLength(eng, v.value.frame), "data_source", Text(DataSource)))
  }

  /**
   * Every prepared row has the tag "ANEEL", one per row the validation keeps;
   * when the file carried no length, each row holds its geometry's length.
   */
  lemma PreparedRows(eng: Engine, g: GeoFrame)
    requires Prepared(eng, g).Some?
    ensures var v := ValidateGdf(eng, g).value.frame;
      var p := Prepared(eng, g).value;
      && LengthColumn in p.columns && "data_source" in p.columns
      && |p.rows| == |v.rows|
      && (forall i :: 0 <= i < |p.rows| ==> Get(p.rows[i], "data_source") == Some(Text(DataSource)))
      && (LengthColumn !in v.columns ==> forall i :: 0 <= i < |p.rows| ==> Get(p.rows[i], LengthColumn) == Some(LengthOf(eng, v.rows[i])))
  {
    WithLengthValues(eng, ValidateGdf(eng, g).value.frame);
  }

  // ------------------------------------------------------------ the statistics

  /** Whether Python orders two values with `<`: numbers with numbers, text with text, times with times. */
  predicate Orderable(a: Value, b: Value) {
    ((a.Int? || a.Num?) && (b.Int? || b.Num?)) || (a.Text? && b.Text?) || (a.Time? && b.Time?)
  }

  /**
   * `value_counts().sort_index()` on `tensao_kv` raises: two distinct
   * non-null voltages that Python cannot order against each other.
   */
  predicate VoltageSortRaises(f: Frame) {
    "tensao_kv" in f.columns &&
    exists i, j :: 0 <= i < |f.rows| && 0 <= j < |f.rows| &&
      var a := GetOrNull(f.rows[i], "tensao_kv");
      var b := GetOrNull(f.rows[j], "tensao_kv");
      !a.Null? && !b.Null? && a != b && !Orderable(a, b)
  }

  /** `sum()`, `mean()` and the `:,.2f` format of `extensao_km` raise: some non-null length is not a number. */
  predicate LengthStatsRaise(f: Frame) {
    LengthColumn in f.columns &&
    exists i :: 0 <= i < |f.rows| && NotANumber(GetOrNull(f.rows[i], LengthColumn))
  }

  predicate NotANumber(v: Value) {
    !v.Null? && !v.Int? && !v.Num?
  }

  /** The statistics after the insert raise, inside the `try` that re-raises. */
  predicate StatisticsRaise(f: Frame) {
    VoltageSortRaises(f) || LengthStatsRaise(f)
  }

  /** A voltage column holding both a number and a text makes the statistics raise after the append. */
  lemma MixedVoltagesRaise(f: Frame, i: nat, j: nat, x: real, t: string)
    requires "tensao_kv" in f.columns && i < |f.rows| && j < |f.rows|
    requires GetOrNull(f.rows[i], "tensao_kv") == Num(x) && GetOrNull(f.rows[j], "tensao_kv") == Text(t)
    ensures StatisticsRaise(f)
  {
    assert !Orderable(Num(x), Text(t));
  }

  /** Lengths computed from the geometries are numbers, so only a length the file carried can make the statistics raise. */
  lemma ComputedLengthsDoNotRaise(eng: Engine, g: GeoFrame)
    requires Prepared(eng, g).Some? && LengthColumn !in ValidateGdf(eng, g).value.frame.columns
    ensures !LengthStatsRaise(Prepared(eng, g).value)
  {
    PreparedRows(eng, g);
    var p := Prepared(eng, g).value;
    var v := ValidateGdf(eng, g).value.frame;
    forall i | 0 <= i < |p.rows| ensures !NotANumber(GetOrNull(p.rows[i], LengthColumn)) {
      assert Get(p.rows[i], LengthColumn) == Some(LengthOf(eng, v.rows[i]));
    }
  }

  /**
   * `process_linhas`: a missing file returns at once; the layer list is read
   * (`layers` is None when that raises) and the layer is detected unless one
   * is given; no layer returns without loading.  The layer is read (`read`
   * gives None when that raises), validated, given its length, tagged and
   * appended (`saveFails` when that raises).  The statistics then run in
   * the same `try` and can raise after the rows are in the table.
   */
  method ProcessLinhas(eng: Engine, fileExists: bool, layers: Option<seq<string>>, given: Option<string>,
                       read: string -> Option<GeoFrame>, saveFails: bool, table: Chunks.Table)
    returns (outcome: Outcome)
    modifies table
    ensures !fileExists ==> outcome == FileMissing
    ensures outcome == NoLayer <==> fileExists && layers.Some? && given.None? && layers.value == []
    ensures var layer := if layers.Some? then DetectLayer(layers.value, LayerNames, given) else None;
      var appended := fileExists && layer.Some? && read(layer.value).Some? && Prepared(eng, read(layer.value).value).Some? && !saveFails;
      && (outcome == Loaded <==> appended && !StatisticsRaise(Prepared(eng, read(layer.value).value).value))
      && (appended ==> table.rows == old(table.rows) + Prepared(eng, read(layer.value).value).value.rows
                       && table.writes == old(table.writes) + [Chunks.Append])
      && (!appended ==> table.rows == old(table.rows) && table.writes == old(table.writes))
  {
    if !fileExists {
      return FileMissing;
    }
    if layers.None? {
      return Raised;
    }
    DetectLayerChoice(layers.value, LayerNames, given);
    var layer := DetectLayer(layers.value, LayerNames, given);
    if layer.None? {
      return NoLayer;
    }
    var gdf := read(layer.value);
    if gdf.None? {
      return Raised;
    }
    var toInsert := Prepared(eng, gdf.value);
    if toInsert.None? || saveFails {
      return Raised;
    }
    table.ToSql(toInsert.value.rows, Chunks.Append);
    if StatisticsRaise(toInsert.value) {
      return Raised;
    }
    return Loaded;
  }
}
