/**
 * The São Paulo zoning extractor (scripts/extrair_sao_paulo_municipio.py):
 * the curated zoning table is read from BigQuery, every polygon is made a
 * MULTIPOLYGON, and the rows are loaded into `geo.zoneamento_sp` in chunks.
 */
module ExtrairSaoPaulo {
  import opened Wrappers
  import opened Values
  import opened Foreign
  import opened Frames
  import Chunks
  import opened BigQueryEtl

  // ------------------------------------------------------------ WKT

  /** `to_multipolygon_wkt` */
  function ToMultipolygonWkt(wkt: string): string {
    if "MULTIPOLYGON" <= wkt then wkt
    else if "POLYGON" <= wkt then "MULTIPOLYGON(" + wkt[7..] + ")"
    else wkt
  }

  /**
   * The result is MULTIPOLYGON text exactly when the input was POLYGON or
   * MULTIPOLYGON text; any other text comes back as it was.
   */
  lemma MultipolygonKinds(wkt: string)
    ensures "MULTIPOLYGON" <= ToMultipolygonWkt(wkt) <==> "MULTIPOLYGON" <= wkt || "POLYGON" <= wkt
    ensures !("MULTIPOLYGON" <= wkt) && !("POLYGON" <= wkt) ==> ToMultipolygonWkt(wkt) == wkt
    ensures "MULTIPOLYGON" <= wkt ==> ToMultipolygonWkt(wkt) == wkt
  {
    if !("MULTIPOLYGON" <= wkt) && "POLYGON" <= wkt {
      assert ("MULTIPOLYGON(" + wkt[7..] + ")")[..12] == "MULTIPOLYGON";
    }
  }

  /**
   * Wrapping a polygon loses nothing: the text after "POLYGON" is exactly
   * what the MULTIPOLYGON encloses in one more pair of parentheses.
   */
  lemma UnwrapPolygon(wkt: string)
    requires "POLYGON" <= wkt
    ensures var w := ToMultipolygonWkt(wkt);
      && |w| == |wkt| + 7
      && w[..13] == "MULTIPOLYGON(" && w[|w| - 1] == ')'
      && "POLYGON" + w[13..|w| - 1] == wkt
  {
    assert wkt[0] == 'P';
    var w := ToMultipolygonWkt(wkt);
    assert w == "MULTIPOLYGON(" + wkt[7..] + ")";
    assert w[13..|w| - 1] == wkt[7..];
    assert wkt == wkt[..7] + wkt[7..];
  }

  /** Converting twice is converting once. */
  lemma MultipolygonIdempotent(wkt: string)
    ensures ToMultipolygonWkt(ToMultipolygonWkt(wkt)) == ToMultipolygonWkt(wkt)
  {
    MultipolygonKinds(wkt);
    MultipolygonKinds(ToMultipolygonWkt(wkt));
  }

  // ------------------------------------------------------------ preparation

  const DataSource := "BIGQUERY_SP_ZONEAMENTO"

  /** The nulls `fillna` replaces, column by column. */
  const NullFills: seq<(string, Value)> :=
    [("tx_observacao_perimetro", Text("")), ("cd_identificador", Text("")), ("cd_usuario_atualizacao", Text(""))]

  /** Every value of column c is text; `wkt.startswith` raises AttributeError on anything else. */
  predicate AllText(f: Frame, c: string) {
    forall i :: 0 <= i < |f.rows| ==> GetOrNull(f.rows[i], c).Text?
  }

  /** `WKTElement(to_multipolygon_wkt(wkt), srid=4326)` */
  function GeometryOf(v: Value): Value
    requires v.Text?
  {
    Geo(FromWkt(ToMultipolygonWkt(v.s)))
  }

  /**
   * `df[dst] = df[src].apply(...)` followed by `df.drop(src, axis=1)`; None
   * when src is missing (KeyError) or holds a value that is not text.
   */
  function ConvertGeometry(f: Frame, src: string, dst: string): (g: Option<Frame>)
    ensures g.Some? <==> src in f.columns && AllText(f, src)
    ensures g.Some? ==> |g.value.rows| == |f.rows|
    ensures g.Some? ==> forall c :: c in g.value.columns <==> (c in f.columns || c == dst) && c != src
  {
    if src !in f.columns || !AllText(f, src) then None
    else
      var withGeometry := SetColumn(f, dst, seq(|f.rows|, i requires 0 <= i < |f.rows| => GeometryOf(GetOrNull(f.rows[i], src))));
      Some(Drop(withGeometry, src))
  }

  /** Row i after the conversion: the converted geometry under dst, no src, everything else as it was. */
  lemma ConvertGeometryRow(f: Frame, src: string, dst: string, i: nat)
    requires src != dst && ConvertGeometry(f, src, dst).Some? && i < |f.rows|
    ensures var s := ConvertGeometry(f, src, dst).value.rows[i];
      && Get(s, dst) == Some(GeometryOf(GetOrNull(f.rows[i], src)))
      && Get(s, src) == None
      && forall k :: k != src && k != dst ==> Get(s, k) == Get(f.rows[i], k)
  {
  }

  /** `df[c] = pd.to_datetime(df[c], errors="coerce")` when the frame has c; NaT is null. */
  function ParseDates(eng: Engine, f: Frame, c: string): (g: Frame)
    ensures g.columns == f.columns && |g.rows| == |f.rows|
    ensures c in f.columns ==> forall i :: 0 <= i < |f.rows| ==>
      Get(g.rows[i], c) == Some(OptTime(eng.toDatetime(GetOrNull(f.rows[i], c))))
    ensures forall i, k :: 0 <= i < |f.rows| && (k != c || c !in f.columns) ==> Get(g.rows[i], k) == Get(f.rows[i], k)
  {
    if c !in f.columns then f
    else SetColumn(f, c, seq(|f.rows|, i requires 0 <= i < |f.rows| => OptTime(eng.toDatetime(GetOrNull(f.rows[i], c)))))
  }

  /**
   * The columns preparation touches: `id` is renamed to `original`, the
   * WKT text under `wkt` becomes a geometry under `geometry`, `date` is
   * parsed and `tag` receives the source tag.
   */
  datatype Layout = Layout(id: string, original: string, wkt: string, geometry: string, date: string, tag: string)

  /** The six names are different from each other. */
  predicate DistinctLayout(n: Layout) {
    && n.id != n.original && n.id != n.wkt && n.id != n.geometry && n.id != n.date && n.id != n.tag
    && n.original != n.wkt && n.original != n.geometry && n.original != n.date && n.original != n.tag
    && n.wkt != n.geometry && n.wkt != n.date && n.wkt != n.tag
    && n.geometry != n.date && n.geometry != n.tag
    && n.date != n.tag
  }

  /** Key k is one of the layout's six names. */
  predicate InLayout(n: Layout, k: string) {
    k == n.id || k == n.original || k == n.wkt || k == n.geometry || k == n.date || k == n.tag
  }

  /** No column filled with a default is one of the layout's names. */
  predicate FillsApart(n: Layout, fills: seq<(string, Value)>) {
    forall j :: 0 <= j < |fills| ==> !InLayout(n, fills[j].0)
  }

  /** The preparation pipeline over a layout, a source tag and the fills. */
  function PrepareWith(eng: Engine, f: Frame, n: Layout, tag: Value, fills: seq<(string, Value)>): Option<Frame> {
    var renamed := Rename(f, [(n.id, n.original)]);
    var converted := ConvertGeometry(renamed, n.wkt, n.geometry);
    if converted.None? then None
    else
      var dated := ParseDates(eng, converted.value, n.date);
      Some(FillNaMany(SetConst(dated, n.tag, tag), fills))
  }

  /** The frame between each stage and the next. */
  datatype Stages = Stages(renamed: Frame, converted: Frame, dated: Frame, tagged: Frame)

  function StagesOf(eng: Engine, f: Frame, n: Layout, tag: Value, fills: seq<(string, Value)>): (st: Stages)
    requires PrepareWith(eng, f, n, tag, fills).Some?
    ensures st.renamed == Rename(f, [(n.id, n.original)])
    ensures ConvertGeometry(st.renamed, n.wkt, n.geometry) == Some(st.converted)
    ensures st.dated == ParseDates(eng, st.converted, n.date)
    ensures st.tagged == SetConst(st.dated, n.tag, tag)
    ensures FillNaMany(st.tagged, fills) == PrepareWith(eng, f, n, tag, fills).value
  {
    var renamed := Rename(f, [(n.id, n.original)]);
    var converted := ConvertGeometry(renamed, n.wkt, n.geometry).value;
    var dated := ParseDates(eng, converted, n.date);
    Stages(renamed, converted, dated, SetConst(dated, n.tag, tag))
  }

  /** A key other than the renamed, converted and tagged ones is in the tagged frame's columns exactly when it was in the input's. */
  lemma StagesColumns(eng: Engine, f: Frame, n: Layout, tag: Value, fills: seq<(string, Value)>, k: string)
    requires DistinctLayout(n) && PrepareWith(eng, f, n, tag, fills).Some?
    requires k != n.id && k != n.original && k != n.wkt && k != n.geometry && k != n.tag
    ensures k in StagesOf(eng, f, n, tag, fills).tagged.columns <==> k in f.columns
  {
    RenameOneColumns(f, n.id, n.original);
  }

  /** Row i of the tagged frame, key by key, in terms of the input row. */
  lemma StagesRow(eng: Engine, f: Frame, n: Layout, tag: Value, fills: seq<(string, Value)>, i: nat, k: string)
    requires DistinctLayout(n) && PrepareWith(eng, f, n, tag, fills).Some? && i < |f.rows|
    ensures var s, r := StagesOf(eng, f, n, tag, fills).tagged.rows[i], f.rows[i];
      && (k == n.id || k == n.wkt ==> Get(s, k) == None)
      && (k == n.original && n.original !in Names(r) ==> Get(s, k) == Get(r, n.id))
      && (k == n.geometry ==> GetOrNull(r, n.wkt).Text? && Get(s, k) == Some(GeometryOf(GetOrNull(r, n.wkt))))
      && (k == n.tag ==> Get(s, k) == Some(tag))
      && (k == n.date && k in f.columns ==> Get(s, k) == Some(OptTime(eng.toDatetime(GetOrNull(r, k)))))
      && (!InLayout(n, k) || (k == n.date && k !in f.columns) ==> Get(s, k) == Get(r, k))
  {
    var st := StagesOf(eng, f, n, tag, fills);
    RenameOneGet(f.rows[i], n.id, n.original, k);
    RenameOneGet(f.rows[i], n.id, n.original, n.wkt);
    ConvertGeometryRow(st.renamed, n.wkt, n.geometry, i);
    if k == n.date {
      StagesColumns(eng, f, n, tag, fills, k);
      RenameOneGet(f.rows[i], n.id, n.original, n.date);
    }
  }

  /** The default `fillna` gives key k: the value of its first entry, if any. */
  function FillFor(fills: seq<(string, Value)>, k: string): (v: Option<Value>)
    ensures v.None? <==> forall j :: 0 <= j < |fills| ==> fills[j].0 != k
    ensures DistinctKeys(fills) ==> forall j :: 0 <= j < |fills| && fills[j].0 == k ==> v == Some(fills[j].1)
    decreases |fills|
  {
    if fills == [] then None
    else if fills[0].0 == k then Some(fills[0].1)
    else
      var v := FillFor(fills[1..], k);
      assert forall j :: 1 <= j < |fills| ==> fills[j] == fills[1..][j - 1];
      v
  }

  /**
   * Row i of the prepared frame, key by key: the tagged row with the nulls
   * of every present fill column replaced by its default.
   */
  lemma PrepareWithRow(eng: Engine, f: Frame, n: Layout, tag: Value, fills: seq<(string, Value)>, i: nat, k: string)
    requires DistinctLayout(n) && DistinctKeys(fills) && FillsApart(n, fills)
    requires PrepareWith(eng, f, n, tag, fills).Some? && i < |f.rows|
    ensures var s := PrepareWith(eng, f, n, tag, fills).value.rows[i];
      (FillFor(fills, k).None? || (!InLayout(n, k) && k !in f.columns)) ==>
        Get(s, k) == Get(StagesOf(eng, f, n, tag, fills).tagged.rows[i], k)
    ensures var s, r := PrepareWith(eng, f, n, tag, fills).value.rows[i], f.rows[i];
      FillFor(fills, k).Some? && k in f.columns ==>
        Get(s, k) == Some(if GetOrNull(r, k) == Null then FillFor(fills, k).value else GetOrNull(r, k))
  {
    var st := StagesOf(eng, f, n, tag, fills);
    FillNaManyGet(st.tagged, fills, i, k);
    if !InLayout(n, k) {
      StagesColumns(eng, f, n, tag, fills, k);
    }
    if FillFor(fills, k).Some? {
      var j :| 0 <= j < |fills| && fills[j].0 == k;
      assert !InLayout(n, k);
      StagesColumns(eng, f, n, tag, fills, k);
      StagesRow(eng, f, n, tag, fills, i, k);
    }
  }

  /** What key k of a prepared row reads, for any layout, tag and fills. */
  function PreparedValueWith(eng: Engine, columns: seq<string>, r: Record, k: string,
                             n: Layout, tag: Value, fills: seq<(string, Value)>): Option<Value> {
    var v := GetOrNull(r, k);
    if k == n.id || k == n.wkt then None
    else if k == n.original then Get(r, n.id)
    else if k == n.geometry then
      (if GetOrNull(r, n.wkt).Text? then Some(GeometryOf(GetOrNull(r, n.wkt))) else None)
    else if k == n.tag then Some(tag)
    else if k == n.date && k in columns then Some(OptTime(eng.toDatetime(v)))
    else if FillFor(fills, k).Some? && k in columns then Some(if v == Null then FillFor(fills, k).value else v)
    else Get(r, k)
  }

  /** Every key of every prepared row reads as PreparedValueWith says. */
  lemma PrepareWithValue(eng: Engine, f: Frame, n: Layout, tag: Value, fills: seq<(string, Value)>, i: nat, k: string)
    requires DistinctLayout(n) && DistinctKeys(fills) && FillsApart(n, fills)
    requires PrepareWith(eng, f, n, tag, fills).Some? && i < |f.rows|
    requires k == n.original ==> n.original !in Names(f.rows[i])
    ensures Get(PrepareWith(eng, f, n, tag, fills).value.rows[i], k) == PreparedValueWith(eng, f.columns, f.rows[i], k, n, tag, fills)
  {
    PrepareWithRow(eng, f, n, tag, fills, i, k);
    if FillFor(fills, k).None? || k !in f.columns {
      StagesRow(eng, f, n, tag, fills, i, k);
    }
  }

  /** The São Paulo layout. */
  const SpLayout := Layout("id", "id_original", "geometry_wkt", "geometry", "dt_atualizacao", "data_source")

  /**
   * `_prepare_dataframe`: rename `id` to `id_original`, convert the WKT
   * geometries, parse the update dates, tag the source and fill three text
   * columns.  None is the exception a missing or non-text `geometry_wkt`
   * raises (`run` catches it and fails).
   */
  function PrepareDataframe(eng: Engine, f: Frame): Option<Frame> {
    PrepareWith(eng, f, SpLayout, Text(DataSource), NullFills)
  }

  /** Preparation raises exactly when `geometry_wkt` is missing or holds a value that is not text; otherwise it keeps every row. */
  lemma PrepareFails(eng: Engine, f: Frame)
    ensures PrepareDataframe(eng, f).None? <==> !("geometry_wkt" in f.columns && AllText(f, "geometry_wkt"))
    ensures PrepareDataframe(eng, f).Some? ==> |PrepareDataframe(eng, f).value.rows| == |f.rows|
  {
    var renamed := Rename(f, [("id", "id_original")]);
    RenameOneColumns(f, "id", "id_original");
    forall i | 0 <= i < |f.rows| ensures GetOrNull(renamed.rows[i], "geometry_wkt") == GetOrNull(f.rows[i], "geometry_wkt") {
      RenameOneGet(f.rows[i], "id", "id_original", "geometry_wkt");
    }
    assert AllText(renamed, "geometry_wkt") <==> AllText(f, "geometry_wkt");
  }

  /** The three text columns whose nulls become "". */
  predicate FilledText(k: string) {
    k == "tx_observacao_perimetro" || k == "cd_identificador" || k == "cd_usuario_atualizacao"
  }

  /**
   * What key k of a prepared row reads, given the frame's columns and the
   * row r it came from: `id` is gone and its value is under `id_original`,
   * `geometry_wkt` is gone and its converted value is under `geometry`, the
   * update date is parsed, the source is tagged, nulls in the three text
   * columns are "", and every other key reads as in r.
   */
  function PreparedValue(eng: Engine, columns: seq<string>, r: Record, k: string): Option<Value> {
    var v := GetOrNull(r, k);
    if k == "id" || k == "geometry_wkt" then None
    else if k == "id_original" then Get(r, "id")
    else if k == "geometry" then
      (if GetOrNull(r, "geometry_wkt").Text? then Some(GeometryOf(GetOrNull(r, "geometry_wkt"))) else None)
    else if k == "data_source" then Some(Text(DataSource))
    else if k == "dt_atualizacao" && k in columns then Some(OptTime(eng.toDatetime(v)))
    else if FilledText(k) && k in columns then Some(if v == Null then Text("") else v)
    else Get(r, k)
  }

  /**
   * Every key of every prepared row reads as PreparedValue says (for
   * `id_original`, in a row that had no `id_original` of its own).
   */
  lemma PreparedRow(eng: Engine, f: Frame, i: nat, k: string)
    requires PrepareDataframe(eng, f).Some? && i < |f.rows|
    requires k == "id_original" ==> "id_original" !in Names(f.rows[i])
    ensures Get(PrepareDataframe(eng, f).value.rows[i], k) == PreparedValue(eng, f.columns, f.rows[i], k)
  {
    PreparedValueCases(k);
    PrepareWithValue(eng, f, SpLayout, Text(DataSource), NullFills, i, k);
    SpPreparedValue(eng, f.columns, f.rows[i], k);
  }

  /** PreparedValue is the São Paulo instance of PreparedValueWith. */
  lemma SpPreparedValue(eng: Engine, columns: seq<string>, r: Record, k: string)
    ensures PreparedValue(eng, columns, r, k) == PreparedValueWith(eng, columns, r, k, SpLayout, Text(DataSource), NullFills)
  {
    PreparedValueCases(k);
  }

  /** The keys PreparedValue distinguishes are the pipeline's own, and they are different from each other. */
  lemma PreparedValueCases(k: string)
    ensures FilledText(k) <==> exists j :: 0 <= j < |NullFills| && NullFills[j].0 == k
    ensures DistinctKeys(NullFills)
    ensures forall j :: 0 <= j < |NullFills| ==> NullFills[j].1 == Text("")
    ensures DistinctLayout(SpLayout) && FillsApart(SpLayout, NullFills)
  {
    if FilledText(k) {
      var j := if k == "tx_observacao_perimetro" then 0 else if k == "cd_identificador" then 1 else 2;
      assert NullFills[j].0 == k;
    }
  }

  // ------------------------------------------------------------ the pipeline

  /** What the collaborators of `run` do. */
  datatype Environment = Environment(
    /** `google.auth.default()` returns credentials */
    credentials: bool,
    bigQuery: Connection,
    postgres: Connection,
    /** the BigQuery result of the query on a table reference; None when it raises */
    execute: string -> Option<Frame>,
    /** the chunk whose `to_sql` raises, if any */
    writeFailsAt: Option<nat>,
    /** whether CREATE INDEX succeeds */
    indexesSucceed: bool)

  /** The table the query reads: `project.dataset.table`. */
  function SourceTable(project: string, dataset: string, table: string): (ref: string)
    ensures |ref| == |project| + |dataset| + |table| + 2
    ensures ref[..|project|] == project && ref[|project|] == '.'
    ensures ref[|ref| - |table| ..] == table && ref[|ref| - |table| - 1] == '.'
  {
    project + "." + dataset + "." + table
  }

  /**
   * The first stage of `run` that fails, in order; None when every stage up
   * to the insert succeeds.  Index creation never counts as a failure.
   */
  function FirstFailure(eng: Engine, env: Environment, source: string, chunkSize: int): Option<Stage> {
    if !env.credentials then Some(ValidateCredentials)
    else if env.bigQuery != Connected then Some(ConnectBigQuery)
    else if env.postgres != Connected then Some(ConnectPostgres)
    else if env.execute(source).None? || EmptyFrame(env.execute(source).value) then Some(ExecuteQuery)
    else if PrepareDataframe(eng, env.execute(source).value).None? then Some(PrepareData)
    else if !InsertSucceeds(|PrepareDataframe(eng, env.execute(source).value).value.rows|, chunkSize, env.writeFailsAt) then Some(InsertRows)
    else None
  }

  /**
   * A query result whose `geometry_wkt` is missing, or holds a value that is
   * not text, fails the pipeline at the preparation stage, before anything is
   * loaded.
   */
  lemma BadGeometryStops(eng: Engine, env: Environment, source: string, chunkSize: int)
    requires env.credentials && env.bigQuery == Connected && env.postgres == Connected
    requires env.execute(source).Some? && !EmptyFrame(env.execute(source).value)
    requires !("geometry_wkt" in env.execute(source).value.columns && AllText(env.execute(source).value, "geometry_wkt"))
    ensures FirstFailure(eng, env, source, chunkSize) == Some(PrepareData)
  {
    PrepareFails(eng, env.execute(source).value);
  }

  /** With a positive chunk size and no failing write, a non-empty result with text geometries is loaded. */
  lemma GoodResultLoads(eng: Engine, env: Environment, source: string, chunkSize: int)
    requires env.credentials && env.bigQuery == Connected && env.postgres == Connected
    requires env.execute(source).Some? && !EmptyFrame(env.execute(source).value)
    requires "geometry_wkt" in env.execute(source).value.columns && AllText(env.execute(source).value, "geometry_wkt")
    requires chunkSize > 0 && env.writeFailsAt.None?
    ensures FirstFailure(eng, env, source, chunkSize) == None
  {
    PrepareFails(eng, env.execute(source).value);
    InsertSucceedsIff(|PrepareDataframe(eng, env.execute(source).value).value.rows|, chunkSize, env.writeFailsAt);
  }

  /** The rows `run` loads, when it gets as far as loading. */
  function PreparedRows(eng: Engine, env: Environment, source: string): seq<Record>
    requires env.execute(source).Some? && PrepareDataframe(eng, env.execute(source).value).Some?
  {
    PrepareDataframe(eng, env.execute(source).value).value.rows
  }

  /** The default `chunk_size` of the constructor and of ETL_CHUNK_SIZE. */
  const DefaultChunkSize := 5000

  class ZoneamentoSpEtl {
    const projectId: string
    const dataset: string
    const bigQueryTable: string
    const chunkSize: int
    /** `self.bq_client is not None` */
    var bqClient: bool
    /** `self.pg_engine is not None` */
    var pgEngine: bool
    /** the destination table `geo.zoneamento_sp` */
    const table: Chunks.Table

    constructor (projectId: string, dataset: string, bigQueryTable: string, chunkSize: int, table: Chunks.Table)
      ensures this.projectId == projectId && this.dataset == dataset && this.bigQueryTable == bigQueryTable
      ensures this.chunkSize == chunkSize && this.table == table
      ensures !bqClient && !pgEngine
    {
      this.projectId := projectId;
      this.dataset := dataset;
      this.bigQueryTable := bigQueryTable;
      this.chunkSize := chunkSize;
      this.table := table;
      bqClient := false;
      pgEngine := false;
    }

    /** The table reference the query of `_execute_bigquery` reads. */
    function Source(): string {
      SourceTable(projectId, dataset, bigQueryTable)
    }

    /**
     * `_insert_to_postgres`: the rows go through the chunk loop (the table
     * name is not checked), and the result says whether every chunk was
     * written.
     */
    method InsertToPostgres(rows: seq<Record>, failAt: Option<nat>) returns (ok: bool)
      modifies table
      ensures ok <==> InsertSucceeds(|rows|, chunkSize, failAt)
      ensures ok && chunkSize > 0 ==> table.rows == if |rows| == 0 then old(table.rows) else rows
      ensures chunkSize <= 0 ==> table.rows == old(table.rows) && table.writes == old(table.writes)
      ensures chunkSize > 0 ==> table.writes == old(table.writes) + Chunks.Modes(Chunks.Succeeded(Chunks.TotalChunks(|rows|, chunkSize), failAt))
    {
      ok := Chunks.InsertInChunks(table, rows, chunkSize, failAt);
      if ok && chunkSize > 0 && |rows| > 0 {
        Chunks.AllChunksReachEnd(|rows|, chunkSize);
        Chunks.StartBelowEnd(|rows|, chunkSize, 0);
        assert rows[..|rows|] == rows;
      }
    }

    /**
     * `run`: the stages in order, returning False at the first one that
     * fails and skipping the rest; index creation runs last and its result is
     * ignored.
     */
    method Run(eng: Engine, env: Environment) returns (ok: bool)
      modifies this, table
      ensures ok <==> FirstFailure(eng, env, Source(), chunkSize) == None
      ensures bqClient == (old(bqClient) || (env.credentials && env.bigQuery != Refused))
      ensures pgEngine == (old(pgEngine) || (env.credentials && env.bigQuery == Connected && env.postgres != Refused))
      ensures ok && chunkSize > 0 ==> table.rows == PreparedRows(eng, env, Source())
      ensures ok && chunkSize < 0 ==> table.rows == old(table.rows)
      ensures FirstFailure(eng, env, Source(), chunkSize).Some? && FirstFailure(eng, env, Source(), chunkSize).value != InsertRows ==>
        table.rows == old(table.rows) && table.writes == old(table.writes)
    {
      var source := SourceTable(projectId, dataset, bigQueryTable);
      if !env.credentials {
        assert FirstFailure(eng, env, source, chunkSize) == Some(ValidateCredentials);
        return false;
      }
      if env.bigQuery != Refused {
        bqClient := true;
      }
      if env.bigQuery != Connected {
        assert FirstFailure(eng, env, source, chunkSize) == Some(ConnectBigQuery);
        return false;
      }
      if env.postgres != Refused {
        pgEngine := true;
      }
      if env.postgres != Connected {
        assert FirstFailure(eng, env, source, chunkSize) == Some(ConnectPostgres);
        return false;
      }
      var df := env.execute(source);
      if df.None? || EmptyFrame(df.value) {
        assert FirstFailure(eng, env, source, chunkSize) == Some(ExecuteQuery);
        return false;
      }
      var prepared := PrepareDataframe(eng, df.value);
      if prepared.None? {
        assert FirstFailure(eng, env, source, chunkSize) == Some(PrepareData);
        return false;
      }
      var inserted := InsertToPostgres(prepared.value.rows, env.writeFailsAt);
      if !inserted {
        assert FirstFailure(eng, env, source, chunkSize) == Some(InsertRows);
        return false;
      }
      PrepareFails(eng, df.value);
      assert |prepared.value.rows| == |df.value.rows| > 0;
      return true;
    }
  }

  // ------------------------------------------------------------ main

  /** The settings `main` reads from the environment variables. */
  datatype Config = Config(projectId: string, databaseUrl: string, dataset: string, table: string, chunkSize: int)

  /** How `main` starts: it raises on a chunk size that is not an integer, exits 1 on a missing database URL or a placeholder name, and otherwise builds the pipeline. */
  datatype Launch = BadChunkSize | NoDatabaseUrl | Placeholder | Start(config: Config)

  const DefaultProject := "causal-tracker-484821-f1"
  const DatasetPlaceholder := "SEU_DATASET_AQUI"
  const TablePlaceholder := "SUA_TABELA_CURADA_AQUI"

  /** `os.getenv(name, default)` */
  function GetEnv(vars: map<string, string>, name: string, default: string): (v: string)
    ensures name in vars ==> v == vars[name]
    ensures name !in vars ==> v == default
  {
    if name in vars then vars[name] else default
  }

  /** `main` up to the construction of the pipeline. */
  function Configure(eng: Engine, vars: map<string, string>): Launch {
    var project := GetEnv(vars, "GCP_PROJECT_ID", DefaultProject);
    var dataset := GetEnv(vars, "BIGQUERY_DATASET", DatasetPlaceholder);
    var table := GetEnv(vars, "BIGQUERY_TABLE", TablePlaceholder);
    var chunk := eng.parseInt(GetEnv(vars, "ETL_CHUNK_SIZE", "5000"));
    if chunk.None? then BadChunkSize
    else if "DATABASE_URL" !in vars || vars["DATABASE_URL"] == "" then NoDatabaseUrl
    else if dataset == DatasetPlaceholder || table == TablePlaceholder then Placeholder
    else Start(Config(project, vars["DATABASE_URL"], dataset, table, chunk.value))
  }

  /**
   * `main` builds the pipeline exactly when the chunk size parses, the
   * database URL is set and not empty, and neither BigQuery name is its
   * placeholder; the configuration is then what the variables say, with the
   * default project when GCP_PROJECT_ID is unset.
   */
  lemma ConfigureStarts(eng: Engine, vars: map<string, string>)
    ensures Configure(eng, vars).Start? <==>
      && eng.parseInt(GetEnv(vars, "ETL_CHUNK_SIZE", "5000")).Some?
      && "DATABASE_URL" in vars && vars["DATABASE_URL"] != ""
      && GetEnv(vars, "BIGQUERY_DATASET", DatasetPlaceholder) != DatasetPlaceholder
      && GetEnv(vars, "BIGQUERY_TABLE", TablePlaceholder) != TablePlaceholder
    ensures Configure(eng, vars).Start? ==>
      var c := Configure(eng, vars).config;
      && c.databaseUrl == vars["DATABASE_URL"]
      && c.dataset == vars["BIGQUERY_DATASET"] && c.table == vars["BIGQUERY_TABLE"]
      && c.projectId == (if "GCP_PROJECT_ID" in vars then vars["GCP_PROJECT_ID"] else DefaultProject)
      && Some(c.chunkSize) == eng.parseInt(GetEnv(vars, "ETL_CHUNK_SIZE", "5000"))
  {
  }

  /** Unless both BigQuery names are set, `main` never starts the pipeline. */
  lemma UnsetNamesRefused(eng: Engine, vars: map<string, string>)
    requires "BIGQUERY_DATASET" !in vars || "BIGQUERY_TABLE" !in vars
    ensures !Configure(eng, vars).Start?
  {
  }

  /** With ETL_CHUNK_SIZE unset, the chunk size is the parse of "5000". */
  lemma DefaultChunkSizeUsed(eng: Engine, vars: map<string, string>)
    requires "ETL_CHUNK_SIZE" !in vars && eng.parseInt("5000") == Some(DefaultChunkSize)
    ensures Configure(eng, vars).Start? ==> Configure(eng, vars).config.chunkSize == DefaultChunkSize
    ensures Configure(eng, vars) != BadChunkSize
  {
  }

  /**
   * `main`: the exit status is 1 when the configuration is refused and
   * otherwise 0 exactly when `run` succeeds.  The database URL itself is
   * what `env.postgres` connects with.
   */
  method Entry(eng: Engine, vars: map<string, string>, env: Environment, table: Chunks.Table) returns (status: int)
    modifies table
    ensures !Configure(eng, vars).Start? ==> status == 1 && table.rows == old(table.rows) && table.writes == old(table.writes)
    ensures Configure(eng, vars).Start? ==>
      var c := Configure(eng, vars).config;
      status == (if FirstFailure(eng, env, SourceTable(c.projectId, c.dataset, c.table), c.chunkSize) == None then 0 else 1)
  {
    var launch := Configure(eng, vars);
    if !launch.Start? {
      return 1;
    }
    var c := launch.config;
    var pipeline := new ZoneamentoSpEtl(c.projectId, c.dataset, c.table, c.chunkSize, table);
    var ok := pipeline.Run(eng, env);
    status := if ok then 0 else 1;
  }
}
