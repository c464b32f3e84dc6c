/** The substations endpoints (app/api/v1/endpoints/subestacoes.py). */
module Subestacoes {
  import opened Wrappers
  import opened Values
  import opened Foreign
  import opened Text
  import opened Sql
  import opened Api
  import opened GeoUtils
  import Like
  import Security

  /** A row of geo.subestacoes (app/models/subestacao.py). */
  datatype Subestacao = Subestacao(
    id: int,
    nome: string,
    codigo: Option<string>,
    tensaoKv: Option<real>,
    tipo: Option<string>,
    operador: Option<string>,
    municipio: Option<string>,
    uf: Option<string>,
    capacidadeMva: Option<real>,
    status: Option<string>,
    geometry: Geometry,
    createdAt: Option<Timestamp>,
    updatedAt: Option<Timestamp>,
    dataSource: Option<string>)

  /** Reading a column by its database name. */
  function Column(s: Subestacao, name: string): Value {
    if name == "id" then Int(s.id)
    else if name == "nome" then Text(s.nome)
    else if name == "codigo" then OptText(s.codigo)
    else if name == "tensao_kv" then OptNum(s.tensaoKv)
    else if name == "tipo" then OptText(s.tipo)
    else if name == "operador" then OptText(s.operador)
    else if name == "municipio" then OptText(s.municipio)
    else if name == "uf" then OptText(s.uf)
    else if name == "capacidade_mva" then OptNum(s.capacidadeMva)
    else if name == "status" then OptText(s.status)
    else if name == "geometry" then Geo(s.geometry)
    else if name == "created_at" then OptTime(s.createdAt)
    else if name == "updated_at" then OptTime(s.updatedAt)
    else if name == "data_source" then OptText(s.dataSource)
    else Null
  }

  /** The columns both handlers select: everything except the metadata columns. */
  const SelectedColumns: seq<string> :=
    ["id", "nome", "codigo", "tensao_kv", "tipo", "operador", "municipio", "uf", "capacidade_mva", "status"]

  const BadBboxDetail := "Bounding box inválido ou muito grande"
  const NotFoundDetail := "Subestação não encontrada"
  const ListErrorDetail := "Erro ao buscar subestações: "
  const ByIdErrorDetail := "Erro ao buscar subestação: "

  /** The query parameters of `get_subestacoes`. */
  datatype ListRequest = ListRequest(
    bbox: Option<string>,
    uf: Option<string>,
    municipio: Option<string>,
    tensaoMin: Option<real>,
    tensaoMax: Option<real>,
    operador: Option<string>,
    skip: nat,
    limit: nat,
    simplify: bool)

  function Output(simplify: bool, tolerance: real): GeometryOutput {
    if simplify then AsSimplifiedGeoJson(tolerance) else AsGeoJson
  }

  /** Which substations a request selects, stated on the typed row; a NULL column fails its filter. */
  predicate Matches(eng: Engine, box: Option<Box>, req: ListRequest, s: Subestacao) {
    && (box.Some? ==> eng.intersects(s.geometry, box.value))
    && (Given(req.uf) ==> s.uf == Some(Upper(req.uf.value)))
    && (Given(req.municipio) ==> s.municipio.Some? && Like.ILike(s.municipio.value, Like.Contains(req.municipio.value)))
    && (req.tensaoMin.Some? ==> s.tensaoKv.Some? && s.tensaoKv.value >= req.tensaoMin.value)
    && (req.tensaoMax.Some? ==> s.tensaoKv.Some? && s.tensaoKv.value <= req.tensaoMax.value)
    && (Given(req.operador) ==> s.operador.Some? && Like.ILike(s.operador.value, Like.Contains(req.operador.value)))
  }

  /** The box a request filters by: its parsed `bbox`, when one is given. */
  function RequestBox(eng: Engine, req: ListRequest): Option<Box> {
    if Given(req.bbox) then Security.ParseBbox(eng, req.bbox.value) else None
  }

  /** The rows a listing is built from: the matching rows, `skip` dropped, at most `limit` kept. */
  function Selected(eng: Engine, box: Option<Box>, req: ListRequest, rows: seq<Subestacao>): seq<Subestacao> {
    Page(Filter(rows, s => Matches(eng, box, req, s)), req.skip, Some(req.limit))
  }

  /** The outcome `get_subestacoes` computes from the table and the request. */
  function ListResponse(eng: Engine, tolerance: real, table: Table<Subestacao>, req: ListRequest): Response<Listing> {
    if Given(req.bbox) && !Security.ValidateBbox(eng, req.bbox.value) then BadRequest(BadBboxDetail)
    else if table.Failing? then InternalError(ListErrorDetail)
    else
      var page := Selected(eng, RequestBox(eng, req), req, table.rows);
      match EndpointFeatures(eng, ProjectAll(eng, Column, SelectedColumns, Output(req.simplify, tolerance), page))
      case None => InternalError(ListErrorDetail)
      case Some(features) => Ok(Listing("FeatureCollection", features, None))
  }

  /** The bbox condition, when there is a box. */
  function BoxConds(box: Option<Box>): seq<Cond> {
    if box.Some? then [Intersects(box.value)] else []
  }

  /** The attribute conditions the handler adds after the bbox, in order. */
  function AttributeConds(conds: seq<Cond>, req: ListRequest): seq<Cond> {
    var c2 := AddIf(conds, Given(req.uf), EqualsText("uf", Upper(req.uf.GetOr(""))));
    var c3 := AddIf(c2, Given(req.municipio), ILike("municipio", Like.Contains(req.municipio.GetOr(""))));
    var c4 := AddIf(c3, req.tensaoMin.Some?, AtLeast("tensao_kv", req.tensaoMin.GetOr(0.0)));
    var c5 := AddIf(c4, req.tensaoMax.Some?, AtMost("tensao_kv", req.tensaoMax.GetOr(0.0)));
    AddIf(c5, Given(req.operador), ILike("operador", Like.Contains(req.operador.GetOr(""))))
  }

  function Conds(box: Option<Box>, req: ListRequest): seq<Cond> {
    AttributeConds(BoxConds(box), req)
  }

  lemma HoldsUf(eng: Engine, u: string, s: Subestacao)
    ensures Holds(eng, Column, EqualsText("uf", u), s) <==> s.uf == Some(u)
  {
    assert Column(s, "uf") == OptText(s.uf);
  }

  lemma HoldsText(eng: Engine, k: string, p: string, s: Subestacao)
    requires k == "municipio" || k == "operador"
    ensures Holds(eng, Column, ILike(k, p), s)
        <==> (if k == "municipio" then s.municipio else s.operador).Some?
             && Like.ILike((if k == "municipio" then s.municipio else s.operador).value, p)
  {
    assert Column(s, k) == OptText(if k == "municipio" then s.municipio else s.operador);
  }

  lemma HoldsTension(eng: Engine, b: real, s: Subestacao)
    ensures Holds(eng, Column, AtLeast("tensao_kv", b), s) <==> s.tensaoKv.Some? && s.tensaoKv.value >= b
    ensures Holds(eng, Column, AtMost("tensao_kv", b), s) <==> s.tensaoKv.Some? && s.tensaoKv.value <= b
  {
    assert Column(s, "tensao_kv") == OptNum(s.tensaoKv);
  }

  lemma HoldsBox(eng: Engine, b: Box, s: Subestacao)
    ensures Holds(eng, Column, Intersects(b), s) <==> eng.intersects(s.geometry, b)
  {
    assert Column(s, "geometry") == Geo(s.geometry);
  }

  lemma CondsMeanMatches(eng: Engine, box: Option<Box>, req: ListRequest, s: Subestacao)
    ensures AllHold(eng, Column, Conds(box, req), s) <==> Matches(eng, box, req, s)
  {
    var c1 := BoxConds(box);
    var c2 := AddIf(c1, Given(req.uf), EqualsText("uf", Upper(req.uf.GetOr(""))));
    var c3 := AddIf(c2, Given(req.municipio), ILike("municipio", Like.Contains(req.municipio.GetOr(""))));
    var c4 := AddIf(c3, req.tensaoMin.Some?, AtLeast("tensao_kv", req.tensaoMin.GetOr(0.0)));
    var c5 := AddIf(c4, req.tensaoMax.Some?, AtMost("tensao_kv", req.tensaoMax.GetOr(0.0)));
    AllHoldAddIf(eng, Column, c5, Given(req.operador), ILike("operador", Like.Contains(req.operador.GetOr(""))), s);
    AllHoldAddIf(eng, Column, c4, req.tensaoMax.Some?, AtMost("tensao_kv", req.tensaoMax.GetOr(0.0)), s);
    AllHoldAddIf(eng, Column, c3, req.tensaoMin.Some?, AtLeast("tensao_kv", req.tensaoMin.GetOr(0.0)), s);
    AllHoldAddIf(eng, Column, c2, Given(req.municipio), ILike("municipio", Like.Contains(req.municipio.GetOr(""))), s);
    AllHoldAddIf(eng, Column, c1, Given(req.uf), EqualsText("uf", Upper(req.uf.GetOr(""))), s);
    AllHoldNone(eng, Column, s);
    if box.Some? {
      AllHoldOne(eng, Column, Intersects(box.value), s);
      HoldsBox(eng, box.value, s);
    }
    HoldsUf(eng, Upper(req.uf.GetOr("")), s);
    HoldsText(eng, "municipio", Like.Contains(req.municipio.GetOr("")), s);
    HoldsText(eng, "operador", Like.Contains(req.operador.GetOr("")), s);
    HoldsTension(eng, req.tensaoMin.GetOr(0.0), s);
    HoldsTension(eng, req.tensaoMax.GetOr(0.0), s);
  }

  /** The filter steps of `get_subestacoes` after the bbox, each rebinding the query. */
  method AddAttributeFilters(query: Select, req: ListRequest) returns (q: Select)
    ensures q == query.(conds := AttributeConds(query.conds, req))
  {
    q := query;
    if Given(req.uf) {
      q := q.Where(EqualsText("uf", Upper(req.uf.value)));
    }
    if Given(req.municipio) {
      q := q.Where(ILike("municipio", Like.Contains(req.municipio.value)));
    }
    if req.tensaoMin.Some? {
      q := q.Where(AtLeast("tensao_kv", req.tensaoMin.value));
    }
    if req.tensaoMax.Some? {
      q := q.Where(AtMost("tensao_kv", req.tensaoMax.value));
    }
    if Given(req.operador) {
      q := q.Where(ILike("operador", Like.Contains(req.operador.value)));
    }
  }

  /** Running the built query on an available table gives the rows the request selects. */
  lemma ExecuteSelects(eng: Engine, tolerance: real, rows: seq<Subestacao>, req: ListRequest, box: Option<Box>, query: Select)
    requires query == NewSelect(SelectedColumns, Output(req.simplify, tolerance)).(conds := Conds(box, req)).OffsetLimit(req.skip, req.limit)
    ensures Execute(eng, Column, query, rows)
         == ProjectAll(eng, Column, SelectedColumns, Output(req.simplify, tolerance), Selected(eng, box, req, rows))
  {
    forall s | s in rows ensures AllHold(eng, Column, query.conds, s) <==> Matches(eng, box, req, s) {
      CondsMeanMatches(eng, box, req, s);
    }
    ExecuteAsFilter(eng, Column, query, rows, s => Matches(eng, box, req, s));
  }

  /** The response on an available table, in terms of the rows the built query returns. */
  function ListingOf(eng: Engine, rows: seq<Record>): Response<Listing> {
    match EndpointFeatures(eng, rows)
    case None => InternalError(ListErrorDetail)
    case Some(features) => Ok(Listing("FeatureCollection", features, None))
  }

  lemma ListResponseExecuted(eng: Engine, tolerance: real, rows: seq<Subestacao>, req: ListRequest, box: Option<Box>, query: Select)
    requires Given(req.bbox) ==> Security.ValidateBbox(eng, req.bbox.value) && box == Security.ParseBbox(eng, req.bbox.value)
    requires !Given(req.bbox) ==> box == None
    requires query == NewSelect(SelectedColumns, Output(req.simplify, tolerance)).(conds := Conds(box, req)).OffsetLimit(req.skip, req.limit)
    ensures ListResponse(eng, tolerance, Available(rows), req) == ListingOf(eng, Execute(eng, Column, query, rows))
  {
    ExecuteSelects(eng, tolerance, rows, req, box, query);
  }

  /** `get_subestacoes`: build the query filter by filter, run it, convert the rows. */
  method GetSubestacoes(eng: Engine, tolerance: real, table: Table<Subestacao>, req: ListRequest)
    returns (r: Response<Listing>)
    ensures r == ListResponse(eng, tolerance, table, req)
  {
    var query := NewSelect(SelectedColumns, Output(req.simplify, tolerance));
    var box: Option<Box> := None;
    if Given(req.bbox) {
      if !Security.ValidateBbox(eng, req.bbox.value) {
        return BadRequest(BadBboxDetail);
      }
      Security.ValidatedBboxParses(eng, req.bbox.value);
      box := Security.ParseBbox(eng, req.bbox.value);
      query := query.Where(Intersects(box.value));
    }
    assert query.conds == BoxConds(box);
    query := AddAttributeFilters(query, req);
    query := query.OffsetLimit(req.skip, req.limit);
    if table.Failing? {
      return InternalError(ListErrorDetail);
    }
    ListResponseExecuted(eng, tolerance, table.rows, req, box, query);
    var rows := Execute(eng, Column, query, table.rows);
    var features := RowsToFeatures(eng, rows);
    if features.None? {
      return InternalError(ListErrorDetail);
    }
    r := Ok(Listing("FeatureCollection", features.value, None));
  }

  /** The outcome `get_subestacao_by_id` computes: the first row with that id, unsimplified. */
  function ByIdResponse(eng: Engine, table: Table<Subestacao>, id: int): Response<Feature> {
    if table.Failing? then InternalError(ByIdErrorDetail)
    else
      var hits := Filter(table.rows, (s: Subestacao) => s.id == id);
      if hits == [] then NotFound(NotFoundDetail)
      else match EndpointFeature(eng, ProjectRow(eng, Column, SelectedColumns, AsGeoJson, hits[0]))
        case None => InternalError(ByIdErrorDetail)
        case Some(f) => Ok(f)
  }

  method GetSubestacaoById(eng: Engine, table: Table<Subestacao>, id: int) returns (r: Response<Feature>)
    ensures r == ByIdResponse(eng, table, id)
  {
    var query := NewSelect(SelectedColumns, AsGeoJson).Where(EqualsInt("id", id));
    if table.Failing? {
      return InternalError(ByIdErrorDetail);
    }
    assert query.conds == [EqualsInt("id", id)];
    forall s | s in table.rows ensures AllHold(eng, Column, query.conds, s) <==> s.id == id {
      AllHoldOne(eng, Column, EqualsInt("id", id), s);
    }
    ExecuteAsFilter(eng, Column, query, table.rows, (s: Subestacao) => s.id == id);
    var rows := Execute(eng, Column, query, table.rows);
    if rows == [] {
      return NotFound(NotFoundDetail);
    }
    var f := RowToEndpointFeature(eng, rows[0]);
    if f.None? {
      return InternalError(ByIdErrorDetail);
    }
    r := Ok(f.value);
  }

  /**
   * A successful listing is a FeatureCollection without metadata holding one
   * feature per selected row, in order; each feature's properties are exactly
   * the selected columns of its row, so `created_at`, `updated_at` and
   * `data_source` never appear.
   */
  lemma ListingContents(eng: Engine, tolerance: real, rows: seq<Subestacao>, req: ListRequest)
    requires ListResponse(eng, tolerance, Available(rows), req).Ok?
    ensures var body := ListResponse(eng, tolerance, Available(rows), req).body;
            var page := Selected(eng, RequestBox(eng, req), req, rows);
            && body.kind == "FeatureCollection" && body.metadata == None
            && |body.features| == |page| <= req.limit
            && forall i :: 0 <= i < |page| ==>
                 && Names(body.features[i].properties) == SelectedColumns
                 && "created_at" !in Names(body.features[i].properties)
                 && "updated_at" !in Names(body.features[i].properties)
                 && "data_source" !in Names(body.features[i].properties)
                 && forall j :: 0 <= j < |SelectedColumns| ==>
                      body.features[i].properties[j] == Field(SelectedColumns[j], GeoUtils.ProjectValue(eng, Column(page[i], SelectedColumns[j])))
  {
    var page := Selected(eng, RequestBox(eng, req), req, rows);
    ProjectedFeatures(eng, Column, SelectedColumns, Output(req.simplify, tolerance), page);
    BookkeepingNotSelected();
  }

  /** The bookkeeping columns are not among the selected ones. */
  lemma BookkeepingNotSelected()
    ensures "created_at" !in SelectedColumns && "updated_at" !in SelectedColumns && "data_source" !in SelectedColumns
  {
  }

  /** `uf` selects by equality with the upper-cased parameter. */
  lemma UfFilter(eng: Engine, box: Option<Box>, req: ListRequest, s: Subestacao)
    requires Given(req.uf) && Matches(eng, box, req, s)
    ensures s.uf == Some(Upper(req.uf.value))
  {
  }

  /** `municipio` and `operador` select by case-insensitive substring, for input without `%`, `_` or `\`. */
  lemma SubstringFilters(eng: Engine, box: Option<Box>, req: ListRequest, s: Subestacao)
    requires Matches(eng, box, req, s)
    ensures Given(req.municipio) && Like.WildcardFree(req.municipio.value) ==>
      s.municipio.Some? && IsSubstring(Lower(req.municipio.value), Lower(s.municipio.value))
    ensures Given(req.operador) && Like.WildcardFree(req.operador.value) ==>
      s.operador.Some? && IsSubstring(Lower(req.operador.value), Lower(s.operador.value))
  {
    if Given(req.municipio) && Like.WildcardFree(req.municipio.value) {
      Like.ILikeContains(s.municipio.value, req.municipio.value);
    }
    if Given(req.operador) && Like.WildcardFree(req.operador.value) {
      Like.ILikeContains(s.operador.value, req.operador.value);
    }
  }

  /** Voltage bounds are inclusive and apply even when 0; a substation without a voltage fails either bound. */
  lemma TensionBounds(eng: Engine, box: Option<Box>, req: ListRequest, s: Subestacao, lo: real, hi: real)
    requires req.tensaoMin == Some(lo) && req.tensaoMax == Some(hi)
    requires box == None && !Given(req.uf) && !Given(req.municipio) && !Given(req.operador)
    ensures Matches(eng, box, req, s) <==> s.tensaoKv.Some? && lo <= s.tensaoKv.value <= hi
  {
  }

  /**
   * By id: 404 exactly when no row has the id; otherwise the first such row,
   * with the selected columns only and the unsimplified geometry.
   */
  lemma ByIdContents(eng: Engine, rows: seq<Subestacao>, id: int)
    ensures ByIdResponse(eng, Available(rows), id).NotFound? <==> forall s :: s in rows ==> s.id != id
    ensures ByIdResponse(eng, Available(rows), id).Ok? ==>
      var hit := Filter(rows, (s: Subestacao) => s.id == id)[0];
      var f := ByIdResponse(eng, Available(rows), id).body;
      var text := eng.asGeoJson(hit.geometry);
      && hit in rows && hit.id == id
      && Names(f.properties) == SelectedColumns
      && f.geometry == (if text != "" then eng.parseJson(text) else None)
  {
    var hits := Filter(rows, (s: Subestacao) => s.id == id);
    if hits == [] {
      forall s | s in rows ensures s.id != id {
        if s.id == id {
          FilterKeeps(rows, (s: Subestacao) => s.id == id, s);
        }
      }
    } else {
      assert hits[0] in hits;
      ProjectedRowFeature(eng, Column, SelectedColumns, AsGeoJson, hits[0]);
    }
  }
}
