/** The transmission-line endpoints (app/api/v1/endpoints/linhas.py). */
module Linhas {
  import opened Wrappers
  import opened Values
  import opened Foreign
  import opened Text
  import opened Sql
  import opened Api
  import opened GeoUtils
  import Like
  import Security

  /** A row of geo.linhas_transmissao (app/models/linha_transmissao.py); `tensao_kv` is NOT NULL. */
  datatype Linha = Linha(
    id: int,
    nome: Option<string>,
    codigo: Option<string>,
    tensaoKv: real,
    extensaoKm: Option<real>,
    operador: Option<string>,
    origem: Option<string>,
    destino: Option<string>,
    status: Option<string>,
    geometry: Geometry,
    createdAt: Option<Timestamp>,
    updatedAt: Option<Timestamp>,
    dataSource: Option<string>)

  /** Reading a column by its database name. */
  function Column(l: Linha, name: string): Value {
    if name == "id" then Int(l.id)
    else if name == "nome" then OptText(l.nome)
    else if name == "codigo" then OptText(l.codigo)
    else if name == "tensao_kv" then Num(l.tensaoKv)
    else if name == "extensao_km" then OptNum(l.extensaoKm)
    else if name == "operador" then OptText(l.operador)
    else if name == "origem" then OptText(l.origem)
    else if name == "destino" then OptText(l.destino)
    else if name == "status" then OptText(l.status)
    else if name == "geometry" then Geo(l.geometry)
    else if name == "created_at" then OptTime(l.createdAt)
    else if name == "updated_at" then OptTime(l.updatedAt)
    else if name == "data_source" then OptText(l.dataSource)
    else Null
  }

  /** The columns both handlers select; unlike the substations, `created_at` and `data_source` are kept. */
  const SelectedColumns: seq<string> :=
    ["id", "nome", "codigo", "tensao_kv", "extensao_km", "operador", "origem", "destino", "status", "created_at", "data_source"]

  const BadBboxDetail := "Formato de bbox inválido"
  const NotFoundDetail := "Linha não encontrada"
  const ListErrorDetail := "Erro ao buscar linhas: "
  const ByIdErrorDetail := "Erro ao buscar linha: "

  /** The query parameters of `get_linhas`. */
  datatype ListRequest = ListRequest(
    bbox: Option<string>,
    tensaoMin: Option<real>,
    tensaoMax: Option<real>,
    operador: Option<string>,
    origem: Option<string>,
    destino: Option<string>,
    skip: nat,
    limit: nat,
    simplify: bool)

  function Output(simplify: bool, tolerance: real): GeometryOutput {
    if simplify then AsSimplifiedGeoJson(tolerance) else AsGeoJson
  }

  /** Case-insensitive containment of a given parameter in a nullable text column. */
  predicate TextFilter(param: Option<string>, column: Option<string>) {
    Given(param) ==> column.Some? && Like.ILike(column.value, Like.Contains(param.value))
  }

  /** Which lines a request selects, stated on the typed row. */
  predicate Matches(eng: Engine, box: Option<Box>, req: ListRequest, l: Linha) {
    && (box.Some? ==> eng.intersects(l.geometry, box.value))
    && (req.tensaoMin.Some? ==> l.tensaoKv >= req.tensaoMin.value)
    && (req.tensaoMax.Some? ==> l.tensaoKv <= req.tensaoMax.value)
    && TextFilter(req.operador, l.operador)
    && TextFilter(req.origem, l.origem)
    && TextFilter(req.destino, l.destino)
  }

  /** The box a request filters by: its parsed `bbox`, when one is given. */
  function RequestBox(eng: Engine, req: ListRequest): Option<Box> {
    if Given(req.bbox) then Security.ParseBbox(eng, req.bbox.value) else None
  }

  /** The rows a listing is built from: the matching rows, `skip` dropped, at most `limit` kept. */
  function Selected(eng: Engine, box: Option<Box>, req: ListRequest, rows: seq<Linha>): seq<Linha> {
    Page(Filter(rows, l => Matches(eng, box, req, l)), req.skip, Some(req.limit))
  }

  /** The outcome `get_linhas` computes: a bbox that does not parse is a 400, whatever the table. */
  function ListResponse(eng: Engine, tolerance: real, table: Table<Linha>, req: ListRequest): Response<Listing> {
    if Given(req.bbox) && Security.ParseBbox(eng, req.bbox.value).None? then BadRequest(BadBboxDetail)
    else if table.Failing? then InternalError(ListErrorDetail)
    else
      var page := Selected(eng, RequestBox(eng, req), req, table.rows);
      match EndpointFeatures(eng, ProjectAll(eng, Column, SelectedColumns, Output(req.simplify, tolerance), page))
      case None => InternalError(ListErrorDetail)
      case Some(features) => Ok(Listing("FeatureCollection", features, None))
  }

  function BoxConds(box: Option<Box>): seq<Cond> {
    if box.Some? then [Intersects(box.value)] else []
  }

  /** The attribute conditions the handler adds after the bbox, in order. */
  function AttributeConds(conds: seq<Cond>, req: ListRequest): seq<Cond> {
    var c2 := AddIf(conds, req.tensaoMin.Some?, AtLeast("tensao_kv", req.tensaoMin.GetOr(0.0)));
    var c3 := AddIf(c2, req.tensaoMax.Some?, AtMost("tensao_kv", req.tensaoMax.GetOr(0.0)));
    var c4 := AddIf(c3, Given(req.operador), ILike("operador", Like.Contains(req.operador.GetOr(""))));
    var c5 := AddIf(c4, Given(req.origem), ILike("origem", Like.Contains(req.origem.GetOr(""))));
    AddIf(c5, Given(req.destino), ILike("destino", Like.Contains(req.destino.GetOr(""))))
  }

  function Conds(box: Option<Box>, req: ListRequest): seq<Cond> {
    AttributeConds(BoxConds(box), req)
  }

  lemma HoldsText(eng: Engine, k: string, p: string, l: Linha)
    requires k == "operador" || k == "origem" || k == "destino"
    ensures var c := if k == "operador" then l.operador else if k == "origem" then l.origem else l.destino;
            Holds(eng, Column, ILike(k, p), l) <==> c.Some? && Like.ILike(c.value, p)
  {
    assert Column(l, k) == OptText(if k == "operador" then l.operador else if k == "origem" then l.origem else l.destino);
  }

  lemma HoldsTension(eng: Engine, b: real, l: Linha)
    ensures Holds(eng, Column, AtLeast("tensao_kv", b), l) <==> l.tensaoKv >= b
    ensures Holds(eng, Column, AtMost("tensao_kv", b), l) <==> l.tensaoKv <= b
  {
    assert Column(l, "tensao_kv") == Num(l.tensaoKv);
  }

  lemma HoldsBox(eng: Engine, b: Box, l: Linha)
    ensures Holds(eng, Column, Intersects(b), l) <==> eng.intersects(l.geometry, b)
  {
    assert Column(l, "geometry") == Geo(l.geometry);
  }

  lemma CondsMeanMatches(eng: Engine, box: Option<Box>, req: ListRequest, l: Linha)
    ensures AllHold(eng, Column, Conds(box, req), l) <==> Matches(eng, box, req, l)
  {
    var c1 := BoxConds(box);
    var c2 := AddIf(c1, req.tensaoMin.Some?, AtLeast("tensao_kv", req.tensaoMin.GetOr(0.0)));
    var c3 := AddIf(c2, req.tensaoMax.Some?, AtMost("tensao_kv", req.tensaoMax.GetOr(0.0)));
    var c4 := AddIf(c3, Given(req.operador), ILike("operador", Like.Contains(req.operador.GetOr(""))));
    var c5 := AddIf(c4, Given(req.origem), ILike("origem", Like.Contains(req.origem.GetOr(""))));
    AllHoldAddIf(eng, Column, c5, Given(req.destino), ILike("destino", Like.Contains(req.destino.GetOr(""))), l);
    AllHoldAddIf(eng, Column, c4, Given(req.origem), ILike("origem", Like.Contains(req.origem.GetOr(""))), l);
    AllHoldAddIf(eng, Column, c3, Given(req.operador), ILike("operador", Like.Contains(req.operador.GetOr(""))), l);
    AllHoldAddIf(eng, Column, c2, req.tensaoMax.Some?, AtMost("tensao_kv", req.tensaoMax.GetOr(0.0)), l);
    AllHoldAddIf(eng, Column, c1, req.tensaoMin.Some?, AtLeast("tensao_kv", req.tensaoMin.GetOr(0.0)), l);
    AllHoldNone(eng, Column, l);
    if box.Some? {
      AllHoldOne(eng, Column, Intersects(box.value), l);
      HoldsBox(eng, box.value, l);
    }
    HoldsTension(eng, req.tensaoMin.GetOr(0.0), l);
    HoldsTension(eng, req.tensaoMax.GetOr(0.0), l);
    HoldsText(eng, "operador", Like.Contains(req.operador.GetOr("")), l);
    HoldsText(eng, "origem", Like.Contains(req.origem.GetOr("")), l);
    HoldsText(eng, "destino", Like.Contains(req.destino.GetOr("")), l);
  }

  /** The filter steps of `get_linhas` after the bbox, each rebinding the query. */
  method AddAttributeFilters(query: Select, req: ListRequest) returns (q: Select)
    ensures q == query.(conds := AttributeConds(query.conds, req))
  {
    q := query;
    if req.tensaoMin.Some? {
      q := q.Where(AtLeast("tensao_kv", req.tensaoMin.value));
    }
    if req.tensaoMax.Some? {
      q := q.Where(AtMost("tensao_kv", req.tensaoMax.value));
    }
    if Given(req.operador) {
      q := q.Where(ILike("operador", Like.Contains(req.operador.value)));
    }
    if Given(req.origem) {
      q := q.Where(ILike("origem", Like.Contains(req.origem.value)));
    }
    if Given(req.destino) {
      q := q.Where(ILike("destino", Like.Contains(req.destino.value)));
    }
  }

  lemma ExecuteSelects(eng: Engine, tolerance: real, rows: seq<Linha>, req: ListRequest, box: Option<Box>, query: Select)
    requires query == NewSelect(SelectedColumns, Output(req.simplify, tolerance)).(conds := Conds(box, req)).OffsetLimit(req.skip, req.limit)
    ensures Execute(eng, Column, query, rows)
         == ProjectAll(eng, Column, SelectedColumns, Output(req.simplify, tolerance), Selected(eng, box, req, rows))
  {
    forall l | l in rows ensures AllHold(eng, Column, query.conds, l) <==> Matches(eng, box, req, l) {
      CondsMeanMatches(eng, box, req, l);
    }
    ExecuteAsFilter(eng, Column, query, rows, l => Matches(eng, box, req, l));
  }

  lemma ListResponseExecuted(eng: Engine, tolerance: real, rows: seq<Linha>, req: ListRequest, box: Option<Box>, query: Select)
    requires Given(req.bbox) ==> box.Some? && box == Security.ParseBbox(eng, req.bbox.value)
    requires !Given(req.bbox) ==> box == None
    requires query == NewSelect(SelectedColumns, Output(req.simplify, tolerance)).(conds := Conds(box, req)).OffsetLimit(req.skip, req.limit)
    ensures ListResponse(eng, tolerance, Available(rows), req)
         == match EndpointFeatures(eng, Execute(eng, Column, query, rows))
            case None => InternalError(ListErrorDetail)
            case Some(features) => Ok(Listing("FeatureCollection", features, None))
  {
    ExecuteSelects(eng, tolerance, rows, req, box, query);
  }

  /** `get_linhas`: build the query filter by filter, run it, convert the rows. */
  method GetLinhas(eng: Engine, tolerance: real, table: Table<Linha>, req: ListRequest)
    returns (r: Response<Listing>)
    ensures r == ListResponse(eng, tolerance, table, req)
  {
    var query := NewSelect(SelectedColumns, Output(req.simplify, tolerance));
    var box: Option<Box> := None;
    if Given(req.bbox) {
      box := Security.ParseBbox(eng, req.bbox.value);
      if box.None? {
        return BadRequest(BadBboxDetail);
      }
      query := query.Where(Intersects(box.value));
    }
    assert query.conds == BoxConds(box);
    query := AddAttributeFilters(query, req);
    query := query.OffsetLimit(req.skip, req.limit);
    if table.Failing? {
      return InternalError(ListErrorDetail);
    }
    ListResponseExecuted(eng, tolerance, table.rows, req, box, query);
    var rows := Execute(eng, Column, query, table.rows);
    var features := RowsToFeatures(eng, rows);
    if features.None? {
      return InternalError(ListErrorDetail);
    }
    r := Ok(Listing("FeatureCollection", features.value, None));
  }

  /** The outcome `get_linha_by_id` computes: the first row with that id, unsimplified. */
  function ByIdResponse(eng: Engine, table: Table<Linha>, id: int): Response<Feature> {
    if table.Failing? then InternalError(ByIdErrorDetail)
    else
      var hits := Filter(table.rows, (l: Linha) => l.id == id);
      if hits == [] then NotFound(NotFoundDetail)
      else match EndpointFeature(eng, ProjectRow(eng, Column, SelectedColumns, AsGeoJson, hits[0]))
        case None => InternalError(ByIdErrorDetail)
        case Some(f) => Ok(f)
  }

  method GetLinhaById(eng: Engine, table: Table<Linha>, id: int) returns (r: Response<Feature>)
    ensures r == ByIdResponse(eng, table, id)
  {
    var query := NewSelect(SelectedColumns, AsGeoJson).Where(EqualsInt("id", id));
    if table.Failing? {
      return InternalError(ByIdErrorDetail);
    }
    assert query.conds == [EqualsInt("id", id)];
    forall l | l in table.rows ensures AllHold(eng, Column, query.conds, l) <==> l.id == id {
      AllHoldOne(eng, Column, EqualsInt("id", id), l);
    }
    ExecuteAsFilter(eng, Column, query, table.rows, (l: Linha) => l.id == id);
    var rows := Execute(eng, Column, query, table.rows);
    if rows == [] {
      return NotFound(NotFoundDetail);
    }
    var f := RowToEndpointFeature(eng, rows[0]);
    if f.None? {
      return InternalError(ByIdErrorDetail);
    }
    r := Ok(f.value);
  }

  /**
   * A successful listing holds one feature per selected row, in order, whose
   * properties are the selected columns with timestamps in ISO form.
   */
  lemma ListingContents(eng: Engine, tolerance: real, rows: seq<Linha>, req: ListRequest)
    requires ListResponse(eng, tolerance, Available(rows), req).Ok?
    ensures var body := ListResponse(eng, tolerance, Available(rows), req).body;
            var page := Selected(eng, RequestBox(eng, req), req, rows);
            && body.kind == "FeatureCollection" && body.metadata == None
            && |body.features| == |page| <= req.limit
            && forall i :: 0 <= i < |page| ==>
                 && Names(body.features[i].properties) == SelectedColumns
                 && body.features[i].properties[9] == Field("created_at", ProjectValue(eng, OptTime(page[i].createdAt)))
                 && forall j :: 0 <= j < |SelectedColumns| ==>
                      body.features[i].properties[j] == Field(SelectedColumns[j], ProjectValue(eng, Column(page[i], SelectedColumns[j])))
  {
    var page := Selected(eng, RequestBox(eng, req), req, rows);
    ProjectedFeatures(eng, Column, SelectedColumns, Output(req.simplify, tolerance), page);
  }

  /** The bbox is only parsed here, never range-checked: any four numbers are accepted as a box. */
  lemma BboxOnlyParsed(eng: Engine, tolerance: real, table: Table<Linha>, req: ListRequest)
    requires Given(req.bbox)
    ensures ListResponse(eng, tolerance, table, req).BadRequest? <==> Security.ParseBbox(eng, req.bbox.value).None?
  {
  }

  /** Voltage bounds are inclusive and apply even when 0. */
  lemma TensionBounds(eng: Engine, req: ListRequest, l: Linha, lo: real, hi: real)
    requires req.tensaoMin == Some(lo) && req.tensaoMax == Some(hi)
    requires !Given(req.operador) && !Given(req.origem) && !Given(req.destino)
    ensures Matches(eng, None, req, l) <==> lo <= l.tensaoKv <= hi
  {
  }

  /** `operador`, `origem` and `destino` select by case-insensitive substring, for input without `%`, `_` or `\`. */
  lemma SubstringFilter(param: Option<string>, column: Option<string>)
    requires Given(param) && Like.WildcardFree(param.value)
    ensures TextFilter(param, column) <==> column.Some? && IsSubstring(Lower(param.value), Lower(column.value))
  {
    if column.Some? {
      Like.ILikeContains(column.value, param.value);
    }
  }

  /** By id: 404 exactly when no row has the id; otherwise the first such row, unsimplified. */
  lemma ByIdContents(eng: Engine, rows: seq<Linha>, id: int)
    ensures ByIdResponse(eng, Available(rows), id).NotFound? <==> forall l :: l in rows ==> l.id != id
    ensures ByIdResponse(eng, Available(rows), id).Ok? ==>
      var hit := Filter(rows, (l: Linha) => l.id == id)[0];
      var f := ByIdResponse(eng, Available(rows), id).body;
      var text := eng.asGeoJson(hit.geometry);
      && hit in rows && hit.id == id
      && Names(f.properties) == SelectedColumns
      && f.geometry == (if text != "" then eng.parseJson(text) else None)
  {
    var hits := Filter(rows, (l: Linha) => l.id == id);
    if hits == [] {
      forall l | l in rows ensures l.id != id {
        if l.id == id {
          FilterKeeps(rows, (l: Linha) => l.id == id, l);
        }
      }
    } else {
      assert hits[0] in hits;
      ProjectedRowFeature(eng, Column, SelectedColumns, AsGeoJson, hits[0]);
    }
  }
}
