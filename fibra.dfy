/** The fibre-optic endpoints (app/api/v1/endpoints/fibra.py). */
module Fibra {
  import opened Wrappers
  import opened Values
  import opened Foreign
  import opened Text
  import opened Sql
  import opened Api
  import opened GeoUtils
  import Like
  import Security

  /** A row of geo.fibra_optica (app/models/fibra_optica.py). */
  datatype Ponto = Ponto(
    id: int,
    operadora: Option<string>,
    tipo: Option<string>,
    tecnologia: Option<string>,
    municipio: Option<string>,
    uf: Option<string>,
    capacidadeGbps: Option<real>,
    status: Option<string>,
    geometry: Geometry,
    createdAt: Option<Timestamp>,
    updatedAt: Option<Timestamp>,
    dataSource: Option<string>)

  /** Reading a column by its database name. */
  function Column(p: Ponto, name: string): Value {
    if name == "id" then Int(p.id)
    else if name == "operadora" then OptText(p.operadora)
    else if name == "tipo" then OptText(p.tipo)
    else if name == "tecnologia" then OptText(p.tecnologia)
    else if name == "municipio" then OptText(p.municipio)
    else if name == "uf" then OptText(p.uf)
    else if name == "capacidade_gbps" then OptNum(p.capacidadeGbps)
    else if name == "status" then OptText(p.status)
    else if name == "geometry" then Geo(p.geometry)
    else if name == "created_at" then OptTime(p.createdAt)
    else if name == "updated_at" then OptTime(p.updatedAt)
    else if name == "data_source" then OptText(p.dataSource)
    else Null
  }

  /** The columns both handlers select; `updated_at` is the only one left out. */
  const SelectedColumns: seq<string> :=
    ["id", "operadora", "tipo", "tecnologia", "municipio", "uf", "capacidade_gbps", "status", "created_at", "data_source"]

  const BadBboxDetail := "Formato de bbox inválido"
  const NotFoundDetail := "Ponto de fibra não encontrado"
  const ErrorDetail := "Erro ao buscar fibra: "

  /** The query parameters of `get_fibra`. */
  datatype ListRequest = ListRequest(
    bbox: Option<string>,
    uf: Option<string>,
    municipio: Option<string>,
    operadora: Option<string>,
    tecnologia: Option<string>,
    capacidadeMin: Option<real>,
    skip: nat,
    limit: nat,
    simplify: bool)

  function Output(simplify: bool, tolerance: real): GeometryOutput {
    if simplify then AsSimplifiedGeoJson(tolerance) else AsGeoJson
  }

  /** Case-insensitive containment of a given parameter in a nullable text column. */
  predicate TextFilter(param: Option<string>, column: Option<string>) {
    Given(param) ==> column.Some? && Like.ILike(column.value, Like.Contains(param.value))
  }

  /** Which points a request selects, stated on the typed row. */
  predicate Matches(eng: Engine, box: Option<Box>, req: ListRequest, p: Ponto) {
    && (box.Some? ==> eng.intersects(p.geometry, box.value))
    && (Given(req.uf) ==> p.uf == Some(Upper(req.uf.value)))
    && TextFilter(req.municipio, p.municipio)
    && TextFilter(req.operadora, p.operadora)
    && TextFilter(req.tecnologia, p.tecnologia)
    && (req.capacidadeMin.Some? ==> p.capacidadeGbps.Some? && p.capacidadeGbps.value >= req.capacidadeMin.value)
  }

  function RequestBox(eng: Engine, req: ListRequest): Option<Box> {
    if Given(req.bbox) then Security.ParseBbox(eng, req.bbox.value) else None
  }

  /** The rows a listing is built from: the matching rows, `skip` dropped, at most `limit` kept. */
  function Selected(eng: Engine, box: Option<Box>, req: ListRequest, rows: seq<Ponto>): seq<Ponto> {
    Page(Filter(rows, p => Matches(eng, box, req, p)), req.skip, Some(req.limit))
  }

  /** The outcome `get_fibra` computes: a bbox that does not parse is a 400, whatever the table. */
  function ListResponse(eng: Engine, tolerance: real, table: Table<Ponto>, req: ListRequest): Response<Listing> {
    if Given(req.bbox) && Security.ParseBbox(eng, req.bbox.value).None? then BadRequest(BadBboxDetail)
    else if table.Failing? then InternalError(ErrorDetail)
    else
      var page := Selected(eng, RequestBox(eng, req), req, table.rows);
      match EndpointFeatures(eng, ProjectAll(eng, Column, SelectedColumns, Output(req.simplify, tolerance), page))
      case None => InternalError(ErrorDetail)
      case Some(features) => Ok(Listing("FeatureCollection", features, None))
  }

  function BoxConds(box: Option<Box>): seq<Cond> {
    if box.Some? then [Intersects(box.value)] else []
  }

  /** The attribute conditions the handler adds after the bbox, in order. */
  function AttributeConds(conds: seq<Cond>, req: ListRequest): seq<Cond> {
    var c2 := AddIf(conds, Given(req.uf), EqualsText("uf", Upper(req.uf.GetOr(""))));
    var c3 := AddIf(c2, Given(req.municipio), ILike("municipio", Like.Contains(req.municipio.GetOr(""))));
    var c4 := AddIf(c3, Given(req.operadora), ILike("operadora", Like.Contains(req.operadora.GetOr(""))));
    var c5 := AddIf(c4, Given(req.tecnologia), ILike("tecnologia", Like.Contains(req.tecnologia.GetOr(""))));
    AddIf(c5, req.capacidadeMin.Some?, AtLeast("capacidade_gbps", req.capacidadeMin.GetOr(0.0)))
  }

  function Conds(box: Option<Box>, req: ListRequest): seq<Cond> {
    AttributeConds(BoxConds(box), req)
  }

  /** The nullable text column a name reads. */
  function TextColumn(p: Ponto, k: string): Option<string>
    requires k == "municipio" || k == "operadora" || k == "tecnologia" || k == "uf"
  {
    if k == "municipio" then p.municipio
    else if k == "operadora" then p.operadora
    else if k == "tecnologia" then p.tecnologia
    else p.uf
  }

  lemma HoldsText(eng: Engine, k: string, s: string, p: Ponto)
    requires k == "municipio" || k == "operadora" || k == "tecnologia" || k == "uf"
    ensures Holds(eng, Column, ILike(k, s), p) <==> TextColumn(p, k).Some? && Like.ILike(TextColumn(p, k).value, s)
    ensures Holds(eng, Column, EqualsText(k, s), p) <==> TextColumn(p, k) == Some(s)
  {
    assert Column(p, k) == OptText(TextColumn(p, k));
  }

  lemma HoldsCapacity(eng: Engine, b: real, p: Ponto)
    ensures Holds(eng, Column, AtLeast("capacidade_gbps", b), p) <==> p.capacidadeGbps.Some? && p.capacidadeGbps.value >= b
  {
    assert Column(p, "capacidade_gbps") == OptNum(p.capacidadeGbps);
  }

  lemma HoldsBox(eng: Engine, b: Box, p: Ponto)
    ensures Holds(eng, Column, Intersects(b), p) <==> eng.intersects(p.geometry, b)
  {
    assert Column(p, "geometry") == Geo(p.geometry);
  }

  lemma CondsMeanMatches(eng: Engine, box: Option<Box>, req: ListRequest, p: Ponto)
    ensures AllHold(eng, Column, Conds(box, req), p) <==> Matches(eng, box, req, p)
  {
    var c1 := BoxConds(box);
    var c2 := AddIf(c1, Given(req.uf), EqualsText("uf", Upper(req.uf.GetOr(""))));
    var c3 := AddIf(c2, Given(req.municipio), ILike("municipio", Like.Contains(req.municipio.GetOr(""))));
    var c4 := AddIf(c3, Given(req.operadora), ILike("operadora", Like.Contains(req.operadora.GetOr(""))));
    var c5 := AddIf(c4, Given(req.tecnologia), ILike("tecnologia", Like.Contains(req.tecnologia.GetOr(""))));
    AllHoldAddIf(eng, Column, c5, req.capacidadeMin.Some?, AtLeast("capacidade_gbps", req.capacidadeMin.GetOr(0.0)), p);
    AllHoldAddIf(eng, Column, c4, Given(req.tecnologia), ILike("tecnologia", Like.Contains(req.tecnologia.GetOr(""))), p);
    AllHoldAddIf(eng, Column, c3, Given(req.operadora), ILike("operadora", Like.Contains(req.operadora.GetOr(""))), p);
    AllHoldAddIf(eng, Column, c2, Given(req.municipio), ILike("municipio", Like.Contains(req.municipio.GetOr(""))), p);
    AllHoldAddIf(eng, Column, c1, Given(req.uf), EqualsText("uf", Upper(req.uf.GetOr(""))), p);
    AllHoldNone(eng, Column, p);
    if box.Some? {
      AllHoldOne(eng, Column, Intersects(box.value), p);
      HoldsBox(eng, box.value, p);
    }
    HoldsText(eng, "uf", Upper(req.uf.GetOr("")), p);
    HoldsText(eng, "municipio", Like.Contains(req.municipio.GetOr("")), p);
    HoldsText(eng, "operadora", Like.Contains(req.operadora.GetOr("")), p);
    HoldsText(eng, "tecnologia", Like.Contains(req.tecnologia.GetOr("")), p);
    HoldsCapacity(eng, req.capacidadeMin.GetOr(0.0), p);
  }

  /** The filter steps of `get_fibra` after the bbox, each rebinding the query. */
  method AddAttributeFilters(query: Select, req: ListRequest) returns (q: Select)
    ensures q == query.(conds := AttributeConds(query.conds, req))
  {
    q := query;
    if Given(req.uf) {
      q := q.Where(EqualsText("uf", Upper(req.uf.value)));
    }
    if Given(req.municipio) {
      q := q.Where(ILike("municipio", Like.Contains(req.municipio.value)));
    }
    if Given(req.operadora) {
      q := q.Where(ILike("operadora", Like.Contains(req.operadora.value)));
    }
    if Given(req.tecnologia) {
      q := q.Where(ILike("tecnologia", Like.Contains(req.tecnologia.value)));
    }
    if req.capacidadeMin.Some? {
      q := q.Where(AtLeast("capacidade_gbps", req.capacidadeMin.value));
    }
  }

  lemma ExecuteSelects(eng: Engine, tolerance: real, rows: seq<Ponto>, req: ListRequest, box: Option<Box>, query: Select)
    requires query == NewSelect(SelectedColumns, Output(req.simplify, tolerance)).(conds := Conds(box, req)).OffsetLimit(req.skip, req.limit)
    ensures Execute(eng, Column, query, rows)
         == ProjectAll(eng, Column, SelectedColumns, Output(req.simplify, tolerance), Selected(eng, box, req, rows))
  {
    forall p | p in rows ensures AllHold(eng, Column, query.conds, p) <==> Matches(eng, box, req, p) {
      CondsMeanMatches(eng, box, req, p);
    }
    ExecuteAsFilter(eng, Column, query, rows, p => Matches(eng, box, req, p));
  }

  lemma ListResponseExecuted(eng: Engine, tolerance: real, rows: seq<Ponto>, req: ListRequest, box: Option<Box>, query: Select)
    requires Given(req.bbox) ==> box.Some? && box == Security.ParseBbox(eng, req.bbox.value)
    requires !Given(req.bbox) ==> box == None
    requires query == NewSelect(SelectedColumns, Output(req.simplify, tolerance)).(conds := Conds(box, req)).OffsetLimit(req.skip, req.limit)
    ensures ListResponse(eng, tolerance, Available(rows), req)
         == match EndpointFeatures(eng, Execute(eng, Column, query, rows))
            case None => InternalError(ErrorDetail)
            case Some(features) => Ok(Listing("FeatureCollection", features, None))
  {
    ExecuteSelects(eng, tolerance, rows, req, box, query);
  }

  /** `get_fibra`: build the query filter by filter, run it, convert the rows. */
  method GetFibra(eng: Engine, tolerance: real, table: Table<Ponto>, req: ListRequest)
    returns (r: Response<Listing>)
    ensures r == ListResponse(eng, tolerance, table, req)
  {
    var query := NewSelect(SelectedColumns, Output(req.simplify, tolerance));
    var box: Option<Box> := None;
    if Given(req.bbox) {
      box := Security.ParseBbox(eng, req.bbox.value);
      if box.None? {
        return BadRequest(BadBboxDetail);
      }
      query := query.Where(Intersects(box.value));
    }
    assert query.conds == BoxConds(box);
    query := AddAttributeFilters(query, req);
    query := query.OffsetLimit(req.skip, req.limit);
    if table.Failing? {
      return InternalError(ErrorDetail);
    }
    ListResponseExecuted(eng, tolerance, table.rows, req, box, query);
    var rows := Execute(eng, Column, query, table.rows);
    var features := RowsToFeatures(eng, rows);
    if features.None? {
      return InternalError(ErrorDetail);
    }
    r := Ok(Listing("FeatureCollection", features.value, None));
  }

  /** The outcome `get_fibra_by_id` computes: the first row with that id, unsimplified. */
  function ByIdResponse(eng: Engine, table: Table<Ponto>, id: int): Response<Feature> {
    if table.Failing? then InternalError(ErrorDetail)
    else
      var hits := Filter(table.rows, (p: Ponto) => p.id == id);
      if hits == [] then NotFound(NotFoundDetail)
      else match EndpointFeature(eng, ProjectRow(eng, Column, SelectedColumns, AsGeoJson, hits[0]))
        case None => InternalError(ErrorDetail)
        case Some(f) => Ok(f)
  }

  method GetFibraById(eng: Engine, table: Table<Ponto>, id: int) returns (r: Response<Feature>)
    ensures r == ByIdResponse(eng, table, id)
  {
    var query := NewSelect(SelectedColumns, AsGeoJson).Where(EqualsInt("id", id));
    if table.Failing? {
      return InternalError(ErrorDetail);
    }
    assert query.conds == [EqualsInt("id", id)];
    forall p | p in table.rows ensures AllHold(eng, Column, query.conds, p) <==> p.id == id {
      AllHoldOne(eng, Column, EqualsInt("id", id), p);
    }
    ExecuteAsFilter(eng, Column, query, table.rows, (p: Ponto) => p.id == id);
    var rows := Execute(eng, Column, query, table.rows);
    if rows == [] {
      return NotFound(NotFoundDetail);
    }
    var f := RowToEndpointFeature(eng, rows[0]);
    if f.None? {
      return InternalError(ErrorDetail);
    }
    r := Ok(f.value);
  }

  /**
   * A successful listing holds one feature per selected row, in order, whose
   * properties are the selected columns; `updated_at` never appears.
   */
  lemma ListingContents(eng: Engine, tolerance: real, rows: seq<Ponto>, req: ListRequest)
    requires ListResponse(eng, tolerance, Available(rows), req).Ok?
    ensures var body := ListResponse(eng, tolerance, Available(rows), req).body;
            var page := Selected(eng, RequestBox(eng, req), req, rows);
            && body.kind == "FeatureCollection" && body.metadata == None
            && |body.features| == |page| <= req.limit
            && forall i :: 0 <= i < |page| ==>
                 && Names(body.features[i].properties) == SelectedColumns
                 && "updated_at" !in Names(body.features[i].properties)
                 && forall j :: 0 <= j < |SelectedColumns| ==>
                      body.features[i].properties[j] == Field(SelectedColumns[j], ProjectValue(eng, Column(page[i], SelectedColumns[j])))
  {
    var page := Selected(eng, RequestBox(eng, req), req, rows);
    UnselectedColumns();
    ProjectedFeatures(eng, Column, SelectedColumns, Output(req.simplify, tolerance), page);
  }

  /** Neither `updated_at` nor `geometry` is among the selected columns. */
  lemma UnselectedColumns()
    ensures "updated_at" !in SelectedColumns && "geometry" !in SelectedColumns
  {
  }

  /** `uf` selects by equality with the upper-cased parameter; the other text filters by substring. */
  lemma TextFilters(eng: Engine, box: Option<Box>, req: ListRequest, p: Ponto)
    requires Matches(eng, box, req, p)
    ensures Given(req.uf) ==> p.uf == Some(Upper(req.uf.value))
    ensures Given(req.municipio) && Like.WildcardFree(req.municipio.value) ==>
      p.municipio.Some? && IsSubstring(Lower(req.municipio.value), Lower(p.municipio.value))
    ensures Given(req.operadora) && Like.WildcardFree(req.operadora.value) ==>
      p.operadora.Some? && IsSubstring(Lower(req.operadora.value), Lower(p.operadora.value))
    ensures Given(req.tecnologia) && Like.WildcardFree(req.tecnologia.value) ==>
      p.tecnologia.Some? && IsSubstring(Lower(req.tecnologia.value), Lower(p.tecnologia.value))
  {
    if Given(req.municipio) && Like.WildcardFree(req.municipio.value) {
      Like.ILikeContains(p.municipio.value, req.municipio.value);
    }
    if Given(req.operadora) && Like.WildcardFree(req.operadora.value) {
      Like.ILikeContains(p.operadora.value, req.operadora.value);
    }
    if Given(req.tecnologia) && Like.WildcardFree(req.tecnologia.value) {
      Like.ILikeContains(p.tecnologia.value, req.tecnologia.value);
    }
  }

  /** By id: 404 exactly when no row has the id; otherwise the first such row, unsimplified. */
  lemma ByIdContents(eng: Engine, rows: seq<Ponto>, id: int)
    ensures ByIdResponse(eng, Available(rows), id).NotFound? <==> forall p :: p in rows ==> p.id != id
    ensures ByIdResponse(eng, Available(rows), id).Ok? ==>
      var hit := Filter(rows, (p: Ponto) => p.id == id)[0];
      var f := ByIdResponse(eng, Available(rows), id).body;
      var text := eng.asGeoJson(hit.geometry);
      && hit in rows && hit.id == id
      && Names(f.properties) == SelectedColumns
      && f.geometry == (if text != "" then eng.parseJson(text) else None)
  {
    var hits := Filter(rows, (p: Ponto) => p.id == id);
    if hits == [] {
      forall p | p in rows ensures p.id != id {
        if p.id == id {
          FilterKeeps(rows, (p: Ponto) => p.id == id, p);
        }
      }
    } else {
      assert hits[0] in hits;
      ProjectedRowFeature(eng, Column, SelectedColumns, AsGeoJson, hits[0]);
    }
  }
}
