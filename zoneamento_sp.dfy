/** The São Paulo zoning endpoints (app/api/v1/endpoints/zoneamento_sp.py). */
module ZoneamentoSp {
  import opened Wrappers
  import opened Values
  import opened Foreign
  import opened Text
  import opened Sql
  import opened Api
  import opened GeoUtils
  import opened Aggregate
  import Like
  import Security

  /** A row of geo.zoneamento_sp (app/models/zoneamento_sp.py); the key is the text `id_original`. */
  datatype Zona = Zona(
    idOriginal: string,
    cdTipoLegislacao: Option<string>,
    cdNumeroLegislacao: Option<string>,
    anLegislacao: Option<int>,
    cdZoneamento: string,
    txZoneamento: Option<string>,
    cdIdentificador: Option<string>,
    txObservacao: Option<string>,
    dtAtualizacao: Option<Timestamp>,
    cdUsuarioAtualizacao: Option<string>,
    geometry: Geometry,
    dataSource: Option<string>)

  /** Reading a column by its database name. */
  function Column(z: Zona, name: string): Value {
    if name == "id_original" then Text(z.idOriginal)
    else if name == "cd_tipo_legislacao_zoneamento" then OptText(z.cdTipoLegislacao)
    else if name == "cd_numero_legislacao_zoneamento" then OptText(z.cdNumeroLegislacao)
    else if name == "an_legislacao_zoneamento" then OptInt(z.anLegislacao)
    else if name == "cd_zoneamento_perimetro" then Text(z.cdZoneamento)
    else if name == "tx_zoneamento_perimetro" then OptText(z.txZoneamento)
    else if name == "cd_identificador" then OptText(z.cdIdentificador)
    else if name == "tx_observacao_perimetro" then OptText(z.txObservacao)
    else if name == "dt_atualizacao" then OptTime(z.dtAtualizacao)
    else if name == "cd_usuario_atualizacao" then OptText(z.cdUsuarioAtualizacao)
    else if name == "geometry" then Geo(z.geometry)
    else if name == "data_source" then OptText(z.dataSource)
    else Null
  }

  /** The columns both feature handlers select. */
  const SelectedColumns: seq<string> := [
    "id_original", "cd_tipo_legislacao_zoneamento", "cd_numero_legislacao_zoneamento",
    "an_legislacao_zoneamento", "cd_zoneamento_perimetro", "tx_zoneamento_perimetro",
    "cd_identificador", "tx_observacao_perimetro", "dt_atualizacao", "cd_usuario_atualizacao",
    "data_source"]

  const BadFormatDetail := "Formato de bbox inválido"
  const OutsideDetail := "Bounding box fora dos limites de São Paulo"
  const ErrorDetail := "Erro ao buscar zoneamento: "

  /** The 404 detail names the requested id. */
  function NotFoundDetail(id: string): string {
    "Zoneamento com ID " + id + " não encontrado"
  }

  /** The query parameters of `get_zoneamento`. */
  datatype ListRequest = ListRequest(
    bbox: Option<string>,
    cdZoneamento: Option<string>,
    anLegislacao: Option<int>,
    cdTipoLegislacao: Option<string>,
    skip: nat,
    limit: nat,
    simplify: bool,
    simplifyTolerance: Option<real>)

  function Output(simplify: bool, tolerance: real): GeometryOutput {
    if simplify then AsSimplifiedGeoJson(tolerance) else AsGeoJson
  }

  /** The tolerance used: the request's when it is given and non-zero, the configured one otherwise. */
  function Tolerance(configured: real, requested: Option<real>): (t: real)
    ensures requested.Some? && requested.value != 0.0 ==> t == requested.value
    ensures requested.None? || requested.value == 0.0 ==> t == configured
  {
    if requested.Some? && requested.value != 0.0 then requested.value else configured
  }

  /** Only the minimum corner of a box is checked against the São Paulo region. */
  predicate MinCornerInSaoPaulo(b: Box) {
    -47.0 <= b.minLon <= -46.0 && -24.0 <= b.minLat <= -23.0
  }

  /** The year filter applies only to a truthy (non-zero) year. */
  predicate YearGiven(y: Option<int>) {
    y.Some? && y.value != 0
  }

  /** Case-insensitive containment of a given parameter in a text column. */
  predicate TextFilter(param: Option<string>, column: Option<string>) {
    Given(param) ==> column.Some? && Like.ILike(column.value, Like.Contains(param.value))
  }

  /** Which zones a request selects, stated on the typed row. */
  predicate Matches(eng: Engine, box: Option<Box>, req: ListRequest, z: Zona) {
    && (box.Some? ==> eng.intersects(z.geometry, box.value))
    && TextFilter(req.cdZoneamento, Some(z.cdZoneamento))
    && (YearGiven(req.anLegislacao) ==> z.anLegislacao == req.anLegislacao)
    && TextFilter(req.cdTipoLegislacao, z.cdTipoLegislacao)
  }

  function RequestBox(eng: Engine, req: ListRequest): Option<Box> {
    if Given(req.bbox) then Security.ParseBbox(eng, req.bbox.value) else None
  }

  /** The rows a listing is built from: the matching rows, `skip` dropped, at most `limit` kept. */
  function Selected(eng: Engine, box: Option<Box>, req: ListRequest, rows: seq<Zona>): seq<Zona> {
    Page(Filter(rows, z => Matches(eng, box, req, z)), req.skip, Some(req.limit))
  }

  /** The listing body: the features and a metadata block describing the request. */
  function ZoneListing(req: ListRequest, tolerance: real, features: seq<Feature>): Listing {
    Listing("FeatureCollection", features,
      Some(Metadata(|features|, req.skip, req.limit, req.simplify, if req.simplify then Some(tolerance) else None)))
  }

  /** The outcome `get_zoneamento` computes from the configured tolerance, the table and the request. */
  function ListResponse(eng: Engine, configured: real, table: Table<Zona>, req: ListRequest): Response<Listing> {
    var tolerance := Tolerance(configured, req.simplifyTolerance);
    if Given(req.bbox) && Security.ParseBbox(eng, req.bbox.value).None? then BadRequest(BadFormatDetail)
    else if Given(req.bbox) && !MinCornerInSaoPaulo(Security.ParseBbox(eng, req.bbox.value).value) then BadRequest(OutsideDetail)
    else if table.Failing? then InternalError(ErrorDetail)
    else
      var page := Selected(eng, RequestBox(eng, req), req, table.rows);
      match EndpointFeatures(eng, ProjectAll(eng, Column, SelectedColumns, Output(req.simplify, tolerance), page))
      case None => InternalError(ErrorDetail)
      case Some(features) => Ok(ZoneListing(req, tolerance, features))
  }

  function BoxConds(box: Option<Box>): seq<Cond> {
    if box.Some? then [Intersects(box.value)] else []
  }

  /** The attribute conditions the handler adds after the bbox, in order. */
  function AttributeConds(conds: seq<Cond>, req: ListRequest): seq<Cond> {
    var c2 := AddIf(conds, Given(req.cdZoneamento), ILike("cd_zoneamento_perimetro", Like.Contains(req.cdZoneamento.GetOr(""))));
    var c3 := AddIf(c2, YearGiven(req.anLegislacao), EqualsInt("an_legislacao_zoneamento", req.anLegislacao.GetOr(0)));
    AddIf(c3, Given(req.cdTipoLegislacao), ILike("cd_tipo_legislacao_zoneamento", Like.Contains(req.cdTipoLegislacao.GetOr(""))))
  }

  function Conds(box: Option<Box>, req: ListRequest): seq<Cond> {
    AttributeConds(BoxConds(box), req)
  }

  lemma HoldsCodes(eng: Engine, s: string, z: Zona)
    ensures Holds(eng, Column, ILike("cd_zoneamento_perimetro", s), z) <==> Like.ILike(z.cdZoneamento, s)
    ensures Holds(eng, Column, ILike("cd_tipo_legislacao_zoneamento", s), z)
        <==> z.cdTipoLegislacao.Some? && Like.ILike(z.cdTipoLegislacao.value, s)
  {
    assert Column(z, "cd_zoneamento_perimetro") == Text(z.cdZoneamento);
    assert Column(z, "cd_tipo_legislacao_zoneamento") == OptText(z.cdTipoLegislacao);
  }

  lemma HoldsYear(eng: Engine, y: int, z: Zona)
    ensures Holds(eng, Column, EqualsInt("an_legislacao_zoneamento", y), z) <==> z.anLegislacao == Some(y)
  {
    assert Column(z, "an_legislacao_zoneamento") == OptInt(z.anLegislacao);
  }

  lemma HoldsBox(eng: Engine, b: Box, z: Zona)
    ensures Holds(eng, Column, Intersects(b), z) <==> eng.intersects(z.geometry, b)
  {
    assert Column(z, "geometry") == Geo(z.geometry);
  }

  lemma CondsMeanMatches(eng: Engine, box: Option<Box>, req: ListRequest, z: Zona)
    ensures AllHold(eng, Column, Conds(box, req), z) <==> Matches(eng, box, req, z)
  {
    var c1 := BoxConds(box);
    var c2 := AddIf(c1, Given(req.cdZoneamento), ILike("cd_zoneamento_perimetro", Like.Contains(req.cdZoneamento.GetOr(""))));
    var c3 := AddIf(c2, YearGiven(req.anLegislacao), EqualsInt("an_legislacao_zoneamento", req.anLegislacao.GetOr(0)));
    AllHoldAddIf(eng, Column, c3, Given(req.cdTipoLegislacao), ILike("cd_tipo_legislacao_zoneamento", Like.Contains(req.cdTipoLegislacao.GetOr(""))), z);
    AllHoldAddIf(eng, Column, c2, YearGiven(req.anLegislacao), EqualsInt("an_legislacao_zoneamento", req.anLegislacao.GetOr(0)), z);
    AllHoldAddIf(eng, Column, c1, Given(req.cdZoneamento), ILike("cd_zoneamento_perimetro", Like.Contains(req.cdZoneamento.GetOr(""))), z);
    AllHoldNone(eng, Column, z);
    if box.Some? {
      AllHoldOne(eng, Column, Intersects(box.value), z);
      HoldsBox(eng, box.value, z);
    }
    HoldsCodes(eng, Like.Contains(req.cdZoneamento.GetOr("")), z);
    HoldsCodes(eng, Like.Contains(req.cdTipoLegislacao.GetOr("")), z);
    HoldsYear(eng, req.anLegislacao.GetOr(0), z);
  }

  /** The filter steps of `get_zoneamento` after the bbox, each rebinding the query. */
  method AddAttributeFilters(query: Select, req: ListRequest) returns (q: Select)
    ensures q == query.(conds := AttributeConds(query.conds, req))
  {
    q := query;
    if Given(req.cdZoneamento) {
      q := q.Where(ILike("cd_zoneamento_perimetro", Like.Contains(req.cdZoneamento.value)));
    }
    if YearGiven(req.anLegislacao) {
      q := q.Where(EqualsInt("an_legislacao_zoneamento", req.anLegislacao.value));
    }
    if Given(req.cdTipoLegislacao) {
      q := q.Where(ILike("cd_tipo_legislacao_zoneamento", Like.Contains(req.cdTipoLegislacao.value)));
    }
  }

  lemma ExecuteSelects(eng: Engine, tolerance: real, rows: seq<Zona>, req: ListRequest, box: Option<Box>, query: Select)
    requires query == NewSelect(SelectedColumns, Output(req.simplify, tolerance)).(conds := Conds(box, req)).OffsetLimit(req.skip, req.limit)
    ensures Execute(eng, Column, query, rows)
         == ProjectAll(eng, Column, SelectedColumns, Output(req.simplify, tolerance), Selected(eng, box, req, rows))
  {
    forall z | z in rows ensures AllHold(eng, Column, query.conds, z) <==> Matches(eng, box, req, z) {
      CondsMeanMatches(eng, box, req, z);
    }
    ExecuteAsFilter(eng, Column, query, rows, z => Matches(eng, box, req, z));
  }

  lemma ListResponseExecuted(eng: Engine, configured: real, rows: seq<Zona>, req: ListRequest, box: Option<Box>, query: Select)
    requires Given(req.bbox) ==> box.Some? && box == Security.ParseBbox(eng, req.bbox.value) && MinCornerInSaoPaulo(box.value)
    requires !Given(req.bbox) ==> box == None
    requires query == NewSelect(SelectedColumns, Output(req.simplify, Tolerance(configured, req.simplifyTolerance)))
                        .(conds := Conds(box, req)).OffsetLimit(req.skip, req.limit)
    ensures ListResponse(eng, configured, Available(rows), req)
         == match EndpointFeatures(eng, Execute(eng, Column, query, rows))
            case None => InternalError(ErrorDetail)
            case Some(features) => Ok(ZoneListing(req, Tolerance(configured, req.simplifyTolerance), features))
  {
    ExecuteSelects(eng, Tolerance(configured, req.simplifyTolerance), rows, req, box, query);
  }

  /** `get_zoneamento`: choose the tolerance, check the bbox, build the query, run it, add metadata. */
  method GetZoneamento(eng: Engine, configured: real, table: Table<Zona>, req: ListRequest)
    returns (r: Response<Listing>)
    ensures r == ListResponse(eng, configured, table, req)
  {
    var tolerance := if req.simplifyTolerance.Some? && req.simplifyTolerance.value != 0.0 then req.simplifyTolerance.value else configured;
    var query := NewSelect(SelectedColumns, Output(req.simplify, tolerance));
    var box: Option<Box> := None;
    if Given(req.bbox) {
      box := Security.ParseBbox(eng, req.bbox.value);
      if box.None? {
        return BadRequest(BadFormatDetail);
      }
      if !MinCornerInSaoPaulo(box.value) {
        return BadRequest(OutsideDetail);
      }
      query := query.Where(Intersects(box.value));
    }
    assert query.conds == BoxConds(box);
    query := AddAttributeFilters(query, req);
    query := query.OffsetLimit(req.skip, req.limit);
    if table.Failing? {
      return InternalError(ErrorDetail);
    }
    ListResponseExecuted(eng, configured, table.rows, req, box, query);
    var rows := Execute(eng, Column, query, table.rows);
    var features := RowsToFeatures(eng, rows);
    if features.None? {
      return InternalError(ErrorDetail);
    }
    r := Ok(Listing("FeatureCollection", features.value,
      Some(Metadata(|features.value|, req.skip, req.limit, req.simplify, if req.simplify then Some(tolerance) else None))));
  }

  /** The outcome `get_zoneamento_by_id` computes: the first row with that id, simplified by the configured tolerance on request. */
  function ByIdResponse(eng: Engine, configured: real, table: Table<Zona>, id: string, simplify: bool): Response<Feature> {
    if table.Failing? then InternalError(ErrorDetail)
    else
      var hits := Filter(table.rows, (z: Zona) => z.idOriginal == id);
      if hits == [] then NotFound(NotFoundDetail(id))
      else match EndpointFeature(eng, ProjectRow(eng, Column, SelectedColumns, Output(simplify, configured), hits[0]))
        case None => InternalError(ErrorDetail)
        case Some(f) => Ok(f)
  }

  method GetZoneamentoById(eng: Engine, configured: real, table: Table<Zona>, id: string, simplify: bool)
    returns (r: Response<Feature>)
    ensures r == ByIdResponse(eng, configured, table, id, simplify)
  {
    var query := NewSelect(SelectedColumns, Output(simplify, configured));
    query := query.Where(EqualsText("id_original", id));
    if table.Failing? {
      return InternalError(ErrorDetail);
    }
    assert query.conds == [EqualsText("id_original", id)];
    forall z | z in table.rows ensures AllHold(eng, Column, query.conds, z) <==> z.idOriginal == id {
      AllHoldOne(eng, Column, EqualsText("id_original", id), z);
    }
    ExecuteAsFilter(eng, Column, query, table.rows, (z: Zona) => z.idOriginal == id);
    var rows := Execute(eng, Column, query, table.rows);
    if rows == [] {
      return NotFound(NotFoundDetail(id));
    }
    var f := RowToEndpointFeature(eng, rows[0]);
    if f.None? {
      return InternalError(ErrorDetail);
    }
    r := Ok(f.value);
  }

  /**
   * A successful listing holds one feature per selected row, in order, and a
   * metadata block whose count is the number of features and whose tolerance
   * is reported only when geometries were simplified.
   */
  lemma ListingContents(eng: Engine, configured: real, rows: seq<Zona>, req: ListRequest)
    requires ListResponse(eng, configured, Available(rows), req).Ok?
    ensures var body := ListResponse(eng, configured, Available(rows), req).body;
            var page := Selected(eng, RequestBox(eng, req), req, rows);
            && body.kind == "FeatureCollection"
            && |body.features| == |page| <= req.limit
            && body.metadata == Some(Metadata(|page|, req.skip, req.limit, req.simplify,
                 if req.simplify then Some(Tolerance(configured, req.simplifyTolerance)) else None))
            && forall i :: 0 <= i < |page| ==>
                 && Names(body.features[i].properties) == SelectedColumns
                 && forall j :: 0 <= j < |SelectedColumns| ==>
                      body.features[i].properties[j] == Field(SelectedColumns[j], ProjectValue(eng, Column(page[i], SelectedColumns[j])))
  {
    var page := Selected(eng, RequestBox(eng, req), req, rows);
    ProjectedFeatures(eng, Column, SelectedColumns, Output(req.simplify, Tolerance(configured, req.simplifyTolerance)), page);
  }

  /**
   * The bbox is rejected when it does not parse or when its minimum corner lies
   * outside the São Paulo region; the maximum corner is never checked.
   */
  lemma BboxChecks(eng: Engine, configured: real, table: Table<Zona>, req: ListRequest)
    requires Given(req.bbox)
    ensures var b := Security.ParseBbox(eng, req.bbox.value);
            var r := ListResponse(eng, configured, table, req);
            && (b.None? <==> r == BadRequest(BadFormatDetail))
            && (b.Some? && !MinCornerInSaoPaulo(b.value) <==> r == BadRequest(OutsideDetail))
            && (r.BadRequest? <==> b.None? || !MinCornerInSaoPaulo(b.value))
  {
  }

  /** A box whose minimum corner is in the region is accepted, however far its maximum corner reaches. */
  lemma MaxCornerUnchecked(b: Box)
    requires MinCornerInSaoPaulo(b)
    ensures MinCornerInSaoPaulo(b.(maxLon := 180.0, maxLat := 90.0))
  {
  }

  /** The code and legislation-type filters are case-insensitive substring tests for input without `%`, `_` or `\`. */
  lemma TextFilters(eng: Engine, box: Option<Box>, req: ListRequest, z: Zona)
    requires Matches(eng, box, req, z)
    ensures Given(req.cdZoneamento) && Like.WildcardFree(req.cdZoneamento.value) ==>
      IsSubstring(Lower(req.cdZoneamento.value), Lower(z.cdZoneamento))
    ensures Given(req.cdTipoLegislacao) && Like.WildcardFree(req.cdTipoLegislacao.value) ==>
      z.cdTipoLegislacao.Some? && IsSubstring(Lower(req.cdTipoLegislacao.value), Lower(z.cdTipoLegislacao.value))
    ensures YearGiven(req.anLegislacao) ==> z.anLegislacao == req.anLegislacao
  {
    if Given(req.cdZoneamento) && Like.WildcardFree(req.cdZoneamento.value) {
      Like.ILikeContains(z.cdZoneamento, req.cdZoneamento.value);
    }
    if Given(req.cdTipoLegislacao) && Like.WildcardFree(req.cdTipoLegislacao.value) {
      Like.ILikeContains(z.cdTipoLegislacao.value, req.cdTipoLegislacao.value);
    }
  }

  /** By id: 404 naming the id exactly when no row has it; otherwise the first such row. */
  lemma ByIdContents(eng: Engine, configured: real, rows: seq<Zona>, id: string, simplify: bool)
    ensures ByIdResponse(eng, configured, Available(rows), id, simplify) == NotFound(NotFoundDetail(id))
        <==> forall z :: z in rows ==> z.idOriginal != id
    ensures ByIdResponse(eng, configured, Available(rows), id, simplify).Ok? ==>
      var hit := Filter(rows, (z: Zona) => z.idOriginal == id)[0];
      var f := ByIdResponse(eng, configured, Available(rows), id, simplify).body;
      var text := GeometryText(eng, Output(simplify, configured), Geo(hit.geometry));
      && hit in rows && hit.idOriginal == id
      && Names(f.properties) == SelectedColumns
      && f.geometry == (if Truthy(text) then eng.parseJson(text.s) else None)
  {
    var hits := Filter(rows, (z: Zona) => z.idOriginal == id);
    if hits == [] {
      forall z | z in rows ensures z.idOriginal != id {
        if z.idOriginal == id {
          FilterKeeps(rows, (z: Zona) => z.idOriginal == id, z);
        }
      }
    } else {
      assert hits[0] in hits;
      ProjectedRowFeature(eng, Column, SelectedColumns, Output(simplify, configured), hits[0]);
    }
  }

  // ---- Statistics (`get_zoneamento_stats`) ----

  const StatsErrorDetail := "Erro ao calcular estatísticas: "
  const StatsSource := "BigQuery - Lei 18.177/2024"
  const TopCodes: nat := 20

  /** The statistics body. */
  datatype Stats = Stats(totalPoligonos: nat, tiposZoneamento: seq<Group<string>>, anosLegislacao: seq<Group<int>>, fonte: string)

  function Codes(rows: seq<Zona>): (keys: seq<string>)
    ensures |keys| == |rows| && forall i :: 0 <= i < |rows| ==> keys[i] == rows[i].cdZoneamento
  {
    seq(|rows|, i requires 0 <= i < |rows| => rows[i].cdZoneamento)
  }

  function Years(rows: seq<Zona>): (keys: seq<Option<int>>)
    ensures |keys| == |rows| && forall i :: 0 <= i < |rows| ==> keys[i] == rows[i].anLegislacao
  {
    seq(|rows|, i requires 0 <= i < |rows| => rows[i].anLegislacao)
  }

  predicate IsKnown(g: Group<Option<int>>) { g.key.Some? }

  predicate IsNull(g: Group<Option<int>>) { g.key.None? }

  function ByYear(g: Group<Option<int>>): int { g.key.GetOr(0) }

  /** The codes query: group by code, order by count descending, limit 20. */
  function TiposQuery(rows: seq<Zona>): seq<Group<string>> {
    Take(SortDesc(GroupBy(Codes(rows)), ByCount), TopCodes)
  }

  /** The years query: group by year, order by year descending, NULL first as PostgreSQL orders it. */
  function AnosQuery(rows: seq<Zona>): seq<Group<Option<int>>> {
    var gs := GroupBy(Years(rows));
    Sql.Filter(gs, IsNull)
      + SortDesc(Sql.Filter(gs, IsKnown), ByYear)
  }

  /** The comprehension that keeps the groups whose year is not None. */
  function KnownYears(gs: seq<Group<Option<int>>>): seq<Group<int>> {
    if gs == [] then []
    else (if gs[0].key.Some? then [Group(gs[0].key.value, gs[0].count)] else []) + KnownYears(gs[1..])
  }

  /** The outcome `get_zoneamento_stats` computes. */
  function StatsResponse(table: Table<Zona>): Response<Stats> {
    if table.Failing? then InternalError(StatsErrorDetail)
    else Ok(Stats(|table.rows|, TiposQuery(table.rows), KnownYears(AnosQuery(table.rows)), StatsSource))
  }

  lemma {:induction false} KnownYearsConcat(a: seq<Group<Option<int>>>, b: seq<Group<Option<int>>>)
    ensures KnownYears(a + b) == KnownYears(a) + KnownYears(b)
  {
    if a != [] {
      assert (a + b)[1..] == a[1..] + b;
      KnownYearsConcat(a[1..], b);
    } else {
      assert a + b == b;
    }
  }

  lemma {:induction false} KnownYearsOfNulls(gs: seq<Group<Option<int>>>)
    requires forall i :: 0 <= i < |gs| ==> gs[i].key.None?
    ensures KnownYears(gs) == []
  {
    if gs != [] {
      KnownYearsOfNulls(gs[1..]);
    }
  }

  lemma {:induction false} KnownYearsOfKnown(gs: seq<Group<Option<int>>>)
    requires forall i :: 0 <= i < |gs| ==> gs[i].key.Some?
    ensures |KnownYears(gs)| == |gs|
    ensures forall i :: 0 <= i < |gs| ==> KnownYears(gs)[i] == Group(gs[i].key.value, gs[i].count)
  {
    if gs != [] {
      KnownYearsOfKnown(gs[1..]);
    }
  }

  /**
   * `tipos_zoneamento`: at most 20 distinct codes, counts in non-increasing
   * order, each the number of zones with that code, and no code left out
   * has more zones than any code listed.
   */
  lemma TiposContents(rows: seq<Zona>)
    ensures var tipos := TiposQuery(rows);
            && |tipos| == Min(TopCodes, |Distinct(Codes(rows))|)
            && SortedDesc(tipos, ByCount)
            && KeysDistinct(tipos)
            && (forall i :: 0 <= i < |tipos| ==> tipos[i].count == multiset(Codes(rows))[tipos[i].key] > 0)
            && (forall z, i :: z in rows && 0 <= i < |tipos| && (forall j :: 0 <= j < |tipos| ==> tipos[j].key != z.cdZoneamento)
                  ==> multiset(Codes(rows))[z.cdZoneamento] <= tipos[i].count)
  {
    TopByCount(Codes(rows), TopCodes);
    TopByCountMaximal(Codes(rows), TopCodes);
    forall z | z in rows ensures z.cdZoneamento in Codes(rows) {
      var r :| 0 <= r < |rows| && rows[r] == z;
      assert Codes(rows)[r] == z.cdZoneamento;
    }
  }

  /** The known-year groups, sorted: distinct years in non-increasing order, each counted exactly, none missing. */
  lemma KnownGroupsSorted(keys: seq<Option<int>>)
    ensures var s := SortDesc(Sql.Filter(GroupBy(keys), IsKnown), ByYear);
            && (forall i :: 0 <= i < |s| ==> s[i].key.Some?)
            && SortedDesc(s, ByYear) && KeysDistinct(s) && CountsExact(s, keys)
            && (forall y :: Some(y) in keys ==> exists i :: 0 <= i < |s| && s[i].key == Some(y))
  {
    var gs := GroupBy(keys);
    var known := Sql.Filter(gs, IsKnown);
    GroupByCounts(keys);
    FilterKeepsKeysDistinct(gs, IsKnown);
    forall i | 0 <= i < |known| ensures known[i].count == multiset(keys)[known[i].key] > 0 {
      assert known[i] in known;
    }
    SortKeepsGroups(known, keys, ByYear);
    var s := SortDesc(known, ByYear);
    forall i | 0 <= i < |s| ensures s[i].key.Some? {
      assert s[i] in s;
    }
    forall y | Some(y) in keys ensures exists i :: 0 <= i < |s| && s[i].key == Some(y) {
      var p :| 0 <= p < |gs| && gs[p].key == Some(y);
      Sql.FilterKeeps(gs, IsKnown, gs[p]);
      assert gs[p] in s;
      var i :| 0 <= i < |s| && s[i] == gs[p];
    }
  }

  /** Dropping the `Some` from sorted known-year groups gives strictly decreasing years with their counts. */
  lemma KnownYearsOrdered(s: seq<Group<Option<int>>>, keys: seq<Option<int>>)
    requires forall i :: 0 <= i < |s| ==> s[i].key.Some?
    requires SortedDesc(s, ByYear) && KeysDistinct(s) && CountsExact(s, keys)
    ensures var a := KnownYears(s);
            && |a| == |s|
            && (forall i :: 0 <= i < |s| ==> a[i].key == s[i].key.value)
            && (forall i, j :: 0 <= i < j < |a| ==> a[i].key > a[j].key)
            && (forall i :: 0 <= i < |a| ==> a[i].count == multiset(keys)[Some(a[i].key)] > 0)
  {
    KnownYearsOfKnown(s);
    var a := KnownYears(s);
    forall i, j | 0 <= i < j < |a| ensures a[i].key > a[j].key {
      assert ByYear(s[i]) >= ByYear(s[j]);
      assert s[i].key != s[j].key;
    }
  }

  /** The comprehension sees only the sorted known-year groups: the NULL group, listed first, is dropped. */
  lemma AnosAreKnown(rows: seq<Zona>)
    ensures KnownYears(AnosQuery(rows))
         == KnownYears(SortDesc(Sql.Filter(GroupBy(Years(rows)), IsKnown), ByYear))
  {
    var gs := GroupBy(Years(rows));
    var nulls := Sql.Filter(gs, IsNull);
    var sorted := SortDesc(Sql.Filter(gs, IsKnown), ByYear);
    forall i | 0 <= i < |nulls| ensures nulls[i].key.None? {
      assert nulls[i] in nulls;
    }
    KnownYearsOfNulls(nulls);
    KnownYearsConcat(nulls, sorted);
  }

  /**
   * `anos_legislacao`: the known years, each once, in strictly decreasing
   * order, each with the number of zones from that year; zones without a
   * year are not reported.
   */
  lemma AnosContents(rows: seq<Zona>)
    ensures var anos := KnownYears(AnosQuery(rows));
            && (forall i, j :: 0 <= i < j < |anos| ==> anos[i].key > anos[j].key)
            && (forall i :: 0 <= i < |anos| ==> anos[i].count == multiset(Years(rows))[Some(anos[i].key)] > 0)
            && (forall z :: z in rows && z.anLegislacao.Some? ==> exists i :: 0 <= i < |anos| && anos[i].key == z.anLegislacao.value)
  {
    var keys := Years(rows);
    var sorted := SortDesc(Sql.Filter(GroupBy(keys), IsKnown), ByYear);
    KnownGroupsSorted(keys);
    AnosAreKnown(rows);
    KnownYearsOrdered(sorted, keys);
    YearsListed(rows, sorted);
  }

  /** Every zone's known year has a group among the sorted known-year groups. */
  lemma YearsListed(rows: seq<Zona>, sorted: seq<Group<Option<int>>>)
    requires forall y :: Some(y) in Years(rows) ==> exists i :: 0 <= i < |sorted| && sorted[i].key == Some(y)
    requires forall i :: 0 <= i < |sorted| ==> sorted[i].key.Some?
    ensures var anos := KnownYears(sorted);
            forall z :: z in rows && z.anLegislacao.Some? ==> exists i :: 0 <= i < |anos| && anos[i].key == z.anLegislacao.value
  {
    KnownYearsOfKnown(sorted);
    var anos := KnownYears(sorted);
    forall z | z in rows && z.anLegislacao.Some? ensures exists i :: 0 <= i < |anos| && anos[i].key == z.anLegislacao.value {
      var r :| 0 <= r < |rows| && rows[r] == z;
      var y := z.anLegislacao.value;
      assert Years(rows)[r] == Some(y);
      assert Some(y) in Years(rows);
      var i :| 0 <= i < |sorted| && sorted[i].key == Some(y);
      assert anos[i].key == z.anLegislacao.value;
    }
  }
}
