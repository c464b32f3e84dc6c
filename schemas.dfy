/**
 * The request and response schemas of app/schemas/base.py and
 * app/schemas/zoneamento_sp.py: which values they accept and what their
 * fields default to.  A validation error is None.
 */
module Schemas {
  import opened Wrappers
  import opened Text

  // ------------------------------------------------------------ base.py

  datatype BBoxFilter = BBoxFilter(minLon: real, minLat: real, maxLon: real, maxLat: real)

  /** `BBoxFilter(...)`: each longitude in [-180, 180] and each latitude in [-90, 90]. */
  function NewBBoxFilter(minLon: real, minLat: real, maxLon: real, maxLat: real): (b: Option<BBoxFilter>)
    ensures b.Some? <==> -180.0 <= minLon <= 180.0 && -180.0 <= maxLon <= 180.0 && -90.0 <= minLat <= 90.0 && -90.0 <= maxLat <= 90.0
    ensures b.Some? ==> b.value == BBoxFilter(minLon, minLat, maxLon, maxLat)
  {
    if -180.0 <= minLon <= 180.0 && -90.0 <= minLat <= 90.0 && -180.0 <= maxLon <= 180.0 && -90.0 <= maxLat <= 90.0
    then Some(BBoxFilter(minLon, minLat, maxLon, maxLat))
    else None
  }

  /** The schema checks ranges only: a box whose corners are swapped is accepted. */
  lemma BBoxFilterUnordered()
    ensures NewBBoxFilter(10.0, 5.0, -10.0, -5.0).Some?
  {
  }

  datatype PaginationParams = PaginationParams(skip: int, limit: int)

  const DefaultSkip := 0
  const DefaultLimit := 100
  const MaxLimit := 1000

  /** `PaginationParams(...)` with the fields that were supplied. */
  function NewPagination(skip: Option<int>, limit: Option<int>): (p: Option<PaginationParams>)
    ensures var s := if skip.Some? then skip.value else DefaultSkip;
      var l := if limit.Some? then limit.value else DefaultLimit;
      && (p.Some? <==> s >= 0 && 1 <= l <= MaxLimit)
      && (p.Some? ==> p.value == PaginationParams(s, l))
  {
    var s := if skip.Some? then skip.value else DefaultSkip;
    var l := if limit.Some? then limit.value else DefaultLimit;
    if s >= 0 && 1 <= l <= MaxLimit then Some(PaginationParams(s, l)) else None
  }

  /** The defaults alone are valid, and no limit above 1000 or below 1 is. */
  lemma PaginationDefaults(skip: Option<int>, limit: int)
    ensures NewPagination(None, None) == Some(PaginationParams(0, 100))
    ensures limit > MaxLimit || limit < 1 ==> NewPagination(skip, Some(limit)).None?
  {
  }

  /** A feature and a collection with the type they declare. */
  datatype FeatureBase = FeatureBase(kind: string, geometryType: string, properties: map<string, string>)
  datatype FeatureCollectionBase = FeatureCollectionBase(kind: string, features: seq<FeatureBase>)

  /** `type: str = "Feature"` */
  function NewFeature(kind: Option<string>, geometryType: string, properties: map<string, string>): (f: FeatureBase)
    ensures f.kind == (if kind.Some? then kind.value else "Feature")
    ensures f.geometryType == geometryType && f.properties == properties
  {
    FeatureBase(if kind.Some? then kind.value else "Feature", geometryType, properties)
  }

  /** `type: str = "FeatureCollection"` */
  function NewFeatureCollection(kind: Option<string>, features: seq<FeatureBase>): (c: FeatureCollectionBase)
    ensures c.kind == (if kind.Some? then kind.value else "FeatureCollection") && c.features == features
  {
    FeatureCollectionBase(if kind.Some? then kind.value else "FeatureCollection", features)
  }

  /** Without a type given, a collection of default features is GeoJSON-shaped. */
  lemma DefaultTypes(geometryType: string, properties: map<string, string>)
    ensures NewFeature(None, geometryType, properties).kind == "Feature"
    ensures var c := NewFeatureCollection(None, [NewFeature(None, geometryType, properties)]);
      c.kind == "FeatureCollection" && forall f :: f in c.features ==> f.kind == "Feature"
  {
  }

  datatype PropertiesBase = PropertiesBase(id: int, createdAt: Option<string>, updatedAt: Option<string>, dataSource: Option<string>)

  /** An optional field: the supplied value (which may be an explicit None), else None. */
  function Supplied(fields: map<string, Option<string>>, name: string): Option<string> {
    if name in fields then fields[name] else None
  }

  /** `PropertiesBase(...)`: `id` is required; the optional fields take what was supplied. */
  function NewProperties(id: Option<int>, fields: map<string, Option<string>>): (p: Option<PropertiesBase>)
    ensures p.Some? <==> id.Some?
    ensures p.Some? ==> p.value.id == id.value
    ensures p.Some? ==> p.value.createdAt == Supplied(fields, "created_at") && p.value.updatedAt == Supplied(fields, "updated_at")
    ensures p.Some? ==> p.value.dataSource == Supplied(fields, "data_source")
    ensures p.Some? && fields == map[] ==> p.value.createdAt.None? && p.value.updatedAt.None? && p.value.dataSource.None?
  {
    if id.None? then None
    else Some(PropertiesBase(id.value, Supplied(fields, "created_at"), Supplied(fields, "updated_at"), Supplied(fields, "data_source")))
  }

  // ------------------------------------------------------------ zoneamento_sp.py

  /** The optional text fields of `ZoneamentoSPBase`, by name. */
  const ZoneamentoTextFields := ["cd_tipo_legislacao_zoneamento", "cd_numero_legislacao_zoneamento", "cd_zoneamento_perimetro",
                                 "tx_zoneamento_perimetro", "cd_identificador", "tx_observacao_perimetro", "cd_usuario_atualizacao"]

  datatype ZoneamentoSPProperties = ZoneamentoSPProperties(
    text: map<string, Option<string>>,   // the fields of ZoneamentoTextFields
    anLegislacao: Option<int>,
    dtAtualizacao: Option<string>,
    id: int,
    idOriginal: string,
    createdAt: Option<string>,
    updatedAt: Option<string>,
    dataSource: Option<string>)

  const ZoneamentoDataSource := "BIGQUERY_SP_ZONEAMENTO"

  /**
   * `ZoneamentoSPProperties(...)`: `id` and `id_original` are required;
   * every base field defaults to None and `data_source` to
   * "BIGQUERY_SP_ZONEAMENTO" (an explicit None stays None).
   */
  function NewZoneamentoProperties(id: Option<int>, idOriginal: Option<string>, fields: map<string, Option<string>>,
                                   anLegislacao: Option<int>, dtAtualizacao: Option<string>): (p: Option<ZoneamentoSPProperties>)
    ensures p.Some? <==> id.Some? && idOriginal.Some?
    ensures p.Some? ==> p.value.id == id.value && p.value.idOriginal == idOriginal.value
    ensures p.Some? ==> forall name :: name in ZoneamentoTextFields ==>
      name in p.value.text && p.value.text[name] == (if name in fields then fields[name] else None)
    ensures p.Some? ==> p.value.dataSource == (if "data_source" in fields then fields["data_source"] else Some(ZoneamentoDataSource))
    ensures p.Some? ==> p.value.anLegislacao == anLegislacao && p.value.dtAtualizacao == dtAtualizacao
    ensures p.Some? ==> p.value.createdAt == Supplied(fields, "created_at") && p.value.updatedAt == Supplied(fields, "updated_at")
  {
    if id.None? || idOriginal.None? then None
    else
      var text := map name | name in ZoneamentoTextFields :: Supplied(fields, name);
      Some(ZoneamentoSPProperties(
        text, anLegislacao, dtAtualizacao, id.value, idOriginal.value,
        Supplied(fields, "created_at"), Supplied(fields, "updated_at"),
        if "data_source" in fields then fields["data_source"] else Some(ZoneamentoDataSource)))
  }

  /** Properties built from the required fields alone have every base field None and the BigQuery source. */
  lemma ZoneamentoDefaults(id: int, idOriginal: string)
    ensures var p := NewZoneamentoProperties(Some(id), Some(idOriginal), map[], None, None).value;
      && (forall name :: name in ZoneamentoTextFields ==> p.text[name].None?)
      && p.anLegislacao.None? && p.dtAtualizacao.None? && p.createdAt.None? && p.updatedAt.None?
      && p.dataSource == Some(ZoneamentoDataSource)
  {
  }

  // ------------------------------------------------------------ the bbox pattern

  /** `\d`, for the ASCII digits. */
  predicate IsDigit(c: char) {
    '0' <= c <= '9'
  }

  /**
   * `\d+\.?\d*`: a digit first, then digits with at most one '.' among them
   * (a '.' is always preceded by the leading digits).
   */
  predicate IsUnsignedNumber(t: string) {
    && |t| >= 1 && IsDigit(t[0])
    && (forall i :: 0 <= i < |t| ==> IsDigit(t[i]) || t[i] == '.')
    && CountChar(t, '.') <= 1
  }

  /** `-?\d+\.?\d*` */
  predicate IsNumber(s: string) {
    if |s| > 0 && s[0] == '-' then IsUnsignedNumber(s[1..]) else IsUnsignedNumber(s)
  }

  /**
   * `^-?\d+\.?\d*,-?\d+\.?\d*,-?\d+\.?\d*,-?\d+\.?\d*$`.  No field can
   * hold a comma, so the string matches exactly when splitting it on commas
   * gives four fields that each match the number pattern.
   */
  predicate MatchesBboxPattern(s: string) {
    var fields := Split(s, ',');
    |fields| == 4 && forall i :: 0 <= i < 4 ==> IsNumber(fields[i])
  }

  /** Splitting at a first part without the separator gives that part, then the split of the rest. */
  lemma {:induction false} SplitAfter(x: string, sep: char, y: string)
    requires sep !in x
    ensures Split(x + [sep] + y, sep) == [x] + Split(y, sep)
    decreases |x|
  {
    if x == [] {
      assert [] + [sep] + y == [sep] + y;
      assert ([sep] + y)[1..] == y;
    } else {
      SplitAfter(x[1..], sep, y);
      assert (x + [sep] + y)[1..] == x[1..] + [sep] + y;
      assert [x[0]] + x[1..] == x;
    }
  }

  /** A number has no comma in it. */
  lemma NumberHasNoComma(s: string)
    requires IsNumber(s)
    ensures ',' !in s
  {
  }

  /** Four numbers joined by commas match. */
  lemma FourNumbersMatch(a: string, b: string, c: string, d: string)
    requires IsNumber(a) && IsNumber(b) && IsNumber(c) && IsNumber(d)
    ensures MatchesBboxPattern(a + "," + b + "," + c + "," + d)
  {
    NumberHasNoComma(a);
    NumberHasNoComma(b);
    NumberHasNoComma(c);
    NumberHasNoComma(d);
    SplitAfter(c, ',', d);
    assert Split(d, ',') == [d] by { SplitAfter2(d); }
    SplitAfter(b, ',', c + "," + d);
    assert b + "," + (c + "," + d) == b + [','] + (c + [','] + d);
    SplitAfter(a, ',', b + "," + c + "," + d);
    assert a + "," + b + "," + c + "," + d == a + [','] + (b + "," + c + "," + d);
    assert b + "," + c + "," + d == b + [','] + (c + [','] + d);
  }

  /** A box with a sign, a fraction, a bare trailing '.' and an integer matches. */
  lemma ExampleBboxMatches()
    ensures MatchesBboxPattern("-1.5,2,3.,-4")
  {
    assert IsNumber("-1.5") by { assert "-1.5"[1..] == "1.5"; }
    assert IsNumber("-4") by { assert "-4"[1..] == "4"; }
    assert IsNumber("2") && IsNumber("3.");
    FourNumbersMatch("-1.5", "2", "3.", "-4");
    assert "-1.5" + "," + "2" + "," + "3." + "," + "-4" == "-1.5,2,3.,-4";
  }

  /** A string without the separator splits into itself. */
  lemma {:induction false} SplitAfter2(s: string)
    requires ',' !in s
    ensures Split(s, ',') == [s]
    decreases |s|
  {
    if s != [] {
      SplitAfter2(s[1..]);
      assert [s[0]] + s[1..] == s;
    }
  }

  /** Every character of a matching string is a digit, '-', '.' or ','. */
  lemma MatchAlphabet(s: string)
    requires MatchesBboxPattern(s)
    ensures forall i :: 0 <= i < |s| ==> IsDigit(s[i]) || s[i] == '-' || s[i] == '.' || s[i] == ','
  {
    SplitJoin(s, ',');
    var fields := Split(s, ',');
    forall i | 0 <= i < |s| ensures IsDigit(s[i]) || s[i] == '-' || s[i] == '.' || s[i] == ',' {
      JoinChar(fields, ',', i);
    }
  }

  /** A character of a join is the separator or a character of one of the parts. */
  lemma {:induction false} JoinChar(parts: seq<string>, sep: char, i: nat)
    requires |parts| >= 1 && i < |Join(parts, sep)|
    requires forall k :: 0 <= k < |parts| ==> IsNumber(parts[k])
    ensures var c := Join(parts, sep)[i]; IsDigit(c) || c == '-' || c == '.' || c == sep
    decreases |parts|
  {
    var c := Join(parts, sep)[i];
    if |parts| == 1 {
      NumberAlphabet(parts[0], i);
    } else {
      var head := parts[0] + [sep];
      assert Join(parts, sep) == head + Join(parts[1..], sep);
      if i < |parts[0]| {
        NumberAlphabet(parts[0], i);
      } else if i > |parts[0]| {
        assert c == Join(parts[1..], sep)[i - |head|];
        JoinChar(parts[1..], sep, i - |head|);
      }
    }
  }

  /** A number is made of digits, '.' and a leading '-'. */
  lemma NumberAlphabet(s: string, i: nat)
    requires IsNumber(s) && i < |s|
    ensures IsDigit(s[i]) || s[i] == '-' || s[i] == '.'
  {
    if |s| > 0 && s[0] == '-' && i > 0 {
      assert s[i] == s[1..][i - 1];
    }
  }

  /** White space, an exponent and a leading '.' are rejected, as is a wrong number of fields. */
  lemma PatternRejects(s: string, i: nat)
    ensures i < |s| && (IsSpace(s[i]) || s[i] == 'e' || s[i] == 'E') ==> !MatchesBboxPattern(s)
    ensures s != [] && s[0] == '.' ==> !MatchesBboxPattern(s)
    ensures CountChar(s, ',') != 3 ==> !MatchesBboxPattern(s)
  {
    if MatchesBboxPattern(s) {
      MatchAlphabet(s);
      SplitCount(s, ',');
      if s != [] && s[0] == '.' {
        SplitFirstStarts(s);
      }
    }
  }

  /** The first field of a split starting with a non-separator starts with that character. */
  lemma SplitFirstStarts(s: string)
    requires s != [] && s[0] != ','
    ensures Split(s, ',')[0] != [] && Split(s, ',')[0][0] == s[0]
  {
  }

  // ------------------------------------------------------------ the filter

  datatype ZoneamentoSPFilter = ZoneamentoSPFilter(
    cdZoneamento: Option<string>, anLegislacao: Option<int>, cdTipoLegislacao: Option<string>, bbox: Option<string>)

  const MinYear := 1900
  const MaxYear := 2100

  /** `ZoneamentoSPFilter(...)`: a year must lie in [1900, 2100] and a bbox must match the pattern. */
  function NewZoneamentoFilter(cdZoneamento: Option<string>, anLegislacao: Option<int>, cdTipoLegislacao: Option<string>, bbox: Option<string>)
    : (f: Option<ZoneamentoSPFilter>)
    ensures f.Some? <==> (anLegislacao.None? || MinYear <= anLegislacao.value <= MaxYear) && (bbox.None? || MatchesBboxPattern(bbox.value))
    ensures f.Some? ==> f.value == ZoneamentoSPFilter(cdZoneamento, anLegislacao, cdTipoLegislacao, bbox)
  {
    if (anLegislacao.Some? && !(MinYear <= anLegislacao.value <= MaxYear)) || (bbox.Some? && !MatchesBboxPattern(bbox.value)) then None
    else Some(ZoneamentoSPFilter(cdZoneamento, anLegislacao, cdTipoLegislacao, bbox))
  }
}
