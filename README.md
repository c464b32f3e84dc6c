# DataZone-staging, modelled in Dafny

DataZone serves Brazilian energy and telecom infrastructure as GeoJSON. It is
a FastAPI application over PostGIS with four resources: substations,
transmission lines, fibre-optic points and the São Paulo zoning. Python
scripts fill its tables from ANEEL geodatabases, Anatel CSV files and
BigQuery.

This project models the logic of that system and proves what it promises:
- the request policy of every endpoint (projected columns, bbox checks,
  filters, pagination, outcomes) and the zoning statistics;
- the security helpers;
- the conversion of rows into GeoJSON features;
- the ETL transforms, their chunked loads and staged pipelines;
- the configuration, database, rate-limit and schema helpers.

The model is organised as follows:
- **Shared modules.** `Wrappers`, `Values`, `Text`, `Like`, `Sql`, `Aggregate`,
  `Foreign` and `Http` give the vocabulary: values and rows as ordered
  dictionaries; Python string operations; PostgreSQL `LIKE`/`ILIKE`; a SELECT
  with WHERE/OFFSET/LIMIT on an in-memory table; `GROUP BY` and `ORDER BY`.
- **Foreign behaviour.** Everything the system calls but does not implement is
  a field of `Foreign.Engine`, and every lemma holds for every engine. That
  covers `float()`, rounding, ISO formatting, `json.loads`, the PostGIS
  intersection and simplification functions, shapely validity, CRS transforms
  and line length.
- **Endpoints.** Each of `Subestacoes`, `Linhas`, `Fibra` and `ZoneamentoSp` is
  a method that rebinds a query filter by filter, runs it and converts the
  rows in a loop. It is proved equal to a response function stated on the
  typed row: which rows match, which page is kept, which columns are shown.
- **ETL.**
  - `Frames` models the pandas operations the scripts use.
  - `Chunks` models the chunk loop over a `Table` class whose rows and write
    modes the loop updates.
  - `GisEtl` models what the geodatabase and CSV loaders share.
  - Each script is a module with its transforms as functions and its
    entry point as a method over a `Chunks.Table`.

## Model

| member | source | states |
|---|---|---|
| Values.Names | app/utils/geo_utils.py:45 | the keys of a row, one per field, in order |
| Values.Without | app/utils/geo_utils.py:48 | `pop` never lengthens the dictionary |
| Values.MapValues | app/utils/geo_utils.py:53-57 | a per-value map keeps every key and its position |
| Values.WithoutNames | app/utils/geo_utils.py:48 | popping k removes exactly k and keeps every other key |
| Values.WithoutGet | app/utils/geo_utils.py:48 | popping k leaves every other key's value unchanged |
| Values.WithoutAbsent | app/utils/geo_utils.py:48 | popping an absent key changes nothing |
| Values.GetAbsent | app/utils/geo_utils.py:48 | an absent key reads as missing |
| Values.LastColumn | app/api/v1/endpoints/subestacoes.py:127 | a row that ends with the geometry column pops to the rest of the row, and it reads that value |
| Text.Lower | app/api/v1/endpoints/subestacoes.py:101-102 | `lower()` maps every character and keeps the length |
| Text.Upper | app/api/v1/endpoints/subestacoes.py:98-99 | `upper()` maps every character and keeps the length |
| Text.UpperIdempotent | app/api/v1/endpoints/subestacoes.py:99 | upper-casing twice is upper-casing once |
| Text.ShortNotSubstring | app/core/security.py:97 | a pattern longer than the text never occurs in it |
| Text.CharNotSubstring | app/core/security.py:97 | a character absent from the text is not a one-character substring |
| Text.SubstringOfPrefix | app/core/security.py:100 | an occurrence in a prefix is an occurrence in the whole |
| Text.SliceToKeepsAbsence | app/core/security.py:100 | truncation cannot create an occurrence |
| Text.Split | app/config.py:57 | `split` always yields at least one part |
| Text.SplitCount | app/config.py:57 | splitting yields one more part than there are separators |
| Text.SplitPartsFree | app/core/rate_limit.py:34 | no part of a split contains the separator |
| Text.SplitJoin | app/config.py:57 | joining the parts with the separator gives the string back |
| Text.StripLeftTrims | app/config.py:57 | the left strip removes a prefix of white space (Python's full `isspace` set) and leaves none in front |
| Text.StripRightTrims | app/config.py:57 | the right strip removes a suffix of white space (Python's full `isspace` set) and leaves none behind |
| Text.StripTrims | app/core/rate_limit.py:34 | `strip()` leaves no `isspace` character at either end and keeps an already trimmed string |
| Text.RemoveAllShrinks | app/core/security.py:97 | removing a pattern never lengthens; an unchanged length means the pattern was absent |
| Text.RemoveAllKeepsChars | app/core/security.py:97 | removal only deletes characters |
| Text.RemoveCharRemovesAll | app/core/security.py:97 | removing a one-character pattern removes every copy of it |
| Text.SliceTo | app/core/security.py:100 | `s[:n]` is a prefix of s, for any n |
| Text.SliceFrom | app/core/security.py:201 | `s[n:]` is no longer than s, for any n |
| Like.Contains | app/api/v1/endpoints/subestacoes.py:102 | `f"%{s}%"` is s enclosed in two `%` |
| Like.PercentMatchesAll | app/api/v1/endpoints/subestacoes.py:102 | `%` matches every text |
| Like.PrefixPattern | app/api/v1/endpoints/subestacoes.py:102 | for q without `%`, `_` or the escape `\`, `LIKE q%` holds iff q is a prefix |
| Like.ContainsPattern | app/api/v1/endpoints/subestacoes.py:102 | for q without `%`, `_` or `\`, `LIKE %q%` holds iff q is a substring |
| Like.LowerKeepsWildcardFree | app/api/v1/endpoints/subestacoes.py:102 | lower-casing introduces no wildcard and no escape |
| Like.ILikeContains | app/api/v1/endpoints/subestacoes.py:101-102 | for input without `%`, `_` or `\`, `ILIKE %input%` holds iff the lower-cased input occurs in the lower-cased column |
| Like.UnderscoreIsWildcard | app/api/v1/endpoints/linhas.py:94-96 | input is not escaped: `_` in a filter matches any character |
| Like.BackslashEscapes | app/api/v1/endpoints/linhas.py:94-96 | `\` is PostgreSQL's default escape: the filter `a\b` matches the text "ab" and not the text `a\b` |
| Like.SuffixWellEscaped | app/api/v1/endpoints/subestacoes.py:102 | for any s, `s%` leaves no escape without a character after it: a final `\` of s escapes the `%` |
| Like.ContainsWellEscaped | app/api/v1/endpoints/subestacoes.py:102 | no filter input makes `f"%{s}%"` end in a lone escape, so PostgreSQL never raises on it |
| Sql.Select.Where | app/api/v1/endpoints/subestacoes.py:98-111 | `.where(c)` appends c to the conditions and changes nothing else |
| Sql.Select.OffsetLimit | app/api/v1/endpoints/subestacoes.py:114 | `.offset(s).limit(n)` sets exactly those two |
| Sql.NewSelect | app/api/v1/endpoints/subestacoes.py:58-80 | a fresh select has the columns, the geometry output, no condition and no page |
| Sql.AllHoldConcat | app/api/v1/endpoints/subestacoes.py:98-111 | successive `.where` calls AND together |
| Sql.AllHoldNone | app/api/v1/endpoints/subestacoes.py:58 | no condition accepts every row |
| Sql.AllHoldOne | app/api/v1/endpoints/subestacoes.py:98-99 | one condition accepts what it holds for |
| Sql.AllHoldAddIf | app/api/v1/endpoints/subestacoes.py:98-111 | an optional filter constrains only when its parameter is set |
| Sql.Filter | app/api/v1/endpoints/subestacoes.py:116-117 | the kept rows are input rows satisfying the predicate |
| Sql.FilterKeeps | app/api/v1/endpoints/subestacoes.py:116-117 | every row satisfying the predicate is kept |
| Sql.FilterAgree | app/api/v1/endpoints/subestacoes.py:116-117 | predicates that agree on the table keep the same rows |
| Sql.FilterConcat | app/api/v1/endpoints/subestacoes.py:116-117 | filtering distributes over concatenation |
| Sql.Page | app/api/v1/endpoints/subestacoes.py:114 | OFFSET then LIMIT: row i of the page is row offset+i, and the length is min(limit, n-offset) |
| Sql.PagesAdjacent | app/api/v1/endpoints/linhas.py:104 | two consecutive pages of n rows are the page of 2n |
| Sql.ProjectRow | app/api/v1/endpoints/subestacoes.py:58-80 | a result row is the selected columns in order, then the GeoJSON text labelled "geometry" |
| Sql.ProjectAll | app/api/v1/endpoints/subestacoes.py:116-117 | one projected row per table row, in order |
| Sql.ExecuteAsFilter | app/api/v1/endpoints/subestacoes.py:116-117 | a query's result is the page of the rows a matching reference predicate accepts |
| Aggregate.Distinct | app/api/v1/endpoints/zoneamento_sp.py:283 | each key once, and exactly the keys present |
| Aggregate.GroupBy | app/api/v1/endpoints/zoneamento_sp.py:279-283 | one group per distinct key, counting the rows with that key |
| Aggregate.GroupByCounts | app/api/v1/endpoints/zoneamento_sp.py:279-283 | groups have distinct keys, exact counts and cover every key |
| Aggregate.Insert | app/api/v1/endpoints/zoneamento_sp.py:284 | insertion adds one element |
| Aggregate.InsertPermutes | app/api/v1/endpoints/zoneamento_sp.py:284 | insertion adds x to the multiset and nothing else |
| Aggregate.InsertMembers | app/api/v1/endpoints/zoneamento_sp.py:284 | every element after insertion is x or was there |
| Aggregate.InsertSorted | app/api/v1/endpoints/zoneamento_sp.py:284 | insertion keeps non-increasing order |
| Aggregate.SortDesc | app/api/v1/endpoints/zoneamento_sp.py:284 | `ORDER BY ... DESC` keeps the length |
| Aggregate.SortDescPermutes | app/api/v1/endpoints/zoneamento_sp.py:284 | sorting is a permutation |
| Aggregate.SortDescSorted | app/api/v1/endpoints/zoneamento_sp.py:284 | sorting gives non-increasing rank |
| Aggregate.Take | app/api/v1/endpoints/zoneamento_sp.py:285 | `LIMIT n` is the first min(n, len) elements |
| Aggregate.DistinctCount | app/api/v1/endpoints/zoneamento_sp.py:283 | a repetition-free sequence holds each element at most once |
| Aggregate.TwiceCounted | app/api/v1/endpoints/zoneamento_sp.py:283 | an element at two positions is counted at least twice |
| Aggregate.PermutationKeepsKeysDistinct | app/api/v1/endpoints/zoneamento_sp.py:284 | a reordering keeps keys distinct |
| Aggregate.SortKeepsGroups | app/api/v1/endpoints/zoneamento_sp.py:284 | sorting keeps the key and count facts |
| Aggregate.TopByCount | app/api/v1/endpoints/zoneamento_sp.py:279-289 | the top n groups are sorted by count, with distinct keys, each counted exactly |
| Aggregate.TopByCountMaximal | app/api/v1/endpoints/zoneamento_sp.py:284-285 | no key left out of the top n has more rows than a key kept |
| Aggregate.FilterKeepsKeysDistinct | app/api/v1/endpoints/zoneamento_sp.py:302 | keeping some groups keeps their keys distinct |
| Api.RowToEndpointFeature | app/api/v1/endpoints/subestacoes.py:125-137 | one iteration of the endpoints' row loop computes the feature of its row, or fails |
| Api.EndpointFeatures | app/api/v1/endpoints/subestacoes.py:124-139 | features exist iff every row converts; then one per row, in order |
| Api.RowsToFeatures | app/api/v1/endpoints/subestacoes.py:124-139 | the `for row in rows` loop yields exactly those features |
| Api.ProjectedRowFeature | app/api/v1/endpoints/subestacoes.py:126-137 | a projected row's feature has exactly the selected columns as properties and the parsed geometry (None when NULL or empty) |
| Api.ProjectedFeatures | app/api/v1/endpoints/subestacoes.py:124-139 | every feature of a converted result carries exactly the selected columns of its row |
| GeoUtils.Properties | app/utils/geo_utils.py:52-57 | same keys in the same order, ISO text for date values, every other value kept |
| GeoUtils.FillProperties | app/utils/geo_utils.py:52-57 | the properties loop builds exactly those properties |
| GeoUtils.PropertiesGet | app/utils/geo_utils.py:52-57 | a key reads the projected value of the row's entry |
| GeoUtils.PropertiesNames | app/utils/geo_utils.py:52-57 | the properties have exactly the row's keys |
| GeoUtils.GeometryToGeoJson | app/utils/geo_utils.py:13-30 | None exactly for NULL; `mapping(to_shape(g))` for a geometry; raises (outer None) exactly when the value is neither |
| GeoUtils.RowToFeature | app/utils/geo_utils.py:33-59 | pop the geometry column, convert it, then fill the properties entry by entry; raises exactly when the geometry column holds neither a geometry nor NULL |
| GeoUtils.RowFeatureContents | app/utils/geo_utils.py:45-59 | type "Feature"; property keys are the row's keys minus the geometry column, with projected values; no geometry when the column is absent or NULL, `mapping` of it when it is a geometry |
| GeoUtils.RowsToFeatureCollection | app/utils/geo_utils.py:62-77 | raises iff some row's conversion raises; otherwise "FeatureCollection" with feature i built from row i |
| GeoUtils.CollectionConcat | app/utils/geo_utils.py:75 | the collection of concatenated rows raises iff either part does, and otherwise concatenates the collections |
| Security.ParseBbox | app/core/security.py:157-160 | a parsed bbox came from exactly four comma-separated parts |
| Security.ValidateBboxMeaning | app/core/security.py:142-184 | `ValidateBbox`: `validate_bbox` holds iff the string parses to a box with both corners on the globe, strictly ordered, each span at most 10 |
| Security.ValidateBboxRejects | app/core/security.py:152-160 | `ValidateBbox`: the empty string, a part count other than 4 and an unparsable part are rejected |
| Security.SpanLimitInclusive | app/core/security.py:178-181 | `ValidateBbox`: a span of exactly 10 degrees is accepted, anything wider is not |
| Security.ValidatedBboxParses | app/core/security.py:157-184 | an accepted string unpacks into four floats |
| Security.SanitizeSqlInput | app/core/security.py:76-102 | None stays None, non-strings pass unchanged, a string loses the patterns in order and is cut to 1000 characters without ';' |
| Security.RemovePatternsKeepsAbsentChar | app/core/security.py:96-97 | a character absent before the removals stays absent |
| Security.SemicolonRemoved | app/core/security.py:93-100 | `SanitizedText`: the sanitized text has no ';' and at most 1000 characters |
| Security.RemovePatternsSplit | app/core/security.py:96-97 | removing a list of patterns is removing its first part, then the rest |
| Security.RemovePatternsShrinks | app/core/security.py:96-97 | removal never lengthens, and leaves the text unchanged only when no pattern occurs |
| Security.CommentSurvives | app/core/security.py:96-97 | one pass turns "-xp_-" into "--" |
| Security.SanitizeSqlInputToFixpoint | app/core/security.py:93-100 | repeating the pass until it changes nothing leaves none of the patterns, within 1000 characters |
| Security.MaskShape | app/core/security.py:198-201 | `MaskSensitiveData`, for show_chars ≥ 1: "***" for short data, otherwise first and last show_chars around "...", length 2·show_chars+3 |
| Security.MaskZeroRevealsAll | app/core/security.py:201 | `MaskSensitiveData`: with show_chars 0 the mask is "..." followed by the whole data |
| Security.MaskFixedRevealsAtMost | app/core/security.py:187-201 | `MaskSensitiveDataFixed`: the corrected mask shows at most 2·show_chars characters and agrees with the original for show_chars ≥ 1 |
| Security.RoundCoordinatesShape | app/core/security.py:204-219 | `RoundCoordinates`: rounding keeps the nesting, the list lengths and every non-numeric leaf |
| Security.RoundCoordinatesIdempotent | app/core/security.py:204-219 | with an idempotent `round`, rounding twice is rounding once |
| Security.StripSensitiveContents | app/core/security.py:127-129 | `StripSensitive`: after the pops no sensitive key remains and every other key keeps its value |
| Security.StripSensitiveIdempotent | app/core/security.py:127-129 | stripping twice is stripping once |
| Security.StripSensitiveNoOp | app/core/security.py:127-129 | properties without sensitive keys are unchanged |
| Security.SanitizedFeatureContents | app/core/security.py:120-137 | `SanitizedFeature`: a sanitized feature carries no sensitive key, keeps the rest, leaves features without properties untouched, and is idempotent when rounding is |
| Security.SanitizeGeojsonOutput | app/core/security.py:105-139 | the in-place loop: on success every feature is sanitized; when feature k raises, those before are sanitized, k holds its partial update, and the rest are untouched |
| Subestacoes.HoldsUf | app/api/v1/endpoints/subestacoes.py:98-99 | the `uf` condition is equality with the stored text |
| Subestacoes.HoldsText | app/api/v1/endpoints/subestacoes.py:101-102 | the `municipio` and `operador` conditions are ILIKE on a present column |
| Subestacoes.HoldsTension | app/api/v1/endpoints/subestacoes.py:104-108 | the voltage bounds compare a present voltage inclusively |
| Subestacoes.HoldsBox | app/api/v1/endpoints/subestacoes.py:83-96 | the bbox condition is the geometry engine's intersection |
| Subestacoes.CondsMeanMatches | app/api/v1/endpoints/subestacoes.py:83-111 | `Conds` versus `Matches`: the built conditions accept exactly the rows the typed reference predicate accepts |
| Subestacoes.AddAttributeFilters | app/api/v1/endpoints/subestacoes.py:98-111 | each optional filter rebinds the query with its condition, in source order |
| Subestacoes.ExecuteSelects | app/api/v1/endpoints/subestacoes.py:114-117 | the built query returns the projected page of matching rows |
| Subestacoes.ListResponseExecuted | app/api/v1/endpoints/subestacoes.py:36-139 | `ListResponse`: the response on an available table is the listing of the executed query |
| Subestacoes.GetSubestacoes | app/api/v1/endpoints/subestacoes.py:36-144 | the handler computes the reference response: 400 for a rejected bbox before any filter, 500 on a failing table, else the listing |
| Subestacoes.GetSubestacaoById | app/api/v1/endpoints/subestacoes.py:154-203 | the by-id handler computes its reference response |
| Subestacoes.ListingContents | app/api/v1/endpoints/subestacoes.py:58-70 | a listing has no metadata and one feature per selected row whose properties are the selected columns, never the bookkeeping ones |
| Subestacoes.BookkeepingNotSelected | app/api/v1/endpoints/subestacoes.py:58-70 | `created_at`, `updated_at` and `data_source` are not selected |
| Subestacoes.UfFilter | app/api/v1/endpoints/subestacoes.py:98-99 | a matching substation's `uf` equals the upper-cased parameter |
| Subestacoes.SubstringFilters | app/api/v1/endpoints/subestacoes.py:101-111 | `municipio` and `operador` are case-insensitive substring tests for input without `%`, `_` or `\` |
| Subestacoes.TensionBounds | app/api/v1/endpoints/subestacoes.py:104-108 | lo ≤ voltage ≤ hi, inclusive, even at 0; no voltage fails either bound |
| Subestacoes.ByIdContents | app/api/v1/endpoints/subestacoes.py:175-198 | `ByIdResponse`: 404 iff no row has the id; else the first such row, selected columns only, unsimplified |
| Linhas.HoldsText | app/api/v1/endpoints/linhas.py:94-101 | the text conditions are ILIKE on the present column |
| Linhas.HoldsTension | app/api/v1/endpoints/linhas.py:88-92 | the voltage bounds compare inclusively |
| Linhas.HoldsBox | app/api/v1/endpoints/linhas.py:80-84 | the bbox condition is the intersection |
| Linhas.CondsMeanMatches | app/api/v1/endpoints/linhas.py:80-101 | `Conds` versus `Matches`: the built conditions accept exactly the matching lines |
| Linhas.AddAttributeFilters | app/api/v1/endpoints/linhas.py:88-101 | each optional filter rebinds the query in source order |
| Linhas.ExecuteSelects | app/api/v1/endpoints/linhas.py:104-111 | the built query returns the projected page of matching rows |
| Linhas.ListResponseExecuted | app/api/v1/endpoints/linhas.py:33-128 | `ListResponse`: the response on an available table is the listing of the executed query |
| Linhas.GetLinhas | app/api/v1/endpoints/linhas.py:33-133 | the handler computes the reference response |
| Linhas.GetLinhaById | app/api/v1/endpoints/linhas.py:143-192 | the by-id handler computes its reference response |
| Linhas.ListingContents | app/api/v1/endpoints/linhas.py:55-77 | one feature per selected row, in order, with the selected columns including `created_at` and `data_source` |
| Linhas.BboxOnlyParsed | app/api/v1/endpoints/linhas.py:80-86 | 400 iff the bbox does not unpack into four floats; no range check |
| Linhas.TensionBounds | app/api/v1/endpoints/linhas.py:88-92 | lo ≤ voltage ≤ hi, inclusive |
| Linhas.SubstringFilter | app/api/v1/endpoints/linhas.py:94-101 | a text filter is a case-insensitive substring test for input without `%`, `_` or `\` |
| Linhas.ByIdContents | app/api/v1/endpoints/linhas.py:152-187 | `ByIdResponse`: 404 iff no row has the id; else the first such row, unsimplified |
| Fibra.HoldsText | app/api/v1/endpoints/fibra.py:87-97 | text conditions are ILIKE or equality on the present column |
| Fibra.HoldsCapacity | app/api/v1/endpoints/fibra.py:99-100 | `capacidade_min` is an inclusive lower bound on a present capacity |
| Fibra.HoldsBox | app/api/v1/endpoints/fibra.py:79-83 | the bbox condition is the intersection |
| Fibra.CondsMeanMatches | app/api/v1/endpoints/fibra.py:79-100 | `Conds` versus `Matches`: the built conditions accept exactly the matching points |
| Fibra.AddAttributeFilters | app/api/v1/endpoints/fibra.py:87-100 | each optional filter rebinds the query in source order |
| Fibra.ExecuteSelects | app/api/v1/endpoints/fibra.py:103-110 | the built query returns the projected page of matching rows |
| Fibra.ListResponseExecuted | app/api/v1/endpoints/fibra.py:33-127 | `ListResponse`: the response on an available table is the listing of the executed query |
| Fibra.GetFibra | app/api/v1/endpoints/fibra.py:33-132 | the handler computes the reference response; an unparsable bbox is 400 |
| Fibra.GetFibraById | app/api/v1/endpoints/fibra.py:142-190 | the by-id handler computes its reference response |
| Fibra.ListingContents | app/api/v1/endpoints/fibra.py:55-76 | one feature per selected row; `updated_at` never appears |
| Fibra.UnselectedColumns | app/api/v1/endpoints/fibra.py:55-66 | `updated_at` and `geometry` are not among the selected columns |
| Fibra.TextFilters | app/api/v1/endpoints/fibra.py:87-97 | `uf` equals the upper-cased parameter; the other text filters are case-insensitive substring tests for input without `%`, `_` or `\` |
| Fibra.ByIdContents | app/api/v1/endpoints/fibra.py:151-185 | `ByIdResponse`: 404 iff no row has the id; else the first such row, unsimplified |
| ZoneamentoSp.Tolerance | app/api/v1/endpoints/zoneamento_sp.py:90 | the requested tolerance when given and non-zero, else the configured one |
| ZoneamentoSp.HoldsCodes | app/api/v1/endpoints/zoneamento_sp.py:115-128 | the code and legislation-type conditions are ILIKE |
| ZoneamentoSp.HoldsYear | app/api/v1/endpoints/zoneamento_sp.py:120-121 | the year condition is equality |
| ZoneamentoSp.HoldsBox | app/api/v1/endpoints/zoneamento_sp.py:108-110 | the bbox condition is the intersection |
| ZoneamentoSp.CondsMeanMatches | app/api/v1/endpoints/zoneamento_sp.py:99-128 | `Conds` versus `Matches`: the built conditions accept exactly the matching zones |
| ZoneamentoSp.AddAttributeFilters | app/api/v1/endpoints/zoneamento_sp.py:115-128 | each optional filter rebinds the query in source order |
| ZoneamentoSp.ExecuteSelects | app/api/v1/endpoints/zoneamento_sp.py:131-138 | the built query returns the projected page of matching rows |
| ZoneamentoSp.ListResponseExecuted | app/api/v1/endpoints/zoneamento_sp.py:34-166 | `ListResponse`: the response on an available table is the listing of the executed query |
| ZoneamentoSp.GetZoneamento | app/api/v1/endpoints/zoneamento_sp.py:34-171 | the handler computes the reference response |
| ZoneamentoSp.GetZoneamentoById | app/api/v1/endpoints/zoneamento_sp.py:181-245 | the by-id handler computes its reference response |
| ZoneamentoSp.ListingContents | app/api/v1/endpoints/zoneamento_sp.py:140-166 | one feature per selected row; metadata count is the number of features, skip and limit echoed, tolerance reported only when simplified |
| ZoneamentoSp.BboxChecks | app/api/v1/endpoints/zoneamento_sp.py:99-112 | 400 when the bbox does not parse or its minimum corner is outside [-47,-46]×[-24,-23] |
| ZoneamentoSp.MaxCornerUnchecked | app/api/v1/endpoints/zoneamento_sp.py:104 | the maximum corner is never checked |
| ZoneamentoSp.TextFilters | app/api/v1/endpoints/zoneamento_sp.py:115-128 | code and legislation type are case-insensitive substring tests for input without `%`, `_` or `\`; a given year is equality |
| ZoneamentoSp.ByIdContents | app/api/v1/endpoints/zoneamento_sp.py:207-240 | `ByIdResponse`: 404 naming the id iff no row has it; else the first such row, simplified by the configured tolerance only |
| ZoneamentoSp.Codes | app/api/v1/endpoints/zoneamento_sp.py:283 | the grouping key of each zone is its code |
| ZoneamentoSp.Years | app/api/v1/endpoints/zoneamento_sp.py:297 | the grouping key of each zone is its year |
| ZoneamentoSp.KnownYearsConcat | app/api/v1/endpoints/zoneamento_sp.py:302 | the comprehension distributes over concatenation |
| ZoneamentoSp.KnownYearsOfNulls | app/api/v1/endpoints/zoneamento_sp.py:302 | NULL-year groups are all dropped |
| ZoneamentoSp.KnownYearsOfKnown | app/api/v1/endpoints/zoneamento_sp.py:302 | known-year groups are all kept with their counts |
| ZoneamentoSp.TiposContents | app/api/v1/endpoints/zoneamento_sp.py:278-289 | `StatsResponse` over `TiposQuery`: at most 20 distinct codes in non-increasing count order, each counted exactly, none left out having more |
| ZoneamentoSp.KnownGroupsSorted | app/api/v1/endpoints/zoneamento_sp.py:292-302 | the known-year groups are distinct, sorted and exact |
| ZoneamentoSp.KnownYearsOrdered | app/api/v1/endpoints/zoneamento_sp.py:302 | years come out strictly decreasing with their counts |
| ZoneamentoSp.AnosAreKnown | app/api/v1/endpoints/zoneamento_sp.py:298-302 | the NULL group, which PostgreSQL lists first, is dropped |
| ZoneamentoSp.AnosContents | app/api/v1/endpoints/zoneamento_sp.py:292-302 | `StatsResponse` over `AnosQuery`: the known years, each once, strictly decreasing, each with its number of zones |
| ZoneamentoSp.YearsListed | app/api/v1/endpoints/zoneamento_sp.py:302 | every zone's known year is reported |
| Frames.Column | scripts/extrair_anatel.py:232 | `df[c]` reads one value per row, None for a missing key |
| Frames.Overwrite | scripts/extrair_linhas_at.py:55 | overwriting changes only the fields named c |
| Frames.OverwriteGet | scripts/extrair_linhas_at.py:55 | overwriting keeps the keys and changes only what c reads |
| Frames.SubsetWellFormed | scripts/process_aneel_subestacoes.py:62 | rows taken from a well-formed frame form one |
| Frames.Assign | scripts/extrair_anatel.py:225 | `row[c] = v`: c reads v, every other key as before |
| Frames.AppendedGet | scripts/extrair_anatel.py:225 | appending a field does not change earlier keys |
| Frames.SetColumn | scripts/process_aneel_linhas.py:129 | `df[c] = vs`: row i holds vs[i] under c, the rest unchanged, c appended when new |
| Frames.SetColumnWellFormed | scripts/process_aneel_linhas.py:129 | column assignment keeps a frame well formed |
| Frames.SetConst | scripts/process_aneel_subestacoes.py:153 | `df[c] = v`: every row holds v under c, the rest unchanged |
| Frames.FillNa | scripts/extrair_anatel.py:229 | nulls of a present c become v; a frame without c is unchanged |
| Frames.FillWellFormed | scripts/extrair_anatel.py:225-229 | constants and fills keep a frame well formed |
| Frames.FillNaMany | scripts/extrair_sao_paulo_municipio.py:225-231 | a dictionary `fillna` keeps columns and rows |
| Frames.FillNaManyGet | scripts/extrair_sao_paulo_municipio.py:225-231 | a listed, present column has its nulls replaced by its value; every other column is unchanged |
| Frames.Drop | scripts/extrair_sao_paulo_municipio.py:215 | `drop(c, axis=1)` removes exactly c |
| Frames.Select | scripts/extrair_linhas_at.py:37 | a boolean mask keeps exactly the rows satisfying it |
| Frames.SelectWellFormed | scripts/extrair_linhas_at.py:37 | masking keeps a frame well formed |
| Frames.DropDuplicates | scripts/process_aneel_subestacoes.py:65 | each distinct row once, and only input rows |
| Frames.DropDuplicatesWellFormed | scripts/process_aneel_subestacoes.py:65 | dropping duplicates keeps a frame well formed |
| Frames.Keys | scripts/extrair_linhas_at.py:58-64 | the keys of a rename mapping, in order |
| Frames.NewNameOfAbsent | scripts/extrair_linhas_at.py:65 | a column not in the mapping keeps its name |
| Frames.ValidColumns | scripts/extrair_linhas_at.py:64 | the comprehension keeps exactly the mapping entries whose key is a column |
| Frames.ValidColumnsSameNames | scripts/extrair_linhas_at.py:64-65 | restricting the mapping to the columns renames those columns as before |
| Frames.RenameRecord | scripts/extrair_linhas_at.py:65 | each field takes its new name and keeps its value |
| Frames.Rename | scripts/extrair_linhas_at.py:65 | `rename(columns=m)` renames each column in place, keeping position and values |
| Frames.RenameOneGet | scripts/extrair_sao_paulo_municipio.py:197 | after a ↦ b, b reads what a read, a is gone, others unchanged |
| Frames.RenameGetUnmapped | scripts/extrair_linhas_at.py:65 | an unmapped key reads as before |
| Frames.NewNameUnmapped | scripts/extrair_linhas_at.py:65 | under such a mapping only k becomes k |
| Frames.RenameOneColumns | scripts/extrair_sao_paulo_municipio.py:197 | after a ↦ b, b is a column iff a or b was, a no longer is |
| Frames.RenamePresentKeys | scripts/extrair_subestacoes.py:60-69 | renaming through the present keys equals renaming through the whole mapping; other columns keep their names |
| Frames.AsFloat | scripts/extrair_linhas_at.py:37 | `astype(float)`: NaN exactly for null, numbers kept |
| Frames.Trunc | scripts/extrair_anatel.py:234 | `int()` of a float truncates toward zero |
| Frames.AsInt | scripts/extrair_anatel.py:232-233 | `astype(int)` raises on NaN and keeps integers |
| Frames.ToNumeric | scripts/extrair_anatel.py:234 | `to_numeric`: None for null, numbers kept |
| Chunks.TotalChunksCovers | scripts/extrair_anatel.py:260 | `TotalChunks`: the chunk count is the least k with k·c ≥ n (n/c rounded up) |
| Chunks.StartBelowEnd | scripts/extrair_anatel.py:260 | chunk i starts before the end iff i is below the chunk count |
| Chunks.AllChunksReachEnd | scripts/extrair_anatel.py:260-262 | the chunks together reach the end of the rows |
| Chunks.ChunkStarts | scripts/extrair_anatel.py:260 | `range(0, n, c)` is 0, c, 2c, ... below n |
| Chunks.Chunk | scripts/extrair_anatel.py:261-262 | each chunk holds between 1 and c rows |
| Chunks.ModeOf | scripts/extrair_anatel.py:266 | "replace" iff the chunk index is 0, else "append" |
| Chunks.Modes | scripts/extrair_anatel.py:266 | write i uses ModeOf(i) |
| Chunks.WrittenPrefix | scripts/extrair_anatel.py:260-262 | the first k chunks are the rows before min(k·c, n), each once and in order; all chunks together are all rows |
| Chunks.LoggedTotalOvershoots | scripts/extrair_anatel.py:258 | `LoggedTotalChunks`: the logged total is one too many exactly when c divides n |
| Chunks.LoggedTotalExample | scripts/extrair_anatel.py:258 | 20000 rows in chunks of 10000: 2 written, reported of 3 |
| Chunks.Table.constructor | scripts/extrair_anatel.py:268-274 | a table starts with its rows and no writes |
| Chunks.Table.ToSql | scripts/extrair_anatel.py:268-274 | "replace" sets the rows to the chunk, "append" adds it; the mode is logged |
| Chunks.WrittenStep | scripts/extrair_anatel.py:260-262 | one more chunk extends the written rows by its slice |
| Chunks.ModesStep | scripts/extrair_anatel.py:266 | one more write extends the modes by its own |
| Chunks.WriteChunks | scripts/extrair_anatel.py:260-292 | the loop writes chunk 0 with replace and the rest with append, stops at a failing write, and on success the table holds all rows |
| Chunks.InsertInChunks | scripts/extrair_anatel.py:252-299 | a zero chunk size raises before writing, a negative one writes nothing and succeeds, a positive one runs the loop |
| BigQueryEtl.InsertSucceedsIff | scripts/extrair_anatel.py:260-299 | the load succeeds iff no chunk write raises |
| ExtrairAnatel.ValidateTableNameAsWritten | scripts/extrair_anatel.py:302-326 | the validator as written: an accepted name is returned unchanged and is at most 63 long |
| ExtrairAnatel.ValidateTableName | scripts/extrair_anatel.py:302-326 | the corrected validator returns its input when accepting |
| ExtrairAnatel.ValidateTableNameMeaning | scripts/extrair_anatel.py:316-326 | accepted iff 1–63 characters of [A-Za-z0-9_]; otherwise rejected with the first failing check's message |
| ExtrairAnatel.AsWrittenAgreesWithoutNewline | scripts/extrair_anatel.py:316 | the two validators agree on names not ending in a newline |
| ExtrairAnatel.AsWrittenAcceptsTrailingNewline | scripts/extrair_anatel.py:316 | `$` lets "cobertura_fibra\n" through; the corrected validator rejects it |
| ExtrairAnatel.CastIntColumn | scripts/extrair_anatel.py:232-233 | `astype(int)` of a column succeeds iff the column exists and every value casts |
| ExtrairAnatel.Filled | scripts/extrair_anatel.py:225-229 | tagging and filling keep the rows and add `data_source` and `data_extracao` |
| ExtrairAnatel.DistinctNames | scripts/extrair_anatel.py:225-234 | the column names preparation touches are distinct |
| ExtrairAnatel.FillChainConsts | scripts/extrair_anatel.py:225-226 | after the chain each row holds both constants |
| ExtrairAnatel.FillChainThird | scripts/extrair_anatel.py:229 | a present first fill column holds its filled value |
| ExtrairAnatel.FillChainFourth | scripts/extrair_anatel.py:229 | a present second fill column holds its filled value |
| ExtrairAnatel.FillChainOthers | scripts/extrair_anatel.py:225-229 | every other column is unchanged |
| ExtrairAnatel.FilledRow | scripts/extrair_anatel.py:225-229 | a filled row holds the tags, the filled accesses and company, and the rest as before |
| ExtrairAnatel.CastColumnsSome | scripts/extrair_anatel.py:232-234 | the casts succeed iff the three columns exist and every year and month casts |
| ExtrairAnatel.CastColumnsRow | scripts/extrair_anatel.py:232-234 | year and month are cast, accesses coerced, others unchanged |
| ExtrairAnatel.PreparedRow | scripts/extrair_anatel.py:209-237 | a prepared row is its filled row with the three casts |
| ExtrairAnatel.PrepareTags | scripts/extrair_anatel.py:225-226 | every row is kept and tagged "ANATEL_BIGQUERY" with the extraction time |
| ExtrairAnatel.PrepareAccesses | scripts/extrair_anatel.py:229-234 | missing or non-numeric accesses become 0, others are truncated to an integer |
| ExtrairAnatel.PrepareCompany | scripts/extrair_anatel.py:229 | a missing company becomes "Não informado", a present one is kept |
| ExtrairAnatel.PrepareUntouched | scripts/extrair_anatel.py:209-237 | columns preparation does not name are untouched |
| ExtrairAnatel.PrepareCasts | scripts/extrair_anatel.py:232-233 | year and month are the integer casts of the row's values |
| ExtrairAnatel.PrepareNeedsColumns | scripts/extrair_anatel.py:232-234 | a prepared frame had the year, month and accesses columns |
| ExtrairAnatel.FilledKeepsDate | scripts/extrair_anatel.py:225-229 | filling does not change year and month |
| ExtrairAnatel.PrepareSucceedsWhen | scripts/extrair_anatel.py:232-234 | with the columns present and castable, preparation succeeds |
| ExtrairAnatel.PrepareFails | scripts/extrair_anatel.py:232-234 | `PrepareDataframe`: preparation raises exactly on a missing column or an uncastable year or month |
| ExtrairAnatel.DefaultTableAccepted | scripts/extrair_anatel.py:239 | the default table name passes both the validator as written and the corrected one |
| ExtrairAnatel.EmptyResultStops | scripts/extrair_anatel.py:395-397 | an empty query result stops at the query stage |
| ExtrairAnatel.IndexesDoNotMatter | scripts/extrair_anatel.py:407-415 | the outcome does not depend on index creation |
| ExtrairAnatel.AnatelBigQueryEtl.constructor | scripts/extrair_anatel.py:48-78 | a fresh pipeline has no clients |
| ExtrairAnatel.AnatelBigQueryEtl.InsertToPostgres | scripts/extrair_anatel.py:239-300 | a name `_validate_table_name` rejects as written (`ValidateTableNameAsWritten`) returns False without writing, so "cobertura_fibra\n" gets through; otherwise the chunk loop |
| ExtrairAnatel.AnatelBigQueryEtl.LoadPrepared | scripts/extrair_anatel.py:401-404 | the insert stage succeeds iff the loop does, and then the table holds all rows |
| ExtrairAnatel.AnatelBigQueryEtl.Run | scripts/extrair_anatel.py:362-420 | with `FirstFailure` using the validator as written: True iff no stage fails; the clients are set by the stages reached; on success the table holds the prepared rows; a failure before the insert writes nothing |
| ExtrairSaoPaulo.MultipolygonKinds | scripts/extrair_sao_paulo_municipio.py:203-210 | `ToMultipolygonWkt`: MULTIPOLYGON text results iff the input was POLYGON or MULTIPOLYGON text; MULTIPOLYGON and other text are unchanged |
| ExtrairSaoPaulo.UnwrapPolygon | scripts/extrair_sao_paulo_municipio.py:206-207 | POLYGON text becomes "MULTIPOLYGON(" + the rest after "POLYGON" + ")" |
| ExtrairSaoPaulo.MultipolygonIdempotent | scripts/extrair_sao_paulo_municipio.py:203-210 | converting twice is converting once |
| ExtrairSaoPaulo.ConvertGeometry | scripts/extrair_sao_paulo_municipio.py:212-215 | succeeds iff the WKT column exists and is all text; the column is replaced by `geometry` |
| ExtrairSaoPaulo.ConvertGeometryRow | scripts/extrair_sao_paulo_municipio.py:212-215 | a converted row holds the converted geometry, no WKT column, the rest as before |
| ExtrairSaoPaulo.ParseDates | scripts/extrair_sao_paulo_municipio.py:218-219 | the date column is parsed (NaT is null), the rest unchanged |
| ExtrairSaoPaulo.StagesOf | scripts/extrair_sao_paulo_municipio.py:184-234 | the frames between stages are those the stages produce |
| ExtrairSaoPaulo.StagesColumns | scripts/extrair_sao_paulo_municipio.py:197-222 | untouched columns stay present or absent |
| ExtrairSaoPaulo.StagesRow | scripts/extrair_sao_paulo_municipio.py:197-222 | a tagged row, key by key, in terms of the input row |
| ExtrairSaoPaulo.FillFor | scripts/extrair_sao_paulo_municipio.py:225-231 | the default a key's nulls take, if any |
| ExtrairSaoPaulo.PrepareWithRow | scripts/extrair_sao_paulo_municipio.py:184-234 | a prepared row is the tagged row with defaults in place of nulls |
| ExtrairSaoPaulo.PrepareWithValue | scripts/extrair_sao_paulo_municipio.py:184-234 | every key of a prepared row reads as the reference says |
| ExtrairSaoPaulo.PrepareFails | scripts/extrair_sao_paulo_municipio.py:204-215 | `PrepareDataframe`: preparation raises iff `geometry_wkt` is missing or not all text; otherwise it keeps every row |
| ExtrairSaoPaulo.PreparedRow | scripts/extrair_sao_paulo_municipio.py:184-234 | `id` moves to `id_original`, the WKT becomes `geometry`, the date is parsed, the source is "BIGQUERY_SP_ZONEAMENTO", the three text nulls become "" |
| ExtrairSaoPaulo.SpPreparedValue | scripts/extrair_sao_paulo_municipio.py:184-234 | the São Paulo reference is the generic one instantiated |
| ExtrairSaoPaulo.PreparedValueCases | scripts/extrair_sao_paulo_municipio.py:225-231 | the three fill columns are `tx_observacao_perimetro`, `cd_identificador` and `cd_usuario_atualizacao`, all filled with "" |
| ExtrairSaoPaulo.SourceTable | scripts/extrair_sao_paulo_municipio.py:125-140 | the query reads `project.dataset.table` |
| ExtrairSaoPaulo.BadGeometryStops | scripts/extrair_sao_paulo_municipio.py:369-374 | bad WKT fails the pipeline at preparation |
| ExtrairSaoPaulo.GoodResultLoads | scripts/extrair_sao_paulo_municipio.py:337-385 | a good result with a positive chunk size and no failing write succeeds |
| ExtrairSaoPaulo.ZoneamentoSpEtl.constructor | scripts/extrair_sao_paulo_municipio.py:42-74 | a fresh pipeline has no clients |
| ExtrairSaoPaulo.ZoneamentoSpEtl.InsertToPostgres | scripts/extrair_sao_paulo_municipio.py:236-296 | the chunk loop; True iff every chunk was written |
| ExtrairSaoPaulo.ZoneamentoSpEtl.Run | scripts/extrair_sao_paulo_municipio.py:337-390 | True iff no stage fails; on success the table holds the prepared rows; index creation is non-fatal |
| ExtrairSaoPaulo.GetEnv | scripts/extrair_sao_paulo_municipio.py:395-402 | `os.getenv(name, default)` |
| ExtrairSaoPaulo.ConfigureStarts | scripts/extrair_sao_paulo_municipio.py:392-416 | `Configure`: `main` starts iff the chunk size parses, the URL is set and non-empty, and neither name is its placeholder |
| ExtrairSaoPaulo.UnsetNamesRefused | scripts/extrair_sao_paulo_municipio.py:399-416 | unset BigQuery names keep their placeholders and are refused |
| ExtrairSaoPaulo.DefaultChunkSizeUsed | scripts/extrair_sao_paulo_municipio.py:402 | an unset ETL_CHUNK_SIZE gives 5000 |
| ExtrairSaoPaulo.Entry | scripts/extrair_sao_paulo_municipio.py:392-434 | exit 1 on a refused configuration, else 0 iff `run` succeeds |
| GisEtl.MapColumn | scripts/extrair_linhas_at.py:55 | `df[c].apply(fn)` maps c's values and nothing else; raises without c |
| GisEtl.ToCrs | scripts/extrair_linhas_at.py:46 | reprojection needs a CRS and a geometry column, and keeps columns and rows |
| GisEtl.ToWgs84 | scripts/extrair_linhas_at.py:45-46 | a frame already in WGS 84 is kept, any other is reprojected |
| GisEtl.ToWgs84Once | scripts/extrair_linhas_at.py:45-46 | reprojecting twice is reprojecting once |
| GisEtl.FilterHighVoltage | scripts/extrair_linhas_at.py:36-41 | raises iff some voltage is not a number; without `TEN_NOM` all rows are kept |
| GisEtl.HighVoltageRows | scripts/extrair_subestacoes.py:45-47 | with `TEN_NOM`, exactly the rows of at least 69 kV, in order |
| GisEtl.HighVoltageBoundary | scripts/extrair_subestacoes.py:46 | `IsHighVoltage`: 69 kV is kept; anything below and a null are not |
| GisEtl.RenamePresent | scripts/extrair_subestacoes.py:68-69 | the present-keys rename keeps row and column counts |
| GisEtl.FirstMatch | scripts/process_aneel_subestacoes.py:121-124 | the first layer whose lower-cased name contains a candidate |
| GisEtl.DetectLayerChoice | scripts/process_aneel_subestacoes.py:108-128 | `DetectLayer`: an explicit layer is used; otherwise the first match, else the first layer, None iff there are no layers |
| GisEtl.CleanGeometries | scripts/process_aneel_subestacoes.py:54-65 | needs a geometry column; no duplicates and no empty geometry remain |
| GisEtl.MapColumnRowOrigin | scripts/process_aneel_subestacoes.py:54-57 | every mapped row comes from an input row |
| GisEtl.CleanedRowsRepaired | scripts/process_aneel_subestacoes.py:54-65 | every cleaned row is a repaired input row |
| GisEtl.ValidateGdf | scripts/process_aneel_subestacoes.py:36-80 | needs a geometry column; the result is in WGS 84, with the cleaned rows |
| ExtrairLinhasAt.ForceMultiLineStringSpec | scripts/extrair_linhas_at.py:50-55 | `ForceMultiLineString`: a LineString becomes the MultiLineString of exactly that line, others unchanged, idempotent |
| ExtrairLinhasAt.TransformFails | scripts/extrair_linhas_at.py:36-65 | `Transform`: raises iff a voltage is not a number, there is no geometry column, or no CRS |
| ExtrairLinhasAt.TransformRowCount | scripts/extrair_linhas_at.py:36-41 | one row per high-voltage row; all rows without `TEN_NOM` |
| ExtrairLinhasAt.NoLineStringsLeft | scripts/extrair_linhas_at.py:55-65 | no row holds a LineString after the transform |
| ExtrairLinhasAt.MapUntouchesGeometry | scripts/extrair_linhas_at.py:58-63 | the mapping does not touch `geometry` |
| ExtrairLinhasAt.ExtrairLinhasAt | scripts/extrair_linhas_at.py:14-88 | a missing file returns first; else loaded (with replace) iff nothing raises; a failure leaves the table as it was |
| ExtrairSubestacoes.TransformFails | scripts/extrair_subestacoes.py:45-69 | `Transform`: raises iff a voltage is not a number, or a frame not in WGS 84 lacks a CRS or geometry |
| ExtrairSubestacoes.InWgs84KeepsValues | scripts/extrair_subestacoes.py:52-69 | in WGS 84 only the names change |
| ExtrairSubestacoes.NoVoltageColumnKeepsAll | scripts/extrair_subestacoes.py:48-50 | without `TEN_NOM` every row reaches the table |
| ExtrairSubestacoes.ExtrairSubestacoes | scripts/extrair_subestacoes.py:14-96 | a missing file returns first; else loaded (with replace) iff nothing raises |
| ProcessAneelSubestacoes.VoltageBandBins | scripts/process_aneel_subestacoes.py:186-190 | `VoltageBand`: label i iff Bins[i] < x ≤ Bins[i+1]; no band iff x ≤ 0 or x > 1000 |
| ProcessAneelSubestacoes.DistinctLabels | scripts/process_aneel_subestacoes.py:189 | the labels differ, so a voltage has at most one |
| ProcessAneelSubestacoes.VoltageBandEdges | scripts/process_aneel_subestacoes.py:186-190 | 69 is in the lowest band, 1000 in the highest, above 1000 none |
| ProcessAneelSubestacoes.PreparedTagged | scripts/process_aneel_subestacoes.py:145-153 | every appended row is tagged "ANEEL", one per validated row |
| ProcessAneelSubestacoes.ProcessSubestacoes | scripts/process_aneel_subestacoes.py:83-200 | a missing file returns first; no layers aborts; else the layer detected is read, validated, tagged and appended before the banding |
| ProcessAneelLinhas.WithLengthValues | scripts/process_aneel_linhas.py:125-129 | `WithLength`: `extensao_km` is computed only when absent; an existing column is kept |
| ProcessAneelLinhas.WithLengthIdempotent | scripts/process_aneel_linhas.py:125-129 | computing the length twice is once |
| ProcessAneelLinhas.PreparedRows | scripts/process_aneel_linhas.py:125-133 | every row is tagged "ANEEL" and, when the column was absent, holds its length |
| ProcessAneelLinhas.MixedVoltagesRaise | scripts/process_aneel_linhas.py:156-159 | `value_counts().sort_index()` raises when `tensao_kv` holds both a number and a text (`StatisticsRaise`) |
| ProcessAneelLinhas.ComputedLengthsDoNotRaise | scripts/process_aneel_linhas.py:125-166 | lengths computed from the geometries are numbers, so `sum`, `mean` and the `:,.2f` format raise only on a length column the file carried |
| ProcessAneelLinhas.ProcessLinhas | scripts/process_aneel_linhas.py:73-173 | a missing file returns first; no layers aborts iff none given and the list is empty; else validated rows are appended, and the outcome is Loaded iff they were appended and the statistics do not raise |
| ProcessAnatelFibra.FirstReadableSpec | scripts/process_anatel_fibra.py:91-106 | `FirstReadable`: no encoding decodes iff all raise decode errors; else the first that parses wins |
| ProcessAnatelFibra.ReadWithEncodings | scripts/process_anatel_fibra.py:94-106 | the loop with `break` returns the first readable encoding |
| ProcessAnatelFibra.WithCoordinates | scripts/process_anatel_fibra.py:54 | `dropna` keeps exactly the rows with both coordinates |
| ProcessAnatelFibra.CreateGeometryFails | scripts/process_anatel_fibra.py:37-64 | `CreateGeometryFromCoords`: fails iff a column is missing or a kept row has a non-numeric coordinate |
| ProcessAnatelFibra.CreateGeometryRows | scripts/process_anatel_fibra.py:54-60 | one point per kept row, in order, built (lon, lat) |
| ProcessAnatelFibra.PreparedRows | scripts/process_anatel_fibra.py:131-140 | invalid geometries and duplicates removed, every row tagged "ANATEL" |
| ProcessAnatelFibra.ProcessFibraOptica | scripts/process_anatel_fibra.py:67-180 | a missing file returns first; no encoding aborts; else the prepared rows are appended |
| RateLimit.SplitFirstPrefix | app/core/rate_limit.py:34 | the first part is the longest separator-free prefix |
| RateLimit.StripKeepsChars | app/core/rate_limit.py:34 | `strip()` only removes characters |
| RateLimit.ClientIdentifierSpec | app/core/rate_limit.py:15-45 | `ClientIdentifier` is the stripped first forwarded element, else the remote address, else the user agent or "unknown" |
| RateLimit.ForwardedChain | app/core/rate_limit.py:31-35 | " a, b" identifies the client "a" |
| RateLimit.GetRateLimit | app/core/rate_limit.py:144-154 | the table value for a known operation, "50/minute" otherwise |
| RateLimit.DefaultIsMediumRead | app/core/rate_limit.py:130-154 | an unknown operation gets the medium-read limit; six operations |
| RateLimit.WhitelistExactly | app/core/rate_limit.py:215-240 | `IsWhitelisted` accepts exactly the three local addresses, in debug mode or not |
| RateLimit.RateLimitExceeded | app/core/rate_limit.py:48-85 | status 429 with the four keys, the path and limit echoed, Retry-After "60" |
| RateLimit.ExceededEchoesOnly | app/core/rate_limit.py:73-84 | responses differ only in the echoed path and limit |
| Config.ReplaceAllAbsent | app/config.py:31 | a replacement without an occurrence changes nothing |
| Config.AsyncUrlForSpec | app/config.py:27-33 | `AsyncUrlFor`: a given URL is kept; otherwise derived iff DATABASE_URL is non-empty, with every sync prefix replaced |
| Config.CorsOriginsSpec | app/config.py:49-58 | `AssembleCorsOrigins`: a list passes unchanged, JSON text is loaded, other text is split on ',' and each piece stripped |
| Config.Settings.constructor | app/config.py:17-63 | the defaults, the CORS value and the derived async URL |
| Config.Settings.ComputeAsyncUrl | app/config.py:27-33 | sets only the async URL, never overwriting a given one |
| Config.ComputeAsyncUrlIdempotent | app/config.py:27-33 | running the validator again changes nothing |
| Database.AsyncDatabaseUrlSpec | app/core/database.py:27-30 | `AsyncDatabaseUrl`: a leading sync prefix is replaced once; any other URL is kept; idempotent |
| Database.AsyncUrlsAgree | app/core/database.py:27-30 | both rewrites agree on a prefixed URL with no other occurrence |
| Database.AsyncUrlsDiffer | app/config.py:31 | they differ when the prefix occurs after the first character |
| Database.EngineUrls | app/core/database.py:34-35 | the environment's URLs win; else the settings' URL and its rewrite |
| Database.Session.constructor | app/core/database.py:73-86 | a session starts with no calls |
| Database.Session.Commit | app/core/database.py:80 | records a commit |
| Database.Session.Rollback | app/core/database.py:82 | records a rollback |
| Database.Session.Close | app/core/database.py:85-86 | records a close |
| Database.GetDbEventsOrder | app/core/database.py:78-86 | commit then close on success; on an exception rollback then close; close exactly once, last |
| Database.GetDb | app/core/database.py:73-86 | the session sees exactly those calls, and it raises iff the handler or the commit raised |
| Database.CheckDbConnection | app/core/database.py:126-138 | True iff the query runs; never raises |
| MainApp.HealthCheck | app/main.py:97-117 | 200 healthy and connected iff the check is true, 503 otherwise |
| MainApp.HealthFollowsProbe | app/main.py:103-106 | a connection or query exception answers 503 |
| MainApp.Root | app/main.py:121-135 | the project name, version, docs and health paths |
| MainApp.GlobalExceptionHandler | app/main.py:157-169 | 500 with the fixed detail and the exception's type name |
| MainApp.ExceptionHandlerHidesMessage | app/main.py:157-169 | the body depends only on the exception's class |
| Schemas.NewBBoxFilter | app/schemas/base.py:58-64 | accepted iff each longitude is in [-180,180] and each latitude in [-90,90] |
| Schemas.BBoxFilterUnordered | app/schemas/base.py:61-64 | swapped corners are accepted |
| Schemas.NewPagination | app/schemas/base.py:77-81 | skip ≥ 0 (default 0) and 1 ≤ limit ≤ 1000 (default 100) |
| Schemas.PaginationDefaults | app/schemas/base.py:80-81 | defaults are valid; limits outside 1..1000 are not |
| Schemas.NewFeature | app/schemas/base.py:26-31 | type defaults to "Feature" |
| Schemas.NewFeatureCollection | app/schemas/base.py:34-38 | type defaults to "FeatureCollection" |
| Schemas.DefaultTypes | app/schemas/base.py:29-37 | default features and collections are GeoJSON-shaped |
| Schemas.NewProperties | app/schemas/base.py:17-23 | `id` is required; `created_at`, `updated_at` and `data_source` are the supplied values, None when not supplied |
| Schemas.NewZoneamentoProperties | app/schemas/zoneamento_sp.py:11-32 | two required fields; the text fields, `an_legislacao`, `dt_atualizacao`, `created_at` and `updated_at` as supplied; `data_source` defaults to "BIGQUERY_SP_ZONEAMENTO" |
| Schemas.ZoneamentoDefaults | app/schemas/zoneamento_sp.py:14-32 | from the required fields alone every base field is None |
| Schemas.SplitAfter | app/schemas/zoneamento_sp.py:53 | splitting after a separator-free prefix gives that part, then the rest |
| Schemas.FourNumbersMatch | app/schemas/zoneamento_sp.py:53 | four numbers joined by commas match the pattern |
| Schemas.ExampleBboxMatches | app/schemas/zoneamento_sp.py:53 | "-1.5,2,3.,-4" matches |
| Schemas.MatchAlphabet | app/schemas/zoneamento_sp.py:53 | a matching string uses only digits, '-', '.' and ',' |
| Schemas.NumberAlphabet | app/schemas/zoneamento_sp.py:53 | a number uses only digits, '.' and '-' |
| Schemas.PatternRejects | app/schemas/zoneamento_sp.py:53 | white space, exponents, a leading '.' and a comma count other than 3 are rejected |
| Schemas.NewZoneamentoFilter | app/schemas/zoneamento_sp.py:38-54 | accepted iff the year is in [1900,2100] and the bbox matches the pattern |

## Left out

- I/O, logging, timing, throughput and statistics printouts are not modelled. The exceptions are the statistics that can raise after an insert (ProcessAneelSubestacoes.ProcessSubestacoes, ProcessAneelLinhas.ProcessLinhas), which are modelled. Files, BigQuery, Google credentials, the database and layer listings are parameters: a flag, an `Option`, a function value or a `Chunks.Table`.
- Geometry, float parsing, rounding, ISO formatting, JSON parsing, date parsing and CRS transforms are fields of `Foreign.Engine`. CRSs are EPSG integers.
- FastAPI `Query(...)` validation (`ge`, `le`, `max_length`, leading to a 422) happens before the handlers. The models accept any parameter values.
- Error details hold `str(e)` text, which is modelled as a fixed prefix only.
- Ties in `ORDER BY count DESC` are ordered by a stable sort, while a database may order them otherwise. Every proved property holds for any tie order.
- pandas in-place updates (`df[c] = ...`, `gdf.loc[...] = ...`, `set_crs(inplace=True)`) are modelled as rebinding a new frame. No frame is shared, so nothing observable is lost.
- In app/api/v1/endpoints/subestacoes.py:88-96 the bbox is parsed a second time after `validate_bbox`. The model proves that parse always succeeds.
- The `main` of scripts/extrair_anatel.py (argument parsing) is not modelled. `run` is modelled from its inputs.
- The CREATE INDEX stages are modelled only as a flag whose value is ignored, as `run` ignores it.
- The JSON branch of `assemble_cors_origins` takes whatever `json.loads` returns as a list of strings. Other JSON shapes are not modelled.
- slowapi's counting, storage and decorators, `rate_limit_endpoint`, `RateLimitMiddleware` and `get_rate_limit_status` are not modelled: they are library plumbing or a pass-through.
- `get_remote_address`'s fallback inside slowapi is not modelled. The remote address is a parameter.
- Text.Lower: maps only ASCII and Latin-1 letters, one character to one. Python's `str.lower` maps all of Unicode ('Ā' becomes 'ā'; 'İ' becomes two characters). The source lower-cases layer names. The model also uses this mapping for ILIKE's case folding, which PostgreSQL does by the database's locale.
- Text.Upper: maps only ASCII and Latin-1 letters and keeps the length. Python's `str.upper` maps all of Unicode and can lengthen a string ('ß' becomes "SS"). The source upper-cases two-letter state codes.
- Like.Like: a pattern ending in a lone `\` matches nothing here, where PostgreSQL raises an error. Like.ContainsWellEscaped shows no endpoint filter builds such a pattern.
- Security.ValidateBbox: floats are exact reals here, with no NaN, no infinities and no IEEE rounding. `eng.parseFloat` yields an exact real, and the span test `maxx - minx > 10` is exact subtraction. With doubles, "-137.99,0,-127.99,1" has a span just above 10 and is rejected by the source, while "-17.96,0,-7.96,1" gives exactly 10.0 and is accepted. The model's verdict on inputs like these can differ from the source's.
- Security.ValidateBboxMeaning: the box conditions it proves are about exact arithmetic on the parsed reals, not about IEEE doubles (see Security.ValidateBbox).
- Security.SpanLimitInclusive: "a span of exactly 10 is accepted" is about the exact difference. With doubles, the rounded difference decides (see Security.ValidateBbox).
- Linhas.BboxOnlyParsed: `float(...)` is `eng.parseFloat` into an exact real. The "nan" and "inf" inputs Python accepts are not modelled as special values, so NaN comparisons in the spatial filter are not captured.
- Fibra.GetFibra: the bbox parts and the float Query parameter `capacidade_min` are exact reals, as are `tensao_min` and `tensao_max` in the Linhas and Subestacoes request models. The SQL comparisons against them are exact, with no rounding, NaN or infinities.
- `\d` in the zoning bbox pattern is modelled as the ASCII digits: Python also accepts other Unicode digits.
- The async context manager of `get_db` closes the session a second time. That close is idempotent and is not modelled.
- `pd.cut` on numeric text is modelled as raising, and so is shapely `Point` on non-numbers.
- MainApp.Root: states only that `rate_limit_status` starts with "/api/v1", not the whole path "/api/v1/rate-limit-status".
- The encryption helpers at app/core/security.py:26-73 are not modelled.
- `simplify_geometry_query` (app/utils/geo_utils.py:80-90) formats a float into SQL text and is not modelled.
- `round_coordinates` is modelled for its structure only: rounding is an abstract leaf map.

## Findings

| source | as written | input that shows it | evidently intended | confidence | as-written member | corrected member |
|---|---|---|---|---|---|---|
| app/core/security.py:93-100 | one pass removes each pattern in turn, so a later removal can form an earlier pattern | "-xp_-" becomes "--" | no dangerous pattern left in the result | not executed | Security.CommentSurvives | Security.SanitizeSqlInputToFixpoint |
| app/core/security.py:198-201 | `data[-show_chars:]` with show_chars 0 is the whole string | show_chars=0, data "secret" gives "...secret" | show no characters when show_chars is 0 | not executed | Security.MaskZeroRevealsAll | Security.MaskFixedRevealsAtMost |
| scripts/extrair_anatel.py:258 | `total_chunks = n // c + 1` | n=20000, c=10000: 2 chunks written, logged "of 3" | n / c rounded up | not executed | Chunks.LoggedTotalOvershoots | Chunks.TotalChunksCovers |
| scripts/extrair_anatel.py:316 | `re.match(r"^[a-zA-Z0-9_]+$", ...)`: `$` also matches before a final newline | "cobertura_fibra\n" is accepted and reaches the SQL | only letters, digits and underscores | not executed | ExtrairAnatel.AsWrittenAcceptsTrailingNewline | ExtrairAnatel.ValidateTableNameMeaning |
