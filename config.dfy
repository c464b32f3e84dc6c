/**
 * The application settings (app/config.py): the defaults the API relies on,
 * the derived asynchronous database URL and the parsing of the CORS origins.
 */
module Config {
  import opened Wrappers
  import opened Text

  const ProjectName := "DataZone Energy API"
  const Version := "1.0.0"
  const ApiV1Prefix := "/api/v1"
  const DefaultCrs := "EPSG:4326"
  const SimplifyTolerance: real := 0.001
  const MaxGeometryComplexity := 10000
  const DefaultCorsOrigins := ["http://localhost:3000", "http://localhost:5173", "http://localhost:8000"]

  /** The synchronous driver prefix and its asynchronous replacement. */
  const SyncScheme := "postgresql://"
  const AsyncScheme := "postgresql+asyncpg://"

  /** What `compute_async_url` leaves in ASYNC_DATABASE_URL. */
  function AsyncUrlFor(databaseUrl: string, given: Option<string>): Option<string> {
    if given.None? && databaseUrl != "" then Some(ReplaceAll(databaseUrl, SyncScheme, AsyncScheme)) else given
  }

  /** A replacement changes nothing in a string where the pattern does not occur. */
  lemma {:induction false} ReplaceAllAbsent(s: string, pat: string, rep: string)
    requires pat != [] && !IsSubstring(pat, s)
    ensures ReplaceAll(s, pat, rep) == s
    decreases |s|
  {
    if |s| >= |pat| {
      assert !(pat <= s);
      ReplaceAllAbsent(s[1..], pat, rep);
    }
  }

  /**
   * An explicit ASYNC_DATABASE_URL is never overwritten; without one, a
   * non-empty DATABASE_URL yields one with no synchronous scheme left in it,
   * and an empty one yields none.
   */
  lemma AsyncUrlForSpec(databaseUrl: string, given: Option<string>)
    ensures given.Some? ==> AsyncUrlFor(databaseUrl, given) == given
    ensures given.None? ==> (AsyncUrlFor(databaseUrl, given).Some? <==> databaseUrl != "")
    ensures given.None? && databaseUrl != "" && !IsSubstring(SyncScheme, databaseUrl) ==> AsyncUrlFor(databaseUrl, given) == Some(databaseUrl)
    ensures forall rest :: given.None? && databaseUrl == SyncScheme + rest && !IsSubstring(SyncScheme, rest) ==>
      AsyncUrlFor(databaseUrl, given) == Some(AsyncScheme + rest)
  {
    if given.None? && databaseUrl != "" && !IsSubstring(SyncScheme, databaseUrl) {
      ReplaceAllAbsent(databaseUrl, SyncScheme, AsyncScheme);
    }
    forall rest | given.None? && databaseUrl == SyncScheme + rest && !IsSubstring(SyncScheme, rest)
      ensures AsyncUrlFor(databaseUrl, given) == Some(AsyncScheme + rest)
    {
      assert SyncScheme <= databaseUrl;
      assert databaseUrl[|SyncScheme|..] == rest;
      ReplaceAllAbsent(rest, SyncScheme, AsyncScheme);
    }
  }

  /** A value of BACKEND_CORS_ORIGINS as it reaches the validator. */
  datatype CorsValue = FromList(origins: seq<string>) | FromString(text: string)

  /**
   * `assemble_cors_origins`: a list passes through; a string is `json.loads`
   * when it parses (`loads` gives None on a JSONDecodeError), else split on
   * commas with every piece stripped.
   */
  function AssembleCorsOrigins(v: CorsValue, loads: string -> Option<seq<string>>): seq<string> {
    match v
    case FromList(origins) => origins
    case FromString(s) =>
      if loads(s).Some? then loads(s).value
      else
        var parts := Split(s, ',');
        seq(|parts|, i requires 0 <= i < |parts| => Strip(parts[i]))
  }

  /**
   * A list is returned unchanged; a string that is not JSON gives one
   * stripped, comma-free entry more than it has commas, the i-th being the
   * i-th comma-separated piece.
   */
  lemma CorsOriginsSpec(v: CorsValue, loads: string -> Option<seq<string>>)
    ensures v.FromList? ==> AssembleCorsOrigins(v, loads) == v.origins
    ensures v.FromString? && loads(v.text).Some? ==> AssembleCorsOrigins(v, loads) == loads(v.text).value
    ensures v.FromString? && loads(v.text).None? ==>
      var origins := AssembleCorsOrigins(v, loads);
      && |origins| == CountChar(v.text, ',') + 1
      && forall i :: 0 <= i < |origins| ==>
           && origins[i] == Strip(Split(v.text, ',')[i])
           && (origins[i] == [] || (!IsSpace(origins[i][0]) && !IsSpace(origins[i][|origins[i]| - 1])))
  {
    if v.FromString? && loads(v.text).None? {
      SplitCount(v.text, ',');
      var parts := Split(v.text, ',');
      forall i | 0 <= i < |parts| ensures var o := Strip(parts[i]); o == [] || (!IsSpace(o[0]) && !IsSpace(o[|o| - 1])) {
        StripTrims(parts[i]);
      }
    }
  }

  /** The settings object after validation. */
  class Settings {
    var databaseUrl: string
    var asyncDatabaseUrl: Option<string>
    var corsOrigins: seq<string>
    var apiV1Prefix: string
    var simplifyTolerance: real

    /** `Settings()` on the given environment; `compute_async_url` runs after the fields are set. */
    constructor(databaseUrl: string, asyncDatabaseUrl: Option<string>, cors: Option<CorsValue>, loads: string -> Option<seq<string>>)
      ensures this.databaseUrl == databaseUrl
      ensures this.asyncDatabaseUrl == AsyncUrlFor(databaseUrl, asyncDatabaseUrl)
      ensures corsOrigins == if cors.Some? then AssembleCorsOrigins(cors.value, loads) else DefaultCorsOrigins
      ensures apiV1Prefix == ApiV1Prefix && simplifyTolerance == SimplifyTolerance
    {
      this.databaseUrl := databaseUrl;
      this.asyncDatabaseUrl := asyncDatabaseUrl;
      corsOrigins := if cors.Some? then AssembleCorsOrigins(cors.value, loads) else DefaultCorsOrigins;
      apiV1Prefix := ApiV1Prefix;
      simplifyTolerance := SimplifyTolerance;
      new;
      ComputeAsyncUrl();
    }

    /** `compute_async_url`: derive the asynchronous URL when none was given. */
    method ComputeAsyncUrl()
      modifies this
      ensures asyncDatabaseUrl == AsyncUrlFor(databaseUrl, old(asyncDatabaseUrl))
      ensures databaseUrl == old(databaseUrl) && corsOrigins == old(corsOrigins)
      ensures apiV1Prefix == old(apiV1Prefix) && simplifyTolerance == old(simplifyTolerance)
    {
      if asyncDatabaseUrl.None? && databaseUrl != "" {
        asyncDatabaseUrl := Some(ReplaceAll(databaseUrl, SyncScheme, AsyncScheme));
      }
    }
  }

  /** Running the validator again changes nothing. */
  lemma ComputeAsyncUrlIdempotent(databaseUrl: string, given: Option<string>)
    ensures AsyncUrlFor(databaseUrl, AsyncUrlFor(databaseUrl, given)) == AsyncUrlFor(databaseUrl, given)
  {
  }
}
