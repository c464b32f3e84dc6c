/** The handlers app/main.py defines itself: health, the root banner and the last-resort error handler. */
module MainApp {
  import opened Wrappers
  import opened Http
  import Config
  import Database

  /**
   * `health_check`; `check` is what `check_db_connection()` returned, or None
   * when it raised.
   */
  function HealthCheck(check: Option<bool>, environment: string): (r: JsonResponse)
    ensures r.status == 200 || r.status == 503
    ensures r.status == 200 <==> check == Some(true)
    ensures r.content.Keys == {"status", "service", "version", "environment", "database"}
    ensures r.content["status"] == (if r.status == 200 then "healthy" else "unhealthy")
    ensures r.content["database"] == (if r.status == 200 then "connected" else "disconnected")
    ensures r.content["service"] == Config.ProjectName && r.content["version"] == Config.Version
    ensures r.content["environment"] == environment && r.headers == map[]
  {
    var up := check == Some(true);
    JsonResponse(
      if up then 200 else 503,
      map[
        "status" := if up then "healthy" else "unhealthy",
        "service" := Config.ProjectName,
        "version" := Config.Version,
        "environment" := environment,
        "database" := if up then "connected" else "disconnected"
      ],
      map[])
  }

  /**
   * The service reports healthy exactly when the probe query ran; a check
   * that raises reports the same as one that returns False.
   */
  lemma HealthFollowsProbe(probe: Database.ConnectionProbe, environment: string)
    ensures HealthCheck(Some(Database.CheckDbConnection(probe)), environment).status == 200 <==> probe == Database.QueryRuns
    ensures !Database.CheckDbConnection(probe) ==>
      HealthCheck(Some(Database.CheckDbConnection(probe)), environment) == HealthCheck(None, environment)
  {
  }

  /** `root` */
  function Root(): (r: JsonResponse)
    ensures r.status == 200 && r.headers == map[]
    ensures r.content.Keys == {"message", "version", "docs", "health", "rate_limit_status"}
    ensures r.content["message"] == Config.ProjectName && r.content["version"] == Config.Version
    ensures r.content["docs"] == "/docs" && r.content["health"] == "/health"
    ensures Config.ApiV1Prefix <= r.content["rate_limit_status"]
  {
    JsonResponse(
      200,
      map[
        "message" := "DataZone Energy API",
        "version" := Config.Version,
        "docs" := "/docs",
        "health" := "/health",
        "rate_limit_status" := "/api/v1/rate-limit-status"
      ],
      map[])
  }

  /** `global_exception_handler` for an exception whose class is named `typeName`. */
  function GlobalExceptionHandler(typeName: string): (r: JsonResponse)
    ensures r.status == 500 && r.headers == map[]
    ensures r.content == map["detail" := "Erro interno do servidor", "type" := typeName]
  {
    JsonResponse(500, map["detail" := "Erro interno do servidor", "type" := typeName], map[])
  }

  /** The error body names the exception's class and nothing of its message, so two exceptions of one class answer alike. */
  lemma ExceptionHandlerHidesMessage(t1: string, t2: string)
    ensures GlobalExceptionHandler(t1) == GlobalExceptionHandler(t2) <==> t1 == t2
  {
    if GlobalExceptionHandler(t1) == GlobalExceptionHandler(t2) {
      assert GlobalExceptionHandler(t1).content["type"] == t1;
    }
  }
}
