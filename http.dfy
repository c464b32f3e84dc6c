/** The JSON responses the application builds by hand. */
module Http {
  /** A `JSONResponse`: its status, its top-level string fields and its headers. */
  datatype JsonResponse = JsonResponse(status: int, content: map<string, string>, headers: map<string, string>)
}
