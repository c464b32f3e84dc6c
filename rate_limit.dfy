/**
 * The parts of app/core/rate_limit.py the application decides for itself:
 * who a client is, the per-operation limits, the whitelist and the 429
 * response.  The counting is slowapi's and is not modelled.
 */
module RateLimit {
  import opened Wrappers
  import opened Text
  import opened Http

  // ------------------------------------------------------------ client identity

  /**
   * `get_client_identifier`: the first element of a non-empty
   * X-Forwarded-For, stripped; else a non-empty remote address; else the
   * User-Agent, or "unknown" without one.
   */
  function ClientIdentifier(forwardedFor: Option<string>, remoteAddress: string, userAgent: Option<string>): string {
    if forwardedFor.Some? && forwardedFor.value != "" then Strip(Split(forwardedFor.value, ',')[0])
    else if remoteAddress != "" then remoteAddress
    else if userAgent.Some? then userAgent.value
    else "unknown"
  }

  /** The first part of a split is the longest prefix without the separator. */
  lemma {:induction false} SplitFirstPrefix(s: string, sep: char)
    ensures Split(s, sep)[0] <= s && sep !in Split(s, sep)[0]
    ensures |Split(s, sep)[0]| < |s| ==> s[|Split(s, sep)[0]|] == sep
    decreases |s|
  {
    if s != [] {
      SplitFirstPrefix(s[1..], sep);
    }
  }

  /** `strip()` only removes characters. */
  lemma StripKeepsChars(s: string, c: char)
    requires c in Strip(s)
    ensures c in s
  {
    StripLeftTrims(s);
    StripRightTrims(StripLeft(s));
    var l := StripLeft(s);
    var i :| 0 <= i < |Strip(s)| && Strip(s)[i] == c;
    assert l[i] == c;
    assert s[|s| - |l| + i] == l[i];
  }

  /**
   * A non-empty forwarded header decides alone: the identifier is the
   * stripped text before its first comma, holds no comma and no surrounding
   * white space.  Without it the remote address decides, and without both
   * the User-Agent or "unknown".
   */
  lemma ClientIdentifierSpec(forwardedFor: Option<string>, remoteAddress: string, userAgent: Option<string>)
    ensures var id := ClientIdentifier(forwardedFor, remoteAddress, userAgent);
      && (forwardedFor.Some? && forwardedFor.value != "" ==>
            && (exists n :: 0 <= n <= |forwardedFor.value| && id == Strip(forwardedFor.value[..n])
                 && ',' !in forwardedFor.value[..n] && (n == |forwardedFor.value| || forwardedFor.value[n] == ','))
            && ',' !in id
            && (id == [] || (!IsSpace(id[0]) && !IsSpace(id[|id| - 1]))))
      && ((forwardedFor.None? || forwardedFor.value == "") && remoteAddress != "" ==> id == remoteAddress)
      && ((forwardedFor.None? || forwardedFor.value == "") && remoteAddress == "" ==>
            id == (if userAgent.Some? then userAgent.value else "unknown"))
  {
    if forwardedFor.Some? && forwardedFor.value != "" {
      var s := forwardedFor.value;
      var first := Split(s, ',')[0];
      SplitFirstPrefix(s, ',');
      assert first == s[..|first|];
      StripTrims(first);
      if ',' in Strip(first) {
        StripKeepsChars(first, ',');
      }
    }
  }

  /** A proxy chain identifies the original client, without the padding around it. */
  lemma ForwardedChain()
    ensures ClientIdentifier(Some(" a, b"), "127.0.0.1", None) == "a"
  {
    assert Split(", b", ',')[0] == [];
    assert Split("a, b", ',')[0] == "a";
    assert Split(" a, b", ',')[0] == " a";
    assert StripLeft(" a") == "a";
  }

  // ------------------------------------------------------------ limits

  /** `RATE_LIMITS` */
  const RateLimits: map<string, string> := map[
    "read_light" := "100/minute",
    "read_medium" := "50/minute",
    "read_heavy" := "20/minute",
    "write" := "10/minute",
    "health" := "300/minute",
    "global" := "1000/hour"
  ]

  const DefaultLimit := "50/minute"

  /** `get_rate_limit` */
  function GetRateLimit(operation: string): (limit: string)
    ensures operation in RateLimits ==> limit == RateLimits[operation]
    ensures operation !in RateLimits ==> limit == DefaultLimit
  {
    if operation in RateLimits then RateLimits[operation] else DefaultLimit
  }

  /** An unknown operation is limited like a medium read, and the table has six operations. */
  lemma DefaultIsMediumRead(operation: string)
    requires operation !in RateLimits
    ensures GetRateLimit(operation) == GetRateLimit("read_medium")
    ensures |RateLimits.Keys| == 6
  {
    assert RateLimits.Keys == {"read_light", "read_medium", "read_heavy", "write", "health", "global"};
  }

  // ------------------------------------------------------------ whitelist

  /** The addresses always whitelisted. */
  const LocalAddresses := ["127.0.0.1", "localhost", "::1"]

  /**
   * `is_whitelisted`.  Outside debug mode the source extends the list with an
   * empty list, so `debug` changes nothing.
   */
  function IsWhitelisted(ip: string, debug: bool): bool {
    ip in LocalAddresses
  }

  /** Exactly the three local addresses are whitelisted, in debug mode or not. */
  lemma WhitelistExactly(ip: string, debug: bool)
    ensures IsWhitelisted(ip, debug) <==> ip == "127.0.0.1" || ip == "localhost" || ip == "::1"
    ensures IsWhitelisted(ip, debug) == IsWhitelisted(ip, !debug)
  {
  }

  // ------------------------------------------------------------ exceeded

  /** `custom_rate_limit_exceeded_handler` for a request to `path` over the limit `detail`. */
  function RateLimitExceeded(path: string, detail: string): (r: JsonResponse)
    ensures r.status == 429
    ensures r.content.Keys == {"error", "message", "detail", "endpoint"}
    ensures r.content["error"] == "Rate limit exceeded" && r.content["detail"] == detail && r.content["endpoint"] == path
    ensures r.headers == map["Retry-After" := "60", "X-RateLimit-Limit" := detail]
  {
    JsonResponse(
      429,
      map[
        "error" := "Rate limit exceeded",
        "message" := "Você excedeu o limite de requisições. Tente novamente em alguns segundos.",
        "detail" := detail,
        "endpoint" := path
      ],
      map["Retry-After" := "60", "X-RateLimit-Limit" := detail])
  }

  /** The response to two requests differs only in the path and limit it echoes. */
  lemma ExceededEchoesOnly(p1: string, d1: string, p2: string, d2: string)
    ensures RateLimitExceeded(p1, d1) == RateLimitExceeded(p2, d2) <==> p1 == p2 && d1 == d2
  {
    if RateLimitExceeded(p1, d1) == RateLimitExceeded(p2, d2) {
      assert RateLimitExceeded(p1, d1).content["endpoint"] == p1;
      assert RateLimitExceeded(p1, d1).content["detail"] == d1;
    }
  }
}
