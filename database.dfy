/**
 * The database plumbing of app/core/database.py: the asynchronous URL, the
 * session lifecycle of the request dependency, and the connection check.
 */
module Database {
  import opened Wrappers
  import opened Text
  import Config

  /** `get_async_database_url`: only a URL that starts with the synchronous scheme is rewritten, once. */
  function AsyncDatabaseUrl(url: string): string {
    if url != "" && Config.SyncScheme <= url then ReplaceFirst(url, Config.SyncScheme, Config.AsyncScheme) else url
  }

  /**
   * A URL with the synchronous scheme gets the asynchronous one in its place
   * and keeps the rest; any other URL, the empty one included, is returned as
   * it is; and converting twice is converting once.
   */
  lemma AsyncDatabaseUrlSpec(url: string)
    ensures Config.SyncScheme <= url ==> AsyncDatabaseUrl(url) == Config.AsyncScheme + url[|Config.SyncScheme|..]
    ensures !(Config.SyncScheme <= url) ==> AsyncDatabaseUrl(url) == url
    ensures AsyncDatabaseUrl(AsyncDatabaseUrl(url)) == AsyncDatabaseUrl(url)
  {
    if Config.SyncScheme <= url {
      var r := AsyncDatabaseUrl(url);
      assert r[10] == '+' && Config.SyncScheme[10] == ':';
    }
  }

  /**
   * The settings validator and this function agree on a URL whose only
   * occurrence of the scheme is its prefix ...
   */
  lemma AsyncUrlsAgree(rest: string)
    requires !IsSubstring(Config.SyncScheme, rest)
    ensures Config.AsyncUrlFor(Config.SyncScheme + rest, None) == Some(AsyncDatabaseUrl(Config.SyncScheme + rest))
  {
    Config.AsyncUrlForSpec(Config.SyncScheme + rest, None);
    AsyncDatabaseUrlSpec(Config.SyncScheme + rest);
    assert (Config.SyncScheme + rest)[|Config.SyncScheme|..] == rest;
  }

  /** ... but not on one where the scheme occurs after the first character: only the validator rewrites it. */
  lemma AsyncUrlsDiffer(c: char)
    requires c != 'p'
    ensures AsyncDatabaseUrl([c] + Config.SyncScheme) == [c] + Config.SyncScheme
    ensures Config.AsyncUrlFor([c] + Config.SyncScheme, None) == Some([c] + Config.AsyncScheme)
  {
    var s := [c] + Config.SyncScheme;
    assert s[0] == c && Config.SyncScheme[0] == 'p';
    assert s[1..] == Config.SyncScheme;
    assert Config.SyncScheme[|Config.SyncScheme|..] == [];
    assert ReplaceAll(s[1..], Config.SyncScheme, Config.AsyncScheme) == Config.AsyncScheme;
    assert ReplaceAll(s, Config.SyncScheme, Config.AsyncScheme) == [c] + Config.AsyncScheme;
  }

  /**
   * The module-level URLs: DATABASE_URL from the environment over the
   * settings, and a non-empty ASYNC_DATABASE_URL from the environment over
   * the derived one.
   */
  function EngineUrls(envDatabaseUrl: Option<string>, settingsDatabaseUrl: string, envAsyncUrl: Option<string>): (urls: (string, string))
    ensures urls.0 == if envDatabaseUrl.Some? then envDatabaseUrl.value else settingsDatabaseUrl
    ensures envAsyncUrl.Some? && envAsyncUrl.value != "" ==> urls.1 == envAsyncUrl.value
    ensures (envAsyncUrl.None? || envAsyncUrl.value == "") ==> urls.1 == AsyncDatabaseUrl(urls.0)
  {
    var databaseUrl := if envDatabaseUrl.Some? then envDatabaseUrl.value else settingsDatabaseUrl;
    (databaseUrl, if envAsyncUrl.Some? && envAsyncUrl.value != "" then envAsyncUrl.value else AsyncDatabaseUrl(databaseUrl))
  }

  // ------------------------------------------------------------ sessions

  datatype SessionEvent = Commit | Rollback | Close

  /** A database session, as far as the dependency drives it: the calls made on it, in order. */
  class Session {
    var log: seq<SessionEvent>

    constructor()
      ensures log == []
    {
      log := [];
    }

    /** `session.commit()`; `fails` when it raises. */
    method Commit(fails: bool) returns (raised: bool)
      modifies this
      ensures log == old(log) + [SessionEvent.Commit] && raised == fails
    {
      log := log + [SessionEvent.Commit];
      raised := fails;
    }

    method Rollback()
      modifies this
      ensures log == old(log) + [SessionEvent.Rollback]
    {
      log := log + [SessionEvent.Rollback];
    }

    method Close()
      modifies this
      ensures log == old(log) + [SessionEvent.Close]
    {
      log := log + [SessionEvent.Close];
    }
  }

  /** The calls `get_db` makes when the request handler raises or not, and the commit raises or not. */
  function GetDbEvents(handlerRaises: bool, commitRaises: bool): seq<SessionEvent> {
    if handlerRaises then [Rollback, Close]
    else if commitRaises then [Commit, Rollback, Close]
    else [Commit, Close]
  }

  /**
   * The session is closed exactly once, last; it is rolled back exactly when
   * something raised, commit is attempted exactly when the handler completed,
   * and a rollback never precedes a commit.
   */
  lemma GetDbEventsOrder(handlerRaises: bool, commitRaises: bool)
    ensures var events := GetDbEvents(handlerRaises, commitRaises);
      && multiset(events)[Close] == 1 && events[|events| - 1] == Close
      && (Rollback in events <==> handlerRaises || commitRaises)
      && (Commit in events <==> !handlerRaises)
      && multiset(events)[Commit] <= 1 && multiset(events)[Rollback] <= 1
      && forall i, j :: 0 <= i < |events| && 0 <= j < |events| && events[i] == Rollback && events[j] == Commit ==> j < i
  {
  }

  /**
   * `get_db` around one request: the session is yielded to the handler
   * (`handlerRaises` when it raises), committed on success, rolled back on an
   * exception, which is re-raised, and closed in every case.
   */
  method GetDb(session: Session, handlerRaises: bool, commitRaises: bool) returns (raised: bool)
    modifies session
    ensures session.log == old(session.log) + GetDbEvents(handlerRaises, commitRaises)
    ensures raised <==> handlerRaises || commitRaises
  {
    raised := handlerRaises;
    if !raised {
      raised := session.Commit(commitRaises);
    }
    if raised {
      session.Rollback();
    }
    session.Close();
  }

  /** How `sync_engine.connect()` and `SELECT 1` end. */
  datatype ConnectionProbe = ConnectRaises | QueryRaises | QueryRuns

  /** `check_db_connection`: every exception becomes False; it never raises. */
  function CheckDbConnection(probe: ConnectionProbe): (ok: bool)
    ensures ok <==> probe == QueryRuns
  {
    match probe
    case QueryRuns => true
    case _ => false
  }
}
