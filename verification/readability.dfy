/**
 * Readable-content acquisition (readabilityService): the cache-first lookup of
 * an entry, the browser-like fetch with its single challenge-and-retry step,
 * and the sanitize / parse / render / persist pipeline.
 *
 * Everything the service cannot decide by itself is a parameter: URL parsing,
 * the HTTP transport, the challenge detector and solver, the solver's cookie
 * cache, the HTML sanitizer, the readability parser and renderer, and the
 * entry repository's failures. What the model fixes is the order of the
 * steps, the requests issued, the error each step maps to, and when the
 * repository is written.
 */
module Readability {
  import opened Wrappers
  import opened Errors

  /** The parts of a parsed URL the service looks at. */
  datatype Url = Url(scheme: string, host: string)

  /** One request header, in the order it is sent. */
  datatype Header = Header(name: string, value: string)

  /** A GET request: the target URL exactly as stored, and its ordered headers. */
  datatype Request = Request(url: string, headers: seq<Header>)

  /** A response: status code, body, and the cookies it set (name, value). */
  datatype Response = Response(status: int, body: string, cookies: seq<Header>)

  /** What a call does to the outside world, in order. */
  datatype Event =
    | Sent(req: Request)
    | SolveAttempt(url: string)
    | Wrote(id: int, content: string)

  /**
   * The collaborators. `solverPresent` is a non-nil challenge solver;
   * `solve` returning None is a solver error; `parse` and `render` returning
   * None are parser and renderer errors; `send` returning a failure is a
   * transport error.
   */
  datatype Web = Web(
    parseUrl: string -> Option<Url>,
    send: Request -> Result<Response, string>,
    solverPresent: bool,
    cachedCookie: string -> string,
    isChallenge: string -> bool,
    solve: (string, string, seq<Header>) -> Option<string>,
    sanitize: string -> string,
    parse: (string, Url) -> Option<string>,
    render: string -> Option<string>,
    userAgent: string)

  /** The header names of a browser request, in the order they are sent. */
  const ChromeHeaderNames: seq<string> := [
    "accept", "accept-language", "cache-control", "priority",
    "sec-ch-ua", "sec-ch-ua-arch", "sec-ch-ua-mobile", "sec-ch-ua-model",
    "sec-ch-ua-platform", "sec-ch-ua-platform-version",
    "sec-fetch-dest", "sec-fetch-mode", "sec-fetch-site", "sec-fetch-user",
    "upgrade-insecure-requests", "user-agent"]

  /** The values of the fixed headers other than the user agent. */
  const AcceptValue: string := "text/html,application/xhtml+xml,application/xml;q=0.9,image/avif,image/webp,image/apng,*/*;q=0.8,application/signed-exchange;v=b3;q=0.7"
  const AcceptLanguageValue: string := "zh-CN,zh;q=0.9"
  const CacheControlValue: string := "max-age=0"
  const PriorityValue: string := "u=0, i"
  const SecChUaValue: string := "\"Google Chrome\";v=\"135\", \"Chromium\";v=\"135\", \"Not-A.Brand\";v=\"8\""
  const SecChUaArchValue: string := "\"x86\""
  const SecChUaMobileValue: string := "?0"
  const SecChUaModelValue: string := "\"\""
  const SecChUaPlatformValue: string := "\"Windows\""
  const SecChUaPlatformVersionValue: string := "\"19.0.0\""
  const SecFetchDestValue: string := "document"
  const SecFetchModeValue: string := "navigate"
  const SecFetchSiteValue: string := "none"
  const SecFetchUserValue: string := "?1"
  const UpgradeInsecureRequestsValue: string := "1"

  /** The values of the fixed headers, in the same order as their names. */
  function ChromeHeaderValues(userAgent: string): (r: seq<string>)
    ensures |r| == |ChromeHeaderNames| && r[15] == userAgent
  {
    [ AcceptValue, AcceptLanguageValue, CacheControlValue, PriorityValue,
      SecChUaValue, SecChUaArchValue, SecChUaMobileValue, SecChUaModelValue,
      SecChUaPlatformValue, SecChUaPlatformVersionValue,
      SecFetchDestValue, SecFetchModeValue, SecFetchSiteValue, SecFetchUserValue,
      UpgradeInsecureRequestsValue, userAgent ]
  }

  /** The sixteen fixed headers imitating a desktop Chrome 135 navigation; none of them is a cookie. */
  function ChromeHeaders(userAgent: string): (r: seq<Header>)
    ensures |r| == 16
    ensures forall i :: 0 <= i < 16 ==> r[i] == Header(ChromeHeaderNames[i], ChromeHeaderValues(userAgent)[i])
  {
    var values := ChromeHeaderValues(userAgent);
    seq(16, i requires 0 <= i < 16 => Header(ChromeHeaderNames[i], values[i]))
  }

  /**
   * The cookie a request carries: the explicit one when non-empty, otherwise
   * the solver's cached cookie for the host when there is a solver and the
   * cached value is non-empty, otherwise none.
   */
  function CookieFor(web: Web, u: Url, cookie: string): (r: Option<string>)
    ensures r.Some? ==> r.value != ""
    ensures r.None? <==> cookie == "" && (!web.solverPresent || web.cachedCookie(u.host) == "")
  {
    if cookie != "" then Some(cookie)
    else if web.solverPresent && web.cachedCookie(u.host) != "" then Some(web.cachedCookie(u.host))
    else None
  }

  /** The fixed headers followed by at most one cookie header. */
  function RequestHeaders(web: Web, u: Url, cookie: string): (r: seq<Header>)
    ensures 16 <= |r| && r[..16] == ChromeHeaders(web.userAgent)
    ensures |r| == 16 <==> CookieFor(web, u, cookie).None?
    ensures |r| == 17 <==> CookieFor(web, u, cookie).Some?
    ensures |r| == 17 ==> r[16] == Header("cookie", CookieFor(web, u, cookie).value)
  {
    match CookieFor(web, u, cookie)
    case None => ChromeHeaders(web.userAgent)
    case Some(c) => ChromeHeaders(web.userAgent) + [Header("cookie", c)]
  }

  /**
   * The result of fetchWithChrome: None when the challenge branch would need
   * more nested retries than the model was given (possible only when the
   * solver hands back an empty cookie), otherwise the body or the error;
   * and the requests and solve attempts made, in order.
   */
  datatype Fetched = Fetched(outcome: Option<Result<string, ServiceError>>, trace: seq<Event>)

  /**
   * fetchWithChrome. `rounds` bounds how many times the challenge branch may
   * retry; the service itself has no bound, and with a solver that returns
   * non-empty cookies one round is always enough (FetchRoundsSuffice).
   */
  function FetchWithChrome(web: Web, target: string, cookie: string, rounds: nat): (r: Fetched)
    ensures r.outcome.Some? && r.outcome.value.Success? ==> |r.trace| > 0 && r.trace[|r.trace| - 1].Sent?
    decreases rounds
  {
    match web.parseUrl(target)
    case None => Fetched(Some(Failure(FeedFetch)), [])
    case Some(u) =>
      if u.scheme != "http" && u.scheme != "https" then Fetched(Some(Failure(Invalid)), [])
      else
        var req := Request(target, RequestHeaders(web, u, cookie));
        match web.send(req)
        case Failure(_) => Fetched(Some(Failure(Wrapped("request failed"))), [Sent(req)])
        case Success(resp) =>
          if resp.status != 200 then Fetched(Some(Failure(HttpStatus(resp.status))), [Sent(req)])
          else if web.solverPresent && cookie == "" && web.isChallenge(resp.body) then
            match web.solve(resp.body, target, resp.cookies)
            case None => Fetched(Some(Failure(Wrapped("anubis solve failed"))), [Sent(req), SolveAttempt(target)])
            case Some(c) =>
              if rounds == 0 then Fetched(None, [Sent(req), SolveAttempt(target)])
              else
                var retry := FetchWithChrome(web, target, c, rounds - 1);
                Fetched(retry.outcome, [Sent(req), SolveAttempt(target)] + retry.trace)
          else Fetched(Some(Success(resp.body)), [Sent(req)])
  }

  /** A stored entry: its source URL and its cached readable content, either possibly nil. */
  datatype Entry = Entry(url: Option<string>, readable: Option<string>)

  /**
   * The entry repository: the stored entries, and whether reads or writes
   * fail with a storage error other than "no rows".
   */
  datatype Repo = Repo(entries: map<int, Entry>, readFails: bool, writeFails: bool)

  /** The repository after UpdateReadableContent(id, content) succeeds. */
  function Persist(repo: Repo, id: int, content: string): (r: Repo)
    requires id in repo.entries
    ensures r.readFails == repo.readFails && r.writeFails == repo.writeFails
    ensures r.entries.Keys == repo.entries.Keys
    ensures r.entries[id] == repo.entries[id].(readable := Some(content))
    ensures forall k :: k in repo.entries && k != id ==> r.entries[k] == repo.entries[k]
  {
    repo.(entries := repo.entries[id := repo.entries[id].(readable := Some(content))])
  }

  /** The result of FetchReadableContent, the repository afterwards, and the calls made. */
  datatype Outcome = Outcome(result: Option<Result<string, ServiceError>>, repo: Repo, trace: seq<Event>)

  /** Cached content counts only when it is present and non-empty. */
  predicate HasCached(e: Entry) {
    e.readable.Some? && e.readable.value != ""
  }

  /** The entry has a usable source URL: present and non-empty. */
  predicate HasUrl(e: Entry) {
    e.url.Some? && e.url.value != ""
  }

  /**
   * Sanitize, parse and render a fetched body; on success the rendered HTML,
   * which may still be empty.
   */
  function Extract(web: Web, target: string, body: string): (r: Result<string, ServiceError>)
    ensures r.Failure? ==> r.error.Wrapped?
  {
    var sanitized := web.sanitize(body);
    match web.parseUrl(target)
    case None => Failure(Wrapped("parse URL failed"))
    case Some(u) =>
      match web.parse(sanitized, u)
      case None => Failure(Wrapped("parse content failed"))
      case Some(article) =>
        match web.render(article)
        case None => Failure(Wrapped("render failed"))
        case Some(html) => Success(html)
  }

  /**
   * FetchReadableContent: return the cached content if there is some;
   * otherwise fetch the entry's URL, extract the article, store it and return
   * it. The repository changes only when the result is the stored content.
   */
  function FetchReadableContent(web: Web, repo: Repo, id: int, rounds: nat): (r: Outcome)
    ensures r.repo == repo
      || (id in repo.entries && r.result.Some? && r.result.value.Success?
          && r.repo == Persist(repo, id, r.result.value.value))
    ensures r.result.Some? && r.result.value.Success? ==> r.result.value.value != ""
  {
    if repo.readFails then Outcome(Some(Failure(Storage)), repo, [])
    else if id !in repo.entries then Outcome(Some(Failure(NotFound)), repo, [])
    else
      var entry := repo.entries[id];
      if HasCached(entry) then Outcome(Some(Success(entry.readable.value)), repo, [])
      else if !HasUrl(entry) then Outcome(Some(Failure(Invalid)), repo, [])
      else
        var fetched := FetchWithChrome(web, entry.url.value, "", rounds);
        match fetched.outcome
        case None => Outcome(None, repo, fetched.trace)
        case Some(Failure(err)) => Outcome(Some(Failure(err)), repo, fetched.trace)
        case Some(Success(body)) =>
          match Extract(web, entry.url.value, body)
          case Failure(err) => Outcome(Some(Failure(err)), repo, fetched.trace)
          case Success(content) =>
            if content == "" then Outcome(Some(Failure(Invalid)), repo, fetched.trace)
            else if repo.writeFails then Outcome(Some(Failure(Storage)), repo, fetched.trace + [Wrote(id, content)])
            else Outcome(Some(Success(content)), Persist(repo, id, content), fetched.trace + [Wrote(id, content)])
  }
}
