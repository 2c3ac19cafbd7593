/**
 * What readable-content acquisition promises: checks before any request,
 * browser headers on every request, no retry on a bad status, at most one
 * challenge solve, cache-first idempotence, and a write only of extracted,
 * non-empty content which is then what the call returns.
 */
module ReadabilityFacts {
  import opened Wrappers
  import opened Errors
  import opened Readability

  function CountSolves(tr: seq<Event>): (n: nat)
    ensures n <= |tr|
  {
    if tr == [] then 0 else (if tr[0].SolveAttempt? then 1 else 0) + CountSolves(tr[1..])
  }

  function CountWrites(tr: seq<Event>): (n: nat)
    ensures n <= |tr|
  {
    if tr == [] then 0 else (if tr[0].Wrote? then 1 else 0) + CountWrites(tr[1..])
  }

  lemma {:induction false} CountConcat(a: seq<Event>, b: seq<Event>)
    ensures CountSolves(a + b) == CountSolves(a) + CountSolves(b)
    ensures CountWrites(a + b) == CountWrites(a) + CountWrites(b)
  {
    if a != [] {
      assert (a + b)[1..] == a[1..] + b;
      CountConcat(a[1..], b);
    } else {
      assert a + b == b;
    }
  }

  /** Whether the URL passes fetchWithChrome's checks: it parses, with scheme http or https. */
  predicate Fetchable(web: Web, target: string) {
    web.parseUrl(target).Some?
    && (web.parseUrl(target).value.scheme == "http" || web.parseUrl(target).value.scheme == "https")
  }

  /**
   * A request is issued exactly when the URL passes the checks; an unparsable
   * URL is a feed-fetch error and any other scheme an invalid-input error,
   * both before anything is sent.
   */
  lemma FetchChecksBeforeSending(web: Web, target: string, cookie: string, rounds: nat)
    ensures FetchWithChrome(web, target, cookie, rounds).trace != [] <==> Fetchable(web, target)
    ensures web.parseUrl(target).None?
      ==> FetchWithChrome(web, target, cookie, rounds).outcome == Some(Failure(FeedFetch))
    ensures web.parseUrl(target).Some? && !Fetchable(web, target)
      ==> FetchWithChrome(web, target, cookie, rounds).outcome == Some(Failure(Invalid))
  {
  }

  /** A request carrying the fixed browser headers, then at most one cookie header. */
  predicate BrowserRequest(web: Web, target: string, req: Request) {
    && req.url == target
    && 16 <= |req.headers| <= 17
    && req.headers[..16] == ChromeHeaders(web.userAgent)
    && (|req.headers| == 17 ==> req.headers[16].name == "cookie" && req.headers[16].value != "")
  }

  /** Every request fetchWithChrome issues goes to the target URL with the browser headers. */
  lemma {:induction false} FetchSendsBrowserRequests(web: Web, target: string, cookie: string, rounds: nat)
    ensures forall e :: e in FetchWithChrome(web, target, cookie, rounds).trace && e.Sent? ==>
              BrowserRequest(web, target, e.req)
    decreases rounds
  {
    var r := FetchWithChrome(web, target, cookie, rounds);
    if Fetchable(web, target) {
      var u := web.parseUrl(target).value;
      var req := Request(target, RequestHeaders(web, u, cookie));
      assert BrowserRequest(web, target, req);
      if web.send(req).Success? {
        var resp := web.send(req).value;
        if resp.status == 200 && web.solverPresent && cookie == "" && web.isChallenge(resp.body) {
          var s := web.solve(resp.body, target, resp.cookies);
          if s.Some? && rounds > 0 {
            FetchSendsBrowserRequests(web, target, s.value, rounds - 1);
          }
        }
      }
    }
  }

  /**
   * The first request's cookie header: the explicit cookie when non-empty,
   * else the solver's cached cookie for the host, else none.
   */
  lemma FetchFirstRequestCookie(web: Web, target: string, cookie: string, rounds: nat)
    requires Fetchable(web, target)
    ensures var r := FetchWithChrome(web, target, cookie, rounds);
      var u := web.parseUrl(target).value;
      && r.trace[0] == Sent(Request(target, RequestHeaders(web, u, cookie)))
      && (cookie != "" ==> r.trace[0].req.headers[16] == Header("cookie", cookie))
      && (cookie == "" && web.solverPresent && web.cachedCookie(u.host) != ""
          ==> r.trace[0].req.headers[16] == Header("cookie", web.cachedCookie(u.host)))
      && (cookie == "" && (!web.solverPresent || web.cachedCookie(u.host) == "")
          ==> |r.trace[0].req.headers| == 16)
  {
  }

  /** A response other than 200 is an error carrying its status, after exactly one request. */
  lemma FetchBadStatusNoRetry(web: Web, target: string, cookie: string, rounds: nat)
    requires Fetchable(web, target)
    requires var req := Request(target, RequestHeaders(web, web.parseUrl(target).value, cookie));
      web.send(req).Success? && web.send(req).value.status != 200
    ensures var req := Request(target, RequestHeaders(web, web.parseUrl(target).value, cookie));
      FetchWithChrome(web, target, cookie, rounds)
        == Fetched(Some(Failure(HttpStatus(web.send(req).value.status))), [Sent(req)])
  {
  }

  /** With an explicit cookie there is no challenge handling: one request at most and no solve. */
  lemma FetchWithCookieNeverSolves(web: Web, target: string, cookie: string, rounds: nat)
    requires cookie != ""
    ensures var r := FetchWithChrome(web, target, cookie, rounds);
      r.outcome.Some? && |r.trace| <= 1 && CountSolves(r.trace) == 0
  {
    var r := FetchWithChrome(web, target, cookie, rounds);
    if |r.trace| == 1 {
      assert r.trace[1..] == [];
    }
  }

  /** The solver never hands back an empty cookie without an error. */
  ghost predicate SolverGivesCookies(web: Web) {
    forall body, target, cookies :: web.solve(body, target, cookies) != Some("")
  }

  /**
   * With a solver that returns real cookies, a fetch without an explicit
   * cookie solves at most once, sends at most two requests, and one round is
   * enough for it to finish.
   */
  lemma FetchSolvesAtMostOnce(web: Web, target: string, rounds: nat)
    requires SolverGivesCookies(web)
    ensures var r := FetchWithChrome(web, target, "", rounds);
      && CountSolves(r.trace) <= 1
      && |r.trace| <= 3
      && (rounds >= 1 ==> r.outcome.Some?)
  {
    var r := FetchWithChrome(web, target, "", rounds);
    if Fetchable(web, target) {
      var u := web.parseUrl(target).value;
      var req := Request(target, RequestHeaders(web, u, ""));
      if web.send(req).Success? {
        var resp := web.send(req).value;
        if resp.status == 200 && web.solverPresent && web.isChallenge(resp.body) {
          var s := web.solve(resp.body, target, resp.cookies);
          if s.Some? && rounds > 0 {
            var retry := FetchWithChrome(web, target, s.value, rounds - 1);
            FetchWithCookieNeverSolves(web, target, s.value, rounds - 1);
            CountConcat([Sent(req), SolveAttempt(target)], retry.trace);
            assert [Sent(req), SolveAttempt(target)][1..] == [SolveAttempt(target)];
          } else {
            assert r.trace[1..][1..] == [];
          }
        } else {
          assert r.trace[1..] == [];
        }
      } else {
        assert r.trace[1..] == [];
      }
    }
  }

  /**
   * The service has no bound of its own on the challenge branch: when every
   * response is a challenge and the solver keeps answering with an empty
   * cookie, the retry runs without a cookie and meets the challenge again,
   * so no number of rounds is enough and each round solves once more.
   */
  lemma {:induction false} FetchEmptyCookieNeverEnds(web: Web, target: string, rounds: nat, resp: Response)
    requires Fetchable(web, target) && web.solverPresent
    requires forall req :: web.send(req) == Success(resp)
    requires resp.status == 200 && web.isChallenge(resp.body)
    requires web.solve(resp.body, target, resp.cookies) == Some("")
    ensures var r := FetchWithChrome(web, target, "", rounds);
      r.outcome.None? && CountSolves(r.trace) == rounds + 1
    decreases rounds
  {
    var u := web.parseUrl(target).value;
    var req := Request(target, RequestHeaders(web, u, ""));
    var head := [Sent(req), SolveAttempt(target)];
    assert head[1..] == [SolveAttempt(target)];
    assert CountSolves(head) == 1;
    if rounds > 0 {
      FetchEmptyCookieNeverEnds(web, target, rounds - 1, resp);
      CountConcat(head, FetchWithChrome(web, target, "", rounds - 1).trace);
    }
  }

  /** With a solver that returns real cookies, every bound of one round or more gives the same fetch. */
  lemma FetchRoundsSuffice(web: Web, target: string, cookie: string, rounds: nat)
    requires SolverGivesCookies(web) && rounds >= 1
    ensures FetchWithChrome(web, target, cookie, rounds) == FetchWithChrome(web, target, cookie, 1)
  {
    if Fetchable(web, target) {
      var u := web.parseUrl(target).value;
      var req := Request(target, RequestHeaders(web, u, cookie));
      if web.send(req).Success? {
        var resp := web.send(req).value;
        if resp.status == 200 && web.solverPresent && cookie == "" && web.isChallenge(resp.body) {
          var s := web.solve(resp.body, target, resp.cookies);
          if s.Some? {
            assert s.value != "";
            FetchCookieIgnoresRounds(web, target, s.value, rounds - 1, 0);
          }
        }
      }
    }
  }

  /** With an explicit cookie the round bound plays no part. */
  lemma FetchCookieIgnoresRounds(web: Web, target: string, cookie: string, m: nat, n: nat)
    requires cookie != ""
    ensures FetchWithChrome(web, target, cookie, m) == FetchWithChrome(web, target, cookie, n)
  {
  }

  /**
   * After a solved challenge the retry carries the solved cookie (not the
   * cached one), and whatever 200 body it receives is the result, even
   * another challenge page.
   */
  lemma ChallengeRetryReturnsBody(web: Web, target: string, rounds: nat, first: Response, second: Response, solved: string)
    requires Fetchable(web, target) && rounds >= 1 && solved != ""
    requires web.solverPresent
    requires var u := web.parseUrl(target).value;
      web.send(Request(target, RequestHeaders(web, u, ""))) == Success(first)
    requires first.status == 200 && web.isChallenge(first.body)
    requires web.solve(first.body, target, first.cookies) == Some(solved)
    requires var u := web.parseUrl(target).value;
      web.send(Request(target, ChromeHeaders(web.userAgent) + [Header("cookie", solved)])) == Success(second)
    requires second.status == 200
    ensures var u := web.parseUrl(target).value;
      FetchWithChrome(web, target, "", rounds)
        == Fetched(Some(Success(second.body)),
             [ Sent(Request(target, RequestHeaders(web, u, ""))),
               SolveAttempt(target),
               Sent(Request(target, ChromeHeaders(web.userAgent) + [Header("cookie", solved)])) ])
  {
    var u := web.parseUrl(target).value;
    assert RequestHeaders(web, u, solved) == ChromeHeaders(web.userAgent) + [Header("cookie", solved)];
  }

  /** A solve is attempted only when there is a solver and no explicit cookie. */
  lemma SolveNeedsSolverAndNoCookie(web: Web, target: string, cookie: string, rounds: nat)
    ensures CountSolves(FetchWithChrome(web, target, cookie, rounds).trace) > 0
      ==> web.solverPresent && cookie == ""
  {
    var r := FetchWithChrome(web, target, cookie, rounds);
    if !(web.solverPresent && cookie == "") && |r.trace| == 1 {
      assert r.trace[1..] == [];
    }
  }

  /** The errors fetchWithChrome can end with. */
  predicate FetchError(err: ServiceError) {
    || err == FeedFetch
    || err == Invalid
    || err == Wrapped("request failed")
    || err.HttpStatus?
    || err == Wrapped("anubis solve failed")
  }

  /** Every error of fetchWithChrome is one of its own, never one of the extraction steps'. */
  lemma {:induction false} FetchErrors(web: Web, target: string, cookie: string, rounds: nat)
    ensures var r := FetchWithChrome(web, target, cookie, rounds);
      r.outcome.Some? && r.outcome.value.Failure? ==> FetchError(r.outcome.value.error)
    decreases rounds
  {
    if Fetchable(web, target) {
      var u := web.parseUrl(target).value;
      var req := Request(target, RequestHeaders(web, u, cookie));
      if web.send(req).Success? {
        var resp := web.send(req).value;
        if resp.status == 200 && web.solverPresent && cookie == "" && web.isChallenge(resp.body) {
          var s := web.solve(resp.body, target, resp.cookies);
          if s.Some? && rounds > 0 {
            FetchErrors(web, target, s.value, rounds - 1);
          }
        }
      }
    }
  }

  /** A lookup failure other than "no rows" passes through as a storage error, with nothing else done. */
  lemma ReadableLookupFails(web: Web, repo: Repo, id: int, rounds: nat)
    requires repo.readFails
    ensures FetchReadableContent(web, repo, id, rounds) == Outcome(Some(Failure(Storage)), repo, [])
  {
  }

  /** A missing entry is NotFound, with nothing fetched or written. */
  lemma ReadableMissingEntry(web: Web, repo: Repo, id: int, rounds: nat)
    requires !repo.readFails && id !in repo.entries
    ensures FetchReadableContent(web, repo, id, rounds) == Outcome(Some(Failure(NotFound)), repo, [])
  {
  }

  /** Non-empty cached content is returned as it is, with nothing fetched or written. */
  lemma ReadableCacheFirst(web: Web, repo: Repo, id: int, rounds: nat)
    requires !repo.readFails && id in repo.entries && HasCached(repo.entries[id])
    ensures FetchReadableContent(web, repo, id, rounds)
      == Outcome(Some(Success(repo.entries[id].readable.value)), repo, [])
  {
  }

  /** Without cached content, a missing or empty URL is invalid input, with nothing fetched or written. */
  lemma ReadableNeedsUrl(web: Web, repo: Repo, id: int, rounds: nat)
    requires !repo.readFails && id in repo.entries
    requires !HasCached(repo.entries[id]) && !HasUrl(repo.entries[id])
    ensures FetchReadableContent(web, repo, id, rounds) == Outcome(Some(Failure(Invalid)), repo, [])
  {
  }

  /** Whatever a successful call returns is what the repository holds for the entry afterwards. */
  lemma ReadableReturnsStored(web: Web, repo: Repo, id: int, rounds: nat)
    requires var r := FetchReadableContent(web, repo, id, rounds);
      r.result.Some? && r.result.value.Success?
    ensures var r := FetchReadableContent(web, repo, id, rounds);
      id in r.repo.entries && r.repo.entries[id].readable == Some(r.result.value.value)
      && HasCached(r.repo.entries[id])
  {
  }

  /**
   * Idempotence: once a call has succeeded, a second call for the same entry,
   * whatever the network does, returns the same content with nothing fetched
   * or written.
   */
  lemma ReadableIdempotent(web: Web, web2: Web, repo: Repo, id: int, rounds: nat, rounds2: nat)
    requires var r := FetchReadableContent(web, repo, id, rounds);
      r.result.Some? && r.result.value.Success?
    ensures var r := FetchReadableContent(web, repo, id, rounds);
      FetchReadableContent(web2, r.repo, id, rounds2) == Outcome(r.result, r.repo, [])
  {
    ReadableReturnsStored(web, repo, id, rounds);
  }

  /**
   * The repository is written at most once, as the last step, for this entry
   * and with non-empty content; a call that does not succeed leaves the
   * repository as it was (ReadableWritesExtracted says where the content
   * comes from).
   */
  lemma ReadableWritesLast(web: Web, repo: Repo, id: int, rounds: nat)
    ensures var r := FetchReadableContent(web, repo, id, rounds);
      && CountWrites(r.trace) <= 1
      && (CountWrites(r.trace) == 1 ==>
            && r.trace[|r.trace| - 1].Wrote?
            && r.trace[|r.trace| - 1].id == id
            && r.trace[|r.trace| - 1].content != "")
      && (!(r.result.Some? && r.result.value.Success?) ==> r.repo == repo)
      && (r.repo != repo ==> r.result == Some(Success(r.trace[|r.trace| - 1].content)))
  {
    var r := FetchReadableContent(web, repo, id, rounds);
    if !repo.readFails && id in repo.entries && !HasCached(repo.entries[id]) && HasUrl(repo.entries[id]) {
      var fetched := FetchWithChrome(web, repo.entries[id].url.value, "", rounds);
      FetchNeverWrites(web, repo.entries[id].url.value, "", rounds);
      if fetched.outcome.Some? && fetched.outcome.value.Success? {
        var ex := Extract(web, repo.entries[id].url.value, fetched.outcome.value.value);
        if ex.Success? && ex.value != "" {
          CountConcat(fetched.trace, [Wrote(id, ex.value)]);
          assert CountWrites([Wrote(id, ex.value)]) == 1;
        }
      }
    }
  }

  /**
   * A write happens only for a stored entry without cached content but with a
   * URL, after fetching that URL succeeded; what is written is the extraction
   * of the fetched body, and the write follows exactly the fetch's requests.
   * A success that did any I/O returns that same written content.
   */
  lemma ReadableWritesExtracted(web: Web, repo: Repo, id: int, rounds: nat)
    ensures var r := FetchReadableContent(web, repo, id, rounds);
      CountWrites(r.trace) == 1 ==>
        && !repo.readFails && id in repo.entries
        && !HasCached(repo.entries[id]) && HasUrl(repo.entries[id])
        && var url := repo.entries[id].url.value;
           var f := FetchWithChrome(web, url, "", rounds);
           && f.outcome.Some? && f.outcome.value.Success?
           && Extract(web, url, f.outcome.value.value).Success?
           && r.trace == f.trace + [Wrote(id, Extract(web, url, f.outcome.value.value).value)]
    ensures var r := FetchReadableContent(web, repo, id, rounds);
      r.result.Some? && r.result.value.Success? && r.trace != [] ==>
        && CountWrites(r.trace) == 1
        && r.trace[|r.trace| - 1] == Wrote(id, r.result.value.value)
  {
    var r := FetchReadableContent(web, repo, id, rounds);
    if !repo.readFails && id in repo.entries && !HasCached(repo.entries[id]) && HasUrl(repo.entries[id]) {
      var url := repo.entries[id].url.value;
      var fetched := FetchWithChrome(web, url, "", rounds);
      FetchNeverWrites(web, url, "", rounds);
      if fetched.outcome.Some? && fetched.outcome.value.Success? {
        var ex := Extract(web, url, fetched.outcome.value.value);
        if ex.Success? && ex.value != "" {
          CountConcat(fetched.trace, [Wrote(id, ex.value)]);
          assert CountWrites([Wrote(id, ex.value)]) == 1;
        }
      }
    }
  }

  /** fetchWithChrome never writes to the repository. */
  lemma {:induction false} FetchNeverWrites(web: Web, target: string, cookie: string, rounds: nat)
    ensures CountWrites(FetchWithChrome(web, target, cookie, rounds).trace) == 0
    decreases rounds
  {
    var r := FetchWithChrome(web, target, cookie, rounds);
    if Fetchable(web, target) {
      var u := web.parseUrl(target).value;
      var req := Request(target, RequestHeaders(web, u, cookie));
      var head2 := [Sent(req), SolveAttempt(target)];
      assert CountWrites([Sent(req)]) == 0;
      assert head2[1..] == [SolveAttempt(target)];
      assert CountWrites(head2) == 0;
      if web.send(req).Success? {
        var resp := web.send(req).value;
        if resp.status == 200 && web.solverPresent && cookie == "" && web.isChallenge(resp.body) {
          var s := web.solve(resp.body, target, resp.cookies);
          if s.Some? && rounds > 0 {
            FetchNeverWrites(web, target, s.value, rounds - 1);
            CountConcat(head2, FetchWithChrome(web, target, s.value, rounds - 1).trace);
          }
        }
      }
    }
  }

  /** An empty rendering is invalid input and nothing is written. */
  lemma ReadableEmptyRenderInvalid(web: Web, repo: Repo, id: int, rounds: nat)
    requires !repo.readFails && id in repo.entries
    requires !HasCached(repo.entries[id]) && HasUrl(repo.entries[id])
    requires var fetched := FetchWithChrome(web, repo.entries[id].url.value, "", rounds);
      fetched.outcome.Some? && fetched.outcome.value.Success?
      && Extract(web, repo.entries[id].url.value, fetched.outcome.value.value) == Success("")
    ensures var r := FetchReadableContent(web, repo, id, rounds);
      r.result == Some(Failure(Invalid)) && r.repo == repo
      && r.trace == FetchWithChrome(web, repo.entries[id].url.value, "", rounds).trace
  {
  }

  /**
   * The second URL parse in FetchReadableContent cannot fail: the fetch has
   * already parsed the same URL, and a failure there ends the call with a
   * feed-fetch error.
   */
  lemma ReadableUrlParseFailureUnreachable(web: Web, repo: Repo, id: int, rounds: nat)
    ensures FetchReadableContent(web, repo, id, rounds).result != Some(Failure(Wrapped("parse URL failed")))
  {
    if !repo.readFails && id in repo.entries && !HasCached(repo.entries[id]) && HasUrl(repo.entries[id]) {
      var target := repo.entries[id].url.value;
      var fetched := FetchWithChrome(web, target, "", rounds);
      FetchChecksBeforeSending(web, target, "", rounds);
      FetchErrors(web, target, "", rounds);
      if fetched.outcome.Some? && fetched.outcome.value.Success? {
        assert web.parseUrl(target).Some?;
        ExtractParsesUrl(web, target, fetched.outcome.value.value);
      }
    }
  }

  /** Extraction reports a URL parse failure only for a URL that does not parse. */
  lemma ExtractParsesUrl(web: Web, target: string, body: string)
    requires web.parseUrl(target).Some?
    ensures Extract(web, target, body) != Failure(Wrapped("parse URL failed"))
  {
  }
}
