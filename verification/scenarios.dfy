/** The read and write paths together, over one shared store. */
module Scenarios {
  import opened Wrappers
  import opened Http
  import opened Policy
  import opened CacheKey
  import opened Reader
  import opened Writer
  import Text

  /** A page the write path stores is served by the next identical request, tagged as cached. */
  lemma StoreThenServe(cfg: Config, store: Store, req: Request, resp: Response)
    requires WillStore(cfg, req, resp)
    requires CallbackAllows(cfg, req, None)
    ensures
      var written := ProcessResponse(cfg, store, req, resp).store;
      var entry := StoredEntry(resp, resp.maxAge.GetOr(cfg.defaultTimeout));
      ProcessRequest(cfg, written, req) == Success(Some(MarkServed(entry.response)))
  {
    WriteEligibleImpliesReadEligible(cfg, req, MarkFresh(resp));
  }

  /** A response the read path served passes the write path untouched, whatever the store. */
  lemma ServedResponseIsNotStoredAgain(cfg: Config, store: Store, later: Store, req: Request)
    requires ProcessRequest(cfg, store, req).Success? && ProcessRequest(cfg, store, req).value.Some?
    ensures
      var served := ProcessRequest(cfg, store, req).value.value;
      ProcessResponse(cfg, later, req, served) == Step(later, Success(served))
  {
  }

  /** A page with max-age 0 is not stored, so a request that missed before still misses. */
  lemma MaxAgeZeroKeepsMissing(cfg: Config, store: Store, req: Request, resp: Response)
    requires resp.maxAge == Some(0)
    requires ProcessRequest(cfg, store, req) == Success(None)
    ensures ProcessResponse(cfg, store, req, resp).store == store
    ensures ProcessRequest(cfg, ProcessResponse(cfg, store, req, resp).store, req) == Success(None)
  {
  }

  /** A request other than GET or HEAD neither looks up nor stores anything. */
  lemma UnsafeMethodBypassesCache(cfg: Config, store: Store, req: Request, resp: Response)
    requires !IsSafeMethod(req.verb)
    ensures ProcessRequest(cfg, store, req) == Success(None)
    ensures ProcessResponse(cfg, store, req, resp).store == store
    ensures ProcessResponse(cfg, store, req, resp).outcome.Success?
  {
  }

  /**
   In anonymous-only mode an authenticated user's page is never stored, while
   the same page for an anonymous user is, when nothing else forbids it.
   */
  lemma AnonymousOnlyStoresOnlyAnonymousPages(cfg: Config, store: Store, req: Request, resp: Response)
    requires cfg.anonymousOnly
    requires WillStore(cfg.(anonymousOnly := false), req, resp)
    ensures req.isAuthenticated ==> ProcessResponse(cfg, store, req, resp).store == store
    ensures !req.isAuthenticated ==> WillStore(cfg, req, resp)
  {
  }

  /**
   Whenever the scan applies (DEBUG, the dev server or an internal IP) and a
   body chunk of an otherwise storable page carries the CSRF marker, the
   write raises the error for the first such chunk and stores nothing.
   */
  lemma CsrfTokenAbortsWhenScanned(cfg: Config, store: Store, req: Request, resp: Response)
    requires resp.fromCache != Some(true) && UseCache(cfg, req, Some(MarkFresh(resp))) && resp.maxAge != Some(0)
    requires CsrfScanApplies(cfg, req) && HasCsrfChunk(resp.body)
    ensures FindCsrfChunk(resp.body).Some?
    ensures ProcessResponse(cfg, store, req, resp) == Step(store, Failure(CsrfTokenLeak(resp.body[FindCsrfChunk(resp.body).value])))
  {
  }

  /** Worked example: a debug-mode page with a hidden CSRF field in its second chunk. */
  lemma CsrfTokenInDebugAborts(cfg: Config, store: Store, req: Request)
    requires cfg.debug && cfg.callback.None? && !IsDevServerStatic(cfg, req)
    requires req.verb == "GET" && req.pendingMessages == 0 && !req.isAuthenticated
    ensures
      var form := "<input type='hidden' name='" + CsrfMarker + "' value='x'>";
      var resp := Response(200, ["<form>", form], "text/html", None, None, None, map[], map[], false, None);
      var r := ProcessResponse(cfg, store, req, resp);
      r.store == store && r.outcome == Failure(CsrfTokenLeak(form))
  {
    var form := "<input type='hidden' name='" + CsrfMarker + "' value='x'>";
    Text.ContainsInfix("<input type='hidden' name='", CsrfMarker, "' value='x'>");
    var resp := Response(200, ["<form>", form], "text/html", None, None, None, map[], map[], false, None);
    assert !Text.Contains(resp.body[0], CsrfMarker);
    assert Text.Contains(resp.body[1], CsrfMarker);
    assert FindCsrfChunk(resp.body[1..]) == Some(0);
    assert FindCsrfChunk(resp.body) == Some(1);
  }

  const ArticleRequest := Request("GET", "/en/articles/5/", "/en/articles/5/?page=2", Some("en"), false, 0, None)
  const ArticlePage := Response(200, ["<h1>Article 5</h1>"], "text/html", Some("en"), None, None, map[], map["sessionid" := "abc"], false, None)

  /**
   An anonymous GET of `/en/articles/5/?page=2` in language `en` on site 1,
   answered 200 without max-age, is stored under
   `/en/articles/5/?page=2:en:1` with the default timeout, and the next
   identical request is served from that entry.
   */
  lemma ArticlePageRoundTrip(cfg: Config)
    requires cfg.siteId == 1 && cfg.callback.None?
    requires !IsDevServerStatic(cfg, ArticleRequest)
    ensures
      var written := ProcessResponse(cfg, map[], ArticleRequest, ArticlePage).store;
      var entry := StoredEntry(ArticlePage, cfg.defaultTimeout);
      && written == map["/en/articles/5/?page=2:en:1" := entry]
      && entry.response.cookies == map[]
      && ProcessRequest(cfg, written, ArticleRequest) == Success(Some(MarkServed(entry.response)))
  {
    assert Text.IntToString(1) == "1";
    assert BuildCacheKey("/en/articles/5/?page=2", "en", 1) == "/en/articles/5/?page=2:en:1";
    assert GetCacheKey(cfg, ArticleRequest) == Success("/en/articles/5/?page=2:en:1");
    assert !HasCsrfChunk(ArticlePage.body) by {
      assert FindCsrfChunk(ArticlePage.body).None?;
    }
    StoreThenServe(cfg, map[], ArticleRequest, ArticlePage);
  }
}
