/** `UpdateCacheMiddleware.process_response`: store a sanitized copy of an eligible page. */
module Writer {
  import opened Wrappers
  import opened Http
  import opened Policy
  import opened CacheKey
  import Text

  /** The `{% csrf_token %}` field name the debug scan looks for. */
  const CsrfMarker := "csrfmiddlewaretoken"

  /**
   A write-path transition: the store afterwards and either the response
   handed on or the error raised. An error leaves `store` as it was.
   */
  datatype Step = Step(store: Store, outcome: Result<Response, CacheError>)

  /** `response._from_cache = False`, set on every response not served from the cache. */
  function MarkFresh(resp: Response): (r: Response)
    ensures r.fromCache == Some(false)
    ensures r.(fromCache := resp.fromCache) == resp
  {
    resp.(fromCache := Some(false))
  }

  /** The timeout to store with, from max-age; `None` means max-age 0, so do not store. */
  function StoreTimeout(cfg: Config, resp: Response): (t: Option<nat>)
    ensures t.None? <==> resp.maxAge == Some(0)
    ensures t.Some? ==> t.value == resp.maxAge.GetOr(cfg.defaultTimeout)
  {
    match resp.maxAge
    case None => Some(cfg.defaultTimeout)
    case Some(0) => None
    case Some(seconds) => Some(seconds)
  }

  /** What a client reads of a page: its body, Content-Type and Content-Language. */
  predicate SameContent(a: Response, b: Response) {
    a.body == b.body && a.contentType == b.contentType && a.contentLanguage == b.contentLanguage
  }

  /**
   The new `HttpResponse` built for the cache: status 200 and the page's
   content, without cookies, other headers or the CSRF marker.
   */
  function CacheCopy(resp: Response): (c: Response)
    ensures SameContent(c, resp)
    ensures c.status == 200 && !c.csrfProcessingDone
    ensures c.cookies == map[] && c.otherHeaders == map[]
    ensures c.fromCache.None? && c.freshness.None? && c.maxAge.None?
  {
    Response(200, resp.body, resp.contentType, resp.contentLanguage, None, None, map[], map[], false, None)
  }

  /** A copy of a copy is the copy: sanitizing removes everything it can at once. */
  lemma CacheCopyIdempotent(resp: Response)
    ensures CacheCopy(CacheCopy(resp)) == CacheCopy(resp)
  {
  }

  /** `patch_response_headers(response, timeout)`: freshness headers and max-age from `timeout`. */
  function StampFreshness(resp: Response, timeout: nat): (r: Response)
    ensures r.freshness == Some(timeout) && r.maxAge == Some(timeout)
    ensures SameContent(r, resp) && r.status == resp.status
    ensures r.(maxAge := resp.maxAge, freshness := resp.freshness) == resp
  {
    resp.(maxAge := Some(timeout), freshness := Some(timeout))
  }

  /** The entry `process_response` writes for `resp` with `timeout`. */
  function StoredEntry(resp: Response, timeout: nat): (e: CacheEntry)
    ensures e.timeout == timeout && e.response.freshness == Some(timeout)
    ensures SameContent(e.response, resp)
    ensures e.response.status == 200 && !e.response.csrfProcessingDone
    ensures e.response.cookies == map[] && e.response.otherHeaders == map[]
    ensures e.response.fromCache.None? && e.response.maxAge == Some(timeout)
  {
    CacheEntry(StampFreshness(CacheCopy(resp), timeout), timeout)
  }

  /** The debug scan applies: DEBUG, the dev server, or REMOTE_ADDR in INTERNAL_IPS. */
  predicate CsrfScanApplies(cfg: Config, req: Request) {
    cfg.debug || cfg.runWithDevServer || (req.remoteAddr.Some? && req.remoteAddr.value in cfg.internalIps)
  }

  /** Index of the first body chunk carrying the CSRF marker, if any. */
  function FindCsrfChunk(body: seq<string>): (r: Option<nat>)
    ensures r.Some? ==> r.value < |body| && Text.Contains(body[r.value], CsrfMarker)
    ensures r.Some? ==> forall j :: 0 <= j < r.value ==> !Text.Contains(body[j], CsrfMarker)
    ensures r.None? <==> forall j :: 0 <= j < |body| ==> !Text.Contains(body[j], CsrfMarker)
    decreases |body|
  {
    if |body| == 0 then None
    else if Text.Contains(body[0], CsrfMarker) then Some(0)
    else
      match FindCsrfChunk(body[1..])
      case None => None
      case Some(i) => Some(i + 1)
  }

  ghost predicate HasCsrfChunk(body: seq<string>) {
    exists j :: 0 <= j < |body| && Text.Contains(body[j], CsrfMarker)
  }

  /**
   Every condition under which `process_response` writes an entry, stated
   without the order in which the source checks them.
   */
  ghost predicate WillStore(cfg: Config, req: Request, resp: Response) {
    && resp.fromCache != Some(true)
    && UseCache(cfg, req, Some(MarkFresh(resp)))
    && resp.maxAge != Some(0)
    && !(CsrfScanApplies(cfg, req) && HasCsrfChunk(resp.body))
    && req.languageCode.Some?
  }

  /** `process_response(request, response)`. */
  function ProcessResponse(cfg: Config, store: Store, req: Request, resp: Response): (r: Step)
    ensures resp.fromCache == Some(true) ==> r == Step(store, Success(resp))
    ensures resp.fromCache != Some(true) && r.outcome.Success? ==> r.outcome.value == MarkFresh(resp)
    ensures resp.fromCache != Some(true) && (!UseCache(cfg, req, Some(MarkFresh(resp))) || resp.maxAge == Some(0)) ==>
      r == Step(store, Success(MarkFresh(resp)))
    ensures r.outcome.Failure? ==> r.store == store
    ensures !WillStore(cfg, req, resp) ==> r.store == store
    ensures WillStore(cfg, req, resp) ==>
      var timeout := resp.maxAge.GetOr(cfg.defaultTimeout);
      && r.outcome == Success(MarkFresh(resp))
      && r.store == store[GetCacheKey(cfg, req).value := StoredEntry(resp, timeout)]
    ensures r.outcome.Failure? && r.outcome.error.CsrfTokenLeak? <==>
      && resp.fromCache != Some(true)
      && UseCache(cfg, req, Some(MarkFresh(resp)))
      && resp.maxAge != Some(0)
      && CsrfScanApplies(cfg, req)
      && HasCsrfChunk(resp.body)
    ensures r.outcome.Failure? && r.outcome.error.CsrfTokenLeak? ==> Text.Contains(r.outcome.error.chunk, CsrfMarker)
    ensures r.outcome.Failure? && r.outcome.error.CsrfTokenLeak? ==>
      FindCsrfChunk(resp.body).Some? && r.outcome.error.chunk == resp.body[FindCsrfChunk(resp.body).value]
    ensures r.outcome.Failure? && r.outcome.error.MissingLanguageCode? <==>
      && resp.fromCache != Some(true)
      && UseCache(cfg, req, Some(MarkFresh(resp)))
      && resp.maxAge != Some(0)
      && !(CsrfScanApplies(cfg, req) && HasCsrfChunk(resp.body))
      && req.languageCode.None?
  {
    if resp.fromCache == Some(true) then Step(store, Success(resp))
    else
      var marked := MarkFresh(resp);
      if !UseCache(cfg, req, Some(marked)) then Step(store, Success(marked))
      else
        match StoreTimeout(cfg, marked)
        case None => Step(store, Success(marked))
        case Some(timeout) =>
          var copy := CacheCopy(marked);
          var leak := if CsrfScanApplies(cfg, req) then FindCsrfChunk(marked.body) else None;
          if leak.Some? then Step(store, Failure(CsrfTokenLeak(marked.body[leak.value])))
          else
            var stamped := StampFreshness(copy, timeout);
            match GetCacheKey(cfg, req)
            case Failure(e) => Step(store, Failure(e))
            case Success(key) => Step(store[key := CacheEntry(stamped, timeout)], Success(marked))
  }
}
