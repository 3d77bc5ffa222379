/** `FetchFromCacheMiddleware.process_request`: serve a stored page when one exists. */
module Reader {
  import opened Wrappers
  import opened Http
  import opened Policy
  import opened CacheKey

  /** A stored response as it is handed back, tagged `_from_cache = True`. */
  function MarkServed(resp: Response): (r: Response)
    ensures r.fromCache == Some(true)
    ensures r.(fromCache := resp.fromCache) == resp
  {
    resp.(fromCache := Some(true))
  }

  /**
   `process_request(request)`: `Success(None)` lets the request through to the
   view, `Success(Some(r))` short-circuits it with the cached `r`. The store is
   only read.
   */
  function ProcessRequest(cfg: Config, store: Store, req: Request): (r: Result<Option<Response>, CacheError>)
    ensures !UseCache(cfg, req, None) ==> r == Success(None)
    ensures r.Failure? <==> UseCache(cfg, req, None) && req.languageCode.None?
    ensures r.Failure? ==> r.error == MissingLanguageCode
    ensures r.Success? && r.value.Some? ==>
      && UseCache(cfg, req, None)
      && GetCacheKey(cfg, req).Success?
      && GetCacheKey(cfg, req).value in store
      && r.value.value == MarkServed(store[GetCacheKey(cfg, req).value].response)
    ensures UseCache(cfg, req, None) && GetCacheKey(cfg, req).Success? ==>
      (r == Success(None) <==> GetCacheKey(cfg, req).value !in store)
  {
    if !UseCache(cfg, req, None) then Success(None)
    else
      match GetCacheKey(cfg, req)
      case Failure(e) => Failure(e)
      case Success(key) =>
        if key in store then Success(Some(MarkServed(store[key].response))) else Success(None)
  }

  /** An ineligible request gets the same answer whatever the store holds: it is never consulted. */
  lemma IneligibleReadIgnoresStore(cfg: Config, s1: Store, s2: Store, req: Request)
    requires !UseCache(cfg, req, None)
    ensures ProcessRequest(cfg, s1, req) == ProcessRequest(cfg, s2, req) == Success(None)
  {
  }

  /** After `delete_cache_item` for a request's full path and language, the read path misses. */
  lemma DeleteInvalidatesRead(cfg: Config, store: Store, req: Request)
    requires req.languageCode.Some?
    ensures ProcessRequest(cfg, DeleteCacheItem(cfg, store, req.fullPath, req.languageCode.value, None), req) == Success(None)
  {
  }
}
