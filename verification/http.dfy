/**
 The plain records the middleware reads: the request, the response, the
 process-wide configuration, the cache store and the two errors the
 middleware raises.
 */
module Http {
  import opened Wrappers
  import Text

  /**
   What `use_cache` and `get_cache_key` read from a Django request.
   `verb` is `request.method`, `path` is `request.path` (no query string), `fullPath` is
   `request.get_full_path()`. `languageCode` is `None` when LocaleMiddleware
   has not set `request.LANGUAGE_CODE`. `pendingMessages` is
   `len(request._messages)`, 0 when the attribute is absent. `remoteAddr` is
   `request.META.get('REMOTE_ADDR')`.
   */
  datatype Request = Request(
    verb: string,
    path: string,
    fullPath: string,
    languageCode: Option<string>,
    isAuthenticated: bool,
    pendingMessages: nat,
    remoteAddr: Option<string>)

  /**
   What the middleware reads from or writes to an `HttpResponse`.
   `body` is `response._container`, the list of content chunks. `maxAge` is what
   `get_max_age` reads from the Cache-Control header. `freshness` is `Some(t)`
   once `patch_response_headers` has stamped ETag, Last-Modified, Expires and
   Cache-Control from timeout `t`. `fromCache` is the `_from_cache` attribute,
   `None` while it is unset.
   */
  datatype Response = Response(
    status: int,
    body: seq<string>,
    contentType: string,
    contentLanguage: Option<string>,
    maxAge: Option<nat>,
    freshness: Option<nat>,
    otherHeaders: map<string, string>,
    cookies: map<string, string>,
    csrfProcessingDone: bool,
    fromCache: Option<bool>)

  /** The `CACHE_CALLBACK` hook: it sees the request and, on the write path, the response. */
  type Callback = (Request, Option<Response>) -> bool

  /**
   The settings the middleware consults. CACHE_MIDDLEWARE_ANONYMOUS_ONLY,
   RUN_WITH_DEV_SERVER and the resolved CACHE_CALLBACK are fixed once at
   import. DEBUG, STATIC_URL, INTERNAL_IPS, SITE_ID and
   CACHE_MIDDLEWARE_SECONDS are read from the settings on every call. Every
   operation takes the configuration in force for that call.
   */
  datatype Config = Config(
    anonymousOnly: bool,
    runWithDevServer: bool,
    debug: bool,
    staticUrl: string,
    internalIps: set<string>,
    siteId: int,
    defaultTimeout: nat,
    callback: Option<Callback>)

  /** One `cache.set(key, response, timeout)` as the store keeps it. */
  datatype CacheEntry = CacheEntry(response: Response, timeout: nat)

  type Store = map<string, CacheEntry>

  /**
   The two exceptions the middleware raises: the AttributeError re-raised by
   `get_cache_key` when LocaleMiddleware did not run, and the AssertionError
   raised when a chunk about to be cached carries a CSRF token.
   */
  datatype CacheError = MissingLanguageCode | CsrfTokenLeak(chunk: string)

  const LocaleHintStart := "django.middleware.locale."
  const LocaleMiddlewareName := "LocaleMiddleware"
  const LocaleHintEnd := " must be insert before cache middleware!"
  /** Stands in for the interpreter's own AttributeError text. */
  const MissingAttributeText := "request has no attribute 'LANGUAGE_CODE'"
  const CsrfLeakText := "csrf_token would be put into the cache! content: "

  /** The text the raised exception carries; the CSRF one shows the chunk as `%r` does. */
  function ErrorMessage(e: CacheError): (m: string)
    ensures e.MissingLanguageCode? ==> Text.Contains(m, LocaleMiddlewareName)
    ensures e.CsrfTokenLeak? ==> Text.Contains(m, Text.Repr(e.chunk))
  {
    match e
    case MissingLanguageCode =>
      var prefix := MissingAttributeText + " (" + LocaleHintStart;
      var suffix := LocaleHintEnd + ")";
      Text.ContainsInfix(prefix, LocaleMiddlewareName, suffix);
      prefix + LocaleMiddlewareName + suffix
    case CsrfTokenLeak(chunk) =>
      var shown := Text.Repr(chunk);
      Text.ContainsInfix(CsrfLeakText, shown, "");
      assert CsrfLeakText + shown + "" == CsrfLeakText + shown;
      CsrfLeakText + shown
  }
}
