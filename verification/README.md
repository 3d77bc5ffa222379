# Per-site cache middleware of django-tools, modelled in Dafny

This project models `django_tools/cache/site_cache_middleware.py`, the
per-site cache middleware pair of django-tools. It covers these parts:

- **Cache-key composition.** `build_cache_key`, `get_cache_key` and
  `delete_cache_item` build the key `url:language_code:site_id`.
- **The eligibility rules.** `CacheMiddlewareBase.use_cache` answers `False`
  at the first rule that fails.
- **The read path.** `FetchFromCacheMiddleware.process_request` serves a
  stored page tagged `_from_cache = True`.
- **The write path.** `UpdateCacheMiddleware.process_response` picks the
  timeout from max-age and builds a sanitized copy. In debug contexts it
  refuses a body that carries a CSRF token. It then writes the copy and
  returns the original response.

Requests, responses and settings are immutable records (`Http`). The cache is
a `map<string, CacheEntry>` that keeps each response together with its
timeout. Every operation is a pure function. The read path takes the store and
returns no store. The write path returns a `Step`: the store afterwards, plus
either the response passed on or the error raised. The two raised exceptions
are `Result` failures. The `CACHE_CALLBACK` hook is an optional function
`(Request, Option<Response>) -> bool` inside the configuration.

Modules, in dependency order:

- `Wrappers`: `Option` and `Result`.
- `Text`: Python's `str()` of an integer, the `in` substring test,
  splitting at the last separator, and Python 2's `repr` of a byte string
  (the `%r` in the CSRF error) together with its inverse.
- `Http`: the request, response, configuration, store and error records.
- `CacheKey`: building keys, reading them back, and deleting an entry.
- `Policy`: `use_cache`.
- `Reader`: `process_request`.
- `Writer`: `process_response`.
- `Scenarios`: the two paths together over one store, including the
  `/en/articles/5/?page=2` example.

Three places where the model reads the code a particular way:

- The key joins its three parts with ':' and does not escape them.
  `CacheKey.BuildCacheKeyInjective` therefore proves that keys are
  collision-free only when the language codes contain no ':'.
  `CacheKey.ColonInLanguageCollides` shows a collision when one does. For a
  fixed URL, keys never collide, whatever the language code
  (`CacheKey.SameUrlDistinctKeys`).
- A store that is unreachable is not treated as a miss. The code has no
  handling for it, so the model has none either.
- A response passed to `use_cache` counts as supplied whenever it is present
  (`Some`). The `HttpResponse` class of that Django era defines no truth value
  of its own, so every response object is truthy.

## Model

| member | source | states |
|---|---|---|
| `Text.IntToString` | django_tools/cache/site_cache_middleware.py:40 | the `%s` rendering of the site id is non-empty, has only digits and '-', has a '-' sign exactly for negative ids, has no leading zeros, and never contains the ':' separator |
| `Text.IntToStringInjective` | django_tools/cache/site_cache_middleware.py:40 | distinct site ids render to distinct strings (in both directions) |
| `Text.Contains` | django_tools/cache/site_cache_middleware.py:175 | Python's `marker in content` is true exactly when the marker occurs at some index of the chunk |
| `Text.Repr` | django_tools/cache/site_cache_middleware.py:176 | Python 2's `%r` of a chunk is quoted with the quote `repr` picks and consists of printable characters only, so a multi-line chunk is shown on one line; reading the escapes back gives the chunk itself |
| `Text.ReprInjective` | django_tools/cache/site_cache_middleware.py:176 | two chunks are rendered alike exactly when they are equal, so the error text determines the offending chunk |
| `Text.ReprOfPlainText` | django_tools/cache/site_cache_middleware.py:176 | a chunk of printable text without quotes or backslashes is shown as itself between single quotes |
| `CacheKey.ParseBuildRoundTrip` | django_tools/cache/site_cache_middleware.py:39-43 | a key built from a colon-free language code reads back as exactly the URL, language code and site id it came from |
| `CacheKey.BuildParseRoundTrip` | django_tools/cache/site_cache_middleware.py:39-43 | every key that reads back is rebuilt exactly from its parts |
| `CacheKey.BuildCacheKeyInjective` | django_tools/cache/site_cache_middleware.py:39-43 | with colon-free language codes, two keys are equal if and only if their URL, language and site triples are equal |
| `CacheKey.SameUrlDistinctKeys` | django_tools/cache/site_cache_middleware.py:46-54 | for one URL, two keys are equal if and only if the language code and the site id are both equal, so the same URL on two sites does not collide |
| `CacheKey.ColonInLanguageCollides` | django_tools/cache/site_cache_middleware.py:40 | a ':' in the language code lets `/a` and `/a:b` share a key, so the colon-free condition above is needed |
| `CacheKey.GetCacheKey` | django_tools/cache/site_cache_middleware.py:55-66 | fails, with the missing-LocaleMiddleware error, exactly when the request has no LANGUAGE_CODE; otherwise the key is built from the full path, that language and SITE_ID and from no other language or site, for every language code, so no default language is ever used; for a colon-free language code the key also reads back as those three parts |
| `Http.ErrorMessage` | django_tools/cache/site_cache_middleware.py:59-62 | the missing-language error names LocaleMiddleware (the re-raise at lines 59-62), and the CSRF error carries the `%r` rendering of the offending chunk (the AssertionError at line 176) |
| `CacheKey.DeleteCacheItem` | django_tools/cache/site_cache_middleware.py:69-75 | removes exactly the key for the URL, the language and the given site or SITE_ID, and leaves every other entry unchanged |
| `CacheKey.DeleteDefaultsToSiteId` | django_tools/cache/site_cache_middleware.py:70-71 | leaving out the site id is the same as passing SITE_ID |
| `Policy.UseCache` | django_tools/cache/site_cache_middleware.py:79-114 | a true answer implies GET/HEAD, not a dev-server static path, status 200 when a response is given, not an authenticated user in anonymous-only mode, no pending messages, no CSRF processing, and the callback's approval; when all of these hold, the answer is true |
| `Policy.CallbackOnlyVetoes` | django_tools/cache/site_cache_middleware.py:111-114 | the answer with a callback is the answer without one, and-ed with the callback's answer; a built-in rejection is never turned into true |
| `Policy.WriteEligibleImpliesReadEligible` | django_tools/cache/site_cache_middleware.py:89-109 | when the callback allows the read-path lookup, a request eligible on the write path is also eligible on the read path |
| `Policy.StatusRuleOnlyOnWritePath` | django_tools/cache/site_cache_middleware.py:89-91 | a status other than 200 always rejects the write path, while the same request with no response stays eligible when the status is the only rule the response breaks |
| `Reader.MarkServed` | django_tools/cache/site_cache_middleware.py:135 | the served response is the stored one with only `_from_cache` set to true |
| `Reader.ProcessRequest` | django_tools/cache/site_cache_middleware.py:120-136 | ineligible requests get nothing; an eligible request with no LANGUAGE_CODE fails with the locale error; a miss gets nothing; a hit gets exactly the stored response under the request's key, tagged as cached |
| `Reader.IneligibleReadIgnoresStore` | django_tools/cache/site_cache_middleware.py:124-127 | for an ineligible request the answer is the same for every store, so the store is never consulted |
| `Reader.DeleteInvalidatesRead` | django_tools/cache/site_cache_middleware.py:69-75 | after `delete_cache_item` for a request's full path and language, the read path misses |
| `Writer.MarkFresh` | django_tools/cache/site_cache_middleware.py:144-146 | the response passed on differs from the input only in `_from_cache`, which is false |
| `Writer.StoreTimeout` | django_tools/cache/site_cache_middleware.py:153-160 | max-age 0 means do not store; an absent max-age means CACHE_MIDDLEWARE_SECONDS; any other max-age is used as it is |
| `Writer.CacheCopy` | django_tools/cache/site_cache_middleware.py:162-170 | the copy for the cache keeps body, Content-Type and Content-Language, has status 200, and has no cookies, other headers, Cache-Control max-age, freshness headers, CSRF flag or `_from_cache` tag |
| `Writer.CacheCopyIdempotent` | django_tools/cache/site_cache_middleware.py:162-170 | sanitizing an already sanitized copy changes nothing |
| `Writer.StampFreshness` | django_tools/cache/site_cache_middleware.py:178-179 | the freshness headers and max-age carry the timeout, and every other part of the response is kept as it was |
| `Writer.StoredEntry` | django_tools/cache/site_cache_middleware.py:162-182 | the stored entry has status 200, the page's content, no cookies or other headers, no CSRF flag, no `_from_cache` tag, and freshness and max-age stamped from the timeout it is stored with |
| `Writer.FindCsrfChunk` | django_tools/cache/site_cache_middleware.py:174-176 | finds the first body chunk containing `csrfmiddlewaretoken`, and finds none exactly when no chunk contains it |
| `Writer.ProcessResponse` | django_tools/cache/site_cache_middleware.py:140-185 | a cached response passes untouched; an ineligible or max-age 0 response is passed on with `_from_cache` false and the store untouched; the store changes only when every storing condition holds, and then holds the sanitized copy under the request's key while the original response is passed on; a CSRF error happens exactly in the debug, dev-server or internal-IP contexts when a chunk carries the marker, and names the first such chunk; the missing-LANGUAGE_CODE error happens exactly when everything else would store but the request has no language code; every error leaves the store unchanged |
| `Scenarios.StoreThenServe` | django_tools/cache/site_cache_middleware.py:120-185 | a page the write path stores is served by the next identical request as the stored copy, tagged as cached |
| `Scenarios.ServedResponseIsNotStoredAgain` | django_tools/cache/site_cache_middleware.py:141-143 | a response the read path served passes the write path unchanged and leaves any store as it is |
| `Scenarios.MaxAgeZeroKeepsMissing` | django_tools/cache/site_cache_middleware.py:158-160 | a max-age 0 page is not stored, so a request that missed still misses |
| `Scenarios.UnsafeMethodBypassesCache` | django_tools/cache/site_cache_middleware.py:80-82 | a method other than GET or HEAD neither looks up nor stores, and raises nothing |
| `Scenarios.AnonymousOnlyStoresOnlyAnonymousPages` | django_tools/cache/site_cache_middleware.py:93-95 | in anonymous-only mode, an authenticated user's page is never stored, while the same page for an anonymous user is |
| `Scenarios.CsrfTokenAbortsWhenScanned` | django_tools/cache/site_cache_middleware.py:172-176 | in the debug, dev-server or internal-IP contexts, an otherwise storable page with a chunk carrying the CSRF token raises the error for the first such chunk and stores nothing |
| `Scenarios.CsrfTokenInDebugAborts` | django_tools/cache/site_cache_middleware.py:172-176 | worked example: one debug-mode page with a hidden CSRF field in its second chunk raises the error for that chunk and stores nothing |
| `Scenarios.ArticlePageRoundTrip` | django_tools/cache/site_cache_middleware.py:39-185 | `/en/articles/5/?page=2` in `en` on site 1 is stored under `/en/articles/5/?page=2:en:1` with the default timeout and without its cookie, and is then served from that entry |

## Left out

- Logging and the debug formatting of pending message texts are left out. This includes the side effect `storage.used = False`, which only serves the log.
- Reading the settings module, detecting `runserver` from `sys.argv`, and resolving `CACHE_CALLBACK` are left out. They become fields of the read-only `Config` record.
- The real cache backend is left out: expiry, eviction, unavailability and concurrent last-write-wins writes. The store is a map that records the timeout and has no clock.
- `get_max_age`'s Cache-Control parsing is left out. Max-age is an `Option<nat>` input, so a negative or malformed max-age is not modelled.
- How `patch_response_headers` computes the ETag hash and dates is left out. Stamping is a `freshness` tag that carries the timeout.
- `HttpResponse` and request internals are left out. This covers how `HttpResponse(content=...)` iterates its content and how `request.user` is looked up. A request without a `user` attribute in anonymous-only mode, which would raise, is not modelled.
- The interpreter's own AttributeError wording is replaced by a constant in `Http.ErrorMessage`. The Python 2 three-argument re-raise is not modelled.
- The `_from_cache == True` test is modelled only for boolean values. Python would also accept `1`.
- The scenario lemmas use one configuration for a write and the read after it. DEBUG, STATIC_URL, INTERNAL_IPS, SITE_ID and CACHE_MIDDLEWARE_SECONDS are read per call in the source, so changing them between the two calls is not covered.
- `Text.Repr`: characters above U+00FF are written as themselves. Python 2 byte strings cannot hold them, and the `u'...'` form of a unicode chunk is not modelled.
- `Text.Contains`: body chunks are modelled as strings of characters, not as byte strings.
