/**
 Cache-key composition: `build_cache_key`, `get_cache_key` and
 `delete_cache_item`. A key is `url:language_code:site_id`. `ParseCacheKey`
 is its inverse, which shows which keys can and cannot collide.
 */
module CacheKey {
  import opened Wrappers
  import opened Http
  import Text

  const Separator: char := ':'

  /** The three parts a cache key is composed of. */
  datatype KeyParts = KeyParts(url: string, languageCode: string, siteId: int)

  /** `"%s:%s:%s" % (url, language_code, site_id)`. */
  function BuildCacheKey(url: string, languageCode: string, siteId: int): string {
    url + [Separator] + languageCode + [Separator] + Text.IntToString(siteId)
  }

  /**
   Reads a key back into its parts. The site id is read after the last ':'
   and the language code after the one before it. Keys that `BuildCacheKey`
   cannot produce read as `None`.
   */
  function ParseCacheKey(key: string): Option<KeyParts> {
    match Text.SplitLast(key, Separator)
    case None => None
    case Some((rest, site)) =>
      match Text.SplitLast(rest, Separator)
      case None => None
      case Some((url, language)) =>
        if Text.IsIntString(site) && Text.IntToString(Text.ParseInt(site)) == site
        then Some(KeyParts(url, language, Text.ParseInt(site)))
        else None
  }

  /** A key whose language code has no ':' reads back as the parts it was built from. */
  lemma ParseBuildRoundTrip(url: string, languageCode: string, siteId: int)
    requires Separator !in languageCode
    ensures ParseCacheKey(BuildCacheKey(url, languageCode, siteId)) == Some(KeyParts(url, languageCode, siteId))
  {
    var site := Text.IntToString(siteId);
    var rest := url + [Separator] + languageCode;
    assert BuildCacheKey(url, languageCode, siteId) == rest + [Separator] + site;
    Text.SplitLastUnique(rest + [Separator] + site, Separator, rest, site);
    Text.SplitLastUnique(rest, Separator, url, languageCode);
    Text.ParseIntOfIntToString(siteId);
  }

  /** Every key that parses is rebuilt exactly from its parts. */
  lemma BuildParseRoundTrip(key: string)
    ensures ParseCacheKey(key).Some? ==>
      var p := ParseCacheKey(key).value;
      BuildCacheKey(p.url, p.languageCode, p.siteId) == key
  {
  }

  /** With colon-free language codes, keys collide exactly when their parts are equal. */
  lemma BuildCacheKeyInjective(u1: string, l1: string, s1: int, u2: string, l2: string, s2: int)
    requires Separator !in l1 && Separator !in l2
    ensures BuildCacheKey(u1, l1, s1) == BuildCacheKey(u2, l2, s2) <==> (u1, l1, s1) == (u2, l2, s2)
  {
    ParseBuildRoundTrip(u1, l1, s1);
    ParseBuildRoundTrip(u2, l2, s2);
  }

  /**
   For one URL, keys differ whenever the language code or the site differs.
   This holds for every language code, since a site id never contains ':'.
   In particular the same URL on two sites does not collide.
   */
  lemma SameUrlDistinctKeys(url: string, l1: string, s1: int, l2: string, s2: int)
    ensures BuildCacheKey(url, l1, s1) == BuildCacheKey(url, l2, s2) <==> l1 == l2 && s1 == s2
  {
    var r1, r2 := url + [Separator] + l1, url + [Separator] + l2;
    var t1, t2 := Text.IntToString(s1), Text.IntToString(s2);
    assert BuildCacheKey(url, l1, s1) == r1 + [Separator] + t1;
    assert BuildCacheKey(url, l2, s2) == r2 + [Separator] + t2;
    if BuildCacheKey(url, l1, s1) == BuildCacheKey(url, l2, s2) {
      Text.SplitLastUnique(r1 + [Separator] + t1, Separator, r1, t1);
      Text.SplitLastUnique(r2 + [Separator] + t2, Separator, r2, t2);
      Text.IntToStringInjective(s1, s2);
      assert l1 == r1[|url| + 1..] == r2[|url| + 1..] == l2;
    }
  }

  /** A ':' inside the language code lets two different URLs share a key. */
  lemma ColonInLanguageCollides()
    ensures BuildCacheKey("/a", "b:c", 1) == BuildCacheKey("/a:b", "c", 1)
  {
  }

  /** `get_cache_key`: the request's full path, its LANGUAGE_CODE and SITE_ID. */
  function GetCacheKey(cfg: Config, req: Request): (r: Result<string, CacheError>)
    ensures r.Failure? <==> req.languageCode.None?
    ensures r.Failure? ==> r.error == MissingLanguageCode
    ensures r.Success? && Separator !in req.languageCode.value ==>
      ParseCacheKey(r.value) == Some(KeyParts(req.fullPath, req.languageCode.value, cfg.siteId))
    ensures r.Success? ==> forall l, s :: r.value == BuildCacheKey(req.fullPath, l, s) <==> l == req.languageCode.value && s == cfg.siteId
  {
    match req.languageCode
    case None => Failure(MissingLanguageCode)
    case Some(language) =>
      var key := BuildCacheKey(req.fullPath, language, cfg.siteId);
      assert Separator !in language ==> ParseCacheKey(key) == Some(KeyParts(req.fullPath, language, cfg.siteId)) by {
        if Separator !in language {
          ParseBuildRoundTrip(req.fullPath, language, cfg.siteId);
        }
      }
      assert forall l, s :: key == BuildCacheKey(req.fullPath, l, s) <==> l == language && s == cfg.siteId by {
        forall l, s ensures key == BuildCacheKey(req.fullPath, l, s) <==> l == language && s == cfg.siteId {
          SameUrlDistinctKeys(req.fullPath, language, cfg.siteId, l, s);
        }
      }
      Success(key)
  }

  /**
   `delete_cache_item`: removes the entry under the key built from `url`,
   `languageCode` and `siteId`, where a missing `siteId` means SITE_ID.
   */
  function DeleteCacheItem(cfg: Config, store: Store, url: string, languageCode: string, siteId: Option<int>): (r: Store)
    ensures forall k :: k in r <==> k in store && k != BuildCacheKey(url, languageCode, siteId.GetOr(cfg.siteId))
    ensures forall k :: k in r ==> r[k] == store[k]
  {
    var site := match siteId case None => cfg.siteId case Some(s) => s;
    store - {BuildCacheKey(url, languageCode, site)}
  }

  /** Leaving out the site id is the same as passing SITE_ID. */
  lemma DeleteDefaultsToSiteId(cfg: Config, store: Store, url: string, languageCode: string)
    ensures DeleteCacheItem(cfg, store, url, languageCode, None) == DeleteCacheItem(cfg, store, url, languageCode, Some(cfg.siteId))
  {
  }
}
