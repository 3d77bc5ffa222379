/**
 `CacheMiddlewareBase.use_cache`: the ordered eligibility rules shared by the
 read path (no response yet) and the write path (with the response).
 */
module Policy {
  import opened Wrappers
  import opened Http

  predicate IsSafeMethod(verb: string) {
    verb == "GET" || verb == "HEAD"
  }

  /** `request.path.startswith(settings.STATIC_URL)` under the dev server. */
  predicate IsDevServerStatic(cfg: Config, req: Request) {
    cfg.runWithDevServer && cfg.staticUrl <= req.path
  }

  /**
   The built-in rules as one unordered condition: every rule `use_cache`
   checks before it reaches the callback.
   */
  ghost predicate BuiltInRulesAllow(cfg: Config, req: Request, resp: Option<Response>) {
    && IsSafeMethod(req.verb)
    && !IsDevServerStatic(cfg, req)
    && (resp.Some? ==> resp.value.status == 200)
    && !(cfg.anonymousOnly && req.isAuthenticated)
    && req.pendingMessages == 0
    && (resp.Some? ==> !resp.value.csrfProcessingDone)
  }

  /** The callback's answer, or "allowed" when none is configured. */
  ghost predicate CallbackAllows(cfg: Config, req: Request, resp: Option<Response>) {
    cfg.callback.None? || cfg.callback.value(req, resp)
  }

  /** `use_cache(request, response)`: the first failing rule answers `false`. */
  function UseCache(cfg: Config, req: Request, resp: Option<Response>): (ok: bool)
    ensures ok ==> IsSafeMethod(req.verb)
    ensures ok ==> !IsDevServerStatic(cfg, req)
    ensures ok && resp.Some? ==> resp.value.status == 200
    ensures ok && cfg.anonymousOnly ==> !req.isAuthenticated
    ensures ok ==> req.pendingMessages == 0
    ensures ok && resp.Some? ==> !resp.value.csrfProcessingDone
    ensures ok && cfg.callback.Some? ==> cfg.callback.value(req, resp)
    ensures BuiltInRulesAllow(cfg, req, resp) && CallbackAllows(cfg, req, resp) ==> ok
  {
    if !IsSafeMethod(req.verb) then false
    else if IsDevServerStatic(cfg, req) then false
    else if resp.Some? && resp.value.status != 200 then false
    else if cfg.anonymousOnly && req.isAuthenticated then false
    else if req.pendingMessages != 0 then false
    else if resp.Some? && resp.value.csrfProcessingDone then false
    else
      match cfg.callback
      case Some(callback) => callback(req, resp)
      case None => true
  }

  /**
   The callback can only veto: the answer with a callback is the answer
   without one, further restricted by the callback. In particular a request
   the built-in rules reject stays rejected whatever the callback answers.
   */
  lemma CallbackOnlyVetoes(cfg: Config, req: Request, resp: Option<Response>)
    ensures UseCache(cfg, req, resp) <==>
      UseCache(cfg.(callback := None), req, resp) && CallbackAllows(cfg, req, resp)
  {
  }

  /** With no response the status and CSRF rules do not apply, so the read path is at least as permissive. */
  lemma WriteEligibleImpliesReadEligible(cfg: Config, req: Request, resp: Response)
    requires CallbackAllows(cfg, req, None)
    ensures UseCache(cfg, req, Some(resp)) ==> UseCache(cfg, req, None)
  {
  }

  /**
   A response with a status other than 200 is never cached, while the same
   request can still be looked up on the read path when that status is the
   only thing the write path objects to.
   */
  lemma StatusRuleOnlyOnWritePath(cfg: Config, req: Request, resp: Response)
    requires resp.status != 200
    ensures !UseCache(cfg, req, Some(resp))
    ensures BuiltInRulesAllow(cfg, req, Some(resp.(status := 200))) && CallbackAllows(cfg, req, None) ==> UseCache(cfg, req, None)
  {
  }
}
