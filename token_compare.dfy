/**
 * The two token caches side by side: given the same clock readings and the same
 * exchange, they agree on when a freshly obtained token may be reused and differ
 * only in what a failed or token-less exchange leaves behind.
 */
module TokenCompare {
  import opened Wrappers
  import opened JsText
  import opened TokenEndpoint
  import AppToken
  import UtilsToken

  /** For a token obtained at `receivedAt` with lifetime `expiresIn`, both caches reuse it exactly strictly before `receivedAt + expiresIn*1000 - 60000`. */
  lemma HitWindowsAgree(app: AppToken.Cached, utils: UtilsToken.TokenCache, now: int, receivedAt: int,
                        id: string, secret: string, token: string, expiresIn: int, later: int)
    requires id != "" && secret != "" && token != ""
    requires !AppToken.IsHit(app, now) && !UtilsToken.IsHit(utils, now)
    ensures var ex := Granted(Some(token), expiresIn);
      var a := AppToken.Lookup(app, now, receivedAt, AppToken.Env(Some(id), Some(secret)), ex);
      var u := UtilsToken.Lookup(utils, now, receivedAt, Some(id), Some(secret), ex);
      && a.result == Success(token) && u.result == Success(Some(token))
      && (AppToken.IsHit(a.cache, later) <==> UtilsToken.IsHit(u.cache, later))
      && (AppToken.IsHit(a.cache, later) <==> later < receivedAt + expiresIn * 1000 - 60_000)
  {
  }

  /** A rejected or failed exchange clears the newer cache but leaves the older one exactly as it was; both throw. */
  lemma FailuresDiffer(app: AppToken.Cached, utils: UtilsToken.TokenCache, now: int, receivedAt: int,
                       id: string, secret: string, ex: Exchange)
    requires id != "" && secret != "" && !ex.Granted?
    requires !AppToken.IsHit(app, now) && !UtilsToken.IsHit(utils, now)
    ensures var a := AppToken.Lookup(app, now, receivedAt, AppToken.Env(Some(id), Some(secret)), ex);
      var u := UtilsToken.Lookup(utils, now, receivedAt, Some(id), Some(secret), ex);
      && a.result.Failure? && u.result.Failure?
      && a.cache == AppToken.Initial && u.cache == utils
  {
  }

  /** A granted response without a usable token: the newer cache throws and clears, the older one returns it and stores it, yet never reuses it. */
  lemma MissingTokenDiffers(app: AppToken.Cached, utils: UtilsToken.TokenCache, now: int, receivedAt: int,
                            id: string, secret: string, token: Option<string>, expiresIn: int, later: int)
    requires id != "" && secret != "" && !Truthy(token)
    requires !AppToken.IsHit(app, now) && !UtilsToken.IsHit(utils, now)
    ensures var ex := Granted(token, expiresIn);
      var a := AppToken.Lookup(app, now, receivedAt, AppToken.Env(Some(id), Some(secret)), ex);
      var u := UtilsToken.Lookup(utils, now, receivedAt, Some(id), Some(secret), ex);
      && a == AppToken.Outcome(AppToken.Initial, Failure(AppToken.NoAccessToken))
      && u.result == Success(token) && u.cache.accessToken == token
      && !AppToken.IsHit(a.cache, later) && !UtilsToken.IsHit(u.cache, later)
  {
  }

  /** Both caches check the cache before the credentials: a valid cached token is served even with no credentials at all. */
  lemma BothServeHitsWithoutCredentials(app: AppToken.Cached, utils: UtilsToken.TokenCache, now: int, receivedAt: int,
                                        ex: Exchange)
    requires AppToken.IsHit(app, now) && UtilsToken.IsHit(utils, now)
    ensures AppToken.Lookup(app, now, receivedAt, AppToken.Env(None, None), ex).result == Success(app.value.value)
    ensures UtilsToken.Lookup(utils, now, receivedAt, None, None, ex).result == Success(utils.accessToken)
  {
  }
}
