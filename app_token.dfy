/**
 * The app-only token cache of spotifyAuth.js: a module-level record
 * `{value, expiresAt}` that `getAppToken` reads, overwrites after a successful
 * exchange and clears after a failed one. Times are milliseconds since the epoch.
 */
module AppToken {
  import opened Wrappers
  import opened JsText
  import opened TokenEndpoint

  /** A cached token is reused only while it has more than this many milliseconds left. */
  const SafetyMarginMs: int := 60_000
  /** At most this many characters of a rejected response's body go into the error message. */
  const DetailLimit: nat := 200

  datatype Cached = Cached(value: Option<string>, expiresAt: int)

  /** The record the module starts with: `{ value: null, expiresAt: 0 }`. */
  const Initial: Cached := Cached(None, 0)

  /** The two environment variables the grant needs. */
  datatype Env = Env(clientId: Option<string>, clientSecret: Option<string>)

  /** The errors `getAppToken` throws, each with the message it carries. */
  datatype AuthError =
    | MissingEnv
    | AuthStatus(status: nat, detail: string)
    | NoAccessToken
    | Rethrown(message: string)
  {
    function Message(): string
    {
      match this
      case MissingEnv => "Missing Spotify env vars: SPOTIFY_CLIENT_ID and SPOTIFY_CLIENT_SECRET are required"
      case AuthStatus(status, detail) => "Spotify auth " + Decimal(status) + ": " + detail
      case NoAccessToken => "No access token received from Spotify"
      case Rethrown(message) => message
    }
  }

  /** The cache after a call, and what the call returned or threw. */
  datatype Outcome = Outcome(cache: Cached, result: Result<string, AuthError>)

  /** The cache-hit test, read at time `now`. */
  predicate IsHit(c: Cached, now: int)
  {
    Truthy(c.value) && now < c.expiresAt - SafetyMarginMs
  }

  predicate HasCredentials(env: Env)
  {
    Truthy(env.clientId) && Truthy(env.clientSecret)
  }

  /** The `try` block and its `catch`: store on success, clear on any failure; `receivedAt` is the clock after the response. */
  function Renew(ex: Exchange, receivedAt: int): Outcome
  {
    match ex
    case Granted(token, expiresIn) =>
      if Truthy(token) then Outcome(Cached(token, receivedAt + expiresIn * 1000), Success(token.value))
      else Outcome(Initial, Failure(NoAccessToken))
    case NotOk(status, _, body) => Outcome(Initial, Failure(AuthStatus(status, Prefix(body, DetailLimit))))
    case Fault(message) => Outcome(Initial, Failure(Rethrown(message)))
  }

  /** One call of `getAppToken` on cache `c`: the clock reads `now` at the check and `receivedAt` after the exchange. */
  function Lookup(c: Cached, now: int, receivedAt: int, env: Env, ex: Exchange): Outcome
  {
    if IsHit(c, now) then Outcome(c, Success(c.value.value))
    else if !HasCredentials(env) then Outcome(c, Failure(MissingEnv))
    else Renew(ex, receivedAt)
  }

  /** The record the source keeps in the module variable `cached`. */
  class AppTokenCache {
    var value: Option<string>
    var expiresAt: int

    function State(): Cached
      reads this
    {
      Cached(value, expiresAt)
    }

    constructor ()
      ensures State() == Initial
    {
      value, expiresAt := None, 0;
    }

    /** `getAppToken()`. */
    method GetAppToken(now: int, receivedAt: int, env: Env, ex: Exchange) returns (r: Result<string, AuthError>)
      modifies this
      ensures Outcome(State(), r) == Lookup(old(State()), now, receivedAt, env, ex)
    {
      if Truthy(value) && now < expiresAt - SafetyMarginMs {
        return Success(value.value);
      }
      if !Truthy(env.clientId) || !Truthy(env.clientSecret) {
        return Failure(MissingEnv);
      }
      var thrown: AuthError;
      match ex {
        case NotOk(status, _, body) =>
          thrown := AuthStatus(status, Prefix(body, DetailLimit));
        case Fault(message) =>
          thrown := Rethrown(message);
        case Granted(token, expiresIn) =>
          if !Truthy(token) {
            thrown := NoAccessToken;
          } else {
            value, expiresAt := token, receivedAt + expiresIn * 1000;
            return Success(token.value);
          }
      }
      value, expiresAt := None, 0;
      r := Failure(thrown);
    }
  }

  /** On a hit the cached token comes back and nothing changes, whatever the credentials and the exchange would have been. */
  lemma HitReturnsCached(c: Cached, now: int, receivedAt: int, env: Env, ex: Exchange)
    requires IsHit(c, now)
    ensures Lookup(c, now, receivedAt, env, ex) == Outcome(c, Success(c.value.value))
  {
  }

  /** The initial record is never a hit, so the first call goes to the credential check and the exchange. */
  lemma FirstCallExchanges(now: int, receivedAt: int, env: Env, ex: Exchange)
    ensures !IsHit(Initial, now)
    ensures Lookup(Initial, now, receivedAt, env, ex)
         == if HasCredentials(env) then Renew(ex, receivedAt) else Outcome(Initial, Failure(MissingEnv))
  {
  }

  /** A miss without both credentials throws before the exchange and leaves the cache as it was. */
  lemma MissingCredentialsKeepCache(c: Cached, now: int, receivedAt: int, env: Env, ex: Exchange)
    requires !IsHit(c, now)
    requires env.clientId.None? || env.clientId == Some("") || env.clientSecret.None? || env.clientSecret == Some("")
    ensures Lookup(c, now, receivedAt, env, ex) == Outcome(c, Failure(MissingEnv))
  {
  }

  /** A miss with both credentials always goes to the exchange: the outcome is the exchange's, whatever the old record held. */
  lemma MissRenews(c: Cached, now: int, receivedAt: int, env: Env, ex: Exchange)
    requires !IsHit(c, now)
    requires HasCredentials(env)
    ensures Lookup(c, now, receivedAt, env, ex) == Renew(ex, receivedAt)
    ensures Lookup(c, now, receivedAt, env, ex) == Lookup(Initial, now, receivedAt, env, ex)
  {
  }

  /** A granted token is stored with its full lifetime and returned exactly. */
  lemma GrantStoresToken(c: Cached, now: int, receivedAt: int, env: Env, token: string, expiresIn: int)
    requires !IsHit(c, now) && HasCredentials(env) && token != ""
    ensures Lookup(c, now, receivedAt, env, Granted(Some(token), expiresIn))
         == Outcome(Cached(Some(token), receivedAt + expiresIn * 1000), Success(token))
  {
  }

  /** A rejected exchange throws a message carrying the status and at most the first 200 characters of the body. */
  lemma RejectionMessage(c: Cached, now: int, receivedAt: int, env: Env, status: nat, statusText: string, body: string)
    requires !IsHit(c, now) && HasCredentials(env)
    ensures var o := Lookup(c, now, receivedAt, env, NotOk(status, statusText, body));
      && o.cache == Initial
      && o.result.Failure? && o.result.error.AuthStatus?
      && var detail := o.result.error.detail;
      && o.result.error.Message() == "Spotify auth " + Decimal(status) + ": " + detail
      && detail <= body && |detail| <= DetailLimit
      && (|body| <= DetailLimit ==> detail == body)
  {
  }

  /** Once the exchange is attempted, the call fails exactly when the cache ends up cleared, and succeeds exactly on a granted, non-empty token. */
  lemma ExchangeFailureClears(c: Cached, now: int, receivedAt: int, env: Env, ex: Exchange)
    requires !IsHit(c, now) && HasCredentials(env)
    ensures var o := Lookup(c, now, receivedAt, env, ex);
      && (o.result.Failure? <==> o.cache == Initial)
      && (o.result.Success? <==> ex.Granted? && Truthy(ex.accessToken))
  {
  }

  /** After a failed call with credentials, the next call, whenever it comes, misses and performs a fresh exchange. */
  lemma NoStaleTokenAfterFailure(c: Cached, now: int, receivedAt: int, env: Env, ex: Exchange,
                                 now': int, receivedAt': int, env': Env, ex': Exchange)
    requires HasCredentials(env)
    requires Lookup(c, now, receivedAt, env, ex).result.Failure?
    ensures var c' := Lookup(c, now, receivedAt, env, ex).cache;
      && !IsHit(c', now')
      && Lookup(c', now', receivedAt', env', ex')
         == if HasCredentials(env') then Renew(ex', receivedAt') else Outcome(Initial, Failure(MissingEnv))
  {
  }

  /** A second call before the stored expiry minus the margin returns the same token without an exchange. */
  lemma SecondCallReuses(c: Cached, now: int, receivedAt: int, env: Env, ex: Exchange,
                         now': int, receivedAt': int, env': Env, ex': Exchange)
    requires Lookup(c, now, receivedAt, env, ex).result.Success?
    requires now' < Lookup(c, now, receivedAt, env, ex).cache.expiresAt - SafetyMarginMs
    ensures var o := Lookup(c, now, receivedAt, env, ex);
      Lookup(o.cache, now', receivedAt', env', ex') == o
  {
  }

  /** The cache never holds an empty token: a call preserves "absent or non-empty". */
  lemma CachedTokenNeverEmpty(c: Cached, now: int, receivedAt: int, env: Env, ex: Exchange)
    requires c.value.Some? ==> c.value.value != ""
    ensures var c' := Lookup(c, now, receivedAt, env, ex).cache;
      c'.value.Some? ==> c'.value.value != ""
  {
  }
}
