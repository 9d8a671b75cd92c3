/**
 * The older token cache of utils/spotifyAuth.js: a module-level record
 * `{access_token, expires_at}` that `getSpotifyToken` overwrites after every
 * successful exchange and `clearTokenCache` resets. The safety margin is taken
 * off when the expiry is stored, a failed exchange leaves the record alone, and
 * a response without `access_token` is stored as it is.
 */
module UtilsToken {
  import opened Wrappers
  import opened JsText
  import opened TokenEndpoint

  /** Seconds taken off `expires_in` when the expiry is stored. */
  const SafetyMarginSeconds: int := 60
  /** The prefix of every error thrown from inside the exchange. */
  const FailurePrefix: string := "Failed to authenticate with Spotify: "

  /** `expiresAt` is `None` for `null`. */
  datatype TokenCache = TokenCache(accessToken: Option<string>, expiresAt: Option<int>)

  /** `{ access_token: null, expires_at: null }`: the initial record and the one `clearTokenCache` installs. */
  const Cleared: TokenCache := TokenCache(None, None)

  /** `expires_at` in a numeric comparison: `null` compares as 0. */
  function ExpiryNumber(e: Option<int>): int
  {
    if e.Some? then e.value else 0
  }

  datatype AuthError =
    | MissingCredentials
    | Failed(reason: string)
  {
    function Message(): string
    {
      match this
      case MissingCredentials => "Spotify Client ID and Client Secret are required"
      case Failed(reason) => FailurePrefix + reason
    }
  }

  /** The message of the error thrown inside the `try` for a response that is not ok. */
  function RejectionReason(status: nat, statusText: string): string
  {
    "Spotify authentication failed: " + Decimal(status) + " " + statusText
  }

  /** The record after a call, and what the call returned (possibly an absent token) or threw. */
  datatype Outcome = Outcome(cache: TokenCache, result: Result<Option<string>, AuthError>)

  predicate IsHit(c: TokenCache, now: int)
  {
    Truthy(c.accessToken) && ExpiryNumber(c.expiresAt) > now
  }

  /** The `try` block: store on success, and on failure rethrow with the prefix and leave the record alone. */
  function Renew(c: TokenCache, ex: Exchange, receivedAt: int): Outcome
  {
    match ex
    case Granted(token, expiresIn) =>
      Outcome(TokenCache(token, Some(receivedAt + (expiresIn - SafetyMarginSeconds) * 1000)), Success(token))
    case NotOk(status, statusText, _) => Outcome(c, Failure(Failed(RejectionReason(status, statusText))))
    case Fault(message) => Outcome(c, Failure(Failed(message)))
  }

  /** One call of `getSpotifyToken(clientId, clientSecret)` on record `c`, the clock reading `now` and then `receivedAt`. */
  function Lookup(c: TokenCache, now: int, receivedAt: int, clientId: Option<string>, clientSecret: Option<string>,
                  ex: Exchange): Outcome
  {
    if IsHit(c, now) then Outcome(c, Success(c.accessToken))
    else if !Truthy(clientId) || !Truthy(clientSecret) then Outcome(c, Failure(MissingCredentials))
    else Renew(c, ex, receivedAt)
  }

  /** The record the source keeps in the module variable `tokenCache`. */
  class SpotifyTokenCache {
    var accessToken: Option<string>
    var expiresAt: Option<int>

    function State(): TokenCache
      reads this
    {
      TokenCache(accessToken, expiresAt)
    }

    constructor ()
      ensures State() == Cleared
    {
      accessToken, expiresAt := None, None;
    }

    /** `getSpotifyToken(clientId, clientSecret)`. */
    method GetSpotifyToken(now: int, receivedAt: int, clientId: Option<string>, clientSecret: Option<string>,
                           ex: Exchange) returns (r: Result<Option<string>, AuthError>)
      modifies this
      ensures Outcome(State(), r) == Lookup(old(State()), now, receivedAt, clientId, clientSecret, ex)
    {
      if Truthy(accessToken) && ExpiryNumber(expiresAt) > now {
        return Success(accessToken);
      }
      if !Truthy(clientId) || !Truthy(clientSecret) {
        return Failure(MissingCredentials);
      }
      match ex {
        case NotOk(status, statusText, _) =>
          r := Failure(Failed(RejectionReason(status, statusText)));
        case Fault(message) =>
          r := Failure(Failed(message));
        case Granted(token, expiresIn) =>
          accessToken, expiresAt := token, Some(receivedAt + (expiresIn - SafetyMarginSeconds) * 1000);
          r := Success(token);
      }
    }

    /** `clearTokenCache()`. */
    method ClearTokenCache()
      modifies this
      ensures State() == Cleared
    {
      accessToken, expiresAt := None, None;
    }
  }

  /** A hit returns the cached token before the credentials are looked at: missing credentials do not matter. */
  lemma HitIgnoresCredentials(c: TokenCache, now: int, receivedAt: int, clientId: Option<string>,
                              clientSecret: Option<string>, ex: Exchange)
    requires IsHit(c, now)
    ensures Lookup(c, now, receivedAt, clientId, clientSecret, ex) == Outcome(c, Success(c.accessToken))
  {
  }

  /** A hit needs a non-empty token and a stored expiry strictly after `now`. */
  lemma HitCondition(c: TokenCache, now: int)
    requires now >= 0
    ensures IsHit(c, now) <==> c.accessToken.Some? && c.accessToken.value != "" && c.expiresAt.Some? && c.expiresAt.value > now
  {
  }

  /** A successful exchange stores the expiry with the margin already taken off, and returns the token as received. */
  lemma GrantStoresWithMargin(c: TokenCache, now: int, receivedAt: int, id: string, secret: string,
                              token: Option<string>, expiresIn: int)
    requires !IsHit(c, now) && id != "" && secret != ""
    ensures Lookup(c, now, receivedAt, Some(id), Some(secret), Granted(token, expiresIn))
         == Outcome(TokenCache(token, Some(receivedAt + expiresIn * 1000 - SafetyMarginSeconds * 1000)), Success(token))
  {
  }

  /** A failed exchange throws an error whose message starts with the prefix, and the record is untouched. */
  lemma FailureKeepsCache(c: TokenCache, now: int, receivedAt: int, id: string, secret: string, ex: Exchange)
    requires !IsHit(c, now) && id != "" && secret != "" && !ex.Granted?
    ensures var o := Lookup(c, now, receivedAt, Some(id), Some(secret), ex);
      && o.cache == c
      && o.result.Failure?
      && FailurePrefix <= o.result.error.Message()
      && o.result.error.Message() == FailurePrefix + (if ex.NotOk? then RejectionReason(ex.status, ex.statusText) else ex.message)
  {
  }

  /** Missing credentials on a miss throw the plain credential message, outside the `try`, and leave the record untouched. */
  lemma MissingCredentialsKeepCache(c: TokenCache, now: int, receivedAt: int, clientId: Option<string>,
                                    clientSecret: Option<string>, ex: Exchange)
    requires !IsHit(c, now) && (!Truthy(clientId) || !Truthy(clientSecret))
    ensures var o := Lookup(c, now, receivedAt, clientId, clientSecret, ex);
      && o.cache == c && o.result == Failure(MissingCredentials)
      && o.result.error.Message() == "Spotify Client ID and Client Secret are required"
  {
  }

  /** A response without a usable token is stored and returned, but the stored record can never be a hit. */
  lemma AbsentTokenStoredButNeverHit(c: TokenCache, now: int, receivedAt: int, id: string, secret: string,
                                     token: Option<string>, expiresIn: int, later: int)
    requires !IsHit(c, now) && id != "" && secret != "" && !Truthy(token)
    ensures var o := Lookup(c, now, receivedAt, Some(id), Some(secret), Granted(token, expiresIn));
      o.result == Success(token) && o.cache.accessToken == token && !IsHit(o.cache, later)
  {
  }

  /** After `clearTokenCache`, the next call misses and goes to the credential check and the exchange. */
  lemma ClearedMisses(now: int, receivedAt: int, clientId: Option<string>, clientSecret: Option<string>, ex: Exchange)
    ensures !IsHit(Cleared, now)
    ensures Lookup(Cleared, now, receivedAt, clientId, clientSecret, ex)
         == if Truthy(clientId) && Truthy(clientSecret) then Renew(Cleared, ex, receivedAt)
            else Outcome(Cleared, Failure(MissingCredentials))
  {
  }

  /** A token that has stopped being a hit stays a miss as the clock moves on, even though a failed renewal keeps it. */
  lemma ExpiredStaysExpired(c: TokenCache, now: int, later: int)
    requires !IsHit(c, now) && now <= later
    ensures !IsHit(c, later)
  {
  }
}
