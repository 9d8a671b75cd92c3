# Weather-to-playlist backend: token caches and playlist selection

This project models, in Dafny, the logic at the core of a small backend that
turns a weather description into a mood-matched Spotify playlist:

- **The app-only token cache** (`spotifyAuth.js`, module `AppToken`). A record
  `{value, expiresAt}` is kept in process memory. `getAppToken` returns the
  cached token while `now < expiresAt - 60000`. Otherwise it checks the two
  client credentials and performs the client-credentials grant (section 4.4 of
  RFC 6749, with Basic authentication per section 2 of RFC 7617). It stores
  `receivedAt + expires_in*1000` and, on any failure inside the exchange,
  resets the record to `{null, 0}`. The record is the class
  `AppToken.AppTokenCache`; its method `GetAppToken` is proved equal to the
  specification function `AppToken.Lookup`, and the lemmas state what
  `Lookup` promises.
- **The older token cache** (`utils/spotifyAuth.js`, module `UtilsToken`). It
  takes the 60-second margin off at store time
  (`expires_at = receivedAt + (expires_in - 60)*1000`), tests
  `expires_at > now`, leaves the record alone when an exchange fails, and
  stores a missing `access_token` as it is. `clearTokenCache` resets both
  fields to `null`. The class is `UtilsToken.SpotifyTokenCache`, with the
  specification function `UtilsToken.Lookup`.
- **The comparison of the two caches** (module `TokenCompare`). For the same
  clock reading and `expires_in`, both reuse a token exactly until
  `receivedAt + expires_in*1000 - 60000`. They differ after a failed exchange
  (clear versus keep) and after a response without a token (throw versus
  store).
- **The playlist route** (`routes/spotify.js`, module `SpotifyRoute`):
  - `moodFromWeather` is a keyword classifier over the lower-cased
    description. It is proved equal to a first-match reading of an explicit
    rule table, so the priority and fallback lemmas follow from the table.
  - The `/playlist` handler searches the keyword. If the first search was ok
    but empty, and the keyword is not `relax`, it searches `relax` once and
    appends those items. It answers 404 on an empty list. Otherwise it picks
    the first item with a truthy `tracks.total`, or else the first item, and
    projects it to `{name, url, description}`.
  - `SearchPlaylist` is the imperative body (a sequence that grows by the
    fallback's items, and a `find` loop). It is proved equal to the
    specification function `Respond`.
  - `HandlePlaylist` composes the mood mapping, the token cache and
    `SearchPlaylist`.

Each HTTP exchange is an input value:
- `TokenEndpoint.Exchange` is the outcome of the POST to the token endpoint:
  granted, not ok, or a thrown error.
- `SpotifyRoute.SearchReply` is what a search returned.

The two readings of the clock in one call (the hit check, and the store after
the response) are the parameters `now` and `receivedAt`. The credentials are
parameters too.

Modelled edge cases that follow from JavaScript semantics:
- An empty string is falsy both as a credential and as a token.
- A `null` `expires_at` compares as 0.
- Reading `p.tracks` on a `null` search item throws, so the route answers 500.
  The `find` stops at the first entry that has tracks, so a `null` after that
  entry is harmless.
- A chosen playlist without `external_urls` makes `pl.external_urls.spotify`
  throw, so the route answers 500. A missing `spotify` link is only omitted
  from the JSON.
- The fallback search's HTTP status is never checked. Only a throw makes it
  fail: a rejected `fetch`, or a body that cannot be read or parsed.

Further facts about the source that shape the model:
- `moodFromWeather` returns one keyword. Its six rows are clear, cloud, rain,
  snow, storm and mist/fog, with `relax` as the default.
- The route makes one search for that keyword, plus at most one fallback
  search for `relax`, and none when the keyword already is `relax`.
- Neither cache coalesces concurrent renewals.
- Only the newer cache clears itself on failure.
- Errors are plain `Error`s with messages. The route turns every failure into
  500, and an empty result into 404 `No matching playlist`.

## Model

| member | source | states |
|---|---|---|
| `JsText.LowerChar` | routes/spotify.js:10 | lower-casing changes the ASCII capitals into small letters (code point + 32), leaves every other character alone, and never yields a capital |
| `JsText.Lower` | routes/spotify.js:10 | lower-casing from the front keeps the length, and the character at each position is the lower-cased character of the input at that position |
| `JsText.LowerIdempotent` | routes/spotify.js:10 | lower-casing an already lower-cased string changes nothing |
| `JsText.IncludesAt` | routes/spotify.js:12-18 | the recursive `includes` holds exactly when the term is a prefix of some suffix of the text |
| `JsText.IncludesFirstChar` | routes/spotify.js:12-18 | a term can occur only if its first character occurs in the text |
| `JsText.Prefix` | spotifyAuth.js:52 | `slice(0, n)` is a prefix of the body, of length min(n, body length) |
| `JsText.Decimal` | spotifyAuth.js:52 | the status rendered in the message is a non-empty string of decimal digits without a leading zero |
| `JsText.DecimalRoundTrip` | spotifyAuth.js:52 | reading back the rendered status gives the status |
| `AppToken.AppTokenCache.constructor` | spotifyAuth.js:6-9 | the record starts as `{value: null, expiresAt: 0}` |
| `AppToken.AppTokenCache.GetAppToken` | spotifyAuth.js:11-78 | the new record and the returned token or thrown error are exactly those of `Lookup` on the old record |
| `AppToken.HitReturnsCached` | spotifyAuth.js:13-16 | with a non-empty token and `now < expiresAt - 60000`, the cached token is returned and the record is unchanged, whatever the credentials and the exchange would be |
| `AppToken.FirstCallExchanges` | spotifyAuth.js:6-13 | the initial record is never a hit, so the first call goes to the credential check and then to the exchange |
| `AppToken.MissingCredentialsKeepCache` | spotifyAuth.js:18-29 | a miss with a missing or empty id or secret throws the missing-env error and leaves the record unchanged |
| `AppToken.MissRenews` | spotifyAuth.js:13-43 | a miss with both credentials always performs the exchange, and its outcome does not depend on what the old record held |
| `AppToken.GrantStoresToken` | spotifyAuth.js:55-68 | a granted non-empty token is stored as `{token, receivedAt + expires_in*1000}` and exactly that token is returned |
| `AppToken.RejectionMessage` | spotifyAuth.js:45-53 | a non-ok response clears the record and throws `Spotify auth <status>: <detail>`, where the detail is a prefix of the body of at most 200 characters, and is the whole body when that fits |
| `AppToken.ExchangeFailureClears` | spotifyAuth.js:45-76 | once the exchange is attempted, the call fails exactly when the record is reset to `{null, 0}`, and succeeds exactly on a granted non-empty token |
| `AppToken.NoStaleTokenAfterFailure` | spotifyAuth.js:70-76 | after a failed call with credentials, the next call, whenever it comes and whatever its exchange, misses and performs a fresh exchange (or throws the missing-env error) |
| `AppToken.SecondCallReuses` | spotifyAuth.js:13-16 | after a successful call, a second call before the stored expiry minus 60 s returns the same token with the record unchanged |
| `AppToken.CachedTokenNeverEmpty` | spotifyAuth.js:57-65 | a call never leaves an empty token in the record |
| `UtilsToken.SpotifyTokenCache.constructor` | utils/spotifyAuth.js:4-7 | the record starts as `{access_token: null, expires_at: null}` |
| `UtilsToken.SpotifyTokenCache.GetSpotifyToken` | utils/spotifyAuth.js:15-62 | the new record and the returned (possibly absent) token or thrown error are exactly those of `Lookup` on the old record |
| `UtilsToken.SpotifyTokenCache.ClearTokenCache` | utils/spotifyAuth.js:67-72 | both fields become `null` |
| `UtilsToken.HitIgnoresCredentials` | utils/spotifyAuth.js:17-24 | a non-empty token with `expires_at > now` is returned unchanged even when the id and secret are missing, because the cache check comes first |
| `UtilsToken.HitCondition` | utils/spotifyAuth.js:17 | for a non-negative clock, a hit is exactly a non-empty token together with a stored expiry strictly after `now` |
| `UtilsToken.GrantStoresWithMargin` | utils/spotifyAuth.js:46-56 | a successful exchange stores `expires_at = receivedAt + expires_in*1000 - 60000` and returns the token as received |
| `UtilsToken.FailureKeepsCache` | utils/spotifyAuth.js:40-61 | a failed exchange leaves the record unchanged and throws `Failed to authenticate with Spotify: ` followed by the inner message, which for a non-ok response names the status and status text |
| `UtilsToken.MissingCredentialsKeepCache` | utils/spotifyAuth.js:22-24 | a miss with a missing or empty credential throws the plain credential message, and the record is unchanged |
| `UtilsToken.AbsentTokenStoredButNeverHit` | utils/spotifyAuth.js:49-52 | a response without a usable token is stored and returned as it is, and the stored record is never a hit at any later time |
| `UtilsToken.ClearedMisses` | utils/spotifyAuth.js:67-72 | the cleared record is never a hit, so the next call checks the credentials and exchanges |
| `UtilsToken.ExpiredStaysExpired` | utils/spotifyAuth.js:17 | a record that is not a hit stays not a hit as the clock moves forward, so the stale token kept after a failed renewal is never served |
| `TokenCompare.HitWindowsAgree` | utils/spotifyAuth.js:49-52 | for the same grant, both caches return the token, and each reuses it exactly while `later < receivedAt + expires_in*1000 - 60000` (the newer cache's store is at spotifyAuth.js:62-65) |
| `TokenCompare.FailuresDiffer` | spotifyAuth.js:70-76 | on a rejected or failed exchange both throw, the newer cache is reset to `{null, 0}`, and the older one is left exactly as it was (utils/spotifyAuth.js:58-61) |
| `TokenCompare.MissingTokenDiffers` | spotifyAuth.js:57-60 | for a granted response without a usable token, the newer cache throws and resets, while the older one returns and stores it (utils/spotifyAuth.js:49-56); neither then has a hit |
| `TokenCompare.BothServeHitsWithoutCredentials` | spotifyAuth.js:13-29 | both caches serve a valid cached token even when no credentials are configured |
| `SpotifyRoute.MoodFromWeather` | routes/spotify.js:9-21 | the keyword is always one of the seven: feel-good summer, lofi chill, rainy day, cozy winter, dark ambient, ambient calm, relax |
| `SpotifyRoute.RawDescription` | routes/spotify.js:26 | the `|| ''` default only replaces an absent parameter: a present parameter, even an empty one, is the description unchanged, and only an absent one becomes the empty description |
| `SpotifyRoute.MoodFollowsRules` | routes/spotify.js:9-21 | the if-chain equals the first matching row of the table clear, cloud, rain, snow, storm, mist/fog, applied to the lower-cased text, with relax as the default |
| `SpotifyRoute.FirstMatchWins` | routes/spotify.js:12-18 | row i's keyword is the result exactly when row i matches and no earlier row does |
| `SpotifyRoute.RelaxExactlyWhenNoMatch` | routes/spotify.js:9-20 | the result is relax exactly when no term occurs in the lower-cased description |
| `SpotifyRoute.CaseInsensitive` | routes/spotify.js:10 | descriptions that agree after lower-casing map to the same keyword |
| `SpotifyRoute.MoodOfLowered` | routes/spotify.js:10 | mapping the lower-cased description gives the same keyword as mapping the description |
| `SpotifyRoute.AbsentWeatherIsRelax` | routes/spotify.js:26-27 | an absent or empty weather parameter maps to relax |
| `SpotifyRoute.RainOutranksStorm` | routes/spotify.js:14-16 | a description containing rain but not clear or cloud is a rainy day, whether or not it also contains storm |
| `SpotifyRoute.LightRainIsRainyDay` | routes/spotify.js:10-14 | "light rain" maps to rainy day |
| `SpotifyRoute.FindTracked` | routes/spotify.js:54 | `find` returns the first item with tracks when every earlier item is a non-null entry without tracks; it reports no match when all items are such entries; and it throws when a null entry comes first |
| `SpotifyRoute.SearchPlaylist` | routes/spotify.js:33-60 | the imperative search, fallback, empty check and `find` loop give exactly `Respond`'s answer and `Searches`' list of searched terms |
| `SpotifyRoute.HandlePlaylist` | routes/spotify.js:24-65 | the token record moves as `getAppToken` does; a token failure answers 500 before any search, and otherwise the answer is `Respond` for the mood of the description |
| `SpotifyRoute.AtMostOneFallback` | routes/spotify.js:41-48 | the keyword is searched first, and a second search, for relax, happens exactly when the first was usable but empty and the keyword was not relax |
| `SpotifyRoute.FallbackItemsAppended` | routes/spotify.js:41-48 | when the fallback runs, its items are appended to the first list, and its ok status does not change the answer |
| `SpotifyRoute.FallbackUnusedOtherwise` | routes/spotify.js:42 | when no fallback is needed, the fallback reply has no influence on the answer |
| `SpotifyRoute.FirstFailureIsServerError` | routes/spotify.js:61-64 | a first search that is not ok (line 36), or that threw, gives 500 and no fallback search |
| `SpotifyRoute.NoMatchExactlyWhenEmpty` | routes/spotify.js:50-51 | the answer is 404 exactly when the searches succeeded and left an empty list |
| `SpotifyRoute.ChoiceIsMember` | routes/spotify.js:53-54 | the choice is never 404; a successful choice is an entry of the list, preceded only by items without tracks, and is either the first item with tracks or, when there is none, the first item |
| `SpotifyRoute.ChoiceWithoutNulls` | routes/spotify.js:54 | when the list has no null entries, the choice is the projection of the first item with tracks, or of the first item when none has tracks |
| `SpotifyRoute.FoundIsCandidate` | routes/spotify.js:54-60 | a 200 answer carries the name, `external_urls.spotify` link and description of one of the candidate items |
| `SpotifyRoute.FallbackRescues` | routes/spotify.js:41-54 | after an empty first search for a keyword other than relax, the choice is made among the fallback's items |
| `SpotifyRoute.TracksPreferredExample` | routes/spotify.js:53-54 | of a zero-track result followed by a five-track result, the second is chosen |

## Left out

- HTTP calls (`fetch` to the token endpoint and to the search API) are not modelled. Their outcomes are inputs. How the requests are built is not modelled either: the URLs, headers, form body, `encodeURIComponent`, the Bearer header, and the Basic credential built with `Buffer.from(...).toString('base64')`. The search replies do not depend on the token.
- `Date.now()` is not read by the model. Its two readings per call are the parameters `now` and `receivedAt`.
- `process.env` lookups and `dotenv` are not modelled. The credentials are parameters.
- JSON parsing is not modelled. `expires_in` is taken to be an integer, so a missing, fractional or non-numeric value (NaN arithmetic) is not covered. `access_token` is taken to be a string or absent. A playlist's `name` and `description` are taken to be strings, so an absent or `null` name or description (which `res.json` would drop or write as `null`) is not modelled. A `playlists.items` that is not an array, and JSON `null` as a whole body, are not modelled; such bodies count as unreadable.
- JavaScript numbers are treated as unbounded integers. Millisecond timestamps stay far below 2^53, where doubles are still exact.
- `JsText.LowerChar`: lower-cases ASCII letters only and leaves every other character as it is; `JsText.Lower` inherits this.
- `JsText.Lower`: lower-cases ASCII letters only. Full Unicode `toLowerCase` is not modelled. The only other characters whose lower-case form contains an ASCII letter are U+0130 (giving `i` and a combining dot) and U+212A (giving `k`). Neither can complete one of the seven terms, so keyword selection is unaffected.
- A `weather` query parameter given more than once arrives as an array, and `toLowerCase` then throws: not modelled. The parameter is modelled as an optional string.
- Console output is not modelled. The text of the first search's internal error (`Spotify <status>`) only reaches the log, so only the 500 answer is modelled.
- Express plumbing (`router.get`, `res.status().json()`, route registration) is not modelled. Answers are the `Response` datatype, with their status code and error text.
- Async interleaving and concurrent renewals are not modelled. Each call is one atomic step, and neither cache has single-flight or locking to model.
- `JsText.Prefix`: counts its limit in Unicode characters, while `slice(0, n)` counts UTF-16 code units, so for a body with characters outside the Basic Multilingual Plane the model keeps up to twice as many code units.
- `AppToken.RejectionMessage`: its bound of at most 200 on the detail counts Unicode characters, not the UTF-16 code units `errorText.slice(0, 200)` counts (spotifyAuth.js:52), so a body with characters outside the Basic Multilingual Plane may keep up to 400 code units in the model where the source keeps 200.
- `UtilsToken.HitCondition`: stated only for a non-negative clock. For a negative clock, a `null` expiry (compared as 0) would pass the test, and real clock readings are never negative.
- routes/weather.js is not part of this model. It is a thin wrapper over the weather provider, and its temperature rounding is floating point.
- index.js is not part of this model. It registers routes, does a presence check on `lat`/`lon` and starts the server.
