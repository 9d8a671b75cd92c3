/**
 * The playlist route of routes/spotify.js: the weather description is mapped to
 * a mood keyword, that keyword is searched, an empty result is retried once
 * with "relax", and one playlist of the results is chosen and projected.
 * The searches themselves are inputs: what each reply carried.
 */
module SpotifyRoute {
  import opened Wrappers
  import opened JsText
  import opened TokenEndpoint
  import AppToken

  /** The generic fallback keyword, and the term of the one fallback search. */
  const Relax: string := "relax"

  /** The seven keywords a description can map to. */
  const Keywords: set<string> :=
    {"feel-good summer", "lofi chill", "rainy day", "cozy winter", "dark ambient", "ambient calm", Relax}

  /** `moodFromWeather(desc)`: lower-case, then the first term found decides. */
  function MoodFromWeather(desc: string): (keyword: string)
    ensures keyword in Keywords
  {
    var d := Lower(desc);
    if Includes(d, "clear") then "feel-good summer"
    else if Includes(d, "cloud") then "lofi chill"
    else if Includes(d, "rain") then "rainy day"
    else if Includes(d, "snow") then "cozy winter"
    else if Includes(d, "storm") then "dark ambient"
    else if Includes(d, "mist") || Includes(d, "fog") then "ambient calm"
    else Relax
  }

  /** `req.query.weather || ''`: the default only stands in for an absent parameter, since an empty one is already `''`. */
  function RawDescription(weather: Option<string>): (d: string)
    ensures weather.Some? ==> d == weather.value
    ensures weather.None? ==> d == ""
  {
    if Truthy(weather) then weather.value else ""
  }

  // The mood table, as an independent reference for the if-chain.

  /** A row of the table: any of `terms` selects `keyword`. */
  datatype Rule = Rule(terms: seq<string>, keyword: string)

  /** The rows in the order they are tested. */
  const Rules: seq<Rule> := [
    Rule(["clear"], "feel-good summer"),
    Rule(["cloud"], "lofi chill"),
    Rule(["rain"], "rainy day"),
    Rule(["snow"], "cozy winter"),
    Rule(["storm"], "dark ambient"),
    Rule(["mist", "fog"], "ambient calm")
  ]

  predicate Matches(r: Rule, d: string)
  {
    exists k :: 0 <= k < |r.terms| && Includes(d, r.terms[k])
  }

  /** The keyword of the first row that matches `d`, or the fallback. */
  function FirstMatch(rules: seq<Rule>, d: string): (keyword: string)
    ensures keyword == Relax || exists k :: 0 <= k < |rules| && keyword == rules[k].keyword
    decreases |rules|
  {
    if |rules| == 0 then Relax
    else if Matches(rules[0], d) then rules[0].keyword
    else FirstMatch(rules[1..], d)
  }

  /** No two rows share a keyword, and none is the fallback. */
  predicate DistinctKeywords(rules: seq<Rule>)
  {
    && (forall i :: 0 <= i < |rules| ==> rules[i].keyword != Relax)
    && (forall i, j :: 0 <= i < j < |rules| ==> rules[i].keyword != rules[j].keyword)
  }

  /** In any table with distinct keywords, row `i` decides exactly when it matches and no earlier row does. */
  lemma {:induction false} FirstMatchAt(rules: seq<Rule>, d: string, i: int)
    requires DistinctKeywords(rules) && 0 <= i < |rules|
    ensures FirstMatch(rules, d) == rules[i].keyword
        <==> Matches(rules[i], d) && forall j :: 0 <= j < i ==> !Matches(rules[j], d)
    decreases |rules|
  {
    if i > 0 && !Matches(rules[0], d) {
      var rest := rules[1..];
      assert DistinctKeywords(rest) by {
        forall a, b | 0 <= a < b < |rest| ensures rest[a].keyword != rest[b].keyword {
          assert rest[a] == rules[a + 1] && rest[b] == rules[b + 1];
        }
      }
      FirstMatchAt(rest, d, i - 1);
      assert forall j :: 0 < j <= i ==> rules[j] == rest[j - 1];
    } else if i == 0 && !Matches(rules[0], d) {
      var rest := rules[1..];
      assert forall k :: 0 <= k < |rest| ==> rest[k] == rules[k + 1];
    }
  }

  /** In any table without the fallback as a keyword, the fallback comes out exactly when no row matches. */
  lemma {:induction false} FirstMatchFallback(rules: seq<Rule>, d: string)
    requires forall i :: 0 <= i < |rules| ==> rules[i].keyword != Relax
    ensures FirstMatch(rules, d) == Relax <==> forall j :: 0 <= j < |rules| ==> !Matches(rules[j], d)
    decreases |rules|
  {
    if |rules| > 0 && !Matches(rules[0], d) {
      var rest := rules[1..];
      assert forall j :: 0 <= j < |rest| ==> rest[j] == rules[j + 1];
      FirstMatchFallback(rest, d);
      assert forall j :: 0 < j < |rules| ==> rules[j] == rest[j - 1];
    }
  }

  lemma RulesDistinct()
    ensures DistinctKeywords(Rules)
  {
  }

  lemma MatchesSingle(t: string, keyword: string, d: string)
    ensures Matches(Rule([t], keyword), d) <==> Includes(d, t)
  {
    if Includes(d, t) {
      assert [t][0] == t;
    }
  }

  lemma MatchesPair(t: string, u: string, keyword: string, d: string)
    ensures Matches(Rule([t, u], keyword), d) <==> Includes(d, t) || Includes(d, u)
  {
    if Includes(d, t) {
      assert [t, u][0] == t;
    }
    if Includes(d, u) {
      assert [t, u][1] == u;
    }
  }

  /** The if-chain is the table read top to bottom on the lower-cased description. */
  lemma MoodFollowsRules(desc: string)
    ensures MoodFromWeather(desc) == FirstMatch(Rules, Lower(desc))
  {
    var d := Lower(desc);
    MatchesSingle("clear", "feel-good summer", d);
    MatchesSingle("cloud", "lofi chill", d);
    MatchesSingle("rain", "rainy day", d);
    MatchesSingle("snow", "cozy winter", d);
    MatchesSingle("storm", "dark ambient", d);
    MatchesPair("mist", "fog", "ambient calm", d);
    assert Rules[1..][1..][1..][1..][1..][1..] == [];
  }

  /** First match wins: row `i`'s keyword comes out exactly when row `i` matches and no earlier row does. */
  lemma FirstMatchWins(desc: string, i: int)
    requires 0 <= i < |Rules|
    ensures MoodFromWeather(desc) == Rules[i].keyword
        <==> Matches(Rules[i], Lower(desc)) && forall j :: 0 <= j < i ==> !Matches(Rules[j], Lower(desc))
  {
    MoodFollowsRules(desc);
    RulesDistinct();
    FirstMatchAt(Rules, Lower(desc), i);
  }

  /** The result is "relax" exactly when no term of the table occurs in the lower-cased description. */
  lemma RelaxExactlyWhenNoMatch(desc: string)
    ensures MoodFromWeather(desc) == Relax <==> forall j :: 0 <= j < |Rules| ==> !Matches(Rules[j], Lower(desc))
  {
    MoodFollowsRules(desc);
    FirstMatchFallback(Rules, Lower(desc));
  }

  /** Only the lower-cased description matters. */
  lemma CaseInsensitive(desc: string, desc': string)
    requires Lower(desc) == Lower(desc')
    ensures MoodFromWeather(desc) == MoodFromWeather(desc')
  {
  }

  /** Lower-casing the input first changes nothing. */
  lemma MoodOfLowered(desc: string)
    ensures MoodFromWeather(Lower(desc)) == MoodFromWeather(desc)
  {
    LowerIdempotent(desc);
  }

  /** An absent or empty weather parameter maps to the fallback. */
  lemma AbsentWeatherIsRelax(weather: Option<string>)
    requires !Truthy(weather)
    ensures MoodFromWeather(RawDescription(weather)) == Relax
  {
  }

  /** Rain outranks storm: a description with "rain" and without "clear" or "cloud" is a rainy day, storm or not. */
  lemma RainOutranksStorm(desc: string)
    requires Includes(Lower(desc), "rain") && !Includes(Lower(desc), "clear") && !Includes(Lower(desc), "cloud")
    ensures MoodFromWeather(desc) == "rainy day"
  {
  }

  // Search replies and the selection of one playlist.

  /** `external_urls` of a playlist: absent, or present with an optional `spotify` link. */
  datatype Link = NoExternalUrls | ExternalUrls(spotify: Option<string>)

  /** The fields of a search result the route reads; `tracksTotal` is `None` when `tracks` or `tracks.total` is absent. */
  datatype Playlist = Playlist(name: string, description: string, externalUrls: Link, tracksTotal: Option<int>)

  /** An entry of `playlists.items`, which may be JSON `null`. */
  datatype Item = Null | Entry(playlist: Playlist)

  /** What one search produced: `Reply` when the body was parsed (`items` is `None` when `playlists` or `playlists.items` is absent), `Unreadable` when something threw. */
  datatype SearchReply = Reply(ok: bool, items: Option<seq<Item>>) | Unreadable

  /** The JSON the route answers with on success; `url` is `None` when the link is absent and the field is dropped. */
  datatype Summary = Summary(name: string, url: Option<string>, description: string)

  datatype Response =
    | Found(summary: Summary)
    | NoMatch
    | ServerError
  {
    function Status(): nat
    {
      match this
      case Found(_) => 200
      case NoMatch => 404
      case ServerError => 500
    }

    function ErrorText(): Option<string>
    {
      match this
      case Found(_) => None
      case NoMatch => Some("No matching playlist")
      case ServerError => Some("Failed to fetch playlist")
    }
  }

  /** `data.playlists?.items ?? []` */
  function ItemsOf(reply: SearchReply): seq<Item>
    requires reply.Reply?
  {
    if reply.items.Some? then reply.items.value else []
  }

  /** `p.tracks?.total` is truthy. */
  predicate HasTracks(it: Item)
  {
    it.Entry? && it.playlist.tracksTotal.Some? && it.playlist.tracksTotal.value != 0
  }

  /** The first search is usable only if it was ok and its body was read. */
  predicate FirstUsable(first: SearchReply)
  {
    first.Reply? && first.ok
  }

  /** The condition for the one fallback search. */
  predicate NeedsFallback(keyword: string, first: SearchReply)
  {
    FirstUsable(first) && |ItemsOf(first)| == 0 && keyword != Relax
  }

  /** The terms searched, in order. */
  function Searches(keyword: string, first: SearchReply): seq<string>
  {
    [keyword] + if NeedsFallback(keyword, first) then [Relax] else []
  }

  /** The item list the choice is made from, or `None` when the route has already failed with 500. */
  function Candidates(keyword: string, first: SearchReply, fallback: SearchReply): Option<seq<Item>>
  {
    if !FirstUsable(first) then None
    else if !NeedsFallback(keyword, first) then Some(ItemsOf(first))
    else if !fallback.Reply? then None
    else Some(ItemsOf(first) + ItemsOf(fallback))
  }

  /** The outcome of `items.find(p => p.tracks?.total)`: an index, no match, or a throw on a `null` entry. */
  datatype Find = Hit(index: nat) | Miss | NullEntry

  function FindTracked(items: seq<Item>): (f: Find)
    ensures f.Hit? ==> && f.index < |items| && HasTracks(items[f.index])
                       && forall j :: 0 <= j < f.index ==> items[j].Entry? && !HasTracks(items[j])
    ensures f.Miss? ==> forall j :: 0 <= j < |items| ==> items[j].Entry? && !HasTracks(items[j])
    ensures f.NullEntry? ==> exists n :: && 0 <= n < |items| && items[n].Null?
                                         && forall j :: 0 <= j < n ==> items[j].Entry? && !HasTracks(items[j])
    decreases |items|
  {
    if |items| == 0 then Miss
    else if items[0].Null? then NullEntry
    else if HasTracks(items[0]) then Hit(0)
    else match FindTracked(items[1..])
      case Hit(i) => Hit(i + 1)
      case Miss => Miss
      case NullEntry => NullEntry
  }

  /** Projecting the chosen item to `{name, url, description}`; reading `external_urls.spotify` throws when `external_urls` is absent. */
  function Project(it: Item): Response
  {
    match it
    case Null => ServerError
    case Entry(p) =>
      if p.externalUrls.NoExternalUrls? then ServerError
      else Found(Summary(p.name, p.externalUrls.spotify, p.description))
  }

  /** The chosen item: the first with tracks, or else the first of all. */
  function Choose(items: seq<Item>): Response
    requires |items| > 0
  {
    match FindTracked(items)
    case Hit(i) => Project(items[i])
    case Miss => Project(items[0])
    case NullEntry => ServerError
  }

  /** The route's answer once a token is in hand. */
  function Respond(keyword: string, first: SearchReply, fallback: SearchReply): Response
  {
    match Candidates(keyword, first, fallback)
    case None => ServerError
    case Some(items) => if |items| == 0 then NoMatch else Choose(items)
  }

  /** The body of the `/playlist` handler after the token: search, fall back once, check for none, choose, project. */
  method SearchPlaylist(keyword: string, first: SearchReply, fallback: SearchReply)
    returns (resp: Response, searched: seq<string>)
    ensures resp == Respond(keyword, first, fallback)
    ensures searched == Searches(keyword, first)
  {
    searched := [keyword];
    if !first.Reply? || !first.ok {
      return ServerError, searched;
    }
    var items := ItemsOf(first);
    if |items| == 0 && keyword != Relax {
      searched := searched + [Relax];
      if !fallback.Reply? {
        return ServerError, searched;
      }
      items := items + ItemsOf(fallback);
    }
    if |items| == 0 {
      return NoMatch, searched;
    }
    var chosen := 0;
    var i := 0;
    while i < |items|
      invariant 0 <= i <= |items|
      invariant forall j :: 0 <= j < i ==> items[j].Entry? && !HasTracks(items[j])
    {
      if items[i].Null? {
        return ServerError, searched;
      }
      if HasTracks(items[i]) {
        chosen := i;
        break;
      }
      i := i + 1;
    }
    resp := Project(items[chosen]);
  }

  /** At most one fallback search: the keyword is always searched first, and "relax" follows exactly when the first search was usable but empty and the keyword was not already "relax". */
  lemma AtMostOneFallback(keyword: string, first: SearchReply)
    ensures var s := Searches(keyword, first);
      && 1 <= |s| <= 2 && s[0] == keyword
      && (|s| == 2 <==> FirstUsable(first) && |ItemsOf(first)| == 0 && keyword != Relax)
      && (|s| == 2 ==> s[1] == Relax)
  {
  }

  /** The fallback's items are appended to the (empty) first list; the fallback's own status is never checked. */
  lemma FallbackItemsAppended(keyword: string, first: SearchReply, ok: bool, items: Option<seq<Item>>)
    requires NeedsFallback(keyword, first)
    ensures Candidates(keyword, first, Reply(ok, items)) == Some(ItemsOf(first) + ItemsOf(Reply(ok, items)))
    ensures Respond(keyword, first, Reply(ok, items)) == Respond(keyword, first, Reply(!ok, items))
  {
  }

  /** When no fallback is needed, its reply has no influence on the answer. */
  lemma FallbackUnusedOtherwise(keyword: string, first: SearchReply, fallback: SearchReply, fallback': SearchReply)
    requires !NeedsFallback(keyword, first)
    ensures Respond(keyword, first, fallback) == Respond(keyword, first, fallback')
  {
  }

  /** A first search that is not ok, or that threw, is answered with 500, whatever else happens. */
  lemma FirstFailureIsServerError(keyword: string, first: SearchReply, fallback: SearchReply)
    requires !(first.Reply? && first.ok)
    ensures Respond(keyword, first, fallback) == ServerError
    ensures Searches(keyword, first) == [keyword]
  {
  }

  /** 404 exactly when the searches went through and left no item at all. */
  lemma NoMatchExactlyWhenEmpty(keyword: string, first: SearchReply, fallback: SearchReply)
    ensures Respond(keyword, first, fallback) == NoMatch
        <==> Candidates(keyword, first, fallback) == Some([])
  {
    var c := Candidates(keyword, first, fallback);
    if c.Some? && |c.value| > 0 {
      ChoiceIsMember(c.value);
    }
  }

  /** The chosen playlist is an entry of the list: the first with tracks if there is one, else the first of all. */
  lemma {:induction false} ChoiceIsMember(items: seq<Item>)
    requires |items| > 0
    ensures Choose(items) != NoMatch
    ensures Choose(items).Found? ==> exists i :: && 0 <= i < |items| && items[i].Entry?
                                                 && Choose(items) == Project(items[i])
                                                 && (forall j :: 0 <= j < i ==> !HasTracks(items[j]))
                                                 && (HasTracks(items[i]) || (i == 0 && forall j :: 0 <= j < |items| ==> !HasTracks(items[j])))
  {
    match FindTracked(items)
    case Hit(i) =>
    case Miss =>
    case NullEntry =>
  }

  /** Without null entries the choice never throws in the search: it is the first item with tracks, or the first item. */
  lemma ChoiceWithoutNulls(items: seq<Item>)
    requires |items| > 0
    requires forall j :: 0 <= j < |items| ==> items[j].Entry?
    ensures exists i :: && 0 <= i < |items| && Choose(items) == Project(items[i])
                        && (forall j :: 0 <= j < i ==> !HasTracks(items[j]))
                        && (HasTracks(items[i]) || (i == 0 && forall j :: 0 <= j < |items| ==> !HasTracks(items[j])))
  {
    match FindTracked(items)
    case Hit(i) =>
    case Miss =>
    case NullEntry =>
  }

  /** A successful answer carries the name, link and description of one of the candidates. */
  lemma FoundIsCandidate(keyword: string, first: SearchReply, fallback: SearchReply)
    requires Respond(keyword, first, fallback).Found?
    ensures var items := Candidates(keyword, first, fallback);
      && items.Some?
      && exists i :: && 0 <= i < |items.value| && items.value[i].Entry?
                     && var p := items.value[i].playlist;
                     && p.externalUrls.ExternalUrls?
                     && Respond(keyword, first, fallback).summary == Summary(p.name, p.externalUrls.spotify, p.description)
  {
    var items := Candidates(keyword, first, fallback).value;
    ChoiceIsMember(items);
  }

  /** An empty first search is rescued by the fallback: the choice is made among the fallback's items. */
  lemma FallbackRescues(keyword: string, first: SearchReply, ok: bool, alt: seq<Item>)
    requires NeedsFallback(keyword, first) && |alt| > 0
    ensures Respond(keyword, first, Reply(ok, Some(alt))) == Choose(alt)
  {
    assert ItemsOf(first) + alt == alt;
  }

  /** A concrete case: "light rain" maps to "rainy day". */
  lemma LightRainIsRainyDay()
    ensures MoodFromWeather("light rain") == "rainy day"
  {
    var d := "light rain";
    assert forall k :: 0 <= k < |d| ==> !IsUpper(d[k]) && d[k] != 'c';
    assert Lower(d) == d;
    IncludesFirstChar(d, "clear");
    IncludesFirstChar(d, "cloud");
    assert Includes(d, "rain") by {
      assert d[6..] == "rain";
      IncludesAt(d, "rain");
    }
  }

  /** A concrete case: of a zero-track and a five-track result, the second is chosen. */
  lemma TracksPreferredExample(ok: bool, items: Option<seq<Item>>)
    ensures var empty := Playlist("Rainy", "none yet", ExternalUrls(Some("u0")), Some(0));
      var full := Playlist("Rain Songs", "five songs", ExternalUrls(Some("u1")), Some(5));
      Respond("rainy day", Reply(true, Some([Entry(empty), Entry(full)])), Reply(ok, items))
        == Found(Summary("Rain Songs", Some("u1"), "five songs"))
  {
  }

  /** The whole `/playlist` handler: map the weather, get the app token from `cache`, then search and choose. */
  method HandlePlaylist(cache: AppToken.AppTokenCache, weather: Option<string>, now: int, receivedAt: int,
                        env: AppToken.Env, tokenExchange: Exchange, first: SearchReply, fallback: SearchReply)
    returns (resp: Response, searched: seq<string>)
    modifies cache
    ensures var o := AppToken.Lookup(old(cache.State()), now, receivedAt, env, tokenExchange);
      && cache.State() == o.cache
      && (o.result.Failure? ==> resp == ServerError && searched == [])
      && (o.result.Success? ==>
            var keyword := MoodFromWeather(RawDescription(weather));
            resp == Respond(keyword, first, fallback) && searched == Searches(keyword, first))
  {
    var keyword := MoodFromWeather(RawDescription(weather));
    var token := cache.GetAppToken(now, receivedAt, env, tokenExchange);
    if token.Failure? {
      return ServerError, [];
    }
    resp, searched := SearchPlaylist(keyword, first, fallback);
  }
}
