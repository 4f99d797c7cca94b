/** The Spotify API proxy of server/routes.ts (`/me`, `/player`, `/play`, `/pause`,
    `/next`, `/previous`, `/playlists`). Every route follows one template: get a token or
    answer 401; call the provider; on the provider's 401 refresh and redirect the client
    back to the same route, or answer 401 if the refresh failed; any other failure is a
    500. `/player` also maps 204 to "not playing" and records what is playing. */
module SpotifyProxy {
  import opened Schema
  import opened TokenTable
  import opened Http
  import opened Storage
  import opened History

  datatype Route = Me | Player | Play | Pause | Next | Previous | Playlists

  /** The four POST routes, which redirect with 307 so that the browser repeats the POST. */
  predicate IsCommand(r: Route) {
    r.Play? || r.Pause? || r.Next? || r.Previous?
  }

  function PathOf(r: Route): string {
    match r
    case Me => "/api/spotify/me"
    case Player => "/api/spotify/player"
    case Play => "/api/spotify/play"
    case Pause => "/api/spotify/pause"
    case Next => "/api/spotify/next"
    case Previous => "/api/spotify/previous"
    case Playlists => "/api/spotify/playlists"
  }

  /** `req.body` of the POST routes: `{ uri, deviceId }`. */
  datatype CommandBody = CommandBody(uri: Option<string>, deviceId: Option<string>)

  /** The `?device_id=` suffix, present exactly when a device was named. */
  function DeviceQuery(deviceId: Option<string>): (q: string)
    ensures q == "" <==> !Truthy(deviceId)
    ensures Truthy(deviceId) ==> q == "?device_id=" + deviceId.value
  {
    if Truthy(deviceId) then "?device_id=" + deviceId.value else ""
  }

  /** The provider request a route sends with `bearer`. */
  function UpstreamCall(r: Route, body: CommandBody, bearer: string): (c: ProviderCall)
    // a playback API request carrying the token
    ensures c.Api? && c.bearer == bearer
    ensures |c.url| >= 29 && c.url[..29] == "https://api.spotify.com/v1/me"
    // the read routes ask for a fixed resource ...
    ensures r == Me ==> c.url == "https://api.spotify.com/v1/me"
    ensures r == Player ==> c.url == "https://api.spotify.com/v1/me/player"
    ensures r == Playlists ==> c.url == "https://api.spotify.com/v1/me/playlists?limit=50"
    // ... and the commands name the device when one was sent
    ensures r == Play ==> c.url == "https://api.spotify.com/v1/me/player/play" + DeviceQuery(body.deviceId)
    ensures r == Pause ==> c.url == "https://api.spotify.com/v1/me/player/pause" + DeviceQuery(body.deviceId)
    ensures r == Next ==> c.url == "https://api.spotify.com/v1/me/player/next" + DeviceQuery(body.deviceId)
    ensures r == Previous ==> c.url == "https://api.spotify.com/v1/me/player/previous" + DeviceQuery(body.deviceId)
    // reads are GETs; play and pause are PUTs; next and previous are POSTs
    ensures c.verb == (if r == Play || r == Pause then Put else if r == Next || r == Previous then Post else Get)
    // only `/play` forwards a track, and only a truthy one
    ensures c.trackUri.Some? <==> r == Play && Truthy(body.uri)
    ensures c.trackUri.Some? ==> c.trackUri == body.uri
  {
    match r
    case Me => Api(Get, "https://api.spotify.com/v1/me", bearer, None)
    case Player => Api(Get, "https://api.spotify.com/v1/me/player", bearer, None)
    case Playlists => Api(Get, "https://api.spotify.com/v1/me/playlists?limit=50", bearer, None)
    case Play => Api(Put, "https://api.spotify.com/v1/me/player/play" + DeviceQuery(body.deviceId), bearer,
                     if Truthy(body.uri) then body.uri else None)
    case Pause => Api(Put, "https://api.spotify.com/v1/me/player/pause" + DeviceQuery(body.deviceId), bearer, None)
    case Next => Api(Post, "https://api.spotify.com/v1/me/player/next" + DeviceQuery(body.deviceId), bearer, None)
    case Previous => Api(Post, "https://api.spotify.com/v1/me/player/previous" + DeviceQuery(body.deviceId), bearer, None)
  }

  /** `res.redirect(path)` (302) for the GET routes, `res.redirect(307, path)` for the POST routes. */
  function RetryRedirect(r: Route): (rr: Reply)
    ensures rr.Redirect? && rr.location == PathOf(r)
    ensures rr.code == 307 <==> IsCommand(r)
    ensures rr.code == 302 <==> !IsCommand(r)
  {
    Redirect(PathOf(r), if IsCommand(r) then 307 else 302)
  }

  /** GET routes pass the provider's JSON through; POST routes answer `{ success: true }`. */
  function SuccessReply(r: Route): (rep: Reply)
    ensures rep.Json? && rep.status == 200
    ensures rep.body == Succeeded <==> IsCommand(r)
    ensures rep.body == Forwarded <==> !IsCommand(r)
  {
    Json(200, if IsCommand(r) then Succeeded else Forwarded)
  }

  datatype ProxyStep = ProxyStep(reply: Reply, rows: seq<TokenRecord>, calls: seq<ProviderCall>)

  /** One invocation of route `r` by user `u` at `now`. `tokenResp` answers the refresh
      `getSpotifyToken` may send, `upstream` is the provider's status for the route's own
      request, `retryResp` answers the refresh after a provider 401. */
  function Proxy(rows: seq<TokenRecord>, u: UserId, r: Route, body: CommandBody, now: Time,
                 tokenResp: RefreshResponse, upstream: int, retryResp: RefreshResponse): (s: ProxyStep)
    // no usable token: 401, and no request to the playback API
    ensures var t := GetToken(rows, u, now, tokenResp);
            !Truthy(t.token) ==> s == ProxyStep(NotConnected, t.rows, t.calls)
    // with a token, the rest is the template's answer to the provider's status
    ensures var t := GetToken(rows, u, now, tokenResp);
            Truthy(t.token) ==> s == Answer(t.rows, t.calls, t.token.value, u, r, body, now, upstream, retryResp)
    // so exactly one playback request, sent with the token just obtained, then only refreshes
    ensures var t := GetToken(rows, u, now, tokenResp);
            Truthy(t.token) ==>
              |s.calls| > |t.calls| && s.calls[..|t.calls|] == t.calls &&
              s.calls[|t.calls|] == UpstreamCall(r, body, t.token.value) &&
              forall i :: |t.calls| < i < |s.calls| ==> s.calls[i].RefreshGrant?
    ensures forall v :: v != u ==> Find(s.rows, v) == Find(rows, v)
    ensures OnePerUser(rows) ==> OnePerUser(s.rows)
  {
    var t := GetToken(rows, u, now, tokenResp);
    if !Truthy(t.token) then ProxyStep(NotConnected, t.rows, t.calls)
    else Answer(t.rows, t.calls, t.token.value, u, r, body, now, upstream, retryResp)
  }

  /** The template after a token was obtained: the playback request and its outcome. */
  function Answer(rows: seq<TokenRecord>, calls: seq<ProviderCall>, bearer: string, u: UserId, r: Route,
                  body: CommandBody, now: Time, upstream: int, retryResp: RefreshResponse): (s: ProxyStep)
    ensures |s.calls| > |calls| && s.calls[..|calls|] == calls && s.calls[|calls|] == UpstreamCall(r, body, bearer)
    ensures forall i :: |calls| < i < |s.calls| ==> s.calls[i].RefreshGrant?
    // a 401 adds exactly the refresh's requests and leaves the rows it leaves
    ensures upstream == 401 ==>
              s.rows == Refresh(rows, u, now, retryResp).rows &&
              s.calls == calls + [UpstreamCall(r, body, bearer)] + Refresh(rows, u, now, retryResp).calls
    // any other answer adds no request and writes nothing
    ensures upstream != 401 ==> s.rows == rows && s.calls == calls + [UpstreamCall(r, body, bearer)]
    ensures forall v :: v != u ==> Find(s.rows, v) == Find(rows, v)
    ensures OnePerUser(rows) ==> OnePerUser(s.rows)
  {
    var sent := calls + [UpstreamCall(r, body, bearer)];
    if r == Player && upstream == 204 then ProxyStep(Json(200, NotPlaying), rows, sent)
    else if IsOk(upstream) then ProxyStep(SuccessReply(r), rows, sent)
    else if upstream == 401 then
      var rf := Refresh(rows, u, now, retryResp);
      assert (sent + rf.calls)[..|calls|] == calls;
      assert rf.calls == [] || rf.calls == [RefreshGrant(Find(rows, u).value.refreshToken)];
      ProxyStep(if rf.ok then RetryRedirect(r) else SessionExpired, rf.rows, sent + rf.calls)
    else ProxyStep(InternalError, rows, sent)
  }

  /** The reply for each provider status once a token was obtained; only a 401 touches the
      table, and with the user's record in place the refresh outcome decides its reply. */
  lemma AnswerReply(rows: seq<TokenRecord>, calls: seq<ProviderCall>, bearer: string, u: UserId, r: Route,
                    body: CommandBody, now: Time, upstream: int, retryResp: RefreshResponse)
    ensures var s := Answer(rows, calls, bearer, u, r, body, now, upstream, retryResp);
            (s.reply == Json(200, NotPlaying) <==> r == Player && upstream == 204) &&
            (s.reply == SuccessReply(r) <==> IsOk(upstream) && !(r == Player && upstream == 204)) &&
            (s.reply == InternalError <==> !IsOk(upstream) && upstream != 401) &&
            (upstream != 401 ==> s.rows == rows) &&
            (upstream == 401 && Find(rows, u).Some? ==>
               s.reply == (if retryResp.ok then RetryRedirect(r) else SessionExpired)) &&
            s.reply != NotConnected
  {
  }

  /** After a 401 the table decides: a redirect leaves the user's refreshed record, "session
      expired" leaves none. */
  lemma AnswerRetry(rows: seq<TokenRecord>, calls: seq<ProviderCall>, bearer: string, u: UserId, r: Route,
                    body: CommandBody, now: Time, upstream: int, retryResp: RefreshResponse)
    ensures var s := Answer(rows, calls, bearer, u, r, body, now, upstream, retryResp);
            (s.reply.Redirect? ==>
               s.reply == RetryRedirect(r) && upstream == 401 && retryResp.ok && Find(s.rows, u).Some?) &&
            (s.reply == SessionExpired ==> upstream == 401 && Find(s.rows, u).None?)
  {
  }

  /** "Not connected" exactly when no token was obtained, and then nothing reaches the
      playback API. */
  lemma ProxyNotConnected(rows: seq<TokenRecord>, u: UserId, r: Route, body: CommandBody, now: Time,
      tokenResp: RefreshResponse, upstream: int, retryResp: RefreshResponse)
    ensures var s := Proxy(rows, u, r, body, now, tokenResp, upstream, retryResp);
            (s.reply == NotConnected <==> !Truthy(GetToken(rows, u, now, tokenResp).token)) &&
            (s.reply == NotConnected ==> forall i :: 0 <= i < |s.calls| ==> !s.calls[i].Api?)
  {
    var t := GetToken(rows, u, now, tokenResp);
    if Truthy(t.token) {
      AnswerReply(t.rows, t.calls, t.token.value, u, r, body, now, upstream, retryResp);
    } else {
      assert t.calls == [] || t.calls == [RefreshGrant(Find(rows, u).value.refreshToken)];
    }
  }

  /** The 2xx answers: `/player` with 204 is "not playing", any other 2xx succeeds. */
  lemma ProxySuccess(rows: seq<TokenRecord>, u: UserId, r: Route, body: CommandBody, now: Time,
      tokenResp: RefreshResponse, upstream: int, retryResp: RefreshResponse)
    ensures var s := Proxy(rows, u, r, body, now, tokenResp, upstream, retryResp);
            var connected := Truthy(GetToken(rows, u, now, tokenResp).token);
            (s.reply == Json(200, NotPlaying) <==> connected && r == Player && upstream == 204) &&
            (s.reply == SuccessReply(r) <==> connected && IsOk(upstream) && !(r == Player && upstream == 204))
  {
    var t := GetToken(rows, u, now, tokenResp);
    if Truthy(t.token) {
      AnswerReply(t.rows, t.calls, t.token.value, u, r, body, now, upstream, retryResp);
    }
  }

  /** Any other failure but 401 is a 500, and the proxy step itself writes nothing. */
  lemma ProxyFailure(rows: seq<TokenRecord>, u: UserId, r: Route, body: CommandBody, now: Time,
      tokenResp: RefreshResponse, upstream: int, retryResp: RefreshResponse)
    ensures var s := Proxy(rows, u, r, body, now, tokenResp, upstream, retryResp);
            var t := GetToken(rows, u, now, tokenResp);
            (s.reply == InternalError <==> Truthy(t.token) && !IsOk(upstream) && upstream != 401) &&
            (s.reply == InternalError ==> s.rows == t.rows)
  {
    var t := GetToken(rows, u, now, tokenResp);
    if Truthy(t.token) {
      AnswerReply(t.rows, t.calls, t.token.value, u, r, body, now, upstream, retryResp);
    }
  }

  /** A provider 401 after a token was obtained: a redirect to the same route exactly when
      the refresh succeeded, otherwise "session expired". */
  lemma ProxyUnauthorized(rows: seq<TokenRecord>, u: UserId, r: Route, body: CommandBody, now: Time,
      tokenResp: RefreshResponse, upstream: int, retryResp: RefreshResponse)
    requires upstream == 401
    ensures var s := Proxy(rows, u, r, body, now, tokenResp, upstream, retryResp);
            Truthy(GetToken(rows, u, now, tokenResp).token) ==>
              s.reply == (if retryResp.ok then RetryRedirect(r) else SessionExpired)
  {
    var t := GetToken(rows, u, now, tokenResp);
    if Truthy(t.token) {
      AnswerReply(t.rows, t.calls, t.token.value, u, r, body, now, upstream, retryResp);
    }
  }

  /** A redirect only follows a 401 and a refresh that left a record; "session expired"
      only follows a 401 and leaves no record. */
  lemma ProxyRetryOutcome(rows: seq<TokenRecord>, u: UserId, r: Route, body: CommandBody, now: Time,
      tokenResp: RefreshResponse, upstream: int, retryResp: RefreshResponse)
    ensures var s := Proxy(rows, u, r, body, now, tokenResp, upstream, retryResp);
            (s.reply.Redirect? ==>
               s.reply == RetryRedirect(r) && upstream == 401 && retryResp.ok && Find(s.rows, u).Some?) &&
            (s.reply == SessionExpired ==> upstream == 401 && Find(s.rows, u).None?)
  {
    var t := GetToken(rows, u, now, tokenResp);
    if Truthy(t.token) {
      AnswerRetry(t.rows, t.calls, t.token.value, u, r, body, now, upstream, retryResp);
    }
  }

  /** What a connected route sends and writes: after a 401 exactly the one refresh request,
      with the stored refresh token, and the refresh's rows; after anything else no further
      request and no write beyond the token step. */
  lemma ProxyRequestsAndWrites(rows: seq<TokenRecord>, u: UserId, r: Route, body: CommandBody, now: Time,
      tokenResp: RefreshResponse, upstream: int, retryResp: RefreshResponse)
    ensures var s := Proxy(rows, u, r, body, now, tokenResp, upstream, retryResp);
            var t := GetToken(rows, u, now, tokenResp);
            Truthy(t.token) ==>
              (upstream == 401 ==>
                 Find(t.rows, u).Some? &&
                 s.calls == t.calls + [UpstreamCall(r, body, t.token.value),
                                       RefreshGrant(Find(t.rows, u).value.refreshToken)] &&
                 s.rows == Refresh(t.rows, u, now, retryResp).rows) &&
              (upstream != 401 ==> s.calls == t.calls + [UpstreamCall(r, body, t.token.value)] && s.rows == t.rows)
  {
    var t := GetToken(rows, u, now, tokenResp);
    if Truthy(t.token) {
      assert Find(t.rows, u).Some?;
      assert Proxy(rows, u, r, body, now, tokenResp, upstream, retryResp) ==
             Answer(t.rows, t.calls, t.token.value, u, r, body, now, upstream, retryResp);
      AnswerRequestsAndWrites(t.rows, t.calls, t.token.value, u, r, body, now, upstream, retryResp);
    }
  }

  /** With the user's record in place, a 401 costs exactly one refresh request. */
  lemma AnswerRequestsAndWrites(rows: seq<TokenRecord>, calls: seq<ProviderCall>, bearer: string, u: UserId,
                                r: Route, body: CommandBody, now: Time, upstream: int, retryResp: RefreshResponse)
    requires Find(rows, u).Some?
    ensures var s := Answer(rows, calls, bearer, u, r, body, now, upstream, retryResp);
            upstream == 401 ==>
              s.calls == calls + [UpstreamCall(r, body, bearer), RefreshGrant(Find(rows, u).value.refreshToken)] &&
              s.rows == Refresh(rows, u, now, retryResp).rows
  {
    if upstream == 401 {
      var rf := Refresh(rows, u, now, retryResp);
      assert rf.calls == [RefreshGrant(Find(rows, u).value.refreshToken)];
      assert calls + [UpstreamCall(r, body, bearer)] + rf.calls ==
             calls + [UpstreamCall(r, body, bearer), RefreshGrant(Find(rows, u).value.refreshToken)];
    }
  }

  /** Nothing bounds the retry: if the provider keeps answering 401 while refreshes keep
      succeeding, the state a redirect leaves produces the same redirect again. */
  lemma RejectionRedirectsAgain(rows: seq<TokenRecord>, u: UserId, r: Route, body: CommandBody, now: Time,
                                tokenResp: RefreshResponse, retryResp: RefreshResponse)
    requires Proxy(rows, u, r, body, now, tokenResp, 401, retryResp).reply.Redirect?
    requires retryResp.accessToken != "" && retryResp.expiresIn >= 0
    ensures var s := Proxy(rows, u, r, body, now, tokenResp, 401, retryResp);
            Proxy(s.rows, u, r, body, now, tokenResp, 401, retryResp).reply == RetryRedirect(r)
  {
    var s := Proxy(rows, u, r, body, now, tokenResp, 401, retryResp);
    var t := GetToken(rows, u, now, tokenResp);
    assert Truthy(t.token) && Find(t.rows, u).Some?;
    var rf := Refresh(t.rows, u, now, retryResp);
    assert rf.ok && s.rows == rf.rows;
    var rec := Find(s.rows, u).value;
    assert rec.accessToken == retryResp.accessToken && rec.expiresAt == ExpiryFrom(now, retryResp.expiresIn);
    assert !Expired(rec, now);
    var t2 := GetToken(s.rows, u, now, tokenResp);
    assert t2.token == Some(rec.accessToken) && t2.rows == s.rows;
    ProxyUnauthorized(s.rows, u, r, body, now, tokenResp, 401, retryResp);
  }

  /** The handler for one of `/me`, `/play`, `/pause`, `/next`, `/previous`, `/playlists`
      (and the part of `/player` before its history write). */
  method HandleProxy(tokens: TokenStore, u: UserId, r: Route, body: CommandBody, now: Time,
                     tokenResp: RefreshResponse, upstream: int, retryResp: RefreshResponse)
    returns (reply: Reply, calls: seq<ProviderCall>)
    modifies tokens
    ensures ProxyStep(reply, tokens.rows, calls) ==
            Proxy(old(tokens.rows), u, r, body, now, tokenResp, upstream, retryResp)
  {
    var accessToken;
    accessToken, calls := tokens.GetSpotifyToken(u, now, tokenResp);
    if !Truthy(accessToken) {
      return NotConnected, calls;
    }
    calls := calls + [UpstreamCall(r, body, accessToken.value)];
    if r == Player && upstream == 204 {
      return Json(200, NotPlaying), calls;
    }
    if !IsOk(upstream) {
      if upstream == 401 {
        var refreshed, more := tokens.RefreshSpotifyToken(u, now, retryResp);
        calls := calls + more;
        if refreshed {
          return RetryRedirect(r), calls;
        }
        return SessionExpired, calls;
      }
      return InternalError, calls;
    }
    reply := SuccessReply(r);
  }

  /** The currently playing item of the provider's `/me/player` JSON. */
  datatype Track = Track(id: string, name: string, artists: seq<string>, imageUrls: seq<string>)

  datatype PlayerState = PlayerState(isPlaying: bool, item: Option<Track>)

  /** `.map(a => a.name).join(", ")`. */
  function JoinNames(names: seq<string>): (j: string)
    ensures |names| == 0 ==> j == ""
    ensures |names| == 1 ==> j == names[0]
    // the names in order, two characters of separator between neighbours
    ensures |names| > 0 ==> |j| >= |names[0]| && j[..|names[0]|] == names[0]
    ensures |names| > 1 ==>
              |j| >= |names[0]| + 2 && j[|names[0]|..|names[0]| + 2] == ", " && j[|names[0]| + 2..] == JoinNames(names[1..])
  {
    if |names| == 0 then ""
    else if |names| == 1 then names[0]
    else names[0] + ", " + JoinNames(names[1..])
  }

  /** The `trackData` row built for user `u`; `images[0]?.url` is absent when there are no images. */
  function TrackInsert(u: UserId, t: Track): (ins: HistoryInsert)
    ensures ins.userId == u && ins.trackId == t.id && ins.trackName == t.name
    ensures ins.artistName == JoinNames(t.artists)
    ensures ins.albumArt.None? <==> |t.imageUrls| == 0
    ensures ins.albumArt.Some? ==> ins.albumArt.value == t.imageUrls[0]
  {
    HistoryInsert(u, t.id, t.name, JoinNames(t.artists), if |t.imageUrls| > 0 then Some(t.imageUrls[0]) else None)
  }

  datatype PlayerStep = PlayerStep(reply: Reply, rows: seq<TokenRecord>, history: seq<PlayEvent>,
                                   calls: seq<ProviderCall>)

  /** `GET /api/spotify/player`, with `data` the provider's JSON on a 2xx answer and `dbOk`
      whether the history lookup and insert go through (`false`: one of them throws). */
  function PlayerRoute(rows: seq<TokenRecord>, hist: seq<PlayEvent>, u: UserId, now: Time,
                       tokenResp: RefreshResponse, upstream: int, retryResp: RefreshResponse,
                       data: PlayerState, dbOk: bool): (s: PlayerStep)
    // the token table and requests are exactly the proxy template's
    ensures var p := Proxy(rows, u, Player, CommandBody(None, None), now, tokenResp, upstream, retryResp);
            s.rows == p.rows && s.calls == p.calls
    // history is only ever appended to, by at most one row
    ensures |hist| <= |s.history| <= |hist| + 1 && s.history[..|hist|] == hist
    // a forwarded answer saying a track is playing is recorded, deduplicated, whenever the
    // database answers; in every other case the history stays as it was
    ensures var p := Proxy(rows, u, Player, CommandBody(None, None), now, tokenResp, upstream, retryResp);
            p.reply == Json(200, Forwarded) && data.isPlaying && data.item.Some? && dbOk ==>
              s.history == Record(hist, TrackInsert(u, data.item.value), now)
    ensures var p := Proxy(rows, u, Player, CommandBody(None, None), now, tokenResp, upstream, retryResp);
            !(p.reply == Json(200, Forwarded) && data.isPlaying && data.item.Some? && dbOk) ==> s.history == hist
    // so a row is written only for a 2xx other than 204, and 204 never writes
    ensures s.history != hist ==> IsOk(upstream) && upstream != 204 && data.isPlaying && data.item.Some?
    ensures upstream == 204 ==> s.history == hist
    // `data.item.id` on a null item, or a failing history query or insert, throws inside the try: 500
    ensures var p := Proxy(rows, u, Player, CommandBody(None, None), now, tokenResp, upstream, retryResp);
            s.reply == (if p.reply == Json(200, Forwarded) && data.isPlaying && (data.item.None? || !dbOk)
                        then InternalError else p.reply)
    ensures Spaced(hist) && NotAfter(hist, now) ==> Spaced(s.history)
  {
    var p := Proxy(rows, u, Player, CommandBody(None, None), now, tokenResp, upstream, retryResp);
    ForwardedMeansOk(rows, u, now, tokenResp, upstream, retryResp);
    PlayerAfter(p, hist, u, now, data, dbOk)
  }

  /** `/player` forwards the provider's JSON only for a 2xx answer other than 204. */
  lemma ForwardedMeansOk(rows: seq<TokenRecord>, u: UserId, now: Time, tokenResp: RefreshResponse,
                         upstream: int, retryResp: RefreshResponse)
    ensures var p := Proxy(rows, u, Player, CommandBody(None, None), now, tokenResp, upstream, retryResp);
            p.reply == Json(200, Forwarded) ==> IsOk(upstream) && upstream != 204
  {
    ProxySuccess(rows, u, Player, CommandBody(None, None), now, tokenResp, upstream, retryResp);
    assert SuccessReply(Player) == Json(200, Forwarded);
  }

  /** What `/player` does after the proxy template produced `p`: on a forwarded answer saying
      a track is playing, read the item and record it. */
  function PlayerAfter(p: ProxyStep, hist: seq<PlayEvent>, u: UserId, now: Time, data: PlayerState,
                       dbOk: bool): (s: PlayerStep)
    ensures s.rows == p.rows && s.calls == p.calls
    ensures |hist| <= |s.history| <= |hist| + 1 && s.history[..|hist|] == hist
    ensures p.reply == Json(200, Forwarded) && data.isPlaying && data.item.Some? && dbOk ==>
              s.history == Record(hist, TrackInsert(u, data.item.value), now)
    ensures !(p.reply == Json(200, Forwarded) && data.isPlaying && data.item.Some? && dbOk) ==> s.history == hist
    ensures s.reply == (if p.reply == Json(200, Forwarded) && data.isPlaying && (data.item.None? || !dbOk)
                        then InternalError else p.reply)
    ensures Spaced(hist) && NotAfter(hist, now) ==> Spaced(s.history)
  {
    assert hist[..|hist|] == hist;
    if p.reply != Json(200, Forwarded) || !data.isPlaying then PlayerStep(p.reply, p.rows, hist, p.calls)
    else if data.item.None? || !dbOk then PlayerStep(InternalError, p.rows, hist, p.calls)
    else
      var ins := TrackInsert(u, data.item.value);
      RecordKeepsSpacedIf(hist, ins, now);
      PlayerStep(p.reply, p.rows, Record(hist, ins, now), p.calls)
  }

  lemma RecordKeepsSpacedIf(h: seq<PlayEvent>, ins: HistoryInsert, now: Time)
    ensures Spaced(h) && NotAfter(h, now) ==> Spaced(Record(h, ins, now))
  {
    if Spaced(h) && NotAfter(h, now) {
      RecordKeepsSpaced(h, ins, now);
    }
  }

  method HandlePlayer(tokens: TokenStore, history: HistoryLog, u: UserId, now: Time,
                      tokenResp: RefreshResponse, upstream: int, retryResp: RefreshResponse,
                      data: PlayerState, dbOk: bool)
    returns (reply: Reply, calls: seq<ProviderCall>)
    modifies tokens, history
    ensures PlayerStep(reply, tokens.rows, history.rows, calls) ==
            PlayerRoute(old(tokens.rows), old(history.rows), u, now, tokenResp, upstream, retryResp, data, dbOk)
  {
    reply, calls := HandleProxy(tokens, u, Player, CommandBody(None, None), now, tokenResp, upstream, retryResp);
    if reply == Json(200, Forwarded) && data.isPlaying {
      if data.item.None? {
        return InternalError, calls;
      }
      var stored := history.RecordIfNew(TrackInsert(u, data.item.value), now, dbOk);
      if !stored {
        return InternalError, calls;
      }
    }
  }
}
