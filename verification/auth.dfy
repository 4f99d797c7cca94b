/** The connection routes of server/routes.ts: `/api/spotify/auth` issues the anti-forgery
    state, `/api/spotify/callback` checks it and upserts the token record (the
    authorization-code grant of section 4.1 of RFC 6749, with `state` as in section 10.12),
    `/api/spotify/status` reports and refreshes, `/api/spotify/disconnect` deletes. */
module SpotifyAuth {
  import opened Schema
  import opened TokenTable
  import opened Http
  import opened Storage

  predicate IsHexDigit(c: char) {
    '0' <= c <= '9' || 'a' <= c <= 'f'
  }

  /** The lower-case hex digit of a nibble. */
  function HexDigit(n: int): (c: char)
    requires 0 <= n < 16
    ensures IsHexDigit(c)
  {
    if n < 10 then ('0' as int + n) as char else ('a' as int + n - 10) as char
  }

  /** The nibble a hex digit stands for. */
  function DigitValue(c: char): (v: int)
    requires IsHexDigit(c)
    ensures 0 <= v < 16 && HexDigit(v) == c
  {
    if c <= '9' then (c as int) - ('0' as int) else (c as int) - ('a' as int) + 10
  }

  /** `Buffer.toString("hex")`: two lower-case digits per byte, high nibble first. */
  function HexEncode(b: seq<Byte>): (s: string)
    ensures |s| == 2 * |b|
    ensures forall i :: 0 <= i < |s| ==> IsHexDigit(s[i])
  {
    if |b| == 0 then ""
    else [HexDigit(b[0] / 16), HexDigit(b[0] % 16)] + HexEncode(b[1..])
  }

  predicate IsHex(s: string) {
    |s| % 2 == 0 && forall i :: 0 <= i < |s| ==> IsHexDigit(s[i])
  }

  /** Reading a hex string back into bytes. */
  function HexDecode(s: string): (b: seq<Byte>)
    requires IsHex(s)
    ensures |b| == |s| / 2
  {
    if |s| == 0 then []
    else [DigitValue(s[0]) * 16 + DigitValue(s[1])] + HexDecode(s[2..])
  }

  lemma DigitOfNibble(n: int)
    requires 0 <= n < 16
    ensures DigitValue(HexDigit(n)) == n
  {
  }

  /** The issued state loses none of the random bytes: decoding gives them back. */
  lemma {:induction false} HexRoundTrip(b: seq<Byte>)
    ensures IsHex(HexEncode(b)) && HexDecode(HexEncode(b)) == b
  {
    if |b| > 0 {
      var s := HexEncode(b);
      var hi, lo := b[0] / 16, b[0] % 16;
      assert s[0] == HexDigit(hi) && s[1] == HexDigit(lo) && s[2..] == HexEncode(b[1..]);
      HexRoundTrip(b[1..]);
      DigitOfNibble(hi);
      DigitOfNibble(lo);
      assert HexDecode(s) == [hi * 16 + lo] + HexDecode(s[2..]);
    }
  }

  /** Two different random values never yield the same state. */
  lemma StatesAreDistinct(a: seq<Byte>, b: seq<Byte>)
    requires a != b
    ensures HexEncode(a) != HexEncode(b)
  {
    HexRoundTrip(a);
    HexRoundTrip(b);
  }

  /** The session of one browser; the source keeps `spotifyState` on it. */
  class Session {
    var spotifyState: Option<string>

    constructor ()
      ensures spotifyState == None
    {
      spotifyState := None;
    }
  }

  /** `GET /api/spotify/auth`: `random` stands for `crypto.randomBytes(16)`. */
  method HandleAuth(session: Session, random: seq<Byte>) returns (reply: Reply)
    modifies session
    ensures session.spotifyState == Some(HexEncode(random))
    ensures reply == Authorize(HexEncode(random))
  {
    var state := HexEncode(random);
    session.spotifyState := Some(state);
    reply := Authorize(state);
  }

  /** The callback's guard: `!state || state !== req.session.spotifyState` rejects. */
  predicate StateAccepted(issued: Option<string>, state: Option<string>) {
    Truthy(state) && state == issued
  }

  /** The guard fails for a missing or empty state and for a session that holds none. */
  lemma StateGuardRejects(issued: Option<string>, state: Option<string>)
    ensures !Truthy(state) ==> !StateAccepted(issued, state)
    ensures issued.None? ==> !StateAccepted(issued, state)
    ensures StateAccepted(issued, state) ==> Truthy(issued) && state.value == issued.value
  {
  }

  /** The state a successful `/auth` issued is accepted, and no other is. */
  lemma IssuedStateIsTheOnlyAccepted(random: seq<Byte>, state: Option<string>)
    requires |random| == 16
    ensures StateAccepted(Some(HexEncode(random)), state) <==> state == Some(HexEncode(random))
  {
  }

  /** Lines 624-646: update the user's record if `findFirst` finds one, insert otherwise. */
  function Upsert(rows: seq<TokenRecord>, ins: TokenInsert, now: Time): (rows': seq<TokenRecord>)
    ensures Find(rows', ins.userId).Some?
    ensures TokenInsertOf(Find(rows', ins.userId).value) == ins
    ensures Find(rows', ins.userId).value.createdAt ==
            if Find(rows, ins.userId).Some? then Find(rows, ins.userId).value.createdAt else now
    ensures forall v :: v != ins.userId ==> Find(rows', v) == Find(rows, v)
    ensures OnePerUser(rows) ==> OnePerUser(rows') && CountFor(rows', ins.userId) == 1
    ensures Find(rows, ins.userId).None? ==> rows' == rows + [StoreToken(ins, now)]
  {
    var u := ins.userId;
    if Find(rows, u).Some? then
      var p := Patch(ins.accessToken, Some(ins.refreshToken), ins.expiresAt);
      FindAfterUpdateAll(rows, u, p);
      CountAfterUpdate(rows, u, p, u);
      CountZeroIffAbsent(rows, u);
      if OnePerUser(rows) then
        UpdateKeepsOnePerUser(rows, u, p);
        CountAtMostOne(rows, u);
        UpdateWhere(rows, u, p)
      else UpdateWhere(rows, u, p)
    else
      var r := StoreToken(ins, now);
      FindAfterInsert(rows, r, u);
      assert forall v :: v != u ==> Find(rows + [r], v) == Find(rows, v) by {
        forall v | v != u ensures Find(rows + [r], v) == Find(rows, v) {
          FindAfterInsert(rows, r, v);
        }
      }
      CountAfterInsert(rows, r, u);
      CountZeroIffAbsent(rows, u);
      if OnePerUser(rows) then
        InsertKeepsOnePerUser(rows, r);
        rows + [r]
      else rows + [r]
  }

  datatype CallbackStep = CallbackStep(reply: Reply, rows: seq<TokenRecord>, calls: seq<ProviderCall>)

  const ConnectedRedirect := Redirect("/#spotify-connected", 302)
  const ErrorRedirect := Redirect("/#spotify-error", 302)

  /** `GET /api/spotify/callback?code=..&state=..` for user `u` whose session holds `issued`. */
  function Callback(rows: seq<TokenRecord>, issued: Option<string>, u: UserId, code: string,
                    state: Option<string>, resp: CodeResponse, now: Time): (s: CallbackStep)
    // a missing or foreign state: 400, before any exchange and any write
    ensures !StateAccepted(issued, state) ==> s == CallbackStep(StateMismatch, rows, [])
    // an accepted state: exactly one code exchange
    ensures StateAccepted(issued, state) ==> s.calls == [CodeGrant(code)]
    // a failed exchange writes nothing
    ensures StateAccepted(issued, state) && !resp.ok ==> s.rows == rows && s.reply == ErrorRedirect
    // a successful one leaves the response's tokens and the new expiry in the user's record
    ensures StateAccepted(issued, state) && resp.ok ==>
              s.reply == ConnectedRedirect && Find(s.rows, u).Some? &&
              TokenInsertOf(Find(s.rows, u).value) ==
                TokenInsert(u, resp.accessToken, resp.refreshToken, ExpiryFrom(now, resp.expiresIn))
    ensures s.reply == ConnectedRedirect && OnePerUser(rows) ==> CountFor(s.rows, u) == 1
    ensures forall v :: v != u ==> Find(s.rows, v) == Find(rows, v)
    ensures OnePerUser(rows) ==> OnePerUser(s.rows)
  {
    if !StateAccepted(issued, state) then CallbackStep(StateMismatch, rows, [])
    else if !resp.ok then CallbackStep(ErrorRedirect, rows, [CodeGrant(code)])
    else
      var ins := TokenInsert(u, resp.accessToken, resp.refreshToken, ExpiryFrom(now, resp.expiresIn));
      CallbackStep(ConnectedRedirect, Upsert(rows, ins, now), [CodeGrant(code)])
  }

  /** `GET /api/spotify/callback`. The session is only read: the state stays valid after use. */
  method HandleCallback(tokens: TokenStore, session: Session, u: UserId, code: string,
                        state: Option<string>, resp: CodeResponse, now: Time)
    returns (reply: Reply, calls: seq<ProviderCall>)
    modifies tokens
    ensures CallbackStep(reply, tokens.rows, calls) ==
            Callback(old(tokens.rows), session.spotifyState, u, code, state, resp, now)
  {
    if !Truthy(state) || state != session.spotifyState {
      return StateMismatch, [];
    }
    calls := [CodeGrant(code)];
    if !resp.ok {
      return ErrorRedirect, calls;
    }
    var expiresAt := ExpiryFrom(now, resp.expiresIn);
    var existing := tokens.FindFirst(u);
    if existing.Some? {
      tokens.Update(u, Patch(resp.accessToken, Some(resp.refreshToken), expiresAt));
    } else {
      tokens.Insert(TokenInsert(u, resp.accessToken, resp.refreshToken, expiresAt), now);
    }
    reply := ConnectedRedirect;
  }

  datatype StatusStep = StatusStep(reply: Reply, rows: seq<TokenRecord>, calls: seq<ProviderCall>)

  const RefreshFailedNote := "Token expired and refresh failed"

  /** `GET /api/spotify/status`. Its inline refresh (lines 678-721) sends the same request
      and makes the same update or delete as `refreshSpotifyToken`. */
  function Status(rows: seq<TokenRecord>, u: UserId, now: Time, resp: RefreshResponse): (s: StatusStep)
    ensures Find(rows, u).None? ==> s == StatusStep(Json(200, Connection(false, None)), rows, [])
    ensures Find(rows, u).Some? && !Expired(Find(rows, u).value, now) ==>
              s == StatusStep(Json(200, Connection(true, None)), rows, [])
    ensures Find(rows, u).Some? && Expired(Find(rows, u).value, now) ==>
              s.rows == Refresh(rows, u, now, resp).rows &&
              s.calls == [RefreshGrant(Find(rows, u).value.refreshToken)] &&
              s.reply == Json(200, Connection(resp.ok, if resp.ok then None else Some(RefreshFailedNote)))
    // the answer agrees with the table it leaves
    ensures s.reply.Json? && s.reply.body.Connection? &&
            (s.reply.body.connected <==> Find(s.rows, u).Some?)
    ensures forall v :: v != u ==> Find(s.rows, v) == Find(rows, v)
    ensures OnePerUser(rows) ==> OnePerUser(s.rows)
  {
    var token := Find(rows, u);
    if token.None? then StatusStep(Json(200, Connection(false, None)), rows, [])
    else if !Expired(token.value, now) then StatusStep(Json(200, Connection(true, None)), rows, [])
    else
      var r := Refresh(rows, u, now, resp);
      StatusStep(Json(200, Connection(r.ok, if r.ok then None else Some(RefreshFailedNote))), r.rows, r.calls)
  }

  method HandleStatus(tokens: TokenStore, u: UserId, now: Time, resp: RefreshResponse)
    returns (reply: Reply, calls: seq<ProviderCall>)
    modifies tokens
    ensures StatusStep(reply, tokens.rows, calls) == Status(old(tokens.rows), u, now, resp)
  {
    var token := tokens.FindFirst(u);
    if token.None? {
      return Json(200, Connection(false, None)), [];
    }
    if !Expired(token.value, now) {
      return Json(200, Connection(true, None)), [];
    }
    var ok;
    ok, calls := tokens.RefreshSpotifyToken(u, now, resp);
    reply := Json(200, Connection(ok, if ok then None else Some(RefreshFailedNote)));
  }

  /** `POST /api/spotify/disconnect`: deletes exactly the caller's rows. */
  method HandleDisconnect(tokens: TokenStore, u: UserId) returns (reply: Reply)
    modifies tokens
    ensures tokens.rows == DeleteWhere(old(tokens.rows), u)
    ensures Find(tokens.rows, u).None?
    ensures forall v :: v != u ==> Find(tokens.rows, v) == Find(old(tokens.rows), v)
    ensures reply == Json(200, Message("Disconnected from Spotify"))
  {
    tokens.Delete(u);
    reply := Json(200, Message("Disconnected from Spotify"));
  }
}
