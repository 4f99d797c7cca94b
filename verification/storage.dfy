/** `storage.getSpotifyToken` and `storage.refreshSpotifyToken` (server/storage.ts):
    reading a user's access token, refreshing it once it has expired, and evicting the
    record when the refresh fails. */
module Storage {
  import opened Schema
  import opened TokenTable
  import opened Http

  /** A token counts as expired only strictly after `expiresAt`. */
  predicate Expired(r: TokenRecord, now: Time) {
    r.expiresAt < now
  }

  /** A token is still used at the very instant it expires, and refreshed one millisecond later. */
  lemma ExpiryIsStrict(r: TokenRecord)
    ensures !Expired(r, r.expiresAt) && Expired(r, r.expiresAt + 1)
  {
  }

  /** A token written at `issued` with lifetime `expiresIn` seconds counts as expired exactly
      once more than that lifetime has passed. */
  lemma ExpiredAfterLifetime(r: TokenRecord, issued: Time, expiresIn: int, now: Time)
    requires r.expiresAt == ExpiryFrom(issued, expiresIn)
    ensures Expired(r, now) <==> now - issued > expiresIn * 1000
  {
  }

  /** The refresh token a successful refresh leaves in the record: the response's one if
      it carries a truthy value, otherwise the stored one. */
  function KeptRefreshToken(stored: string, resp: RefreshResponse): (k: string)
    ensures Truthy(resp.refreshToken) ==> k == resp.refreshToken.value
    ensures !Truthy(resp.refreshToken) ==> k == stored
    // a stored refresh token is never blanked
    ensures stored != "" ==> k != ""
  {
    if Truthy(resp.refreshToken) then resp.refreshToken.value else stored
  }

  /** The `.set({...})` of a successful refresh. */
  function RefreshPatch(resp: RefreshResponse, now: Time): (p: Patch)
    // on any record: the new access token, the kept refresh token and the new expiry;
    // owner and `createdAt` stay
    ensures forall rec :: Apply(rec, p) ==
              TokenRecord(rec.userId, resp.accessToken, KeptRefreshToken(rec.refreshToken, resp),
                          ExpiryFrom(now, resp.expiresIn), rec.createdAt)
  {
    Patch(resp.accessToken,
          if Truthy(resp.refreshToken) then resp.refreshToken else None,
          ExpiryFrom(now, resp.expiresIn))
  }

  datatype RefreshStep = RefreshStep(ok: bool, rows: seq<TokenRecord>, calls: seq<ProviderCall>)

  /** `refreshSpotifyToken(u)`: what it returns, the table it leaves and the requests it sends. */
  function Refresh(rows: seq<TokenRecord>, u: UserId, now: Time, resp: RefreshResponse): (s: RefreshStep)
    // no record: false, nothing sent, nothing written
    ensures Find(rows, u).None? ==> s == RefreshStep(false, rows, [])
    // a record: exactly one refresh request, with the stored refresh token
    ensures Find(rows, u).Some? ==>
              s.calls == [RefreshGrant(Find(rows, u).value.refreshToken)] && s.ok == resp.ok
    // success: new access token and expiry, refresh token replaced only if one was supplied
    ensures s.ok ==>
              Find(s.rows, u) == Some(TokenRecord(u, resp.accessToken,
                                                  KeptRefreshToken(Find(rows, u).value.refreshToken, resp),
                                                  ExpiryFrom(now, resp.expiresIn),
                                                  Find(rows, u).value.createdAt))
    // failure: the user has no record left
    ensures !s.ok ==> Find(s.rows, u).None?
    ensures !s.ok && Find(rows, u).Some? ==> s.rows == DeleteWhere(rows, u)
    // other users read exactly what they read before
    ensures forall v :: v != u ==> Find(s.rows, v) == Find(rows, v)
    ensures OnePerUser(rows) ==> OnePerUser(s.rows)
  {
    match Find(rows, u)
    case None => RefreshStep(false, rows, [])
    case Some(rec) =>
      var calls := [RefreshGrant(rec.refreshToken)];
      if !resp.ok then
        var rows' := DeleteWhere(rows, u);
        FindAfterDeleteAll(rows, u);
        if OnePerUser(rows) then DeleteKeepsOnePerUser(rows, u); RefreshStep(false, rows', calls)
        else RefreshStep(false, rows', calls)
      else
        var rows' := UpdateWhere(rows, u, RefreshPatch(resp, now));
        FindAfterUpdateAll(rows, u, RefreshPatch(resp, now));
        if OnePerUser(rows) then UpdateKeepsOnePerUser(rows, u, RefreshPatch(resp, now)); RefreshStep(true, rows', calls)
        else RefreshStep(true, rows', calls)
  }

  lemma FindAfterUpdateAll(rows: seq<TokenRecord>, u: UserId, p: Patch)
    ensures Find(UpdateWhere(rows, u, p), u) ==
            if Find(rows, u).Some? then Some(Apply(Find(rows, u).value, p)) else None
    ensures forall v :: v != u ==> Find(UpdateWhere(rows, u, p), v) == Find(rows, v)
  {
    FindAfterUpdate(rows, u, p, u);
    forall v | v != u ensures Find(UpdateWhere(rows, u, p), v) == Find(rows, v) {
      FindAfterUpdate(rows, u, p, v);
    }
  }

  lemma FindAfterDeleteAll(rows: seq<TokenRecord>, u: UserId)
    ensures Find(DeleteWhere(rows, u), u).None?
    ensures forall v :: v != u ==> Find(DeleteWhere(rows, u), v) == Find(rows, v)
  {
    forall v | v != u ensures Find(DeleteWhere(rows, u), v) == Find(rows, v) {
      FindAfterDelete(rows, u, v);
    }
  }

  datatype TokenStep = TokenStep(token: Option<string>, rows: seq<TokenRecord>, calls: seq<ProviderCall>)

  /** `getSpotifyToken(u)`: the access token it returns (`None` for `null`), the table it
      leaves and the requests it sends. */
  function GetToken(rows: seq<TokenRecord>, u: UserId, now: Time, resp: RefreshResponse): (s: TokenStep)
    // no record: null, no request, no change
    ensures Find(rows, u).None? ==> s == TokenStep(None, rows, [])
    // unexpired record: the stored access token as it is, no request, no change
    ensures Find(rows, u).Some? && !Expired(Find(rows, u).value, now) ==>
              s == TokenStep(Some(Find(rows, u).value.accessToken), rows, [])
    // expired record: exactly the refresh, and its outcome
    ensures Find(rows, u).Some? && Expired(Find(rows, u).value, now) ==>
              s.rows == Refresh(rows, u, now, resp).rows &&
              s.calls == [RefreshGrant(Find(rows, u).value.refreshToken)] &&
              s.token == (if resp.ok && resp.accessToken != "" then Some(resp.accessToken) else None)
    // whatever is returned is what the table now holds
    ensures s.token.Some? ==> Find(s.rows, u).Some? && s.token.value == Find(s.rows, u).value.accessToken
    ensures forall v :: v != u ==> Find(s.rows, v) == Find(rows, v)
    ensures OnePerUser(rows) ==> OnePerUser(s.rows)
  {
    var found := Find(rows, u);
    if found.None? then TokenStep(None, rows, [])
    else if !Expired(found.value, now) then TokenStep(Some(found.value.accessToken), rows, [])
    else
      var r := Refresh(rows, u, now, resp);
      if !r.ok then TokenStep(None, r.rows, r.calls)
      else
        // `newToken?.accessToken || null`: an empty access token reads as null
        var reread := Find(r.rows, u);
        TokenStep(if reread.Some? && reread.value.accessToken != "" then Some(reread.value.accessToken) else None,
                  r.rows, r.calls)
  }

  /** The token rows, updated in place by the storage layer. */
  class TokenStore {
    var rows: seq<TokenRecord>

    constructor ()
      ensures rows == []
    {
      rows := [];
    }

    method FindFirst(u: UserId) returns (r: Option<TokenRecord>)
      ensures r == Find(rows, u)
      ensures r.Some? ==> r.value.userId == u
    {
      r := Find(rows, u);
    }

    method Update(u: UserId, p: Patch)
      modifies this
      ensures rows == UpdateWhere(old(rows), u, p)
    {
      rows := UpdateWhere(rows, u, p);
    }

    method Insert(ins: TokenInsert, now: Time)
      modifies this
      ensures rows == old(rows) + [StoreToken(ins, now)]
    {
      rows := rows + [StoreToken(ins, now)];
    }

    method Delete(u: UserId)
      modifies this
      ensures rows == DeleteWhere(old(rows), u)
      ensures Find(rows, u).None?
      ensures forall v :: v != u ==> Find(rows, v) == Find(old(rows), v)
    {
      FindAfterDeleteAll(rows, u);
      rows := DeleteWhere(rows, u);
    }

    method RefreshSpotifyToken(u: UserId, now: Time, resp: RefreshResponse)
      returns (ok: bool, calls: seq<ProviderCall>)
      modifies this
      ensures RefreshStep(ok, rows, calls) == Refresh(old(rows), u, now, resp)
    {
      var token := FindFirst(u);
      if token.None? {
        return false, [];
      }
      calls := [RefreshGrant(token.value.refreshToken)];
      if !resp.ok {
        Delete(u);
        return false, calls;
      }
      Update(u, RefreshPatch(resp, now));
      ok := true;
    }

    method GetSpotifyToken(u: UserId, now: Time, resp: RefreshResponse)
      returns (token: Option<string>, calls: seq<ProviderCall>)
      modifies this
      ensures TokenStep(token, rows, calls) == GetToken(old(rows), u, now, resp)
    {
      var rec := FindFirst(u);
      if rec.None? {
        return None, [];
      }
      if Expired(rec.value, now) {
        var refreshed;
        refreshed, calls := RefreshSpotifyToken(u, now, resp);
        if !refreshed {
          return None, calls;
        }
        var reread := FindFirst(u);
        token := if reread.Some? && reread.value.accessToken != "" then Some(reread.value.accessToken) else None;
        return;
      }
      return Some(rec.value.accessToken), [];
    }
  }
}
