/** What crosses the wire: the requests the server sends to Spotify, the replies it gets
    back (inputs of the model), and the responses its own routes give. */
module Http {
  import opened Schema

  datatype Verb = Get | Put | Post

  /** One outbound `fetch`, in the order the handler issues them. */
  datatype ProviderCall =
    | RefreshGrant(refreshToken: string)         // POST accounts.spotify.com/api/token, grant_type=refresh_token
    | CodeGrant(code: string)                    // POST accounts.spotify.com/api/token, grant_type=authorization_code
    | Api(verb: Verb, url: string, bearer: string, trackUri: Option<string>)

  /** The token endpoint's answer to a refresh. `ok == false` covers both a non-2xx status
      and a `fetch` that threw: the source handles both in the same `catch`. */
  datatype RefreshResponse = RefreshResponse(
    ok: bool, accessToken: string, refreshToken: Option<string>, expiresIn: int)

  /** The token endpoint's answer to an authorization-code exchange. */
  datatype CodeResponse = CodeResponse(
    ok: bool, accessToken: string, refreshToken: string, expiresIn: int)

  /** `expiresAt.setSeconds(expiresAt.getSeconds() + expires_in)` on a fresh `Date`. */
  function ExpiryFrom(now: Time, expiresIn: int): (t: Time)
    // a whole number of seconds after `now`: the lifetime reads back from the stored instant
    ensures (t - now) % 1000 == 0 && (t - now) / 1000 == expiresIn
    ensures t > now <==> expiresIn > 0
  {
    now + expiresIn * 1000
  }

  /** `response.ok`: a 2xx status. */
  predicate IsOk(status: int) {
    200 <= status < 300
  }

  /** JSON bodies the routes send. */
  datatype Body =
    | Message(text: string)
    | Connection(connected: bool, note: Option<string>)
    | NotPlaying                  // { isPlaying: false }
    | Forwarded                   // the provider's JSON, passed through
    | Succeeded                   // { success: true }

  datatype Reply =
    | Json(status: int, body: Body)
    | Redirect(location: string, code: int)
    | Authorize(state: string)    // redirect to the provider's consent page carrying `state`

  const NotConnected := Json(401, Message("Not connected to Spotify"))
  const SessionExpired := Json(401, Message("Spotify session expired"))
  const InternalError := Json(500, Message("Internal server error"))
  const StateMismatch := Json(400, Message("State mismatch"))
}
