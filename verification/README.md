# MusicNoteSync: the Spotify credential lifecycle, in Dafny

MusicNoteSync is a note-taking web application. Users can connect a Spotify account to it.
The server keeps one access/refresh token record per user in the `spotify_tokens` table and
works on it in four ways:

- **Connect.** `/api/spotify/auth` issues an anti-forgery `state`. `/api/spotify/callback` checks
  the state, exchanges the authorization code and upserts the record. This is the
  authorization-code grant of section 4.1 of RFC 6749, with `state` as in section 10.12.
- **Refresh.** `getSpotifyToken` refreshes an expired token. The old refresh token is kept when the
  response carries none (section 6 of RFC 6749). A failed refresh deletes the record.
- **Proxy.** `/me`, `/player`, `/play`, `/pause`, `/next`, `/previous` and `/playlists` all follow
  one template:
  - no token → 401;
  - `/player` and a provider 204 → "not playing";
  - a provider 401 → refresh, then redirect to the same route, or 401 "session expired";
  - any other provider failure → 500.
- **History.** `/player` appends the playing track to `music_history`. It skips a track that the
  same user already played no more than five minutes ago.

Two client helper files are also modelled:
- `client/src/lib/utils.ts`: text truncation and tag colours;
- `client/src/components/top-bar.tsx`: note type and cache key per page, the note a "create"
  submits with its todo items, and the URL a search pushes.

How the model works:

- The token table is a sequence of rows, because the schema does not declare `user_id` unique.
  `findFirst` without `orderBy` is a `LIMIT 1` with no `ORDER BY`, so SQL leaves open which
  of a user's rows it returns. The model fixes that choice as the first row in table order; this
  matters only when a user has several rows. `update`/`delete ... where` touch all of them.
- "One record per user" (`OnePerUser`) is an invariant. Every operation is proved to preserve it.
- Time is an integer in milliseconds, passed in.
- Provider answers are inputs. A network error and a non-2xx answer are the same `ok == false`,
  because the source handles both in one `catch`.
- Each handler also returns the requests it sends to Spotify, in order.
- Each stateful operation is a specification function on values (`Refresh`, `GetToken`,
  `Callback`, `Status`, `Proxy`, `PlayerRoute`, `Record`, ...). A method on a class is proved to
  compute it:
  - `TokenStore` holds the token rows;
  - `HistoryLog` holds the history rows;
  - `Session` holds `spotifyState`;
  - `TopBar` holds the browser history, the query-cache invalidations and the submitted notes.

Files:

| file | module | models |
|---|---|---|
| schema.dfy | `Schema` | row and insert shapes, store defaults, note types |
| token_table.dfy | `TokenTable` | `findFirst`, `update`/`delete ... where`, the one-row-per-user invariant |
| http.dfy | `Http` | provider requests and answers, route replies |
| storage.dfy | `Storage` | `getSpotifyToken`, `refreshSpotifyToken`, class `TokenStore` |
| auth.dfy | `SpotifyAuth` | `/auth`, `/callback`, `/status`, `/disconnect` |
| history.dfy | `History` | the five-minute history dedup, class `HistoryLog` |
| proxy.dfy | `SpotifyProxy` | the proxy template, `/player` with history |
| utils.dfy | `Utils` | `truncateText`, `getTagColorClasses` |
| uri.dfy | `UriComponent` | `encodeURIComponent` and its inverse |
| topbar.dfy | `TopBar` | note type, query key, trim/split/todo items, note form, search URL, class `TopBar` |

Points where the code's behaviour is easy to misread:

- **`/callback` state.** It never clears `req.session.spotifyState`, so a state stays usable after
  its callback (`SpotifyAuth.HandleCallback` modifies only the token store).
- **History insert failure.** The history lookup and insert are inside the `/player` try block,
  so a database error there turns the response into a 500 and is not swallowed. The `dbOk`
  input of `SpotifyProxy.PlayerRoute` models this.
- **Retry redirect.** Nothing bounds it. `SpotifyProxy.RejectionRedirectsAgain` shows that a
  redirect can reproduce itself.
- **`/status` refresh.** It is an inline copy of `refreshSpotifyToken` (server/routes.ts:678-721),
  not a call to it. The two make the same request, update and delete, so `Status` reuses `Refresh`.
- **Expiry.** A token counts as expired only when `expiresAt < now`. At `expiresAt == now` it is
  still used.

## Model

| member | source | states |
|---|---|---|
| Schema.StoreToken | shared/schema.ts:102-116 | a stored token row is exactly the four picked insert columns plus `createdAt` taken from the store clock |
| Schema.StorePlay | shared/schema.ts:122-138 | a stored history row is exactly the insert shape; `playedAt`, not part of the insert shape, always comes from the store clock |
| Schema.NoteTypeOnInsert | shared/schema.ts:49 | a note inserted without a type gets `"note"`; a given type is stored exactly as given |
| TokenTable.Find | server/storage.ts:109-111 | `findFirst` by user is absent exactly when no row belongs to the user; otherwise it is a row of the table owned by the user |
| TokenTable.UpdateWhere | server/storage.ts:172-178 | `update ... where` keeps the number of rows and the owner of every row |
| TokenTable.DeleteWhere | server/routes.ts:732 | `delete ... where` leaves exactly the rows of other users |
| TokenTable.FindAfterUpdate | server/storage.ts:172-178 | after an update of user u, u reads its first row with the patch applied and every other user reads what it read before |
| TokenTable.FindAfterDelete | server/storage.ts:185 | after deleting user u's rows, u reads nothing and every other user reads what it read before |
| TokenTable.FindAfterInsert | server/routes.ts:640-645 | after an insert, a user that had a row still reads it; a user that had none reads the new row if it is theirs |
| TokenTable.UpdateKeepsOnePerUser | server/storage.ts:172-178 | an update keeps one row per user |
| TokenTable.DeleteKeepsOnePerUser | server/storage.ts:185 | a delete keeps one row per user |
| TokenTable.InsertKeepsOnePerUser | server/routes.ts:638-645 | inserting for a user that has no row keeps one row per user |
| TokenTable.CountZeroIffAbsent | server/routes.ts:625-629 | a user owns no row exactly when `findFirst` finds none |
| TokenTable.CountAtMostOne | shared/schema.ts:104 | under the one-row-per-user invariant, each user owns at most one row |
| TokenTable.CountAfterUpdate | server/routes.ts:631-637 | an update does not change how many rows any user owns |
| TokenTable.CountAfterInsert | server/routes.ts:640-645 | an insert adds exactly one row to its user's count and none to anyone else's |
| TokenTable.DuplicatesAreLegalAndSurviveUpdate | shared/schema.ts:104 | the schema admits two rows for one user, and an update then leaves both: one row per user is kept only by the handlers |
| Storage.Refresh | server/storage.ts:136-189 | no record: false, no request, no change. A record: one refresh request with the stored refresh token. Success: new access token, `expiresAt = now + expires_in`, refresh token replaced only by a truthy new one, `createdAt` kept. Failure: the user's rows are deleted. Other users are untouched; one row per user is preserved |
| Storage.KeptRefreshToken | server/storage.ts:172-176 | a truthy refresh token in the response replaces the stored one, otherwise the stored one stays; a non-empty stored refresh token is never blanked |
| Storage.RefreshPatch | server/storage.ts:168-177 | applied to any record, the patch sets the new access token, the kept refresh token and the new expiry, and keeps owner and `createdAt` |
| Storage.FindAfterUpdateAll | server/storage.ts:172-178 | the user's record after the refresh update is the old one patched, for all other users unchanged |
| Storage.FindAfterDeleteAll | server/storage.ts:185 | after the eviction the user has no record and all other users are unchanged |
| Storage.GetToken | server/storage.ts:108-134 | no record: null, no request, no change. Unexpired (`expiresAt >= now`): the stored access token, no request, no change. Expired: exactly the refresh; null if it fails, else the new access token (null if that is empty). A returned token is what the table then holds; other users untouched; one row per user preserved |
| Http.ExpiryFrom | server/storage.ts:168-169 | `now + expires_in * 1000`: in a time zone without daylight-saving changes, the expiry lies `expires_in` whole seconds after `now`, and is in the future exactly when `expires_in` is positive |
| Storage.Expired | server/storage.ts:119 | a token is expired only strictly after `expiresAt` |
| Storage.ExpiryIsStrict | server/storage.ts:119 | at `expiresAt` itself a token is still used; one millisecond later it is refreshed |
| Storage.ExpiredAfterLifetime | server/storage.ts:119 | with the expiry of `Http.ExpiryFrom`, a token written at time `t` with lifetime `e` seconds is expired exactly when more than `e * 1000` ms have passed since `t` |
| Storage.TokenStore.FindFirst | server/storage.ts:109-111 | returns the user's first row, owned by the user |
| Storage.TokenStore.Update | server/storage.ts:172-178 | the rows become the update of the old rows |
| Storage.TokenStore.Insert | server/routes.ts:640-645 | the rows become the old rows plus the stored insert |
| Storage.TokenStore.Delete | server/storage.ts:185 | the rows become the delete of the old rows; the user reads nothing, others read what they did |
| Storage.TokenStore.RefreshSpotifyToken | server/storage.ts:136-189 | the result, the new rows and the requests are those of `Storage.Refresh` on the old rows |
| Storage.TokenStore.GetSpotifyToken | server/storage.ts:108-134 | the token, the new rows and the requests are those of `Storage.GetToken` on the old rows |
| History.LatestPlayedAt | server/routes.ts:826-832 | the newest-first `findFirst` for (user, track): absent exactly when there is no such play, otherwise the `playedAt` of one such play and no earlier than any other |
| History.ShouldRecord | server/routes.ts:834 | the insert guard: no earlier play of the (user, track), or the latest one strictly more than five minutes before now |
| History.Record | server/routes.ts:816-836 | the history is unchanged or gains exactly the stored play, and it grows exactly when there is no prior play of (user, track) or the latest is strictly more than 5 minutes old |
| History.RecordKeepsSpaced | server/routes.ts:834-836 | with a clock that does not run backwards, two recorded plays of one (user, track) are always more than 5 minutes apart |
| History.RepeatWithinWindowIsIgnored | server/routes.ts:834 | a recorded track seen again within 5 minutes writes nothing |
| History.RepeatAfterWindowIsRecorded | server/routes.ts:834-836 | a recorded track seen again more than 5 minutes later is recorded again |
| History.HistoryLog.RecordIfNew | server/routes.ts:825-836 | with a working database the history becomes `History.Record` of the old history; a failing one leaves it unchanged and reports the failure |
| SpotifyAuth.HexDigit | server/routes.ts:571 | each nibble becomes a lower-case hex digit |
| SpotifyAuth.DigitValue | server/routes.ts:571 | reading a hex digit gives the nibble that writes it |
| SpotifyAuth.HexEncode | server/routes.ts:571 | the state has two lower-case hex digits per random byte |
| SpotifyAuth.HexRoundTrip | server/routes.ts:571 | the state decodes back to the random bytes: hex encoding loses nothing |
| SpotifyAuth.StatesAreDistinct | server/routes.ts:571 | different random bytes give different states |
| SpotifyAuth.HandleAuth | server/routes.ts:566-583 | the session stores the hex state of the random bytes, and the reply carries that same state to the consent page |
| SpotifyAuth.IssuedStateIsTheOnlyAccepted | server/routes.ts:589-591 | after `/auth`, the callback accepts exactly the issued state and rejects a missing or any other one |
| SpotifyAuth.StateAccepted | server/routes.ts:589 | the callback guard: the state must be truthy and equal to the session's |
| SpotifyAuth.StateGuardRejects | server/routes.ts:589-591 | a missing or empty state is rejected; a session holding no state rejects every state; an accepted state equals the session's non-empty one |
| SpotifyAuth.Upsert | server/routes.ts:624-646 | afterwards the user's record holds exactly the inserted values, keeps `createdAt` when it existed and gets `now` otherwise; with one row per user before, there is exactly one after; other users untouched; absent user means an append |
| SpotifyAuth.Callback | server/routes.ts:585-654 | missing or foreign state: 400, no request, no write. Otherwise one code exchange. Failure: no write and the error redirect. Success: the connected redirect, with the user's record holding the response tokens and `now + expires_in`, exactly one record for the user; other users untouched |
| SpotifyAuth.HandleCallback | server/routes.ts:585-654 | the reply, the new rows and the requests are those of `SpotifyAuth.Callback` on the old rows and the session's state; the session is not changed |
| SpotifyAuth.Status | server/routes.ts:656-726 | no record: not connected, no request. Unexpired: connected, no request, no change. Expired: the refresh's request and rows; connected exactly when it succeeded, with the failure note otherwise. `connected` always agrees with whether a record is left |
| SpotifyAuth.HandleStatus | server/routes.ts:656-726 | the reply, the new rows and the requests are those of `SpotifyAuth.Status` on the old rows |
| SpotifyAuth.HandleDisconnect | server/routes.ts:728-739 | deletes exactly the caller's rows: the caller reads nothing, every other user reads what it did; replies "Disconnected from Spotify" |
| SpotifyProxy.Proxy | server/routes.ts:742-1045 | no usable token: 401 "Not connected" with only the token step's rows and requests. Otherwise the result is `SpotifyProxy.Answer` for the token step's rows, requests and token: the token step's requests, then exactly one playback request carrying the obtained token. Other users untouched; one row per user preserved |
| SpotifyProxy.DeviceQuery | server/routes.ts:856 | the `?device_id=` suffix is present exactly when a truthy device id was sent, and then carries it |
| SpotifyProxy.UpstreamCall | server/routes.ts:751-1023 | each route sends one playback API request with the token as bearer: GETs for the reads, PUT for play and pause, POST for next and previous. The URL is the route's endpoint, followed by `SpotifyProxy.DeviceQuery` of the sent device id for the four commands. Only `/play` forwards a track, and only a truthy one |
| SpotifyProxy.RetryRedirect | server/routes.ts:799-876 | the retry redirect goes to the route's own path, with 307 exactly for the POST routes and 302 for the GET routes |
| SpotifyProxy.SuccessReply | server/routes.ts:772-1040 | success is a 200; the POST routes answer `{ success: true }` and the GET routes forward the provider's JSON |
| SpotifyProxy.Answer | server/routes.ts:788-810 | after the earlier requests comes exactly one playback request with the given bearer. On a 401 exactly the refresh's requests follow and the rows are the ones the refresh leaves. On any other answer nothing follows and nothing is written. Other users untouched; one row per user preserved |
| SpotifyProxy.AnswerReply | server/routes.ts:795-810 | 204 on `/player`: not playing. Any other 2xx: success. 401 with the user's record present: redirect to the same path when the refresh succeeds, else "session expired". Anything else: 500. Only a 401 changes the table, and the reply is never "Not connected" |
| SpotifyProxy.AnswerRetry | server/routes.ts:800-806 | a redirect only follows a 401 and a successful refresh, and leaves the user's record; "session expired" only follows a 401 and leaves no record |
| SpotifyProxy.ProxyNotConnected | server/routes.ts:783-786 | "Not connected" exactly when no token was obtained, and then no request reaches the playback API |
| SpotifyProxy.ProxySuccess | server/routes.ts:795-798 | "not playing" exactly for a connected `/player` request answered 204; the route's success reply exactly for any other 2xx |
| SpotifyProxy.ProxyFailure | server/routes.ts:808-842 | 500 exactly when connected and the provider answered neither 2xx nor 401, and then the route writes nothing beyond the token step |
| SpotifyProxy.ProxyUnauthorized | server/routes.ts:800-806 | connected and answered 401: redirect to the same path (307 for the command routes) exactly when the retry refresh succeeds, else "session expired" |
| SpotifyProxy.ProxyRetryOutcome | server/routes.ts:800-806 | a redirect means a 401, a successful refresh and a record left for the user; "session expired" means a 401 and no record left |
| SpotifyProxy.ProxyRequestsAndWrites | server/routes.ts:799-806 | connected and answered 401: exactly one refresh request follows the playback request, carrying the stored refresh token, and the rows are those the refresh leaves. Connected and any other answer: no further request and no write beyond the token step |
| SpotifyProxy.AnswerRequestsAndWrites | server/routes.ts:799-806 | with the user's record in place, a 401 adds exactly the playback request and one refresh request with the stored refresh token, and leaves the rows the refresh leaves |
| SpotifyProxy.RejectionRedirectsAgain | server/routes.ts:799-806 | if the provider keeps answering 401 and refreshes keep succeeding, the state a redirect leaves produces the same redirect: the retry is unbounded |
| SpotifyProxy.HandleProxy | server/routes.ts:742-1045 | for every proxied route except `/player`, which has its own handler, the reply, the new rows and the requests are those of `SpotifyProxy.Proxy` on the old rows |
| SpotifyProxy.PlayerRoute | server/routes.ts:779-844 | token rows and requests as in the proxy template. History only grows, by at most one row. A forwarded 2xx saying a track is playing, with an item and a working database, gives exactly `History.Record` of the old history. Every other case leaves the history as it was, so 204 never writes. A null item while playing, or a failing history lookup or insert, is a 500. Spacing of history is preserved |
| SpotifyProxy.PlayerAfter | server/routes.ts:812-839 | after the proxy step: only a forwarded answer saying a track is playing, with an item and a working database, records `History.Record` of the history; a null item or a failing database gives a 500; nothing else changes the history or the reply, and spacing is kept |
| SpotifyProxy.ForwardedMeansOk | server/routes.ts:794-812 | the provider's JSON is forwarded only for a 2xx answer other than 204 |
| SpotifyProxy.RecordKeepsSpacedIf | server/routes.ts:834-836 | recording keeps the history spaced whenever it was spaced and not ahead of the clock |
| SpotifyProxy.JoinNames | server/routes.ts:821 | the artist names in order, separated by ", ": empty for none, the name itself for one |
| SpotifyProxy.TrackInsert | server/routes.ts:817-823 | the history row holds the user, the track id and name, the joined artist names, and the first image URL when there is one |
| SpotifyProxy.HandlePlayer | server/routes.ts:779-844 | the reply, the new token rows, the new history and the requests are those of `SpotifyProxy.PlayerRoute` on the old state |
| Utils.TruncateText | client/src/lib/utils.ts:42-47 | absent or empty text gives ""; text no longer than the bound is unchanged; longer text gives a proper prefix of it followed by "...", `maxLength + 3` long (the prefix is empty for a negative bound) |
| Utils.TruncateIdempotent | client/src/lib/utils.ts:42-47 | truncating a truncated text with the same bound changes nothing |
| Utils.TagColorClasses | client/src/lib/utils.ts:49-65 | a listed colour gets its own bg/text pair, any other string gets blue, always as `bg + " " + text` |
| Utils.BlueIffUnlisted | client/src/lib/utils.ts:51-62 | the answer is the blue classes exactly for `#3b82f6` and for every string not in the map |
| Utils.ClassesNameTheirColor | client/src/lib/utils.ts:51-58 | the colour initial inside a listed colour's classes identifies that colour |
| Utils.ListedColorsAreDistinct | client/src/lib/utils.ts:51-58 | the six listed colours give six different class strings |
| Utils.TagColorClassesAsWritten | client/src/lib/utils.ts:51-64 | the lookup as written agrees with the intended one except on names inherited from `Object.prototype`, where it gives "undefined undefined" |
| Utils.ConstructorColorLosesDefault | client/src/lib/utils.ts:62 | the colour "constructor" does not get the blue default |
| UriComponent.UpperHex | client/src/components/top-bar.tsx:102 | an escape's hex digits are unreserved characters |
| UriComponent.HexValue | client/src/components/top-bar.tsx:102 | a hex digit reads as a nibble |
| UriComponent.HexValueOfUpperHex | client/src/components/top-bar.tsx:102 | reading an escape digit gives back its nibble |
| UriComponent.Utf8 | client/src/components/top-bar.tsx:102 | every character is one to four UTF-8 bytes |
| UriComponent.EscapeAll | client/src/components/top-bar.tsx:102 | three characters per byte |
| UriComponent.EscapeAllSafe | client/src/components/top-bar.tsx:102 | escaped bytes are written with `%` and unreserved characters only |
| UriComponent.EncodeChar | client/src/components/top-bar.tsx:102 | an unreserved character is kept as it is and any other is escaped; the output is `%` and unreserved characters only |
| UriComponent.Encode | client/src/components/top-bar.tsx:102 | `encodeURIComponent` output has only unreserved characters and `%`, is empty exactly for empty input, and is 1 to 12 characters per input character |
| UriComponent.EncodeUnreservedIsIdentity | client/src/components/top-bar.tsx:102 | text of unreserved characters is its own encoding |
| UriComponent.EscapedByte | client/src/components/top-bar.tsx:102 | an escape is read only where three characters remain |
| UriComponent.DecodeChar | client/src/components/top-bar.tsx:102 | decoding one character consumes at least one and at most the remaining characters |
| UriComponent.DecodeTwo | client/src/components/top-bar.tsx:102 | a two-byte sequence takes six characters |
| UriComponent.DecodeThree | client/src/components/top-bar.tsx:102 | a three-byte sequence takes nine characters |
| UriComponent.DecodeFour | client/src/components/top-bar.tsx:102 | a four-byte sequence takes twelve characters |
| UriComponent.EscapeAllAt | client/src/components/top-bar.tsx:102 | byte k of an escaped byte string is written at characters 3k to 3k+2 as `%` and its two upper-case hex digits |
| UriComponent.EscapedByteOf | client/src/components/top-bar.tsx:102 | the escape written for a byte reads back as that byte |
| UriComponent.EscapedByteOfPrefix | client/src/components/top-bar.tsx:102 | text after an escape does not change how it reads |
| UriComponent.Utf8Two | client/src/components/top-bar.tsx:102 | U+0080 to U+07FF: a lead byte C2 to DF and one continuation byte whose payload bits add back to the character |
| UriComponent.Utf8Three | client/src/components/top-bar.tsx:102 | U+0800 to U+FFFF: a lead byte E0 to EF and two continuation bytes whose payload bits add back to the character |
| UriComponent.Utf8Four | client/src/components/top-bar.tsx:102 | U+10000 and above: a lead byte F0 to F4 and three continuation bytes whose payload bits add back to the character |
| UriComponent.DecodeTwoOf | client/src/components/top-bar.tsx:102 | escaped two-byte UTF-8 for a character decodes to that character |
| UriComponent.DecodeThreeOf | client/src/components/top-bar.tsx:102 | escaped three-byte UTF-8 for a character decodes to that character |
| UriComponent.DecodeFourOf | client/src/components/top-bar.tsx:102 | escaped four-byte UTF-8 for a character decodes to that character |
| UriComponent.EscapedByteOfEscapeAll | client/src/components/top-bar.tsx:102 | the k-th escape of an escaped byte string reads back as the k-th byte |
| UriComponent.DecodeOneByte | client/src/components/top-bar.tsx:102 | an escaped ASCII character decodes back to itself, taking three characters |
| UriComponent.DecodeTwoBytes | client/src/components/top-bar.tsx:102 | an encoded character from U+0080 to U+07FF decodes back to itself, taking six characters |
| UriComponent.DecodeThreeBytes | client/src/components/top-bar.tsx:102 | an encoded character from U+0800 to U+FFFF decodes back to itself, taking nine characters |
| UriComponent.DecodeFourBytes | client/src/components/top-bar.tsx:102 | an encoded character from U+10000 up decodes back to itself, taking twelve characters |
| UriComponent.DecodeEncodedChar | client/src/components/top-bar.tsx:102 | decoding reads back exactly one encoded character and its length |
| UriComponent.DecodeEncode | client/src/components/top-bar.tsx:102 | `decodeURIComponent(encodeURIComponent(s)) == s` for every string |
| TopBar.NoteTypeForPath | client/src/components/top-bar.tsx:22-26 | `/todos` gives `"todo"`, `/quick-notes` gives `"quick_note"`, and every other page gives `"note"`; the result is always a valid note type |
| TopBar.QueryKeyForView | client/src/components/top-bar.tsx:34-38 | every key is a `/api/notes` list key |
| TopBar.QueryKeyFollowsNoteType | client/src/components/top-bar.tsx:22-38 | the key parallels the type: plain `/api/notes` for notes, `/api/notes?type=<type>` otherwise |
| TopBar.Lead | client/src/components/top-bar.tsx:70 | the count of leading characters `trim()` removes: all white space, and the next one is not |
| TopBar.Trail | client/src/components/top-bar.tsx:70 | the count of trailing characters `trim()` removes: all white space, and the one before is not |
| TopBar.Trim | client/src/components/top-bar.tsx:70 | `trim()` is the contiguous piece of the input after its leading white space. Everything after the piece is white space, and the piece has no white space at either end. It is empty exactly when the input is all white space |
| TopBar.TrimmedPiece | client/src/components/top-bar.tsx:70 | the piece between the leading and trailing white space starts after the leading white space, is followed only by white space, has no white space at either end, and is empty exactly for a blank input |
| TopBar.TrimIdempotent | client/src/components/top-bar.tsx:89 | a trimmed line trims to itself |
| TopBar.TrimKeepsOutChar | client/src/components/top-bar.tsx:89 | trimming adds no character: one absent from a line is absent from its trimmed form |
| TopBar.Split | client/src/components/top-bar.tsx:86 | `split('\n')` gives at least one part, no part holds a newline, and joining the parts with newlines gives the text back |
| TopBar.SplitJoin | client/src/components/top-bar.tsx:86 | splitting newline-joined lines gives exactly those lines |
| TopBar.NonBlank | client/src/components/top-bar.tsx:87 | the kept lines are lines of the input, none blank; with `TopBar.NonBlankAppend` and `TopBar.NonBlankOne` this fixes the filter |
| TopBar.NonBlankAppend | client/src/components/top-bar.tsx:87 | filtering a concatenation is the concatenation of the filtered parts: kept lines keep their order and each is kept once |
| TopBar.NonBlankOne | client/src/components/top-bar.tsx:87 | a single line is kept exactly when it is not blank |
| TopBar.CountIsNonBlank | client/src/components/top-bar.tsx:86-88 | as many lines are kept as there are non-blank lines |
| TopBar.ItemsOf | client/src/components/top-bar.tsx:87-91 | fused filter and map: item k is the k-th non-blank line, trimmed, not completed |
| TopBar.ItemsAreTrimmedLines | client/src/components/top-bar.tsx:87-91 | every item is a non-empty single line that trims to itself |
| TopBar.TodoItems | client/src/components/top-bar.tsx:85-91 | one item per non-blank line of the content, in order, holding the trimmed line with `isCompleted` false; the count equals the number of non-blank lines |
| TopBar.CreateNoteForm | client/src/components/top-bar.tsx:68-96 | no note exactly when the title is blank after trimming; otherwise title and content as typed, the page's note type, and todo items present exactly for a todo page with non-empty content, then the todo items of the content |
| TopBar.CurrentPath | client/src/components/top-bar.tsx:101 | `location || "/"`: the location itself when it is non-empty, `/` otherwise |
| TopBar.SearchUrl | client/src/components/top-bar.tsx:101-103 | the URL starts with the path (`/` for none); an empty query adds nothing; otherwise `?search=` follows, then only unreserved characters and escapes, which decode back to the query |
| TopBar.TopBar.constructor | client/src/components/top-bar.tsx:13-19 | empty form fields, empty history, invalidations, submissions and toasts |
| TopBar.TopBar.HandleCreateNote | client/src/components/top-bar.tsx:68-96 | a blank title adds the "Title is required" toast and submits nothing; otherwise the note of `TopBar.CreateNoteForm` is submitted; nothing else changes |
| TopBar.TopBar.HandleSearchSubmit | client/src/components/top-bar.tsx:98-107 | pushes `TopBar.SearchUrl` of the page and the query, and invalidates the page's query key; nothing else changes |

## Left out

- Outbound `fetch` calls are not performed: each is recorded in the returned request list, and its answer is a parameter. The Basic-auth header and its base64 encoding, the form-encoded bodies and the authorize URL built with `URLSearchParams` (server/routes.ts:574-582) are not modelled; `/auth` returns an `Authorize(state)` outcome.
- `crypto.randomBytes(16)` is a parameter of `SpotifyAuth.HandleAuth`.
- `SpotifyAuth.IssuedStateIsTheOnlyAccepted` and `SpotifyAuth.StatesAreDistinct` do not state unguessability of the state, because randomness is not modelled.
- Database failures of the token table are not modelled as such. Where they land depends on the `try` they are thrown in:
  - A failing `update` inside `refreshSpotifyToken` (server/storage.ts:172) or inside the refresh of `/status` (server/routes.ts:705) is caught by that refresh's own `catch`. It deletes the record and ends like a refused refresh: `false`, or `connected: false`, with one request sent and no record left. The `resp.ok == false` branch of `Storage.Refresh` and `SpotifyAuth.Status` gives that same outcome.
  - A failing `findFirst` at the start of `refreshSpotifyToken` (server/storage.ts:138) is caught the same way, but before any request is sent. The model has no outcome that deletes the record without sending the refresh request.
  - The `delete` inside those `catch` blocks, the `findFirst` calls of `getSpotifyToken` and `/status`, the `/callback` writes and `/disconnect` are not caught by a refresh. A failure there ends in a 500 or the error redirect.
- The history lookup and insert of `/player` do have their failure modelled: it is the `dbOk` input, and it gives a 500.
- Http.ExpiryFrom, Storage.ExpiredAfterLifetime: the expiry is `now + expires_in * 1000` in plain millisecond arithmetic. The source adds seconds with `setSeconds(getSeconds() + expires_in)`, which works in the server's local time. Across a daylight-saving change the stored expiry can be an hour off (falling back, a one-hour token stays unexpired for two hours). The model therefore stands for a server in a time zone without such changes. It also uses one instant `now` per handler, where the source reads the clock separately for the expiry check (server/storage.ts:118) and for the new expiry (server/storage.ts:168), on either side of the provider round-trip.
- History.Record, History.RecordKeepsSpaced: one clock stands for two. The route compares the app server's `Date.now()` (server/routes.ts:834) with a `playedAt` that the database's `defaultNow()` set (shared/schema.ts:129). The model stamps the row with the same `now` it compares against, and the spacing invariant depends on that. If the database clock runs more than five minutes behind the app clock, a repeat poll a minute later inserts again.
- JSON parse failures of provider answers and missing fields in them are not modelled. `SpotifyAuth.Callback` assumes the code exchange answer carries `refresh_token`; without one, the update would leave the column alone and the insert would fail its NOT NULL check.
- A missing `code` query parameter is passed to the exchange as `undefined`; the model takes `code` as a string.
- Concurrent requests and interleaved refreshes for one user are not modelled: each handler is one sequential step.
- Session expiry, passport authentication and `isAuthenticated` are not modelled: the caller's user id is a parameter.
- Provider JSON is not forwarded: GET routes reply with `Forwarded` in place of the provider's body.
- `SpotifyProxy.PlayerRoute` models `data.item` as present or null only. It does not model a `data.item` without `album` or `artists`, which would also throw to a 500.
- `Utils.TruncateText` takes `maxLength` as an integer. A fractional or NaN bound is not modelled.
- Strings are sequences of Unicode scalar values. JavaScript measures `length` and `substring` in UTF-16 code units, so for text outside the Basic Multilingual Plane `Utils.TruncateText` counts differently. Lone surrogates, for which `encodeURIComponent` throws, cannot occur.
- `onSuccess`/`onError` of the create mutation (clearing the form, the success toast, invalidating the list) and the HTTP request `createNote` sends are not modelled; `TopBar.TopBar.HandleCreateNote` records the submitted note.
- `e.preventDefault()` and React re-rendering are not modelled.
- `formatDate` and `cn` in client/src/lib/utils.ts are not modelled: they rest on `Intl` and `Date` locale formatting and on clsx/tailwind-merge.
- The serial `id` columns are not modelled, because the core never reads them.

## Findings

| source | as written | input that shows it | evidently intended | confidence | as-written member | corrected member |
|---|---|---|---|---|---|---|
| client/src/lib/utils.ts:51-62 | `colorMap[color] \|\| blue` on a plain object literal also finds members inherited from `Object.prototype`. They are truthy, so the default is skipped and `bg`/`text` read as `undefined` | `getTagColorClasses("constructor")` gives `"undefined undefined"` | every colour not listed in the map gets the blue classes, as the comment on line 61 says | low: only a tag colour spelled like an `Object.prototype` member shows it; not executed | Utils.TagColorClassesAsWritten, Utils.ConstructorColorLosesDefault | Utils.TagColorClasses, Utils.BlueIffUnlisted |
