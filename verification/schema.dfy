/** Record shapes of the two tables the Spotify layer works on (shared/schema.ts),
    and the note-type column default used by the top bar. */
module Schema {

  datatype Option<+T> = None | Some(value: T)

  /** JavaScript truthiness of an optional string: absent and "" are both falsy. */
  predicate Truthy(s: Option<string>) {
    s.Some? && s.value != ""
  }

  /** One byte: of `crypto.randomBytes`, or of a UTF-8 encoding. */
  type Byte = x: int | 0 <= x < 256

  /** `users.id`, referenced by `spotify_tokens.user_id` and `music_history.user_id`. */
  type UserId = int

  /** A JavaScript `Date`, in milliseconds since the epoch. */
  type Time = int

  /** A row of `spotify_tokens`. Every column the core reads is `notNull`, so none is optional.
      The serial `id` is never read by the core and is not modelled. */
  datatype TokenRecord = TokenRecord(
    userId: UserId,
    accessToken: string,
    refreshToken: string,
    expiresAt: Time,
    createdAt: Time)

  /** `insertSpotifyTokenSchema`: exactly the four picked columns. */
  datatype TokenInsert = TokenInsert(
    userId: UserId,
    accessToken: string,
    refreshToken: string,
    expiresAt: Time)

  /** A row of `music_history`; only `albumArt` is nullable. */
  datatype PlayEvent = PlayEvent(
    userId: UserId,
    trackId: string,
    trackName: string,
    artistName: string,
    albumArt: Option<string>,
    playedAt: Time)

  /** `insertMusicHistorySchema`: `playedAt` is not picked, so the column default sets it. */
  datatype HistoryInsert = HistoryInsert(
    userId: UserId,
    trackId: string,
    trackName: string,
    artistName: string,
    albumArt: Option<string>)

  /** The insert-shape view of a token row. */
  function TokenInsertOf(r: TokenRecord): TokenInsert {
    TokenInsert(r.userId, r.accessToken, r.refreshToken, r.expiresAt)
  }

  /** The insert-shape view of a history row. */
  function HistoryInsertOf(e: PlayEvent): HistoryInsert {
    HistoryInsert(e.userId, e.trackId, e.trackName, e.artistName, e.albumArt)
  }

  /** Inserting a token row: the store adds `createdAt` (`defaultNow()`) and keeps the rest. */
  function StoreToken(ins: TokenInsert, now: Time): (r: TokenRecord)
    ensures TokenInsertOf(r) == ins
    ensures r.createdAt == now
  {
    TokenRecord(ins.userId, ins.accessToken, ins.refreshToken, ins.expiresAt, now)
  }

  /** Inserting a history row: `playedAt` always comes from the store default, never the caller. */
  function StorePlay(ins: HistoryInsert, now: Time): (e: PlayEvent)
    ensures HistoryInsertOf(e) == ins
    ensures e.playedAt == now
  {
    PlayEvent(ins.userId, ins.trackId, ins.trackName, ins.artistName, ins.albumArt, now)
  }

  /** The values the comment on `notes.type` lists. */
  predicate IsNoteType(t: string) {
    t == "note" || t == "todo" || t == "quick_note"
  }

  /** `notes.type` on insert: the given value, or the column default `"note"`. */
  function NoteTypeOnInsert(given: Option<string>): (t: string)
    ensures given.None? ==> t == "note"
    ensures given.Some? ==> t == given.value
    ensures given.Some? && IsNoteType(given.value) ==> IsNoteType(t)
  {
    if given.Some? then given.value else "note"
  }
}
