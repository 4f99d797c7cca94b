/** The playback history written by `GET /api/spotify/player` (server/routes.ts): an
    append-only table of play events, deduplicated per (user, track) within five minutes. */
module History {
  import opened Schema

  /** `5 * 60 * 1000` milliseconds. */
  const Window: int := 300_000

  predicate SameTrack(e: PlayEvent, u: UserId, trackId: string) {
    e.userId == u && e.trackId == trackId
  }

  /** `playedAt` of the row `findFirst` returns for (u, trackId) under `orderBy: desc(playedAt)`:
      the latest play of that track by that user, if any. */
  function LatestPlayedAt(h: seq<PlayEvent>, u: UserId, trackId: string): (r: Option<Time>)
    ensures r.None? <==> forall i :: 0 <= i < |h| ==> !SameTrack(h[i], u, trackId)
    ensures r.Some? ==> exists i :: 0 <= i < |h| && SameTrack(h[i], u, trackId) && h[i].playedAt == r.value
    ensures r.Some? ==> forall i :: 0 <= i < |h| && SameTrack(h[i], u, trackId) ==> h[i].playedAt <= r.value
  {
    if |h| == 0 then None
    else
      var prior := LatestPlayedAt(h[..|h| - 1], u, trackId);
      var last := h[|h| - 1];
      assert forall i :: 0 <= i < |h| - 1 ==> h[i] == h[..|h| - 1][i];
      if !SameTrack(last, u, trackId) then prior
      else if prior.Some? && prior.value >= last.playedAt then prior
      else Some(last.playedAt)
  }

  /** The insert guard: no prior play, or the latest one strictly more than five minutes ago. */
  predicate ShouldRecord(h: seq<PlayEvent>, ins: HistoryInsert, now: Time) {
    var latest := LatestPlayedAt(h, ins.userId, ins.trackId);
    latest.None? || now - latest.value > Window
  }

  /** The history after one "now playing" observation of `ins` at `now`. */
  function Record(h: seq<PlayEvent>, ins: HistoryInsert, now: Time): (h': seq<PlayEvent>)
    // append-only: at most the one new row, stamped by the store
    ensures h' == h || h' == h + [StorePlay(ins, now)]
    ensures h' != h <==> ShouldRecord(h, ins, now)
  {
    if ShouldRecord(h, ins, now) then h + [StorePlay(ins, now)] else h
  }

  /** No clock ran backwards: nothing in `h` is later than `now`. */
  predicate NotAfter(h: seq<PlayEvent>, now: Time) {
    forall i :: 0 <= i < |h| ==> h[i].playedAt <= now
  }

  /** The history invariant: two plays of one track by one user are more than five
      minutes apart. */
  predicate Spaced(h: seq<PlayEvent>) {
    forall i, j :: 0 <= i < j < |h| && SameTrack(h[j], h[i].userId, h[i].trackId) ==>
      h[j].playedAt - h[i].playedAt > Window
  }

  /** Recording keeps the history spaced, provided time does not run backwards. */
  lemma RecordKeepsSpaced(h: seq<PlayEvent>, ins: HistoryInsert, now: Time)
    requires Spaced(h) && NotAfter(h, now)
    ensures Spaced(Record(h, ins, now)) && NotAfter(Record(h, ins, now), now)
  {
    if ShouldRecord(h, ins, now) {
      var h' := h + [StorePlay(ins, now)];
      var latest := LatestPlayedAt(h, ins.userId, ins.trackId);
      forall i, j | 0 <= i < j < |h'| && SameTrack(h'[j], h'[i].userId, h'[i].trackId)
        ensures h'[j].playedAt - h'[i].playedAt > Window
      {
        if j == |h| {
          assert SameTrack(h[i], ins.userId, ins.trackId);
        }
      }
    }
  }

  /** A play observed again within five minutes of being recorded writes nothing. */
  lemma {:induction false} RepeatWithinWindowIsIgnored(h: seq<PlayEvent>, ins: HistoryInsert, t1: Time, t2: Time)
    requires ShouldRecord(h, ins, t1)
    requires t1 <= t2 <= t1 + Window
    ensures Record(Record(h, ins, t1), ins, t2) == Record(h, ins, t1)
  {
    var h' := h + [StorePlay(ins, t1)];
    var latest := LatestPlayedAt(h', ins.userId, ins.trackId);
    assert SameTrack(h'[|h|], ins.userId, ins.trackId);
    assert latest.Some? && latest.value >= t1;
  }

  /** Once the latest play of a track is more than five minutes old, it is recorded again. */
  lemma RepeatAfterWindowIsRecorded(h: seq<PlayEvent>, ins: HistoryInsert, t1: Time, t2: Time)
    requires ShouldRecord(h, ins, t1) && NotAfter(h, t1)
    requires t2 > t1 + Window
    ensures Record(Record(h, ins, t1), ins, t2) == h + [StorePlay(ins, t1), StorePlay(ins, t2)]
  {
    var h' := h + [StorePlay(ins, t1)];
    var latest := LatestPlayedAt(h', ins.userId, ins.trackId);
    assert latest.Some?;
    assert latest.value <= t1;
  }

  /** `musicHistory`, to which the `/player` handler appends. */
  class HistoryLog {
    var rows: seq<PlayEvent>

    constructor ()
      ensures rows == []
    {
      rows := [];
    }

    /** The lookup and the conditional insert; `dbOk == false` stands for the database
        throwing, which writes nothing and is reported as `false`. */
    method RecordIfNew(ins: HistoryInsert, now: Time, dbOk: bool) returns (ok: bool)
      modifies this
      ensures ok == dbOk
      ensures rows == if dbOk then Record(old(rows), ins, now) else old(rows)
    {
      if !dbOk {
        return false;
      }
      var latest := LatestPlayedAt(rows, ins.userId, ins.trackId);
      if latest.None? || now - latest.value > Window {
        rows := rows + [StorePlay(ins, now)];
      }
      ok := true;
    }
  }
}
