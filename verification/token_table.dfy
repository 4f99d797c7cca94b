/** The `spotify_tokens` table as the core queries it through drizzle: a sequence of rows
    in table order. `user_id` is not declared unique, so several rows of one user are a
    legal table. Without `orderBy`, `findFirst` is a `LIMIT 1` with no `ORDER BY`, so SQL
    leaves open which of several rows it returns; the model fixes that choice as the first
    row in table order. `update ... where` and `delete ... where` touch all of them. */
module TokenTable {
  import opened Schema

  /** `findFirst({ where: eq(spotifyTokens.userId, u) })`. */
  function Find(rows: seq<TokenRecord>, u: UserId): (r: Option<TokenRecord>)
    ensures r.None? <==> forall i :: 0 <= i < |rows| ==> rows[i].userId != u
    ensures r.Some? ==> r.value in rows && r.value.userId == u
  {
    if |rows| == 0 then None
    else if rows[0].userId == u then Some(rows[0])
    else Find(rows[1..], u)
  }

  /** The columns one `.set({...})` writes; `refreshToken == None` leaves that column out. */
  datatype Patch = Patch(accessToken: string, refreshToken: Option<string>, expiresAt: Time)

  function Apply(r: TokenRecord, p: Patch): TokenRecord {
    r.(accessToken := p.accessToken,
       refreshToken := if p.refreshToken.Some? then p.refreshToken.value else r.refreshToken,
       expiresAt := p.expiresAt)
  }

  /** `db.update(spotifyTokens).set(p).where(eq(spotifyTokens.userId, u))`. */
  function UpdateWhere(rows: seq<TokenRecord>, u: UserId, p: Patch): (rows': seq<TokenRecord>)
    ensures |rows'| == |rows|
    ensures forall i :: 0 <= i < |rows| ==> rows'[i].userId == rows[i].userId
  {
    if |rows| == 0 then []
    else [if rows[0].userId == u then Apply(rows[0], p) else rows[0]] + UpdateWhere(rows[1..], u, p)
  }

  /** `db.delete(spotifyTokens).where(eq(spotifyTokens.userId, u))`. */
  function DeleteWhere(rows: seq<TokenRecord>, u: UserId): (rows': seq<TokenRecord>)
    ensures forall i :: 0 <= i < |rows'| ==> rows'[i].userId != u
    ensures forall r :: r in rows' <==> r in rows && r.userId != u
  {
    if |rows| == 0 then []
    else if rows[0].userId == u then DeleteWhere(rows[1..], u)
    else [rows[0]] + DeleteWhere(rows[1..], u)
  }

  /** The invariant the handlers keep although the schema does not enforce it. */
  predicate OnePerUser(rows: seq<TokenRecord>) {
    forall i, j :: 0 <= i < j < |rows| ==> rows[i].userId != rows[j].userId
  }

  /** How many rows user `u` has. */
  function CountFor(rows: seq<TokenRecord>, u: UserId): nat {
    if |rows| == 0 then 0
    else (if rows[0].userId == u then 1 else 0) + CountFor(rows[1..], u)
  }

  /** Reading back after an update: the user's first row carries the patch, every other
      user reads exactly what it read before. */
  lemma {:induction false} FindAfterUpdate(rows: seq<TokenRecord>, u: UserId, p: Patch, v: UserId)
    ensures Find(UpdateWhere(rows, u, p), v) ==
            if v != u then Find(rows, v)
            else if Find(rows, u).Some? then Some(Apply(Find(rows, u).value, p))
            else None
  {
    if |rows| > 0 {
      var rows' := UpdateWhere(rows, u, p);
      assert rows'[1..] == UpdateWhere(rows[1..], u, p);
      FindAfterUpdate(rows[1..], u, p, v);
    }
  }

  /** Reading back after a delete: the user is gone, every other user is untouched. */
  lemma {:induction false} FindAfterDelete(rows: seq<TokenRecord>, u: UserId, v: UserId)
    ensures Find(DeleteWhere(rows, u), v) == if v == u then None else Find(rows, v)
  {
    if |rows| > 0 {
      FindAfterDelete(rows[1..], u, v);
      if rows[0].userId != u {
        var rows' := DeleteWhere(rows, u);
        assert rows'[1..] == DeleteWhere(rows[1..], u);
      }
    }
  }

  /** Reading back after an insert: an existing first row still wins. */
  lemma {:induction false} FindAfterInsert(rows: seq<TokenRecord>, r: TokenRecord, v: UserId)
    ensures Find(rows + [r], v) ==
            if Find(rows, v).Some? then Find(rows, v)
            else if r.userId == v then Some(r)
            else None
  {
    if |rows| > 0 {
      assert (rows + [r])[1..] == rows[1..] + [r];
      FindAfterInsert(rows[1..], r, v);
    }
  }

  lemma UpdateKeepsOnePerUser(rows: seq<TokenRecord>, u: UserId, p: Patch)
    requires OnePerUser(rows)
    ensures OnePerUser(UpdateWhere(rows, u, p))
  {
  }

  lemma {:induction false} DeleteKeepsOnePerUser(rows: seq<TokenRecord>, u: UserId)
    requires OnePerUser(rows)
    ensures OnePerUser(DeleteWhere(rows, u))
  {
    if |rows| > 0 {
      DeleteKeepsOnePerUser(rows[1..], u);
      var tail := DeleteWhere(rows[1..], u);
      if rows[0].userId != u {
        assert forall i :: 0 <= i < |tail| ==> tail[i] in rows[1..];
        assert forall i :: 0 <= i < |tail| ==> rows[0].userId != tail[i].userId;
        assert DeleteWhere(rows, u) == [rows[0]] + tail;
      }
    }
  }

  /** Inserting a row for a user that has none keeps one row per user. */
  lemma InsertKeepsOnePerUser(rows: seq<TokenRecord>, r: TokenRecord)
    requires OnePerUser(rows)
    requires Find(rows, r.userId).None?
    ensures OnePerUser(rows + [r])
  {
  }

  lemma {:induction false} CountZeroIffAbsent(rows: seq<TokenRecord>, u: UserId)
    ensures CountFor(rows, u) == 0 <==> Find(rows, u).None?
  {
    if |rows| > 0 {
      CountZeroIffAbsent(rows[1..], u);
    }
  }

  lemma {:induction false} CountAtMostOne(rows: seq<TokenRecord>, u: UserId)
    requires OnePerUser(rows)
    ensures CountFor(rows, u) <= 1
  {
    if |rows| > 0 {
      CountAtMostOne(rows[1..], u);
      if rows[0].userId == u {
        assert Find(rows[1..], u).None?;
        CountZeroIffAbsent(rows[1..], u);
      }
    }
  }

  lemma {:induction false} CountAfterUpdate(rows: seq<TokenRecord>, u: UserId, p: Patch, v: UserId)
    ensures CountFor(UpdateWhere(rows, u, p), v) == CountFor(rows, v)
  {
    if |rows| > 0 {
      var rows' := UpdateWhere(rows, u, p);
      assert rows'[1..] == UpdateWhere(rows[1..], u, p);
      CountAfterUpdate(rows[1..], u, p, v);
    }
  }

  lemma {:induction false} CountAfterInsert(rows: seq<TokenRecord>, r: TokenRecord, v: UserId)
    ensures CountFor(rows + [r], v) == CountFor(rows, v) + (if r.userId == v then 1 else 0)
  {
    if |rows| > 0 {
      assert (rows + [r])[1..] == rows[1..] + [r];
      CountAfterInsert(rows[1..], r, v);
    } else {
      assert rows + [r] == [r];
    }
  }

  /** The schema lets a user own two rows, and an update then rewrites both: "one row per
      user" holds only because the handlers insert when `findFirst` finds nothing. */
  lemma DuplicatesAreLegalAndSurviveUpdate(a: TokenRecord, b: TokenRecord, p: Patch)
    requires a.userId == b.userId
    ensures !OnePerUser([a, b])
    ensures CountFor(UpdateWhere([a, b], a.userId, p), a.userId) == 2
  {
    CountAfterUpdate([a, b], a.userId, p, a.userId);
    assert [a, b][1..] == [b] && [b][1..] == [];
    assert CountFor([b], a.userId) == 1;
  }
}
