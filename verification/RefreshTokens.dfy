/** The refresh_tokens table: one row per live session, keyed by the hash of its token, and
    the three operations on it. Each SQL statement or transaction is one step; times are
    nanoseconds. */
module RefreshTokens {

  const SECOND := 1_000_000_000
  const REFRESH_TTL := 30 * 24 * 60 * 60 * SECOND

  type Hash = string

  datatype Row = Row(user: int, expires: int)

  /** token_hash is UNIQUE, so the table is a map. */
  type Table = map<Hash, Row>

  datatype Outcome = NothingDeleted | Rotated | Conflict

  predicate Live(t: Table, h: Hash, user: int, now: int) {
    h in t && t[h].user == user && t[h].expires > now
  }

  /** INSERT ... ON CONFLICT DO NOTHING. */
  function Saved(t: Table, h: Hash, user: int, now: int): Table {
    if h in t then t else t[h := Row(user, now + REFRESH_TTL)]
  }

  /** Delete the old row and insert the new one, or roll back. */
  function Rotate(t: Table, oldHash: Hash, newHash: Hash, user: int, now: int): (Table, Outcome) {
    if !Live(t, oldHash, user, now) then (t, NothingDeleted)
    else
      var deleted := t - {oldHash};
      if newHash in deleted then (t, Conflict)
      else (deleted[newHash := Row(user, now + REFRESH_TTL)], Rotated)
  }

  function Invalidated(t: Table, user: int): Table {
    map h | h in t && t[h].user != user :: t[h]
  }

  function RowsOf(t: Table, user: int): set<Hash> {
    set h | h in t && t[h].user == user
  }

  lemma RowsAfterRotation(t: Table, oldHash: Hash, newHash: Hash, user: int, now: int, u: int)
    requires Rotate(t, oldHash, newHash, user, now).1 == Rotated
    ensures
      var t' := Rotate(t, oldHash, newHash, user, now).0;
      RowsOf(t', u) == if u == user then RowsOf(t, u) - {oldHash} + {newHash} else RowsOf(t, u)
  {
    var t' := Rotate(t, oldHash, newHash, user, now).0;
    forall h
      ensures h in RowsOf(t', u) <==>
              h in if u == user then RowsOf(t, u) - {oldHash} + {newHash} else RowsOf(t, u)
    {
    }
  }

  /** A rotation changes nothing, or swaps one row of the user for another: no user's number
      of sessions ever changes. */
  lemma RotationConservesSessions(t: Table, oldHash: Hash, newHash: Hash, user: int, now: int, u: int)
    ensures
      var (t', o) := Rotate(t, oldHash, newHash, user, now);
      && (o != Rotated ==> t' == t)
      && (o == Rotated ==> t'.Keys == t.Keys - {oldHash} + {newHash} && (oldHash != newHash ==> newHash !in t))
      && |RowsOf(t', u)| == |RowsOf(t, u)|
  {
    if Rotate(t, oldHash, newHash, user, now).1 == Rotated {
      RowsAfterRotation(t, oldHash, newHash, user, now, u);
      var rows := RowsOf(t, u);
      assert u == user ==> oldHash in rows && newHash !in rows - {oldHash};
      assert u == user ==> |rows - {oldHash} + {newHash}| == |rows|;
      hide RowsOf;
    }
  }

  class TokenStore {
    const hash: string -> Hash
    var rows: Table

    constructor (hash: string -> Hash)
      ensures this.hash == hash && rows == map[]
    {
      this.hash := hash;
      this.rows := map[];
    }

    /** The lifetime is thirty days. */
    method SaveRefreshToken(user: int, token: string, now: int)
      modifies this
      ensures rows == Saved(old(rows), hash(token), user, now)
      ensures
        var h := hash(token);
        rows == if h in old(rows) then old(rows) else old(rows)[h := Row(user, now + 2_592_000_000_000_000)]
    {
      var h := hash(token);
      if h !in rows {
        rows := rows[h := Row(user, now + REFRESH_TTL)];
      }
    }

    /** `err` is the error the caller sees. A lost race is not an error: no row is deleted,
        nothing is stored, and the caller is told that all went well. */
    method RotateRefreshToken(oldToken: string, newToken: string, user: int, now: int) returns (err: bool)
      modifies this
      ensures rows == Rotate(old(rows), hash(oldToken), hash(newToken), user, now).0
      ensures err <==> Rotate(old(rows), hash(oldToken), hash(newToken), user, now).1 == Conflict
      ensures
        var g, h := hash(oldToken), hash(newToken);
        var live := g in old(rows) && old(rows)[g].user == user && now < old(rows)[g].expires;
        && (err <==> live && h != g && h in old(rows))
        && rows == if !live || err then old(rows)
                   else (old(rows) - {g})[h := Row(user, now + 2_592_000_000_000_000)]
    {
      var oldHash, newHash := hash(oldToken), hash(newToken);
      var tx := rows;
      if oldHash !in tx || tx[oldHash].user != user || tx[oldHash].expires <= now {
        return false;
      }
      tx := tx - {oldHash};
      if newHash in tx {
        return true;
      }
      tx := tx[newHash := Row(user, now + REFRESH_TTL)];
      rows := tx;
      return false;
    }

    method InvalidateAllTokens(user: int)
      modifies this
      ensures rows == Invalidated(old(rows), user)
      ensures forall h :: h in rows <==> h in old(rows) && old(rows)[h].user != user
      ensures forall h :: h in rows ==> rows[h] == old(rows)[h]
    {
      rows := map h | h in rows && rows[h].user != user :: rows[h];
    }
  }
}
