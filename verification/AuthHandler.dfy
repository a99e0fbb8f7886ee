/** The handlers that log in, refresh and log out, run without interruption over one table.
    SessionProtocol interleaves their steps. */
module AuthHandler {
  import opened RefreshTokens
  import P = SessionProtocol

  datatype Reply =
    | Ok
    | Unauthorized
    | RotationFailed
    | Tokens(user: int, exp: int, refresh: string)

  /** An access token issued at `now` lives fifteen minutes, less the part of a second that its
      expiry claim cannot carry. */
  predicate Fresh(exp: int, now: int) {
    now + 899_000_000_000 < exp * 1_000_000_000 <= now + 900_000_000_000
  }

  datatype Account = Account(id: int, passwordHash: string)

  /** `users` is the users table by its unique email; `matches` is bcrypt's comparison. */
  class Handler {
    const store: TokenStore
    const matches: (string, string) -> bool
    var users: map<string, Account>

    constructor (store: TokenStore, matches: (string, string) -> bool, users: map<string, Account>)
      ensures this.store == store && this.matches == matches && this.users == users
    {
      this.store, this.matches, this.users := store, matches, users;
    }

    /** The access token's expiry claim, and the refresh token, a random value. */
    method IssueTokens(random: string, now: int) returns (exp: int, refresh: string)
      ensures refresh == random
      ensures Fresh(exp, now)
    {
      exp := P.Expiry(now);
      refresh := random;
    }

    /** `saved` says whether the INSERT of the refresh token succeeds. When it does not, the
        handler answers with the tokens all the same. An unknown email and a wrong password get
        the same answer. */
    method Login(email: string, password: string, random: string, now: int, saved: bool) returns (r: Reply)
      modifies store
      ensures r == Unauthorized <==> !(email in users && matches(users[email].passwordHash, password))
      ensures r != Unauthorized ==> r.Tokens? && r.refresh == random && r.user == users[email].id && Fresh(r.exp, now)
      ensures
        var h := store.hash(random);
        store.rows == if r == Unauthorized || !saved || h in old(store.rows) then old(store.rows)
                      else old(store.rows)[h := Row(users[email].id, now + 2_592_000_000_000_000)]
    {
      if email !in users {
        return Unauthorized;
      }
      var user := users[email];
      if !matches(user.passwordHash, password) {
        return Unauthorized;
      }
      var exp, refresh := IssueTokens(random, now);
      if saved {
        store.SaveRefreshToken(user.id, refresh, now);
      }
      return Tokens(user.id, exp, refresh);
    }

    /** The SELECT runs at `selected`, the rotation at `rotated`. A refresh goes ahead exactly for
        a row alive at the SELECT. The token it answers with is stored exactly when the row is
        still alive at the rotation, and answered all the same when it is not. */
    method Refresh(token: string, random: string, selected: int, rotated: int) returns (r: Reply)
      modifies store
      ensures r == Unauthorized <==>
        !(store.hash(token) in old(store.rows) && selected < old(store.rows)[store.hash(token)].expires)
      ensures r == Unauthorized ==> store.rows == old(store.rows)
      ensures r != Unauthorized ==>
        var g, h := store.hash(token), store.hash(random);
        var row := old(store.rows)[g];
        && (r == RotationFailed <==> rotated < row.expires && h != g && h in old(store.rows))
        && (r != RotationFailed ==> r.Tokens? && r.refresh == random && r.user == row.user && Fresh(r.exp, selected))
        && store.rows == if row.expires <= rotated || r == RotationFailed then old(store.rows)
                         else (old(store.rows) - {g})[h := Row(row.user, rotated + 2_592_000_000_000_000)]
    {
      var h := store.hash(token);
      if h !in store.rows || store.rows[h].expires <= selected {
        return Unauthorized;
      }
      var user := store.rows[h].user;
      var exp, refresh := IssueTokens(random, selected);
      var err := store.RotateRefreshToken(token, refresh, user, rotated);
      if err {
        return RotationFailed;
      }
      return Tokens(user, exp, refresh);
    }

    /** Afterwards no token of the user can be refreshed. */
    method Logout(user: int) returns (r: Reply)
      modifies store
      ensures r == Ok
      ensures forall h :: h in store.rows <==> h in old(store.rows) && old(store.rows)[h].user != user
      ensures forall h :: h in store.rows ==> store.rows[h] == old(store.rows)[h]
    {
      store.InvalidateAllTokens(user);
      return Ok;
    }
  }
}
