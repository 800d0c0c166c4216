/**
 Request-independent auth logic over the two tables, one request at a time. `Undisturbed`
 proves that a request left alone in the interleaved protocol does the same.
 */
module Auth {
  import opened Base
  import opened Tables

  datatype Failure = AddressTaken | InvalidCredentials | UnknownToken | ReuseDetected | TokenExpired | AccountGone |
    DuplicateToken

  datatype Result<+T> = Ok(value: T) | Err(error: Failure)

  /** What the theft-detecting consumption of a token does to the table. */
  function Consume(rows: TokenTable, t: Token, now: Time): (TokenTable, Result<Row>)
  {
    if Claimable(rows, t, now) then (MarkUsed(rows, t, now), Ok(rows[t].(usedAt := Some(now))))
    else if t !in rows then (rows, Err(UnknownToken))
    else if rows[t].usedAt.Some? then (DeleteFamily(rows, rows[t].family), Err(ReuseDetected))
    else (rows - {t}, Err(TokenExpired))
  }

  /** What POST /auth/refresh does to the table, given the token it would mint. */
  function Refreshed(rows: TokenTable, users: UserTable, t: Token, n: Token, now: Time, life: Time)
    : (TokenTable, Result<Token>)
  {
    var (rows', r) := Consume(rows, t, now);
    match r
    case Err(e) => (rows', Err(e))
    case Ok(row) =>
      if !Active(users, row.user) then (rows', Err(AccountGone))
      else (rows'[n := Row(row.user, row.family, None, now + life)], Ok(n))
  }

  // What single operations mean, for this class and for `Undisturbed` alike, field by field.

  /** An active account has the address and the password. */
  predicate HoldsCredentials(users: UserTable, e: Email, p: Password, u: UserId)
  {
    u in users && users[u].deletedAt.None? && users[u].email == e && users[u].password == p
  }

  /** No active account has the address. */
  predicate Unheld(users: UserTable, e: Email)
  {
    forall x | x in users && users[x].deletedAt.None? :: users[x].email != e
  }

  /** A new account is the only active holder of its address; no other account changes. */
  predicate Registers(users: UserTable, users': UserTable, u: UserId, e: Email, p: Password)
  {
    && Unheld(users, e) && u !in users && users' == users[u := User(e, p, false, None, 0)]
    && (forall x | x in users' && users'[x].deletedAt.None? && users'[x].email == e :: x == u)
  }

  /** The account has the password, one update later; no other account changes. */
  predicate SetsPassword(users: UserTable, users': UserTable, u: UserId, p: Password)
  {
    && users'.Keys == users.Keys
    && (forall x | x in users && x != u :: users'[x] == users[x])
    && (u in users ==> users'[u] == users[u].(password := p, epoch := users[u].epoch + 1))
  }

  /** The account was active and is deleted from now on; no other account changes. */
  predicate Deactivates(users: UserTable, users': UserTable, u: UserId, now: Time)
  {
    && u in users && users[u].deletedAt.None? && users'.Keys == users.Keys
    && (forall x | x in users && x != u :: users'[x] == users[x])
    && users'[u] == users[u].(deletedAt := Some(now))
  }

  /** There, unused and unexpired. */
  predicate Usable(rows: TokenTable, t: Token, now: Time)
  {
    t in rows && rows[t].usedAt.None? && now < rows[t].expires
  }

  /** The token is marked used now; no other row changes. */
  predicate Uses(rows: TokenTable, rows': TokenTable, t: Token, now: Time)
  {
    && Usable(rows, t, now) && rows'.Keys == rows.Keys
    && (forall x | x in rows && x != t :: rows'[x] == rows[x])
    && rows'[t] == rows[t].(usedAt := Some(now))
  }

  /** Why the token was not usable, and what is left: nothing changed, its family is gone, or its row is. */
  predicate Contains(rows: TokenTable, rows': TokenTable, t: Token, now: Time, e: Failure)
  {
    match e
    case UnknownToken => t !in rows && rows' == rows
    case ReuseDetected => t in rows && rows[t].usedAt.Some? && EndsFamily(rows, rows', t)
    case TokenExpired =>
      && t in rows && rows[t].usedAt.None? && rows[t].expires <= now
      && rows'.Keys == rows.Keys - {t} && forall x | x in rows' :: rows'[x] == rows[x]
    case _ => false
  }

  /** The token is used up and the successor stored in its family for its owner; no other row changes. */
  predicate Rotates(rows: TokenTable, rows': TokenTable, t: Token, n: Token, now: Time, life: Time)
  {
    && Usable(rows, t, now) && n !in rows && rows'.Keys == rows.Keys + {n}
    && (forall x | x in rows && x != t :: rows'[x] == rows[x])
    && rows'[t] == rows[t].(usedAt := Some(now))
    && rows'[n] == Row(rows[t].user, rows[t].family, None, now + life)
  }

  /** A new unused row, alone in being new. */
  predicate AddsRow(rows: TokenTable, rows': TokenTable, t: Token, u: UserId, f: FamilyId, expires: Time)
  {
    && t !in rows && rows'.Keys == rows.Keys + {t}
    && (forall x | x in rows :: rows'[x] == rows[x])
    && rows'[t].user == u && rows'[t].family == f && rows'[t].usedAt.None? && rows'[t].expires == expires
  }

  /** The family of the token is gone, and nothing else. */
  predicate EndsFamily(rows: TokenTable, rows': TokenTable, t: Token)
  {
    && (forall x | x in rows' :: x in rows && rows'[x] == rows[x])
    && (forall x | x in rows :: x in rows' <==> !(t in rows && rows[x].family == rows[t].family))
  }

  /** The rows of the account are gone, and nothing else. */
  predicate EndsSessions(rows: TokenTable, rows': TokenTable, u: UserId)
  {
    && (forall x | x in rows' :: x in rows && rows'[x] == rows[x])
    && (forall x | x in rows :: x in rows' <==> rows[x].user != u)
  }

  class AuthService {
    var users: UserTable
    var refreshTokens: TokenTable

    ghost predicate Valid()
      reads this
    {
      UniqueActiveEmails(users)
    }

    constructor ()
      ensures Valid() && users == map[] && refreshTokens == map[]
    {
      users, refreshTokens := map[], map[];
    }

    method FindByEmail(email: Email) returns (r: Option<UserId>)
      requires Valid()
      ensures r.Some? ==> EmailHolders(users, email) == {r.value}
      ensures r.None? ==> EmailHolders(users, email) == {}
      ensures r.None? <==> Unheld(users, email)
      ensures r.Some? ==> r.value in users && users[r.value].deletedAt.None? && users[r.value].email == email
      ensures r.Some? ==> forall x | x in users && users[x].deletedAt.None? && users[x].email == email :: x == r.value
    {
      var holders := EmailHolders(users, email);
      assert forall x | x in users && users[x].deletedAt.None? && users[x].email == email :: x in holders;
      if holders == {} { return None; }
      var u :| u in holders;
      assert forall v | v in holders :: v == u;
      r := Some(u);
    }

    /** Answers active accounts only; each is then the one holder of its address. */
    method FindById(id: UserId) returns (r: Option<User>)
      requires Valid()
      ensures r.Some? <==> id in users && users[id].deletedAt.None?
      ensures r.Some? ==> r.value == users[id]
      ensures r.Some? ==> forall x | x in users && users[x].deletedAt.None? && users[x].email == r.value.email ::
              x == id
    {
      r := if Active(users, id) then Some(users[id]) else None;
    }

    /** The pre-check and the INSERT under the partial unique index; `id` is a fresh UUID. */
    method CreateUser(id: UserId, email: Email, password: Password) returns (r: Result<UserId>)
      requires Valid() && id !in users
      modifies this`users
      ensures Valid()
      ensures r.Ok? <==> Unheld(old(users), email)
      ensures r.Ok? ==> r.value == id && Registers(old(users), users, id, email, password)
      ensures r.Err? ==> r.error == AddressTaken && users == old(users)
    {
      var existing := FindByEmail(email);
      if existing.Some? { return Err(AddressTaken); }
      FreeAddressTaken(users, id, User(email, password, false, None, 0));
      users := users[id := User(email, password, false, None, 0)];
      r := Ok(id);
    }

    method VerifyCredentials(email: Email, password: Password) returns (r: Result<UserId>)
      requires Valid()
      ensures r.Ok? <==> exists u :: HoldsCredentials(users, email, password, u)
      ensures r.Ok? ==> HoldsCredentials(users, email, password, r.value)
      ensures r.Err? ==> r.error == InvalidCredentials
    {
      var u := FindByEmail(email);
      if u.None? {
        assert forall v | HoldsCredentials(users, email, password, v) :: v in EmailHolders(users, email);
        return Err(InvalidCredentials);
      }
      assert forall v | HoldsCredentials(users, email, password, v) :: v in EmailHolders(users, email) && v == u.value;
      assert u.value in EmailHolders(users, email);
      if users[u.value].password != password { return Err(InvalidCredentials); }
      assert HoldsCredentials(users, email, password, u.value);
      r := Ok(u.value);
    }

    method UpdatePassword(id: UserId, password: Password)
      requires Valid()
      modifies this`users
      ensures Valid() && SetsPassword(old(users), users, id, password)
    {
      if id in users {
        users := users[id := users[id].(password := password, epoch := users[id].epoch + 1)];
        assert forall u | Active(users, u) :: Active(old(users), u) && old(users)[u].email == users[u].email;
      }
    }

    method StoreRefreshToken(user: UserId, token: Token, expires: Time, family: FamilyId) returns (r: Result<Token>)
      modifies this`refreshTokens
      ensures r.Err? ==> r.error == DuplicateToken && token in old(refreshTokens) && refreshTokens == old(refreshTokens)
      ensures r.Ok? ==> r.value == token && AddsRow(old(refreshTokens), refreshTokens, token, user, family, expires)
      ensures r.Ok? ==> refreshTokens[token].expires == expires
    {
      if token in refreshTokens { return Err(DuplicateToken); }
      refreshTokens := refreshTokens[token := Row(user, family, None, expires)];
      r := Ok(token);
    }

    /** Claim, or find out why not and contain: unknown, reused or expired. */
    method UseRefreshToken(token: Token, now: Time) returns (r: Result<Row>)
      modifies this`refreshTokens
      ensures (refreshTokens, r) == Consume(old(refreshTokens), token, now)
      ensures r.Ok? <==> Usable(old(refreshTokens), token, now)
      ensures r.Ok? ==> Uses(old(refreshTokens), refreshTokens, token, now) && r.value == refreshTokens[token]
      ensures r.Err? ==> Contains(old(refreshTokens), refreshTokens, token, now, r.error)
    {
      if Claimable(refreshTokens, token, now) {
        refreshTokens := MarkUsed(refreshTokens, token, now);
        return Ok(refreshTokens[token]);
      }
      if token !in refreshTokens { return Err(UnknownToken); }
      var row := refreshTokens[token];
      if row.usedAt.Some? {
        refreshTokens := DeleteFamily(refreshTokens, row.family);
        return Err(ReuseDetected);
      }
      refreshTokens := refreshTokens - {token};
      r := Err(TokenExpired);
    }

    method RevokeRefreshToken(token: Token)
      modifies this`refreshTokens
      ensures EndsFamily(old(refreshTokens), refreshTokens, token)
    {
      if token in refreshTokens {
        refreshTokens := DeleteFamily(refreshTokens, refreshTokens[token].family);
      }
    }

    method RevokeAllRefreshTokens(user: UserId)
      modifies this`refreshTokens
      ensures EndsSessions(old(refreshTokens), refreshTokens, user)
    {
      refreshTokens := DeleteUserRows(refreshTokens, user);
    }

    method DeleteExpiredRefreshTokens(now: Time) returns (removed: nat)
      modifies this`refreshTokens
      ensures refreshTokens == DeleteExpired(old(refreshTokens), now)
      ensures forall t | t in old(refreshTokens) :: t in refreshTokens <==> now <= old(refreshTokens)[t].expires
      ensures forall t | t in refreshTokens :: t in old(refreshTokens) && refreshTokens[t] == old(refreshTokens)[t]
      ensures removed + |refreshTokens| == |old(refreshTokens)|
    {
      var expired := set t | t in refreshTokens && refreshTokens[t].expires < now;
      var left := DeleteExpired(refreshTokens, now);
      assert left.Keys == refreshTokens.Keys - expired && expired <= refreshTokens.Keys;
      removed := |expired|;
      refreshTokens := left;
    }

    /** POST /auth/refresh; `successor` is the random token it mints if it gets that far. */
    method Refresh(token: Token, successor: Token, now: Time, life: Time) returns (r: Result<Token>)
      requires Valid() && successor !in refreshTokens
      modifies this`refreshTokens
      ensures (refreshTokens, r) == Refreshed(old(refreshTokens), users, token, successor, now, life)
      ensures r.Ok? ==> r.value == successor && Rotates(old(refreshTokens), refreshTokens, token, successor, now, life)
      ensures Usable(old(refreshTokens), token, now) ==>
                var u := old(refreshTokens)[token].user;
                && (r.Ok? <==> u in users && users[u].deletedAt.None?)
                && (r.Err? ==> r.error == AccountGone && Uses(old(refreshTokens), refreshTokens, token, now))
      ensures !Usable(old(refreshTokens), token, now) ==>
                r.Err? && Contains(old(refreshTokens), refreshTokens, token, now, r.error)
    {
      var used := UseRefreshToken(token, now);
      if used.Err? { return Err(used.error); }
      var user := FindById(used.value.user);
      if user.None? { return Err(AccountGone); }
      ghost var consumed := refreshTokens;
      r := StoreRefreshToken(used.value.user, successor, now + life, used.value.family);
      assert refreshTokens == consumed[successor := Row(used.value.user, used.value.family, None, now + life)];
    }

    /** UserService.remove: mark the row, then revoke every session. */
    method Remove(id: UserId, now: Time) returns (found: bool)
      requires Valid()
      modifies this
      ensures Valid()
      ensures found <==> id in old(users) && old(users)[id].deletedAt.None?
      ensures !found ==> users == old(users) && refreshTokens == old(refreshTokens)
      ensures found ==> Deactivates(old(users), users, id, now) && EndsSessions(old(refreshTokens), refreshTokens, id)
    {
      if !Active(users, id) { return false; }
      users := users[id := users[id].(deletedAt := Some(now))];
      assert forall u | Active(users, u) :: Active(old(users), u) && old(users)[u].email == users[u].email;
      refreshTokens := DeleteUserRows(refreshTokens, id);
      found := true;
    }
  }
}
