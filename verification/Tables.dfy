/**
 The two Postgres tables behind authentication and the single statements that read or
 change them. A statement is atomic; everything longer is built from these in
 `AuthService` (one request at a time) and in `Rotation` (requests interleaved).

 Tokens stand for their SHA-256 digests (taken to be injective), so the unique `token`
 column makes the table a map.
 */
module Tables {
  import opened Base

  type UserId = nat
  type Token = nat
  type FamilyId = nat
  type Email = string
  type Password = string

  datatype Row = Row(user: UserId, family: FamilyId, usedAt: Option<Time>, expires: Time)

  type TokenTable = map<Token, Row>

  /** `epoch` counts the password updates of the account; the source does not store it. */
  datatype User = User(email: Email, password: Password, mfa: bool, deletedAt: Option<Time>, epoch: nat)

  type UserTable = map<UserId, User>

  /** The WHERE clause of the claiming UPDATE. */
  predicate Claimable(rows: TokenTable, t: Token, now: Time)
  {
    t in rows && rows[t].usedAt.None? && now < rows[t].expires
  }

  function MarkUsed(rows: TokenTable, t: Token, now: Time): TokenTable
    requires t in rows
  {
    rows[t := rows[t].(usedAt := Some(now))]
  }

  function DeleteFamily(rows: TokenTable, f: FamilyId): TokenTable
  {
    map t | t in rows && rows[t].family != f :: rows[t]
  }

  function DeleteUserRows(rows: TokenTable, u: UserId): TokenTable
  {
    map t | t in rows && rows[t].user != u :: rows[t]
  }

  function DeleteExpired(rows: TokenTable, at: Time): TokenTable
  {
    map t | t in rows && at <= rows[t].expires :: rows[t]
  }

  /** `notDeleted` for a given id. */
  predicate Active(users: UserTable, u: UserId)
  {
    u in users && users[u].deletedAt.None?
  }

  predicate HoldsEmail(users: UserTable, e: Email, u: UserId)
  {
    Active(users, u) && users[u].email == e
  }

  function EmailHolders(users: UserTable, e: Email): set<UserId>
  {
    set u | u in users && HoldsEmail(users, e, u)
  }

  /** The partial unique index `users_email_active_unique`. */
  ghost predicate UniqueActiveEmails(users: UserTable)
  {
    forall u, v | Active(users, u) && Active(users, v) && users[u].email == users[v].email :: u == v
  }

  /** SELECT by email among active accounts, LIMIT 1. */
  ghost function FindByEmail(users: UserTable, e: Email): (r: Option<UserId>)
    ensures r.None? <==> EmailHolders(users, e) == {}
    ensures r.Some? ==> HoldsEmail(users, e, r.value)
  {
    if EmailHolders(users, e) == {} then None
    else var u :| u in EmailHolders(users, e); Some(u)
  }

  /** Inserting an account under a free address makes it the only holder. */
  lemma FreeAddressTaken(users: UserTable, id: UserId, user: User)
    requires UniqueActiveEmails(users) && EmailHolders(users, user.email) == {} && id !in users && user.deletedAt.None?
    ensures UniqueActiveEmails(users[id := user]) && EmailHolders(users[id := user], user.email) == {id}
  {
    var users' := users[id := user];
    forall u | HoldsEmail(users', user.email, u) ensures u == id
    {
      assert u != id ==> u in EmailHolders(users, user.email);
    }
    forall u, v | Active(users', u) && Active(users', v) && users'[u].email == users'[v].email ensures u == v
    {
      assert HoldsEmail(users', user.email, id);
      if users'[u].email == user.email {
        assert HoldsEmail(users', user.email, u) && HoldsEmail(users', user.email, v);
      }
      else { assert Active(users, u) && Active(users, v); }
    }
  }
}
