/** The two services that run on tickets: e-mail verification and password reset. */
module TicketServices {
  import opened Base
  import opened RedisStore
  import opened Keys
  import opened Tickets
  import opened Tables
  import opened Auth

  // What single calls mean, in terms of what reads of the keys give.

  /**
   For its lifetime the code reads as sent and its counter as 0, for a minute the cooldown
   reads; no other key changes.
   */
  ghost predicate Issues(svc: Service, earlier: Store<Key>, later: Store<Key>, now: Time, u: string, code: string)
  {
    var life := if svc.Verification? then 600_000 else 900_000;
    && (forall t: Time :: Get(later, CodeKey(svc, u), t) == if t < now + life then Some(Text(code)) else None)
    && (forall t: Time :: Get(later, AttemptsKey(svc, u), t) == if t < now + life then Some(Number(0)) else None)
    && (forall t: Time :: Get(later, CooldownKey(svc, u), t).Some? <==> t < now + 60_000)
    && (forall k, t: Time | k != CodeKey(svc, u) && k != AttemptsKey(svc, u) && k != CooldownKey(svc, u) ::
          Get(later, k, t) == Get(earlier, k, t))
  }

  /** Only the user's code and counter are touched: the code goes when used or overtried, and each try counts. */
  ghost predicate Tried(svc: Service, earlier: Store<Key>, later: Store<Key>, now: Time, u: string, v: Verdict)
  {
    && (v == Absent ==> later == earlier)
    && (v == TooMany || v == Right ==> CodeKey(svc, u) !in later)
    && (v == Right ==> AttemptsKey(svc, u) !in later)
    && (v == Wrong ==>
        (CodeKey(svc, u) in earlier && CodeKey(svc, u) in later && later[CodeKey(svc, u)] == earlier[CodeKey(svc, u)]))
    && (v == Wrong ==> var count := Get(earlier, AttemptsKey(svc, u), now);
          && Get(later, AttemptsKey(svc, u), now)
             == Some(Number((if count.Some? && count.value.Number? then count.value.n else 0) + 1))
          && (count.Some? ==> later[AttemptsKey(svc, u)].expiry == earlier[AttemptsKey(svc, u)].expiry))
    && (forall k | k != CodeKey(svc, u) && k != AttemptsKey(svc, u) ::
          (k in later <==> k in earlier) && (k in earlier ==> later[k] == earlier[k]))
  }

  /** otp.service.ts; a refusal to send is the thrown "a code was just sent". */
  class OtpService {
    const cache: Redis<Key>

    constructor (cache: Redis<Key>)
      ensures this.cache == cache
    {
      this.cache := cache;
    }

    method Issue(userId: string, code: string) returns (sent: bool)
      requires WellTyped(cache.store)
      modifies cache`store
      ensures WellTyped(cache.store)
      ensures (cache.store, sent) == IssueOn(Verification, old(cache.store), cache.now, userId, code)
      ensures sent <==> Get(old(cache.store), CooldownKey(Verification, userId), cache.now).None?
      ensures sent ==> Issues(Verification, old(cache.store), cache.store, cache.now, userId, code)
      ensures !sent ==> cache.store == old(cache.store)
    {
      var cooling := cache.Exists(CooldownKey(Verification, userId));
      if cooling { return false; }
      cache.Set(CodeKey(Verification, userId), Text(code), 10 * 60);
      cache.Set(AttemptsKey(Verification, userId), Number(0), 10 * 60);
      cache.Set(CooldownKey(Verification, userId), Number(1), 60);
      sent := true;
    }

    method Verify(userId: string, code: string) returns (v: Verdict)
      requires WellTyped(cache.store)
      modifies cache`store
      ensures WellTyped(cache.store)
      ensures (cache.store, v) == VerifyOn(Verification, old(cache.store), cache.now, userId, code)
      ensures var stored, tries := Get(old(cache.store), CodeKey(Verification, userId), cache.now),
                                   Count(old(cache.store), AttemptsKey(Verification, userId), cache.now);
              && (v == Absent <==> stored.None?) && (v == TooMany <==> stored.Some? && tries >= 5)
              && (v == Right <==> stored == Some(Text(code)) && tries < 5)
      ensures Tried(Verification, old(cache.store), cache.store, cache.now, userId, v)
    {
      v := Redeem(cache, Verification, userId, code);
    }
  }

  /** GET the code, INCR the counter, compare, DEL: the sequence both services share. */
  method Redeem(cache: Redis<Key>, svc: Service, userId: string, code: string) returns (v: Verdict)
    requires WellTyped(cache.store)
    modifies cache`store
    ensures WellTyped(cache.store)
    ensures (cache.store, v) == VerifyOn(svc, old(cache.store), cache.now, userId, code)
    ensures var stored, tries := Get(old(cache.store), CodeKey(svc, userId), cache.now),
                                 Count(old(cache.store), AttemptsKey(svc, userId), cache.now);
            && (v == Absent <==> stored.None?) && (v == TooMany <==> stored.Some? && tries >= 5)
            && (v == Right <==> stored == Some(Text(code)) && tries < 5)
    ensures Tried(svc, old(cache.store), cache.store, cache.now, userId, v)
  {
    var stored := cache.Read(CodeKey(svc, userId));
    if stored.None? { return Absent; }
    var attempts := cache.Increment(AttemptsKey(svc, userId));
    if attempts > 5 {
      cache.Del(CodeKey(svc, userId));
      return TooMany;
    }
    if Text(code) != stored.value { return Wrong; }
    cache.Del(CodeKey(svc, userId));
    cache.Del(AttemptsKey(svc, userId));
    v := Right;
  }

  datatype ResetAnswer = PasswordSet | InvalidOrExpired | TooManyAttempts

  class PasswordResetService {
    const cache: Redis<Key>
    const auth: AuthService
    const name: UserId -> string       // the UUID of an account

    constructor (cache: Redis<Key>, auth: AuthService, name: UserId -> string)
      ensures this.cache == cache && this.auth == auth && this.name == name
    {
      this.cache, this.auth, this.name := cache, auth, name;
    }

    /** A code goes out only to an account, outside its cooldown; the caller is told nothing either way. */
    method Request(email: Email, code: string) returns (ghost mailed: bool)
      requires WellTyped(cache.store) && auth.Valid()
      modifies cache`store
      ensures WellTyped(cache.store)
      ensures Unheld(auth.users, email) ==> cache.store == old(cache.store) && !mailed
      ensures forall u | u in auth.users && auth.users[u].deletedAt.None? && auth.users[u].email == email ::
                && (cache.store, mailed) == IssueOn(PasswordReset, old(cache.store), cache.now, name(u), code)
                && (mailed <==> Get(old(cache.store), CooldownKey(PasswordReset, name(u)), cache.now).None?)
                && (mailed ==> Issues(PasswordReset, old(cache.store), cache.store, cache.now, name(u), code))
                && (!mailed ==> cache.store == old(cache.store))
    {
      mailed := false;
      var user := auth.FindByEmail(email);
      assert forall u | HoldsEmail(auth.users, email, u) :: u in EmailHolders(auth.users, email);
      if user.None? { return; }
      var id := name(user.value);
      var cooling := cache.Exists(CooldownKey(PasswordReset, id));
      if cooling { return; }
      cache.Set(CodeKey(PasswordReset, id), Text(code), 15 * 60);
      cache.Set(AttemptsKey(PasswordReset, id), Number(0), 15 * 60);
      cache.Set(CooldownKey(PasswordReset, id), Number(1), 60);
      mailed := true;
    }

    /**
     Only the right code changes the account; then the password is new and no session is
     left. Missing account, wrong code and expired code are answered alike.
     */
    method Reset(email: Email, code: string, password: Password)
      returns (r: ResetAnswer, ghost u: Option<UserId>, ghost v: Verdict)
      requires WellTyped(cache.store) && auth.Valid()
      modifies cache`store, auth`users, auth`refreshTokens
      ensures WellTyped(cache.store) && auth.Valid()
      ensures u.None? <==> Unheld(old(auth.users), email)
      ensures u.Some? ==> var a := u.value;
              a in old(auth.users) && old(auth.users)[a].deletedAt.None? && old(auth.users)[a].email == email
      ensures u.None? ==> r == InvalidOrExpired && cache.store == old(cache.store)
      ensures u.Some? ==>
                var id, now := name(u.value), cache.now;
                var stored, tries := Get(old(cache.store), CodeKey(PasswordReset, id), now),
                    Count(old(cache.store), AttemptsKey(PasswordReset, id), now);
                && (r == PasswordSet <==> stored == Some(Text(code)) && tries < 5)
                && (r == TooManyAttempts <==> stored.Some? && tries >= 5)
                && (cache.store, v) == VerifyOn(PasswordReset, old(cache.store), now, id, code)
                && Tried(PasswordReset, old(cache.store), cache.store, now, id, v)
      ensures r != PasswordSet ==> auth.users == old(auth.users) && auth.refreshTokens == old(auth.refreshTokens)
      ensures r == PasswordSet ==>
                && SetsPassword(old(auth.users), auth.users, u.value, password)
                && EndsSessions(old(auth.refreshTokens), auth.refreshTokens, u.value)
    {
      v := Absent;
      var user := auth.FindByEmail(email);
      u := user;
      if user.None? { return InvalidOrExpired, u, v; }
      assert user.value in EmailHolders(auth.users, email);
      var verdict := Redeem(cache, PasswordReset, name(user.value), code);
      v := verdict;
      if verdict == TooMany { return TooManyAttempts, u, v; }
      if verdict != Right { return InvalidOrExpired, u, v; }
      auth.UpdatePassword(user.value, password);
      auth.RevokeAllRefreshTokens(user.value);
      r := PasswordSet;
    }
  }
}
