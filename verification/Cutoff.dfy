/**
 What a password reset leaves of the authority that was obtained under older passwords:
 the exact condition under which it can still yield a token, how long challenges keep that
 open, and a run in which one does.
 */
module Cutoff {
  import opened Base
  import opened Tables
  import opened Rotation
  import opened RotationInvariant
  import opened RotationClaims
  import opened FamilyLife
  import opened Accounts
  import opened Authority
  import opened Outrun

  ghost predicate StaleRow(s: State, u: UserId, v: nat)
  {
    exists t :: t in s.rows && StaleFamily(s, s.rows[t].family, u, v)
  }

  /** A request past its claim, or a checked login, may still store a token on older authority. */
  ghost predicate StaleHolder(s: State, u: UserId, v: nat)
  {
    || (exists f :: StaleFamily(s, f, u, v) && CanStillStore(s, f))
    || (exists r :: r in s.reqs && StaleRequest(s.reqs[r], u, v))
  }

  /** A challenge of that age can be answered, or is about to be granted. */
  ghost predicate StaleChance(s: State, u: UserId, v: nat)
  {
    && Active(s.users, u)
    && (|| (exists r :: r in s.reqs && StaleGrant(s.reqs[r], u, v))
        || (exists c :: StaleOpen(s, c, u, v)))
  }

  ghost predicate StaleInFlight(s: State, u: UserId, v: nat)
  {
    StaleHolder(s, u, v) || StaleChance(s, u, v)
  }

  /** Older authority is spent for good. */
  ghost predicate Spent(s: State, u: UserId, v: nat)
  {
    && u in s.users && v <= s.users[u].epoch
    && (forall f {:trigger StaleFamily(s, f, u, v)} | StaleFamily(s, f, u, v) :: Stuck(s, f))
    && (forall r {:trigger s.reqs[r]} | r in s.reqs :: !StaleRequest(s.reqs[r], u, v))
    && (forall r {:trigger s.reqs[r]} | r in s.reqs && StaleGrant(s.reqs[r], u, v) :: s.users[u].deletedAt.Some?)
    && (forall c {:trigger StaleOpen(s, c, u, v)} | StaleOpen(s, c, u, v) :: s.users[u].deletedAt.Some?)
  }

  lemma SpentStep(s: State, e: Event, u: UserId, v: nat)
    requires Good(s) && Enabled(s, e) && Spent(s, u, v)
    ensures Spent(Next(s, e), u, v)
  {
    var s' := Next(s, e);
    StepLater(s, e);
    StepAges(s, e);
    forall f | StaleFamily(s', f, u, v) ensures Stuck(s', f)
    {
      StuckStill(s, e, u, v, f);
    }
    forall x | x in s'.reqs
      ensures !StaleRequest(s'.reqs[x], u, v)
      ensures StaleGrant(s'.reqs[x], u, v) ==> s.users[u].deletedAt.Some?
    {
      NoStaleLogin(s, e, x, u, v);
    }
    forall c | StaleOpen(s', c, u, v) ensures s.users[u].deletedAt.Some?
    {
      NoStaleChance(s, e, u, v, c);
    }
  }

  lemma StuckStill(s: State, e: Event, u: UserId, v: nat, f: FamilyId)
    requires Good(s) && Enabled(s, e) && Spent(s, u, v) && LedgerGrows(s.h, Next(s, e).h) &&
             StaleFamily(Next(s, e), f, u, v)
    ensures Stuck(Next(s, e), f)
  {
    if f in s.h.fams {
      assert StaleFamily(s, f, u, v);
      StuckStep(s, e, f);
    } else {
      FamiliesCome(s, e, f);
      assert StaleRequest(s.reqs[e.r], u, v);
    }
  }

  lemma NoStaleLogin(s: State, e: Event, x: ReqId, u: UserId, v: nat)
    requires Enabled(s, e) && Spent(s, u, v) && x in Next(s, e).reqs
    ensures !StaleRequest(Next(s, e).reqs[x], u, v)
    ensures StaleGrant(Next(s, e).reqs[x], u, v) ==> s.users[u].deletedAt.Some?
  {
    var q' := Next(s, e).reqs[x];
    if e.Exec? && e.r == x {
      NoStaleGrant(s, x, e.n, q', u, v);
      if StaleRequest(q', u, v) {
        StaleComes(s, x, e.n, q', u, v);
        CheckedBefore(s, x, e.n, q', u);
      }
    }
  }

  lemma NoStaleChance(s: State, e: Event, u: UserId, v: nat, c: nat)
    requires Enabled(s, e) && Spent(s, u, v) && ChallengesAge(s.challenges, Next(s, e).challenges) &&
             s.now <= Next(s, e).now
    requires StaleOpen(Next(s, e), c, u, v)
    ensures s.users[u].deletedAt.Some?
  {
    if c in s.challenges {
      assert StaleOpen(s, c, u, v);
    } else {
      ChallengesCome(s, e, c);
      assert StaleGrant(s.reqs[e.r], u, v);
    }
  }

  lemma SpentEvent(tr: Trace, i: nat, u: UserId, v: nat)
    requires Sound(tr) && i < |tr.events| && Spent(tr.states[i], u, v)
    ensures Spent(tr.states[i + 1], u, v)
  {
    SoundGood(tr, i);
    assert Happens(tr, i);
    SpentStep(tr.states[i], tr.events[i], u, v);
  }

  lemma {:induction false} SpentStays(tr: Trace, i: nat, u: UserId, v: nat)
    requires Sound(tr) && i < |tr.states| && Spent(tr.states[0], u, v)
    ensures Spent(tr.states[i], u, v)
  {
    if i > 0 {
      SpentStays(tr, i - 1, u, v);
      SpentEvent(tr, i - 1, u, v);
    }
  }

  lemma NothingInFlightIsSpent(s: State, u: UserId, v: nat)
    requires Good(s) && u in s.users && v <= s.users[u].epoch && !StaleRow(s, u, v) && !StaleInFlight(s, u, v)
    ensures Spent(s, u, v)
  {
    forall f | StaleFamily(s, f, u, v) ensures Stuck(s, f)
    {
      assert NoRows(s.rows, f);
      UnstorableIsStuck(s, f);
    }
  }

  lemma SpentHasNoRow(s: State, u: UserId, v: nat)
    requires Spent(s, u, v)
    ensures !StaleRow(s, u, v)
  {
    forall t | t in s.rows ensures !StaleFamily(s, s.rows[t].family, u, v) {}
  }

  // --- Each of these yields a token if left to run ---

  /** The family a baton belongs to gets its token. */
  lemma BatonYields(s: State, f: FamilyId, u: UserId, v: nat) returns (tr: Trace)
    requires Good(s) && StaleFamily(s, f, u, v) && CanStillStore(s, f)
    ensures Legal(tr) && tr.states[0] == s && StaleRow(Last(tr), u, v)
  {
    var r :| r in s.reqs && MayStore(s, s.reqs[r], f);
    tr := Revive(s, r, f);
    RunLater(tr, 0, |tr.states| - 1);
    var t :| t in Last(tr).rows && Last(tr).rows[t].family == f;
    assert StaleFamily(Last(tr), f, u, v);
  }

  lemma LoginYields(s: State, r: ReqId, u: UserId, v: nat) returns (tr: Trace)
    requires Good(s) && r in s.reqs && StaleRequest(s.reqs[r], u, v)
    ensures Legal(tr) && tr.states[0] == s && StaleRow(Last(tr), u, v)
  {
    var n := FreshBeyond(s.h.fams.Keys);
    var e := Exec(r, n);
    NextGood(s, e);
    var s' := Next(s, e);
    assert s' == StartFamily(s, r, s.reqs[r], n) && StaleFamily(s', n, u, v) && MayStore(s', s'.reqs[r], n);
    tr := BatonYields(s', n, u, v);
    tr := Prepend(s, e, tr);
  }

  /** With 2FA on, a good code for the challenge authenticates a request on its authority. */
  lemma AnswerYields(s: State, r: ReqId, c: nat, u: UserId, v: nat) returns (tr: Trace)
    requires Good(s) && r in s.reqs && s.reqs[r] == CodeAsked(c)
    requires StaleOpen(s, c, u, v) && Active(s.users, u) && s.users[u].mfa
    ensures Legal(tr) && tr.states[0] == s && StaleRow(Last(tr), u, v)
  {
    var e := Exec(r, 1);
    NextGood(s, e);
    assert Next(s, e) == AnswerChallenge(s, r, c, 1);
    tr := LoginYields(Next(s, e), r, u, v);
    tr := Prepend(s, e, tr);
  }

  lemma ChallengeYields(s: State, c: nat, u: UserId, v: nat) returns (tr: Trace)
    requires Good(s) && StaleOpen(s, c, u, v) && Active(s.users, u)
    ensures Legal(tr) && tr.states[0] == s && StaleRow(Last(tr), u, v)
  {
    var r := FreshBeyond(s.reqs.Keys);
    var on, ask := SetMfa(u, true), Arrive(r, CodeAsked(c));
    NextGood(s, on);
    var s1 := Next(s, on);
    NextGood(s1, ask);
    tr := AnswerYields(Next(s1, ask), r, c, u, v);
    tr := Prepend(s1, ask, tr);
    tr := Prepend(s, on, tr);
  }

  lemma GrantYields(s: State, r: ReqId, u: UserId, v: nat) returns (tr: Trace)
    requires Good(s) && r in s.reqs && StaleGrant(s.reqs[r], u, v) && Active(s.users, u)
    ensures Legal(tr) && tr.states[0] == s && StaleRow(Last(tr), u, v)
  {
    var c := FreshBeyond(s.challenges.Keys);
    var e := Exec(r, c);
    NextGood(s, e);
    assert Next(s, e) == Grant(s, r, s.reqs[r], c);
    tr := ChallengeYields(Next(s, e), c, u, v);
    tr := Prepend(s, e, tr);
  }

  lemma HolderYields(s: State, u: UserId, v: nat) returns (tr: Trace)
    requires Good(s) && StaleHolder(s, u, v)
    ensures Legal(tr) && tr.states[0] == s && StaleRow(Last(tr), u, v)
  {
    if f :| StaleFamily(s, f, u, v) && CanStillStore(s, f) {
      tr := BatonYields(s, f, u, v);
    } else {
      var r :| r in s.reqs && StaleRequest(s.reqs[r], u, v);
      tr := LoginYields(s, r, u, v);
    }
  }

  lemma ChanceYields(s: State, u: UserId, v: nat) returns (tr: Trace)
    requires Good(s) && StaleChance(s, u, v)
    ensures Legal(tr) && tr.states[0] == s && StaleRow(Last(tr), u, v)
  {
    if r :| r in s.reqs && StaleGrant(s.reqs[r], u, v) {
      tr := GrantYields(s, r, u, v);
    } else {
      var c :| StaleOpen(s, c, u, v);
      tr := ChallengeYields(s, c, u, v);
    }
  }

  // --- The exact conditions ---

  /** Some continuation of the state has a row on authority older than the `v`-th password. */
  ghost predicate Returns(s: State, u: UserId, v: nat)
  {
    exists tr :: Legal(tr) && tr.states[0] == s && StaleRow(Last(tr), u, v)
  }

  /**
   Authority older than the `v`-th password can have a row again if and only if it has one, or
   one of these is in flight: a request past its claim, a checked login, or, for an active
   account, an open challenge or a login about to get one.
   */
  lemma OldAuthorityIsSpentIff(s: State, u: UserId, v: nat)
    requires Good(s) && u in s.users && v <= s.users[u].epoch
    ensures Returns(s, u, v) <==> StaleRow(s, u, v) || StaleInFlight(s, u, v)
  {
    if StaleRow(s, u, v) {
      var tr := Trace([s], []);
      assert Legal(tr) && Last(tr) == s;
    } else if StaleHolder(s, u, v) {
      var tr := HolderYields(s, u, v);
    } else if StaleChance(s, u, v) {
      var tr := ChanceYields(s, u, v);
    } else {
      NothingInFlightIsSpent(s, u, v);
      forall tr | Legal(tr) && tr.states[0] == s ensures !StaleRow(Last(tr), u, v)
      {
        SpentStays(tr, |tr.states| - 1, u, v);
        SpentHasNoRow(Last(tr), u, v);
      }
    }
  }

  /** So a reset's revocation is final exactly when nothing of the kind is in flight as it runs. */
  lemma ResetIsFinalIff(s: State, r: ReqId, n: nat, u: UserId)
    requires Good(s) && r in s.reqs && s.reqs[r] == Revoking(u, PasswordChanged) && u in s.users &&
             Enabled(s, Exec(r, n))
    ensures var s', v := Next(s, Exec(r, n)), s.users[u].epoch;
            && (forall t | t in s'.rows :: s'.rows[t].user != u)
            && (Returns(s', u, v) <==> StaleInFlight(s, u, v))
  {
    var s', v := Next(s, Exec(r, n)), s.users[u].epoch;
    NextGood(s, Exec(r, n));
    assert s' == DeleteRows(s, r, DeleteUserRows(s.rows, u), PasswordChanged);
    RevocationKeepsFlight(s, s', r, u, v);
    OldAuthorityIsSpentIff(s', u, v);
  }

  lemma RevocationKeepsFlight(s: State, s': State, r: ReqId, u: UserId, v: nat)
    requires Inv(s) && r in s.reqs && s.reqs[r].Revoking? &&
             s' == DeleteRows(s, r, DeleteUserRows(s.rows, u), PasswordChanged)
    ensures !StaleRow(s', u, v)
    ensures StaleInFlight(s', u, v) <==> StaleInFlight(s, u, v)
  {
    forall t | t in s'.rows ensures !StaleFamily(s', s'.rows[t].family, u, v)
    {
      assert t in s.rows;
    }
    forall f ensures CanStillStore(s, f) <==> CanStillStore(s', f)
    {
      if CanStillStore(s, f) {
        var x :| x in s.reqs && MayStore(s, s.reqs[x], f);
        assert x != r && MayStore(s', s'.reqs[x], f);
      }
      if CanStillStore(s', f) {
        var x :| x in s'.reqs && MayStore(s', s'.reqs[x], f);
        assert x != r && MayStore(s, s.reqs[x], f);
      }
    }
    assert forall f :: StaleFamily(s, f, u, v) <==> StaleFamily(s', f, u, v);
    assert StaleHolder(s', u, v) <==> StaleHolder(s, u, v) by {
      if x :| x in s.reqs && StaleRequest(s.reqs[x], u, v) { assert x != r && s'.reqs[x] == s.reqs[x]; }
      if x :| x in s'.reqs && StaleRequest(s'.reqs[x], u, v) { assert x != r && s'.reqs[x] == s.reqs[x]; }
    }
    assert forall c :: StaleOpen(s, c, u, v) <==> StaleOpen(s', c, u, v);
    assert StaleChance(s', u, v) <==> StaleChance(s, u, v) by {
      if x :| x in s.reqs && StaleGrant(s.reqs[x], u, v) { assert x != r && s'.reqs[x] == s.reqs[x]; }
      if x :| x in s'.reqs && StaleGrant(s'.reqs[x], u, v) { assert x != r && s'.reqs[x] == s.reqs[x]; }
    }
  }

  /**
   Challenges keep a reset open for five minutes and no longer: that long after a state in
   which no login of the older age is about to get one, older authority can have a row again
   if and only if it has one or a request past its claim or a checked login holds it.
   */
  lemma FiveMinutesLater(tr: Trace, i: nat, k: nat, u: UserId, v: nat)
    requires Reached(tr) && i <= k < |tr.states| && u in tr.states[i].users && v <= tr.states[i].users[u].epoch
    requires forall x | x in tr.states[i].reqs :: !StaleGrant(tr.states[i].reqs[x], u, v)
    requires tr.states[i].now + CHALLENGE_LIFE <= tr.states[k].now
    ensures Returns(tr.states[k], u, v) <==> StaleRow(tr.states[k], u, v) || StaleHolder(tr.states[k], u, v)
  {
    ReachedSound(tr);
    SoundGood(tr, k);
    StaleRun(tr, i, k, u, v);
    forall c ensures !StaleOpen(tr.states[k], c, u, v) { ChallengesRunOut(tr, i, k, u, v, c); }
    forall x | x in tr.states[k].reqs ensures !StaleGrant(tr.states[k].reqs[x], u, v) {}
    OldAuthorityIsSpentIff(tr.states[k], u, v);
  }

  // --- A run in which a challenge outlives a reset ---

  /** Account 0 turns 2FA on and request 2 gets challenge 0 for its password. */
  lemma OneChallenge() returns (tr: Trace)
    ensures Reached(tr)
    ensures var s := Last(tr);
            && s.now == 0 && s.life == LIFE && s.rows == map[] && s.h.fams == map[] && s.h.minted == map[] &&
               s.h.presented == {}
            && s.reqs == map[1 := Authenticated(0, 0), 2 := Finished(ChallengeSent)]
            && s.challenges == map[0 := Challenge(0, 0, CHALLENGE_LIFE, 0, 2, None)]
            && Active(s.users, 0) && s.users[0].mfa && s.users[0].epoch == 0
  {
    tr := OneAccount();
    var s := Last(tr);
    tr := Extend(tr, SetMfa(0, true));
    tr := Extend(tr, Arrive(2, LoginAsked(s.users[0].email, s.users[0].password)));
    OnlyHolder(Last(tr).users, s.users[0].email, 0);
    tr := Extend(tr, Exec(2, 0));
    tr := Extend(tr, Exec(2, 0));
  }

  lemma OnlyHolder(users: UserTable, e: Email, u: UserId)
    requires users.Keys == {u} && HoldsEmail(users, e, u)
    ensures FindByEmail(users, e) == Some(u)
  {
    assert u in EmailHolders(users, e);
  }

  /** Request 3 writes a new password for account 0. */
  lemma NewPassword() returns (tr: Trace)
    ensures Reached(tr)
    ensures var s := Last(tr);
            && s.now == 0 && s.life == LIFE && s.rows == map[] && s.h.fams == map[] && s.h.minted == map[] &&
               s.h.presented == {}
            && s.reqs.Keys == {1, 2, 3} && s.reqs[3] == Revoking(0, PasswordChanged)
            && s.challenges == map[0 := Challenge(0, 0, CHALLENGE_LIFE, 0, 2, None)]
            && Active(s.users, 0) && s.users[0].mfa && s.users[0].epoch == 1
  {
    tr := OneChallenge();
    tr := Extend(tr, Arrive(3, ResetAsked(0, "new")));
    tr := Extend(tr, Exec(3, 0));
  }

  /** It revokes the sessions. */
  lemma ChallengeThenReset() returns (tr: Trace, i: nat)
    ensures Reached(tr) && i + 1 == |tr.events| && tr.events[i] == Exec(3, 0)
    ensures 3 in tr.states[i].reqs && tr.states[i].reqs[3] == Revoking(0, PasswordChanged)
    ensures var s := Last(tr);
            && s.now == 0 && s.life == LIFE && s.rows == map[] && s.h.fams == map[] && s.h.minted == map[] &&
               s.h.presented == {}
            && s.reqs.Keys == {1, 2, 3} && s.challenges == map[0 := Challenge(0, 0, CHALLENGE_LIFE, 0, 2, None)]
            && Active(s.users, 0) && s.users[0].mfa && s.users[0].epoch == 1
  {
    var before := NewPassword();
    i := |before.events|;
    tr := Extend(before, Exec(3, 0));
    assert tr.states[i] == before.states[i];
  }

  /** `d` later, request 4 answers the challenge with a good code. */
  lemma ChallengeAnswered(d: Time) returns (tr: Trace, i: nat)
    requires d < CHALLENGE_LIFE
    ensures Reached(tr) && i < |tr.events| && i + 1 < |tr.states| && tr.events[i] == Exec(3, 0) &&
            tr.states[i + 1].now == 0
    ensures 3 in tr.states[i].reqs && tr.states[i].reqs[3] == Revoking(0, PasswordChanged) &&
            tr.states[i + 1].rows == map[]
    ensures var s := Last(tr);
            && s.now == d && s.life == LIFE && s.rows == map[] && s.h.fams == map[] && s.h.minted == map[] &&
               s.h.presented == {}
            && 4 in s.reqs && s.reqs[4] == Authenticated(0, 0) && 0 in s.users && s.users[0].epoch == 1
  {
    var reset, late, asked;
    reset, i := ChallengeThenReset();
    late := Extend(reset, Tick(d));
    asked := Extend(late, Arrive(4, CodeAsked(0)));
    tr := Extend(asked, Exec(4, 1));
    forall k | 0 <= k <= i + 1 ensures tr.states[k] == reset.states[k]
    {
      assert tr.states[k] == asked.states[k] && asked.states[k] == late.states[k] && late.states[k] == reset.states[k];
    }
  }

  /** A request that roots family 0 on authority 0 of account 0, left to run, stores a token of it. */
  lemma LoginFinishes(before: Trace) returns (tr: Trace)
    requires Reached(before) && before.states != []
    requires var s := Last(before);
             && s.h.minted == map[] && s.h.presented == {} && 0 in s.h.fams && s.h.fams[0] == Lineage(0, 0, 4, [])
             && 4 in s.reqs && s.reqs[4] == Issuing(0, 0, None) && 0 in s.users && s.users[0].epoch == 1
    ensures Reached(tr) && before.states <= tr.states && before.events <= tr.events && Last(tr).now == Last(before).now
    ensures var s := Last(tr); 0 in s.users && s.users[0].epoch == 1 && StaleRow(s, 0, 1)
  {
    tr := Extend(before, Exec(4, 0));
    tr := Extend(tr, Exec(4, 0));
    assert StaleFamily(Last(tr), 0, 0, 1) && 0 in Last(tr).rows && Last(tr).rows[0].family == 0;
  }

  /**
   A reset deletes tokens, not challenges: at any moment within five minutes of its
   revocation a challenge granted for the old password can still be answered for a token.
   */
  lemma ResetCanBeOutlived(d: Time) returns (tr: Trace, i: nat)
    requires d < CHALLENGE_LIFE
    ensures Reached(tr) && i < |tr.events| && i + 1 < |tr.states| && tr.events[i] == Exec(3, 0)
    ensures 3 in tr.states[i].reqs && tr.states[i].reqs[3] == Revoking(0, PasswordChanged) &&
            tr.states[i + 1].rows == map[]
    ensures tr.states[i + 1].now == 0 && Last(tr).now == d
    ensures var s := Last(tr); 0 in s.users && s.users[0].epoch == 1 && StaleRow(s, 0, 1)
  {
    var answered;
    answered, i := ChallengeAnswered(d);
    tr := Extend(answered, Exec(4, 0));
    tr := LoginFinishes(tr);
    assert tr.states[i] == answered.states[i] && tr.states[i + 1] == answered.states[i + 1];
  }
}
