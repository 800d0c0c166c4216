/**
 A request of the interleaved protocol that runs with nothing in between: what it does from
 start to end is what `Auth` promises of one request at a time.
 */
module Undisturbed {
  import opened Base
  import opened Tables
  import opened Rotation
  import opened RotationInvariant
  import opened FamilyLife
  import opened Auth

  /** A legal run in which only `r` moves, to its end. */
  ghost predicate RunsAlone(tr: Trace, r: ReqId)
  {
    && Legal(tr) && r in tr.states[0].reqs
    && (forall e | e in tr.events :: e.Exec? && e.r == r)
    && r in Last(tr).reqs && Last(tr).reqs[r].Finished?
  }

  function Rest(tr: Trace): Trace
    requires tr.states != [] && tr.events != []
  {
    Trace(tr.states[1..], tr.events[1..])
  }

  lemma RestIsLegal(tr: Trace)
    requires Legal(tr) && tr.events != []
    ensures Legal(Rest(tr))
  {
    forall i | 0 <= i < |Rest(tr).events| ensures Happens(Rest(tr), i)
    {
      assert Happens(tr, i + 1);
    }
  }

  /** Unless it is finished, it has a next statement, and goes on alone after it. */
  lemma OneStatement(tr: Trace, r: ReqId) returns (n: nat)
    requires RunsAlone(tr, r) && !tr.states[0].reqs[r].Finished?
    ensures tr.events != [] && tr.events[0] == Exec(r, n) && Enabled(tr.states[0], Exec(r, n))
    ensures RunsAlone(Rest(tr), r) && Rest(tr).states[0] == Step(tr.states[0], r, n) && Last(Rest(tr)) == Last(tr)
  {
    assert tr.events != [];
    assert tr.events[0] in tr.events;
    n := tr.events[0].n;
    assert Happens(tr, 0);
    RestIsLegal(tr);
  }

  lemma NoStatement(tr: Trace, r: ReqId)
    requires RunsAlone(tr, r)
    ensures tr.states[0].reqs[r].Finished? ==> Last(tr) == tr.states[0]
  {
    if tr.events != [] {
      assert tr.events[0] in tr.events && Happens(tr, 0);
    }
  }

  // --- Every request can run to its end ---

  /** An upper bound on the statements a request has left. */
  function Rank(q: Request): nat
  {
    match q
    case Finished(_) => 0
    case RegisterAsked(_, _) => 6
    case RegisterChecked(_, _) => 5
    case LoginAsked(_, _) => 5
    case CodeAsked(_) => 5
    case Presented(_) => 5
    case Authenticated(_, _) => 4
    case Claimed(_, _, _) => 4
    case Issuing(_, _, _) => 3
    case Storing(_, _, _, _, _) => 2
    case ClaimFailed(_, _) => 2
    case LogoutAsked(_) => 2
    case RemoveAsked(_) => 2
    case ResetAsked(_, _) => 2
    case _ => 1
  }

  lemma RotateFalls(s: State, r: ReqId, n: nat)
    requires r in s.reqs && (s.reqs[r].Presented? || s.reqs[r].Authenticated? || HasBaton(s.reqs[r]))
    ensures Rank(Rotate(s, r, n).reqs[r]) < Rank(s.reqs[r])
  {
    match s.reqs[r]
    case Presented(t) => assert Rank(Claim(s, r, t).reqs[r]) <= 4;
    case Claimed(_, _, _) => assert Rank(LookUpUser(s, r, s.reqs[r]).reqs[r]) <= 3;
    case _ =>
  }

  predicate LastStatement(q: Request)
  {
    q.ReuseSeen? || q.ExpiredSeen? || q.LogoutSeen? || q.Revoking? || q.SweepAsked? || q.Granting?
  }

  lemma LastStatementEnds(s: State, r: ReqId, n: nat)
    requires r in s.reqs && LastStatement(s.reqs[r])
    ensures Serve(s, r, n).reqs[r].Finished?
  {
  }

  lemma AccountFalls(s: State, r: ReqId, n: nat)
    requires r in s.reqs &&
             (s.reqs[r].RegisterAsked? || s.reqs[r].RegisterChecked? || s.reqs[r].RemoveAsked? || s.reqs[r].ResetAsked?)
    ensures Rank(Serve(s, r, n).reqs[r]) < Rank(s.reqs[r])
  {
  }

  lemma FindFalls(s: State, r: ReqId, n: nat)
    requires r in s.reqs && (s.reqs[r].ClaimFailed? || s.reqs[r].LogoutAsked?)
    ensures Rank(Serve(s, r, n).reqs[r]) < Rank(s.reqs[r])
  {
  }

  lemma CredentialFalls(s: State, r: ReqId, n: nat)
    requires r in s.reqs && (s.reqs[r].LoginAsked? || s.reqs[r].CodeAsked?)
    ensures Rank(Serve(s, r, n).reqs[r]) < Rank(s.reqs[r])
  {
  }

  lemma StepFalls(s: State, r: ReqId, n: nat)
    requires r in s.reqs && !s.reqs[r].Finished?
    ensures Rank(Step(s, r, n).reqs[r]) < Rank(s.reqs[r])
  {
    var q := s.reqs[r];
    if q.Presented? || q.Authenticated? || HasBaton(q) { RotateFalls(s, r, n); }
    else if LastStatement(q) { LastStatementEnds(s, r, n); }
    else if q.RegisterAsked? || q.RegisterChecked? || q.RemoveAsked? || q.ResetAsked? { AccountFalls(s, r, n); }
    else if q.LoginAsked? || q.CodeAsked? { CredentialFalls(s, r, n); }
    else { FindFalls(s, r, n); }
  }

  lemma {:induction false} RunsToItsEnd(s: State, r: ReqId) returns (tr: Trace)
    requires r in s.reqs
    ensures RunsAlone(tr, r) && tr.states[0] == s
    decreases Rank(s.reqs[r])
  {
    if s.reqs[r].Finished? {
      tr := Trace([s], []);
    } else {
      var n := FreshBeyond(s.h.minted.Keys + s.h.presented + s.h.fams.Keys + s.users.Keys + s.challenges.Keys);
      var e := Exec(r, n);
      assert Enabled(s, e);
      StepFalls(s, r, n);
      var rest := RunsToItsEnd(Next(s, e), r);
      tr := Trace([s] + rest.states, [e] + rest.events);
      AloneLonger(s, e, rest, tr, r);
    }
  }

  lemma AloneLonger(s: State, e: Event, rest: Trace, tr: Trace, r: ReqId)
    requires Enabled(s, e) && e.Exec? && e.r == r
    requires RunsAlone(rest, r) && rest.states[0] == Next(s, e) && tr == Trace([s] + rest.states, [e] + rest.events)
    ensures RunsAlone(tr, r)
  {
    forall i | 0 <= i < |tr.events| ensures Happens(tr, i)
    {
      if i > 0 { assert Happens(rest, i - 1); }
    }
    assert Last(tr) == Last(rest);
  }

  // --- Issuing tokens ---

  /** The request ends with a fresh token for the account in the family, and its row. */
  ghost predicate IssuedIn(s: State, s': State, r: ReqId, u: UserId, f: FamilyId)
  {
    && r in s'.reqs && s'.reqs[r].Finished? && s'.reqs[r].outcome.Issued?
    && s'.reqs[r].outcome.token !in s.h.minted
    && AddsRow(s.rows, s'.rows, s'.reqs[r].outcome.token, u, f, s.now + s.life)
  }

  /** The same in a family of its own. */
  ghost predicate LoggedIn(s: State, s': State, r: ReqId, u: UserId)
  {
    exists f :: f !in s.h.fams && IssuedIn(s, s', r, u, f)
  }

  /** Part of the invariant: rows hold tokens that were drawn, and active addresses are unique. */
  ghost predicate TablesOk(s: State)
  {
    (forall t | t in s.rows :: t in s.h.minted) && UniqueActiveEmails(s.users)
  }

  /** Every reachable state meets it. */
  lemma ReachedTables(tr: Trace, i: nat)
    requires Reached(tr) && i < |tr.states|
    ensures TablesOk(tr.states[i])
  {
    ReachedInv(tr, i);
  }

  lemma StoringAlone(tr: Trace, r: ReqId)
    requires RunsAlone(tr, r) && tr.states[0].reqs[r].Storing?
    ensures Last(tr) == Insert(tr.states[0], r, tr.states[0].reqs[r])
  {
    var n := OneStatement(tr, r);
    NoStatement(Rest(tr), r);
  }

  lemma IssuingAlone(tr: Trace, r: ReqId) returns (t: Token)
    requires RunsAlone(tr, r) && tr.states[0].reqs[r].Issuing? && TablesOk(tr.states[0])
    ensures var s, s', q := tr.states[0], Last(tr), tr.states[0].reqs[r];
            && s'.reqs[r] == Finished(Issued(t)) && t !in s.h.minted && t !in s.rows
            && s'.rows == s.rows[t := Row(q.user, q.family, None, s.now + s.life)]
            && s'.users == s.users && s'.challenges == s.challenges
  {
    t := OneStatement(tr, r);
    StoringAlone(Rest(tr), r);
  }

  lemma AuthenticatedAlone(tr: Trace, r: ReqId)
    requires RunsAlone(tr, r) && tr.states[0].reqs[r].Authenticated? && TablesOk(tr.states[0])
    ensures var s, s' := tr.states[0], Last(tr);
            LoggedIn(s, s', r, s.reqs[r].user) && s'.users == s.users && s'.challenges == s.challenges
  {
    var f := OneStatement(tr, r);
    var t := IssuingAlone(Rest(tr), r);
    assert f !in tr.states[0].h.fams && IssuedIn(tr.states[0], Last(tr), r, tr.states[0].reqs[r].user, f);
  }

  // --- Refresh ---

  lemma FailureAlone(tr: Trace, r: ReqId)
    requires RunsAlone(tr, r) && tr.states[0].reqs[r].ClaimFailed?
    requires var s := tr.states[0]; !Claimable(s.rows, s.reqs[r].token, s.reqs[r].at)
    ensures var s, s' := tr.states[0], Last(tr);
            && s'.rows == Consume(s.rows, s.reqs[r].token, s.reqs[r].at).0 && s'.reqs[r] == Finished(Unauthorized)
            && s'.users == s.users && s'.challenges == s.challenges
  {
    var n := OneStatement(tr, r);
    var rest := Rest(tr);
    if tr.states[0].reqs[r].token in tr.states[0].rows {
      var m := OneStatement(rest, r);
      NoStatement(Rest(rest), r);
    } else {
      NoStatement(rest, r);
    }
  }

  /** The protocol's refresh, undisturbed, is the sequential refresh: same table, same answer, a fresh successor. */
  lemma RefreshAlone(tr: Trace, r: ReqId, t: Token) returns (n: Token)
    requires RunsAlone(tr, r) && TablesOk(tr.states[0]) && tr.states[0].reqs[r] == Presented(t)
    ensures var s, s' := tr.states[0], Last(tr);
            var (rows, answer) := Refreshed(s.rows, s.users, t, n, s.now, s.life);
            && s'.rows == rows && s'.reqs[r] == Finished(if answer.Ok? then Issued(answer.value) else Unauthorized)
            && s'.users == s.users && s'.challenges == s.challenges
            && (answer.Ok? ==> n !in s.h.minted)
  {
    var s := tr.states[0];
    n := OneStatement(tr, r);
    var rest := Rest(tr);
    if Claimable(s.rows, t, s.now) { n := SuccessAlone(rest, r); } else { FailureAlone(rest, r); }
  }

  lemma SuccessAlone(tr: Trace, r: ReqId) returns (t: Token)
    requires RunsAlone(tr, r) && tr.states[0].reqs[r].Claimed? && TablesOk(tr.states[0])
    ensures Last(tr).users == tr.states[0].users && Last(tr).challenges == tr.states[0].challenges
    ensures var s, s', q := tr.states[0], Last(tr), tr.states[0].reqs[r];
            if Active(s.users, q.user)
            then s'.reqs[r] == Finished(Issued(t)) && t !in s.h.minted &&
                 s'.rows == s.rows[t := Row(q.user, q.family, None, s.now + s.life)]
            else s'.reqs[r] == Finished(Unauthorized) && s'.rows == s.rows
  {
    t := OneStatement(tr, r);
    if Active(tr.states[0].users, tr.states[0].reqs[r].user) {
      t := IssuingAlone(Rest(tr), r);
    } else {
      NoStatement(Rest(tr), r);
    }
  }

  // --- Logging in ---

  lemma SoleHolder(users: UserTable, e: Email, u: UserId)
    requires UniqueActiveEmails(users) && HoldsEmail(users, e, u)
    ensures FindByEmail(users, e) == Some(u)
  {
    assert u in EmailHolders(users, e);
  }

  /** The right credentials get tokens, when 2FA is off. */
  lemma LoginAlone(tr: Trace, r: ReqId, e: Email, p: Password, u: UserId)
    requires RunsAlone(tr, r) && TablesOk(tr.states[0]) && tr.states[0].reqs[r] == LoginAsked(e, p)
    requires HoldsCredentials(tr.states[0].users, e, p, u) && !tr.states[0].users[u].mfa
    ensures var s, s' := tr.states[0], Last(tr);
            LoggedIn(s, s', r, u) && s'.users == s.users && s'.challenges == s.challenges
  {
    SoleHolder(tr.states[0].users, e, u);
    var n := OneStatement(tr, r);
    AuthenticatedAlone(Rest(tr), r);
  }

  /** When it is on they get a fresh challenge, open for its lifetime, and nothing else. */
  lemma ChallengeAlone(tr: Trace, r: ReqId, e: Email, p: Password, u: UserId) returns (c: nat)
    requires RunsAlone(tr, r) && TablesOk(tr.states[0]) && tr.states[0].reqs[r] == LoginAsked(e, p)
    requires HoldsCredentials(tr.states[0].users, e, p, u) && tr.states[0].users[u].mfa
    ensures var s, s' := tr.states[0], Last(tr);
            && s'.reqs[r] == Finished(ChallengeSent) && s'.rows == s.rows && s'.users == s.users
            && c !in s.challenges && s'.challenges.Keys == s.challenges.Keys + {c}
            && (forall d | d in s.challenges :: s'.challenges[d] == s.challenges[d])
            && s'.challenges[c] == Challenge(u, s.users[u].epoch, s.now + 300_000, 0, r, None)
  {
    SoleHolder(tr.states[0].users, e, u);
    var n := OneStatement(tr, r);
    c := OneStatement(Rest(tr), r);
    NoStatement(Rest(Rest(tr)), r);
  }

  /** Any other credentials get nothing. */
  lemma WrongLoginAlone(tr: Trace, r: ReqId, e: Email, p: Password)
    requires RunsAlone(tr, r) && tr.states[0].reqs[r] == LoginAsked(e, p)
    requires forall u :: !HoldsCredentials(tr.states[0].users, e, p, u)
    ensures var s, s' := tr.states[0], Last(tr);
            s'.reqs[r] == Finished(Unauthorized) && s'.challenges == s.challenges && s'.rows == s.rows &&
              s'.users == s.users
  {
    var n := OneStatement(tr, r);
    var found := FindByEmail(tr.states[0].users, e);
    assert found.Some? ==> !HoldsCredentials(tr.states[0].users, e, p, found.value);
    NoStatement(Rest(tr), r);
  }

  /** The challenge can be answered: granted, unspent, in its lifetime, and answered fewer than five times. */
  predicate Answerable(s: State, c: nat)
  {
    && c in s.challenges && s.challenges[c].spentBy.None? && s.now < s.challenges[c].expires
    && s.challenges[c].answers < 5
  }

  /** Nothing changes about any challenge but the answers and the spender of `c`. */
  predicate OnlyAnswered(s: State, s': State, c: nat)
  {
    && s'.challenges.Keys == s.challenges.Keys
    && (forall d | d in s.challenges && d != c :: s'.challenges[d] == s.challenges[d])
    && (c in s.challenges ==>
           s'.challenges[c] ==
           s.challenges[c].(answers := s'.challenges[c].answers, spentBy := s'.challenges[c].spentBy))
  }

  /**
   A good code for an answerable challenge of an active account with 2FA on spends the challenge
   for tokens; any other answer to one is counted against it and refused; an answer to any
   other is refused. No other challenge is touched.
   */
  lemma CodeAlone(tr: Trace, r: ReqId, c: nat) returns (good: bool)
    requires RunsAlone(tr, r) && TablesOk(tr.states[0]) && tr.states[0].reqs[r] == CodeAsked(c)
    ensures tr.events != [] && tr.events[0].Exec? && (good <==> tr.events[0].n == 1)
    ensures Last(tr).users == tr.states[0].users && OnlyAnswered(tr.states[0], Last(tr), c)
    ensures var s, s' := tr.states[0], Last(tr);
            if !Answerable(s, c) then
              s'.challenges == s.challenges && s'.rows == s.rows && s'.reqs[r] == Finished(Unauthorized)
            else
              var u := s.challenges[c].user;
              && s'.challenges[c].answers == s.challenges[c].answers + 1
              && if good && u in s.users && s.users[u].deletedAt.None? && s.users[u].mfa
                 then LoggedIn(s, s', r, u) && s'.challenges[c].spentBy == Some(r)
                 else s'.challenges[c].spentBy.None? && s'.rows == s.rows && s'.reqs[r] == Finished(Unauthorized)
  {
    var n := OneStatement(tr, r);
    good := n == 1;
    var s1 := Rest(tr).states[0];
    assert s1 == AnswerChallenge(tr.states[0], r, c, n);
    if s1.reqs[r].Authenticated? { AuthenticatedAlone(Rest(tr), r); } else { NoStatement(Rest(tr), r); }
  }

  /** A free address gets an account and tokens; a taken one a conflict. */
  lemma RegisterAlone(tr: Trace, r: ReqId, e: Email, p: Password) returns (u: UserId)
    requires RunsAlone(tr, r) && TablesOk(tr.states[0]) && tr.states[0].reqs[r] == RegisterAsked(e, p)
    ensures var s, s' := tr.states[0], Last(tr);
            && s'.challenges == s.challenges
            && if Unheld(s.users, e)
               then Registers(s.users, s'.users, u, e, p) && LoggedIn(s, s', r, u)
               else s'.users == s.users && s'.rows == s.rows && s'.reqs[r] == Finished(Conflict)
  {
    var s := tr.states[0];
    var n := OneStatement(tr, r);
    u := n;
    assert EmailHolders(s.users, e) == {} <==> Unheld(s.users, e) by {
      assert forall x | x in s.users && s.users[x].deletedAt.None? && s.users[x].email == e ::
             x in EmailHolders(s.users, e);
    }
    if EmailHolders(s.users, e) == {} {
      u := OneStatement(Rest(tr), r);
      FreeAddressTaken(s.users, u, User(e, p, false, None, 0));
      AuthenticatedAlone(Rest(Rest(tr)), r);
    } else {
      NoStatement(Rest(tr), r);
    }
  }

  // --- Logging out, revocation ---

  lemma LogoutAlone(tr: Trace, r: ReqId, t: Token)
    requires RunsAlone(tr, r) && tr.states[0].reqs[r] == LogoutAsked(t)
    ensures var s, s' := tr.states[0], Last(tr);
            && EndsFamily(s.rows, s'.rows, t) && s'.users == s.users && s'.challenges == s.challenges
            && s'.reqs[r] == Finished(LoggedOut)
  {
    var n := OneStatement(tr, r);
    if t in tr.states[0].rows {
      var m := OneStatement(Rest(tr), r);
      NoStatement(Rest(Rest(tr)), r);
    } else {
      NoStatement(Rest(tr), r);
    }
  }

  lemma RemoveAlone(tr: Trace, r: ReqId, u: UserId)
    requires RunsAlone(tr, r) && tr.states[0].reqs[r] == RemoveAsked(u)
    ensures var s, s' := tr.states[0], Last(tr);
            && s'.challenges == s.challenges
            && if u in s.users && s.users[u].deletedAt.None?
            then Deactivates(s.users, s'.users, u, s.now) && EndsSessions(s.rows, s'.rows, u) &&
                 s'.reqs[r] == Finished(Removed)
            else s'.users == s.users && s'.rows == s.rows && s'.reqs[r] == Finished(NotFound)
  {
    var n := OneStatement(tr, r);
    if Active(tr.states[0].users, u) {
      var m := OneStatement(Rest(tr), r);
      NoStatement(Rest(Rest(tr)), r);
    } else {
      NoStatement(Rest(tr), r);
    }
  }

  /**
   Once its code is accepted, a reset changes that account's password alone and ends that
   account's sessions alone.
   */
  lemma ResetAlone(tr: Trace, r: ReqId, u: UserId, p: Password)
    requires RunsAlone(tr, r) && tr.states[0].reqs[r] == ResetAsked(u, p)
    ensures var s, s' := tr.states[0], Last(tr);
            && s'.challenges == s.challenges
            && SetsPassword(s.users, s'.users, u, p) && EndsSessions(s.rows, s'.rows, u) &&
              s'.reqs[r] == Finished(PasswordChanged)
  {
    var n := OneStatement(tr, r);
    var m := OneStatement(Rest(tr), r);
    NoStatement(Rest(Rest(tr)), r);
  }

  /** The sweep removes exactly the rows whose expiry had passed when it read the clock. */
  lemma SweepAlone(tr: Trace, r: ReqId, at: Time)
    requires RunsAlone(tr, r) && tr.states[0].reqs[r] == SweepAsked(at)
    ensures var s, s' := tr.states[0], Last(tr);
            && s'.users == s.users && s'.challenges == s.challenges && s'.reqs[r] == Finished(Swept)
            && (forall t | t in s'.rows :: t in s.rows && s'.rows[t] == s.rows[t])
            && (forall t | t in s.rows :: t in s'.rows <==> at <= s.rows[t].expires)
  {
    var n := OneStatement(tr, r);
    NoStatement(Rest(tr), r);
  }

  /** Whatever runs alone, time stands still and no other request moves. */
  lemma {:induction false} OthersWait(tr: Trace, r: ReqId)
    requires RunsAlone(tr, r)
    ensures Last(tr).now == tr.states[0].now && Last(tr).reqs == tr.states[0].reqs[r := Last(tr).reqs[r]]
    decreases |tr.events|
  {
    if tr.states[0].reqs[r].Finished? {
      NoStatement(tr, r);
    } else {
      var n := OneStatement(tr, r);
      OthersWait(Rest(tr), r);
    }
  }
}
