/**
 Whole-run properties of `Rotation` about accounts: registration races, what a soft delete
 leaves in flight, and what a revocation cuts off.
 */
module Accounts {
  import opened Base
  import opened Tables
  import opened Rotation
  import opened RotationInvariant
  import opened RotationClaims
  import opened FamilyLife

  /** The request has been answered. */
  predicate Ends(s: State, r: ReqId, o: Outcome)
  {
    r in s.reqs && s.reqs[r] == Finished(o)
  }

  // --- Registration ---

  /** Event `m` runs the INSERT of a registration for the address. */
  predicate InsertAt(tr: Trace, m: nat, e: Email)
  {
    && m < |tr.events| < |tr.states|
    && tr.events[m].Exec? && tr.events[m].r in tr.states[m].reqs
    && tr.states[m].reqs[tr.events[m].r].RegisterChecked? && tr.states[m].reqs[tr.events[m].r].email == e
  }

  predicate RegisteredAt(tr: Trace, m: nat, e: Email)
  {
    InsertAt(tr, m, e) && tr.events[m].r in tr.states[m + 1].reqs &&
      tr.states[m + 1].reqs[tr.events[m].r].Authenticated?
  }

  /** Event `m` soft-deletes the active account that holds the address. */
  predicate FreedAt(tr: Trace, m: nat, e: Email)
  {
    && m < |tr.events| < |tr.states|
    && tr.events[m].Exec? && tr.events[m].r in tr.states[m].reqs
    && tr.states[m].reqs[tr.events[m].r].RemoveAsked? &&
       HoldsEmail(tr.states[m].users, e, tr.states[m].reqs[tr.events[m].r].user)
  }

  lemma HolderStays(s: State, ev: Event, e: Email, u: UserId)
    requires Enabled(s, ev) && HoldsEmail(s.users, e, u)
    requires !(ev.Exec? && s.reqs[ev.r] == RemoveAsked(u))
    ensures HoldsEmail(Next(s, ev).users, e, u)
  {
    if ev.Exec? {
      if WritesUsers(s.reqs[ev.r]) { WriterLeavesOthers(s, ev.r, ev.n, u); } else { SameUsers(s, ev.r, ev.n); }
    }
  }

  /** The next statement is one of the three that change the users table. */
  predicate WritesUsers(q: Request)
  {
    q.RegisterChecked? || q.RemoveAsked? || q.ResetAsked?
  }

  lemma SameUsers(s: State, r: ReqId, n: nat)
    requires r in s.reqs && !WritesUsers(s.reqs[r])
    ensures Step(s, r, n).users == s.users
  {
    var q := s.reqs[r];
    if OnAccounts(q) { SameUsersOnAccounts(s, r, n); }
  }

  lemma SameUsersOnAccounts(s: State, r: ReqId, n: nat)
    requires r in s.reqs && OnAccounts(s.reqs[r]) && !WritesUsers(s.reqs[r])
    ensures ServeAccounts(s, r, n).users == s.users
  {
  }

  /** They leave the address of every account alone, and its deletion unless it is the one to remove. */
  lemma WriterLeavesOthers(s: State, r: ReqId, n: nat, u: UserId)
    requires Enabled(s, Exec(r, n)) && WritesUsers(s.reqs[r]) && u in s.users
    ensures var users' := Step(s, r, n).users;
            && u in users' && users'[u].email == s.users[u].email
            && (s.reqs[r] != RemoveAsked(u) ==> users'[u].deletedAt == s.users[u].deletedAt)
  {
  }

  lemma AddressStep(tr: Trace, m: nat, e: Email)
    requires Legal(tr) && m < |tr.events| && !FreedAt(tr, m, e)
    ensures EmailHolders(tr.states[m].users, e) != {} ==> EmailHolders(tr.states[m + 1].users, e) != {}
    ensures InsertAt(tr, m, e) ==> EmailHolders(tr.states[m + 1].users, e) != {}
    ensures InsertAt(tr, m, e) ==> (RegisteredAt(tr, m, e) <==> EmailHolders(tr.states[m].users, e) == {})
    ensures InsertAt(tr, m, e) && !RegisteredAt(tr, m, e) ==> Ends(tr.states[m + 1], tr.events[m].r, Conflict)
    ensures EmailHolders(tr.states[m].users, e) == {} && !InsertAt(tr, m, e) ==>
            EmailHolders(tr.states[m + 1].users, e) == {}
  {
    var s, s', ev := tr.states[m], tr.states[m + 1], tr.events[m];
    assert Happens(tr, m);
    if EmailHolders(s.users, e) != {} {
      var u :| u in EmailHolders(s.users, e);
      HolderStays(s, ev, e, u);
      assert u in EmailHolders(s'.users, e);
    } else if InsertAt(tr, m, e) {
      assert HoldsEmail(s'.users, e, ev.n);
      assert ev.n in EmailHolders(s'.users, e);
    } else {
      NoNewHolder(s, ev, e);
    }
  }

  lemma NoNewHolder(s: State, ev: Event, e: Email)
    requires Enabled(s, ev) && EmailHolders(s.users, e) == {}
    requires !(ev.Exec? && s.reqs[ev.r].RegisterChecked? && s.reqs[ev.r].email == e)
    ensures EmailHolders(Next(s, ev).users, e) == {}
  {
    forall u | u in EmailHolders(Next(s, ev).users, e) ensures u in EmailHolders(s.users, e)
    {
      OldHolder(s, ev, e, u);
    }
  }

  lemma OldHolder(s: State, ev: Event, e: Email, u: UserId)
    requires Enabled(s, ev) && HoldsEmail(Next(s, ev).users, e, u)
    requires !(ev.Exec? && s.reqs[ev.r].RegisterChecked? && s.reqs[ev.r].email == e)
    ensures HoldsEmail(s.users, e, u)
  {
  }

  lemma FreeStep(tr: Trace, m: nat, e: Email)
    requires Legal(tr) && m < |tr.events| && !FreedAt(tr, m, e)
    ensures EmailHolders(tr.states[m + 1].users, e) == {} <==>
            EmailHolders(tr.states[m].users, e) == {} && !InsertAt(tr, m, e)
  {
    AddressStep(tr, m, e);
  }

  lemma {:induction false} AddressHistory(tr: Trace, i: nat, m: nat, e: Email)
    requires Legal(tr) && i <= m < |tr.states| && EmailHolders(tr.states[i].users, e) == {}
    requires forall k | i <= k < m :: !FreedAt(tr, k, e)
    ensures EmailHolders(tr.states[m].users, e) == {} <==> forall k | i <= k < m :: !InsertAt(tr, k, e)
    decreases m - i
  {
    if i < m {
      AddressHistory(tr, i, m - 1, e);
      FreeStep(tr, m - 1, e);
    }
  }

  /**
   However registrations of a free address interleave, the first INSERT to run registers it
   and every later one is answered with a conflict, as long as the address is not freed.
   */
  lemma FirstRegistrationWins(tr: Trace, i: nat, m: nat, e: Email)
    requires Legal(tr) && i <= m && InsertAt(tr, m, e) && EmailHolders(tr.states[i].users, e) == {}
    requires forall k | i <= k < m :: !FreedAt(tr, k, e)
    ensures RegisteredAt(tr, m, e) <==> forall k | i <= k < m :: !InsertAt(tr, k, e)
    ensures !RegisteredAt(tr, m, e) ==> Ends(tr.states[m + 1], tr.events[m].r, Conflict)
  {
    AddressHistory(tr, i, m, e);
    AddressStep(tr, m, e);
  }

  lemma OneActiveAccountPerAddress(tr: Trace, i: nat, e: Email)
    requires Reached(tr) && i < |tr.states|
    ensures |EmailHolders(tr.states[i].users, e)| <= 1
  {
    ReachedInv(tr, i);
    AtMostOne(EmailHolders(tr.states[i].users, e));
  }

  // --- Soft delete ---

  predicate PastItsCheck(q: Request, u: UserId)
  {
    (q.Issuing? || q.Storing? || q.Authenticated?) && q.user == u
  }

  /** Requests past the account lookup or the credential check, which may still store a token for the account. */
  function PastCheck(reqs: map<ReqId, Request>, u: UserId): set<ReqId>
  {
    set r | r in reqs && PastItsCheck(reqs[r], u)
  }

  /** Every token ever stored for the account. */
  function TokensOf(h: Ledger, u: UserId): set<Token>
  {
    set t | t in h.born && h.born[t].family in h.fams && h.fams[h.born[t].family].user == u
  }

  predicate Deleted(users: UserTable, u: UserId)
  {
    u in users && users[u].deletedAt.Some?
  }

  lemma NoneJoins(s: State, e: Event, u: UserId)
    requires Enabled(s, e) && Deleted(s.users, u) && KnownUsers(s)
    ensures PastCheck(Next(s, e).reqs, u) <= PastCheck(s.reqs, u)
    ensures e.Exec? && s.reqs[e.r].Storing? ==> e.r !in PastCheck(Next(s, e).reqs, u)
  {
    var s' := Next(s, e);
    forall x | x in PastCheck(s'.reqs, u) ensures x in PastCheck(s.reqs, u)
    {
      if e.Exec? && e.r == x { CheckedBefore(s, x, e.n, s'.reqs[x], u); }
    }
  }

  lemma CheckedBefore(s: State, r: ReqId, n: nat, q': Request, u: UserId)
    requires Enabled(s, Exec(r, n)) && Deleted(s.users, u) && q' == Step(s, r, n).reqs[r] && PastItsCheck(q', u)
    ensures PastItsCheck(s.reqs[r], u)
  {
    if s.reqs[r].Presented? || s.reqs[r].Authenticated? || HasBaton(s.reqs[r]) {
      assert q' == Rotate(s, r, n).reqs[r];
    } else {
      ServedStranger(s, r, n, u);
    }
  }

  /** No statement outside the rotation lets a request act for a deleted account. */
  lemma ServedStranger(s: State, r: ReqId, n: nat, u: UserId)
    requires Enabled(s, Exec(r, n)) && Deleted(s.users, u)
    requires !s.reqs[r].Presented? && !s.reqs[r].Authenticated? && !HasBaton(s.reqs[r])
    ensures !PastItsCheck(Serve(s, r, n).reqs[r], u)
  {
  }

  lemma InsertGrows(s: State, r: ReqId, u: UserId)
    requires Inv(s) && r in s.reqs && s.reqs[r].Storing?
    ensures TokensOf(Insert(s, r, s.reqs[r]).h, u) ==
            TokensOf(s.h, u) + (if s.reqs[r].user == u then {s.reqs[r].token} else {})
  {
    InsertEffect(s, r);
    assert RequestOk(s, r, s.reqs[r]);
  }

  lemma StartFamilyGrowsNone(s: State, r: ReqId, f: FamilyId, u: UserId)
    requires Inv(s) && r in s.reqs && s.reqs[r].Authenticated? && f !in s.h.fams
    ensures TokensOf(StartFamily(s, r, s.reqs[r], f).h, u) == TokensOf(s.h, u)
  {
    forall t | t in s.h.born ensures s.h.born[t].family != f { assert Placed(s.h.fams, s.h.born[t], t); }
  }

  lemma SameBirths(s: State, e: Event)
    requires Enabled(s, e) && !(e.Exec? && (s.reqs[e.r].Storing? || s.reqs[e.r].Authenticated?))
    ensures Next(s, e).h.born == s.h.born && Next(s, e).h.fams == s.h.fams
  {
  }

  lemma TokensGrow(s: State, e: Event, u: UserId)
    requires Inv(s) && Enabled(s, e)
    ensures TokensOf(Next(s, e).h, u) ==
            TokensOf(s.h, u) +
              (if e.Exec? && s.reqs[e.r].Storing? && s.reqs[e.r].user == u then {s.reqs[e.r].token} else {})
  {
    if e.Exec? && s.reqs[e.r].Storing? { InsertGrows(s, e.r, u); }
    else if e.Exec? && s.reqs[e.r].Authenticated? { StartFamilyGrowsNone(s, e.r, e.n, u); }
    else { SameBirths(s, e); }
  }

  lemma DrainStep(s: State, e: Event, u: UserId)
    requires Good(s) && Enabled(s, e) && Deleted(s.users, u)
    ensures var s' := Next(s, e);
            && Deleted(s'.users, u) && PastCheck(s'.reqs, u) <= PastCheck(s.reqs, u)
            && |TokensOf(s'.h, u)| + |PastCheck(s'.reqs, u)| <= |TokensOf(s.h, u)| + |PastCheck(s.reqs, u)|
  {
    var s' := Next(s, e);
    StepLater(s, e);
    NoneJoins(s, e, u);
    TokensGrow(s, e, u);
    if e.Exec? && s.reqs[e.r].Storing? && s.reqs[e.r].user == u {
      assert e.r in PastCheck(s.reqs, u);
      SubsetSize(PastCheck(s'.reqs, u), PastCheck(s.reqs, u) - {e.r});
    } else {
      SubsetSize(PastCheck(s'.reqs, u), PastCheck(s.reqs, u));
    }
  }

  lemma DrainEvent(tr: Trace, i: nat, u: UserId)
    requires Sound(tr) && i < |tr.events| && Deleted(tr.states[i].users, u)
    ensures var s, s' := tr.states[i], tr.states[i + 1];
            && Deleted(s'.users, u) && PastCheck(s'.reqs, u) <= PastCheck(s.reqs, u)
            && |TokensOf(s'.h, u)| + |PastCheck(s'.reqs, u)| <= |TokensOf(s.h, u)| + |PastCheck(s.reqs, u)|
  {
    SoundGood(tr, i);
    assert Happens(tr, i);
    DrainStep(tr.states[i], tr.events[i], u);
  }

  /**
   Once an account is deleted nobody new gets past its lookup or credential check, so each
   request that was already past it stores at most one more token, and nobody else any.
   */
  lemma {:induction false} DeletedAccountDrains(tr: Trace, i: nat, j: nat, u: UserId)
    requires Sound(tr) && i <= j < |tr.states| && Deleted(tr.states[i].users, u)
    ensures Deleted(tr.states[j].users, u)
    ensures PastCheck(tr.states[j].reqs, u) <= PastCheck(tr.states[i].reqs, u)
    ensures |TokensOf(tr.states[j].h, u)| + |PastCheck(tr.states[j].reqs, u)|
         <= |TokensOf(tr.states[i].h, u)| + |PastCheck(tr.states[i].reqs, u)|
    decreases j - i
  {
    if i < j {
      DeletedAccountDrains(tr, i, j - 1, u);
      DrainEvent(tr, j - 1, u);
    }
  }

  /** A refresh that looks its account up after the deletion is refused, whatever row it claimed. */
  lemma LateLookupFails(tr: Trace, i: nat, j: nat, r: ReqId, n: nat)
    requires Sound(tr) && i <= j < |tr.events| && tr.events[j] == Exec(r, n)
    requires r in tr.states[j].reqs && tr.states[j].reqs[r].Claimed? &&
             Deleted(tr.states[i].users, tr.states[j].reqs[r].user)
    ensures Ends(tr.states[j + 1], r, Unauthorized)
  {
    DeletedAccountDrains(tr, i, j, tr.states[j].reqs[r].user);
    assert Happens(tr, j);
  }

  // --- Password reset ---

  predicate RevokedAt(tr: Trace, i: nat, r: ReqId, u: UserId)
  {
    && i < |tr.events| < |tr.states| && tr.events[i].Exec? && tr.events[i].r == r
    && r in tr.states[i].reqs && tr.states[i].reqs[r].Revoking? && tr.states[i].reqs[r].user == u
  }

  /** After a revocation no row stored before it comes back, so no token stored before it is accepted again. */
  lemma OldTokensStayOut(tr: Trace, i: nat, k: nat, r: ReqId, u: UserId, t: Token)
    requires Sound(tr) && RevokedAt(tr, i, r, u) && i < k < |tr.states|
    requires t in tr.states[k].rows && tr.states[k].rows[t].user == u
    ensures t !in tr.states[i].h.born
    ensures t !in tr.states[i + 1].h.born
  {
    assert Happens(tr, i);
    assert tr.states[i + 1].rows == DeleteUserRows(tr.states[i].rows, u) && tr.states[i + 1].h == tr.states[i].h;
    RunLater(tr, i + 1, k);
  }
}
