/**
 How a refresh-token family ends: what a burn (reuse, logout, revocation) leaves behind,
 when it is final, and whether a replayed ancestor is always noticed.
 */
module FamilyLife {
  import opened Base
  import opened Tables
  import opened Rotation
  import opened RotationInvariant
  import opened RotationClaims

  ghost predicate NoRows(rows: TokenTable, f: FamilyId)
  {
    forall t {:trigger t in rows} | t in rows :: rows[t].family != f
  }

  /** Nobody can use the family and nobody is about to extend it. */
  ghost predicate Dead(s: State, f: FamilyId)
  {
    f in s.h.fams && NoRows(s.rows, f) && Holders(s.reqs, f) == {}
  }

  predicate InsertsInto(s: State, e: Event, f: FamilyId)
  {
    e.Exec? && e.r in s.reqs && s.reqs[e.r].Storing? && s.reqs[e.r].family == f
  }

  // --- Where rows and batons come from ---

  lemma RowsCome(s: State, e: Event)
    requires Enabled(s, e)
    ensures forall t {:trigger t in Next(s, e).rows} | t in Next(s, e).rows ::
              || (t in s.rows && Next(s, e).rows[t].family == s.rows[t].family)
              || (InsertsInto(s, e, Next(s, e).rows[t].family) && t == s.reqs[e.r].token)
  {
  }

  /** A request holds a baton after a step only if it held it before, won a claim, or drew a fresh family. */
  predicate BatonComes(s: State, r: ReqId, q': Request)
  {
    && r in s.reqs
    && (|| (s.reqs[r].Claimed? && q'.Issuing? && Active(s.users, q'.user) && q'.family == s.reqs[r].family &&
            q'.user == s.reqs[r].user)
        || (s.reqs[r].Issuing? && q'.Storing? && q'.family == s.reqs[r].family && q'.user == s.reqs[r].user)
        || (s.reqs[r].Presented? && q'.Claimed? && s.reqs[r].token in s.rows &&
            q'.family == s.rows[s.reqs[r].token].family)
        || (s.reqs[r].Authenticated? && q'.Issuing? && q'.family !in s.h.fams && q'.user == s.reqs[r].user))
  }

  lemma HoldersCome(s: State, r: ReqId, n: nat, q': Request)
    requires Enabled(s, Exec(r, n)) && q' == Step(s, r, n).reqs[r] && HasBaton(q')
    ensures BatonComes(s, r, q')
  {
    var q := s.reqs[r];
    if !(q.Presented? || q.Authenticated? || HasBaton(q)) { ServeStartsNothing(s, r, n); }
  }

  lemma HoldersFrame(s: State, e: Event, x: ReqId)
    requires Enabled(s, e) && x in Next(s, e).reqs && HasBaton(Next(s, e).reqs[x])
    ensures x in s.reqs &&
            (Next(s, e).reqs[x] == s.reqs[x] || (e.Exec? && e.r == x && BatonComes(s, x, Next(s, e).reqs[x])))
  {
    if e.Exec? && e.r == x { HoldersCome(s, x, e.n, Next(s, e).reqs[x]); }
  }

  /** While a family has no rows its holders can only dwindle, and only a holder's INSERT brings a row back. */
  lemma OnlyHolderRevives(s: State, e: Event, f: FamilyId)
    requires Good(s) && Enabled(s, e) && f in s.h.fams && NoRows(s.rows, f)
    ensures Holders(Next(s, e).reqs, f) <= Holders(s.reqs, f)
    ensures !NoRows(Next(s, e).rows, f) ==> InsertsInto(s, e, f) && e.r in Holders(s.reqs, f)
    ensures forall t | t in Next(s, e).rows && Next(s, e).rows[t].family == f :: e.Exec? && t == s.reqs[e.r].token
  {
    var s' := Next(s, e);
    RowsCome(s, e);
    forall x | x in Holders(s'.reqs, f) ensures x in Holders(s.reqs, f)
    {
      HoldersFrame(s, e, x);
    }
  }

  lemma DeadStep(s: State, e: Event, f: FamilyId)
    requires Good(s) && Enabled(s, e) && Dead(s, f)
    ensures Dead(Next(s, e), f)
  {
    OnlyHolderRevives(s, e, f);
    StepLater(s, e);
  }

  lemma DeadEvent(tr: Trace, i: nat, f: FamilyId)
    requires Sound(tr) && i < |tr.events| && Dead(tr.states[i], f)
    ensures Dead(tr.states[i + 1], f)
  {
    SoundGood(tr, i);
    assert Happens(tr, i);
    DeadStep(tr.states[i], tr.events[i], f);
  }

  lemma {:induction false} DeadStays(tr: Trace, i: nat, j: nat, f: FamilyId)
    requires Sound(tr) && i <= j < |tr.states| && Dead(tr.states[i], f)
    ensures Dead(tr.states[j], f)
    decreases j - i
  {
    if i < j {
      DeadStays(tr, i, j - 1, f);
      DeadEvent(tr, j - 1, f);
    }
  }

  /** `t` is the only row of the family. */
  ghost predicate OnlyRow(rows: TokenTable, f: FamilyId, t: Token)
  {
    t in rows && rows[t].family == f && forall u {:trigger u in rows} | u in rows && rows[u].family == f :: u == t
  }

  lemma RevivalStep(s: State, e: Event, f: FamilyId)
    requires Good(s) && Enabled(s, e) && f in s.h.fams && NoRows(s.rows, f)
    ensures f in Next(s, e).h.fams && Holders(Next(s, e).reqs, f) <= Holders(s.reqs, f) && |Holders(s.reqs, f)| <= 1
    ensures !NoRows(Next(s, e).rows, f) ==>
              InsertsInto(s, e, f) && e.r in Holders(s.reqs, f) && OnlyRow(Next(s, e).rows, f, s.reqs[e.r].token)
  {
    OnlyHolderRevives(s, e, f);
    BatonBound(s, f);
    StepLater(s, e);
    if !NoRows(Next(s, e).rows, f) {
      assert s.reqs[e.r].token in Next(s, e).rows;
    }
  }

  lemma RevivalEvent(tr: Trace, i: nat, f: FamilyId)
    requires Sound(tr) && i < |tr.events| && f in tr.states[i].h.fams && NoRows(tr.states[i].rows, f)
    ensures var s, s', e := tr.states[i], tr.states[i + 1], tr.events[i];
            && f in s'.h.fams && Holders(s'.reqs, f) <= Holders(s.reqs, f) && |Holders(s.reqs, f)| <= 1
            && (!NoRows(s'.rows, f) ==>
                  InsertsInto(s, e, f) && Holders(s.reqs, f) == {e.r} && OnlyRow(s'.rows, f, s.reqs[e.r].token))
  {
    SoundGood(tr, i);
    assert Happens(tr, i);
    RevivalStep(tr.states[i], tr.events[i], f);
    if !NoRows(tr.states[i + 1].rows, f) { OneOfMany(Holders(tr.states[i].reqs, f), tr.events[i].r); }
  }

  /**
   If the rows of a family are gone and one appears again, the first to appear is the one
   inserted by the single request that held the family's baton all along.
   */
  lemma {:induction false} FirstRowBack(tr: Trace, i: nat, j: nat, f: FamilyId) returns (k: nat)
    requires Sound(tr) && i < j < |tr.states| && f in tr.states[i].h.fams
    requires NoRows(tr.states[i].rows, f) && !NoRows(tr.states[j].rows, f)
    ensures i <= k < j && InsertsInto(tr.states[k], tr.events[k], f)
    ensures Holders(tr.states[i].reqs, f) == {tr.events[k].r}
    ensures OnlyRow(tr.states[k + 1].rows, f, tr.states[k].reqs[tr.events[k].r].token)
    ensures forall m | i <= m <= k :: NoRows(tr.states[m].rows, f)
    decreases j - i
  {
    RevivalEvent(tr, i, f);
    if NoRows(tr.states[i + 1].rows, f) {
      k := FirstRowBack(tr, i + 1, j, f);
      OneOfMany(Holders(tr.states[i].reqs, f), tr.events[k].r);
    } else {
      k := i;
    }
  }

  lemma OneOfMany<T>(s: set<T>, x: T)
    requires x in s && |s| <= 1
    ensures s == {x}
  {
    forall y | y in s ensures y == x
    {
      SubsetSize({x, y}, s);
      assert x != y ==> |{x, y}| == 2;
    }
  }

  lemma {:induction false} SubsetSize<T>(a: set<T>, b: set<T>)
    requires a <= b
    ensures |a| <= |b|
  {
    if a != {} {
      var x :| x in a;
      SubsetSize(a - {x}, b - {x});
    }
  }

  // --- When a burn is final ---

  /** Some request in flight will store a token of the family unless it stops. */
  ghost predicate CanStillStore(s: State, f: FamilyId)
  {
    exists r :: r in s.reqs && MayStore(s, s.reqs[r], f)
  }

  predicate MayStore(s: State, q: Request, f: FamilyId)
  {
    HasBaton(q) && q.family == f && (q.Claimed? ==> Active(s.users, q.user))
  }

  /** No row, and the only holders are about to find their account deleted. */
  ghost predicate Stuck(s: State, f: FamilyId)
  {
    && f in s.h.fams && NoRows(s.rows, f)
    && s.h.fams[f].user in s.users
    && (Holders(s.reqs, f) != {} ==> s.users[s.h.fams[f].user].deletedAt.Some?)
    && (forall r {:trigger s.reqs[r]} | r in s.reqs && HasBaton(s.reqs[r]) && s.reqs[r].family == f ::
        s.reqs[r].Claimed?)
  }

  lemma UnstorableIsStuck(s: State, f: FamilyId)
    requires Good(s) && f in s.h.fams && NoRows(s.rows, f) && !CanStillStore(s, f)
    ensures Stuck(s, f)
  {
    assert AuthOk(s.users, s.h.fams[f].user, s.h.fams[f].epoch);
    forall r | r in s.reqs && HasBaton(s.reqs[r]) && s.reqs[r].family == f
      ensures s.reqs[r].Claimed? && s.users[s.h.fams[f].user].deletedAt.Some?
    {
      assert RequestOk(s, r, s.reqs[r]);
      assert !MayStore(s, s.reqs[r], f);
    }
    if Holders(s.reqs, f) != {} {
      var r :| r in Holders(s.reqs, f);
      assert HasBaton(s.reqs[r]);
    }
  }

  lemma StuckStep(s: State, e: Event, f: FamilyId)
    requires Good(s) && Enabled(s, e) && Stuck(s, f)
    ensures Stuck(Next(s, e), f)
  {
    var s' := Next(s, e);
    OnlyHolderRevives(s, e, f);
    StepLater(s, e);
    forall x | x in s'.reqs && HasBaton(s'.reqs[x]) && s'.reqs[x].family == f
      ensures s'.reqs[x].Claimed?
    {
      HoldersFrame(s, e, x);
      assert x in Holders(s'.reqs, f) && x in Holders(s.reqs, f);
      assert s.reqs[x].Claimed?;
      assert RequestOk(s, x, s.reqs[x]);
    }
  }

  lemma StuckEvent(tr: Trace, i: nat, f: FamilyId)
    requires Sound(tr) && i < |tr.events| && Stuck(tr.states[i], f)
    ensures Stuck(tr.states[i + 1], f)
  {
    SoundGood(tr, i);
    assert Happens(tr, i);
    StuckStep(tr.states[i], tr.events[i], f);
  }

  lemma {:induction false} StuckStays(tr: Trace, i: nat, f: FamilyId)
    requires Sound(tr) && i < |tr.states| && Stuck(tr.states[0], f)
    ensures Stuck(tr.states[i], f)
  {
    if i > 0 {
      StuckStays(tr, i - 1, f);
      StuckEvent(tr, i - 1, f);
    }
  }

  lemma Prepend(s: State, e: Event, tr: Trace) returns (longer: Trace)
    requires Enabled(s, e) && Legal(tr) && tr.states[0] == Next(s, e)
    ensures Legal(longer) && longer.states[0] == s
    ensures Last(longer) == Last(tr)
  {
    longer := Trace([s] + tr.states, [e] + tr.events);
    forall i | 0 <= i < |longer.events|
      ensures Happens(longer, i)
    {
      if i > 0 {
        assert Happens(tr, i - 1);
        assert longer.events[i] == tr.events[i - 1] && longer.states[i] == tr.states[i - 1] &&
               longer.states[i + 1] == tr.states[i];
      }
    }
  }

  /** A request that may still store the family's next token, left to run, does. */
  lemma {:induction false} Revive(s: State, r: ReqId, f: FamilyId) returns (tr: Trace)
    requires r in s.reqs && MayStore(s, s.reqs[r], f)
    ensures Legal(tr) && tr.states[0] == s && !NoRows(Last(tr).rows, f)
    decreases if s.reqs[r].Claimed? then 2 else if s.reqs[r].Issuing? then 1 else 0
  {
    var n := FreshBeyond(s.h.minted.Keys + s.h.presented);
    var e := Exec(r, n);
    assert Enabled(s, e);
    var s' := Next(s, e);
    var rest := Trace([s'], []);
    if s.reqs[r].Storing? {
      assert s.reqs[r].token in s'.rows;
    } else {
      rest := Revive(s', r, f);
    }
    tr := Prepend(s, e, rest);
  }

  /**
   From a state where the family has no rows, some continuation gives it one if and only if
   a request in flight may still store a token of it.
   */
  lemma EmptyIsFinalIff(s: State, f: FamilyId)
    requires Good(s) && f in s.h.fams && NoRows(s.rows, f)
    ensures (exists tr :: Legal(tr) && tr.states[0] == s && !NoRows(Last(tr).rows, f)) <==>
            CanStillStore(s, f)
  {
    if CanStillStore(s, f) {
      var r :| r in s.reqs && MayStore(s, s.reqs[r], f);
      var tr := Revive(s, r, f);
    } else {
      UnstorableIsStuck(s, f);
      forall tr | Legal(tr) && tr.states[0] == s
        ensures NoRows(Last(tr).rows, f)
      {
        StuckStays(tr, |tr.states| - 1, f);
      }
    }
  }

  /** The family a request is about to burn, for reuse or at logout. */
  predicate Burning(q: Request, f: FamilyId)
  {
    (q.ReuseSeen? || q.LogoutSeen?) && q.family == f
  }

  lemma BurnEffect(s: State, r: ReqId, n: nat, f: FamilyId)
    requires r in s.reqs && Burning(s.reqs[r], f)
    ensures var s' := Step(s, r, n);
            && s' == s.(rows := DeleteFamily(s.rows, f), reqs := s.reqs[r := s'.reqs[r]]) && s'.reqs[r].Finished?
            && NoRows(s'.rows, f) && (CanStillStore(s', f) <==> CanStillStore(s, f))
  {
    var s' := Step(s, r, n);
    assert s' == s.(rows := DeleteFamily(s.rows, f), reqs := s.reqs[r := s'.reqs[r]]) && s'.reqs[r].Finished?;
    if CanStillStore(s, f) {
      var x :| x in s.reqs && MayStore(s, s.reqs[x], f);
      assert x != r && MayStore(s', s'.reqs[x], f);
    }
    if CanStillStore(s', f) {
      var x :| x in s'.reqs && MayStore(s', s'.reqs[x], f);
      assert x != r && MayStore(s, s.reqs[x], f);
    }
  }

  /**
   The burn removes every row of the family, and it is final exactly when no request in
   flight may still store: theft containment can be outrun by a rotation already claimed.
   */
  lemma BurnIsFinalIff(s: State, r: ReqId, n: nat, f: FamilyId)
    requires Good(s) && r in s.reqs && Burning(s.reqs[r], f) && f in s.h.fams && Enabled(s, Exec(r, n))
    ensures var s' := Next(s, Exec(r, n));
            && NoRows(s'.rows, f)
            && ((exists tr :: Legal(tr) && tr.states[0] == s' && !NoRows(Last(tr).rows, f)) <==>
                CanStillStore(s, f))
  {
    NextGood(s, Exec(r, n));
    BurnEffect(s, r, n, f);
    EmptyIsFinalIff(Step(s, r, n), f);
  }

  // --- Replays ---

  /** A family that no request is extending and whose rows a burn just deleted accepts no token ever again. */
  lemma DeadRefusesAll(tr: Trace, i: nat, j: nat, r: ReqId, t: Token, f: FamilyId)
    requires Sound(tr) && WonAt(tr, j, r, t) && i <= j && Dead(tr.states[i], f)
    ensures t in tr.states[j].rows && tr.states[j].rows[t].family != f
  {
    DeadStays(tr, i, j, f);
    assert Happens(tr, j);
  }

  /** No refresh in the family wins from event `i` on. */
  ghost predicate NoneWinsFrom(tr: Trace, i: nat, f: FamilyId)
  {
    forall j, p, u | i <= j && WonAt(tr, j, p, u) :: u in tr.states[j].rows && tr.states[j].rows[u].family != f
  }

  lemma AfterDeath(tr: Trace, i: nat, f: FamilyId)
    requires Sound(tr) && i < |tr.states| && Dead(tr.states[i], f)
    ensures NoneWinsFrom(tr, i, f)
  {
    forall j, p, u | i <= j && WonAt(tr, j, p, u) ensures u in tr.states[j].rows && tr.states[j].rows[u].family != f
    {
      DeadRefusesAll(tr, i, j, p, u, f);
    }
  }

  /** Four consecutive events: a request arrives with `t` and runs undisturbed for three statements. */
  predicate RefreshesAlone(tr: Trace, i: nat, r: ReqId, t: Token)
  {
    && i + 4 <= |tr.events| < |tr.states|
    && tr.events[i] == Arrive(r, Presented(t))
    && (forall k | i < k < i + 4 :: tr.events[k].Exec? && tr.events[k].r == r)
  }

  /**
   With no rotation in flight, presenting any used token whose row still exists, however far
   up the chain, burns the family for good: no row is left and no later refresh in it wins.
   */
  lemma ReplayBurnsEverything(tr: Trace, i: nat, r: ReqId, t: Token, f: FamilyId)
    requires Sound(tr) && RefreshesAlone(tr, i, r, t)
    requires t in tr.states[i].rows && tr.states[i].rows[t].usedAt.Some? && tr.states[i].rows[t].family == f
    requires Holders(tr.states[i].reqs, f) == {}
    ensures Dead(tr.states[i + 4], f) && NoneWinsFrom(tr, i + 4, f)
    ensures r in tr.states[i + 4].reqs && tr.states[i + 4].reqs[r] == Finished(Unauthorized)
  {
    SoundGood(tr, i);
    ReplayEndsDead(tr, i, r, t, f);
    AfterDeath(tr, i + 4, f);
  }

  /** The request stands at `q`, and no row or family is other than it was in `s0`. */
  ghost predicate Waiting(s0: State, s: State, r: ReqId, q: Request, f: FamilyId)
  {
    && r in s.reqs && s.reqs[r] == q && s.rows == s0.rows && s.h.fams == s0.h.fams
    && Holders(s.reqs, f) <= Holders(s0.reqs, f)
  }

  lemma BecomeWaits(s0: State, s: State, r: ReqId, q: Request, q': Request, f: FamilyId)
    requires Waiting(s0, s, r, q, f) && !HasBaton(q')
    ensures Waiting(s0, Become(s, r, q'), r, q', f)
  {
  }

  /** Arrival, lost claim and diagnosis change no row. */
  lemma ReplayIsSeen(tr: Trace, i: nat, r: ReqId, t: Token, f: FamilyId)
    requires Legal(tr) && RefreshesAlone(tr, i, r, t)
    requires t in tr.states[i].rows && tr.states[i].rows[t].usedAt.Some? && tr.states[i].rows[t].family == f
    ensures Waiting(tr.states[i], tr.states[i + 3], r, ReuseSeen(t, f), f)
  {
    var s0, s1, s2 := tr.states[i], tr.states[i + 1], tr.states[i + 2];
    assert Happens(tr, i) && Happens(tr, i + 1) && Happens(tr, i + 2);
    assert Waiting(s0, s1, r, Presented(t), f);
    BecomeWaits(s0, s1, r, Presented(t), ClaimFailed(t, s1.now), f);
    assert s2 == Become(s1, r, ClaimFailed(t, s1.now));
    BecomeWaits(s0, s2, r, ClaimFailed(t, s1.now), ReuseSeen(t, f), f);
  }

  lemma ReplayEndsDead(tr: Trace, i: nat, r: ReqId, t: Token, f: FamilyId)
    requires Legal(tr) && RefreshesAlone(tr, i, r, t) && RowsOk(tr.states[i].rows, tr.states[i].h)
    requires t in tr.states[i].rows && tr.states[i].rows[t].usedAt.Some? && tr.states[i].rows[t].family == f
    requires Holders(tr.states[i].reqs, f) == {}
    ensures Dead(tr.states[i + 4], f)
    ensures r in tr.states[i + 4].reqs && tr.states[i + 4].reqs[r] == Finished(Unauthorized)
  {
    var s0, s3 := tr.states[i], tr.states[i + 3];
    ReplayIsSeen(tr, i, r, t, f);
    assert Happens(tr, i + 3);
    BecomeWaits(s0, s3, r, ReuseSeen(t, f), Finished(Unauthorized), f);
    assert tr.states[i + 4] == DeleteRows(s3, r, DeleteFamily(s3.rows, f), Unauthorized);
  }

  // --- No replay goes unnoticed while rotations are not raced by burns ---

  /** Families are deleted only while nobody is extending them. */
  ghost predicate Uncontended(s: State, e: Event)
  {
    e.Exec? && e.r in s.reqs ==>
      && (s.reqs[e.r].ReuseSeen? || s.reqs[e.r].LogoutSeen? ==> Holders(s.reqs, s.reqs[e.r].family) == {})
      && (s.reqs[e.r].Revoking? ==> forall x {:trigger s.reqs[x]} | x in s.reqs && HasBaton(s.reqs[x]) ::
          s.reqs[x].user != s.reqs[e.r].user)
  }

  /** Every token ever inserted still has its row, has expired, or belongs to a dead family. */
  ghost predicate NothingLost(s: State)
  {
    forall t {:trigger t in s.h.born} | t in s.h.born ::
      t in s.rows || s.h.born[t].expires <= s.now || Dead(s, s.h.born[t].family)
  }

  predicate Deletes(q: Request)
  {
    q.ReuseSeen? || q.ExpiredSeen? || q.LogoutSeen? || q.Revoking? || q.SweepAsked?
  }

  lemma OnlyDeletesRemove(s: State, e: Event, t: Token)
    requires Enabled(s, e) && t in s.rows && t !in Next(s, e).rows
    ensures e.Exec? && Deletes(s.reqs[e.r])
  {
    if e.Exec? {
      var q := s.reqs[e.r];
      if q.Presented? || q.Authenticated? || HasBaton(q) { RotateRemovesNone(s, e.r, e.n); }
    }
  }

  lemma RotateRemovesNone(s: State, r: ReqId, n: nat)
    requires r in s.reqs && (s.reqs[r].Presented? || s.reqs[r].Authenticated? || HasBaton(s.reqs[r]))
    ensures s.rows.Keys <= Rotate(s, r, n).rows.Keys
  {
  }

  /** The rows a step takes away are those of a burnt family or account, or expired ones. */
  lemma RowsGo(s: State, e: Event, t: Token)
    requires Inv(s) && Enabled(s, e) && t in s.rows && t !in Next(s, e).rows && s.now < s.rows[t].expires
    ensures e.Exec? && Next(s, e).h == s.h && Next(s, e).reqs == s.reqs[e.r := Next(s, e).reqs[e.r]] &&
            Next(s, e).reqs[e.r].Finished?
    ensures || (Burning(s.reqs[e.r], s.rows[t].family) && Next(s, e).rows == DeleteFamily(s.rows, s.rows[t].family))
            || (s.reqs[e.r].Revoking? && s.reqs[e.r].user == s.rows[t].user &&
                Next(s, e).rows == DeleteUserRows(s.rows, s.rows[t].user))
  {
    OnlyDeletesRemove(s, e, t);
    assert RequestOk(s, e.r, s.reqs[e.r]);
  }

  lemma LossStep(s: State, e: Event)
    requires Good(s) && Enabled(s, e) && NothingLost(s) && Uncontended(s, e)
    ensures NothingLost(Next(s, e))
  {
    var s' := Next(s, e);
    StepLater(s, e);
    forall t | t in s'.h.born
      ensures t in s'.rows || s'.h.born[t].expires <= s'.now || Dead(s', s'.h.born[t].family)
    {
      if t !in s.h.born {
        NewbornHasRow(s, e, t);
      } else if t !in s'.rows {
        LossCase(s, e, t);
      }
    }
  }

  lemma NewbornHasRow(s: State, e: Event, t: Token)
    requires Enabled(s, e) && t !in s.h.born && t in Next(s, e).h.born
    ensures t in Next(s, e).rows
  {
    if !(e.Exec? && e.r in s.reqs && s.reqs[e.r].Storing?) { OnlyInsertsBear(s, e); }
  }

  lemma OnlyInsertsBear(s: State, e: Event)
    requires Enabled(s, e) && !(e.Exec? && s.reqs[e.r].Storing?)
    ensures Next(s, e).h.born == s.h.born
  {
  }

  lemma LossCase(s: State, e: Event, t: Token)
    requires Good(s) && Enabled(s, e) && NothingLost(s) && Uncontended(s, e)
    requires t in s.h.born && t !in Next(s, e).rows
    ensures s.h.born[t].expires <= Next(s, e).now || Dead(Next(s, e), s.h.born[t].family)
  {
    var s', f := Next(s, e), s.h.born[t].family;
    StepLater(s, e);
    if t !in s.rows {
      if Dead(s, f) { DeadStep(s, e, f); }
    } else {
      if s.now < s.rows[t].expires { BurnKills(s, e, t); }
    }
  }

  lemma BurnKills(s: State, e: Event, t: Token)
    requires Good(s) && Enabled(s, e) && Uncontended(s, e)
    requires t in s.rows && t !in Next(s, e).rows && s.now < s.rows[t].expires
    ensures Dead(Next(s, e), s.rows[t].family)
  {
    var s', f := Next(s, e), s.rows[t].family;
    RowsGo(s, e, t);
    assert Holders(s'.reqs, f) <= Holders(s.reqs, f);
    HoldersShareOwner(s, f);
    if s.reqs[e.r].Revoking? {
      RevokedAlike(s, f, s.rows[t].user);
    }
  }

  lemma HoldersShareOwner(s: State, f: FamilyId)
    requires Inv(s)
    ensures forall x | x in Holders(s.reqs, f) :: f in s.h.fams && s.reqs[x].user == s.h.fams[f].user
  {
    forall x | x in Holders(s.reqs, f) ensures f in s.h.fams && s.reqs[x].user == s.h.fams[f].user
    {
      assert RequestOk(s, x, s.reqs[x]);
    }
  }

  lemma RevokedAlike(s: State, f: FamilyId, u: UserId)
    requires Inv(s) && f in s.h.fams && s.h.fams[f].user == u
    ensures NoRows(DeleteUserRows(s.rows, u), f)
  {
  }

  lemma EventLoss(tr: Trace, i: nat)
    requires Reached(tr) && i < |tr.events| && Uncontended(tr.states[i], tr.events[i]) && NothingLost(tr.states[i])
    ensures NothingLost(tr.states[i + 1])
  {
    ReachedSound(tr);
    SoundGood(tr, i);
    assert Happens(tr, i);
    LossStep(tr.states[i], tr.events[i]);
  }

  lemma {:induction false} NothingIsLost(tr: Trace, i: nat)
    requires Reached(tr) && i < |tr.states|
    requires forall k {:trigger tr.events[k]} | 0 <= k < i :: Uncontended(tr.states[k], tr.events[k])
    ensures NothingLost(tr.states[i])
  {
    if i > 0 {
      NothingIsLost(tr, i - 1);
      EventLoss(tr, i - 1);
    }
  }

  /**
   In runs where no burn races a rotation, a rotated token that has not expired is known for
   what it is as long as its family can be used at all: its row is there, marked used.
   */
  lemma ReplayIsAlwaysNoticed(tr: Trace, i: nat, t: Token)
    requires Reached(tr) && i < |tr.states|
    requires forall k {:trigger tr.events[k]} | 0 <= k < i :: Uncontended(tr.states[k], tr.events[k])
    requires var s := tr.states[i];
             t in s.h.claimant && t in s.h.born && s.now < s.h.born[t].expires && !Dead(s, s.h.born[t].family)
    ensures t in tr.states[i].rows && tr.states[i].rows[t].usedAt.Some?
  {
    NothingIsLost(tr, i);
    ReachedInv(tr, i);
  }

  // --- One request at a time ---

  /** When a request moves, every other is finished. */
  predicate Solitary(s: State, e: Event)
  {
    e.Exec? ==> forall x | x in s.reqs && x != e.r :: s.reqs[x].Finished?
  }

  lemma SolitaryIsUncontended(s: State, e: Event)
    requires Solitary(s, e)
    ensures Uncontended(s, e)
  {
  }

  lemma SolitaryHolders(s: State, r: ReqId, n: nat, f: FamilyId)
    requires Solitary(s, Exec(r, n)) && r in s.reqs && s.reqs[r].Presented?
    ensures Holders(s.reqs, f) == {}
  {
  }

  /**
   With one request at a time, presenting any rotated token that has not expired leaves its
   family dead, however long the chain grew since: replays always burn.
   */
  lemma SequentialReplayBurns(tr: Trace, i: nat, r: ReqId, t: Token)
    requires Reached(tr) && RefreshesAlone(tr, i, r, t)
    requires forall k {:trigger tr.events[k]} | 0 <= k < |tr.events| :: Solitary(tr.states[k], tr.events[k])
    requires t in tr.states[i].h.claimant && t in tr.states[i].h.born &&
             tr.states[i].now < tr.states[i].h.born[t].expires
    ensures Dead(tr.states[i + 4], tr.states[i].h.born[t].family)
    ensures NoneWinsFrom(tr, i + 4, tr.states[i].h.born[t].family)
  {
    var s, f := tr.states[i], tr.states[i].h.born[t].family;
    ReachedSound(tr);
    forall k | 0 <= k < i ensures Uncontended(tr.states[k], tr.events[k])
    {
      SolitaryIsUncontended(tr.states[k], tr.events[k]);
    }
    if Dead(s, f) {
      DeadStays(tr, i, i + 4, f);
      AfterDeath(tr, i + 4, f);
    } else {
      ReplayIsAlwaysNoticed(tr, i, t);
      ReachedInv(tr, i);
      NoHoldersYet(tr, i, r, t, f);
      ReplayBurnsEverything(tr, i, r, t, f);
    }
  }

  lemma NoHoldersYet(tr: Trace, i: nat, r: ReqId, t: Token, f: FamilyId)
    requires Legal(tr) && RefreshesAlone(tr, i, r, t) && Solitary(tr.states[i + 1], tr.events[i + 1])
    ensures Holders(tr.states[i].reqs, f) == {}
  {
    assert Happens(tr, i);
    SolitaryHolders(tr.states[i + 1], r, tr.events[i + 1].n, f);
    forall x | x in Holders(tr.states[i].reqs, f) ensures x in Holders(tr.states[i + 1].reqs, f) {}
  }
}
