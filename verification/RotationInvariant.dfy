/**
 The inductive invariant of `Rotation`, in parts, and its preservation by every event.
 Each part speaks only of the components it needs, so a statement that leaves those
 alone keeps it without further argument.
 */
module RotationInvariant {
  import opened Base
  import opened Tables
  import opened Rotation

  type Fams = map<FamilyId, Lineage>
  type Births = map<Token, Birth>

  /** The token is inserted history at the place its birth record says. */
  predicate Placed(fams: Fams, b: Birth, t: Token)
  {
    b.family in fams && b.pos < |fams[b.family].chain| && fams[b.family].chain[b.pos] == t
  }

  predicate IsLast(fams: Fams, b: Birth)
  {
    b.family in fams && b.pos == |fams[b.family].chain| - 1
  }

  function LastOf(fams: Fams, f: FamilyId): Option<Token>
  {
    if f in fams && fams[f].chain != [] then Some(fams[f].chain[|fams[f].chain| - 1]) else None
  }

  function Before(fams: Fams, b: Birth): Option<Token>
  {
    if b.family in fams && 0 < b.pos <= |fams[b.family].chain| then Some(fams[b.family].chain[b.pos - 1]) else None
  }

  /** `t` was inserted into the same family before `u`. */
  predicate Older(born: Births, t: Token, u: Token)
  {
    t in born && u in born && born[t].family == born[u].family && born[t].pos < born[u].pos
  }

  ghost predicate ChainsOk(fams: Fams, born: Births)
  {
    && (forall f, i {:trigger fams[f].chain[i]} | f in fams && 0 <= i < |fams[f].chain| ::
          fams[f].chain[i] in born && born[fams[f].chain[i]].family == f && born[fams[f].chain[i]].pos == i)
    && (forall t {:trigger Placed(fams, born[t], t)} {:trigger t in born} | t in born :: Placed(fams, born[t], t))
  }

  ghost predicate RowsOk(rows: TokenTable, h: Ledger)
  {
    forall t {:trigger rows[t]} {:trigger t in rows} | t in rows ::
      && t in h.born && rows[t].family == h.born[t].family && rows[t].expires == h.born[t].expires
      && rows[t].family in h.fams && rows[t].user == h.fams[rows[t].family].user
      && (rows[t].usedAt.Some? <==> t in h.claimant)
  }

  ghost predicate KeysOk(h: Ledger)
  {
    && (forall t {:trigger t in h.claimant} | t in h.claimant :: t in h.born)
    && (forall t {:trigger t in h.born} | t in h.born :: t in h.minted)
    && (forall t {:trigger t in h.presented} | t in h.presented && t in h.minted :: t in h.born)
  }

  /** Each token descends from the one inserted before it. */
  ghost predicate Descends(fams: Fams, born: Births)
  {
    forall t {:trigger born[t].parent} | t in born :: born[t].parent == Before(fams, born[t])
  }

  /** Every token but the last of its family was claimed. */
  ghost predicate OnlyLastUnclaimed(h: Ledger)
  {
    forall t {:trigger t in h.claimant} {:trigger IsLast(h.fams, h.born[t])} | t in h.born ::
      t in h.claimant || IsLast(h.fams, h.born[t])
  }

  ghost predicate ExpiryOrdered(born: Births)
  {
    forall t, u {:trigger Older(born, t, u)} | Older(born, t, u) :: born[t].expires <= born[u].expires
  }

  ghost predicate ExpiryBounded(born: Births, limit: Time)
  {
    forall t {:trigger born[t].expires} | t in born :: born[t].expires <= limit
  }

  /** A row missing above a surviving one is the last of its family, dropped unclaimed. */
  ghost predicate GapFree(rows: TokenTable, h: Ledger)
  {
    forall t, u {:trigger Older(h.born, t, u)} | Older(h.born, t, u) && t in rows && u !in rows ::
      IsLast(h.fams, h.born[u]) && u !in h.claimant
  }

  /** What a baton holder may rely on: the family is its own and every token of it was claimed, the last by itself. */
  ghost predicate BatonOk(h: Ledger, r: ReqId, q: Request)
  {
    HasBaton(q) ==>
      && q.family in h.fams
      && q.user == h.fams[q.family].user
      && (forall t {:trigger t in h.claimant} | t in h.born && h.born[t].family == q.family :: t in h.claimant)
      && q.parent == LastOf(h.fams, q.family)
      && (q.parent.None? ==> h.fams[q.family].root == r)
      && (q.parent.Some? ==> q.parent.value in h.claimant && h.claimant[q.parent.value] == r)
  }

  ghost predicate StoringOk(h: Ledger, limit: Time, r: ReqId, q: Request)
  {
    q.Storing? ==>
      && q.token in h.minted && h.minted[q.token] == r
      && q.token !in h.born
      && q.expires <= limit
      && (forall t {:trigger h.born[t].expires} | t in h.born && h.born[t].family == q.family ::
          h.born[t].expires <= q.expires)
  }

  /** What a request has found out about the token it presented. */
  ghost predicate FindingOk(rows: TokenTable, h: Ledger, now: Time, q: Request)
  {
    match q
    case Presented(t) => t in h.presented
    case LogoutAsked(t) => t in h.presented
    case ClaimFailed(t, at) => t in h.presented && at <= now &&
      (t in rows && rows[t].usedAt.None? ==> rows[t].expires <= at)
    case ReuseSeen(t, f) => t in h.claimant && t in h.born && h.born[t].family == f
    case ExpiredSeen(t) => t in h.born && t !in h.claimant && h.born[t].expires <= now
    case SweepAsked(at) => at <= now
    case _ => true
  }

  ghost predicate RequestOk(s: State, r: ReqId, q: Request)
  {
    BatonOk(s.h, r, q) && StoringOk(s.h, s.now + s.life, r, q) && FindingOk(s.rows, s.h, s.now, q)
  }

  ghost predicate RequestsOk(s: State)
  {
    forall r {:trigger s.reqs[r]} {:trigger r in s.reqs} | r in s.reqs :: RequestOk(s, r, s.reqs[r])
  }

  ghost predicate OneHolder(reqs: map<ReqId, Request>)
  {
    forall r1, r2 {:trigger HasBaton(reqs[r1]), HasBaton(reqs[r2])} |
      r1 in reqs && r2 in reqs && HasBaton(reqs[r1]) && HasBaton(reqs[r2]) && reqs[r1].family == reqs[r2].family ::
        r1 == r2
  }

  ghost predicate HistoryOk(h: Ledger)
  {
    ChainsOk(h.fams, h.born) && KeysOk(h) && Descends(h.fams, h.born) && OnlyLastUnclaimed(h) && ExpiryOrdered(h.born)
  }

  ghost predicate TokensOk(rows: TokenTable, h: Ledger)
  {
    RowsOk(rows, h) && GapFree(rows, h)
  }

  ghost predicate Inv(s: State)
  {
    && HistoryOk(s.h) && TokensOk(s.rows, s.h) && ExpiryBounded(s.h.born, s.now + s.life)
    && RequestsOk(s) && OneHolder(s.reqs) && UniqueActiveEmails(s.users)
  }

  lemma InitialInv(s: State)
    requires Initial(s)
    ensures Inv(s)
  {
  }

  // --- Kinds of effect ---

  /** The other requests of a step that changes only `r`. */
  lemma OthersKeep(s: State, s': State, r: ReqId, q: Request)
    requires RequestsOk(s) && s'.reqs == s.reqs[r := q]
    requires RequestOk(s', r, q)
    requires forall x {:trigger s.reqs[x]} | x in s.reqs && x != r :: RequestOk(s', x, s.reqs[x])
    ensures RequestsOk(s')
  {
    forall x | x in s'.reqs ensures RequestOk(s', x, s'.reqs[x])
    {
      if x != r { assert s'.reqs[x] == s.reqs[x]; }
    }
  }

  lemma HoldersKeep(reqs: map<ReqId, Request>, r: ReqId, q: Request)
    requires OneHolder(reqs)
    requires HasBaton(q) ==> forall x {:trigger reqs[x]} | x in reqs && x != r && HasBaton(reqs[x]) ::
             reqs[x].family != q.family
    ensures OneHolder(reqs[r := q])
  {
    var reqs' := reqs[r := q];
    forall a, b | a in reqs' && b in reqs' && HasBaton(reqs'[a]) && HasBaton(reqs'[b]) &&
           reqs'[a].family == reqs'[b].family
      ensures a == b
    {
      if a != r { assert HasBaton(reqs[a]); }
      if b != r { assert HasBaton(reqs[b]); }
    }
  }

  /** Time passing, or a token being presented, disturbs no request. */
  lemma RequestKeeps(s: State, s': State, x: ReqId)
    requires RequestsOk(s) && x in s.reqs
    requires s'.rows == s.rows && s'.life == s.life && s.now <= s'.now
    requires s'.h == s.h.(presented := s'.h.presented) && s.h.presented <= s'.h.presented
    ensures RequestOk(s', x, s.reqs[x])
  {
    assert RequestOk(s, x, s.reqs[x]);
  }

  /** A statement that leaves tokens alone and after which the request holds no baton. */
  lemma QuietKeeps(s: State, s': State, r: ReqId, q: Request)
    requires Inv(s) && s'.rows == s.rows && s'.h == s.h && s'.life == s.life && s'.now == s.now
    requires s'.reqs == s.reqs[r := q]
    requires !HasBaton(q) && FindingOk(s'.rows, s'.h, s'.now, q)
    requires UniqueActiveEmails(s'.users)
    ensures Inv(s')
  {
    forall x | x in s.reqs && x != r ensures RequestOk(s', x, s.reqs[x]) { RequestKeeps(s, s', x); }
    OthersKeep(s, s', r, q);
    HoldersKeep(s.reqs, r, q);
  }

  lemma ArriveKeeps(s: State, r: ReqId, q: Request)
    requires Inv(s) && Enabled(s, Arrive(r, q))
    ensures Inv(Admit(s, r, q))
  {
    var s' := Admit(s, r, q);
    forall x | x in s.reqs && x != r ensures RequestOk(s', x, s.reqs[x]) { RequestKeeps(s, s', x); }
    OthersKeep(s, s', r, q);
    HoldersKeep(s.reqs, r, q);
  }

  lemma ClockKeeps(s: State, d: nat)
    requires Inv(s)
    ensures Inv(s.(now := s.now + d))
  {
    var s' := s.(now := s.now + d);
    forall x | x in s.reqs ensures RequestOk(s', x, s.reqs[x]) { RequestKeeps(s, s', x); }
  }

  lemma SetMfaKeeps(s: State, u: UserId, on: bool)
    requires Inv(s) && u in s.users
    ensures Inv(s.(users := s.users[u := s.users[u].(mfa := on)]))
  {
    var s' := s.(users := s.users[u := s.users[u].(mfa := on)]);
    forall x | x in s.reqs ensures RequestOk(s', x, s.reqs[x]) { RequestKeeps(s, s', x); }
  }

  /** findById passes the baton on within the request. */
  lemma PassKeeps(s: State, r: ReqId)
    requires Inv(s) && r in s.reqs && s.reqs[r].Claimed? && Active(s.users, s.reqs[r].user)
    ensures Inv(LookUpUser(s, r, s.reqs[r]))
  {
    var s' := LookUpUser(s, r, s.reqs[r]);
    assert RequestOk(s, r, s.reqs[r]) && HasBaton(s.reqs[r]);
    forall x | x in s.reqs && x != r ensures RequestOk(s', x, s.reqs[x]) { RequestKeeps(s, s', x); }
    OthersKeep(s, s', r, s'.reqs[r]);
    forall x | x in s.reqs && x != r && HasBaton(s.reqs[x]) ensures s.reqs[x].family != s'.reqs[r].family {}
    HoldersKeep(s.reqs, r, s'.reqs[r]);
  }

  lemma MintKeeps(s: State, r: ReqId, t: Token)
    requires Inv(s) && r in s.reqs && s.reqs[r].Issuing? && t !in s.h.minted && t !in s.h.presented
    ensures Inv(Mint(s, r, s.reqs[r], t))
  {
    var q := s.reqs[r];
    var s' := Mint(s, r, q, t);
    assert RequestOk(s, r, q) && HasBaton(q);
    assert KeysOk(s'.h);
    assert OnlyLastUnclaimed(s'.h);
    assert HistoryOk(s'.h);
    assert GapFree(s'.rows, s'.h);
    assert RowsOk(s'.rows, s'.h);
    forall x | x in s.reqs && x != r ensures RequestOk(s', x, s.reqs[x])
    {
      assert RequestOk(s, x, s.reqs[x]);
    }
    assert BatonOk(s'.h, r, s'.reqs[r]);
    OthersKeep(s, s', r, s'.reqs[r]);
    forall x | x in s.reqs && x != r && HasBaton(s.reqs[x]) ensures s.reqs[x].family != q.family {}
    HoldersKeep(s.reqs, r, s'.reqs[r]);
  }

  /** Any DELETE that opens no gap. */
  lemma DeleteKeeps(s: State, r: ReqId, left: TokenTable, o: Outcome)
    requires Inv(s)
    requires forall t | t in left :: t in s.rows && left[t] == s.rows[t]
    requires GapFree(left, s.h)
    ensures Inv(DeleteRows(s, r, left, o))
  {
    var s' := DeleteRows(s, r, left, o);
    forall x | x in s.reqs && x != r ensures RequestOk(s', x, s.reqs[x])
    {
      assert RequestOk(s, x, s.reqs[x]);
    }
    OthersKeep(s, s', r, s'.reqs[r]);
    HoldersKeep(s.reqs, r, s'.reqs[r]);
  }

  lemma FamilyDeleteGapFree(s: State, f: FamilyId)
    requires Inv(s)
    ensures GapFree(DeleteFamily(s.rows, f), s.h)
  {
  }

  lemma UserDeleteGapFree(s: State, u: UserId)
    requires Inv(s)
    ensures GapFree(DeleteUserRows(s.rows, u), s.h)
  {
  }

  lemma SweepGapFree(s: State, at: Time)
    requires Inv(s)
    ensures GapFree(DeleteExpired(s.rows, at), s.h)
  {
  }

  lemma DropGapFree(s: State, t: Token)
    requires Inv(s) && t in s.h.born && t !in s.h.claimant
    ensures GapFree(s.rows - {t}, s.h)
  {
  }

  /** A claimable token is the last of its family, and nobody holds the family. */
  lemma ClaimableIsLast(s: State, t: Token)
    requires Inv(s) && t in s.rows && s.rows[t].usedAt.None?
    ensures LastOf(s.h.fams, s.rows[t].family) == Some(t) && s.rows[t].family in s.h.fams
    ensures forall x {:trigger s.reqs[x]} | x in s.reqs && HasBaton(s.reqs[x]) :: s.reqs[x].family != s.rows[t].family
    ensures forall u | u in s.h.born && s.h.born[u].family == s.rows[t].family && u != t :: u in s.h.claimant
  {
    assert t !in s.h.claimant && IsLast(s.h.fams, s.h.born[t]) && Placed(s.h.fams, s.h.born[t], t);
    forall x | x in s.reqs && HasBaton(s.reqs[x]) ensures s.reqs[x].family != s.rows[t].family
    {
      assert RequestOk(s, x, s.reqs[x]);
    }
    forall u | u in s.h.born && s.h.born[u].family == s.rows[t].family && u != t ensures u in s.h.claimant
    {
      assert Placed(s.h.fams, s.h.born[u], u);
    }
  }

  lemma ClaimKeeps(s: State, r: ReqId, t: Token)
    requires Inv(s) && r in s.reqs && s.reqs[r] == Presented(t) && Claimable(s.rows, t, s.now)
    ensures Inv(Claim(s, r, t))
  {
    var s' := Claim(s, r, t);
    ClaimableIsLast(s, t);
    ClaimKeepsTokens(s, r, t);
    forall x | x in s.reqs && x != r ensures RequestOk(s', x, s.reqs[x])
    {
      assert RequestOk(s, x, s.reqs[x]);
    }
    OthersKeep(s, s', r, s'.reqs[r]);
    HoldersKeep(s.reqs, r, s'.reqs[r]);
  }

  lemma ClaimKeepsTokens(s: State, r: ReqId, t: Token)
    requires Inv(s) && Claimable(s.rows, t, s.now)
    ensures HistoryOk(Claim(s, r, t).h) && TokensOk(Claim(s, r, t).rows, Claim(s, r, t).h)
  {
    var s' := Claim(s, r, t);
    assert OnlyLastUnclaimed(s'.h);
    assert RowsOk(s'.rows, s'.h);
    assert GapFree(s'.rows, s'.h);
  }

  /** A fresh family starts empty, with its root request as the only holder. */
  lemma StartFamilyKeeps(s: State, r: ReqId, f: FamilyId)
    requires Inv(s) && r in s.reqs && s.reqs[r].Authenticated? && f !in s.h.fams
    ensures Inv(StartFamily(s, r, s.reqs[r], f))
  {
    var s' := StartFamily(s, r, s.reqs[r], f);
    StartFamilyKeepsTokens(s, r, f);
    forall x | x in s.reqs && x != r
      ensures RequestOk(s', x, s.reqs[x])
      ensures HasBaton(s.reqs[x]) ==> s.reqs[x].family != f
    {
      assert RequestOk(s, x, s.reqs[x]);
    }
    StarterIsOk(s, r, f);
    OthersKeep(s, s', r, s'.reqs[r]);
    HoldersKeep(s.reqs, r, s'.reqs[r]);
  }

  lemma StarterIsOk(s: State, r: ReqId, f: FamilyId)
    requires Inv(s) && r in s.reqs && s.reqs[r].Authenticated? && f !in s.h.fams
    ensures var s' := StartFamily(s, r, s.reqs[r], f); RequestOk(s', r, s'.reqs[r])
  {
    forall t | t in s.h.born ensures s.h.born[t].family != f { assert Placed(s.h.fams, s.h.born[t], t); }
  }

  lemma StartFamilyKeepsTokens(s: State, r: ReqId, f: FamilyId)
    requires Inv(s) && r in s.reqs && s.reqs[r].Authenticated? && f !in s.h.fams
    ensures var s' := StartFamily(s, r, s.reqs[r], f); HistoryOk(s'.h) && TokensOk(s'.rows, s'.h)
  {
    var h, h' := s.h, StartFamily(s, r, s.reqs[r], f).h;
    forall t | t in h.born
      ensures h.born[t].family != f && Placed(h'.fams, h.born[t], t)
      ensures Before(h'.fams, h.born[t]) == Before(h.fams, h.born[t])
      ensures IsLast(h'.fams, h.born[t]) == IsLast(h.fams, h.born[t])
    {
      assert Placed(h.fams, h.born[t], t);
    }
  }

  /** The INSERT appends the holder's token to its chain. */
  lemma InsertEffect(s: State, r: ReqId)
    requires Inv(s) && r in s.reqs && s.reqs[r].Storing?
    ensures var q, h, h' := s.reqs[r], s.h, Insert(s, r, s.reqs[r]).h;
            && q.family in h.fams && q.token !in h.born && q.token !in h.claimant && q.token !in s.rows
            && h'.fams == h.fams[q.family := h.fams[q.family].(chain := h.fams[q.family].chain + [q.token])]
            && h'.born ==
               h.born[q.token := Birth(q.family, |h.fams[q.family].chain|, LastOf(h.fams, q.family), q.expires)]
            && h' == h.(fams := h'.fams, born := h'.born)
            && LastOf(h'.fams, q.family) == Some(q.token)
            && (forall t {:trigger Placed(h'.fams, h.born[t], t)} | t in h.born ::
                  && Placed(h'.fams, h.born[t], t)
                  && Before(h'.fams, h.born[t]) == Before(h.fams, h.born[t])
                  && (h.born[t].family == q.family ==> t in h.claimant && !IsLast(h'.fams, h.born[t]))
                  && (h.born[t].family != q.family ==> IsLast(h'.fams, h.born[t]) == IsLast(h.fams, h.born[t])))
  {
    var q, h := s.reqs[r], s.h;
    assert RequestOk(s, r, q) && HasBaton(q);
    var h' := Insert(s, r, q).h;
    forall t | t in h.born
      ensures && Placed(h'.fams, h.born[t], t)
              && Before(h'.fams, h.born[t]) == Before(h.fams, h.born[t])
              && (h.born[t].family == q.family ==> t in h.claimant && !IsLast(h'.fams, h.born[t]))
              && (h.born[t].family != q.family ==> IsLast(h'.fams, h.born[t]) == IsLast(h.fams, h.born[t]))
    {
      assert Placed(h.fams, h.born[t], t);
    }
  }

  lemma InsertKeepsHistory(s: State, r: ReqId)
    requires Inv(s) && r in s.reqs && s.reqs[r].Storing?
    ensures HistoryOk(Insert(s, r, s.reqs[r]).h)
  {
    InsertChains(s, r);
    InsertDescends(s, r);
    InsertAges(s, r);
  }

  lemma InsertChains(s: State, r: ReqId)
    requires Inv(s) && r in s.reqs && s.reqs[r].Storing?
    ensures var h' := Insert(s, r, s.reqs[r]).h; ChainsOk(h'.fams, h'.born) && KeysOk(h')
  {
    var h' := Insert(s, r, s.reqs[r]).h;
    forall f, i | f in h'.fams && 0 <= i < |h'.fams[f].chain|
      ensures h'.fams[f].chain[i] in h'.born
      ensures h'.born[h'.fams[f].chain[i]].family == f && h'.born[h'.fams[f].chain[i]].pos == i
    {
      InsertPlaces(s, r, f, i);
    }
    InsertKeys(s, r);
  }

  /** Each place of a chain holds what it held; the new one holds the new token. */
  lemma InsertPlaces(s: State, r: ReqId, f: FamilyId, i: nat)
    requires Inv(s) && r in s.reqs && s.reqs[r].Storing?
    requires var h' := Insert(s, r, s.reqs[r]).h; f in h'.fams && i < |h'.fams[f].chain|
    ensures var h', t := Insert(s, r, s.reqs[r]).h, Insert(s, r, s.reqs[r]).h.fams[f].chain[i];
            t in h'.born && h'.born[t].family == f && h'.born[t].pos == i
  {
    InsertEffect(s, r);
    if f != s.reqs[r].family || i < |s.h.fams[f].chain| {
      assert Insert(s, r, s.reqs[r]).h.fams[f].chain[i] == s.h.fams[f].chain[i];
    }
  }

  lemma InsertKeys(s: State, r: ReqId)
    requires Inv(s) && r in s.reqs && s.reqs[r].Storing?
    ensures var h' := Insert(s, r, s.reqs[r]).h;
            && KeysOk(h')
            && forall t {:trigger Placed(h'.fams, h'.born[t], t)} | t in h'.born :: Placed(h'.fams, h'.born[t], t)
  {
    InsertEffect(s, r);
    assert RequestOk(s, r, s.reqs[r]);
  }

  lemma InsertDescends(s: State, r: ReqId)
    requires Inv(s) && r in s.reqs && s.reqs[r].Storing?
    ensures var h' := Insert(s, r, s.reqs[r]).h; Descends(h'.fams, h'.born) && OnlyLastUnclaimed(h')
  {
    var q, h := s.reqs[r], s.h;
    var h' := Insert(s, r, q).h;
    InsertEffect(s, r);
    assert RequestOk(s, r, q) && HasBaton(q);
    forall t | t in h'.born
      ensures h'.born[t].parent == Before(h'.fams, h'.born[t])
      ensures t in h'.claimant || IsLast(h'.fams, h'.born[t])
    {
      if t != q.token {
        assert Placed(h'.fams, h.born[t], t);
        assert h.born[t].parent == Before(h.fams, h.born[t]);
        assert t in h.claimant || IsLast(h.fams, h.born[t]);
      }
    }
  }

  lemma InsertAges(s: State, r: ReqId)
    requires Inv(s) && r in s.reqs && s.reqs[r].Storing?
    ensures ExpiryOrdered(Insert(s, r, s.reqs[r]).h.born)
  {
    var q, h := s.reqs[r], s.h;
    var h' := Insert(s, r, q).h;
    InsertEffect(s, r);
    assert RequestOk(s, r, q);
    forall t, u | Older(h'.born, t, u) ensures h'.born[t].expires <= h'.born[u].expires
    {
      assert u in h.born ==> Placed(h'.fams, h.born[u], u);
      if t == q.token {
        assert false;
      } else if u != q.token {
        assert Older(h.born, t, u);
      } else {
        assert h.born[t].expires <= q.expires;
      }
    }
  }

  lemma InsertKeepsRows(s: State, r: ReqId)
    requires Inv(s) && r in s.reqs && s.reqs[r].Storing?
    ensures var s' := Insert(s, r, s.reqs[r]); TokensOk(s'.rows, s'.h)
  {
    var q, h := s.reqs[r], s.h;
    var s' := Insert(s, r, q);
    var h' := s'.h;
    InsertEffect(s, r);
    assert RequestOk(s, r, q) && HasBaton(q);
    assert RowsOk(s'.rows, h');
    forall t, u | Older(h'.born, t, u) && t in s'.rows && u !in s'.rows
      ensures IsLast(h'.fams, h'.born[u]) && u !in h'.claimant
    {
      assert Placed(h'.fams, h.born[u], u);
      if t == q.token {
        assert false;
      } else {
        assert Older(h.born, t, u);
      }
    }
  }

  lemma InsertKeeps(s: State, r: ReqId)
    requires Inv(s) && r in s.reqs && s.reqs[r].Storing?
    ensures Inv(Insert(s, r, s.reqs[r]))
  {
    InsertKeepsHistory(s, r);
    InsertKeepsRows(s, r);
    InsertKeepsBounds(s, r);
    InsertKeepsRequests(s, r);
    HoldersKeep(s.reqs, r, Insert(s, r, s.reqs[r]).reqs[r]);
  }

  lemma InsertKeepsBounds(s: State, r: ReqId)
    requires Inv(s) && r in s.reqs && s.reqs[r].Storing?
    ensures var s' := Insert(s, r, s.reqs[r]); ExpiryBounded(s'.h.born, s'.now + s'.life)
  {
    assert RequestOk(s, r, s.reqs[r]);
  }

  lemma InsertKeepsRequests(s: State, r: ReqId)
    requires Inv(s) && r in s.reqs && s.reqs[r].Storing?
    ensures RequestsOk(Insert(s, r, s.reqs[r]))
  {
    var s' := Insert(s, r, s.reqs[r]);
    forall x | x in s.reqs && x != r ensures RequestOk(s', x, s.reqs[x])
    {
      InsertKeepsOther(s, r, x);
    }
    OthersKeep(s, s', r, s'.reqs[r]);
  }

  lemma InsertKeepsOther(s: State, r: ReqId, x: ReqId)
    requires Inv(s) && r in s.reqs && s.reqs[r].Storing? && x in s.reqs && x != r
    ensures RequestOk(Insert(s, r, s.reqs[r]), x, s.reqs[x])
  {
    var s' := Insert(s, r, s.reqs[r]);
    InsertEffect(s, r);
    assert RequestOk(s, x, s.reqs[x]);
    assert FindingOk(s'.rows, s'.h, s'.now, s.reqs[x]);
    if HasBaton(s.reqs[x]) { InsertKeepsHolder(s, r, x); }
  }

  /** Another holder's family is another, so neither its chain nor its claims change. */
  lemma InsertKeepsHolder(s: State, r: ReqId, x: ReqId)
    requires Inv(s) && r in s.reqs && s.reqs[r].Storing? && x in s.reqs && x != r && HasBaton(s.reqs[x])
    ensures var s' := Insert(s, r, s.reqs[r]);
            BatonOk(s'.h, x, s.reqs[x]) && StoringOk(s'.h, s'.now + s'.life, x, s.reqs[x])
  {
    var q, p := s.reqs[r], s.reqs[x];
    InsertEffect(s, r);
    assert RequestOk(s, r, q) && HasBaton(q);
    assert RequestOk(s, x, p);
    assert p.family != q.family;
  }

  // --- Every event keeps the invariant ---

  lemma RegisterKeeps(s: State, r: ReqId, e: Email, p: Password, n: nat)
    requires Inv(s) && r in s.reqs && s.reqs[r] == RegisterChecked(e, p) && n !in s.users
    ensures Inv(InsertUser(s, r, e, p, n))
  {
    var s' := InsertUser(s, r, e, p, n);
    if EmailHolders(s.users, e) == {} { FreeAddressTaken(s.users, n, User(e, p, false, None, 0)); }
    QuietKeeps(s, s', r, s'.reqs[r]);
  }

  lemma AccountEffect(s: State, r: ReqId, n: nat)
    requires UniqueActiveEmails(s.users) && Enabled(s, Exec(r, n)) && (s.reqs[r].RemoveAsked? || s.reqs[r].ResetAsked?)
    ensures var s' := Step(s, r, n);
            && UniqueActiveEmails(s'.users) && s' == s.(users := s'.users, reqs := s.reqs[r := s'.reqs[r]])
            && (s'.reqs[r].Revoking? || s'.reqs[r].Finished?)
  {
    var s' := Step(s, r, n);
    assert forall u | Active(s'.users, u) :: Active(s.users, u) && s.users[u].email == s'.users[u].email;
  }

  lemma CredentialEffect(s: State, r: ReqId, n: nat)
    requires Enabled(s, Exec(r, n)) &&
             (s.reqs[r].LoginAsked? || s.reqs[r].Granting? || s.reqs[r].CodeAsked? || s.reqs[r].RegisterAsked?)
    ensures var s' := Step(s, r, n);
            && s' == s.(challenges := s'.challenges, reqs := s.reqs[r := s'.reqs[r]])
            && (Carries(s'.reqs[r]) || s'.reqs[r].RegisterChecked? || s'.reqs[r].Finished?)
  {
  }

  lemma LogoutKeeps(s: State, r: ReqId, t: Token)
    requires Inv(s) && r in s.reqs && s.reqs[r] == LogoutAsked(t)
    ensures Inv(FindFamily(s, r, t))
  {
    var q := if t in s.rows then LogoutSeen(s.rows[t].family) else Finished(LoggedOut);
    QuietKeeps(s, FindFamily(s, r, t), r, q);
  }

  lemma DiagnoseKeeps(s: State, r: ReqId, t: Token, at: Time)
    requires Inv(s) && r in s.reqs && s.reqs[r] == ClaimFailed(t, at)
    ensures Inv(Diagnose(s, r, t))
  {
    assert RequestOk(s, r, s.reqs[r]);
    QuietKeeps(s, Diagnose(s, r, t), r, Diagnose(s, r, t).reqs[r]);
  }

  lemma RefreshStep(s: State, r: ReqId, n: nat)
    requires Inv(s) && Enabled(s, Exec(r, n)) && (s.reqs[r].Presented? || s.reqs[r].Claimed?)
    ensures Inv(Step(s, r, n))
  {
    var s' := Step(s, r, n);
    var q := s.reqs[r];
    if q.Presented? && Claimable(s.rows, q.token, s.now) {
      ClaimKeeps(s, r, q.token);
    } else if q.Claimed? && Active(s.users, q.user) {
      PassKeeps(s, r);
    } else {
      assert RequestOk(s, r, q);
      QuietKeeps(s, s', r, s'.reqs[r]);
    }
  }

  lemma BurnStep(s: State, r: ReqId, n: nat)
    requires Inv(s) && Enabled(s, Exec(r, n)) && (s.reqs[r].ReuseSeen? || s.reqs[r].LogoutSeen?)
    ensures Inv(Step(s, r, n))
  {
    var f := s.reqs[r].family;
    FamilyDeleteGapFree(s, f);
    DeleteKeeps(s, r, DeleteFamily(s.rows, f), if s.reqs[r].ReuseSeen? then Unauthorized else LoggedOut);
  }

  lemma RevokeStep(s: State, r: ReqId, n: nat)
    requires Inv(s) && Enabled(s, Exec(r, n)) && s.reqs[r].Revoking?
    ensures Inv(Step(s, r, n))
  {
    UserDeleteGapFree(s, s.reqs[r].user);
    DeleteKeeps(s, r, DeleteUserRows(s.rows, s.reqs[r].user), s.reqs[r].outcome);
  }

  lemma ExpireStep(s: State, r: ReqId, n: nat)
    requires Inv(s) && Enabled(s, Exec(r, n)) && (s.reqs[r].ExpiredSeen? || s.reqs[r].SweepAsked?)
    ensures Inv(Step(s, r, n))
  {
    match s.reqs[r]
    case ExpiredSeen(t) =>
      assert RequestOk(s, r, s.reqs[r]);
      DropGapFree(s, t);
      DeleteKeeps(s, r, s.rows - {t}, Unauthorized);
    case SweepAsked(at) =>
      SweepGapFree(s, at);
      DeleteKeeps(s, r, DeleteExpired(s.rows, at), Swept);
  }

  lemma AccountStep(s: State, r: ReqId, n: nat)
    requires Inv(s) && Enabled(s, Exec(r, n))
    requires s.reqs[r].RemoveAsked? || s.reqs[r].ResetAsked? || s.reqs[r].LoginAsked? || s.reqs[r].Granting?
             || s.reqs[r].CodeAsked? || s.reqs[r].RegisterAsked?
    ensures Inv(Step(s, r, n))
  {
    if s.reqs[r].RemoveAsked? || s.reqs[r].ResetAsked? { AccountEffect(s, r, n); } else { CredentialEffect(s, r, n); }
    QuietKeeps(s, Step(s, r, n), r, Step(s, r, n).reqs[r]);
  }

  lemma IssueStep(s: State, r: ReqId, n: nat)
    requires Inv(s) && Enabled(s, Exec(r, n))
    requires s.reqs[r].Issuing? || s.reqs[r].Storing? || s.reqs[r].Authenticated? || s.reqs[r].RegisterChecked?
             || s.reqs[r].LogoutAsked? || s.reqs[r].ClaimFailed?
    ensures Inv(Step(s, r, n))
  {
    match s.reqs[r]
    case Issuing(_, _, _) => MintKeeps(s, r, n);
    case Storing(_, _, _, _, _) => InsertKeeps(s, r);
    case Authenticated(_, _) => StartFamilyKeeps(s, r, n);
    case RegisterChecked(e, p) => RegisterKeeps(s, r, e, p, n);
    case LogoutAsked(t) => LogoutKeeps(s, r, t);
    case ClaimFailed(t, at) => DiagnoseKeeps(s, r, t, at);
  }

  lemma NextInv(s: State, e: Event)
    requires Inv(s) && Enabled(s, e)
    ensures Inv(Next(s, e))
  {
    match e
    case Tick(d) => ClockKeeps(s, d);
    case Arrive(r, q) => ArriveKeeps(s, r, q);
    case SetMfa(u, on) => SetMfaKeeps(s, u, on);
    case Exec(r, n) =>
      var q := s.reqs[r];
      if q.Presented? || q.Claimed? { RefreshStep(s, r, n); }
      else if q.ReuseSeen? || q.LogoutSeen? { BurnStep(s, r, n); }
      else if q.Revoking? { RevokeStep(s, r, n); }
      else if q.ExpiredSeen? || q.SweepAsked? { ExpireStep(s, r, n); }
      else if q.RemoveAsked? || q.ResetAsked? || q.LoginAsked? || q.Granting? || q.CodeAsked? || q.RegisterAsked? {
        AccountStep(s, r, n);
      }
      else { IssueStep(s, r, n); }
  }

  // --- Accounts behind authority ---

  predicate AuthOk(users: UserTable, u: UserId, epoch: nat)
  {
    u in users && epoch <= users[u].epoch
  }

  /** The request has checked credentials, or a challenge, and acts on them next. */
  predicate Carries(q: Request)
  {
    q.Authenticated? || q.Granting?
  }

  /** Whoever may root or continue a family does so for an account on record. */
  ghost predicate KnownUsers(s: State)
  {
    && (forall f {:trigger s.h.fams[f]} | f in s.h.fams :: AuthOk(s.users, s.h.fams[f].user, s.h.fams[f].epoch))
    && (forall c {:trigger s.challenges[c]} | c in s.challenges ::
        AuthOk(s.users, s.challenges[c].user, s.challenges[c].epoch))
    && (forall r {:trigger s.reqs[r]} | r in s.reqs && Carries(s.reqs[r]) ::
          AuthOk(s.users, s.reqs[r].user, s.reqs[r].epoch))
  }

  lemma GrowKnows(s: State, r: ReqId)
    requires KnownUsers(s) && r in s.reqs && s.reqs[r].Storing?
    ensures KnownUsers(Insert(s, r, s.reqs[r]))
  {
  }

  /** Statements after which no new authority exists but what the request itself carries. */
  lemma SameAuthority(s: State, s': State, r: ReqId)
    requires KnownUsers(s) && s'.h.fams == s.h.fams && r in s'.reqs && s'.reqs == s.reqs[r := s'.reqs[r]]
    requires forall c | c in s'.challenges :: AuthOk(s'.users, s'.challenges[c].user, s'.challenges[c].epoch)
    requires forall u | u in s.users :: u in s'.users && s.users[u].epoch <= s'.users[u].epoch
    requires Carries(s'.reqs[r]) ==> AuthOk(s'.users, s'.reqs[r].user, s'.reqs[r].epoch)
    ensures KnownUsers(s')
  {
    forall x | x in s'.reqs && Carries(s'.reqs[x]) ensures AuthOk(s'.users, s'.reqs[x].user, s'.reqs[x].epoch)
    {
      if x != r { assert s'.reqs[x] == s.reqs[x]; }
    }
  }

  lemma LogInKnows(s: State, r: ReqId, e: Email, p: Password)
    requires KnownUsers(s) && r in s.reqs
    ensures KnownUsers(LogIn(s, r, e, p))
  {
    SameAuthority(s, LogIn(s, r, e, p), r);
  }

  lemma GrantKnows(s: State, r: ReqId, c: nat)
    requires KnownUsers(s) && r in s.reqs && s.reqs[r].Granting?
    ensures KnownUsers(Grant(s, r, s.reqs[r], c))
  {
    SameAuthority(s, Grant(s, r, s.reqs[r], c), r);
  }

  lemma AnswerKnows(s: State, r: ReqId, c: nat, verdict: nat)
    requires KnownUsers(s) && r in s.reqs
    ensures KnownUsers(AnswerChallenge(s, r, c, verdict))
  {
    SameAuthority(s, AnswerChallenge(s, r, c, verdict), r);
  }

  lemma StartFamilyKnows(s: State, r: ReqId, f: FamilyId)
    requires KnownUsers(s) && r in s.reqs && s.reqs[r].Authenticated?
    ensures KnownUsers(StartFamily(s, r, s.reqs[r], f))
  {
    var s' := StartFamily(s, r, s.reqs[r], f);
    SameAuthority(s, s'.(h := s.h), r);
  }

  lemma TokenStepKnows(s: State, r: ReqId, n: nat)
    requires KnownUsers(s) && Enabled(s, Exec(r, n))
    requires s.reqs[r].Presented? || s.reqs[r].ClaimFailed? || s.reqs[r].ReuseSeen? || s.reqs[r].ExpiredSeen? ||
             s.reqs[r].Claimed?
             || s.reqs[r].Issuing? || s.reqs[r].LogoutAsked? || s.reqs[r].LogoutSeen? || s.reqs[r].Revoking? ||
                s.reqs[r].SweepAsked?
    ensures KnownUsers(Step(s, r, n))
  {
    var s' := Step(s, r, n);
    assert s'.users == s.users && s'.challenges == s.challenges && s'.h.fams == s.h.fams && !Carries(s'.reqs[r]);
    SameAuthority(s, s', r);
  }

  lemma AccountStepKnows(s: State, r: ReqId, n: nat)
    requires KnownUsers(s) && Enabled(s, Exec(r, n))
    requires s.reqs[r].RegisterAsked? || s.reqs[r].RegisterChecked? || s.reqs[r].RemoveAsked? || s.reqs[r].ResetAsked?
    ensures KnownUsers(Step(s, r, n))
  {
    SameAuthority(s, Step(s, r, n), r);
  }

  lemma ExecKnows(s: State, r: ReqId, n: nat)
    requires KnownUsers(s) && Enabled(s, Exec(r, n))
    ensures KnownUsers(Step(s, r, n))
  {
    var q := s.reqs[r];
    if q.Storing? { GrowKnows(s, r); }
    else if q.LoginAsked? { LogInKnows(s, r, q.email, q.password); }
    else if q.Granting? { GrantKnows(s, r, n); }
    else if q.CodeAsked? { AnswerKnows(s, r, q.challenge, n); }
    else if q.Authenticated? { StartFamilyKnows(s, r, n); }
    else if q.RegisterAsked? || q.RegisterChecked? || q.RemoveAsked? || q.ResetAsked? { AccountStepKnows(s, r, n); }
    else { TokenStepKnows(s, r, n); }
  }

  lemma NextKnows(s: State, e: Event)
    requires KnownUsers(s) && Enabled(s, e)
    ensures KnownUsers(Next(s, e))
  {
    match e
    case Exec(r, n) => ExecKnows(s, r, n);
    case Arrive(r, q) => SameAuthority(s, Next(s, e), r);
    case _ =>
  }

  // --- Runs ---

  ghost predicate Good(s: State)
  {
    Inv(s) && KnownUsers(s)
  }

  lemma NextGood(s: State, e: Event)
    requires Good(s) && Enabled(s, e)
    ensures Good(Next(s, e))
  {
    NextInv(s, e);
    NextKnows(s, e);
  }

  /** A run from any state that satisfies the invariant. */
  ghost predicate Sound(tr: Trace)
  {
    Legal(tr) && Good(tr.states[0])
  }

  lemma GoodEvent(tr: Trace, i: nat)
    requires Legal(tr) && i < |tr.events| && Good(tr.states[i])
    ensures Good(tr.states[i + 1])
  {
    assert Happens(tr, i);
    NextGood(tr.states[i], tr.events[i]);
  }

  lemma {:induction false} SoundGood(tr: Trace, i: nat)
    requires Sound(tr) && i < |tr.states|
    ensures Good(tr.states[i])
  {
    if i > 0 {
      SoundGood(tr, i - 1);
      GoodEvent(tr, i - 1);
    }
  }

  lemma ReachedSound(tr: Trace)
    requires Reached(tr)
    ensures Sound(tr)
  {
    InitialInv(tr.states[0]);
  }

  /** Every state of every run from empty tables, whatever the interleaving, satisfies the invariant. */
  lemma ReachedInv(tr: Trace, i: nat)
    requires Reached(tr) && i < |tr.states|
    ensures Sound(tr) && Inv(tr.states[i])
  {
    ReachedSound(tr);
    SoundGood(tr, i);
  }
}
