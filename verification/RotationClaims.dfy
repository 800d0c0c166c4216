/**
 What holds over whole runs of `Rotation` about tokens: the baton, the shape of a
 family's chain, who wins a claim, and whether a failed claim is diagnosed correctly.
 */
module RotationClaims {
  import opened Base
  import opened Tables
  import opened Rotation
  import opened RotationInvariant

  // --- The baton ---

  function UnusedRows(rows: TokenTable, f: FamilyId): set<Token>
  {
    set t | t in rows && rows[t].family == f && rows[t].usedAt.None?
  }

  function Holders(reqs: map<ReqId, Request>, f: FamilyId): set<ReqId>
  {
    set r | r in reqs && HasBaton(reqs[r]) && reqs[r].family == f
  }

  lemma AtMostOne<T>(s: set<T>)
    requires forall x, y | x in s && y in s :: x == y
    ensures |s| <= 1
  {
    if s != {} {
      var x :| x in s;
      assert s == {x};
    }
  }

  lemma BatonBound(s: State, f: FamilyId)
    requires Inv(s)
    ensures |UnusedRows(s.rows, f)| + |Holders(s.reqs, f)| <= 1
  {
    var us, hs := UnusedRows(s.rows, f), Holders(s.reqs, f);
    forall t, u | t in us && u in us ensures t == u
    {
      ClaimableIsLast(s, t);
      assert u !in s.h.claimant;
    }
    AtMostOne(us);
    AtMostOne(hs);
    if us != {} {
      var t :| t in us;
      ClaimableIsLast(s, t);
      assert hs == {};
    }
  }

  /** In every reachable state a family has at most one usable row or one request about to make one, and one owner. */
  lemma BatonInvariant(tr: Trace, i: nat, f: FamilyId)
    requires Reached(tr) && i < |tr.states|
    ensures |UnusedRows(tr.states[i].rows, f)| + |Holders(tr.states[i].reqs, f)| <= 1
    ensures forall t, u | t in tr.states[i].rows && u in tr.states[i].rows && tr.states[i].rows[t].family == f
                          && tr.states[i].rows[u].family == f :: tr.states[i].rows[t].user == tr.states[i].rows[u].user
  {
    ReachedInv(tr, i);
    BatonBound(tr.states[i], f);
  }

  // --- The shape of a family ---

  /** The rows that survive of the chain are exactly those at `lo..hi`. */
  ghost predicate Segment(rows: TokenTable, chain: seq<Token>, lo: nat, hi: nat)
  {
    && lo <= hi <= |chain|
    && (forall k {:trigger chain[k]} | 0 <= k < |chain| :: chain[k] in rows <==> lo <= k < hi)
  }

  /** The token was minted on a claim of the one before it, and claimed itself unless it is the last. */
  predicate Link(h: Ledger, c: seq<Token>, k: nat)
    requires k < |c|
  {
    && c[k] in h.born
    && h.born[c[k]].parent == (if k == 0 then None else Some(c[k - 1]))
    && (k < |c| - 1 ==> c[k] in h.claimant)
  }

  predicate Precedes(h: Ledger, c: seq<Token>, m: nat, k: nat)
    requires m < k < |c|
  {
    c[m] in h.born && c[k] in h.born && c[m] != c[k] && h.born[c[m]].expires <= h.born[c[k]].expires
  }

  /** The tokens of the family are distinct links of one chain, and expiries never fall along it. */
  ghost predicate LinearLineage(h: Ledger, f: FamilyId)
  {
    && f in h.fams
    && (forall k {:trigger Link(h, h.fams[f].chain, k)} | 0 <= k < |h.fams[f].chain| :: Link(h, h.fams[f].chain, k))
    && (forall m, k {:trigger Precedes(h, h.fams[f].chain, m, k)} | 0 <= m < k < |h.fams[f].chain| ::
          Precedes(h, h.fams[f].chain, m, k))
  }

  /** The order of the chain is the order of insertion, so expiries follow it. */
  lemma ChainOrder(h: Ledger, f: FamilyId, i: nat, j: nat)
    requires ChainsOk(h.fams, h.born) && ExpiryOrdered(h.born) && f in h.fams && i < j < |h.fams[f].chain|
    ensures var c := h.fams[f].chain;
            Older(h.born, c[i], c[j]) && Precedes(h, c, i, j)
  {
    var c := h.fams[f].chain;
    assert h.fams[f].chain[i] in h.born && h.fams[f].chain[j] in h.born;
    assert Older(h.born, c[i], c[j]);
  }

  lemma LinkHolds(h: Ledger, f: FamilyId, k: nat)
    requires HistoryOk(h) && f in h.fams && k < |h.fams[f].chain|
    ensures Link(h, h.fams[f].chain, k)
  {
    var t := h.fams[f].chain[k];
    assert h.fams[f].chain[k] in h.born;
    assert h.born[t].parent == Before(h.fams, h.born[t]);
    assert t in h.claimant || IsLast(h.fams, h.born[t]);
  }

  lemma LineageIsLinear(s: State, f: FamilyId)
    requires Inv(s) && f in s.h.fams
    ensures LinearLineage(s.h, f)
  {
    var c := s.h.fams[f].chain;
    forall k | 0 <= k < |c| ensures Link(s.h, c, k) { LinkHolds(s.h, f, k); }
    forall m, k | 0 <= m < k < |c| ensures Precedes(s.h, c, m, k) { ChainOrder(s.h, f, m, k); }
  }

  /** The first index of the chain whose row survives, or the length of the chain. */
  function FirstRow(rows: TokenTable, chain: seq<Token>): (lo: nat)
    ensures lo <= |chain|
    ensures forall k {:trigger chain[k]} | 0 <= k < lo :: chain[k] !in rows
    ensures lo < |chain| ==> chain[lo] in rows
  {
    if chain == [] then 0
    else
      var lo := FirstRow(rows, chain[..|chain| - 1]);
      if lo < |chain| - 1 then lo
      else if chain[|chain| - 1] in rows then |chain| - 1
      else |chain|
  }

  /** Between a surviving row and the end of the chain nothing is missing. */
  lemma MiddleHasRow(rows: TokenTable, h: Ledger, f: FamilyId, lo: nat, k: nat)
    requires HistoryOk(h) && TokensOk(rows, h) && f in h.fams && lo < k < |h.fams[f].chain| - 1
    requires h.fams[f].chain[lo] in rows
    ensures h.fams[f].chain[k] in rows
  {
    ChainOrder(h, f, lo, k);
    ChainOrder(h, f, k, |h.fams[f].chain| - 1);
  }

  lemma SegmentOf(rows: TokenTable, c: seq<Token>) returns (lo: nat, hi: nat)
    requires forall i, k {:trigger c[i], c[k]} | 0 <= i < k < |c| - 1 && c[i] in rows :: c[k] in rows
    ensures Segment(rows, c, lo, hi) && (lo < hi ==> |c| - 1 <= hi)
  {
    lo := FirstRow(rows, c);
    hi := if lo == |c| then lo else if c[|c| - 1] in rows then |c| else |c| - 1;
  }

  lemma RowsFormSegment(rows: TokenTable, h: Ledger, f: FamilyId) returns (lo: nat, hi: nat)
    requires HistoryOk(h) && TokensOk(rows, h) && f in h.fams
    ensures Segment(rows, h.fams[f].chain, lo, hi)
    ensures lo < hi ==> |h.fams[f].chain| - 1 <= hi
  {
    var c := h.fams[f].chain;
    forall i, k {:trigger c[i], c[k]} | 0 <= i < k < |c| - 1 && c[i] in rows ensures c[k] in rows
    {
      MiddleHasRow(rows, h, f, i, k);
    }
    lo, hi := SegmentOf(rows, c);
  }

  lemma RowsAreInChain(s: State, f: FamilyId)
    requires Inv(s) && f in s.h.fams
    ensures forall t | t in s.rows && s.rows[t].family == f ::
              t in s.h.fams[f].chain && (Some(t) == LastOf(s.h.fams, f) || s.rows[t].usedAt.Some?)
  {
    forall t | t in s.rows && s.rows[t].family == f
      ensures t in s.h.fams[f].chain && (Some(t) == LastOf(s.h.fams, f) || s.rows[t].usedAt.Some?)
    {
      assert Placed(s.h.fams, s.h.born[t], t);
      if s.rows[t].usedAt.None? { ClaimableIsLast(s, t); }
    }
  }

  /**
   The surviving rows of a family are a contiguous stretch of one linear lineage, reaching
   its end or the token before it, and all but the last token of the lineage are used.
   */
  lemma ChainShape(tr: Trace, i: nat, f: FamilyId) returns (lo: nat, hi: nat)
    requires Reached(tr) && i < |tr.states| && f in tr.states[i].h.fams
    ensures var s := tr.states[i];
            var c := s.h.fams[f].chain;
            && LinearLineage(s.h, f)
            && Segment(s.rows, c, lo, hi) && (lo < hi ==> |c| - 1 <= hi)
            && (forall t | t in s.rows && s.rows[t].family == f ::
                  t in c && (Some(t) == LastOf(s.h.fams, f) || s.rows[t].usedAt.Some?))
  {
    var s := tr.states[i];
    ReachedInv(tr, i);
    RowsAreInChain(s, f);
    lo, hi := RowsFormSegment(s.rows, s.h, f);
    LineageIsLinear(s, f);
  }

  /** The sweep removes exactly the expired rows of the family, and they are a prefix of its surviving stretch. */
  lemma SweepRemovesPrefix(s: State, f: FamilyId, at: Time, lo: nat, hi: nat) returns (mid: nat)
    requires Inv(s) && f in s.h.fams && Segment(s.rows, s.h.fams[f].chain, lo, hi)
    ensures lo <= mid <= hi && Segment(DeleteExpired(s.rows, at), s.h.fams[f].chain, mid, hi)
    ensures forall k | 0 <= k < |s.h.fams[f].chain| && s.h.fams[f].chain[k] in s.rows ::
              k < mid <==> s.rows[s.h.fams[f].chain[k]].expires < at
  {
    var c := s.h.fams[f].chain;
    mid := FirstRow(DeleteExpired(s.rows, at), c);
    if hi <= mid { mid := hi; }
    forall k | 0 <= k < |c|
      ensures c[k] in DeleteExpired(s.rows, at) <==> mid <= k < hi
      ensures c[k] in s.rows ==> (k < mid <==> s.rows[c[k]].expires < at)
    {
      if mid < k < hi {
        ChainOrder(s.h, f, mid, k);
        assert c[mid] in s.rows && c[k] in s.rows;
      }
    }
  }

  // --- Histories only grow ---

  ghost predicate LedgerGrows(h: Ledger, h': Ledger)
  {
    && (forall t {:trigger t in h'.claimant} {:trigger t in h.claimant} | t in h.claimant ::
          t in h'.claimant && h'.claimant[t] == h.claimant[t])
    && (forall t {:trigger t in h'.born} {:trigger t in h.born} | t in h.born ::
        t in h'.born && h'.born[t] == h.born[t])
    && h.presented <= h'.presented
    && (forall t {:trigger t in h.presented} | t in h.presented && t in h'.born :: t in h.born)
    && (forall f {:trigger f in h'.fams} {:trigger f in h.fams} | f in h.fams ::
          f in h'.fams && h'.fams[f].user == h.fams[f].user && h'.fams[f].epoch == h.fams[f].epoch &&
            h'.fams[f].root == h.fams[f].root)
  }

  /** A row that was ever inserted can only lose its freshness or go. */
  ghost predicate RowsWear(s: State, s': State)
  {
    forall t {:trigger t in s'.rows} | t in s'.rows && t in s.h.born ::
      && t in s.rows && s'.rows[t].family == s.rows[t].family && s'.rows[t].user == s.rows[t].user
      && s'.rows[t].expires == s.rows[t].expires && (s.rows[t].usedAt.Some? ==> s'.rows[t].usedAt.Some?)
  }

  ghost predicate UsersAge(users: UserTable, users': UserTable)
  {
    forall u {:trigger u in users'} {:trigger u in users} | u in users ::
      && u in users' && users'[u].email == users[u].email && users[u].epoch <= users'[u].epoch
      && (users[u].deletedAt.Some? ==> users'[u].deletedAt.Some?)
  }

  ghost predicate Later(s: State, s': State)
  {
    s.now <= s'.now && s'.life == s.life && LedgerGrows(s.h, s'.h) && RowsWear(s, s') && UsersAge(s.users, s'.users)
  }

  lemma LaterTrans(a: State, b: State, c: State)
    requires Later(a, b) && Later(b, c)
    ensures Later(a, c)
  {
  }

  lemma DeleteLater(s: State, r: ReqId, left: TokenTable, o: Outcome)
    requires forall t | t in left :: t in s.rows && left[t] == s.rows[t]
    ensures Later(s, DeleteRows(s, r, left, o))
  {
  }

  lemma InsertLater(s: State, r: ReqId)
    requires Inv(s) && r in s.reqs && s.reqs[r].Storing?
    ensures Later(s, Insert(s, r, s.reqs[r]))
  {
    InsertEffect(s, r);
    assert RequestOk(s, r, s.reqs[r]);
  }

  lemma ClaimLater(s: State, r: ReqId, t: Token)
    requires RowsOk(s.rows, s.h) && KeysOk(s.h)
    ensures Later(s, Claim(s, r, t))
  {
    if !Claimable(s.rows, t, s.now) { OtherLater(s, Claim(s, r, t)); }
  }

  lemma StartFamilyLater(s: State, r: ReqId, q: Request, f: FamilyId)
    requires q.Authenticated? && f !in s.h.fams
    ensures Later(s, StartFamily(s, r, q, f))
  {
  }

  /** Statements that touch neither rows nor the recorded claims, births and families. */
  lemma OtherLater(s: State, s': State)
    requires s'.rows == s.rows && s'.life == s.life && s.now <= s'.now
    requires s'.h == s.h.(minted := s'.h.minted, presented := s'.h.presented) && s.h.presented <= s'.h.presented
    requires UsersAge(s.users, s'.users)
    ensures Later(s, s')
  {
  }

  lemma OneUserLater(s: State, u: UserId, v: User, r: ReqId, q: Request)
    requires u in s.users ==> v.email == s.users[u].email && s.users[u].epoch <= v.epoch
                              && (s.users[u].deletedAt.Some? ==> v.deletedAt.Some?)
    ensures Later(s, Become(s.(users := s.users[u := v]), r, q))
  {
  }

  lemma AccountLater(s: State, r: ReqId, n: nat)
    requires Enabled(s, Exec(r, n)) && (s.reqs[r].RegisterChecked? || s.reqs[r].RemoveAsked? || s.reqs[r].ResetAsked?)
    ensures Later(s, Step(s, r, n))
  {
    var s' := Step(s, r, n);
    OtherLater(s, Become(s, r, s'.reqs[r]));
    match s.reqs[r]
    case RegisterChecked(e, p) => OneUserLater(s, n, User(e, p, false, None, 0), r, s'.reqs[r]);
    case RemoveAsked(u) => if u in s.users { OneUserLater(s, u, s.users[u].(deletedAt := Some(s.now)), r, s'.reqs[r]); }
    case ResetAsked(u, p) =>
      if u in s.users { OneUserLater(s, u, s.users[u].(password := p, epoch := s.users[u].epoch + 1), r, s'.reqs[r]); }
  }

  lemma DrawLater(s: State, r: ReqId, n: nat)
    requires r in s.reqs && (s.reqs[r].Claimed? || s.reqs[r].Issuing?)
    ensures Later(s, Step(s, r, n))
  {
    OtherLater(s, Step(s, r, n));
  }

  lemma RotateLater(s: State, r: ReqId, n: nat)
    requires Inv(s) && Enabled(s, Exec(r, n)) &&
             (s.reqs[r].Presented? || s.reqs[r].Authenticated? || HasBaton(s.reqs[r]))
    ensures Later(s, Step(s, r, n))
  {
    var q := s.reqs[r];
    match q
    case Storing(_, _, _, _, _) => InsertLater(s, r);
    case Presented(t) => ClaimLater(s, r, t);
    case Authenticated(_, _) => StartFamilyLater(s, r, q, n);
    case _ => DrawLater(s, r, n);
  }

  lemma DeleteStepLater(s: State, r: ReqId, n: nat)
    requires Enabled(s, Exec(r, n))
    requires s.reqs[r].ReuseSeen? || s.reqs[r].LogoutSeen? || s.reqs[r].ExpiredSeen? || s.reqs[r].Revoking? ||
             s.reqs[r].SweepAsked?
    ensures Later(s, Step(s, r, n))
  {
    match s.reqs[r]
    case ReuseSeen(_, f) => DeleteLater(s, r, DeleteFamily(s.rows, f), Unauthorized);
    case LogoutSeen(f) => DeleteLater(s, r, DeleteFamily(s.rows, f), LoggedOut);
    case ExpiredSeen(t) => DeleteLater(s, r, s.rows - {t}, Unauthorized);
    case Revoking(u, o) => DeleteLater(s, r, DeleteUserRows(s.rows, u), o);
    case SweepAsked(at) => DeleteLater(s, r, DeleteExpired(s.rows, at), Swept);
  }

  lemma ReadLater(s: State, r: ReqId, n: nat)
    requires Enabled(s, Exec(r, n)) && (s.reqs[r].ClaimFailed? || s.reqs[r].LogoutAsked?)
    ensures Later(s, Step(s, r, n))
  {
    OtherLater(s, Step(s, r, n));
  }

  lemma CredentialLater(s: State, r: ReqId, n: nat)
    requires Enabled(s, Exec(r, n))
    requires s.reqs[r].LoginAsked? || s.reqs[r].Granting? || s.reqs[r].CodeAsked? || s.reqs[r].RegisterAsked?
    ensures Later(s, Step(s, r, n))
  {
    OtherLater(s, Step(s, r, n));
  }

  lemma ServeLater(s: State, r: ReqId, n: nat)
    requires Enabled(s, Exec(r, n)) && !s.reqs[r].Presented? && !s.reqs[r].Authenticated? && !HasBaton(s.reqs[r])
    ensures Later(s, Step(s, r, n))
  {
    var q := s.reqs[r];
    if q.RegisterChecked? || q.RemoveAsked? || q.ResetAsked? { AccountLater(s, r, n); }
    else if q.ClaimFailed? || q.LogoutAsked? { ReadLater(s, r, n); }
    else if q.LoginAsked? || q.Granting? || q.CodeAsked? || q.RegisterAsked? { CredentialLater(s, r, n); }
    else { DeleteStepLater(s, r, n); }
  }

  lemma StepLater(s: State, e: Event)
    requires Inv(s) && Enabled(s, e)
    ensures Later(s, Next(s, e))
  {
    if e.Exec? { ExecLater(s, e.r, e.n); } else { StillLater(s, e); }
  }

  lemma ExecLater(s: State, r: ReqId, n: nat)
    requires Inv(s) && Enabled(s, Exec(r, n))
    ensures Later(s, Step(s, r, n))
  {
    var q := s.reqs[r];
    if q.Presented? || q.Authenticated? || HasBaton(q) { RotateLater(s, r, n); } else { ServeLater(s, r, n); }
  }

  /** No request moves. */
  lemma StillLater(s: State, e: Event)
    requires Enabled(s, e) && !e.Exec?
    ensures Later(s, Next(s, e))
  {
    OtherLater(s, Next(s, e));
  }

  lemma EventLater(tr: Trace, i: nat)
    requires Sound(tr) && i < |tr.events|
    ensures Later(tr.states[i], tr.states[i + 1])
  {
    SoundGood(tr, i);
    assert Happens(tr, i);
    StepLater(tr.states[i], tr.events[i]);
  }

  lemma {:induction false} RunLater(tr: Trace, i: nat, j: nat)
    requires Sound(tr) && i <= j < |tr.states|
    ensures Later(tr.states[i], tr.states[j])
    decreases j - i
  {
    if i == j {
      OtherLater(tr.states[i], tr.states[i]);
    } else {
      RunLater(tr, i, j - 1);
      EventLater(tr, j - 1);
      LaterTrans(tr.states[i], tr.states[j - 1], tr.states[j]);
    }
  }

  // --- Claims ---

  /** Event `i` is request `r` running the claiming UPDATE for `t`. */
  predicate ClaimAt(tr: Trace, i: nat, r: ReqId, t: Token)
  {
    && i < |tr.events| < |tr.states|
    && tr.events[i].Exec? && tr.events[i].r == r
    && r in tr.states[i].reqs && tr.states[i].reqs[r] == Presented(t)
  }

  predicate WonAt(tr: Trace, i: nat, r: ReqId, t: Token)
  {
    ClaimAt(tr, i, r, t) && r in tr.states[i + 1].reqs && tr.states[i + 1].reqs[r].Claimed?
  }

  lemma ClaimComes(s: State, e: Event, t: Token)
    requires Enabled(s, e) && t in Next(s, e).h.claimant && t !in s.h.claimant
    ensures e.Exec? && s.reqs[e.r] == Presented(t) && Next(s, e).reqs[e.r].Claimed? && Next(s, e).h.claimant[t] == e.r
  {
  }

  /** Who claimed a token either had done so before the event or does so in it. */
  lemma ClaimEvent(tr: Trace, i: nat, t: Token)
    requires Reached(tr) && i < |tr.events| && t in tr.states[i + 1].h.claimant
    ensures var s, s' := tr.states[i], tr.states[i + 1];
            if t in s.h.claimant then s'.h.claimant[t] == s.h.claimant[t] else WonAt(tr, i, s'.h.claimant[t], t)
  {
    assert Happens(tr, i);
    if t in tr.states[i].h.claimant {
      ReachedSound(tr);
      EventLater(tr, i);
    } else {
      ClaimComes(tr.states[i], tr.events[i], t);
    }
  }

  lemma {:induction false} ClaimantWon(tr: Trace, i: nat, t: Token) returns (j: nat)
    requires Reached(tr) && i < |tr.states| && t in tr.states[i].h.claimant
    ensures j < i && WonAt(tr, j, tr.states[i].h.claimant[t], t)
  {
    assert i > 0;
    ClaimEvent(tr, i - 1, t);
    j := i - 1;
    if t in tr.states[i - 1].h.claimant { j := ClaimantWon(tr, i - 1, t); }
  }

  lemma WinnerIsClaimant(tr: Trace, i: nat, j: nat, r: ReqId, t: Token)
    requires Reached(tr) && WonAt(tr, i, r, t) && i < j < |tr.states|
    ensures t in tr.states[j].h.claimant && tr.states[j].h.claimant[t] == r
  {
    assert Happens(tr, i);
    assert t in tr.states[i + 1].h.claimant && tr.states[i + 1].h.claimant[t] == r;
    ReachedSound(tr);
    RunLater(tr, i + 1, j);
  }

  /** What an earlier attempt on the same string leaves behind: the row is gone, expired or used. */
  lemma EarlierClaimSpoils(tr: Trace, j: nat, i: nat, p: ReqId, t: Token)
    requires Reached(tr) && ClaimAt(tr, j, p, t) && j < i < |tr.states|
    ensures !Claimable(tr.states[i].rows, t, tr.states[i].now)
  {
    var a, b := tr.states[j], tr.states[i];
    assert Happens(tr, j);
    ReachedInv(tr, j);
    ReachedInv(tr, i);
    RunLater(tr, j, i);
    assert RequestOk(a, p, a.reqs[p]);
    if t in b.rows && b.now < b.rows[t].expires {
      assert t in a.h.born && t in a.rows;
      if Claimable(a.rows, t, a.now) {
        WinnerIsClaimant(tr, j, i, p, t);
      } else {
        assert t in a.h.claimant;
      }
      assert t in b.h.claimant;
    }
  }

  /**
   Of all presentations of a token, in any interleaving, a claim wins exactly when the row
   is there, unexpired, and no request ran a claim for it before.
   */
  lemma FirstClaimWins(tr: Trace, i: nat, r: ReqId, t: Token)
    requires Reached(tr) && ClaimAt(tr, i, r, t)
    ensures WonAt(tr, i, r, t) <==>
            && t in tr.states[i].rows
            && tr.states[i].now < tr.states[i].rows[t].expires
            && (forall j: nat, p | j < i :: !ClaimAt(tr, j, p, t))
  {
    var s := tr.states[i];
    assert Happens(tr, i);
    ReachedInv(tr, i);
    forall j: nat, p | j < i && ClaimAt(tr, j, p, t) ensures !WonAt(tr, i, r, t)
    {
      EarlierClaimSpoils(tr, j, i, p, t);
    }
    if t in s.h.claimant {
      var j := ClaimantWon(tr, i, t);
    }
  }

  /** No token is ever rotated twice. */
  lemma ClaimedAtMostOnce(tr: Trace, i: nat, j: nat, r: ReqId, p: ReqId, t: Token)
    requires Reached(tr) && WonAt(tr, i, r, t) && WonAt(tr, j, p, t)
    ensures i == j && r == p
  {
    assert ClaimAt(tr, i, r, t) && ClaimAt(tr, j, p, t);
    FirstClaimWins(tr, j, p, t);
    FirstClaimWins(tr, i, r, t);
  }

  // --- Diagnosis ---

  lemma NeverPresentsAgain(s: State, e: Event, r: ReqId)
    requires Enabled(s, e) && r in s.reqs && !s.reqs[r].Presented?
    ensures r in Next(s, e).reqs && !Next(s, e).reqs[r].Presented?
  {
    if e.Exec? && e.r == r {
      var q := s.reqs[r];
      if !(q.Authenticated? || HasBaton(q)) { ServeStartsNothing(s, r, e.n); }
    }
  }

  lemma {:induction false} PastItsClaim(tr: Trace, i: nat, j: nat, r: ReqId)
    requires Legal(tr) && i <= j < |tr.states| && r in tr.states[i].reqs && !tr.states[i].reqs[r].Presented?
    ensures r in tr.states[j].reqs && !tr.states[j].reqs[r].Presented?
    decreases j - i
  {
    if i < j {
      PastItsClaim(tr, i, j - 1, r);
      assert Happens(tr, j - 1);
      NeverPresentsAgain(tr.states[j - 1], tr.events[j - 1], r);
    }
  }

  lemma ClaimEnds(tr: Trace, i: nat, r: ReqId, t: Token)
    requires Legal(tr) && ClaimAt(tr, i, r, t)
    ensures r in tr.states[i + 1].reqs && !tr.states[i + 1].reqs[r].Presented?
  {
    assert Happens(tr, i);
  }

  /** A request runs its claim once. */
  lemma ClaimsOnce(tr: Trace, i: nat, j: nat, r: ReqId, t: Token, u: Token)
    requires Legal(tr) && ClaimAt(tr, i, r, t) && ClaimAt(tr, j, r, u)
    ensures i == j
  {
    ClaimEnds(tr, i, r, t);
    ClaimEnds(tr, j, r, u);
    if i < j { PastItsClaim(tr, i + 1, j, r); }
    if j < i { PastItsClaim(tr, j + 1, i, r); }
  }

  lemma OnlyClaimsFail(s: State, r: ReqId, n: nat, q': Request)
    requires Enabled(s, Exec(r, n)) && q' == Step(s, r, n).reqs[r] && q'.ClaimFailed?
    ensures s.reqs[r] == Presented(q'.token) && q'.at == s.now
  {
    var q := s.reqs[r];
    if !(q.Presented? || q.Authenticated? || HasBaton(q)) { ServeStartsNothing(s, r, n); }
  }

  /** A request that is about to find out why its claim failed did run and lose a claim, at the instant it remembers. */
  lemma {:induction false} FailedClaimOf(tr: Trace, i: nat, r: ReqId) returns (k: nat)
    requires Reached(tr) && i < |tr.states| && r in tr.states[i].reqs && tr.states[i].reqs[r].ClaimFailed?
    ensures k < i && ClaimAt(tr, k, r, tr.states[i].reqs[r].token) && !WonAt(tr, k, r, tr.states[i].reqs[r].token)
    ensures tr.states[i].reqs[r].at == tr.states[k].now
  {
    assert i > 0;
    var s := tr.states[i - 1];
    assert Happens(tr, i - 1);
    if r in s.reqs && s.reqs[r] == tr.states[i].reqs[r] {
      k := FailedClaimOf(tr, i - 1, r);
    } else {
      OnlyClaimsFail(s, r, tr.events[i - 1].n, tr.states[i].reqs[r]);
      k := i - 1;
    }
  }

  /**
   The SELECT runs later than the claim it explains, yet its verdict is right: "expired"
   means the row was there, unused and expired when the claim ran; "reuse" means another
   request had claimed the token before the SELECT; otherwise the row is gone.
   */
  lemma DiagnosisIsRight(tr: Trace, i: nat, r: ReqId, n: nat) returns (k: nat, j: nat)
    requires Reached(tr) && i < |tr.events| && tr.events[i] == Exec(r, n)
    requires r in tr.states[i].reqs && tr.states[i].reqs[r].ClaimFailed?
    ensures r in tr.states[i + 1].reqs
    ensures var s, t, q' := tr.states[i], tr.states[i].reqs[r].token, tr.states[i + 1].reqs[r];
            && k < i && ClaimAt(tr, k, r, t)
            && (q'.ExpiredSeen? ==> && t in tr.states[k].rows && tr.states[k].rows[t].usedAt.None?
                                    && tr.states[k].rows[t].expires <= tr.states[k].now)
            && (q'.ReuseSeen? ==> j < i && j != k && exists p :: p != r && WonAt(tr, j, p, t))
            && (!q'.ExpiredSeen? && !q'.ReuseSeen? ==> q' == Finished(Unauthorized) && t !in s.rows)
  {
    var s, t := tr.states[i], tr.states[i].reqs[r].token;
    assert Happens(tr, i);
    k := FailedClaimOf(tr, i, r);
    j := 0;
    ReachedInv(tr, i);
    ReachedInv(tr, k);
    assert RequestOk(s, r, s.reqs[r]);
    if t in s.rows && s.rows[t].usedAt.Some? {
      j := ClaimantWon(tr, i, t);
      if s.h.claimant[t] == r { ClaimsOnce(tr, j, k, r, t, t); }
    } else if t in s.rows {
      assert RequestOk(tr.states[k], r, tr.states[k].reqs[r]);
      RunLater(tr, k, i);
    }
  }
}
