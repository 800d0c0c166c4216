/**
 Authority obtained under older passwords, over whole runs: where it can still come from
 after a password reset, and how little of it there is. The `v`-th password of an account is
 the one in force while its epoch is `v`.
 */
module Authority {
  import opened Base
  import opened Tables
  import opened Rotation
  import opened RotationInvariant
  import opened RotationClaims
  import opened FamilyLife
  import opened Accounts

  /** Authority for the account obtained under an older password than the `v`-th. */
  predicate Stale(u: UserId, v: nat, user: UserId, epoch: nat)
  {
    user == u && epoch < v
  }

  /** A checked login about to root a family. */
  predicate StaleRequest(q: Request, u: UserId, v: nat)
  {
    q.Authenticated? && Stale(u, v, q.user, q.epoch)
  }

  /** A checked login about to get a challenge. */
  predicate StaleGrant(q: Request, u: UserId, v: nat)
  {
    q.Granting? && Stale(u, v, q.user, q.epoch)
  }

  predicate StaleChallenge(s: State, c: nat, u: UserId, v: nat)
  {
    c in s.challenges && Stale(u, v, s.challenges[c].user, s.challenges[c].epoch)
  }

  /** It can still be answered. */
  predicate StaleOpen(s: State, c: nat, u: UserId, v: nat)
  {
    StaleChallenge(s, c, u, v) && Open(s.challenges, c, s.now)
  }

  predicate StaleFamily(s: State, f: FamilyId, u: UserId, v: nat)
  {
    f in s.h.fams && Stale(u, v, s.h.fams[f].user, s.h.fams[f].epoch)
  }

  // --- Provenance ---

  predicate HasRooted(q: Request)
  {
    q.Issuing? || q.Storing? || q.Finished?
  }

  /**
   A request roots one family or grants one challenge, and is then past doing either again;
   challenges end in time.
   */
  ghost predicate Traceable(s: State)
  {
    && (forall f {:trigger s.h.fams[f]} | f in s.h.fams ::
        s.h.fams[f].root in s.reqs && HasRooted(s.reqs[s.h.fams[f].root]))
    && (forall f, g {:trigger s.h.fams[f], s.h.fams[g]} | f in s.h.fams && g in s.h.fams &&
        s.h.fams[f].root == s.h.fams[g].root :: f == g)
    && (forall c {:trigger s.challenges[c]} | c in s.challenges ::
          && s.challenges[c].grantedBy in s.reqs && s.reqs[s.challenges[c].grantedBy] == Finished(ChallengeSent)
          && s.challenges[c].expires <= s.now + CHALLENGE_LIFE)
    && (forall c, d {:trigger s.challenges[c], s.challenges[d]} |
          c in s.challenges && d in s.challenges && s.challenges[c].grantedBy == s.challenges[d].grantedBy :: c == d)
  }

  lemma RootedStays(s: State, e: Event, x: ReqId)
    requires Enabled(s, e) && x in s.reqs && HasRooted(s.reqs[x])
    ensures x in Next(s, e).reqs && HasRooted(Next(s, e).reqs[x])
    ensures s.reqs[x].Finished? ==> Next(s, e).reqs[x] == s.reqs[x]
  {
  }

  /** A challenge keeps who it is for, from whom and until when; answers only add up, and it is spent once. */
  ghost predicate ChallengesAge(before: map<nat, Challenge>, after: map<nat, Challenge>)
  {
    forall c {:trigger c in before} {:trigger after[c]} | c in before ::
      && c in after && after[c].user == before[c].user && after[c].epoch == before[c].epoch
      && after[c].expires == before[c].expires && after[c].grantedBy == before[c].grantedBy
      && before[c].answers <= after[c].answers && (before[c].spentBy.Some? ==> after[c].spentBy == before[c].spentBy)
  }

  lemma StepAges(s: State, e: Event)
    requires Enabled(s, e)
    ensures ChallengesAge(s.challenges, Next(s, e).challenges)
  {
    if !(e.Exec? && (s.reqs[e.r].Granting? || s.reqs[e.r].CodeAsked?)) { SameChallenges(s, e); }
  }

  lemma SameChallenges(s: State, e: Event)
    requires Enabled(s, e) && !(e.Exec? && (s.reqs[e.r].Granting? || s.reqs[e.r].CodeAsked?))
    ensures Next(s, e).challenges == s.challenges
  {
    if e.Exec? {
      var q := s.reqs[e.r];
      if q.Presented? || q.Authenticated? || HasBaton(q) {
        RotateKeepsChallenges(s, e.r, e.n);
      } else {
        ServeKeepsChallenges(s, e.r, e.n);
      }
    }
  }

  lemma RotateKeepsChallenges(s: State, r: ReqId, n: nat)
    requires r in s.reqs && (s.reqs[r].Presented? || s.reqs[r].Authenticated? || HasBaton(s.reqs[r]))
    ensures Rotate(s, r, n).challenges == s.challenges
  {
  }

  lemma ServeKeepsChallenges(s: State, r: ReqId, n: nat)
    requires r in s.reqs && !s.reqs[r].Presented? && !s.reqs[r].Authenticated? && !HasBaton(s.reqs[r])
    requires !s.reqs[r].Granting? && !s.reqs[r].CodeAsked?
    ensures Serve(s, r, n).challenges == s.challenges
  {
  }

  lemma ChallengesCome(s: State, e: Event, c: nat)
    requires Enabled(s, e) && c in Next(s, e).challenges && c !in s.challenges
    ensures e.Exec? && s.reqs[e.r].Granting? && Next(s, e).reqs[e.r] == Finished(ChallengeSent)
    ensures Next(s, e).challenges[c] ==
            Challenge(s.reqs[e.r].user, s.reqs[e.r].epoch, s.now + CHALLENGE_LIFE, 0, e.r, None)
    ensures Next(s, e).challenges == s.challenges[c := Next(s, e).challenges[c]]
  {
    if !(e.Exec? && (s.reqs[e.r].Granting? || s.reqs[e.r].CodeAsked?)) { SameChallenges(s, e); }
    else if s.reqs[e.r].CodeAsked? { AnswersGrantNone(s, e.r, s.reqs[e.r].challenge, e.n); }
  }

  lemma AnswersGrantNone(s: State, r: ReqId, c: nat, verdict: nat)
    ensures AnswerChallenge(s, r, c, verdict).challenges.Keys == s.challenges.Keys
  {
  }

  lemma FamiliesCome(s: State, e: Event, f: FamilyId)
    requires Enabled(s, e) && f in Next(s, e).h.fams && f !in s.h.fams
    ensures e.Exec? && s.reqs[e.r].Authenticated?
            && Next(s, e).h.fams[f].user == s.reqs[e.r].user && Next(s, e).h.fams[f].epoch == s.reqs[e.r].epoch
            && Next(s, e).h.fams[f].root == e.r
  {
    if !(e.Exec? && s.reqs[e.r].Authenticated?) { SameFamilies(s, e, f); }
  }

  lemma SameFamilies(s: State, e: Event, f: FamilyId)
    requires Enabled(s, e) && !(e.Exec? && s.reqs[e.r].Authenticated?)
    ensures f in Next(s, e).h.fams ==> f in s.h.fams
  {
    if !(e.Exec? && s.reqs[e.r].Storing?) { SameBirths(s, e); }
  }

  lemma TraceableStep(s: State, e: Event)
    requires Good(s) && Enabled(s, e) && Traceable(s)
    ensures Traceable(Next(s, e))
  {
    FamiliesTraceable(s, e);
    GrantsTraceable(s, e);
  }

  lemma FamiliesTraceable(s: State, e: Event)
    requires Good(s) && Enabled(s, e) && Traceable(s)
    ensures var s' := Next(s, e);
            && (forall f {:trigger s'.h.fams[f]} | f in s'.h.fams ::
                s'.h.fams[f].root in s'.reqs && HasRooted(s'.reqs[s'.h.fams[f].root]))
            && (forall f, g {:trigger s'.h.fams[f], s'.h.fams[g]} | f in s'.h.fams && g in s'.h.fams &&
                s'.h.fams[f].root == s'.h.fams[g].root :: f == g)
  {
    var s' := Next(s, e);
    StepLater(s, e);
    forall f | f in s'.h.fams ensures s'.h.fams[f].root in s'.reqs && HasRooted(s'.reqs[s'.h.fams[f].root])
    {
      if f in s.h.fams { RootedStays(s, e, s.h.fams[f].root); } else { FamiliesCome(s, e, f); }
    }
    forall f, g | f in s'.h.fams && g in s'.h.fams && s'.h.fams[f].root == s'.h.fams[g].root ensures f == g
    {
      if f !in s.h.fams { FamiliesCome(s, e, f); }
      if g !in s.h.fams { FamiliesCome(s, e, g); }
    }
  }

  lemma GrantsTraceable(s: State, e: Event)
    requires Good(s) && Enabled(s, e) && Traceable(s)
    ensures var s' := Next(s, e);
            && (forall c {:trigger s'.challenges[c]} | c in s'.challenges ::
                  && s'.challenges[c].grantedBy in s'.reqs &&
                     s'.reqs[s'.challenges[c].grantedBy] == Finished(ChallengeSent)
                  && s'.challenges[c].expires <= s'.now + CHALLENGE_LIFE)
            && (forall c, d {:trigger s'.challenges[c], s'.challenges[d]} |
                  c in s'.challenges && d in s'.challenges &&
                    s'.challenges[c].grantedBy == s'.challenges[d].grantedBy :: c == d)
  {
    var s' := Next(s, e);
    StepAges(s, e);
    StepLater(s, e);
    forall c | c in s'.challenges
      ensures s'.challenges[c].grantedBy in s'.reqs && s'.reqs[s'.challenges[c].grantedBy] == Finished(ChallengeSent)
      ensures s'.challenges[c].expires <= s'.now + CHALLENGE_LIFE
    {
      if c in s.challenges { RootedStays(s, e, s.challenges[c].grantedBy); } else { ChallengesCome(s, e, c); }
    }
    forall c, d | c in s'.challenges && d in s'.challenges && s'.challenges[c].grantedBy == s'.challenges[d].grantedBy
           ensures c == d
    {
      if c !in s.challenges { ChallengesCome(s, e, c); }
      if d !in s.challenges { ChallengesCome(s, e, d); }
    }
  }

  lemma TraceableEvent(tr: Trace, i: nat)
    requires Reached(tr) && i < |tr.events| && Traceable(tr.states[i])
    ensures Traceable(tr.states[i + 1])
  {
    ReachedSound(tr);
    SoundGood(tr, i);
    assert Happens(tr, i);
    TraceableStep(tr.states[i], tr.events[i]);
  }

  lemma {:induction false} ReachedTraceable(tr: Trace, i: nat)
    requires Reached(tr) && i < |tr.states|
    ensures Traceable(tr.states[i])
  {
    if i > 0 {
      ReachedTraceable(tr, i - 1);
      TraceableEvent(tr, i - 1);
    }
  }

  // --- Stale authority never arises anew ---

  /** The challenge was open at `a`, or was granted later by a login already checked at `a`. */
  predicate Derived(a: State, s: State, c: nat, u: UserId, v: nat)
  {
    && StaleChallenge(s, c, u, v)
    && (|| StaleOpen(a, c, u, v)
        || (c !in a.challenges && s.challenges[c].grantedBy in a.reqs &&
            StaleGrant(a.reqs[s.challenges[c].grantedBy], u, v)))
  }

  /** Request `x` spent such a challenge. */
  ghost predicate Spends(a: State, s: State, x: ReqId, u: UserId, v: nat)
  {
    exists c :: Derived(a, s, c, u, v) && s.challenges[c].spentBy == Some(x)
  }

  /** Family, challenge and request alike: what is stale at `s` was there at `a`, or comes of what was. */
  ghost predicate NoNewStale(a: State, s: State, u: UserId, v: nat)
  {
    && u in s.users && v <= s.users[u].epoch && a.now <= s.now && ChallengesAge(a.challenges, s.challenges)
    && (forall c {:trigger s.challenges[c]} | StaleChallenge(s, c, u, v) ::
          c in a.challenges ||
            (s.challenges[c].grantedBy in a.reqs && StaleGrant(a.reqs[s.challenges[c].grantedBy], u, v)))
    && (forall x {:trigger s.reqs[x]} | x in s.reqs && StaleGrant(s.reqs[x], u, v) ::
        x in a.reqs && a.reqs[x] == s.reqs[x])
    && (forall x {:trigger s.reqs[x]} | x in s.reqs && StaleRequest(s.reqs[x], u, v) ::
          (x in a.reqs && a.reqs[x] == s.reqs[x]) || Spends(a, s, x, u, v))
    && (forall f {:trigger s.h.fams[f]} | StaleFamily(s, f, u, v) ::
          || f in a.h.fams
          || (s.h.fams[f].root in a.reqs && StaleRequest(a.reqs[s.h.fams[f].root], u, v))
          || Spends(a, s, s.h.fams[f].root, u, v))
  }

  lemma SpendsStays(a: State, s: State, s': State, x: ReqId, u: UserId, v: nat)
    requires Spends(a, s, x, u, v) && ChallengesAge(s.challenges, s'.challenges)
    ensures Spends(a, s', x, u, v)
  {
    var c :| Derived(a, s, c, u, v) && s.challenges[c].spentBy == Some(x);
    assert Derived(a, s', c, u, v) && s'.challenges[c].spentBy == Some(x);
  }

  lemma RotationIsNotStale(s: State, r: ReqId, n: nat)
    requires Enabled(s, Exec(r, n)) && (s.reqs[r].Presented? || s.reqs[r].Authenticated? || HasBaton(s.reqs[r]))
    ensures !Carries(Rotate(s, r, n).reqs[r])
  {
  }

  /** No request comes to grant a challenge on older authority. */
  lemma NoStaleGrant(s: State, r: ReqId, n: nat, q': Request, u: UserId, v: nat)
    requires Enabled(s, Exec(r, n)) && u in s.users && v <= s.users[u].epoch && q' == Step(s, r, n).reqs[r]
    ensures !StaleGrant(q', u, v)
  {
    if s.reqs[r].Presented? || s.reqs[r].Authenticated? || HasBaton(s.reqs[r]) { RotationIsNotStale(s, r, n); }
  }

  /** A request becomes authenticated under an older password only by spending an open challenge of that age. */
  lemma StaleComes(s: State, r: ReqId, n: nat, q': Request, u: UserId, v: nat)
    requires Enabled(s, Exec(r, n)) && u in s.users && v <= s.users[u].epoch
    requires q' == Step(s, r, n).reqs[r] && StaleRequest(q', u, v)
    ensures && s.reqs[r].CodeAsked? && StaleOpen(s, s.reqs[r].challenge, u, v)
            && s.reqs[r].challenge in Step(s, r, n).challenges &&
               Step(s, r, n).challenges[s.reqs[r].challenge].spentBy == Some(r)
  {
    if s.reqs[r].Presented? || s.reqs[r].Authenticated? || HasBaton(s.reqs[r]) { RotationIsNotStale(s, r, n); }
  }

  lemma StaleStep(a: State, s: State, e: Event, u: UserId, v: nat)
    requires Good(s) && Enabled(s, e) && NoNewStale(a, s, u, v)
    ensures NoNewStale(a, Next(s, e), u, v)
  {
    var s' := Next(s, e);
    StepLater(s, e);
    StepAges(s, e);
    forall c | StaleChallenge(s', c, u, v)
      ensures c in a.challenges ||
              (s'.challenges[c].grantedBy in a.reqs && StaleGrant(a.reqs[s'.challenges[c].grantedBy], u, v))
    {
      StaleChallengeStep(a, s, e, u, v, c);
    }
    forall x | x in s'.reqs && StaleGrant(s'.reqs[x], u, v) ensures x in a.reqs && a.reqs[x] == s'.reqs[x]
    {
      StaleGrantStep(a, s, e, u, v, x);
    }
    forall x | x in s'.reqs && StaleRequest(s'.reqs[x], u, v)
      ensures (x in a.reqs && a.reqs[x] == s'.reqs[x]) || Spends(a, s', x, u, v)
    {
      StaleRequestStep(a, s, e, u, v, x);
    }
    forall f | StaleFamily(s', f, u, v)
      ensures f in a.h.fams || (s'.h.fams[f].root in a.reqs && StaleRequest(a.reqs[s'.h.fams[f].root], u, v))
              || Spends(a, s', s'.h.fams[f].root, u, v)
    {
      StaleFamilyStep(a, s, e, u, v, f);
    }
  }

  lemma StaleChallengeStep(a: State, s: State, e: Event, u: UserId, v: nat, c: nat)
    requires Enabled(s, e) && NoNewStale(a, s, u, v) && ChallengesAge(s.challenges, Next(s, e).challenges)
    requires StaleChallenge(Next(s, e), c, u, v)
    ensures var giver := Next(s, e).challenges[c].grantedBy;
            c in a.challenges || (giver in a.reqs && StaleGrant(a.reqs[giver], u, v))
  {
    if c !in s.challenges { ChallengesCome(s, e, c); } else { assert StaleChallenge(s, c, u, v); }
  }

  lemma StaleGrantStep(a: State, s: State, e: Event, u: UserId, v: nat, x: ReqId)
    requires Enabled(s, e) && NoNewStale(a, s, u, v)
    requires x in Next(s, e).reqs && StaleGrant(Next(s, e).reqs[x], u, v)
    ensures x in a.reqs && a.reqs[x] == Next(s, e).reqs[x]
  {
    if e.Exec? && e.r == x { NoStaleGrant(s, x, e.n, Next(s, e).reqs[x], u, v); }
    else { assert x in s.reqs && s.reqs[x] == Next(s, e).reqs[x]; }
  }

  lemma StaleRequestStep(a: State, s: State, e: Event, u: UserId, v: nat, x: ReqId)
    requires Enabled(s, e) && NoNewStale(a, s, u, v) && ChallengesAge(s.challenges, Next(s, e).challenges)
    requires x in Next(s, e).reqs && StaleRequest(Next(s, e).reqs[x], u, v)
    ensures (x in a.reqs && a.reqs[x] == Next(s, e).reqs[x]) || Spends(a, Next(s, e), x, u, v)
  {
    var s' := Next(s, e);
    if e.Exec? && e.r == x {
      StaleComes(s, x, e.n, s'.reqs[x], u, v);
      var c := s.reqs[x].challenge;
      assert Derived(a, s', c, u, v) && s'.challenges[c].spentBy == Some(x);
    } else {
      assert x in s.reqs && s.reqs[x] == s'.reqs[x];
      if Spends(a, s, x, u, v) { SpendsStays(a, s, s', x, u, v); }
    }
  }

  lemma StaleFamilyStep(a: State, s: State, e: Event, u: UserId, v: nat, f: FamilyId)
    requires Good(s) && Enabled(s, e) && NoNewStale(a, s, u, v) && ChallengesAge(s.challenges, Next(s, e).challenges)
    requires LedgerGrows(s.h, Next(s, e).h) && StaleFamily(Next(s, e), f, u, v)
    ensures var s', root := Next(s, e), Next(s, e).h.fams[f].root;
            f in a.h.fams || (root in a.reqs && StaleRequest(a.reqs[root], u, v)) || Spends(a, s', root, u, v)
  {
    var s' := Next(s, e);
    var root := s'.h.fams[f].root;
    if f !in s.h.fams {
      FamiliesCome(s, e, f);
      assert StaleRequest(s.reqs[root], u, v);
    } else {
      assert StaleFamily(s, f, u, v);
    }
    if Spends(a, s, root, u, v) { SpendsStays(a, s, s', root, u, v); }
  }

  lemma StaleEvent(tr: Trace, i: nat, j: nat, u: UserId, v: nat)
    requires Sound(tr) && j < |tr.events| && i < |tr.states| && NoNewStale(tr.states[i], tr.states[j], u, v)
    ensures NoNewStale(tr.states[i], tr.states[j + 1], u, v)
  {
    SoundGood(tr, j);
    assert Happens(tr, j);
    StaleStep(tr.states[i], tr.states[j], tr.events[j], u, v);
  }

  lemma {:induction false} StaleRun(tr: Trace, i: nat, j: nat, u: UserId, v: nat)
    requires Sound(tr) && i <= j < |tr.states| && u in tr.states[i].users && v <= tr.states[i].users[u].epoch
    ensures NoNewStale(tr.states[i], tr.states[j], u, v)
    decreases j - i
  {
    if i < j {
      StaleRun(tr, i, j - 1, u, v);
      StaleEvent(tr, i, j - 1, u, v);
    }
  }

  // --- How much of it is left ---

  /** Where a family on older authority may still come from. */
  datatype Source = ByRequest(r: ReqId) | ByChallenge(c: nat)

  /** The checked logins and the open challenges of that age. */
  function Sources(a: State, u: UserId, v: nat): set<Source>
  {
    (set r | r in a.reqs && (StaleRequest(a.reqs[r], u, v) || StaleGrant(a.reqs[r], u, v)) :: ByRequest(r))
    + (set c | c in a.challenges && StaleOpen(a, c, u, v) :: ByChallenge(c))
  }

  /** The family owes its root to the source: the login itself, or the answer to the challenge it got or was. */
  ghost predicate OwedTo(a: State, s: State, f: FamilyId, src: Source)
  {
    f in s.h.fams &&
    match src
    case ByRequest(x) =>
      if x in a.reqs && a.reqs[x].Authenticated? then s.h.fams[f].root == x
      else exists c ::
           c in s.challenges && s.challenges[c].grantedBy == x && s.challenges[c].spentBy == Some(s.h.fams[f].root)
    case ByChallenge(c) => c in s.challenges && s.challenges[c].spentBy == Some(s.h.fams[f].root)
  }

  lemma OneFamilyEach(a: State, s: State, f: FamilyId, g: FamilyId, src: Source)
    requires Traceable(s) && OwedTo(a, s, f, src) && OwedTo(a, s, g, src)
    ensures f == g
  {
  }

  lemma EachIsOwed(a: State, s: State, f: FamilyId, u: UserId, v: nat)
    requires NoNewStale(a, s, u, v) && StaleFamily(s, f, u, v) && f !in a.h.fams
    ensures exists src :: src in Sources(a, u, v) && OwedTo(a, s, f, src)
  {
    var root := s.h.fams[f].root;
    if root in a.reqs && StaleRequest(a.reqs[root], u, v) {
      assert ByRequest(root) in Sources(a, u, v) && OwedTo(a, s, f, ByRequest(root));
    } else {
      var c :| Derived(a, s, c, u, v) && s.challenges[c].spentBy == Some(root);
      var src := if StaleOpen(a, c, u, v) then ByChallenge(c) else ByRequest(s.challenges[c].grantedBy);
      assert src in Sources(a, u, v) && OwedTo(a, s, f, src);
    }
  }

  lemma {:induction false} Pigeonhole<A, B>(xs: set<A>, ys: set<B>, p: (A, B) -> bool)
    requires forall x | x in xs :: exists y :: y in ys && p(x, y)
    requires forall x1, x2, y {:trigger p(x1, y), p(x2, y)} | x1 in xs && x2 in xs && p(x1, y) && p(x2, y) :: x1 == x2
    ensures |xs| <= |ys|
  {
    if xs != {} {
      var x :| x in xs;
      var y :| y in ys && p(x, y);
      Pigeonhole(xs - {x}, ys - {y}, p);
    }
  }

  function NewStaleFamilies(a: State, s: State, u: UserId, v: nat): set<FamilyId>
  {
    set f | f in s.h.fams && f !in a.h.fams && StaleFamily(s, f, u, v)
  }

  /**
   Each source yields one family at most: stale families rooted since `a` number no more than
   its checked logins and open challenges.
   */
  lemma OneFamilyPerSource(tr: Trace, i: nat, j: nat, u: UserId, v: nat)
    requires Reached(tr) && i <= j < |tr.states| && u in tr.states[i].users && v <= tr.states[i].users[u].epoch
    ensures |NewStaleFamilies(tr.states[i], tr.states[j], u, v)| <= |Sources(tr.states[i], u, v)|
  {
    var a, s := tr.states[i], tr.states[j];
    ReachedSound(tr);
    StaleRun(tr, i, j, u, v);
    ReachedTraceable(tr, j);
    ghost var p: (FamilyId, Source) -> bool := (f: FamilyId, src: Source) => OwedTo(a, s, f, src);
    forall f | f in NewStaleFamilies(a, s, u, v) ensures exists src :: src in Sources(a, u, v) && p(f, src)
    {
      EachIsOwed(a, s, f, u, v);
    }
    forall f, g, src | p(f, src) && p(g, src) ensures f == g { OneFamilyEach(a, s, f, g, src); }
    Pigeonhole(NewStaleFamilies(a, s, u, v), Sources(a, u, v), p);
  }

  /** A challenge's lifetime after the last login on older authority got its challenge, none of that age is open. */
  lemma ChallengesRunOut(tr: Trace, i: nat, k: nat, u: UserId, v: nat, c: nat)
    requires Reached(tr) && i <= k < |tr.states| && u in tr.states[i].users && v <= tr.states[i].users[u].epoch
    requires forall x | x in tr.states[i].reqs :: !StaleGrant(tr.states[i].reqs[x], u, v)
    requires tr.states[i].now + CHALLENGE_LIFE <= tr.states[k].now
    ensures !StaleOpen(tr.states[k], c, u, v)
  {
    ReachedSound(tr);
    ReachedTraceable(tr, i);
    StaleRun(tr, i, k, u, v);
    var s := tr.states[k];
    if StaleChallenge(s, c, u, v) {
      assert c in tr.states[i].challenges && s.challenges[c].expires == tr.states[i].challenges[c].expires;
    }
  }

  // --- Password reset ---

  /** Event `j` writes the new password of a reset and event `i` is the same request's revocation. */
  predicate ResetBetween(tr: Trace, j: nat, i: nat, r: ReqId, u: UserId)
  {
    && j < i && i < |tr.events| < |tr.states|
    && tr.events[j].Exec? && tr.events[j].r == r && r in tr.states[j].reqs
    && tr.states[j].reqs[r].ResetAsked? && tr.states[j].reqs[r].user == u && u in tr.states[j + 1].users
    && RevokedAt(tr, i, r, u)
  }

  /**
   After a completed reset every row of the account belongs to a family that was being
   extended when the sessions were revoked, or was rooted under the new password, or owes its
   root to a login checked, or a challenge open, when the new password was written.
   */
  lemma ResetCutsOff(tr: Trace, j: nat, i: nat, k: nat, r: ReqId, u: UserId, t: Token)
    requires Sound(tr) && ResetBetween(tr, j, i, r, u) && i < k < |tr.states|
    requires t in tr.states[k].rows && tr.states[k].rows[t].user == u
    ensures var f := tr.states[k].rows[t].family;
            var a, b, s := tr.states[j + 1], tr.states[i + 1], tr.states[k];
            && f in s.h.fams && s.h.fams[f].user == u
            && (|| Holders(b.reqs, f) != {}
                || s.h.fams[f].epoch >= a.users[u].epoch
                || exists src :: src in Sources(a, u, a.users[u].epoch) && OwedTo(a, s, f, src))
  {
    var f, v := tr.states[k].rows[t].family, tr.states[j + 1].users[u].epoch;
    RowOwner(tr, k, t);
    StaleRun(tr, j + 1, k, u, v);
    if f in tr.states[i + 1].h.fams {
      RevokedComesBack(tr, i, k, r, u, f, t);
    } else {
      FamilyIsYounger(tr, j + 1, i + 1, f);
      if tr.states[k].h.fams[f].epoch < v { EachIsOwed(tr.states[j + 1], tr.states[k], f, u, v); }
    }
  }

  lemma RowOwner(tr: Trace, k: nat, t: Token)
    requires Sound(tr) && k < |tr.states| && t in tr.states[k].rows
    ensures tr.states[k].rows[t].family in tr.states[k].h.fams
    ensures tr.states[k].h.fams[tr.states[k].rows[t].family].user == tr.states[k].rows[t].user
  {
    SoundGood(tr, k);
  }

  lemma FamilyIsYounger(tr: Trace, i: nat, j: nat, f: FamilyId)
    requires Sound(tr) && i <= j < |tr.states| && f !in tr.states[j].h.fams
    ensures f !in tr.states[i].h.fams
  {
    RunLater(tr, i, j);
  }

  lemma RevokedComesBack(tr: Trace, i: nat, k: nat, r: ReqId, u: UserId, f: FamilyId, t: Token)
    requires Sound(tr) && RevokedAt(tr, i, r, u) && i < k < |tr.states| && f in tr.states[i + 1].h.fams
    requires t in tr.states[k].rows && tr.states[k].rows[t].user == u && tr.states[k].rows[t].family == f
    ensures Holders(tr.states[i + 1].reqs, f) != {}
  {
    RowOwner(tr, k, t);
    RunLater(tr, i + 1, k);
    RevokedFamilyEmpty(tr, i, r, u, f);
    var m := FirstRowBack(tr, i + 1, k, f);
  }

  lemma RevokedFamilyEmpty(tr: Trace, i: nat, r: ReqId, u: UserId, f: FamilyId)
    requires Sound(tr) && RevokedAt(tr, i, r, u) && f in tr.states[i + 1].h.fams
    ensures tr.states[i + 1].h.fams[f].user == u ==> NoRows(tr.states[i + 1].rows, f)
  {
    SoundGood(tr, i);
    assert Happens(tr, i);
    if tr.states[i + 1].h.fams[f].user == u { RevokedAlike(tr.states[i], f, u); }
  }
}
