/** What two-factor login guarantees over whole runs, and the service itself. */
module TotpLogin {
  import opened Base
  import opened RedisStore
  import opened Keys
  import opened Totp

  // --- Challenges are single-use ---

  predicate Grants(a: Act, c: string)
  {
    a.Login? && a.challenge == c
  }

  lemma ChallengeComes(g: nat, w: World, a: Act, now: Time, c: string)
    requires WellTyped(w.store) && Key(Challenge, c) in Perform(g, w, a, now).0.store
    ensures Key(Challenge, c) in w.store || Grants(a, c)
  {
  }

  lemma {:induction false} GrantedBefore(g: nat, run: Run, k: nat, c: string) returns (j: nat)
    requires Runs(g, run) && k <= |run.calls| && Key(Challenge, c) in run.worlds[k].store
    ensures j < k && Grants(run.calls[j].act, c)
  {
    if k == 0 {
      assert false;
    } else {
      AbsentStaysAbsent(g, run, k - 1, c);
      if Grants(run.calls[k - 1].act, c) { j := k - 1; } else { j := GrantedBefore(g, run, k - 1, c); }
    }
  }

  lemma AbsentStaysAbsent(g: nat, run: Run, k: nat, c: string)
    requires Runs(g, run) && k < |run.calls|
    ensures Key(Challenge, c) !in run.worlds[k].store && !Grants(run.calls[k].act, c) ==>
              Key(Challenge, c) !in run.worlds[k + 1].store
  {
    assert Happens(g, run, k);
    if Key(Challenge, c) in run.worlds[k + 1].store {
      ChallengeComes(g, run.worlds[k], run.calls[k].act, run.calls[k].at, c);
    }
  }

  lemma GrantedOnce(m: Matcher, g: nat, run: Run, i: nat, k: nat, c: string)
    requires Legal(m, g, run) && i <= k < |run.calls| && Key(Challenge, c) in run.worlds[i].store
    ensures !Grants(run.calls[k].act, c)
  {
    var j := GrantedBefore(g, run, i, c);
    assert FreshGrant(run, j, k);
  }

  lemma {:induction false} AbsentRun(g: nat, run: Run, lo: nat, k: nat, c: string)
    requires Runs(g, run) && lo <= k <= |run.calls| && Key(Challenge, c) !in run.worlds[lo].store
    requires forall j {:trigger Grants(run.calls[j].act, c)} | lo <= j < k :: !Grants(run.calls[j].act, c)
    ensures Key(Challenge, c) !in run.worlds[k].store
    decreases k
  {
    if lo < k {
      AbsentRun(g, run, lo, k - 1, c);
      AbsentStaysAbsent(g, run, k - 1, c);
    }
  }

  lemma SpentStaysSpent(m: Matcher, g: nat, run: Run, i: nat, k: nat, c: string)
    requires Legal(m, g, run) && i < k <= |run.calls|
    requires Key(Challenge, c) in run.worlds[i].store && Key(Challenge, c) !in run.worlds[i + 1].store
    ensures Key(Challenge, c) !in run.worlds[k].store
  {
    forall j {:trigger Grants(run.calls[j].act, c)} | i + 1 <= j < k ensures !Grants(run.calls[j].act, c)
    {
      GrantedOnce(m, g, run, i, j, c);
    }
    AbsentRun(g, run, i + 1, k, c);
  }

  /** Two accepted codes never answer the same challenge. */
  lemma ChallengesAreSingleUse(m: Matcher, g: nat, run: Run, i: nat, j: nat, u: string, v: string)
    requires Legal(m, g, run) && i < j && PassedAt(run, i, u) && PassedAt(run, j, v)
    ensures run.calls[i].act.AnswerCode? && run.calls[j].act.AnswerCode? &&
            run.calls[i].act.challenge != run.calls[j].act.challenge
  {
    PassedFacts(m, g, run, i, u);
    PassedFacts(m, g, run, j, v);
    SpentStaysSpent(m, g, run, i, j, run.calls[i].act.challenge);
  }

  // --- How often a protected account can be logged into ---

  function Passes(run: Run, lo: nat, hi: nat, u: string): nat
    requires hi <= |run.calls|
  {
    if hi <= lo then 0
    else Passes(run, lo, hi - 1, u) + (if PassedAt(run, hi - 1, u) then 1 else 0)
  }

  lemma PassFollows(m: Matcher, g: nat, run: Run, k: nat, u: string, a: Time)
    requires Legal(m, g, run) && PassedAt(run, k, u) && a <= run.calls[k].at
    ensures Counter(a) - 1 <= run.replies[k].counter
  {
    PassedFacts(m, g, run, k, u);
    assert Counter(a) <= Counter(run.calls[k].at);
  }

  /** The last of `n` accepted counters since instant `a` is at least `n - 2` above the counter of `a`. */
  predicate Climbed(run: Run, lo: nat, hi: nat, u: string, a: Time, last: nat)
    requires hi <= |run.calls|
  {
    Passes(run, lo, hi, u) > 0 ==>
      lo <= last < hi && PassedAt(run, last, u) && Counter(a) - 2 + Passes(run, lo, hi, u) <= run.replies[last].counter
  }

  lemma OneMorePass(m: Matcher, g: nat, run: Run, lo: nat, k: nat, u: string, a: Time, last: nat)
    requires Legal(m, g, run) && g * 1000 >= 3 * PERIOD && lo <= k && PassedAt(run, k, u) && a <= run.calls[k].at
    requires Climbed(run, lo, k, u, a, last)
    ensures Climbed(run, lo, k + 1, u, a, k)
  {
    if Passes(run, lo, k, u) > 0 { CountersIncrease(m, g, run, last, k, u); } else { PassFollows(m, g, run, k, u, a); }
  }

  lemma SamePasses(run: Run, lo: nat, k: nat, u: string, a: Time, last: nat)
    requires lo <= k < |run.calls| && !PassedAt(run, k, u) && Climbed(run, lo, k, u, a, last)
    ensures Climbed(run, lo, k + 1, u, a, last)
  {
  }

  lemma CountersClimb(m: Matcher, g: nat, run: Run, lo: nat, hi: nat, u: string, a: Time) returns (last: nat)
    requires Legal(m, g, run) && g * 1000 >= 3 * PERIOD && lo <= hi <= |run.calls|
    requires forall k {:trigger run.calls[k]} | lo <= k < hi :: a <= run.calls[k].at
    ensures Climbed(run, lo, hi, u, a, last)
  {
    ghost var p: nat -> bool := (k: nat) => k <= |run.calls| && exists last: nat :: Climbed(run, lo, k, u, a, last);
    assert Climbed(run, lo, lo, u, a, 0);
    forall k | lo <= k < hi && p(k) ensures p(k + 1)
    {
      var l :| Climbed(run, lo, k, u, a, l);
      if PassedAt(run, k, u) { OneMorePass(m, g, run, lo, k, u, a, l); } else { SamePasses(run, lo, k, u, a, l); }
    }
    Climb(p, lo, hi);
    last :| Climbed(run, lo, hi, u, a, last);
  }

  lemma PeriodsInWindow(a: Time, t: Time, L: nat)
    requires a <= t < a + L
    ensures Counter(t) - Counter(a) <= CeilDiv(L, PERIOD)
  {
    assert t / PERIOD <= (a + L - 1) / PERIOD;
    assert (a + L - 1) / PERIOD <= a / PERIOD + (L - 1) / PERIOD + 1;
    assert CeilDiv(L, PERIOD) == (L - 1) / PERIOD + 1;
  }

  /** In any window of `L` milliseconds at most ceil(L / 30 s) + 3 codes are accepted for a user. */
  lemma AcceptanceRate(m: Matcher, g: nat, run: Run, lo: nat, hi: nat, u: string, a: Time, L: nat)
    requires Legal(m, g, run) && g * 1000 >= 3 * PERIOD && lo <= hi <= |run.calls|
    requires forall k {:trigger run.calls[k]} | lo <= k < hi :: a <= run.calls[k].at < a + L
    ensures Passes(run, lo, hi, u) <= CeilDiv(L, 30_000) + 3
  {
    var last := CountersClimb(m, g, run, lo, hi, u, a);
    if Passes(run, lo, hi, u) > 0 {
      PassedFacts(m, g, run, last, u);
      PeriodsInWindow(a, run.calls[last].at, L);
    }
  }

  /** Call `k` issues tokens in a new family for the user. */
  predicate RootsAt(run: Run, k: nat, u: string)
  {
    k < |run.calls| && (run.replies[k] == Rooted(u) || PassedAt(run, k, u))
  }

  /** While 2FA is on, a family is rooted only by an accepted code. */
  lemma ProtectedRootsNeedCode(g: nat, run: Run, k: nat, u: string)
    requires Runs(g, run) && RootsAt(run, k, u) && Enabled(run.worlds[k], u)
    ensures PassedAt(run, k, u)
  {
    assert Happens(g, run, k);
  }

  function RootsWhileOn(run: Run, lo: nat, hi: nat, u: string): nat
    requires hi <= |run.calls|
  {
    if hi <= lo then 0
    else RootsWhileOn(run, lo, hi - 1, u) + (if RootsWhileOnAt(run, hi - 1, u) then 1 else 0)
  }

  predicate RootsWhileOnAt(run: Run, k: nat, u: string)
    requires k < |run.calls|
  {
    RootsAt(run, k, u) && Enabled(run.worlds[k], u)
  }

  lemma RootNeedsPass(g: nat, run: Run, k: nat, u: string)
    requires Runs(g, run) && k < |run.calls|
    ensures RootsWhileOnAt(run, k, u) ==> PassedAt(run, k, u)
  {
    if RootsWhileOnAt(run, k, u) { ProtectedRootsNeedCode(g, run, k, u); }
  }

  lemma {:induction false} RootsArePasses(g: nat, run: Run, lo: nat, hi: nat, u: string)
    requires Runs(g, run) && hi <= |run.calls|
    ensures RootsWhileOn(run, lo, hi, u) <= Passes(run, lo, hi, u)
    decreases hi
  {
    if lo < hi {
      RootsArePasses(g, run, lo, hi - 1, u);
      RootNeedsPass(g, run, hi - 1, u);
    }
  }

  /** Families rooted while the account has 2FA on: at most ceil(L / 30 s) + 3 arise in L milliseconds. */
  lemma ProtectedLoginRate(m: Matcher, run: Run, lo: nat, hi: nat, u: string, a: Time, L: nat)
    requires Legal(m, GUARD_SECONDS, run) && lo <= hi <= |run.calls|
    requires forall k {:trigger run.calls[k]} | lo <= k < hi :: a <= run.calls[k].at < a + L
    ensures RootsWhileOn(run, lo, hi, u) <= CeilDiv(L, 30_000) + 3
  {
    RootsArePasses(GUARD_SECONDS, run, lo, hi, u);
    AcceptanceRate(m, GUARD_SECONDS, run, lo, hi, u, a, L);
  }

  /** Each such family stands for an accepted code; their challenges differ and their counters increase. */
  lemma ProtectedRootsAreDistinct(m: Matcher, run: Run, i: nat, j: nat, u: string)
    requires Legal(m, GUARD_SECONDS, run) && i < j
    requires RootsAt(run, i, u) && Enabled(run.worlds[i], u)
    requires RootsAt(run, j, u) && Enabled(run.worlds[j], u)
    ensures PassedAt(run, i, u) && PassedAt(run, j, u)
    ensures run.replies[i].counter < run.replies[j].counter
    ensures run.calls[i].act.AnswerCode? && run.calls[j].act.AnswerCode? &&
            run.calls[i].act.challenge != run.calls[j].act.challenge
  {
    ProtectedRootsNeedCode(GUARD_SECONDS, run, i, u);
    ProtectedRootsNeedCode(GUARD_SECONDS, run, j, u);
    CountersIncrease(m, GUARD_SECONDS, run, i, j, u);
    ChallengesAreSingleUse(m, GUARD_SECONDS, run, i, j, u, u);
  }

  // --- How many codes a challenge lets one try ---

  predicate Judging(r: Reply)
  {
    r.WrongCode? || r.Replayed? || r.Passed?
  }

  predicate JudgedAt(run: Run, k: nat, c: string)
  {
    k < |run.calls| && run.calls[k].act.AnswerCode? && run.calls[k].act.challenge == c && Judging(run.replies[k])
  }

  /** Answers to the challenge that got as far as having their code validated. */
  function Judgements(run: Run, k: nat, c: string): nat
    requires k <= |run.calls|
  {
    if k == 0 then 0 else Judgements(run, k - 1, c) + (if JudgedAt(run, k - 1, c) then 1 else 0)
  }

  /** A challenge in the store has a counter of the same age that has seen every code judged so far. */
  predicate Metered(store: Store<Key>, c: string, judged: nat)
  {
    && judged <= CHALLENGE_ANSWERS
    && (Key(Challenge, c) in store ==>
          && Key(ChallengeAttempts, c) in store && store[Key(ChallengeAttempts, c)].value.Number?
          && store[Key(ChallengeAttempts, c)].expiry == store[Key(Challenge, c)].expiry
          && judged <= store[Key(ChallengeAttempts, c)].value.n <= CHALLENGE_ANSWERS)
  }

  lemma MeterStep(g: nat, w: World, a: Act, now: Time, c: string, judged: nat)
    requires WellTyped(w.store) && Metered(w.store, c, judged)
    requires Grants(a, c) ==> judged == 0
    ensures var (w', r) := Perform(g, w, a, now);
            Metered(w'.store, c, judged + (if a.AnswerCode? && a.challenge == c && Judging(r) then 1 else 0))
  {
  }

  lemma OnlyLiveIsJudged(g: nat, w: World, c: string, delta: Option<int>, now: Time)
    requires WellTyped(w.store) && Judging(AnswerOn(g, w, c, delta, now).1)
    ensures Key(Challenge, c) in w.store
  {
  }

  lemma GrantedBeforeJudged(g: nat, run: Run, k: nat, c: string) returns (j: nat)
    requires Runs(g, run) && JudgedAt(run, k, c)
    ensures j < k && Grants(run.calls[j].act, c)
  {
    assert Happens(g, run, k);
    OnlyLiveIsJudged(g, run.worlds[k], c, run.calls[k].act.delta, run.calls[k].at);
    j := GrantedBefore(g, run, k, c);
  }

  lemma NotJudgedYet(g: nat, run: Run, k: nat, c: string)
    requires Runs(g, run) && k < |run.calls| && forall j | 0 <= j < k :: !Grants(run.calls[j].act, c)
    ensures !JudgedAt(run, k, c)
  {
    if JudgedAt(run, k, c) {
      var j := GrantedBeforeJudged(g, run, k, c);
    }
  }

  /** A challenge not granted yet has no code judged against it. */
  lemma {:induction false} NoneJudgedBefore(g: nat, run: Run, k: nat, c: string)
    requires Runs(g, run) && k <= |run.calls| && forall j | 0 <= j < k :: !Grants(run.calls[j].act, c)
    ensures Judgements(run, k, c) == 0
  {
    if k > 0 {
      NoneJudgedBefore(g, run, k - 1, c);
      NotJudgedYet(g, run, k - 1, c);
    }
  }

  lemma MeterEvent(m: Matcher, g: nat, run: Run, k: nat, c: string)
    requires Legal(m, g, run) && k < |run.calls|
    requires Metered(run.worlds[k].store, c, Judgements(run, k, c))
    ensures Metered(run.worlds[k + 1].store, c, Judgements(run, k + 1, c))
  {
    var call := run.calls[k];
    assert Happens(g, run, k);
    if Grants(call.act, c) {
      forall j | 0 <= j < k ensures !Grants(run.calls[j].act, c) { assert FreshGrant(run, j, k); }
      NoneJudgedBefore(g, run, k, c);
    }
    MeterStep(g, run.worlds[k], call.act, call.at, c, Judgements(run, k, c));
  }

  lemma {:induction false} ChallengeIsMetered(m: Matcher, g: nat, run: Run, k: nat, c: string)
    requires Legal(m, g, run) && k <= |run.calls|
    ensures Metered(run.worlds[k].store, c, Judgements(run, k, c))
  {
    if k > 0 {
      ChallengeIsMetered(m, g, run, k - 1, c);
      MeterEvent(m, g, run, k - 1, c);
    }
  }

  /** No challenge ever has more than five codes judged against it. */
  lemma FiveCodesPerChallenge(m: Matcher, g: nat, run: Run, c: string)
    requires Legal(m, g, run)
    ensures Judgements(run, |run.calls|, c) <= 5
  {
    ChallengeIsMetered(m, g, run, |run.calls|, c);
  }

  // --- Enrolment ---

  predicate SecretIs(w: World, u: string, x: Secret)
  {
    u in w.accounts && w.accounts[u].secret == Some(x)
  }

  /** The code belongs to the secret at the current counter or a neighbour of it. */
  predicate BelongsNow(m: Matcher, x: Secret, now: Time, code: Code)
  {
    m(x, now / 30_000 - 1, code) || m(x, now / 30_000, code) || m(x, now / 30_000 + 1, code)
  }

  /** At call `j` the user proved possession of secret `x`, which has not changed up to call `k`. */
  ghost predicate ProvedAt(m: Matcher, run: Run, j: nat, k: nat, u: string, x: Secret)
  {
    && j < k <= |run.calls|
    && run.calls[j].act.Enable? && run.calls[j].act.user == u && run.replies[j] == Done
    && BelongsNow(m, x, run.calls[j].at, run.calls[j].act.code)
    && (forall l {:trigger SecretIs(run.worlds[l], u, x)} | j <= l <= k :: SecretIs(run.worlds[l], u, x))
  }

  lemma EnableStep(m: Matcher, g: nat, w: World, call: Call, u: string)
    requires WellTyped(w.store) && LibraryOk(m, w, call)
    requires Enabled(Perform(g, w, call.act, call.at).0, u) && (Enabled(w, u) ==> w.accounts[u].secret.Some?)
    ensures var (w', r) := Perform(g, w, call.act, call.at);
            if Enabled(w, u) then w'.accounts[u].secret == w.accounts[u].secret
            else && call.act.Enable? && call.act.user == u && r == Done
                 && u in w.accounts && w.accounts[u].secret.Some? && w'.accounts[u].secret == w.accounts[u].secret
                 && BelongsNow(m, w.accounts[u].secret.value, call.at, call.act.code)
  {
    if !Enabled(w, u) {
      assert call.act.Enable? && call.act.user == u;
      var d := call.act.delta.value;
      assert -1 <= d <= 1 && m(w.accounts[u].secret.value, Counter(call.at) + d, call.act.code);
    }
  }

  lemma ProvedLonger(m: Matcher, g: nat, run: Run, j: nat, k: nat, u: string, x: Secret)
    requires k < |run.calls| && ProvedAt(m, run, j, k, u, x) && SecretIs(run.worlds[k + 1], u, x)
    ensures ProvedAt(m, run, j, k + 1, u, x)
  {
  }

  lemma EnableEvent(m: Matcher, g: nat, run: Run, k: nat, u: string) returns (x: Secret)
    requires Legal(m, g, run) && k < |run.calls| && Enabled(run.worlds[k + 1], u)
    requires Enabled(run.worlds[k], u) ==> run.worlds[k].accounts[u].secret.Some?
    ensures SecretIs(run.worlds[k], u, x) && SecretIs(run.worlds[k + 1], u, x)
    ensures !Enabled(run.worlds[k], u) ==> ProvedAt(m, run, k, k + 1, u, x)
  {
    assert Happens(g, run, k) && LibraryAt(m, run, k);
    EnableStep(m, g, run.worlds[k], run.calls[k], u);
    x := run.worlds[k].accounts[u].secret.value;
  }

  /** In every reachable state, 2FA is on only with a secret that a valid code proved since it was set. */
  lemma {:induction false} OnMeansProved(m: Matcher, g: nat, run: Run, k: nat, u: string) returns (j: nat, x: Secret)
    requires Legal(m, g, run) && k <= |run.calls| && Enabled(run.worlds[k], u)
    ensures SecretIs(run.worlds[k], u, x) && ProvedAt(m, run, j, k, u, x)
  {
    if k == 0 {
      assert false;
    } else if Enabled(run.worlds[k - 1], u) {
      j, x := OnMeansProved(m, g, run, k - 1, u);
      var y := EnableEvent(m, g, run, k - 1, u);
      ProvedLonger(m, g, run, j, k - 1, u, x);
    } else {
      x := EnableEvent(m, g, run, k - 1, u);
      j := k - 1;
    }
  }

  // --- Law of each call ---

  /** The account is there, not deleted, and has 2FA on with a secret. */
  predicate On(w: World, u: string)
  {
    u in w.accounts && !w.accounts[u].deleted && w.accounts[u].enabledAt.Some? && w.accounts[u].secret.Some?
  }

  /** The account is there, not deleted, and has a secret but 2FA off. */
  predicate Pending(w: World, u: string)
  {
    u in w.accounts && !w.accounts[u].deleted && w.accounts[u].enabledAt.None? && w.accounts[u].secret.Some?
  }

  /** 2FA is turned off by a code of the current secret and by nothing less. */
  lemma DisableLaw(m: Matcher, g: nat, run: Run, k: nat, u: string, code: Code, delta: Option<int>)
    requires Legal(m, g, run) && k < |run.calls| && run.calls[k].act == Disable(u, code, delta)
    ensures var w, w' := run.worlds[k], run.worlds[k + 1];
            && (run.replies[k] == Done <==>
                On(w, u) && BelongsNow(m, w.accounts[u].secret.value, run.calls[k].at, code))
            && (run.replies[k] == Done ==>
                  w' == w.(accounts := w.accounts[u := w.accounts[u].(secret := None, enabledAt := None)]))
            && (run.replies[k] != Done ==> w' == w)
  {
    assert Happens(g, run, k) && LibraryAt(m, run, k);
    CodeOfPeriod(m, run, k);
  }

  /** 2FA is turned on by a code of the pending secret and by nothing less. */
  lemma EnableLaw(m: Matcher, g: nat, run: Run, k: nat, u: string, code: Code, delta: Option<int>)
    requires Legal(m, g, run) && k < |run.calls| && run.calls[k].act == Enable(u, code, delta)
    ensures var w, w', at := run.worlds[k], run.worlds[k + 1], run.calls[k].at;
            && (run.replies[k] == Done <==> Pending(w, u) && BelongsNow(m, w.accounts[u].secret.value, at, code))
            && (run.replies[k] == Done ==> w' == w.(accounts := w.accounts[u := w.accounts[u].(enabledAt := Some(at))]))
            && (run.replies[k] != Done ==> w' == w)
  {
    assert Happens(g, run, k) && LibraryAt(m, run, k);
    CodeOfPeriod(m, run, k);
  }

  /** A delta among -1, 0 and 1 names one of the three counters. */
  lemma CodeOfPeriod(m: Matcher, run: Run, k: nat)
    requires k < |run.calls| && LibraryAt(m, run, k) && (run.calls[k].act.Enable? || run.calls[k].act.Disable?)
    ensures var a, u, w := run.calls[k].act, run.calls[k].act.user, run.worlds[k];
            u in w.accounts && w.accounts[u].secret.Some? ==>
              (a.delta.Some? <==> BelongsNow(m, w.accounts[u].secret.value, run.calls[k].at, a.code))
  {
    var a, u, w, at := run.calls[k].act, run.calls[k].act.user, run.worlds[k], run.calls[k].at;
    if u in w.accounts && w.accounts[u].secret.Some? {
      assert Validates(m, w.accounts[u].secret.value, a.code, at, a.delta);
      if a.delta.Some? { assert a.delta.value == -1 || a.delta.value == 0 || a.delta.value == 1; }
    }
  }

  /** Over any run, 2FA goes off for an account only in a disable that carries a code of its secret. */
  lemma OffNeedsCode(m: Matcher, g: nat, run: Run, k: nat, u: string)
    requires Legal(m, g, run) && k < |run.calls| && u in run.worlds[k].accounts &&
             run.worlds[k].accounts[u].enabledAt.Some?
    requires !(u in run.worlds[k + 1].accounts && run.worlds[k + 1].accounts[u].enabledAt.Some?)
    ensures run.calls[k].act.Disable? && run.calls[k].act.user == u && On(run.worlds[k], u)
    ensures BelongsNow(m, run.worlds[k].accounts[u].secret.value, run.calls[k].at, run.calls[k].act.code)
  {
    assert Happens(g, run, k);
    OnlyDisableTurnsOff(g, run.worlds[k], run.calls[k].act, run.calls[k].at, u);
    DisableLaw(m, g, run, k, u, run.calls[k].act.code, run.calls[k].act.delta);
  }

  lemma OnlyDisableTurnsOff(g: nat, w: World, a: Act, now: Time, u: string)
    requires WellTyped(w.store) && u in w.accounts && w.accounts[u].enabledAt.Some?
    requires var w' := Perform(g, w, a, now).0; !(u in w'.accounts && w'.accounts[u].enabledAt.Some?)
    ensures a.Disable? && a.user == u && Perform(g, w, a, now).1 == Done
  {
  }

  /**
   After the right password: no tokens and no challenge for a deleted account, tokens when 2FA
   is off, a challenge when on.
   */
  lemma LoginLaw(m: Matcher, g: nat, run: Run, k: nat, u: string, c: string)
    requires Legal(m, g, run) && k < |run.calls| && run.calls[k].act == Login(u, c)
    ensures var w, r := run.worlds[k], run.replies[k];
            && (r == Rooted(u) <==> u in w.accounts && !w.accounts[u].deleted && w.accounts[u].enabledAt.None?)
            && (r == Challenged <==> u in w.accounts && !w.accounts[u].deleted && w.accounts[u].enabledAt.Some?)
            && (r == Refused <==> u !in w.accounts || w.accounts[u].deleted)
            && run.worlds[k + 1].accounts == w.accounts && (r != Challenged ==> run.worlds[k + 1] == w)
  {
    assert Happens(g, run, k);
  }

  /** What an answer to a challenge is told, check by check, in the order they are made. */
  lemma AnswerLaw(g: nat, w: World, c: string, delta: Option<int>, now: Time)
    requires WellTyped(w.store)
    ensures var (w', r) := AnswerOn(g, w, c, delta, now);
            var id, tries := Get(w.store, Key(Challenge, c), now), Count(w.store, Key(ChallengeAttempts, c), now);
            && w'.accounts == w.accounts
            && if id.None? then r == NoChallenge && w' == w
               else if tries >= 5 then r == TooMany && Key(Challenge, c) !in w'.store
               else if !On(w, id.value.s) then r == NoChallenge
               else if delta.None? then r == WrongCode
               else
                 var u, counter := id.value.s, now / 30_000 + delta.value;
                 var last := Get(w.store, Key(LastCounter, u), now);
                 r == if last.Some? && counter <= last.value.n then Replayed else Passed(u, counter)
  {
  }

  /** A setup writes its secret exactly for an active account with 2FA off. */
  lemma SetupLaw(m: Matcher, g: nat, run: Run, k: nat, u: string, x: Secret)
    requires Legal(m, g, run) && k < |run.calls| && run.calls[k].act == Setup(u, x)
    ensures var w, w' := run.worlds[k], run.worlds[k + 1];
            if u in w.accounts && !w.accounts[u].deleted && w.accounts[u].enabledAt.None?
            then run.replies[k] == Done && w' == w.(accounts := w.accounts[u := w.accounts[u].(secret := Some(x))])
            else run.replies[k] == Refused && w' == w
  {
    assert Happens(g, run, k);
  }

  // --- The service ---

  class TotpService {
    const cache: Redis<Key>
    var accounts: map<string, Account>

    constructor (cache: Redis<Key>)
      ensures this.cache == cache && accounts == map[]
    {
      this.cache, accounts := cache, map[];
    }

    ghost function State(): World
      reads this, cache
    {
      World(cache.store, accounts)
    }

    method Setup(userId: string, secret: Secret) returns (r: Reply)
      modifies this`accounts
      ensures (State(), r) == SetupOn(old(State()), userId, secret)
      ensures r == Done <==>
              userId in old(accounts) && !old(accounts)[userId].deleted && old(accounts)[userId].enabledAt.None?
      ensures r == Done ==> accounts == old(accounts)[userId := old(accounts)[userId].(secret := Some(secret))]
      ensures r != Done ==> r == Refused && accounts == old(accounts)
    {
      if userId !in accounts || accounts[userId].deleted { return Refused; }
      if accounts[userId].enabledAt.Some? { return Refused; }
      accounts := accounts[userId := accounts[userId].(secret := Some(secret))];
      r := Done;
    }

    /** `delta` is the library's answer for the code and the pending secret. */
    method Enable(userId: string, delta: Option<int>) returns (r: Reply)
      modifies this`accounts
      ensures (State(), r) == EnableOn(old(State()), userId, delta, cache.now)
      ensures var pending := userId in old(accounts) && !old(accounts)[userId].deleted
                             && old(accounts)[userId].enabledAt.None? && old(accounts)[userId].secret.Some?;
              r == if pending then (if delta.Some? then Done else WrongCode) else Refused
      ensures r == Done ==> accounts == old(accounts)[userId := old(accounts)[userId].(enabledAt := Some(cache.now))]
      ensures r != Done ==> accounts == old(accounts)
    {
      if userId !in accounts || accounts[userId].deleted { return Refused; }
      if accounts[userId].enabledAt.Some? { return Refused; }
      if accounts[userId].secret.None? { return Refused; }
      if delta.None? { return WrongCode; }
      accounts := accounts[userId := accounts[userId].(enabledAt := Some(cache.now))];
      r := Done;
    }

    method Disable(userId: string, delta: Option<int>) returns (r: Reply)
      modifies this`accounts
      ensures (State(), r) == DisableOn(old(State()), userId, delta)
      ensures var on := userId in old(accounts) && !old(accounts)[userId].deleted
                        && old(accounts)[userId].enabledAt.Some? && old(accounts)[userId].secret.Some?;
              r == if on then (if delta.Some? then Done else WrongCode) else Refused
      ensures r == Done ==>
                accounts == old(accounts)[userId := old(accounts)[userId].(secret := None, enabledAt := None)]
      ensures r != Done ==> accounts == old(accounts)
    {
      if userId !in accounts || accounts[userId].deleted { return Refused; }
      if accounts[userId].enabledAt.None? || accounts[userId].secret.None? { return Refused; }
      if delta.None? { return WrongCode; }
      accounts := accounts[userId := accounts[userId].(secret := None, enabledAt := None)];
      r := Done;
    }

    /** POST /auth/login once the password is verified; tokens follow when it answers `Rooted`. */
    method LogIn(userId: string, digest: string) returns (r: Reply)
      modifies cache`store
      ensures (State(), r) == LoginOn(old(State()), userId, digest, cache.now)
      ensures r == if userId !in accounts || accounts[userId].deleted then Refused
                   else if accounts[userId].enabledAt.None? then Rooted(userId) else Challenged
      ensures r != Challenged ==> cache.store == old(cache.store)
    {
      if userId !in accounts || accounts[userId].deleted { return Refused; }
      if accounts[userId].enabledAt.None? { return Rooted(userId); }
      CreateLoginChallenge(userId, digest);
      r := Challenged;
    }

    /** For five minutes the challenge reads as the user's and its count as 0; nothing else changes. */
    method CreateLoginChallenge(userId: string, digest: string)
      modifies cache`store
      ensures cache.store == Grant(old(cache.store), userId, digest, cache.now)
      ensures forall t: Time ::
              Get(cache.store, Key(Challenge, digest), t) == if t < cache.now + CHALLENGE_LIFE then Some(Text(userId))
              else None
      ensures forall t: Time ::
              Get(cache.store, Key(ChallengeAttempts, digest), t) == if t < cache.now + CHALLENGE_LIFE
              then Some(Number(0)) else None
      ensures forall k, t: Time | k != Key(Challenge, digest) && k != Key(ChallengeAttempts, digest) ::
                Get(cache.store, k, t) == Get(old(cache.store), k, t)
    {
      cache.Set(Key(Challenge, digest), Text(userId), 5 * 60);
      cache.Set(Key(ChallengeAttempts, digest), Number(0), 5 * 60);
    }

    method ConsumeLoginChallenge(digest: string, delta: Option<int>) returns (r: Reply)
      requires WellTyped(cache.store)
      modifies cache`store
      ensures WellTyped(cache.store)
      ensures (State(), r) == AnswerOn(GUARD_SECONDS, old(State()), digest, delta, cache.now)
    {
      var id := cache.Read(Key(Challenge, digest));
      if id.None? { return NoChallenge; }
      var userId := id.value.s;
      var attempts := cache.Increment(Key(ChallengeAttempts, digest));
      if attempts > 5 {
        cache.Del(Key(Challenge, digest));
        return TooMany;
      }
      if userId !in accounts || accounts[userId].deleted || accounts[userId].secret.None? ||
         accounts[userId].enabledAt.None? {
        return NoChallenge;
      }
      if delta.None? { return WrongCode; }
      var counter := cache.now / PERIOD + delta.value;
      var last := cache.Read(Key(LastCounter, userId));
      if last.Some? && last.value.n >= counter { return Replayed; }
      cache.Set(Key(LastCounter, userId), Number(counter), 30 * 3);
      cache.Del(Key(Challenge, digest));
      cache.Del(Key(ChallengeAttempts, digest));
      r := Passed(userId, counter);
    }
  }
}
