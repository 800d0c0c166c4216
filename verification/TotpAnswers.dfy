/**
 Exactly when a TOTP code is accepted at login, in terms of the calls and their answers alone: the keys
 of the challenge and the short-lived guard come to a challenge remembered for five minutes
 and accepted counters remembered for ever.
 */
module TotpAnswers {
  import opened Base
  import opened RedisStore
  import opened Keys
  import opened Totp
  import opened TotpLogin

  /** Call `i` granted challenge `c` to the user. */
  predicate ChallengedAt(run: Run, i: nat, c: string, u: string)
  {
    i < |run.calls| && run.calls[i].act == Login(u, c) && run.replies[i] == Challenged
  }

  predicate AnswersTo(a: Act, c: string)
  {
    a.AnswerCode? && a.challenge == c
  }

  /** How many answers to the challenge fall strictly between `i` and `k`. */
  function Attempts(run: Run, i: nat, k: nat, c: string): nat
    requires k <= |run.calls|
  {
    if k <= i + 1 then 0 else Attempts(run, i, k - 1, c) + (if AnswersTo(run.calls[k - 1].act, c) then 1 else 0)
  }

  predicate PassedOn(run: Run, k: nat, c: string)
  {
    k < |run.calls| && AnswersTo(run.calls[k].act, c) && run.replies[k].Passed?
  }

  /** One of them was accepted. */
  ghost predicate Accepted(run: Run, i: nat, k: nat, c: string)
  {
    exists j :: i < j < k && PassedOn(run, j, c)
  }

  // --- The challenge's keys ---

  /** The keys of a challenge granted at `t`, after `attempts` answers of which one may have passed. */
  predicate Holds(store: Store<Key>, c: string, u: string, t: Time, now: Time, passed: bool, attempts: nat)
  {
    var challenge, count := Key(Challenge, c), Key(ChallengeAttempts, c);
    && (challenge in store ==> store[challenge] == Entry(Text(u), Some(t + CHALLENGE_LIFE)))
    && (now < t + CHALLENGE_LIFE ==>
          && (challenge in store <==> !passed && attempts <= CHALLENGE_ANSWERS)
          && (challenge in store ==>
              count in store && store[count] == Entry(Number(attempts), Some(t + CHALLENGE_LIFE))))
  }

  lemma AnswerIsHeld(g: nat, w: World, c: string, delta: Option<int>, u: string, t: Time, now: Time, at: Time,
                     passed: bool, attempts: nat)
    requires WellTyped(w.store) && Holds(w.store, c, u, t, now, passed, attempts) && now <= at
    ensures var (w', r) := AnswerOn(g, w, c, delta, at);
            Holds(w'.store, c, u, t, at, passed || r.Passed?, attempts + 1)
  {
  }

  lemma OthersKeepHolding(g: nat, w: World, a: Act, c: string, u: string, t: Time, now: Time, at: Time, passed: bool,
                          attempts: nat)
    requires WellTyped(w.store) && Holds(w.store, c, u, t, now, passed, attempts) && now <= at
    requires !AnswersTo(a, c) && !Grants(a, c)
    ensures Holds(Perform(g, w, a, at).0.store, c, u, t, at, passed, attempts)
  {
  }

  lemma GrantHolds(g: nat, w: World, c: string, u: string, t: Time)
    requires WellTyped(w.store) && Perform(g, w, Login(u, c), t).1 == Challenged
    ensures Holds(Perform(g, w, Login(u, c), t).0.store, c, u, t, t, false, 0)
  {
  }

  lemma AcceptedStep(run: Run, i: nat, k: nat, c: string)
    requires i + 1 < k <= |run.calls|
    ensures Accepted(run, i, k, c) <==>
            Accepted(run, i, k - 1, c) || PassedOn(run, k - 1, c)
  {
  }

  /** One more call: only an answer to this challenge counts against it. */
  lemma CallKeepsHolding(g: nat, run: Run, k: nat, c: string, u: string, t: Time, now: Time,
                         passed: bool, attempts: nat, passed': bool, attempts': nat)
    requires Runs(g, run) && k < |run.calls| && !Grants(run.calls[k].act, c) && now <= run.calls[k].at
    requires Holds(run.worlds[k].store, c, u, t, now, passed, attempts)
    requires passed' <==> passed || PassedOn(run, k, c)
    requires attempts' == attempts + (if AnswersTo(run.calls[k].act, c) then 1 else 0)
    ensures Holds(run.worlds[k + 1].store, c, u, t, run.calls[k].at, passed', attempts')
  {
    assert Happens(g, run, k);
    if AnswersTo(run.calls[k].act, c) {
      AnswerIsHeld(g, run.worlds[k], c, run.calls[k].act.delta, u, t, now, run.calls[k].at, passed, attempts);
    } else {
      OthersKeepHolding(g, run.worlds[k], run.calls[k].act, c, u, t, now, run.calls[k].at, passed, attempts);
    }
  }

  /** Call `k` grants no challenge of this name, and comes no earlier than the one before. */
  predicate Quiet(run: Run, k: nat, c: string)
  {
    0 < k < |run.calls| && !Grants(run.calls[k].act, c) && run.calls[k - 1].at <= run.calls[k].at
  }

  lemma LegalAfterGrant(m: Matcher, g: nat, run: Run, i: nat, k: nat, c: string, u: string)
    requires Legal(m, g, run) && ChallengedAt(run, i, c, u) && i < k < |run.calls|
    ensures Quiet(run, k, c)
  {
    assert FreshGrant(run, i, k) && InOrder(run, k - 1, k);
  }

  ghost predicate HoldsAfter(run: Run, i: nat, k: nat, c: string, u: string)
    requires i < k <= |run.calls|
  {
    Holds(run.worlds[k].store, c, u, run.calls[i].at, run.calls[k - 1].at, Accepted(run, i, k, c),
          Attempts(run, i, k, c))
  }

  lemma HoldsFromGrant(g: nat, run: Run, i: nat, c: string, u: string)
    requires Runs(g, run) && ChallengedAt(run, i, c, u)
    ensures HoldsAfter(run, i, i + 1, c, u)
  {
    assert Happens(g, run, i);
    GrantHolds(g, run.worlds[i], c, u, run.calls[i].at);
  }

  lemma HoldsAfterNext(g: nat, run: Run, i: nat, k: nat, c: string, u: string)
    requires Runs(g, run) && i < k < |run.calls| && HoldsAfter(run, i, k, c, u) && Quiet(run, k, c)
    ensures HoldsAfter(run, i, k + 1, c, u)
  {
    AcceptedStep(run, i, k + 1, c);
    CallKeepsHolding(g, run, k, c, u, run.calls[i].at, run.calls[k - 1].at, Accepted(run, i, k, c),
                     Attempts(run, i, k, c),
                     Accepted(run, i, k + 1, c), Attempts(run, i, k + 1, c));
  }

  lemma HoldsOn(m: Matcher, g: nat, run: Run, i: nat, n: nat, c: string, u: string)
    requires Legal(m, g, run) && ChallengedAt(run, i, c, u) && i < n < |run.calls| && HoldsAfter(run, i, n, c, u)
    ensures HoldsAfter(run, i, n + 1, c, u)
  {
    LegalAfterGrant(m, g, run, i, n, c, u);
    HoldsAfterNext(g, run, i, n, c, u);
  }

  lemma ChallengeHolds(m: Matcher, g: nat, run: Run, i: nat, k: nat, c: string, u: string)
    requires Legal(m, g, run) && ChallengedAt(run, i, c, u) && i < k <= |run.calls|
    ensures HoldsAfter(run, i, k, c, u)
  {
    ghost var p: nat -> bool := n => i < n <= |run.calls| && HoldsAfter(run, i, n, c, u);
    HoldsFromGrant(g, run, i, c, u);
    forall n | i + 1 <= n < k && p(n) ensures p(n + 1)
    {
      HoldsOn(m, g, run, i, n, c, u);
    }
    Climb(p, i + 1, k);
  }

  lemma ChallengeComesGranted(g: nat, w: World, a: Act, now: Time, c: string)
    requires WellTyped(w.store) && Key(Challenge, c) !in w.store && Key(Challenge, c) in Perform(g, w, a, now).0.store
    ensures a.Login? && a.challenge == c && Perform(g, w, a, now).1 == Challenged
  {
  }

  /** A challenge in the store was granted by some call. */
  lemma {:induction false} Origin(g: nat, run: Run, k: nat, c: string) returns (i: nat, u: string)
    requires Runs(g, run) && k <= |run.calls| && Key(Challenge, c) in run.worlds[k].store
    ensures i < k && ChallengedAt(run, i, c, u)
  {
    if k == 0 {
      assert false;
    } else {
      if Key(Challenge, c) in run.worlds[k - 1].store {
        i, u := Origin(g, run, k - 1, c);
      } else {
        assert Happens(g, run, k - 1);
        ChallengeComesGranted(g, run.worlds[k - 1], run.calls[k - 1].act, run.calls[k - 1].at, c);
        i, u := k - 1, run.calls[k - 1].act.user;
      }
    }
  }

  // --- The guard ---

  lemma GuardStep(m: Matcher, g: nat, run: Run, k: nat, u: string)
    requires Legal(m, g, run) && k < |run.calls| && Key(LastCounter, u) in run.worlds[k + 1].store
    ensures var store, store', key := run.worlds[k].store, run.worlds[k + 1].store, Key(LastCounter, u);
            if PassedAt(run, k, u) then store'[key].value == Number(run.replies[k].counter)
            else key in store && store'[key].value == store[key].value
  {
    assert Happens(g, run, k);
    if PassedAt(run, k, u) {
      PassedFacts(m, g, run, k, u);
    } else {
      GuardUntouched(g, run.worlds[k], run.calls[k].act, run.calls[k].at, u);
    }
  }

  /** What the guard key holds is the counter of some accepted code. */
  lemma {:induction false} GuardIsEarned(m: Matcher, g: nat, run: Run, k: nat, u: string) returns (j: nat)
    requires Legal(m, g, run) && k <= |run.calls| && Key(LastCounter, u) in run.worlds[k].store
    ensures j < k && PassedAt(run, j, u)
    ensures run.worlds[k].store[Key(LastCounter, u)].value == Number(run.replies[j].counter)
  {
    if k == 0 {
      assert false;
    } else {
      GuardStep(m, g, run, k - 1, u);
      if PassedAt(run, k - 1, u) { j := k - 1; } else { j := GuardIsEarned(m, g, run, k - 1, u); }
    }
  }

  /** No code with this counter or a later one was accepted for the user before call `k`. */
  ghost predicate Unspent(run: Run, k: nat, u: string, counter: int)
  {
    forall j | 0 <= j < k && PassedAt(run, j, u) :: run.replies[j].counter < counter
  }

  /** The guard key blocks an unspent counter never. */
  lemma GuardLetsUnspentPass(m: Matcher, g: nat, run: Run, k: nat, u: string, counter: int)
    requires Legal(m, g, run) && k <= |run.calls| && Unspent(run, k, u, counter) &&
             Key(LastCounter, u) in run.worlds[k].store
    ensures run.worlds[k].store[Key(LastCounter, u)].value.Number? &&
            run.worlds[k].store[Key(LastCounter, u)].value.n < counter
  {
    var j := GuardIsEarned(m, g, run, k, u);
  }

  // --- Acceptance ---

  /** The challenge was granted to the user at call `i`, is fresh, unspent, and was answered fewer than five times. */
  ghost predicate Open(run: Run, i: nat, k: nat, c: string, u: string)
  {
    && i < k < |run.calls| && ChallengedAt(run, i, c, u) && run.calls[k].at < run.calls[i].at + 300_000
    && Attempts(run, i, k, c) < 5 && !Accepted(run, i, k, c)
  }

  lemma PassExactly(g: nat, w: World, c: string, delta: Option<int>, now: Time, u: string)
    requires WellTyped(w.store)
    ensures (AnswerOn(g, w, c, delta, now).1.Passed? && AnswerOn(g, w, c, delta, now).1.user == u) <==>
            && Live(w.store, Key(Challenge, c), now) && w.store[Key(Challenge, c)].value == Text(u)
            && Count(w.store, Key(ChallengeAttempts, c), now) < CHALLENGE_ANSWERS
            && Protected(w, u) && delta.Some?
            && (Live(w.store, Key(LastCounter, u), now) ==>
                w.store[Key(LastCounter, u)].value.n < Counter(now) + delta.value)
  {
  }

  lemma OpenIsLive(m: Matcher, g: nat, run: Run, i: nat, k: nat, c: string, u: string)
    requires Legal(m, g, run) && ChallengedAt(run, i, c, u) && i < k < |run.calls|
    ensures WellTyped(run.worlds[k].store)
    ensures var store, now := run.worlds[k].store, run.calls[k].at;
            Open(run, i, k, c, u) <==>
            Live(store, Key(Challenge, c), now) && Count(store, Key(ChallengeAttempts, c), now) < CHALLENGE_ANSWERS
    ensures Key(Challenge, c) in run.worlds[k].store ==> run.worlds[k].store[Key(Challenge, c)].value == Text(u)
  {
    ChallengeHolds(m, g, run, i, k, c, u);
    assert InOrder(run, k - 1, k);
    RunWellTyped(g, run, k);
  }

  lemma OpenIffLive(m: Matcher, g: nat, run: Run, k: nat, c: string, u: string)
    requires Legal(m, g, run) && k < |run.calls|
    ensures WellTyped(run.worlds[k].store)
    ensures var store, now := run.worlds[k].store, run.calls[k].at;
            (exists i: nat :: Open(run, i, k, c, u)) <==>
            && Live(store, Key(Challenge, c), now) && store[Key(Challenge, c)].value == Text(u)
            && Count(store, Key(ChallengeAttempts, c), now) < CHALLENGE_ANSWERS
  {
    RunWellTyped(g, run, k);
    if i: nat :| Open(run, i, k, c, u) {
      OpenIsLive(m, g, run, i, k, c, u);
    } else if Live(run.worlds[k].store, Key(Challenge, c), run.calls[k].at) {
      var i, v := Origin(g, run, k, c);
      OpenIsLive(m, g, run, i, k, c, v);
    }
  }

  /**
   A code is accepted for a user if and only if it answers an open challenge of theirs, 2FA is
   on, the library finds its counter, and no code of that counter or a later one was accepted
   before: a guard of three periods or more is as good as one that never forgets.
   */
  lemma AcceptedIff(m: Matcher, g: nat, run: Run, k: nat, u: string)
    requires Legal(m, g, run) && k < |run.calls| && run.calls[k].act.AnswerCode? && g * 1000 >= 3 * PERIOD
    ensures var c, delta := run.calls[k].act.challenge, run.calls[k].act.delta;
            PassedAt(run, k, u) <==>
            && (exists i: nat :: Open(run, i, k, c, u))
            && On(run.worlds[k], u) && delta.Some?
            && Unspent(run, k, u, Counter(run.calls[k].at) + delta.value)
    ensures PassedAt(run, k, u) ==> Some(run.replies[k].counter - Counter(run.calls[k].at)) == run.calls[k].act.delta
  {
    var w, c, delta, now := run.worlds[k], run.calls[k].act.challenge, run.calls[k].act.delta, run.calls[k].at;
    assert Happens(g, run, k);
    PassExactly(g, w, c, delta, now, u);
    OpenIffLive(m, g, run, k, c, u);
    if PassedAt(run, k, u) {
      PassedExceedsAll(m, g, run, k, u);
    } else if delta.Some? && Unspent(run, k, u, Counter(now) + delta.value) && Live(w.store, Key(LastCounter, u), now) {
      GuardLetsUnspentPass(m, g, run, k, u, Counter(now) + delta.value);
    }
  }

  lemma PassedExceedsAll(m: Matcher, g: nat, run: Run, k: nat, u: string)
    requires Legal(m, g, run) && PassedAt(run, k, u) && run.calls[k].act.AnswerCode? && g * 1000 >= 3 * PERIOD
    ensures run.calls[k].act.delta == Some(run.replies[k].counter - Counter(run.calls[k].at))
    ensures Unspent(run, k, u, Counter(run.calls[k].at) + run.calls[k].act.delta.value)
  {
    assert Happens(g, run, k);
    PassFacts(g, run.worlds[k], run.calls[k].act.challenge, run.calls[k].act.delta, run.calls[k].at);
    EarlierAreLess(m, g, run, k, u);
  }

  lemma EarlierAreLess(m: Matcher, g: nat, run: Run, k: nat, u: string)
    requires Legal(m, g, run) && PassedAt(run, k, u) && g * 1000 >= 3 * PERIOD
    ensures Unspent(run, k, u, run.replies[k].counter)
  {
    forall j | 0 <= j < k && PassedAt(run, j, u) ensures run.replies[j].counter < run.replies[k].counter
    {
      CountersIncrease(m, g, run, j, k, u);
    }
  }
}
