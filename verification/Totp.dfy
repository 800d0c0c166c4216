/**
 TOTP two-factor login (RFC 6238, sections 4.2 and 5.2): enrolment, the login challenge and
 the replay guard. Each call is atomic at one instant.

 The code library is a relation: `validate` returns some step in -1..1 whose counter's code
 matches, or nothing when none does. The guard's lifetime is a parameter so that its choice
 can be judged; the service uses `GUARD_SECONDS`.
 */
module Totp {
  import opened Base
  import opened RedisStore
  import opened Keys

  type Secret = string
  type Code = string

  /** Does the code belong to this secret at this counter? */
  type Matcher = (Secret, int, Code) -> bool

  const PERIOD: Time := 30_000
  const GUARD_SECONDS := 90

  function Counter(now: Time): int
  {
    now / PERIOD
  }

  /** What the library may answer, for a window of one. */
  ghost predicate Validates(m: Matcher, x: Secret, code: Code, now: Time, delta: Option<int>)
  {
    match delta
    case Some(d) => -1 <= d <= 1 && m(x, Counter(now) + d, code)
    case None => !m(x, Counter(now) - 1, code) && !m(x, Counter(now), code) && !m(x, Counter(now) + 1, code)
  }

  datatype Account = Account(secret: Option<Secret>, enabledAt: Option<Time>, deleted: bool)

  datatype World = World(store: Store<Key>, accounts: map<string, Account>)

  datatype Act =
    | Create(user: string)
    | Remove(user: string)
    | Setup(user: string, fresh_secret: Secret)
    | Enable(user: string, code: Code, delta: Option<int>)
    | Disable(user: string, code: Code, delta: Option<int>)
    | Login(user: string, challenge: string)        // password already verified; the fresh token's digest
    | AnswerCode(challenge: string, code: Code, delta: Option<int>)

  datatype Reply =
    | Done
    | Refused
    | Rooted(user: string)                          // tokens issued, a new family
    | Challenged
    | NoChallenge
    | TooMany
    | WrongCode
    | Replayed
    | Passed(user: string, counter: int)            // tokens issued, a new family

  predicate Active(w: World, u: string)
  {
    u in w.accounts && !w.accounts[u].deleted
  }

  predicate Enabled(w: World, u: string)
  {
    u in w.accounts && w.accounts[u].enabledAt.Some?
  }

  predicate Protected(w: World, u: string)
  {
    Active(w, u) && w.accounts[u].enabledAt.Some? && w.accounts[u].secret.Some?
  }

  function With(w: World, u: string, a: Account): World
  {
    w.(accounts := w.accounts[u := a])
  }

  function SetupOn(w: World, u: string, x: Secret): (World, Reply)
  {
    if !Active(w, u) || Enabled(w, u) then (w, Refused)
    else (With(w, u, w.accounts[u].(secret := Some(x))), Done)
  }

  function EnableOn(w: World, u: string, delta: Option<int>, now: Time): (World, Reply)
  {
    if !Active(w, u) || Enabled(w, u) || w.accounts[u].secret.None? then (w, Refused)
    else if delta.None? then (w, WrongCode)
    else (With(w, u, w.accounts[u].(enabledAt := Some(now))), Done)
  }

  function DisableOn(w: World, u: string, delta: Option<int>): (World, Reply)
  {
    if !Protected(w, u) then (w, Refused)
    else if delta.None? then (w, WrongCode)
    else (With(w, u, w.accounts[u].(secret := None, enabledAt := None)), Done)
  }

  /** After the password: an account with 2FA on gets a challenge, any other gets tokens. */
  function LoginOn(w: World, u: string, c: string, now: Time): (World, Reply)
  {
    if !Active(w, u) then (w, Refused)
    else if !Enabled(w, u) then (w, Rooted(u))
    else (w.(store := Grant(w.store, u, c, now)), Challenged)
  }

  function Grant(store: Store<Key>, u: string, c: string, now: Time): Store<Key>
  {
    SetEx(SetEx(store, Key(Challenge, c), Text(u), now, CHALLENGE_SECONDS), Key(ChallengeAttempts, c), Number(0), now,
          CHALLENGE_SECONDS)
  }

  /** Counters hold numbers, challenges hold user ids. */
  predicate WellTyped(store: Store<Key>)
  {
    forall k | k in store ::
      && (k.kind.ChallengeAttempts? || k.kind.LastCounter? ==> store[k].value.Number?)
      && (k.kind.Challenge? ==> store[k].value.Text?)
  }

  function AnswerOn(guardSeconds: nat, w: World, c: string, delta: Option<int>, now: Time): (World, Reply)
    requires WellTyped(w.store)
  {
    match Get(w.store, Key(Challenge, c), now)
    case None => (w, NoChallenge)
    case Some(id) =>
      var u := id.s;
      var s1 := Incr(w.store, Key(ChallengeAttempts, c), now);
      if Count(w.store, Key(ChallengeAttempts, c), now) + 1 > CHALLENGE_ANSWERS
         then (w.(store := s1 - {Key(Challenge, c)}), TooMany)
      else if !Protected(w, u) then (w.(store := s1), NoChallenge)
      else if delta.None? then (w.(store := s1), WrongCode)
      else
        var counter := Counter(now) + delta.value;
        var last := Get(s1, Key(LastCounter, u), now);
        if last.Some? && last.value.n >= counter then (w.(store := s1), Replayed)
        else
          var s2 := SetEx(s1, Key(LastCounter, u), Number(counter), now, guardSeconds);
          (w.(store := s2 - {Key(Challenge, c)} - {Key(ChallengeAttempts, c)}), Passed(u, counter))
  }

  function Perform(g: nat, w: World, a: Act, now: Time): (r: (World, Reply))
    requires WellTyped(w.store)
    ensures WellTyped(r.0.store)
  {
    match a
    case Create(u) => if u in w.accounts then (w, Refused) else (With(w, u, Account(None, None, false)), Done)
    case Remove(u) => if !Active(w, u) then (w, Refused) else (With(w, u, w.accounts[u].(deleted := true)), Done)
    case Setup(u, x) => SetupOn(w, u, x)
    case Enable(u, _, d) => EnableOn(w, u, d, now)
    case Disable(u, _, d) => DisableOn(w, u, d)
    case Login(u, c) => LoginOn(w, u, c, now)
    case AnswerCode(c, _, d) => AnswerOn(g, w, c, d, now)
  }

  // --- Runs ---

  datatype Call = Call(act: Act, at: Time)

  /** The calls, the worlds before and after them, and what each was answered. */
  datatype History = History(calls: seq<Call>, worlds: seq<World>, replies: seq<Reply>)

  type Run = h: History | |h.worlds| == |h.calls| + 1 && |h.replies| == |h.calls|
    witness History([], [World(map[], map[])], [])

  /** Call `k` is answered, and leaves the world, as the service does. */
  ghost predicate Happens(g: nat, run: Run, k: nat)
    requires k < |run.calls|
  {
    && WellTyped(run.worlds[k].store)
    && (run.worlds[k + 1], run.replies[k]) == Perform(g, run.worlds[k], run.calls[k].act, run.calls[k].at)
  }

  /** A run from an empty world. */
  ghost predicate Runs(g: nat, run: Run)
  {
    && run.worlds[0] == World(map[], map[])
    && forall k {:trigger Happens(g, run, k)} | 0 <= k < |run.calls| :: Happens(g, run, k)
  }

  lemma RunWellTyped(g: nat, run: Run, k: nat)
    requires Runs(g, run) && k <= |run.calls|
    ensures WellTyped(run.worlds[k].store)
  {
    if k > 0 { assert Happens(g, run, k - 1); }
  }

  function LastWorld(run: Run): World
  {
    run.worlds[|run.calls|]
  }

  function Longer(g: nat, run: Run, c: Call): Run
    requires WellTyped(LastWorld(run).store)
  {
    var (w, r) := Perform(g, LastWorld(run), c.act, c.at);
    History(run.calls + [c], run.worlds + [w], run.replies + [r])
  }

  lemma LongerRuns(g: nat, run: Run, c: Call)
    requires Runs(g, run) && WellTyped(LastWorld(run).store)
    ensures Runs(g, Longer(g, run, c))
  {
    var longer := Longer(g, run, c);
    forall k | 0 <= k < |longer.calls| ensures Happens(g, longer, k)
    {
      if k < |run.calls| { assert Happens(g, run, k); }
    }
  }

  /** Every log of calls has its run. */
  lemma {:induction false} EveryLogRuns(g: nat, calls: seq<Call>) returns (run: Run)
    ensures Runs(g, run) && run.calls == calls
  {
    run := History([], [World(map[], map[])], []);
    if calls != [] {
      run := EveryLogRuns(g, calls[..|calls| - 1]);
      RunWellTyped(g, run, |run.calls|);
      LongerRuns(g, run, calls[|calls| - 1]);
      run := Longer(g, run, calls[|calls| - 1]);
    }
  }

  /** The code a call submits, with the step the library answered. */
  function Submitted(a: Act): Option<(Code, Option<int>)>
  {
    match a
    case Enable(_, code, d) => Some((code, d))
    case Disable(_, code, d) => Some((code, d))
    case AnswerCode(_, code, d) => Some((code, d))
    case _ => None
  }

  /** Whose secret the call would check the code against. */
  function Judged(w: World, a: Act, now: Time): Option<string>
    requires WellTyped(w.store)
  {
    match a
    case Enable(u, _, _) => Some(u)
    case Disable(u, _, _) => Some(u)
    case AnswerCode(c, _, _) =>
      if Live(w.store, Key(Challenge, c), now) then Some(w.store[Key(Challenge, c)].value.s) else None
    case _ => None
  }

  ghost predicate LibraryOk(m: Matcher, w: World, c: Call)
    requires WellTyped(w.store)
  {
    Submitted(c.act).Some? ==>
      var (code, delta) := Submitted(c.act).value;
      && (delta.Some? ==> -1 <= delta.value <= 1)
      && match Judged(w, c.act, c.at)
         case Some(u) => u in w.accounts && w.accounts[u].secret.Some? ==>
           Validates(m, w.accounts[u].secret.value, code, c.at, delta)
         case None => true
  }

  ghost predicate LibraryAt(m: Matcher, run: Run, k: nat)
    requires k < |run.calls|
  {
    WellTyped(run.worlds[k].store) && LibraryOk(m, run.worlds[k], run.calls[k])
  }

  predicate InOrder(run: Run, i: nat, j: nat)
    requires i < |run.calls| && j < |run.calls|
  {
    run.calls[i].at <= run.calls[j].at
  }

  predicate FreshGrant(run: Run, i: nat, j: nat)
    requires i < |run.calls| && j < |run.calls|
  {
    run.calls[i].act.Login? && run.calls[j].act.Login? ==> run.calls[i].act.challenge != run.calls[j].act.challenge
  }

  /** Times never fall, the library keeps its word, and challenge tokens are fresh. */
  ghost predicate Legal(m: Matcher, g: nat, run: Run)
  {
    && Runs(g, run)
    && (forall i, j {:trigger InOrder(run, i, j)} | 0 <= i < j < |run.calls| :: InOrder(run, i, j))
    && (forall k {:trigger LibraryAt(m, run, k)} | 0 <= k < |run.calls| :: LibraryAt(m, run, k))
    && (forall i, j {:trigger FreshGrant(run, i, j)} | 0 <= i < j < |run.calls| :: FreshGrant(run, i, j))
  }

  predicate PassedAt(run: Run, k: nat, u: string)
  {
    k < |run.calls| && run.replies[k].Passed? && run.replies[k].user == u
  }

  lemma PassFacts(g: nat, w: World, c: string, delta: Option<int>, now: Time)
    requires WellTyped(w.store) && AnswerOn(g, w, c, delta, now).1.Passed?
    ensures var (w', reply) := AnswerOn(g, w, c, delta, now);
            var u := reply.user;
            && delta.Some? && reply.counter == Counter(now) + delta.value && Protected(w, u)
            && Live(w.store, Key(Challenge, c), now) && w.store[Key(Challenge, c)].value == Text(u)
            && (Live(w.store, Key(LastCounter, u), now) ==> w.store[Key(LastCounter, u)].value.n < reply.counter)
            && Key(LastCounter, u) in w'.store &&
               w'.store[Key(LastCounter, u)] == Entry(Number(reply.counter), Some(now + g * 1000))
            && Key(Challenge, c) !in w'.store
  {
  }

  lemma OnlyAnswersPass(g: nat, w: World, a: Act, now: Time)
    requires WellTyped(w.store) && Perform(g, w, a, now).1.Passed?
    ensures a.AnswerCode?
  {
  }

  /** All that an accepted code tells about the call that carried it. */
  ghost predicate Evidence(m: Matcher, g: nat, w: World, call: Call, w': World, u: string, c: int)
  {
    && call.act.AnswerCode?
    && Counter(call.at) - 1 <= c <= Counter(call.at) + 1
    && Protected(w, u) && m(w.accounts[u].secret.value, c, call.act.code)
    && Live(w.store, Key(Challenge, call.act.challenge), call.at)
    && w.store[Key(Challenge, call.act.challenge)].value == Text(u)
    && (Live(w.store, Key(LastCounter, u), call.at) ==>
        w.store[Key(LastCounter, u)].value.Number? && w.store[Key(LastCounter, u)].value.n < c)
    && Key(LastCounter, u) in w'.store && w'.store[Key(LastCounter, u)] == Entry(Number(c), Some(call.at + g * 1000))
    && Key(Challenge, call.act.challenge) !in w'.store
  }

  lemma PassIsEvidence(m: Matcher, g: nat, w: World, call: Call)
    requires WellTyped(w.store) && LibraryOk(m, w, call) && Perform(g, w, call.act, call.at).1.Passed?
    ensures var (w', reply) := Perform(g, w, call.act, call.at); Evidence(m, g, w, call, w', reply.user, reply.counter)
  {
    OnlyAnswersPass(g, w, call.act, call.at);
    PassFacts(g, w, call.act.challenge, call.act.delta, call.at);
  }

  lemma PassedFacts(m: Matcher, g: nat, run: Run, k: nat, u: string)
    requires Legal(m, g, run) && PassedAt(run, k, u)
    ensures Evidence(m, g, run.worlds[k], run.calls[k], run.worlds[k + 1], u, run.replies[k].counter)
  {
    assert Happens(g, run, k) && LibraryAt(m, run, k);
    PassIsEvidence(m, g, run.worlds[k], run.calls[k]);
  }

  // --- The replay guard ---

  /** What the guard key of a user still tells of its last accepted counter. */
  predicate Remembers(g: nat, store: Store<Key>, u: string, counter: int)
  {
    && Key(LastCounter, u) in store
    && store[Key(LastCounter, u)].value.Number? && store[Key(LastCounter, u)].expiry.Some?
    && counter <= store[Key(LastCounter, u)].value.n
    && store[Key(LastCounter, u)].expiry.value >= g * 1000
    && store[Key(LastCounter, u)].value.n <= Counter(store[Key(LastCounter, u)].expiry.value - g * 1000) + 1
  }

  /** A guard of three periods or more outlives every window in which the counter could be accepted again. */
  lemma GuardOutlives(g: nat, e: Time, now: Time)
    requires g * 1000 >= 3 * PERIOD && e >= g * 1000 && e <= now
    ensures Counter(e - g * 1000) + 1 < Counter(now) - 1
  {
    assert (now - 3 * PERIOD) / PERIOD == now / PERIOD - 3;
    assert e - g * 1000 <= now - 3 * PERIOD;
  }

  lemma PassExceeds(m: Matcher, g: nat, run: Run, k: nat, u: string, counter: int)
    requires Legal(m, g, run) && PassedAt(run, k, u) && g * 1000 >= 3 * PERIOD
    requires Remembers(g, run.worlds[k].store, u, counter)
    ensures counter < run.replies[k].counter
  {
    PassedFacts(m, g, run, k, u);
    var e := run.worlds[k].store[Key(LastCounter, u)];
    if e.expiry.value <= run.calls[k].at { GuardOutlives(g, e.expiry.value, run.calls[k].at); }
  }

  lemma GuardUntouched(g: nat, w: World, a: Act, now: Time, u: string)
    requires WellTyped(w.store)
    requires var r := Perform(g, w, a, now).1; !(r.Passed? && r.user == u)
    ensures var w' := Perform(g, w, a, now).0;
            && (Key(LastCounter, u) in w'.store <==> Key(LastCounter, u) in w.store)
            && (Key(LastCounter, u) in w.store ==> w'.store[Key(LastCounter, u)] == w.store[Key(LastCounter, u)])
  {
  }

  lemma GuardNext(m: Matcher, g: nat, run: Run, k: nat, u: string, counter: int)
    requires Legal(m, g, run) && k < |run.calls| && g * 1000 >= 3 * PERIOD
    requires Remembers(g, run.worlds[k].store, u, counter)
    ensures Remembers(g, run.worlds[k + 1].store, u, counter)
  {
    assert Happens(g, run, k);
    if PassedAt(run, k, u) {
      PassExceeds(m, g, run, k, u, counter);
      PassedFacts(m, g, run, k, u);
    } else {
      GuardUntouched(g, run.worlds[k], run.calls[k].act, run.calls[k].at, u);
    }
  }

  lemma {:induction false} GuardRemembers(m: Matcher, g: nat, run: Run, i: nat, k: nat, u: string)
    requires Legal(m, g, run) && PassedAt(run, i, u) && i < k <= |run.calls| && g * 1000 >= 3 * PERIOD
    ensures Remembers(g, run.worlds[k].store, u, run.replies[i].counter)
    decreases k
  {
    if i == k - 1 {
      PassedFacts(m, g, run, i, u);
    } else {
      GuardRemembers(m, g, run, i, k - 1, u);
      GuardNext(m, g, run, k - 1, u, run.replies[i].counter);
    }
  }

  /** Accepted login counters of a user strictly increase over every run. */
  lemma CountersIncrease(m: Matcher, g: nat, run: Run, i: nat, j: nat, u: string)
    requires Legal(m, g, run) && g * 1000 >= 3 * PERIOD
    requires i < j && PassedAt(run, i, u) && PassedAt(run, j, u)
    ensures run.replies[i].counter < run.replies[j].counter
  {
    GuardRemembers(m, g, run, i, j, u);
    PassExceeds(m, g, run, j, u, run.replies[i].counter);
  }

  /** No counter, hence no code, authenticates a user twice in any run with this guard. */
  ghost predicate SingleUse(g: nat)
  {
    forall m: Matcher, run: Run, i: nat, j: nat, u: string |
      Legal(m, g, run) && i < j && PassedAt(run, i, u) && PassedAt(run, j, u) ::
      run.replies[i].counter < run.replies[j].counter
  }

  const ALICE := "alice"
  const CODE := "123456"

  const ENROLLED: map<string, Account> := map[ALICE := Account(Some("k"), Some(0), false)]

  /** The store while a challenge granted at `t` awaits its code. */
  function Awaiting(store: Store<Key>, c: string, t: Time): Store<Key>
  {
    store[Key(Challenge, c) := Entry(Text(ALICE), Some(t + 300_000))]
         [Key(ChallengeAttempts, c) := Entry(Number(0), Some(t + 300_000))]
  }

  lemma LongerIsLegal(m: Matcher, g: nat, run: Run, c: Call)
    requires Legal(m, g, run) && WellTyped(LastWorld(run).store) && LibraryOk(m, LastWorld(run), c)
    requires forall i | 0 <= i < |run.calls| :: run.calls[i].at <= c.at
    requires forall i | 0 <= i < |run.calls| && run.calls[i].act.Login? && c.act.Login? ::
               run.calls[i].act.challenge != c.act.challenge
    ensures Legal(m, g, Longer(g, run, c))
  {
    var longer := Longer(g, run, c);
    LongerRuns(g, run, c);
    forall i, j | 0 <= i < j < |longer.calls| ensures InOrder(longer, i, j) && FreshGrant(longer, i, j)
    {
      if j < |run.calls| { assert InOrder(run, i, j) && FreshGrant(run, i, j); }
    }
    forall k | 0 <= k < |longer.calls| ensures LibraryAt(m, longer, k)
    {
      if k < |run.calls| { assert LibraryAt(m, run, k); }
    }
  }

  /** At time 0 Alice registers, sets up 2FA and proves it. */
  lemma AliceEnrols(m: Matcher, g: nat) returns (run: Run)
    requires m == ((x: Secret, n: int, code: Code) => n == 1)
    ensures Legal(m, g, run) && |run.calls| == 3 && LastWorld(run) == World(map[], ENROLLED)
    ensures forall i | 0 <= i < |run.calls| :: run.calls[i].at == 0 && !run.calls[i].act.Login?
  {
    run := History([], [World(map[], map[])], []);
    var create, setup := Call(Create(ALICE), 0), Call(Setup(ALICE, "k"), 0);
    var enable := Call(Enable(ALICE, CODE, Some(1)), 0);
    LongerIsLegal(m, g, run, create);
    run := Longer(g, run, create);
    LongerIsLegal(m, g, run, setup);
    run := Longer(g, run, setup);
    assert Counter(0) == 0;
    LongerIsLegal(m, g, run, enable);
    run := Longer(g, run, enable);
  }

  /** The challenge granted at `t` is answered with the code of counter 1. */
  lemma AliceLogsIn(g: nat, store: Store<Key>, c: string, t: Time, delta: int)
    requires WellTyped(store) && !Live(store, Key(LastCounter, ALICE), t) && Counter(t) + delta == 1
    requires Key(Challenge, c) !in store && Key(ChallengeAttempts, c) !in store
    ensures Perform(g, World(store, ENROLLED), Login(ALICE, c), t) ==
            (World(Awaiting(store, c, t), ENROLLED), Challenged)
    ensures Perform(g, World(Awaiting(store, c, t), ENROLLED), AnswerCode(c, CODE, Some(delta)), t)
         == (World(store[Key(LastCounter, ALICE) := Entry(Number(1), Some(t + g * 1000))], ENROLLED), Passed(ALICE, 1))
  {
    var w := World(Awaiting(store, c, t), ENROLLED);
    assert Get(w.store, Key(Challenge, c), t) == Some(Text(ALICE));
    assert Count(w.store, Key(ChallengeAttempts, c), t) == 0;
    var s1 := Incr(w.store, Key(ChallengeAttempts, c), t);
    assert Get(s1, Key(LastCounter, ALICE), t) == None;
    var s2 := SetEx(s1, Key(LastCounter, ALICE), Number(1), t, g);
    assert s2 - {Key(Challenge, c)} - {Key(ChallengeAttempts, c)} ==
           store[Key(LastCounter, ALICE) := Entry(Number(1), Some(t + g * 1000))];
  }

  /** What an accepted code leaves in the store. */
  function Guarded(g: nat, store: Store<Key>, t: Time): Store<Key>
  {
    store[Key(LastCounter, ALICE) := Entry(Number(1), Some(t + g * 1000))]
  }

  /** Two more calls let Alice in with the code of counter 1. */
  lemma AliceGetsIn(m: Matcher, g: nat, run: Run, store: Store<Key>, c: string, t: Time, delta: int)
    returns (longer: Run)
    requires m == ((x: Secret, n: int, code: Code) => n == 1)
    requires Legal(m, g, run) && LastWorld(run) == World(store, ENROLLED)
    requires forall i | 0 <= i < |run.calls| ::
               run.calls[i].at <= t && (run.calls[i].act.Login? ==> run.calls[i].act.challenge != c)
    requires WellTyped(store) && !Live(store, Key(LastCounter, ALICE), t) && Counter(t) + delta == 1 && -1 <= delta <= 1
    requires Key(Challenge, c) !in store && Key(ChallengeAttempts, c) !in store
    ensures Legal(m, g, longer) && LastWorld(longer) == World(Guarded(g, store, t), ENROLLED)
    ensures |longer.calls| == |run.calls| + 2 && run.calls <= longer.calls && run.replies <= longer.replies
    ensures longer.replies[|run.calls| + 1] == Passed(ALICE, 1)
    ensures longer.calls[|run.calls|] == Call(Login(ALICE, c), t)
    ensures longer.calls[|run.calls| + 1] == Call(AnswerCode(c, CODE, Some(delta)), t)
  {
    var ask, answer := Call(Login(ALICE, c), t), Call(AnswerCode(c, CODE, Some(delta)), t);
    AliceLogsIn(g, store, c, t, delta);
    LongerIsLegal(m, g, run, ask);
    var asked := Longer(g, run, ask);
    assert LastWorld(asked) == World(Awaiting(store, c, t), ENROLLED);
    LongerIsLegal(m, g, asked, answer);
    longer := Longer(g, asked, answer);
  }

  lemma TwiceIsNotSingle(m: Matcher, g: nat, run: Run, i: nat, j: nat, u: string)
    requires Legal(m, g, run) && i < j && PassedAt(run, i, u) && PassedAt(run, j, u)
    requires run.replies[j].counter <= run.replies[i].counter
    ensures !SingleUse(g)
  {
  }

  /**
   A shorter guard lets the same code in twice: the code of counter 1 is accepted early in
   period 0 and again at the end of period 2.
   */
  lemma ShorterGuardFails(g: nat)
    requires g * 1000 < 3 * PERIOD
    ensures !SingleUse(g)
  {
    var m: Matcher := (x: Secret, n: int, code: Code) => n == 1;
    var t := 3 * PERIOD - 1;
    assert Counter(0) == 0 && Counter(t) == 2;
    var enrolled := AliceEnrols(m, g);
    var once := AliceGetsIn(m, g, enrolled, map[], "c1", 0, 1);
    var twice := AliceGetsIn(m, g, once, Guarded(g, map[], 0), "c2", t, -1);
    TwiceIsNotSingle(m, g, twice, 4, 6, ALICE);
  }

  /** Codes are single-use for ever if and only if the guard lives three periods or longer. */
  lemma ThreePeriodsExactly(g: nat)
    ensures SingleUse(g) <==> g >= 90
  {
    if g * 1000 >= 3 * PERIOD {
      forall m: Matcher, run: Run, i: nat, j: nat, u: string |
        Legal(m, g, run) && i < j && PassedAt(run, i, u) && PassedAt(run, j, u)
        ensures run.replies[i].counter < run.replies[j].counter
      {
        CountersIncrease(m, g, run, i, j, u);
      }
    } else {
      ShorterGuardFails(g);
    }
  }
}
