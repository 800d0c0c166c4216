/**
 Attempt-limited one-time codes over three expiring keys: the code, the attempts counter and
 the resend cooldown. E-mail verification and password reset are two instances.

 The keys are refined to a simple ticket, the ticket to what the log of calls says, and the
 log bounds how often codes can be guessed. Each call is atomic at one instant; any time may
 pass between calls, and calls for other users and services may fall in between.
 */
module Tickets {
  import opened Base
  import opened RedisStore
  import opened Keys

  datatype Service = Verification | PasswordReset

  const COOLDOWN_SECONDS := 60
  const MAX_ATTEMPTS := 5
  const COOLDOWN: Time := 60_000

  function TtlSeconds(svc: Service): nat
  {
    match svc
    case Verification => 10 * 60
    case PasswordReset => 15 * 60
  }

  function Ttl(svc: Service): Time
  {
    TtlSeconds(svc) * 1000
  }

  function CodeKey(svc: Service, u: string): Key
  {
    Key(if svc.Verification? then OtpCode else ResetCode, u)
  }

  function AttemptsKey(svc: Service, u: string): Key
  {
    Key(if svc.Verification? then OtpAttempts else ResetAttempts, u)
  }

  function CooldownKey(svc: Service, u: string): Key
  {
    Key(if svc.Verification? then OtpCooldown else ResetCooldown, u)
  }

  // --- The calls on the keys ---

  /** Codes stand for their digests. */
  function IssueOn(svc: Service, store: Store<Key>, now: Time, u: string, code: string): (Store<Key>, bool)
  {
    if Live(store, CooldownKey(svc, u), now) then (store, false)
    else
      var s1 := SetEx(store, CodeKey(svc, u), Text(code), now, TtlSeconds(svc));
      var s2 := SetEx(s1, AttemptsKey(svc, u), Number(0), now, TtlSeconds(svc));
      (SetEx(s2, CooldownKey(svc, u), Number(1), now, COOLDOWN_SECONDS), true)
  }

  datatype Verdict = Absent | TooMany | Wrong | Right

  predicate CanVerify(svc: Service, store: Store<Key>, now: Time, u: string)
  {
    Live(store, CodeKey(svc, u), now) ==> Countable(store, AttemptsKey(svc, u), now)
  }

  function VerifyOn(svc: Service, store: Store<Key>, now: Time, u: string, code: string): (Store<Key>, Verdict)
    requires CanVerify(svc, store, now, u)
  {
    match Get(store, CodeKey(svc, u), now)
    case None => (store, Absent)
    case Some(stored) =>
      var s1 := Incr(store, AttemptsKey(svc, u), now);
      if Count(store, AttemptsKey(svc, u), now) + 1 > MAX_ATTEMPTS then (s1 - {CodeKey(svc, u)}, TooMany)
      else if Text(code) != stored then (s1, Wrong)
      else (s1 - {CodeKey(svc, u)} - {AttemptsKey(svc, u)}, Right)
  }

  // --- The ticket the keys stand for ---

  datatype Ticket = Ticket(code: string, issued: Time, tries: nat)

  datatype Desk = Desk(ticket: Option<Ticket>, lastIssue: Option<Time>)

  function Issue(d: Desk, now: Time, code: string): (Desk, bool)
  {
    if d.lastIssue.Some? && now < d.lastIssue.value + COOLDOWN then (d, false)
    else (Desk(Some(Ticket(code, now, 0)), Some(now)), true)
  }

  function Verify(d: Desk, ttl: Time, now: Time, code: string): (Desk, Verdict)
  {
    if d.ticket.None? || d.ticket.value.issued + ttl <= now then (d, Absent)
    else
      var t := d.ticket.value;
      if t.tries == MAX_ATTEMPTS then (d.(ticket := None), TooMany)
      else if code != t.code then (d.(ticket := Some(t.(tries := t.tries + 1))), Wrong)
      else (d.(ticket := None), Right)
  }

  /**
   The keys of one user stand for the desk. In particular a live code has a live counter
   expiring with it, and no counter is ever without an expiry.
   */
  ghost predicate StandFor(svc: Service, store: Store<Key>, now: Time, u: string, d: Desk)
  {
    var code, attempts, cooldown := CodeKey(svc, u), AttemptsKey(svc, u), CooldownKey(svc, u);
    && (Live(store, cooldown, now) <==> d.lastIssue.Some? && now < d.lastIssue.value + COOLDOWN)
    && (Live(store, cooldown, now) ==> store[cooldown].expiry == Some(d.lastIssue.value + COOLDOWN))
    && (Live(store, code, now) <==> d.ticket.Some? && now < d.ticket.value.issued + Ttl(svc))
    && (Live(store, code, now) ==>
          && store[code] == Entry(Text(d.ticket.value.code), Some(d.ticket.value.issued + Ttl(svc)))
          && Live(store, attempts, now)
          && store[attempts] == Entry(Number(d.ticket.value.tries), Some(d.ticket.value.issued + Ttl(svc))))
    && (attempts in store ==> store[attempts].expiry.Some?)
    && (d.ticket.Some? ==> d.ticket.value.tries <= MAX_ATTEMPTS)
  }

  /** Time, and the eviction of dead keys, leave the correspondence alone. */
  lemma TimeKeepsStanding(svc: Service, store: Store<Key>, store': Store<Key>, now: Time, now': Time, u: string,
                          d: Desk)
    requires StandFor(svc, store, now, u, d) && now <= now'
    requires forall k | k in store' :: k in store && store'[k] == store[k]
    requires forall k | k in store && k !in store' :: !Live(store, k, now')
    ensures StandFor(svc, store', now', u, d)
  {
  }

  lemma IssueCorresponds(svc: Service, store: Store<Key>, now: Time, u: string, d: Desk, code: string)
    requires StandFor(svc, store, now, u, d)
    ensures var (store', sent) := IssueOn(svc, store, now, u, code);
            var (d', sent') := Issue(d, now, code);
            sent == sent' && StandFor(svc, store', now, u, d')
  {
  }

  lemma VerifyCorresponds(svc: Service, store: Store<Key>, now: Time, u: string, d: Desk, code: string)
    requires StandFor(svc, store, now, u, d)
    ensures CanVerify(svc, store, now, u)
    ensures var (store', v) := VerifyOn(svc, store, now, u, code);
            var (d', v') := Verify(d, Ttl(svc), now, code);
            v == v' && StandFor(svc, store', now, u, d')
  {
  }

  lemma OthersKeepStanding(svc: Service, u: string, store: Store<Key>, store': Store<Key>, svc0: Service, u0: string,
                           now: Time, d: Desk)
    requires StandFor(svc, store, now, u, d) && (svc != svc0 || u != u0)
    requires forall k | k != CodeKey(svc0, u0) && k != AttemptsKey(svc0, u0) && k != CooldownKey(svc0, u0) ::
               (k in store' <==> k in store) && (k in store ==> store'[k] == store[k])
    ensures StandFor(svc, store', now, u, d)
  {
  }

  // --- Logs of calls ---

  datatype Call =
    | AskCode(svc: Service, user: string, code: string, at: Time)
    | TryCode(svc: Service, user: string, code: string, at: Time)

  predicate Ordered(log: seq<Call>)
  {
    forall i, j | 0 <= i < j < |log| :: log[i].at <= log[j].at
  }

  predicate Mine(c: Call, svc: Service, u: string)
  {
    c.svc == svc && c.user == u
  }

  predicate WellTyped(store: Store<Key>)
  {
    forall k | k in store && (k.kind.OtpAttempts? || k.kind.ResetAttempts?) :: store[k].value.Number?
  }

  /** The store after running the whole log from an empty one. */
  function StoreAfter(log: seq<Call>): (store: Store<Key>)
    ensures WellTyped(store)
  {
    if log == [] then map[]
    else
      var store, c := StoreAfter(log[..|log| - 1]), log[|log| - 1];
      match c
      case AskCode(svc, u, code, at) => IssueOn(svc, store, at, u, code).0
      case TryCode(svc, u, code, at) => VerifyOn(svc, store, at, u, code).0
  }

  /** What call `k` was answered: was a code sent, or the verdict. */
  function Sent(log: seq<Call>, k: nat): bool
    requires k < |log| && log[k].AskCode?
  {
    IssueOn(log[k].svc, StoreAfter(log[..k]), log[k].at, log[k].user, log[k].code).1
  }

  function Answer(log: seq<Call>, k: nat): Verdict
    requires k < |log| && log[k].TryCode?
  {
    VerifyOn(log[k].svc, StoreAfter(log[..k]), log[k].at, log[k].user, log[k].code).1
  }

  /** The ticket desk of one user of one service after the whole log. */
  function DeskAfter(log: seq<Call>, svc: Service, u: string): Desk
  {
    if log == [] then Desk(None, None)
    else
      var d, c := DeskAfter(log[..|log| - 1], svc, u), log[|log| - 1];
      if !Mine(c, svc, u) then d
      else if c.AskCode? then Issue(d, c.at, c.code).0
      else Verify(d, Ttl(svc), c.at, c.code).0
  }

  lemma OrderedPrefix(log: seq<Call>, k: nat)
    requires Ordered(log) && k <= |log|
    ensures Ordered(log[..k])
  {
  }

  lemma {:induction false} StoreStandsForDesk(log: seq<Call>, svc: Service, u: string, now: Time)
    requires Ordered(log) && (log != [] ==> log[|log| - 1].at <= now)
    ensures StandFor(svc, StoreAfter(log), now, u, DeskAfter(log, svc, u))
  {
    if log != [] {
      var before, c := log[..|log| - 1], log[|log| - 1];
      StoreStandsForDesk(before, svc, u, c.at);
      var store, store', d := StoreAfter(before), StoreAfter(log), DeskAfter(before, svc, u);
      if Mine(c, svc, u) {
        if c.AskCode? {
          IssueCorresponds(svc, store, c.at, u, d, c.code);
        } else {
          VerifyCorresponds(svc, store, c.at, u, d, c.code);
        }
      } else {
        OthersKeepStanding(svc, u, store, store', c.svc, c.user, c.at, d);
      }
      TimeKeepsStanding(svc, store', store', c.at, now, u, DeskAfter(log, svc, u));
    }
  }

  /** Refinement: every call gets from the three keys the answer the ticket desk gives. */
  lemma KeysAnswerLikeTickets(log: seq<Call>, k: nat)
    requires Ordered(log) && k < |log|
    ensures var d, c := DeskAfter(log[..k], log[k].svc, log[k].user), log[k];
            && (c.AskCode? ==> Sent(log, k) == Issue(d, c.at, c.code).1)
            && (c.TryCode? ==> Answer(log, k) == Verify(d, Ttl(c.svc), c.at, c.code).1)
  {
    var c := log[k];
    OrderedPrefix(log, k);
    StoreStandsForDesk(log[..k], c.svc, c.user, c.at);
    var store, d := StoreAfter(log[..k]), DeskAfter(log[..k], c.svc, c.user);
    if c.AskCode? {
      IssueCorresponds(c.svc, store, c.at, c.user, d, c.code);
    } else {
      VerifyCorresponds(c.svc, store, c.at, c.user, d, c.code);
    }
  }

  // --- What the log itself says ---

  predicate SentTo(log: seq<Call>, i: nat, svc: Service, u: string)
  {
    i < |log| && log[i].AskCode? && Mine(log[i], svc, u) && Sent(log, i)
  }

  predicate TriedBy(log: seq<Call>, i: nat, svc: Service, u: string)
  {
    i < |log| && log[i].TryCode? && Mine(log[i], svc, u)
  }

  /** `i` is the last code sent before call `k`. */
  ghost predicate LatestSent(log: seq<Call>, i: nat, k: nat, svc: Service, u: string)
  {
    i < k <= |log| && SentTo(log, i, svc, u) && forall j | i < j < k :: !SentTo(log, j, svc, u)
  }

  /** How many tries fall strictly between `i` and `k`. */
  function Tries(log: seq<Call>, i: nat, k: nat, svc: Service, u: string): nat
    requires k <= |log|
  {
    if k <= i + 1 then 0
    else Tries(log, i, k - 1, svc, u) + (if TriedBy(log, k - 1, svc, u) then 1 else 0)
  }

  /** Some try strictly between `i` and `k` carried the code sent at `i`. */
  ghost predicate Hit(log: seq<Call>, i: nat, k: nat, svc: Service, u: string)
    requires i < |log|
  {
    exists j :: i < j < k && TriedBy(log, j, svc, u) && log[j].code == log[i].code
  }

  lemma DeskStep(log: seq<Call>, k: nat, svc: Service, u: string)
    requires k < |log|
    ensures var d, d', c := DeskAfter(log[..k], svc, u), DeskAfter(log[..k + 1], svc, u), log[k];
            && (!Mine(c, svc, u) ==> d' == d)
            && (Mine(c, svc, u) && c.AskCode? ==> d' == Issue(d, c.at, c.code).0)
            && (Mine(c, svc, u) && c.TryCode? ==> d' == Verify(d, Ttl(svc), c.at, c.code).0)
  {
    assert log[..k + 1][..k] == log[..k];
  }

  lemma SentStep(log: seq<Call>, k: nat, svc: Service, u: string)
    requires Ordered(log) && k < |log|
    ensures var d, d' := DeskAfter(log[..k], svc, u), DeskAfter(log[..k + 1], svc, u);
            && (SentTo(log, k, svc, u) ==> d' == Desk(Some(Ticket(log[k].code, log[k].at, 0)), Some(log[k].at)))
            && (!SentTo(log, k, svc, u) && !TriedBy(log, k, svc, u) ==> d' == d)
            && (!SentTo(log, k, svc, u) ==> d'.lastIssue == d.lastIssue)
  {
    DeskStep(log, k, svc, u);
    KeysAnswerLikeTickets(log, k);
  }

  lemma HitStep(log: seq<Call>, i: nat, k: nat, svc: Service, u: string)
    requires i + 1 < k <= |log|
    ensures Hit(log, i, k, svc, u) <==>
            Hit(log, i, k - 1, svc, u) || (TriedBy(log, k - 1, svc, u) && log[k - 1].code == log[i].code)
  {
  }

  /** The desk after `sent`, `tries` tries and perhaps a right one, as long as the code is fresh at `now`. */
  predicate Recalls(d: Desk, sent: Call, ttl: Time, now: Time, hit: bool, tries: nat)
  {
    && d.lastIssue == Some(sent.at)
    && (now < sent.at + ttl ==>
          d.ticket == if hit || tries > MAX_ATTEMPTS then None else Some(Ticket(sent.code, sent.at, tries)))
  }

  lemma TryIsRecalled(d: Desk, sent: Call, ttl: Time, now: Time, at: Time, code: string, hit: bool, tries: nat)
    requires Recalls(d, sent, ttl, now, hit, tries) && now <= at
    ensures Recalls(Verify(d, ttl, at, code).0, sent, ttl, at, hit || code == sent.code, tries + 1)
  {
  }

  /**
   While the latest code is fresh, the ticket is there exactly when it was not hit and at most
   five tries were made.
   */
  lemma {:induction false} DeskRecalls(log: seq<Call>, k: nat, i: nat, svc: Service, u: string)
    requires Ordered(log) && LatestSent(log, i, k, svc, u)
    ensures RecallsAt(log, k, i, svc, u)
    decreases k
  {
    if i < k - 1 {
      DeskRecalls(log, k - 1, i, svc, u);
      RecallsNext(log, k - 1, i, svc, u);
    } else {
      SentStep(log, i, svc, u);
    }
  }

  ghost predicate RecallsAt(log: seq<Call>, k: nat, i: nat, svc: Service, u: string)
    requires i < k <= |log|
  {
    Recalls(DeskAfter(log[..k], svc, u), log[i], Ttl(svc), log[k - 1].at, Hit(log, i, k, svc, u),
            Tries(log, i, k, svc, u))
  }

  lemma RecallsNext(log: seq<Call>, k: nat, i: nat, svc: Service, u: string)
    requires Ordered(log) && i < k < |log| && RecallsAt(log, k, i, svc, u) && !SentTo(log, k, svc, u)
    ensures RecallsAt(log, k + 1, i, svc, u)
  {
    SentStep(log, k, svc, u);
    HitStep(log, i, k + 1, svc, u);
    assert log[k - 1].at <= log[k].at;
    if TriedBy(log, k, svc, u) {
      DeskStep(log, k, svc, u);
      TryIsRecalled(DeskAfter(log[..k], svc, u), log[i], Ttl(svc), log[k - 1].at, log[k].at, log[k].code,
                    Hit(log, i, k, svc, u), Tries(log, i, k, svc, u));
    }
  }

  lemma {:induction false} NeverSent(log: seq<Call>, k: nat, svc: Service, u: string)
    requires Ordered(log) && k <= |log| && forall j | 0 <= j < k :: !SentTo(log, j, svc, u)
    ensures DeskAfter(log[..k], svc, u) == Desk(None, None)
  {
    if k > 0 {
      NeverSent(log, k - 1, svc, u);
      SentStep(log, k - 1, svc, u);
      DeskStep(log, k - 1, svc, u);
    }
  }

  lemma {:induction false} FindLatest(log: seq<Call>, k: nat, svc: Service, u: string) returns (i: Option<nat>)
    requires k <= |log|
    ensures i.None? ==> forall j | 0 <= j < k :: !SentTo(log, j, svc, u)
    ensures i.Some? ==> LatestSent(log, i.value, k, svc, u)
  {
    if k == 0 { i := None; }
    else if SentTo(log, k - 1, svc, u) { i := Some(k - 1); }
    else { i := FindLatest(log, k - 1, svc, u); }
  }

  /** At call `k` the code sent at `i` is the latest, within its lifetime, not used, and not overtried. */
  ghost predicate StillOut(log: seq<Call>, i: nat, k: nat, svc: Service, u: string)
  {
    && LatestSent(log, i, k, svc, u) && k < |log|
    && log[k].at < log[i].at + (if svc.Verification? then 600_000 else 900_000)
    && !Hit(log, i, k, svc, u) && Tries(log, i, k, svc, u) <= 5
  }

  /** The desk then holds its ticket, and otherwise none that is good. */
  lemma DeskAtTry(log: seq<Call>, k: nat, i: nat, svc: Service, u: string)
    requires Ordered(log) && k < |log| && LatestSent(log, i, k, svc, u)
    ensures var d := DeskAfter(log[..k], svc, u);
            if StillOut(log, i, k, svc, u)
            then d.ticket == Some(Ticket(log[i].code, log[i].at, Tries(log, i, k, svc, u))) &&
                 log[k].at < log[i].at + Ttl(svc)
            else d.ticket.Some? ==> d.ticket.value.issued + Ttl(svc) <= log[k].at
  {
    DeskRecalls(log, k, i, svc, u);
    ExpiredStays(log, k, i, svc, u);
    assert log[k - 1].at <= log[k].at;
  }

  lemma OneLatest(log: seq<Call>, k: nat, svc: Service, u: string, i: nat, j: nat)
    requires LatestSent(log, i, k, svc, u) && LatestSent(log, j, k, svc, u)
    ensures i == j
  {
  }

  /**
   What every try is answered: "right" if and only if it carries the latest code sent, within
   its lifetime, after fewer than five tries on it, none of which carried it already; the
   sixth try is told so, and from then on, as after use or expiry, there is no code.
   */
  lemma AnswerIff(log: seq<Call>, k: nat)
    requires Ordered(log) && k < |log| && log[k].TryCode?
    ensures var svc, u, a := log[k].svc, log[k].user, Answer(log, k);
            && (a == Absent <==> !exists i: nat :: StillOut(log, i, k, svc, u))
            && (a == TooMany <==> exists i: nat :: StillOut(log, i, k, svc, u) && Tries(log, i, k, svc, u) == 5)
            && (a == Right <==> exists i: nat ::
                StillOut(log, i, k, svc, u) && Tries(log, i, k, svc, u) < 5 && log[k].code == log[i].code)
            && (a == Wrong <==> exists i: nat ::
                StillOut(log, i, k, svc, u) && Tries(log, i, k, svc, u) < 5 && log[k].code != log[i].code)
  {
    var svc, u := log[k].svc, log[k].user;
    KeysAnswerLikeTickets(log, k);
    var latest := FindLatest(log, k, svc, u);
    if latest.None? {
      NeverSent(log, k, svc, u);
    } else {
      var i := latest.value;
      DeskAtTry(log, k, i, svc, u);
      forall j: nat | StillOut(log, j, k, svc, u) ensures j == i { OneLatest(log, k, svc, u, i, j); }
      assert StillOut(log, i, k, svc, u) <==> exists j: nat :: StillOut(log, j, k, svc, u);
    }
  }

  lemma RightIff(log: seq<Call>, k: nat)
    requires Ordered(log) && k < |log| && log[k].TryCode?
    ensures var svc, u := log[k].svc, log[k].user;
            Answer(log, k) == Right <==>
            exists i: nat :: && LatestSent(log, i, k, svc, u)
                        && log[k].code == log[i].code
                        && log[k].at < log[i].at + (if svc.Verification? then 600_000 else 900_000)
                        && Tries(log, i, k, svc, u) < 5
                        && !Hit(log, i, k, svc, u)
  {
    AnswerIff(log, k);
    var svc, u := log[k].svc, log[k].user;
    assert forall i: nat | StillOut(log, i, k, svc, u) :: LatestSent(log, i, k, svc, u);
  }

  lemma {:induction false} ExpiredStays(log: seq<Call>, k: nat, i: nat, svc: Service, u: string)
    requires Ordered(log) && LatestSent(log, i, k, svc, u)
    ensures var d := DeskAfter(log[..k], svc, u); d.ticket.Some? ==> d.ticket.value.issued == log[i].at
    decreases k
  {
    if i < k - 1 {
      ExpiredStays(log, k - 1, i, svc, u);
      IssuedStays(log, k - 1, svc, u, log[i].at);
    } else {
      SentStep(log, i, svc, u);
    }
  }

  lemma IssuedStays(log: seq<Call>, k: nat, svc: Service, u: string, at: Time)
    requires Ordered(log) && k < |log| && !SentTo(log, k, svc, u)
    requires var d := DeskAfter(log[..k], svc, u); d.ticket.Some? ==> d.ticket.value.issued == at
    ensures var d := DeskAfter(log[..k + 1], svc, u); d.ticket.Some? ==> d.ticket.value.issued == at
  {
    SentStep(log, k, svc, u);
    DeskStep(log, k, svc, u);
  }

  /** A code is sent exactly when none was sent within the last sixty seconds. */
  lemma SentIff(log: seq<Call>, k: nat)
    requires Ordered(log) && k < |log| && log[k].AskCode?
    ensures var svc, u := log[k].svc, log[k].user;
            Sent(log, k) <==> forall j | 0 <= j < k && SentTo(log, j, svc, u) :: log[j].at + 60_000 <= log[k].at
  {
    var svc, u := log[k].svc, log[k].user;
    KeysAnswerLikeTickets(log, k);
    var latest := FindLatest(log, k, svc, u);
    if latest.None? {
      NeverSent(log, k, svc, u);
    } else {
      DeskRecalls(log, k, latest.value, svc, u);
      forall j | 0 <= j < k && SentTo(log, j, svc, u) ensures log[j].at <= log[latest.value].at {}
    }
  }

  // --- How often codes can be guessed ---

  /** The call compared a submitted code with the stored one. */
  predicate Compared(log: seq<Call>, k: nat, svc: Service, u: string)
  {
    TriedBy(log, k, svc, u) && (Answer(log, k) == Wrong || Answer(log, k) == Right)
  }

  function Comparisons(log: seq<Call>, lo: nat, hi: nat, svc: Service, u: string): nat
    requires hi <= |log|
  {
    if hi <= lo then 0
    else Comparisons(log, lo, hi - 1, svc, u) + (if Compared(log, hi - 1, svc, u) then 1 else 0)
  }

  function CodesSent(log: seq<Call>, lo: nat, hi: nat, svc: Service, u: string): nat
    requires hi <= |log|
  {
    if hi <= lo then 0
    else CodesSent(log, lo, hi - 1, svc, u) + (if SentTo(log, hi - 1, svc, u) then 1 else 0)
  }

  function TriesLeft(d: Desk): int
  {
    if d.ticket.Some? then MAX_ATTEMPTS - d.ticket.value.tries else 0
  }

  lemma {:induction false} TriesBounded(log: seq<Call>, k: nat, svc: Service, u: string)
    requires Ordered(log) && k <= |log|
    ensures 0 <= TriesLeft(DeskAfter(log[..k], svc, u)) <= MAX_ATTEMPTS
  {
    OrderedPrefix(log, k);
    if k > 0 {
      TriesBounded(log, k - 1, svc, u);
      DeskStep(log, k - 1, svc, u);
    }
  }

  /** A comparison costs a try; only a code sent gives tries back. */
  lemma CallPays(log: seq<Call>, k: nat, svc: Service, u: string)
    requires Ordered(log) && k < |log|
    ensures (if Compared(log, k, svc, u) then 1 else 0) + TriesLeft(DeskAfter(log[..k + 1], svc, u))
         <= TriesLeft(DeskAfter(log[..k], svc, u)) + (if SentTo(log, k, svc, u) then MAX_ATTEMPTS else 0)
  {
    TriesBounded(log, k, svc, u);
    DeskStep(log, k, svc, u);
    SentStep(log, k, svc, u);
    KeysAnswerLikeTickets(log, k);
  }

  /** Comparisons are paid for by the tries left and five per code sent. */
  lemma {:induction false} ComparisonsArePaid(log: seq<Call>, lo: nat, hi: nat, svc: Service, u: string)
    requires Ordered(log) && lo <= hi <= |log|
    ensures Comparisons(log, lo, hi, svc, u) + TriesLeft(DeskAfter(log[..hi], svc, u))
         <= TriesLeft(DeskAfter(log[..lo], svc, u)) + MAX_ATTEMPTS * CodesSent(log, lo, hi, svc, u)
    decreases hi
  {
    if lo < hi {
      ComparisonsArePaid(log, lo, hi - 1, svc, u);
      CallPays(log, hi - 1, svc, u);
    }
  }

  /** Codes are sent at least a cooldown apart. */
  lemma {:induction false} CodesAreSpaced(log: seq<Call>, lo: nat, hi: nat, svc: Service, u: string, a: Time)
    requires Ordered(log) && lo <= hi <= |log| && forall k | lo <= k < hi :: a <= log[k].at
    ensures var n, last := CodesSent(log, lo, hi, svc, u), DeskAfter(log[..hi], svc, u).lastIssue;
            n > 0 ==> last.Some? && a + (n - 1) * COOLDOWN <= last.value && exists k ::
              lo <= k < hi && last.value == log[k].at
    decreases hi
  {
    if lo < hi {
      CodesAreSpaced(log, lo, hi - 1, svc, u, a);
      SentStep(log, hi - 1, svc, u);
      KeysAnswerLikeTickets(log, hi - 1);
    }
  }

  /**
   In any window of T > 0 milliseconds at most 5 * (1 + ceil(T / 60 s)) submitted codes are
   compared with a stored one for a user, whatever the calls and whenever the window opens.
   */
  lemma GuessBound(log: seq<Call>, lo: nat, hi: nat, svc: Service, u: string, a: Time, T: nat)
    requires Ordered(log) && lo <= hi <= |log| && T > 0
    requires forall k | lo <= k < hi :: a <= log[k].at < a + T
    ensures Comparisons(log, lo, hi, svc, u) <= 5 * (1 + CeilDiv(T, 60_000))
  {
    ComparisonsArePaid(log, lo, hi, svc, u);
    TriesBounded(log, lo, svc, u);
    TriesBounded(log, hi, svc, u);
    CodesAreSpaced(log, lo, hi, svc, u, a);
    var n := CodesSent(log, lo, hi, svc, u);
    assert n > 0 ==> (n - 1) * COOLDOWN < T;
    assert n <= CeilDiv(T, COOLDOWN);
  }

  // --- The bound is met ---

  lemma {:induction false} ComparisonsPrefix(log: seq<Call>, c: Call, lo: nat, hi: nat, svc: Service, u: string)
    requires hi <= |log|
    ensures Comparisons(log + [c], lo, hi, svc, u) == Comparisons(log, lo, hi, svc, u)
    decreases hi
  {
    if lo < hi {
      ComparisonsPrefix(log, c, lo, hi - 1, svc, u);
      assert (log + [c])[..hi - 1] == log[..hi - 1] && (log + [c])[hi - 1] == log[hi - 1];
    }
  }

  lemma OneMore(log: seq<Call>, c: Call, svc: Service, u: string)
    requires Ordered(log) && 0 < |log| && log[|log| - 1].at <= c.at && Mine(c, svc, u)
    ensures var d, log' := DeskAfter(log, svc, u), log + [c];
            && Ordered(log')
            && DeskAfter(log', svc, u) ==
               (if c.AskCode? then Issue(d, c.at, c.code).0 else Verify(d, Ttl(svc), c.at, c.code).0)
            && Comparisons(log', 1, |log'|, svc, u) == Comparisons(log, 1, |log|, svc, u)
               + (if c.TryCode? && Verify(d, Ttl(svc), c.at, c.code).1 in {Wrong, Right} then 1 else 0)
  {
    var log' := log + [c];
    assert log'[..|log|] == log && log'[..|log'| - 1] == log && log'[|log|] == c;
    forall i, j | 0 <= i < j < |log'| ensures log'[i].at <= log'[j].at
    {
      assert log'[i] == log[i];
      if j < |log| { assert log'[j] == log[j]; }
    }
    ComparisonsPrefix(log, c, 1, |log|, svc, u);
    KeysAnswerLikeTickets(log', |log|);
  }

  /** `n` wrong tries at one instant, all of them compared. */
  lemma {:induction false} WrongTries(log: seq<Call>, svc: Service, u: string, issued: Time, at: Time, n: nat)
    returns (longer: seq<Call>)
    requires Ordered(log) && 0 < |log| && log[|log| - 1].at <= at && at < issued + Ttl(svc)
    requires n <= MAX_ATTEMPTS &&
             DeskAfter(log, svc, u) == Desk(Some(Ticket("right", issued, MAX_ATTEMPTS - n)), Some(issued))
    ensures Ordered(longer) && log <= longer && forall k | |log| <= k < |longer| :: longer[k].at == at
    ensures Comparisons(longer, 1, |longer|, svc, u) == Comparisons(log, 1, |log|, svc, u) + n
    ensures DeskAfter(longer, svc, u).lastIssue == Some(issued)
    decreases n
  {
    longer := log;
    if n > 0 {
      OneMore(log, TryCode(svc, u, "wrong", at), svc, u);
      assert "wrong"[0] != "right"[0];
      longer := WrongTries(log + [TryCode(svc, u, "wrong", at)], svc, u, issued, at, n - 1);
    }
  }

  /** The moment of the tries on code `n`: codes go out a cooldown apart, and tries start with the second. */
  function BurstAt(n: nat): Time
  {
    (if n == 0 then 1 else n) * COOLDOWN
  }

  /** Code 0 goes out; then five tries on it, code 1 at once, five tries on that, code 2 a cooldown later, and so on. */
  lemma {:induction false} Guessing(svc: Service, u: string, n: nat) returns (log: seq<Call>)
    ensures Ordered(log) && 0 < |log| && log[|log| - 1].at <= BurstAt(n)
    ensures forall k | 1 <= k < |log| :: COOLDOWN <= log[k].at <= BurstAt(n)
    ensures Comparisons(log, 1, |log|, svc, u) == MAX_ATTEMPTS * (n + 1)
    ensures DeskAfter(log, svc, u).lastIssue == Some(n * COOLDOWN)
  {
    var ask := AskCode(svc, u, "right", n * COOLDOWN);
    var asked := [ask];
    if n == 0 {
      assert asked[..0] == [];
    } else {
      var before := Guessing(svc, u, n - 1);
      OneMore(before, ask, svc, u);
      asked := before + [ask];
    }
    assert DeskAfter(asked, svc, u) == Desk(Some(Ticket("right", n * COOLDOWN, 0)), Some(n * COOLDOWN));
    log := WrongTries(asked, svc, u, n * COOLDOWN, BurstAt(n), MAX_ATTEMPTS);
  }

  /** For every window length some log has exactly as many comparisons as the bound allows. */
  lemma GuessBoundIsMet(svc: Service, u: string, T: nat) returns (log: seq<Call>, a: Time)
    requires T > 0
    ensures Ordered(log) && 0 < |log| && forall k | 1 <= k < |log| :: a <= log[k].at < a + T
    ensures Comparisons(log, 1, |log|, svc, u) == 5 * (1 + CeilDiv(T, 60_000))
  {
    log := Guessing(svc, u, CeilDiv(T, COOLDOWN));
    a := COOLDOWN;
    assert BurstAt(CeilDiv(T, COOLDOWN)) < COOLDOWN + T;
  }
}
