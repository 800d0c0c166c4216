/**
 One-time codes again, command by command: any number of issues and tries for one user of one
 service, each Redis command atomic, any other command and any time between two of them. What
 `Tickets` proves of whole calls does not all survive; here is what does.
 */
module TicketRaces {
  import opened Base
  import opened RedisStore
  import opened Tickets

  type ReqId = nat

  datatype Slot = CodeSlot | CountSlot | CooldownSlot

  datatype Outcome = CodeSent | CodeRefused | CodeAbsent | TooManyTries | WrongCode | RightCode

  /** What a request does next, with the locals it carries. */
  datatype Request =
    // issue
    | Asking(code: string)                     // EXISTS cooldown
    | SettingCode(code: string)                // SET code
    | SettingCount                             // SET attempts "0"
    | SettingCooldown                          // SET cooldown
    // verify
    | Trying(code: string)                     // GET code
    | Counting(code: string, stored: string)   // INCR attempts, then compare
    | Burning                                  // DEL code, after too many tries
    | Spending                                 // DEL code, after the right one
    | Clearing                                 // DEL attempts
    | Finished(outcome: Outcome)

  /** What has happened so far; the service never reads it. */
  datatype Tally = Tally(
    counted: nat,     // tries let through to the comparison
    starts: nat,      // SETs of the counter
    lapses: nat,      // INCRs that found it expired
    clears: nat)      // DELs of it

  datatype State = State(now: Time, store: Store<Slot>, reqs: map<ReqId, Request>, tally: Tally)

  datatype Event = Tick(d: nat) | Arrive(r: ReqId, q: Request) | Exec(r: ReqId)

  predicate Typed(store: Store<Slot>)
  {
    && (CodeSlot in store ==> store[CodeSlot].value.Text?)
    && (CountSlot in store ==> store[CountSlot].value.Number?)
    && (CooldownSlot in store ==> store[CooldownSlot].expiry.Some?)
  }

  function Become(s: State, r: ReqId, q: Request): State
  {
    s.(reqs := s.reqs[r := q])
  }

  function ReadCode(s: State, r: ReqId, code: string): State
    requires Typed(s.store)
  {
    match Get(s.store, CodeSlot, s.now)
    case None => Become(s, r, Finished(CodeAbsent))
    case Some(x) => Become(s, r, Counting(code, x.s))
  }

  /** The INCR, and what the request does with its answer. */
  function CountTry(s: State, r: ReqId, code: string, stored: string): State
    requires Typed(s.store)
  {
    var n := Count(s.store, CountSlot, s.now) + 1;
    var lapsed := if CountSlot in s.store && !Live(s.store, CountSlot, s.now) then 1 else 0;
    var counted := if n > MAX_ATTEMPTS then 0 else 1;
    var q := if n > MAX_ATTEMPTS then Burning else if code != stored then Finished(WrongCode) else Spending;
    Become(s.(store := Incr(s.store, CountSlot, s.now),
              tally := s.tally.(counted := s.tally.counted + counted, lapses := s.tally.lapses + lapsed)),
           r, q)
  }

  function Step(svc: Service, s: State, r: ReqId): (s': State)
    requires r in s.reqs && Typed(s.store)
    ensures Typed(s'.store) && s'.now == s.now && r in s'.reqs && s'.reqs == s.reqs[r := s'.reqs[r]]
  {
    match s.reqs[r]
    case Asking(code) =>
      Become(s, r, if Live(s.store, CooldownSlot, s.now) then Finished(CodeRefused) else SettingCode(code))
    case SettingCode(code) =>
      Become(s.(store := SetEx(s.store, CodeSlot, Text(code), s.now, TtlSeconds(svc))), r, SettingCount)
    case SettingCount =>
      Become(s.(store := SetEx(s.store, CountSlot, Number(0), s.now, TtlSeconds(svc)),
                tally := s.tally.(starts := s.tally.starts + 1)), r, SettingCooldown)
    case SettingCooldown =>
      Become(s.(store := SetEx(s.store, CooldownSlot, Number(1), s.now, COOLDOWN_SECONDS)), r, Finished(CodeSent))
    case Trying(code) => ReadCode(s, r, code)
    case Counting(code, stored) => CountTry(s, r, code, stored)
    case Burning => Become(s.(store := s.store - {CodeSlot}), r, Finished(TooManyTries))
    case Spending => Become(s.(store := s.store - {CodeSlot}), r, Clearing)
    case Clearing =>
      Become(s.(store := s.store - {CountSlot}, tally := s.tally.(clears := s.tally.clears + 1)), r,
             Finished(RightCode))
    case Finished(_) => s
  }

  predicate Enabled(s: State, e: Event)
  {
    match e
    case Tick(_) => true
    case Arrive(r, q) => r !in s.reqs && (q.Asking? || q.Trying?)
    case Exec(r) => r in s.reqs && !s.reqs[r].Finished?
  }

  function Next(svc: Service, s: State, e: Event): (s': State)
    requires Enabled(s, e) && Typed(s.store)
    ensures Typed(s'.store) && s.now <= s'.now
  {
    match e
    case Tick(d) => s.(now := s.now + d)
    case Arrive(r, q) => Become(s, r, q)
    case Exec(r) => Step(svc, s, r)
  }

  // --- Runs ---

  datatype Trace = Trace(states: seq<State>, events: seq<Event>)

  ghost predicate Happens(svc: Service, tr: Trace, i: nat)
    requires i < |tr.events| < |tr.states|
  {
    && Typed(tr.states[i].store) && Enabled(tr.states[i], tr.events[i])
    && tr.states[i + 1] == Next(svc, tr.states[i], tr.events[i])
  }

  ghost predicate Legal(svc: Service, tr: Trace)
  {
    && |tr.states| == |tr.events| + 1 && Typed(tr.states[0].store)
    && forall i {:trigger Happens(svc, tr, i)} | 0 <= i < |tr.events| :: Happens(svc, tr, i)
  }

  predicate Initial(s: State)
  {
    s.store == map[] && s.reqs == map[] && s.tally == Tally(0, 0, 0, 0)
  }

  ghost predicate Reached(svc: Service, tr: Trace)
  {
    Legal(svc, tr) && Initial(tr.states[0])
  }

  function Last(tr: Trace): State
    requires tr.states != []
  {
    tr.states[|tr.states| - 1]
  }

  lemma AlwaysTyped(svc: Service, tr: Trace, i: nat)
    requires Legal(svc, tr) && i < |tr.states|
    ensures Typed(tr.states[i].store)
  {
    if i > 0 { assert Happens(svc, tr, i - 1); }
  }

  lemma Extend(svc: Service, tr: Trace, e: Event) returns (longer: Trace)
    requires Legal(svc, tr) && Typed(Last(tr).store) && Enabled(Last(tr), e)
    ensures Legal(svc, longer) && tr.states <= longer.states && tr.events <= longer.events
    ensures Last(longer) == Next(svc, Last(tr), e)
  {
    longer := Trace(tr.states + [Next(svc, Last(tr), e)], tr.events + [e]);
    forall i | 0 <= i < |longer.events| ensures Happens(svc, longer, i)
    {
      if i < |tr.events| { assert Happens(svc, tr, i); }
    }
  }

  // --- A request alone, at one instant ---

  function Rank(q: Request): nat
  {
    match q
    case Asking(_) => 4
    case SettingCode(_) => 3
    case SettingCount => 2
    case SettingCooldown => 1
    case Trying(_) => 4
    case Counting(_, _) => 3
    case Spending => 2
    case Clearing => 1
    case Burning => 1
    case Finished(_) => 0
  }

  /** The request runs to its end with nothing in between. */
  function Alone(svc: Service, s: State, r: ReqId): (s': State)
    requires r in s.reqs && Typed(s.store)
    ensures Typed(s'.store) && s'.now == s.now && r in s'.reqs && s'.reqs == s.reqs[r := s'.reqs[r]]
    decreases Rank(s.reqs[r])
  {
    if s.reqs[r].Finished? then s else Alone(svc, Step(svc, s, r), r)
  }

  /** An issue outside the cooldown: the code reads for its lifetime, its counter as 0, the cooldown for a minute. */
  lemma IssueAlone(svc: Service, s: State, r: ReqId, code: string)
    requires r in s.reqs && Typed(s.store) && s.reqs[r] == Asking(code)
    ensures var s' := Alone(svc, s, r);
            if Get(s.store, CooldownSlot, s.now).Some?
            then s'.store == s.store && s'.reqs[r] == Finished(CodeRefused)
            else
              var life := if svc.Verification? then 600_000 else 900_000;
              && s'.reqs[r] == Finished(CodeSent)
              && (forall t: Time :: Get(s'.store, CodeSlot, t) == if t < s.now + life then Some(Text(code)) else None)
              && (forall t: Time :: Get(s'.store, CountSlot, t) == if t < s.now + life then Some(Number(0)) else None)
              && (forall t: Time :: Get(s'.store, CooldownSlot, t).Some? <==> t < s.now + 60_000)
  {
    if Get(s.store, CooldownSlot, s.now).None? {
      var s1 := Step(svc, s, r);
      var s2 := Step(svc, s1, r);
      var s3 := Step(svc, s2, r);
      var s4 := Step(svc, s3, r);
      assert Alone(svc, s1, r) == Alone(svc, s2, r) == Alone(svc, s3, r) == Alone(svc, s4, r) == s4;
    }
  }

  /**
   A try: right if and only if it carries the code that reads, after fewer than five counted
   tries; only code and counter change.
   */
  lemma TryAlone(svc: Service, s: State, r: ReqId, code: string)
    requires r in s.reqs && Typed(s.store) && s.reqs[r] == Trying(code)
    ensures var s' := Alone(svc, s, r);
            var stored, tries, q' := Get(s.store, CodeSlot, s.now), Count(s.store, CountSlot, s.now), s'.reqs[r];
            && (q' == Finished(CodeAbsent) <==> stored.None?)
            && (q' == Finished(TooManyTries) <==> stored.Some? && tries >= 5)
            && (q' == Finished(RightCode) <==> stored == Some(Text(code)) && tries < 5)
            && (q' == Finished(WrongCode) <==> stored.Some? && stored != Some(Text(code)) && tries < 5)
    ensures var s' := Alone(svc, s, r);
            && Get(s'.store, CooldownSlot, s.now) == Get(s.store, CooldownSlot, s.now)
            && (s'.reqs[r] == Finished(CodeAbsent) ==> s'.store == s.store)
            && (s'.reqs[r] == Finished(RightCode) ==> CodeSlot !in s'.store && CountSlot !in s'.store)
            && (s'.reqs[r] == Finished(TooManyTries) ==> CodeSlot !in s'.store)
            && (s'.reqs[r] == Finished(WrongCode) ==>
                  && Get(s'.store, CodeSlot, s.now) == Get(s.store, CodeSlot, s.now)
                  && Count(s'.store, CountSlot, s.now) == Count(s.store, CountSlot, s.now) + 1)
  {
    var s1 := Step(svc, s, r);
    if s1.reqs[r].Counting? { CountAlone(svc, s1, r, code, s1.reqs[r].stored); }
  }

  lemma CountAlone(svc: Service, s: State, r: ReqId, code: string, stored: string)
    requires r in s.reqs && Typed(s.store) && s.reqs[r] == Counting(code, stored)
    ensures var s', tries := Alone(svc, s, r), Count(s.store, CountSlot, s.now);
            && s'.reqs[r] ==
               Finished(if tries >= 5 then TooManyTries else if code == stored then RightCode else WrongCode)
            && Get(s'.store, CooldownSlot, s.now) == Get(s.store, CooldownSlot, s.now)
            && (tries >= 5 || code == stored ==> CodeSlot !in s'.store)
            && (tries < 5 && code == stored ==> CountSlot !in s'.store)
            && (tries < 5 && code != stored ==>
                  && Get(s'.store, CodeSlot, s.now) == Get(s.store, CodeSlot, s.now)
                  && Count(s'.store, CountSlot, s.now) == tries + 1)
  {
    var s1 := Step(svc, s, r);
    if s1.reqs[r].Burning? {
      var s2 := Step(svc, s1, r);
      assert Alone(svc, s1, r) == Alone(svc, s2, r) == s2;
    } else if s1.reqs[r].Spending? {
      var s2 := Step(svc, s1, r);
      var s3 := Step(svc, s2, r);
      assert Alone(svc, s1, r) == Alone(svc, s2, r) == Alone(svc, s3, r) == s3;
    }
  }

  // --- The counter ---

  /** What the counter shows, dead or alive. */
  function Shown(store: Store<Slot>): int
    requires Typed(store)
  {
    if CountSlot in store then store[CountSlot].value.n else 0
  }

  predicate Expiring(store: Store<Slot>)
  {
    CountSlot in store && store[CountSlot].expiry.Some?
  }

  /** Between two fresh starts of the counter at most five tries get through; it expires at most once per SET. */
  predicate Limited(s: State)
  {
    && Typed(s.store) && 0 <= Shown(s.store)
    && s.tally.counted <= MAX_ATTEMPTS * (s.tally.starts + s.tally.lapses + s.tally.clears)
                          + (if Shown(s.store) < MAX_ATTEMPTS then Shown(s.store) else MAX_ATTEMPTS)
    && s.tally.lapses + (if Expiring(s.store) then 1 else 0) <= s.tally.starts
  }

  lemma LimitedStep(svc: Service, s: State, e: Event)
    requires Limited(s) && Enabled(s, e)
    ensures Limited(Next(svc, s, e))
  {
  }

  lemma {:induction false} AlwaysLimited(svc: Service, tr: Trace, i: nat)
    requires Reached(svc, tr) && i < |tr.states|
    ensures Limited(tr.states[i])
  {
    if i > 0 {
      AlwaysLimited(svc, tr, i - 1);
      assert Happens(svc, tr, i - 1);
      LimitedStep(svc, tr.states[i - 1], tr.events[i - 1]);
    }
  }

  /** Tries answered "right". */
  function Rights(reqs: map<ReqId, Request>): set<ReqId>
  {
    set r | r in reqs && reqs[r] == Finished(RightCode)
  }

  lemma OnlyClearingIsRight(svc: Service, s: State, e: Event)
    requires Typed(s.store) && Enabled(s, e)
    ensures var s' := Next(svc, s, e);
            if e.Exec? && s.reqs[e.r].Clearing?
            then s'.tally.clears == s.tally.clears + 1 && e.r !in Rights(s.reqs) &&
                 Rights(s'.reqs) == Rights(s.reqs) + {e.r}
            else s'.tally.clears == s.tally.clears && Rights(s'.reqs) == Rights(s.reqs)
  {
  }

  lemma ClearsStep(svc: Service, s: State, e: Event)
    requires Typed(s.store) && Enabled(s, e) && s.tally.clears == |Rights(s.reqs)|
    ensures Next(svc, s, e).tally.clears == |Rights(Next(svc, s, e).reqs)|
  {
    OnlyClearingIsRight(svc, s, e);
  }

  lemma {:induction false} ClearsAreRights(svc: Service, tr: Trace, i: nat)
    requires Reached(svc, tr) && i < |tr.states|
    ensures tr.states[i].tally.clears == |Rights(tr.states[i].reqs)|
  {
    if i > 0 {
      ClearsAreRights(svc, tr, i - 1);
      assert Happens(svc, tr, i - 1);
      ClearsStep(svc, tr.states[i - 1], tr.events[i - 1]);
    }
  }

  /**
   However commands interleave, the tries ever compared with a stored code number at most five
   for each fresh start of the counter: one to begin with, a SET and an expiry for each code
   issued, and a DEL for each try answered "right".
   */
  lemma ComparisonsAreLimited(svc: Service, tr: Trace, i: nat)
    requires Reached(svc, tr) && i < |tr.states|
    ensures var s := tr.states[i];
            s.tally.counted <= MAX_ATTEMPTS * (1 + 2 * s.tally.starts + |Rights(s.reqs)|)
  {
    AlwaysLimited(svc, tr, i);
    ClearsAreRights(svc, tr, i);
  }

  // --- Uses of a code ---

  /** Event `i` is a try finding code `x` stored. */
  predicate ReadsAt(tr: Trace, i: nat, r: ReqId, x: string)
  {
    && i < |tr.events| < |tr.states| && tr.events[i] == Exec(r)
    && r in tr.states[i].reqs && tr.states[i].reqs[r].Trying?
    && r in tr.states[i + 1].reqs && tr.states[i + 1].reqs[r] == Counting(tr.states[i].reqs[r].code, x)
  }

  /** Event `i` writes a code. */
  predicate SetsAt(tr: Trace, i: nat)
  {
    && i < |tr.events| < |tr.states| && tr.events[i].Exec?
    && tr.events[i].r in tr.states[i].reqs && tr.states[i].reqs[tr.events[i].r].SettingCode?
  }

  /** Event `i` deletes the code, because `r` used it up. */
  predicate SpendsAt(tr: Trace, i: nat, r: ReqId)
  {
    && i < |tr.events| < |tr.states| && tr.events[i] == Exec(r)
    && r in tr.states[i].reqs && tr.states[i].reqs[r].Spending?
  }

  /** The request has had its code accepted. */
  predicate Accepted(q: Request)
  {
    q.Spending? || q.Clearing? || q == Finished(RightCode)
  }

  lemma AcceptedComes(svc: Service, s: State, e: Event, r: ReqId)
    requires Typed(s.store) && Enabled(s, e) && r in Next(svc, s, e).reqs
    ensures var q' := Next(svc, s, e).reqs[r];
            && (Accepted(q') ==>
                r in s.reqs && (Accepted(s.reqs[r]) || (s.reqs[r].Counting? && s.reqs[r].code == s.reqs[r].stored)))
            && (q'.Counting? ==> r in s.reqs && (s.reqs[r] == q' || (e == Exec(r) && s.reqs[r] == Trying(q'.code)
                                 && Get(s.store, CodeSlot, s.now) == Some(Text(q'.stored)))))
  {
  }

  /** A code is accepted only from a try that found it stored and alive. */
  lemma {:induction false} AcceptedWasRead(svc: Service, tr: Trace, i: nat, r: ReqId) returns (k: nat, x: string)
    requires Reached(svc, tr) && i < |tr.states| && r in tr.states[i].reqs
    requires Accepted(tr.states[i].reqs[r]) || tr.states[i].reqs[r].Counting?
    ensures k < i && ReadsAt(tr, k, r, x) && Get(tr.states[k].store, CodeSlot, tr.states[k].now) == Some(Text(x))
    ensures Accepted(tr.states[i].reqs[r]) ==> tr.states[k].reqs[r] == Trying(x)
    ensures tr.states[i].reqs[r].Counting? ==> tr.states[i].reqs[r] == Counting(tr.states[k].reqs[r].code, x)
  {
    assert i > 0;
    assert Happens(svc, tr, i - 1);
    var s, q := tr.states[i - 1], tr.states[i].reqs[r];
    AcceptedComes(svc, s, tr.events[i - 1], r);
    if q.Counting? && s.reqs[r] != q {
      k, x := i - 1, q.stored;
    } else {
      k, x := AcceptedWasRead(svc, tr, i - 1, r);
    }
  }

  lemma GoneStays(svc: Service, tr: Trace, i: nat)
    requires Legal(svc, tr) && i < |tr.events| && !SetsAt(tr, i)
    ensures CodeSlot !in tr.states[i].store ==> CodeSlot !in tr.states[i + 1].store
  {
    assert Happens(svc, tr, i);
  }

  lemma {:induction false} GoneUntilSet(svc: Service, tr: Trace, i: nat, k: nat)
    requires Legal(svc, tr) && i <= k < |tr.states| && CodeSlot !in tr.states[i].store
    requires forall j | i <= j < k :: !SetsAt(tr, j)
    ensures CodeSlot !in tr.states[k].store
    decreases k
  {
    if i < k {
      GoneUntilSet(svc, tr, i, k - 1);
      GoneStays(svc, tr, k - 1);
    }
  }

  /**
   Single use, as far as it goes: two tries can both use a code written once only if the
   second read it before the first deleted it.
   */
  lemma UsesOverlap(svc: Service, tr: Trace, i: nat, k: nat, a: ReqId, b: ReqId, x: string)
    requires Legal(svc, tr) && SpendsAt(tr, i, a) && ReadsAt(tr, k, b, x)
    requires forall j | i < j < k :: !SetsAt(tr, j)
    ensures k < i
  {
    assert Happens(svc, tr, i) && Happens(svc, tr, k);
    if i < k {
      GoneUntilSet(svc, tr, i + 1, k);
    }
  }

  /**
   A try that has read its code is past saving: whether it can still be answered "right" hangs
   on the code it read alone, whatever has become of that code, its lifetime and its counter.
   */
  lemma ReadIsEnough(svc: Service, s: State, b: ReqId)
    requires Typed(s.store) && b in s.reqs && s.reqs[b].Counting?
    ensures (exists tr ::
             Legal(svc, tr) && tr.states[0] == s && b in Last(tr).reqs && Last(tr).reqs[b] == Finished(RightCode))
            <==> s.reqs[b].code == s.reqs[b].stored
  {
    if s.reqs[b].code == s.reqs[b].stored {
      var restarted := FreshCounter(svc, s, b);
      var tr := LetThrough(svc, restarted, b);
    } else {
      forall tr | Legal(svc, tr) && tr.states[0] == s && b in Last(tr).reqs
             ensures Last(tr).reqs[b] != Finished(RightCode)
      {
        MismatchStays(svc, tr, |tr.states| - 1, b);
      }
    }
  }

  predicate Hopeless(q: Request)
  {
    (q.Counting? && q.code != q.stored) || q.Burning? || q == Finished(WrongCode) || q == Finished(TooManyTries)
  }

  lemma {:induction false} MismatchStays(svc: Service, tr: Trace, i: nat, b: ReqId)
    requires Legal(svc, tr) && i < |tr.states| && b in tr.states[0].reqs && Hopeless(tr.states[0].reqs[b])
    ensures b in tr.states[i].reqs && Hopeless(tr.states[i].reqs[b])
  {
    if i > 0 {
      MismatchStays(svc, tr, i - 1, b);
      assert Happens(svc, tr, i - 1);
    }
  }

  /** Once the cooldown is over a new code can be asked for, and its issue starts the counter afresh. */
  lemma FreshCounter(svc: Service, s: State, b: ReqId) returns (tr: Trace)
    requires Typed(s.store) && b in s.reqs && s.reqs[b].Counting?
    ensures Legal(svc, tr) && tr.states[0] == s && b in Last(tr).reqs && Last(tr).reqs[b] == s.reqs[b]
    ensures Typed(Last(tr).store) && Count(Last(tr).store, CountSlot, Last(tr).now) == 0
  {
    var r := FreshBeyond(s.reqs.Keys);
    var wait := if CooldownSlot in s.store then s.store[CooldownSlot].expiry.value else 0;
    tr := Trace([s], []);
    tr := Extend(svc, tr, Tick(wait));
    tr := Extend(svc, tr, Arrive(r, Asking("x")));
    assert !Live(Last(tr).store, CooldownSlot, Last(tr).now);
    tr := Extend(svc, tr, Exec(r));
    tr := Extend(svc, tr, Exec(r));
    tr := Extend(svc, tr, Exec(r));
  }

  lemma LetThrough(svc: Service, before: Trace, b: ReqId) returns (tr: Trace)
    requires Legal(svc, before) && Typed(Last(before).store) &&
             Count(Last(before).store, CountSlot, Last(before).now) == 0
    requires b in Last(before).reqs && Last(before).reqs[b].Counting?
    requires Last(before).reqs[b].code == Last(before).reqs[b].stored
    ensures Legal(svc, tr) && before.states <= tr.states
    ensures Last(tr).reqs == Last(before).reqs[b := Finished(RightCode)]
    ensures Last(tr).now == Last(before).now && Last(tr).tally.starts == Last(before).tally.starts
    ensures Typed(Last(tr).store) && Count(Last(tr).store, CountSlot, Last(tr).now) == 0
  {
    tr := Extend(svc, before, Exec(b));
    tr := Extend(svc, tr, Exec(b));
    tr := Extend(svc, tr, Exec(b));
  }

  // --- A code used twice ---

  /** Request 1 writes code "x". */
  lemma OneCodeOut(svc: Service) returns (tr: Trace)
    ensures Reached(svc, tr)
    ensures Last(tr) == State(0, map[CodeSlot := Entry(Text("x"), Some(TtlSeconds(svc) * 1000))],
                              map[1 := SettingCount], Tally(0, 0, 0, 0))
  {
    tr := Trace([State(0, map[], map[], Tally(0, 0, 0, 0))], []);
    tr := Extend(svc, tr, Arrive(1, Asking("x")));
    tr := Extend(svc, tr, Exec(1));
    tr := Extend(svc, tr, Exec(1));
  }

  /** It completes the issue. */
  lemma OneIssue(svc: Service) returns (tr: Trace)
    ensures Reached(svc, tr) && Typed(Last(tr).store)
    ensures Last(tr).reqs == map[1 := Finished(CodeSent)] && Last(tr).tally.starts == 1
    ensures var s := Last(tr);
            && Get(s.store, CodeSlot, s.now) == Some(Text("x")) && Count(s.store, CountSlot, s.now) == 0
  {
    tr := OneCodeOut(svc);
    tr := Extend(svc, tr, Exec(1));
    tr := Extend(svc, tr, Exec(1));
  }

  /** Requests 2 and 3 both read it. */
  lemma BothRead(svc: Service) returns (tr: Trace)
    ensures Reached(svc, tr) && Typed(Last(tr).store)
    ensures Last(tr).reqs == map[1 := Finished(CodeSent), 2 := Counting("x", "x"), 3 := Counting("x", "x")]
    ensures Count(Last(tr).store, CountSlot, Last(tr).now) == 0 && Last(tr).tally.starts == 1
  {
    tr := OneIssue(svc);
    tr := Extend(svc, tr, Arrive(2, Trying("x")));
    tr := Extend(svc, tr, Arrive(3, Trying("x")));
    tr := Extend(svc, tr, Exec(2));
    tr := Extend(svc, tr, Exec(3));
  }

  /** One code issued, two tries answered "right". */
  lemma OneCodeTwoUses(svc: Service) returns (tr: Trace)
    ensures Reached(svc, tr) && Last(tr).tally.starts == 1 && Rights(Last(tr).reqs) == {2, 3}
  {
    var read := BothRead(svc);
    tr := LetThrough(svc, read, 2);
    tr := LetThrough(svc, tr, 3);
  }
}
