/**
 Setting up two-factor login, statement by statement, for one account: each of setup, enable
 and disable reads the account, judges what it read, and writes later, whatever happened in
 between. The source promises that 2FA goes live only with a secret its user proved; here is
 exactly when it does.
 */
module Enrolment {
  import opened Base

  type ReqId = nat
  type Secret = nat

  datatype Outcome = Done | Refused | WrongCode

  /** What a request does next, with what it read. */
  datatype Request =
    | SetupAsked               // SELECT
    | SetupSeen                // UPDATE totp_secret
    | EnableAsked              // SELECT, validate
    | EnableSeen               // UPDATE totp_enabled_at
    | DisableAsked             // SELECT, validate
    | DisableSeen              // UPDATE both
    | Finished(outcome: Outcome)

  /** `proved` is history: the secrets whose code an enable has accepted. */
  datatype State = State(secret: Option<Secret>, on: bool, reqs: map<ReqId, Request>, drawn: set<Secret>,
                         proved: set<Secret>)

  /** `good`: the code fits the secret just read; `x`: the secret drawn. */
  datatype Event = Arrive(r: ReqId, q: Request) | Exec(r: ReqId, good: bool, x: Secret)

  function Become(s: State, r: ReqId, q: Request): State
  {
    s.(reqs := s.reqs[r := q])
  }

  function Step(s: State, r: ReqId, good: bool, x: Secret): (s': State)
    requires r in s.reqs
    ensures r in s'.reqs && s'.reqs == s.reqs[r := s'.reqs[r]]
  {
    match s.reqs[r]
    case SetupAsked => Become(s, r, if s.on then Finished(Refused) else SetupSeen)
    case SetupSeen => Become(s.(secret := Some(x), drawn := s.drawn + {x}), r, Finished(Done))
    case EnableAsked =>
      if s.on || s.secret.None? then Become(s, r, Finished(Refused))
      else if !good then Become(s, r, Finished(WrongCode))
      else Become(s.(proved := s.proved + {s.secret.value}), r, EnableSeen)
    case EnableSeen => Become(s.(on := true), r, Finished(Done))
    case DisableAsked =>
      if !s.on || s.secret.None? then Become(s, r, Finished(Refused))
      else if !good then Become(s, r, Finished(WrongCode))
      else Become(s, r, DisableSeen)
    case DisableSeen => Become(s.(secret := None, on := false), r, Finished(Done))
    case Finished(_) => s
  }

  predicate Enabled(s: State, e: Event)
  {
    match e
    case Arrive(r, q) => r !in s.reqs && (q.SetupAsked? || q.EnableAsked? || q.DisableAsked?)
    case Exec(r, _, x) => r in s.reqs && !s.reqs[r].Finished? && x !in s.drawn
  }

  function Next(s: State, e: Event): State
    requires Enabled(s, e)
  {
    match e
    case Arrive(r, q) => Become(s, r, q)
    case Exec(r, good, x) => Step(s, r, good, x)
  }

  datatype Trace = Trace(states: seq<State>, events: seq<Event>)

  ghost predicate Happens(tr: Trace, i: nat)
    requires i < |tr.events| < |tr.states|
  {
    Enabled(tr.states[i], tr.events[i]) && tr.states[i + 1] == Next(tr.states[i], tr.events[i])
  }

  ghost predicate Legal(tr: Trace)
  {
    && |tr.states| == |tr.events| + 1
    && forall i {:trigger Happens(tr, i)} | 0 <= i < |tr.events| :: Happens(tr, i)
  }

  const START := State(None, false, map[], {}, {})

  ghost predicate Reached(tr: Trace)
  {
    Legal(tr) && tr.states[0] == START
  }

  function Last(tr: Trace): State
    requires tr.states != []
  {
    tr.states[|tr.states| - 1]
  }

  lemma Extend(tr: Trace, e: Event) returns (longer: Trace)
    requires Legal(tr) && Enabled(Last(tr), e)
    ensures Legal(longer) && tr.states <= longer.states && tr.events <= longer.events
    ensures Last(longer) == Next(Last(tr), e)
  {
    longer := Trace(tr.states + [Next(Last(tr), e)], tr.events + [e]);
    forall i | 0 <= i < |longer.events| ensures Happens(longer, i)
    {
      if i < |tr.events| { assert Happens(tr, i); }
    }
  }

  // --- 2FA is on only with a proved secret ---

  predicate Proved(s: State)
  {
    s.secret.Some? && s.secret.value in s.proved
  }

  predicate Sound(s: State)
  {
    s.on ==> Proved(s)
  }

  /** The condition the two UPDATEs leave out: a setup writes with 2FA off, an enable with a proved secret in place. */
  predicate Timely(s: State, e: Event)
  {
    e.Exec? && e.r in s.reqs ==>
      && (s.reqs[e.r].SetupSeen? ==> !s.on)
      && (s.reqs[e.r].EnableSeen? ==> Proved(s))
  }

  /** Only secrets that were drawn are stored or proved. */
  predicate DrawnFirst(s: State)
  {
    s.proved <= s.drawn && (s.secret.Some? ==> s.secret.value in s.drawn)
  }

  lemma SoundStepIff(s: State, e: Event)
    requires Enabled(s, e) && DrawnFirst(s) && Sound(s)
    ensures DrawnFirst(Next(s, e)) && (Sound(Next(s, e)) <==> Timely(s, e))
  {
  }

  lemma {:induction false} AlwaysDrawnFirst(tr: Trace, i: nat)
    requires Reached(tr) && i < |tr.states|
    ensures DrawnFirst(tr.states[i])
  {
    if i > 0 {
      AlwaysDrawnFirst(tr, i - 1);
      assert Happens(tr, i - 1);
    }
  }

  lemma {:induction false} TimelyIsSound(tr: Trace, i: nat)
    requires Reached(tr) && i < |tr.states|
    requires forall k {:trigger tr.events[k]} | 0 <= k < i :: Timely(tr.states[k], tr.events[k])
    ensures Sound(tr.states[i])
  {
    if i > 0 {
      TimelyIsSound(tr, i - 1);
      AlwaysDrawnFirst(tr, i - 1);
      assert Happens(tr, i - 1) && Timely(tr.states[i - 1], tr.events[i - 1]);
      SoundStepIff(tr.states[i - 1], tr.events[i - 1]);
    }
  }

  /**
   In every interleaving: 2FA is on with a proved secret in every state of the run if and only
   if each setup wrote with 2FA off and each enable wrote with a proved secret in place.
   */
  lemma OnMeansProvedIff(tr: Trace)
    requires Reached(tr)
    ensures (forall i | 0 <= i < |tr.states| :: Sound(tr.states[i]))
       <==> (forall k {:trigger tr.events[k]} | 0 <= k < |tr.events| :: Timely(tr.states[k], tr.events[k]))
  {
    if forall k {:trigger tr.events[k]} | 0 <= k < |tr.events| :: Timely(tr.states[k], tr.events[k]) {
      forall i | 0 <= i < |tr.states| ensures Sound(tr.states[i]) { TimelyIsSound(tr, i); }
    }
    if forall i | 0 <= i < |tr.states| :: Sound(tr.states[i]) {
      forall k | 0 <= k < |tr.events| ensures Timely(tr.states[k], tr.events[k])
      {
        AlwaysDrawnFirst(tr, k);
        assert Happens(tr, k) && Sound(tr.states[k]) && Sound(tr.states[k + 1]);
        SoundStepIff(tr.states[k], tr.events[k]);
      }
    }
  }

  /** One request at a time: when a request moves, every other is finished. */
  predicate Solitary(s: State, e: Event)
  {
    e.Exec? ==> forall x | x in s.reqs && x != e.r :: s.reqs[x].Finished?
  }

  /** What a request alone in flight may rely on: the account is as it read it. */
  predicate AsRead(s: State, q: Request)
  {
    && (q.SetupSeen? ==> !s.on)
    && (q.EnableSeen? ==> Proved(s))
  }

  predicate AllAsRead(s: State)
  {
    forall x | x in s.reqs :: AsRead(s, s.reqs[x])
  }

  lemma SolitaryStep(s: State, e: Event)
    requires Enabled(s, e) && Solitary(s, e) && AllAsRead(s)
    ensures AllAsRead(Next(s, e)) && Timely(s, e)
  {
    if e.Exec? { assert AsRead(s, s.reqs[e.r]); }
  }

  lemma {:induction false} AlwaysAsRead(tr: Trace, i: nat)
    requires Reached(tr) && i < |tr.states|
    requires forall k {:trigger tr.events[k]} | 0 <= k < i :: Solitary(tr.states[k], tr.events[k])
    ensures AllAsRead(tr.states[i])
  {
    if i > 0 {
      AlwaysAsRead(tr, i - 1);
      assert Happens(tr, i - 1) && Solitary(tr.states[i - 1], tr.events[i - 1]);
      SolitaryStep(tr.states[i - 1], tr.events[i - 1]);
    }
  }

  /** With one request at a time the promise is kept. */
  lemma OneAtATimeIsSound(tr: Trace, i: nat)
    requires Reached(tr) && i < |tr.states|
    requires forall k {:trigger tr.events[k]} | 0 <= k < i :: Solitary(tr.states[k], tr.events[k])
    ensures Sound(tr.states[i])
  {
    forall k {:trigger tr.events[k]} | 0 <= k < i ensures Timely(tr.states[k], tr.events[k])
    {
      AlwaysAsRead(tr, k);
      assert Happens(tr, k) && Solitary(tr.states[k], tr.events[k]);
      SolitaryStep(tr.states[k], tr.events[k]);
    }
    TimelyIsSound(tr, i);
  }

  /** A setup overtaken by an enable: 2FA ends up on with secret 1, of which nobody ever showed a code. */
  lemma UnprovedSecretGoesLive() returns (tr: Trace)
    ensures Reached(tr)
    ensures var s := Last(tr); s.on && s.secret == Some(1) && 1 !in s.proved
  {
    tr := Trace([START], []);
    tr := Extend(tr, Arrive(1, SetupAsked));
    tr := Extend(tr, Exec(1, false, 0));
    tr := Extend(tr, Exec(1, false, 0));
    tr := Extend(tr, Arrive(2, SetupAsked));
    tr := Extend(tr, Exec(2, false, 1));
    tr := Extend(tr, Arrive(3, EnableAsked));
    tr := Extend(tr, Exec(3, true, 1));
    tr := Extend(tr, Exec(3, false, 1));
    tr := Extend(tr, Exec(2, false, 1));
  }

  // --- What each write rests on ---

  /** Request `r`, at event `k`, read the account and went on to write. */
  predicate ChecksAt(tr: Trace, k: nat, r: ReqId, asked: Request)
  {
    && k < |tr.events| < |tr.states| && tr.events[k].Exec? && tr.events[k].r == r
    && r in tr.states[k].reqs && tr.states[k].reqs[r] == asked
  }

  /** Who may go on: a setup with 2FA off, an enable or disable with a good code for the secret it read. */
  predicate GoesOn(s: State, e: Event, q: Request)
  {
    match q
    case SetupSeen => !s.on
    case EnableSeen => !s.on && s.secret.Some? && e.Exec? && e.good
    case DisableSeen => s.on && s.secret.Some? && e.Exec? && e.good
    case _ => false
  }

  function AskedFor(q: Request): Request
  {
    match q
    case SetupSeen => SetupAsked
    case EnableSeen => EnableAsked
    case _ => DisableAsked
  }

  lemma SeenComes(s: State, e: Event, r: ReqId)
    requires Enabled(s, e) && r in Next(s, e).reqs
    requires var q := Next(s, e).reqs[r]; q.SetupSeen? || q.EnableSeen? || q.DisableSeen?
    ensures var q := Next(s, e).reqs[r];
            && r in s.reqs
            && (s.reqs[r] == q || (e.Exec? && e.r == r && s.reqs[r] == AskedFor(q) && GoesOn(s, e, q)))
  {
  }

  /** Each write was preceded by its own check, which found what the source asks for. */
  lemma {:induction false} WriteWasChecked(tr: Trace, i: nat, r: ReqId) returns (k: nat)
    requires Reached(tr) && i < |tr.states| && r in tr.states[i].reqs
    requires var q := tr.states[i].reqs[r]; q.SetupSeen? || q.EnableSeen? || q.DisableSeen?
    ensures k < i && ChecksAt(tr, k, r, AskedFor(tr.states[i].reqs[r]))
    ensures GoesOn(tr.states[k], tr.events[k], tr.states[i].reqs[r])
  {
    assert i > 0;
    assert Happens(tr, i - 1);
    SeenComes(tr.states[i - 1], tr.events[i - 1], r);
    if tr.states[i - 1].reqs[r] == tr.states[i].reqs[r] { k := WriteWasChecked(tr, i - 1, r); } else { k := i - 1; }
  }

  lemma OffComes(s: State, e: Event)
    requires Enabled(s, e) && s.on && !Next(s, e).on
    ensures e.Exec? && s.reqs[e.r].DisableSeen?
  {
  }

  lemma OnComes(s: State, e: Event)
    requires Enabled(s, e) && !s.on && Next(s, e).on
    ensures e.Exec? && s.reqs[e.r].EnableSeen? && Next(s, e).secret == s.secret
  {
  }

  lemma SecretComes(s: State, e: Event)
    requires Enabled(s, e) && Next(s, e).secret != s.secret
    ensures e.Exec? && ((s.reqs[e.r].SetupSeen? && Next(s, e).secret == Some(e.x))
                        || (s.reqs[e.r].DisableSeen? && Next(s, e).secret == None && !Next(s, e).on))
  {
  }

  /** In any interleaving 2FA goes off only by a disable that gave a good code, with 2FA on, when it checked. */
  lemma OffNeedsCode(tr: Trace, i: nat) returns (k: nat)
    requires Reached(tr) && i < |tr.events| && tr.states[i].on && !tr.states[i + 1].on
    ensures tr.events[i].Exec? && k < i && ChecksAt(tr, k, tr.events[i].r, DisableAsked)
    ensures tr.states[k].on && tr.states[k].secret.Some? && tr.events[k].good
  {
    assert Happens(tr, i);
    OffComes(tr.states[i], tr.events[i]);
    k := WriteWasChecked(tr, i, tr.events[i].r);
  }

  /** It goes on only by an enable that gave a good code, with 2FA off, when it checked. */
  lemma OnNeedsCode(tr: Trace, i: nat) returns (k: nat)
    requires Reached(tr) && i < |tr.events| && !tr.states[i].on && tr.states[i + 1].on
    ensures tr.events[i].Exec? && k < i && ChecksAt(tr, k, tr.events[i].r, EnableAsked)
    ensures !tr.states[k].on && tr.states[k].secret.Some? && tr.events[k].good
  {
    assert Happens(tr, i);
    OnComes(tr.states[i], tr.events[i]);
    k := WriteWasChecked(tr, i, tr.events[i].r);
  }

  /** What a request does with no other statement in between: two statements when it may, one when it may not. */
  lemma SetupAlone(s: State, r: ReqId, x: Secret)
    requires r in s.reqs && s.reqs[r] == SetupAsked
    ensures var s1 := Step(s, r, false, x);
            if s.on then s1 == s.(reqs := s.reqs[r := Finished(Refused)])
            else var s2 := Step(s1, r, false, x);
                 s2 == s.(secret := Some(x), drawn := s.drawn + {x}, reqs := s.reqs[r := Finished(Done)])
  {
  }

  lemma EnableAlone(s: State, r: ReqId, good: bool, x: Secret)
    requires r in s.reqs && s.reqs[r] == EnableAsked
    ensures var s1 := Step(s, r, good, x);
            if s.on || s.secret.None? then s1 == s.(reqs := s.reqs[r := Finished(Refused)])
            else if !good then s1 == s.(reqs := s.reqs[r := Finished(WrongCode)])
            else var s2 := Step(s1, r, good, x);
                 s2 == s.(on := true, proved := s.proved + {s.secret.value}, reqs := s.reqs[r := Finished(Done)])
  {
  }

  lemma DisableAlone(s: State, r: ReqId, good: bool, x: Secret)
    requires r in s.reqs && s.reqs[r] == DisableAsked
    ensures var s1 := Step(s, r, good, x);
            if !s.on || s.secret.None? then s1 == s.(reqs := s.reqs[r := Finished(Refused)])
            else if !good then s1 == s.(reqs := s.reqs[r := Finished(WrongCode)])
            else var s2 := Step(s1, r, good, x);
                 s2 == s.(on := false, secret := None, reqs := s.reqs[r := Finished(Done)])
  {
  }

  // --- 2FA on without any secret ---

  /** No code can be right, and neither setup, enable nor disable will touch the account. */
  predicate LockedOut(s: State)
  {
    s.on && s.secret.None?
  }

  /** Two enables in flight, a disable between their writes. */
  lemma LockoutHappens() returns (tr: Trace)
    ensures Reached(tr) && LockedOut(Last(tr)) && forall x | x in Last(tr).reqs :: Last(tr).reqs[x].Finished?
  {
    tr := TwoEnables();
    tr := Extend(tr, Exec(2, false, 1));
    tr := Extend(tr, Arrive(4, DisableAsked));
    tr := Extend(tr, Exec(4, true, 1));
    tr := Extend(tr, Exec(4, false, 1));
    tr := Extend(tr, Exec(3, false, 1));
  }

  lemma TwoEnables() returns (tr: Trace)
    ensures Reached(tr)
    ensures Last(tr) == State(Some(0), false, map[1 := Finished(Done), 2 := EnableSeen, 3 := EnableSeen], {0}, {0})
  {
    tr := Trace([START], []);
    tr := Extend(tr, Arrive(1, SetupAsked));
    tr := Extend(tr, Exec(1, false, 0));
    tr := Extend(tr, Exec(1, false, 0));
    tr := Extend(tr, Arrive(2, EnableAsked));
    tr := Extend(tr, Arrive(3, EnableAsked));
    tr := Extend(tr, Exec(2, true, 1));
    tr := Extend(tr, Exec(3, true, 1));
  }

  /** A request past its check that will still write a secret or clear the flag. */
  predicate Rescues(q: Request)
  {
    q.SetupSeen? || q.DisableSeen?
  }

  lemma LockoutStep(s: State, e: Event)
    requires Enabled(s, e) && LockedOut(s) && forall x | x in s.reqs :: !Rescues(s.reqs[x])
    ensures LockedOut(Next(s, e)) && forall x | x in Next(s, e).reqs :: !Rescues(Next(s, e).reqs[x])
  {
  }

  lemma {:induction false} LockoutStays(tr: Trace, i: nat)
    requires Legal(tr) && i < |tr.states| && LockedOut(tr.states[0])
    requires forall x | x in tr.states[0].reqs :: !Rescues(tr.states[0].reqs[x])
    ensures LockedOut(tr.states[i]) && forall x | x in tr.states[i].reqs :: !Rescues(tr.states[i].reqs[x])
  {
    if i > 0 {
      LockoutStays(tr, i - 1);
      assert Happens(tr, i - 1);
      LockoutStep(tr.states[i - 1], tr.events[i - 1]);
    }
  }

  /**
   Locked out, an account is so for ever, whatever is asked of the service, unless a setup or
   a disable that checked it earlier has yet to write.
   */
  lemma LockoutIsFinalIff(s: State)
    requires LockedOut(s)
    ensures (exists tr :: Legal(tr) && tr.states[0] == s && !LockedOut(Last(tr)))
       <==> (exists r :: r in s.reqs && Rescues(s.reqs[r]))
  {
    if r :| r in s.reqs && Rescues(s.reqs[r]) {
      var x := FreshBeyond(s.drawn);
      var tr := Extend(Trace([s], []), Exec(r, false, x));
      assert tr.states[0] == s && !LockedOut(Last(tr));
    } else {
      forall tr | Legal(tr) && tr.states[0] == s ensures LockedOut(Last(tr))
      {
        LockoutStays(tr, |tr.states| - 1);
      }
    }
  }
}
