/**
 Access tokens under zero-downtime secret rotation. A signature verifies under the secret
 that made it and no other; times are in seconds, as in the tokens.
 */
module Jwt {
  import opened Base

  type Secret = string

  datatype Role = User | Admin

  datatype Payload = Payload(sub: string, role: Role)

  /** The claims as they arrive: any of them may be missing or of the wrong kind. */
  datatype Token = Token(signer: Secret, sub: Option<string>, role: Option<Role>, exp: Option<nat>)

  /** JWT_SECRET and JWT_SECRET_PREVIOUS; the empty string means "none". */
  datatype Env = Env(current: Secret, previous: Secret)

  function Sign(env: Env, p: Payload, now: nat, life: nat): Token
  {
    Token(env.current, Some(p.sub), Some(p.role), Some(now + life))
  }

  function Secrets(env: Env): seq<Secret>
  {
    (if env.current == "" then [] else [env.current]) + (if env.previous == "" then [] else [env.previous])
  }

  /** jwtVerify: the signature fits and the token has not expired. */
  predicate Accepts(secret: Secret, t: Token, now: nat)
  {
    t.signer == secret && (t.exp.Some? ==> now < t.exp.value)
  }

  function PayloadOf(t: Token): Option<Payload>
  {
    if t.sub.Some? && t.role.Some? then Some(Payload(t.sub.value, t.role.value)) else None
  }

  function TryEach(secrets: seq<Secret>, t: Token, now: nat): Option<Payload>
  {
    if secrets == [] then None
    else if Accepts(secrets[0], t, now) then PayloadOf(t)
    else TryEach(secrets[1..], t, now)
  }

  function Verify(env: Env, t: Token, now: nat): Option<Payload>
  {
    TryEach(Secrets(env), t, now)
  }

  lemma {:induction false} TryEachIff(secrets: seq<Secret>, t: Token, now: nat, p: Payload)
    ensures TryEach(secrets, t, now) == Some(p) <==>
            t.signer in secrets && Accepts(t.signer, t, now) && PayloadOf(t) == Some(p)
  {
    if secrets != [] && !Accepts(secrets[0], t, now) {
      TryEachIff(secrets[1..], t, now, p);
    }
  }

  /** A token is accepted exactly when one of the two secrets signed it, it is unexpired and it carries both claims. */
  lemma VerifyIff(env: Env, t: Token, now: nat, p: Payload)
    ensures Verify(env, t, now) == Some(p) <==>
            && t.signer != "" && (t.signer == env.current || t.signer == env.previous)
            && (t.exp.Some? ==> now < t.exp.value)
            && t.sub == Some(p.sub) && t.role == Some(p.role)
  {
    TryEachIff(Secrets(env), t, now, p);
  }

  lemma TryEachLate(secrets: seq<Secret>, t: Token, now: nat)
    requires t.exp.Some? && t.exp.value <= now
    ensures TryEach(secrets, t, now) == None
  {
  }

  /** A signed token is good for its lifetime from the moment it was signed, and no longer. */
  lemma SignedForALifetime(env: Env, p: Payload, at: nat, life: nat, now: nat)
    requires env.current != ""
    ensures Verify(env, Sign(env, p, at, life), now) == Some(p) <==> now < at + life
    ensures now >= at + life ==> Verify(env, Sign(env, p, at, life), now) == None
  {
    VerifyIff(env, Sign(env, p, at, life), now, p);
    if now >= at + life { TryEachLate(Secrets(env), Sign(env, p, at, life), now); }
  }

  // --- Rotation over time ---

  /** A token the service signed, for what and when. */
  datatype Issued = Issued(token: Token, payload: Payload, at: nat)

  datatype State = State(now: nat, env: Env, changedAt: Option<nat>, issued: set<Issued>)

  datatype Event = Tick(d: nat) | Issue(p: Payload) | Rotate(fresh_secret: Secret) | Drop

  /** Successive changes of the secrets are at least `gap` seconds apart. */
  predicate Enabled(gap: nat, s: State, e: Event)
  {
    && (e.Rotate? ==> e.fresh_secret != "")
    && (e.Rotate? || e.Drop? ==> s.changedAt.Some? ==> s.changedAt.value + gap <= s.now)
  }

  function Next(life: nat, s: State, e: Event): State
  {
    match e
    case Tick(d) => s.(now := s.now + d)
    case Issue(p) => s.(issued := s.issued + {Issued(Sign(s.env, p, s.now, life), p, s.now)})
    case Rotate(x) => s.(env := Env(x, s.env.current), changedAt := Some(s.now))
    case Drop => s.(env := s.env.(previous := ""), changedAt := Some(s.now))
  }

  predicate Initial(s: State)
  {
    s.env.current != "" && s.changedAt.None? && s.issued == {}
  }

  function Run(life: nat, s: State, es: seq<Event>): State
  {
    if es == [] then s else Next(life, Run(life, s, es[..|es| - 1]), es[|es| - 1])
  }

  predicate Legal(gap: nat, life: nat, s: State, es: seq<Event>)
  {
    es == [] || (Legal(gap, life, s, es[..|es| - 1]) && Enabled(gap, Run(life, s, es[..|es| - 1]), es[|es| - 1]))
  }

  /** Every token the service signed verifies to what it was signed for until its lifetime is over, and not after. */
  ghost predicate AllVerify(life: nat, s: State)
  {
    forall x | x in s.issued :: Verify(s.env, x.token, s.now) == (if s.now < x.at + life then Some(x.payload) else None)
  }

  /** What a token must be for that, between changes of the secrets. */
  predicate Good(life: nat, s: State, x: Issued)
  {
    && x.token.sub == Some(x.payload.sub) && x.token.role == Some(x.payload.role) && x.token.signer != ""
    && x.token.exp == Some(x.at + life) && x.at <= s.now
    && (s.changedAt.None? ==> x.token.signer == s.env.current)
    && (s.changedAt.Some? ==>
          || x.token.signer == s.env.current
          || (x.token.signer == s.env.previous && x.at <= s.changedAt.value)
          || x.at + life <= s.now)
  }

  /**
   Signed tokens are as signed; those not under the current secret are under the previous one
   and older than the change, or over.
   */
  ghost predicate Covered(life: nat, s: State)
  {
    && s.env.current != ""
    && (s.changedAt.Some? ==> s.changedAt.value <= s.now)
    && forall x | x in s.issued :: Good(life, s, x)
  }

  /**
   Rotating puts the secret in force second; dropping leaves the one in force alone. Neither
   touches what was signed.
   */
  lemma ChangeLaw(life: nat, s: State, x: Secret, t: Token, now: nat, p: Payload)
    requires x != ""
    ensures var r := Next(life, s, Rotate(x));
            && (Verify(r.env, t, now) == Some(p) <==>
                  && t.signer != "" && (t.signer == x || t.signer == s.env.current) &&
                     (t.exp.Some? ==> now < t.exp.value)
                  && t.sub == Some(p.sub) && t.role == Some(p.role))
            && r.issued == s.issued && r.now == s.now && r.changedAt == Some(s.now)
    ensures var d := Next(life, s, Drop);
            && (Verify(d.env, t, now) == Some(p) <==>
                  && t.signer != "" && t.signer == s.env.current && (t.exp.Some? ==> now < t.exp.value)
                  && t.sub == Some(p.sub) && t.role == Some(p.role))
            && d.issued == s.issued && d.now == s.now && d.changedAt == Some(s.now)
  {
    VerifyIff(Next(life, s, Rotate(x)).env, t, now, p);
    VerifyIff(Next(life, s, Drop).env, t, now, p);
  }

  lemma CoveredStep(gap: nat, life: nat, s: State, e: Event)
    requires Covered(life, s) && Enabled(gap, s, e) && gap >= life
    ensures Covered(life, Next(life, s, e))
  {
    forall x | x in s.issued ensures Good(life, Next(life, s, e), x) { assert Good(life, s, x); }
  }

  lemma CoveredVerify(life: nat, s: State)
    requires Covered(life, s)
    ensures AllVerify(life, s)
  {
    forall x | x in s.issued
      ensures Verify(s.env, x.token, s.now) == (if s.now < x.at + life then Some(x.payload) else None)
    {
      assert Good(life, s, x);
      VerifyIff(s.env, x.token, s.now, x.payload);
      if s.now >= x.at + life { TryEachLate(Secrets(s.env), x.token, s.now); }
    }
  }

  lemma {:induction false} RunCovered(gap: nat, life: nat, s: State, es: seq<Event>)
    requires Initial(s) && Legal(gap, life, s, es) && gap >= life
    ensures Covered(life, Run(life, s, es))
  {
    if es != [] {
      RunCovered(gap, life, s, es[..|es| - 1]);
      CoveredStep(gap, life, Run(life, s, es[..|es| - 1]), es[|es| - 1]);
    }
  }

  /** In no run with this gap does a rotation cost a token before its time. */
  ghost predicate ZeroDowntime(gap: nat, life: nat)
  {
    forall s: State, es: seq<Event> | Initial(s) && Legal(gap, life, s, es) :: AllVerify(life, Run(life, s, es))
  }

  lemma UnrollLegal(gap: nat, life: nat, s: State, es: seq<Event>, e: Event)
    requires Legal(gap, life, s, es) && Enabled(gap, Run(life, s, es), e)
    ensures Legal(gap, life, s, es + [e]) && Run(life, s, es + [e]) == Next(life, Run(life, s, es), e)
  {
    assert (es + [e])[..|es + [e]| - 1] == es;
  }

  /** Two rotations less than a lifetime apart orphan a token issued before the first. */
  lemma HastyRotationOrphans(gap: nat, life: nat)
    requires gap < life
    ensures !ZeroDowntime(gap, life)
  {
    var s := State(0, Env("first-secret-0123456789", ""), None, {});
    var p := Payload("u", User);
    var t := Sign(s.env, p, 0, life);
    UnrollLegal(gap, life, s, [], Issue(p));
    UnrollLegal(gap, life, s, [Issue(p)], Rotate("second-secret-0123456789"));
    var e2 := [Issue(p)] + [Rotate("second-secret-0123456789")];
    UnrollLegal(gap, life, s, e2, Tick(gap));
    UnrollLegal(gap, life, s, e2 + [Tick(gap)], Rotate("third-secret-0123456789"));
    var es := e2 + [Tick(gap)] + [Rotate("third-secret-0123456789")];
    var end := Run(life, s, es);
    assert [] + [Issue(p)] == [Issue(p)];
    assert Issued(t, p, 0) in end.issued && end.env == Env("third-secret-0123456789", "second-secret-0123456789") &&
           end.now == gap;
    VerifyIff(end.env, t, end.now, p);
    assert t.signer[0] == 'f' && end.env.current[0] == 't' && end.env.previous[0] == 's';
    assert !AllVerify(life, end);
  }

  /** Rotation costs no token exactly when changes of the secrets are a token lifetime apart. */
  lemma ZeroDowntimeIff(gap: nat, life: nat)
    ensures ZeroDowntime(gap, life) <==> gap >= life
  {
    if gap >= life {
      forall s: State, es: seq<Event> | Initial(s) && Legal(gap, life, s, es) ensures AllVerify(life, Run(life, s, es))
      {
        RunCovered(gap, life, s, es);
        CoveredVerify(life, Run(life, s, es));
      }
    } else {
      HastyRotationOrphans(gap, life);
    }
  }
}
