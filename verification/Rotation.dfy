/**
 Refresh-token rotation as an interleaved protocol.

 Every SQL statement is one atomic step; a request is a program counter with its locals,
 and any number of requests are in flight at once. The claiming UPDATE and the `now` it
 compares with are one step. Time passes between steps, never backwards.

 Token strings, family ids and user ids are fresh when drawn, and a token is presented
 only after its row was inserted; strings that were never issued may be presented freely.
 */
module Rotation {
  import opened Base
  import opened Tables

  type ReqId = nat

  datatype Outcome =
    | Issued(token: Token)
    | Unauthorized
    | Conflict
    | ChallengeSent
    | LoggedOut
    | Removed
    | NotFound
    | PasswordChanged
    | Swept

  /** What a request does next, with the locals it carries. */
  datatype Request =
    // POST /auth/refresh
    | Presented(token: Token)                                   // the claiming UPDATE
    | ClaimFailed(token: Token, at: Time)                       // the SELECT that finds out why
    | ReuseSeen(token: Token, family: FamilyId)                 // the DELETE of the family
    | ExpiredSeen(token: Token)                                 // the DELETE of the row
    | Claimed(user: UserId, family: FamilyId, parent: Option<Token>)   // findById
    // issueTokens
    | Issuing(user: UserId, family: FamilyId, parent: Option<Token>)   // draw the token, read the clock
    | Storing(user: UserId, family: FamilyId, parent: Option<Token>, token: Token, expires: Time)  // the INSERT
    // POST /auth/login, /auth/2fa/verify, /auth/register
    | LoginAsked(email: Email, password: Password)
    | Granting(user: UserId, epoch: nat)                        // 2FA is on: write the challenge
    | CodeAsked(challenge: nat)
    | RegisterAsked(email: Email, password: Password)           // the pre-check SELECT
    | RegisterChecked(email: Email, password: Password)         // the INSERT
    | Authenticated(user: UserId, epoch: nat)                   // draw a family id
    // POST /auth/logout
    | LogoutAsked(token: Token)
    | LogoutSeen(family: FamilyId)
    // DELETE /users/:id, POST /auth/password/reset, the token-cleanup job
    | RemoveAsked(user: UserId)
    | ResetAsked(user: UserId, password: Password)
    | Revoking(user: UserId, outcome: Outcome)
    | SweepAsked(at: Time)
    | Finished(outcome: Outcome)

  /** History of one family: who it belongs to, who rooted it, and every token inserted, in order. */
  datatype Lineage = Lineage(user: UserId, epoch: nat, root: ReqId, chain: seq<Token>)

  /** History of one inserted token. */
  datatype Birth = Birth(family: FamilyId, pos: nat, parent: Option<Token>, expires: Time)

  /**
   A login challenge with its history. Its keys are there until they expire, an answer
   passes, or a sixth answer deletes them; the sixth is refused like all after it, so it
   needs no mark.
   */
  datatype Challenge = Challenge(user: UserId, epoch: nat, expires: Time, answers: nat, grantedBy: ReqId,
                                 spentBy: Option<ReqId>)

  /** The challenge can still be answered. */
  predicate Open(challenges: map<nat, Challenge>, c: nat, now: Time)
  {
    c in challenges && challenges[c].spentBy.None? && now < challenges[c].expires &&
      challenges[c].answers < CHALLENGE_ANSWERS
  }

  /** What has happened so far; the service never reads it. */
  datatype Ledger = Ledger(
    minted: map<Token, ReqId>,         // who drew each token
    presented: set<Token>,             // every string ever presented
    fams: map<FamilyId, Lineage>,
    born: map<Token, Birth>,           // every token ever inserted
    claimant: map<Token, ReqId>)       // who claimed each token

  datatype State = State(
    now: Time,
    life: Time,                        // REFRESH_MS
    rows: TokenTable,
    users: UserTable,
    challenges: map<nat, Challenge>,
    reqs: map<ReqId, Request>,
    h: Ledger)

  datatype Event =
    | Tick(d: nat)
    | Arrive(r: ReqId, q: Request)
    | Exec(r: ReqId, n: nat)           // n: the fresh value drawn, or the verdict on a TOTP code
    | SetMfa(u: UserId, on: bool)

  /** The request is entitled to insert the next token of its family: it holds the baton. */
  predicate HasBaton(q: Request)
  {
    q.Claimed? || q.Issuing? || q.Storing?
  }

  predicate Opening(s: State, q: Request)
  {
    match q
    case Presented(t) => t in s.h.minted ==> t in s.h.born
    case LogoutAsked(t) => t in s.h.minted ==> t in s.h.born
    case LoginAsked(_, _) => true
    case CodeAsked(_) => true
    case RegisterAsked(_, _) => true
    case RemoveAsked(_) => true
    case ResetAsked(u, _) => u in s.users
    case SweepAsked(at) => at == s.now
    case _ => false
  }

  ghost predicate Enabled(s: State, e: Event)
  {
    match e
    case Tick(_) => true
    case Arrive(r, q) => r !in s.reqs && Opening(s, q)
    case SetMfa(u, _) => u in s.users
    case Exec(r, n) =>
      && r in s.reqs
      && match s.reqs[r]
         case Issuing(_, _, _) => n !in s.h.minted && n !in s.h.presented
         case Authenticated(_, _) => n !in s.h.fams
         case RegisterChecked(_, _) => n !in s.users
         case Granting(_, _) => n !in s.challenges
         case Finished(_) => false
         case _ => true
  }

  // The statements of a request, one function each.

  function Become(s: State, r: ReqId, q: Request): State
  {
    s.(reqs := s.reqs[r := q])
  }

  function Claim(s: State, r: ReqId, t: Token): State
  {
    if Claimable(s.rows, t, s.now) then
      Become(s.(rows := MarkUsed(s.rows, t, s.now), h := s.h.(claimant := s.h.claimant[t := r])),
             r, Claimed(s.rows[t].user, s.rows[t].family, Some(t)))
    else
      Become(s, r, ClaimFailed(t, s.now))
  }

  function Diagnose(s: State, r: ReqId, t: Token): State
  {
    if t !in s.rows then Become(s, r, Finished(Unauthorized))
    else if s.rows[t].usedAt.Some? then Become(s, r, ReuseSeen(t, s.rows[t].family))
    else Become(s, r, ExpiredSeen(t))
  }

  function LookUpUser(s: State, r: ReqId, q: Request): State
    requires q.Claimed?
  {
    if Active(s.users, q.user) then Become(s, r, Issuing(q.user, q.family, q.parent))
    else Become(s, r, Finished(Unauthorized))
  }

  function Mint(s: State, r: ReqId, q: Request, t: Token): State
    requires q.Issuing?
  {
    Become(s.(h := s.h.(minted := s.h.minted[t := r])), r, Storing(q.user, q.family, q.parent, t, s.now + s.life))
  }

  function Grow(fams: map<FamilyId, Lineage>, f: FamilyId, t: Token): map<FamilyId, Lineage>
  {
    if f in fams then fams[f := fams[f].(chain := fams[f].chain + [t])] else fams
  }

  function Insert(s: State, r: ReqId, q: Request): State
    requires q.Storing?
  {
    var pos := if q.family in s.h.fams then |s.h.fams[q.family].chain| else 0;
    Become(s.(rows := s.rows[q.token := Row(q.user, q.family, None, q.expires)],
              h := s.h.(fams := Grow(s.h.fams, q.family, q.token),
                        born := s.h.born[q.token := Birth(q.family, pos, q.parent, q.expires)])),
           r, Finished(Issued(q.token)))
  }

  ghost function LogIn(s: State, r: ReqId, e: Email, p: Password): State
  {
    match FindByEmail(s.users, e)
    case None => Become(s, r, Finished(Unauthorized))
    case Some(u) =>
      if s.users[u].password != p then Become(s, r, Finished(Unauthorized))
      else if s.users[u].mfa then Become(s, r, Granting(u, s.users[u].epoch))
      else Become(s, r, Authenticated(u, s.users[u].epoch))
  }

  function Grant(s: State, r: ReqId, q: Request, c: nat): State
    requires q.Granting?
  {
    Become(s.(challenges := s.challenges[c := Challenge(q.user, q.epoch, s.now + CHALLENGE_LIFE, 0, r, None)]), r,
           Finished(ChallengeSent))
  }

  function AnswerChallenge(s: State, r: ReqId, c: nat, verdict: nat): State
  {
    if !Open(s.challenges, c, s.now) then Become(s, r, Finished(Unauthorized))
    else
      var ch := s.challenges[c].(answers := s.challenges[c].answers + 1);
      if Active(s.users, ch.user) && s.users[ch.user].mfa && verdict == 1 then
        Become(s.(challenges := s.challenges[c := ch.(spentBy := Some(r))]), r, Authenticated(ch.user, ch.epoch))
      else
        Become(s.(challenges := s.challenges[c := ch]), r, Finished(Unauthorized))
  }

  function CheckAddress(s: State, r: ReqId, e: Email, p: Password): State
  {
    if EmailHolders(s.users, e) != {} then Become(s, r, Finished(Conflict))
    else Become(s, r, RegisterChecked(e, p))
  }

  function InsertUser(s: State, r: ReqId, e: Email, p: Password, u: UserId): State
  {
    if EmailHolders(s.users, e) != {} then Become(s, r, Finished(Conflict))
    else Become(s.(users := s.users[u := User(e, p, false, None, 0)]), r, Authenticated(u, 0))
  }

  function StartFamily(s: State, r: ReqId, q: Request, f: FamilyId): State
    requires q.Authenticated?
  {
    Become(s.(h := s.h.(fams := s.h.fams[f := Lineage(q.user, q.epoch, r, [])])), r, Issuing(q.user, f, None))
  }

  function FindFamily(s: State, r: ReqId, t: Token): State
  {
    if t in s.rows then Become(s, r, LogoutSeen(s.rows[t].family)) else Become(s, r, Finished(LoggedOut))
  }

  function MarkDeleted(s: State, r: ReqId, u: UserId): State
  {
    if Active(s.users, u) then
      Become(s.(users := s.users[u := s.users[u].(deletedAt := Some(s.now))]), r, Revoking(u, Removed))
    else Become(s, r, Finished(NotFound))
  }

  function UpdatePassword(s: State, r: ReqId, u: UserId, p: Password): State
  {
    if u in s.users then
      Become(s.(users := s.users[u := s.users[u].(password := p, epoch := s.users[u].epoch + 1)]),
             r, Revoking(u, PasswordChanged))
    else Become(s, r, Revoking(u, PasswordChanged))
  }

  function DeleteRows(s: State, r: ReqId, left: TokenTable, o: Outcome): State
  {
    Become(s.(rows := left), r, Finished(o))
  }

  /** The statements that move a family along. */
  function Rotate(s: State, r: ReqId, n: nat): (s': State)
    requires r in s.reqs && (s.reqs[r].Presented? || s.reqs[r].Authenticated? || HasBaton(s.reqs[r]))
    ensures r in s'.reqs && s'.reqs == s.reqs[r := s'.reqs[r]]
  {
    var q := s.reqs[r];
    match q
    case Presented(t) => Claim(s, r, t)
    case Claimed(_, _, _) => LookUpUser(s, r, q)
    case Issuing(_, _, _) => Mint(s, r, q, n)
    case Storing(_, _, _, _, _) => Insert(s, r, q)
    case Authenticated(_, _) => StartFamily(s, r, q, n)
  }

  /** The request is about to read or change an account or a challenge. */
  predicate OnAccounts(q: Request)
  {
    q.LoginAsked? || q.Granting? || q.CodeAsked? || q.RegisterAsked? || q.RegisterChecked? || q.RemoveAsked? ||
      q.ResetAsked?
  }

  /** Statements on accounts and challenges: they touch no row. */
  ghost function ServeAccounts(s: State, r: ReqId, n: nat): (s': State)
    requires r in s.reqs && OnAccounts(s.reqs[r])
    ensures r in s'.reqs && s'.reqs == s.reqs[r := s'.reqs[r]]
    ensures s' == s.(users := s'.users, challenges := s'.challenges, reqs := s'.reqs)
  {
    match s.reqs[r]
    case LoginAsked(e, p) => LogIn(s, r, e, p)
    case Granting(_, _) => Grant(s, r, s.reqs[r], n)
    case CodeAsked(c) => AnswerChallenge(s, r, c, n)
    case RegisterAsked(e, p) => CheckAddress(s, r, e, p)
    case RegisterChecked(e, p) => InsertUser(s, r, e, p, n)
    case RemoveAsked(u) => MarkDeleted(s, r, u)
    case ResetAsked(u, p) => UpdatePassword(s, r, u, p)
  }

  /** Statements that find or delete rows: they touch nothing else. */
  function ServeRows(s: State, r: ReqId): (s': State)
    requires r in s.reqs && !OnAccounts(s.reqs[r])
    requires !s.reqs[r].Presented? && !s.reqs[r].Authenticated? && !HasBaton(s.reqs[r])
    ensures r in s'.reqs && s'.reqs == s.reqs[r := s'.reqs[r]]
    ensures s' == s.(rows := s'.rows, reqs := s'.reqs)
  {
    match s.reqs[r]
    case ClaimFailed(t, _) => Diagnose(s, r, t)
    case ReuseSeen(_, f) => DeleteRows(s, r, DeleteFamily(s.rows, f), Unauthorized)
    case ExpiredSeen(t) => DeleteRows(s, r, s.rows - {t}, Unauthorized)
    case LogoutAsked(t) => FindFamily(s, r, t)
    case LogoutSeen(f) => DeleteRows(s, r, DeleteFamily(s.rows, f), LoggedOut)
    case Revoking(u, o) => DeleteRows(s, r, DeleteUserRows(s.rows, u), o)
    case SweepAsked(at) => DeleteRows(s, r, DeleteExpired(s.rows, at), Swept)
    case Finished(_) => s
  }

  /** All statements but those that move a family along: they issue nothing. */
  ghost function Serve(s: State, r: ReqId, n: nat): (s': State)
    requires r in s.reqs && !s.reqs[r].Presented? && !s.reqs[r].Authenticated? && !HasBaton(s.reqs[r])
    ensures r in s'.reqs && s'.reqs == s.reqs[r := s'.reqs[r]]
    ensures s'.h == s.h && s'.now == s.now && s'.life == s.life
  {
    if OnAccounts(s.reqs[r]) then ServeAccounts(s, r, n) else ServeRows(s, r)
  }

  lemma ServeStartsNothing(s: State, r: ReqId, n: nat)
    requires r in s.reqs && !s.reqs[r].Presented? && !s.reqs[r].Authenticated? && !HasBaton(s.reqs[r])
    ensures var q' := Serve(s, r, n).reqs[r]; !HasBaton(q') && !q'.Presented? && !q'.ClaimFailed?
  {
    if !OnAccounts(s.reqs[r]) { ServeRowsStartsNothing(s, r); }
  }

  lemma ServeRowsStartsNothing(s: State, r: ReqId)
    requires r in s.reqs && !OnAccounts(s.reqs[r])
    requires !s.reqs[r].Presented? && !s.reqs[r].Authenticated? && !HasBaton(s.reqs[r])
    ensures var q' := ServeRows(s, r).reqs[r]; q'.ReuseSeen? || q'.ExpiredSeen? || q'.LogoutSeen? || q'.Finished?
  {
  }

  /** The next statement of request `r`; no other request moves. */
  ghost function Step(s: State, r: ReqId, n: nat): (s': State)
    requires r in s.reqs
    ensures r in s'.reqs && s'.reqs == s.reqs[r := s'.reqs[r]]
  {
    if s.reqs[r].Presented? || s.reqs[r].Authenticated? || HasBaton(s.reqs[r]) then Rotate(s, r, n) else Serve(s, r, n)
  }

  function Admit(s: State, r: ReqId, q: Request): State
  {
    Become(if q.Presented? || q.LogoutAsked? then s.(h := s.h.(presented := s.h.presented + {q.token})) else s, r, q)
  }

  ghost function Next(s: State, e: Event): State
    requires Enabled(s, e)
  {
    match e
    case Tick(d) => s.(now := s.now + d)
    case Arrive(r, q) => Admit(s, r, q)
    case Exec(r, n) => Step(s, r, n)
    case SetMfa(u, on) => s.(users := s.users[u := s.users[u].(mfa := on)])
  }

  predicate Initial(s: State)
  {
    && s.rows == map[] && s.users == map[] && s.challenges == map[] && s.reqs == map[]
    && s.h.minted == map[] && s.h.presented == {} && s.h.fams == map[] && s.h.born == map[] && s.h.claimant == map[]
  }

  /** A run: the events and every state they pass through. */
  datatype Trace = Trace(states: seq<State>, events: seq<Event>)

  function Last(tr: Trace): State
    requires tr.states != []
  {
    tr.states[|tr.states| - 1]
  }

  /** Event `i` may happen where it stands, and leads where it should. */
  ghost predicate Happens(tr: Trace, i: nat)
    requires i < |tr.events| < |tr.states|
  {
    Enabled(tr.states[i], tr.events[i]) && tr.states[i + 1] == Next(tr.states[i], tr.events[i])
  }

  ghost predicate Legal(tr: Trace)
  {
    && |tr.states| == |tr.events| + 1
    && forall i {:trigger Happens(tr, i)} | 0 <= i < |tr.events| :: Happens(tr, i)
  }

  /** A run of the service from its empty tables. */
  ghost predicate Reached(tr: Trace)
  {
    Legal(tr) && Initial(tr.states[0])
  }
}
