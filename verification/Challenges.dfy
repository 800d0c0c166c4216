/**
 Login challenges over whole runs of `Rotation`: what is counted against one, what spends it,
 and exactly when an answer to it is accepted.
 */
module Challenges {
  import opened Base
  import opened Tables
  import opened Rotation
  import opened RotationInvariant
  import opened RotationClaims
  import opened Authority

  /** Event `i` is an answer to challenge `c`, by request `r`, with or without a good code. */
  predicate AnswersAt(tr: Trace, i: nat, r: ReqId, c: nat, good: bool)
  {
    && i < |tr.events| < |tr.states| && tr.events[i].Exec? && tr.events[i].r == r && (good <==> tr.events[i].n == 1)
    && r in tr.states[i].reqs && tr.states[i].reqs[r] == CodeAsked(c)
  }

  /** It is accepted. */
  predicate AcceptedAt(tr: Trace, i: nat, c: nat)
  {
    && i < |tr.events| < |tr.states| && tr.events[i].Exec? && tr.events[i].r in tr.states[i].reqs
    && tr.states[i].reqs[tr.events[i].r] == CodeAsked(c)
    && tr.events[i].r in tr.states[i + 1].reqs && tr.states[i + 1].reqs[tr.events[i].r].Authenticated?
  }

  /** It finds the challenge there, unspent, in its lifetime and answered fewer than five times. */
  predicate CountedAt(tr: Trace, i: nat, c: nat)
  {
    && i < |tr.events| < |tr.states| && tr.events[i].Exec? && tr.events[i].r in tr.states[i].reqs
    && tr.states[i].reqs[tr.events[i].r] == CodeAsked(c)
    && c in tr.states[i].challenges && tr.states[i].challenges[c].spentBy.None?
    && tr.states[i].now < tr.states[i].challenges[c].expires && tr.states[i].challenges[c].answers < 5
  }

  /** How many such answers were given before event `i`. */
  function AnswersTo(tr: Trace, i: nat, c: nat): nat
  {
    if i == 0 then 0 else AnswersTo(tr, i - 1, c) + (if CountedAt(tr, i - 1, c) then 1 else 0)
  }

  /** An answer touches its own challenge alone, and of it only the count and the spender. */
  lemma AnswerTouchesOne(s: State, r: ReqId, c: nat, verdict: nat)
    ensures var s' := AnswerChallenge(s, r, c, verdict);
            && s'.challenges.Keys == s.challenges.Keys
            && (forall d | d in s.challenges && d != c :: s'.challenges[d] == s.challenges[d])
            && (c in s.challenges ==>
                   s'.challenges[c] ==
                   s.challenges[c].(answers := s'.challenges[c].answers, spentBy := s'.challenges[c].spentBy))
  {
  }

  /** What one event does to a challenge that is there. */
  lemma ChallengeEvent(tr: Trace, i: nat, c: nat)
    requires Legal(tr) && i < |tr.events| && c in tr.states[i].challenges
    ensures c in tr.states[i + 1].challenges
    ensures var ch, ch' := tr.states[i].challenges[c], tr.states[i + 1].challenges[c];
            && ch'.answers == ch.answers + (if CountedAt(tr, i, c) then 1 else 0)
            && ch'.spentBy == (if AcceptedAt(tr, i, c) then Some(tr.events[i].r) else ch.spentBy)
            && ch' == ch.(answers := ch'.answers, spentBy := ch'.spentBy)
  {
    var s, e := tr.states[i], tr.events[i];
    assert Happens(tr, i);
    if e.Exec? && s.reqs[e.r].CodeAsked? {
      AnswerTouchesOne(s, e.r, s.reqs[e.r].challenge, e.n);
    } else if e.Exec? && s.reqs[e.r].Granting? {
      assert Next(s, e) == Grant(s, e.r, s.reqs[e.r], e.n);
    } else {
      SameChallenges(s, e);
    }
  }

  lemma NoneBeforeGrant(tr: Trace, i: nat, c: nat)
    requires Legal(tr) && i < |tr.events| && c !in tr.states[i + 1].challenges
    ensures c !in tr.states[i].challenges && !CountedAt(tr, i, c) && !AcceptedAt(tr, i, c)
  {
    if c in tr.states[i].challenges { ChallengeEvent(tr, i, c); }
    assert Happens(tr, i);
  }

  /** A challenge that was not there before the event is fresh after it. */
  lemma GrantEvent(tr: Trace, i: nat, c: nat)
    requires Legal(tr) && i < |tr.events| && c !in tr.states[i].challenges && c in tr.states[i + 1].challenges
    ensures tr.events[i].Exec? && tr.events[i].r in tr.states[i].reqs && tr.states[i].reqs[tr.events[i].r].Granting?
    ensures var q := tr.states[i].reqs[tr.events[i].r];
            tr.states[i + 1].challenges[c] ==
              Challenge(q.user, q.epoch, tr.states[i].now + 300_000, 0, tr.events[i].r, None)
    ensures !CountedAt(tr, i, c) && !AcceptedAt(tr, i, c)
  {
    assert Happens(tr, i);
    ChallengesCome(tr.states[i], tr.events[i], c);
  }

  /**
   What has been said of a challenge so far: its count is of answers to it alone, and it is
   spent if one was accepted.
   */
  ghost predicate Told(tr: Trace, i: nat, c: nat)
    requires i < |tr.states|
  {
    && AnswersTo(tr, i, c) <= 5
    && (c in tr.states[i].challenges ==>
          && tr.states[i].challenges[c].answers == AnswersTo(tr, i, c)
          && (tr.states[i].challenges[c].spentBy.Some? <==> exists j :: 0 <= j < i && AcceptedAt(tr, j, c)))
    && (c !in tr.states[i].challenges ==> AnswersTo(tr, i, c) == 0 && forall j | 0 <= j < i :: !AcceptedAt(tr, j, c))
  }

  lemma ToldNext(tr: Trace, i: nat, c: nat)
    requires Legal(tr) && i < |tr.events| && Told(tr, i, c)
    ensures Told(tr, i + 1, c)
  {
    if c in tr.states[i].challenges { ChallengeEvent(tr, i, c); }
    else if c in tr.states[i + 1].challenges { GrantEvent(tr, i, c); }
    else { NoneBeforeGrant(tr, i, c); }
    assert (exists j :: 0 <= j < i + 1 && AcceptedAt(tr, j, c)) <==>
           (exists j :: 0 <= j < i && AcceptedAt(tr, j, c)) || AcceptedAt(tr, i, c);
  }

  /** In every state of every run the answers of a challenge are those given to it while it was open, five at most. */
  lemma {:induction false} AnswersAreCounted(tr: Trace, i: nat, c: nat)
    requires Reached(tr) && i < |tr.states|
    ensures Told(tr, i, c)
  {
    if i > 0 {
      AnswersAreCounted(tr, i - 1, c);
      ToldNext(tr, i - 1, c);
    }
  }

  /** Each challenge was granted by some event, for the account and password its grantor had checked, for 300 s. */
  lemma {:induction false} GrantOf(tr: Trace, i: nat, c: nat) returns (g: nat)
    requires Reached(tr) && i < |tr.states| && c in tr.states[i].challenges
    ensures g < i && tr.events[g].Exec? && tr.events[g].r in tr.states[g].reqs &&
            tr.states[g].reqs[tr.events[g].r].Granting?
    ensures c !in tr.states[g].challenges && tr.states[i].challenges[c].expires == tr.states[g].now + 300_000
    ensures tr.states[i].challenges[c].user == tr.states[g].reqs[tr.events[g].r].user
    ensures tr.states[i].challenges[c].epoch == tr.states[g].reqs[tr.events[g].r].epoch
  {
    assert i > 0;
    if c in tr.states[i - 1].challenges {
      g := GrantOf(tr, i - 1, c);
      ChallengeEvent(tr, i - 1, c);
    } else {
      g := i - 1;
      GrantEvent(tr, i - 1, c);
    }
  }

  /**
   In any interleaving an answer is accepted if and only if its code is good, its challenge was
   granted, less than 300 s ago, to an account that is now active with 2FA on, no answer to it
   was accepted before, and fewer than five were given to it while it was open. Otherwise it
   is refused. Answers to other challenges have no part in it.
   */
  lemma AnswerAcceptedIff(tr: Trace, i: nat, r: ReqId, c: nat, good: bool)
    requires Reached(tr) && AnswersAt(tr, i, r, c, good)
    ensures var s := tr.states[i];
            AcceptedAt(tr, i, c) <==>
            && good && c in s.challenges && s.now < s.challenges[c].expires
            && (forall j | 0 <= j < i :: !AcceptedAt(tr, j, c)) && AnswersTo(tr, i, c) < 5
            && s.challenges[c].user in s.users && s.users[s.challenges[c].user].deletedAt.None?
            && s.users[s.challenges[c].user].mfa
    ensures r in tr.states[i + 1].reqs
    ensures !AcceptedAt(tr, i, c) ==> tr.states[i + 1].reqs[r] == Finished(Unauthorized)
    ensures AcceptedAt(tr, i, c) ==>
              tr.states[i + 1].reqs[r] ==
                Authenticated(tr.states[i].challenges[c].user, tr.states[i].challenges[c].epoch)
  {
    AnswersAreCounted(tr, i, c);
    assert Happens(tr, i);
    assert tr.states[i + 1] == AnswerChallenge(tr.states[i], r, c, tr.events[i].n);
  }
}
