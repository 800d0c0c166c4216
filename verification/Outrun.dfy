/**
 A run in which reuse is detected and the family burned, and yet the family lives on: one
 account, one session, the same token presented by two requests at once.
 */
module Outrun {
  import opened Base
  import opened Tables
  import opened Rotation
  import opened FamilyLife

  lemma Extend(tr: Trace, e: Event) returns (longer: Trace)
    requires Reached(tr) && Enabled(Last(tr), e)
    ensures Reached(longer) && longer.events == tr.events + [e]
    ensures |longer.states| == |tr.states| + 1 && longer.states[..|tr.states|] == tr.states
    ensures longer.states[|tr.states|] == Next(Last(tr), e)
  {
    longer := Trace(tr.states + [Next(Last(tr), e)], tr.events + [e]);
    forall i | 0 <= i < |longer.events|
      ensures Happens(longer, i)
    {
      if i < |tr.events| { assert Happens(tr, i); }
    }
  }

  const LIFE: Time := 604_800_000

  /** Request 1 asks to register an address that is free. */
  lemma OneRegistration() returns (tr: Trace)
    ensures Reached(tr)
    ensures Last(tr) == State(0, LIFE, map[], map[], map[], map[1 := RegisterChecked("a@b", "pw")],
                              Ledger(map[], {}, map[], map[], map[]))
  {
    var s0 := State(0, LIFE, map[], map[], map[], map[], Ledger(map[], {}, map[], map[], map[]));
    tr := Trace([s0], []);
    tr := Extend(tr, Arrive(1, RegisterAsked("a@b", "pw")));
    assert EmailHolders(s0.users, "a@b") == {};
    tr := Extend(tr, Exec(1, 0));
  }

  /** It becomes account 0. */
  lemma OneAccount() returns (tr: Trace)
    ensures Reached(tr)
    ensures var s := Last(tr);
            && s.now == 0 && s.life == LIFE && s.rows == map[] && Active(s.users, 0)
            && s.reqs == map[1 := Authenticated(0, 0)] && s.h == Ledger(map[], {}, map[], map[], map[])
            && s.users.Keys == {0} && s.users[0].epoch == 0 && s.challenges == map[]
  {
    tr := OneRegistration();
    assert EmailHolders(Last(tr).users, "a@b") == {};
    tr := Extend(tr, Exec(1, 0));
  }

  /** It roots family 0 and stores the unused token 0. */
  lemma OneSession() returns (tr: Trace)
    ensures Reached(tr)
    ensures var s := Last(tr);
            && s.rows == map[0 := Row(0, 0, None, LIFE)] && s.now == 0 && s.life == LIFE
            && s.reqs == map[1 := Finished(Issued(0))] && Active(s.users, 0)
            && s.h.minted == map[0 := 1] && s.h.presented == {} && 0 in s.h.born && 0 in s.h.fams
  {
    tr := OneAccount();
    tr := Extend(tr, Exec(1, 0));
    tr := Extend(tr, Exec(1, 0));
    tr := Extend(tr, Exec(1, 0));
  }

  /** Requests 2 and 3 present token 0. */
  lemma TwoPresentations() returns (tr: Trace)
    ensures Reached(tr)
    ensures var s := Last(tr);
            && s.now == 0 && s.life == LIFE && Active(s.users, 0) && 0 in s.h.fams
            && s.h.minted == map[0 := 1] && s.h.presented == {0} && s.rows == map[0 := Row(0, 0, None, LIFE)]
            && s.reqs == map[1 := Finished(Issued(0)), 2 := Presented(0), 3 := Presented(0)]
  {
    tr := OneSession();
    tr := Extend(tr, Arrive(2, Presented(0)));
    tr := Extend(tr, Arrive(3, Presented(0)));
  }

  /** 2 claims it, 3 loses and finds it used. */
  lemma OneLoses() returns (tr: Trace)
    ensures Reached(tr)
    ensures var s := Last(tr);
            && s.now == 0 && s.life == LIFE && Active(s.users, 0) && 0 in s.h.fams
            && s.h.minted == map[0 := 1] && s.h.presented == {0} && s.rows.Keys == {0} && s.rows[0].family == 0
            && s.reqs == map[1 := Finished(Issued(0)), 2 := Claimed(0, 0, Some(0)), 3 := ReuseSeen(0, 0)]
  {
    tr := TwoPresentations();
    tr := Extend(tr, Exec(2, 0));
    tr := Extend(tr, Exec(3, 0));
    tr := Extend(tr, Exec(3, 0));
  }

  /** Request 3 burns the family while request 2 still holds its baton. */
  lemma Burnt() returns (tr: Trace, i: nat)
    ensures Reached(tr) && i + 1 == |tr.events| && tr.events[i] == Exec(3, 0)
    ensures 3 in tr.states[i].reqs && tr.states[i].reqs[3] == ReuseSeen(0, 0)
    ensures var s := tr.states[i + 1];
            && s.rows == map[] && s.now == 0 && s.life == LIFE && Active(s.users, 0) && 0 in s.h.fams
            && s.h.minted == map[0 := 1] && s.h.presented == {0} && 2 in s.reqs && s.reqs[2] == Claimed(0, 0, Some(0))
  {
    var before := OneLoses();
    i := |before.events|;
    tr := Extend(before, Exec(3, 0));
    assert tr.states[i] == before.states[i];
  }

  /**
   Reuse detection does not end the family in every run: request 3 burns it at event `i`,
   and at the end it has an unused, unexpired token.
   */
  lemma ContainmentCanBeOutrun() returns (tr: Trace, i: nat)
    ensures Reached(tr) && i < |tr.events| && i + 1 < |tr.states| && tr.events[i] == Exec(3, 0)
    ensures 3 in tr.states[i].reqs && tr.states[i].reqs[3] == ReuseSeen(0, 0) && NoRows(tr.states[i + 1].rows, 0)
    ensures var s := Last(tr);
            1 in s.rows && s.rows[1].family == 0 && s.rows[1].usedAt.None? && s.now < s.rows[1].expires
  {
    var burnt, looked, minted;
    burnt, i := Burnt();
    looked := Extend(burnt, Exec(2, 0));
    minted := Extend(looked, Exec(2, 1));
    tr := Extend(minted, Exec(2, 0));
    forall k | 0 <= k <= i + 1 ensures tr.states[k] == burnt.states[k]
    {
      assert tr.states[k] == minted.states[k] && minted.states[k] == looked.states[k] &&
             looked.states[k] == burnt.states[k];
    }
  }
}
