/** The five-pass HTML escaper of the mail templates. */
module MailTemplates {

  /** value.replace(/c/g, by) */
  function ReplaceAll(s: string, c: char, entity: string): string
  {
    if s == [] then [] else ReplaceChar(s[0], c, entity) + ReplaceAll(s[1..], c, entity)
  }

  function ReplaceChar(d: char, c: char, entity: string): string
  {
    if d == c then entity else [d]
  }

  function EscapeHtml(value: string): string
  {
    var s1 := ReplaceAll(value, '&', "&amp;");
    var s2 := ReplaceAll(s1, '<', "&lt;");
    var s3 := ReplaceAll(s2, '>', "&gt;");
    var s4 := ReplaceAll(s3, '"', "&quot;");
    ReplaceAll(s4, '\'', "&#39;")
  }

  function EscapeChar(c: char): string
  {
    match c
    case '&' => "&amp;"
    case '<' => "&lt;"
    case '>' => "&gt;"
    case '"' => "&quot;"
    case '\'' => "&#39;"
    case _ => [c]
  }

  /** The escaping one would write down: each character on its own. */
  function EscapeEach(s: string): string
  {
    if s == [] then [] else EscapeChar(s[0]) + EscapeEach(s[1..])
  }

  lemma {:induction false} ReplaceConcat(s: string, t: string, c: char, entity: string)
    ensures ReplaceAll(s + t, c, entity) == ReplaceAll(s, c, entity) + ReplaceAll(t, c, entity)
  {
    if s == [] {
      assert s + t == t;
    } else {
      assert (s + t)[0] == s[0];
      assert (s + t)[1..] == s[1..] + t;
      ReplaceConcat(s[1..], t, c, entity);
      var head, tail, rest := ReplaceChar(s[0], c, entity), ReplaceAll(s[1..], c, entity), ReplaceAll(t, c, entity);
      assert head + (tail + rest) == (head + tail) + rest;
    }
  }

  lemma {:induction false} ReplaceAbsent(s: string, c: char, entity: string)
    requires c !in s
    ensures ReplaceAll(s, c, entity) == s
  {
    if s != [] {
      ReplaceAbsent(s[1..], c, entity);
    }
  }

  lemma ReplaceOne(c: char, d: char, entity: string)
    ensures ReplaceAll([c], d, entity) == ReplaceChar(c, d, entity)
  {
    assert [c][1..] == [];
  }

  // --- The passes in any order ---

  predicate Special(c: char)
  {
    c == '&' || c == '<' || c == '>' || c == '"' || c == '\''
  }

  /** One pass over the whole string for each character of `order`, in turn. */
  function Passes(order: string, value: string): string
  {
    if order == [] then value else Passes(order[1..], ReplaceAll(value, order[0], EscapeChar(order[0])))
  }

  predicate Distinct(order: string)
  {
    forall i, j | 0 <= i < j < |order| :: order[i] != order[j]
  }

  /** Each special character has its pass. */
  ghost predicate Order(order: string)
  {
    Distinct(order) && forall c :: c in order <==> Special(c)
  }

  lemma FirstPass(order: string, value: string, rest: string, value': string)
    requires order != [] && rest == order[1..] && value' == ReplaceAll(value, order[0], EscapeChar(order[0]))
    ensures Passes(order, value) == Passes(rest, value')
  {
  }

  lemma HtmlOrder(value: string)
    ensures Order("&<>\"'") && EscapeHtml(value) == Passes("&<>\"'", value)
  {
    var o := "&<>\"'";
    assert o[0] == '&' && o[1] == '<' && o[2] == '>' && o[3] == '"' && o[4] == '\'';
    var o1, o2, o3, o4 := o[1..], o[2..], o[3..], o[4..];
    assert o1[1..] == o2 && o2[1..] == o3 && o3[1..] == o4 && o4[1..] == [];
    var s1 := ReplaceAll(value, '&', "&amp;");
    var s2 := ReplaceAll(s1, '<', "&lt;");
    var s3 := ReplaceAll(s2, '>', "&gt;");
    var s4 := ReplaceAll(s3, '"', "&quot;");
    FirstPass(o, value, o1, s1);
    FirstPass(o1, s1, o2, s2);
    FirstPass(o2, s2, o3, s3);
    FirstPass(o3, s3, o4, s4);
    FirstPass(o4, s4, [], EscapeHtml(value));
  }

  lemma {:induction false} PassesConcat(order: string, s: string, t: string)
    ensures Passes(order, s + t) == Passes(order, s) + Passes(order, t)
  {
    if order != [] {
      var c := order[0];
      ReplaceConcat(s, t, c, EscapeChar(c));
      PassesConcat(order[1..], ReplaceAll(s, c, EscapeChar(c)), ReplaceAll(t, c, EscapeChar(c)));
    }
  }

  lemma {:induction false} PassesAbsent(order: string, s: string)
    requires forall c | c in order :: c !in s
    ensures Passes(order, s) == s
  {
    if order != [] {
      assert order[0] in order;
      ReplaceAbsent(s, order[0], EscapeChar(order[0]));
      PassesAbsent(order[1..], s);
    }
  }

  lemma EntityHoldsOnlyAmpersand(c: char, d: char)
    requires Special(c) && d in EscapeChar(c) && Special(d)
    ensures d == '&' && |EscapeChar(c)| > 1
  {
  }

  /** With `&` first, or without it, no later pass disturbs what an earlier one wrote for a character. */
  lemma {:induction false} PassesOne(order: string, c: char)
    requires Distinct(order) && (forall d | d in order :: Special(d)) && '&' !in order[if order == [] then 0 else 1..]
    ensures Passes(order, [c]) == if c in order then EscapeChar(c) else [c]
  {
    if order != [] {
      var d, rest := order[0], order[1..];
      ReplaceOne(c, d, EscapeChar(d));
      assert forall x | x in rest :: x in order;
      if c == d {
        assert d in order && Special(d);
        forall x | x in rest ensures x !in EscapeChar(c)
        {
          if x in EscapeChar(c) { EntityHoldsOnlyAmpersand(c, x); }
        }
        PassesAbsent(rest, EscapeChar(c));
      } else {
        PassesOne(rest, c);
      }
    }
  }

  /** With `&` first, the whole-string passes in any order escape each character once. */
  lemma {:induction false} AmpersandFirstIsEach(order: string, s: string)
    requires Order(order) && order != [] && order[0] == '&'
    ensures Passes(order, s) == EscapeEach(s)
  {
    if s == [] {
      PassesAbsent(order, s);
    } else {
      assert s == [s[0]] + s[1..];
      PassesConcat(order, [s[0]], s[1..]);
      PassesOne(order, s[0]);
      AmpersandFirstIsEach(order, s[1..]);
    }
  }

  /** The five passes of the source escape each character once. */
  lemma FivePassesAreOne(s: string)
    ensures EscapeHtml(s) == EscapeEach(s)
  {
    HtmlOrder(s);
    AmpersandFirstIsEach("&<>\"'", s);
  }

  /** The five entities are those of HTML; any other character stays. */
  lemma TheFiveEntities(c: char)
    ensures EscapeHtml([c]) ==
            if c == '&' then "&amp;" else if c == '<' then "&lt;" else if c == '>' then "&gt;"
            else if c == '"' then "&quot;" else if c == '\'' then "&#39;" else [c]
  {
    FivePassesAreOne([c]);
    assert [c][1..] == [] && EscapeEach([c]) == EscapeChar(c);
  }

  /** No character of the output can open a tag or close an attribute. */
  lemma {:induction false} NothingRaw(s: string)
    ensures forall c | c in EscapeEach(s) :: c != '<' && c != '>' && c != '"' && c != '\''
  {
    if s != [] { NothingRaw(s[1..]); }
  }

  /** Reading entities back, left to right. */
  function Unescape(s: string): string
  {
    if s == [] then []
    else if "&amp;" <= s then ['&'] + Unescape(s[5..])
    else if "&lt;" <= s then ['<'] + Unescape(s[4..])
    else if "&gt;" <= s then ['>'] + Unescape(s[4..])
    else if "&quot;" <= s then ['"'] + Unescape(s[6..])
    else if "&#39;" <= s then ['\''] + Unescape(s[5..])
    else [s[0]] + Unescape(s[1..])
  }

  lemma UnescapeOne(c: char, rest: string)
    ensures Unescape(EscapeChar(c) + rest) == [c] + Unescape(rest)
  {
    var s := EscapeChar(c) + rest;
    assert s[|EscapeChar(c)|..] == rest;
    match c
    case '&' => assert "&amp;" <= s;
    case '<' => assert s[1] == 'l';
    case '>' => assert s[1] == 'g';
    case '"' => assert s[1] == 'q';
    case '\'' => assert s[1] == '#';
    case _ => assert s[0] == c;
  }

  lemma {:induction false} EachRoundTrip(s: string)
    ensures Unescape(EscapeEach(s)) == s
  {
    if s != [] {
      UnescapeOne(s[0], EscapeEach(s[1..]));
      EachRoundTrip(s[1..]);
    }
  }

  lemma RoundTrip(s: string)
    ensures Unescape(EscapeHtml(s)) == s
  {
    FivePassesAreOne(s);
    EachRoundTrip(s);
  }

  /** What the templates rely on: nothing raw, nothing lost, nothing confused. */
  lemma EscapingIsSafeAndFaithful(s: string, t: string)
    ensures forall c | c in EscapeHtml(s) :: c != '<' && c != '>' && c != '"' && c != '\''
    ensures EscapeHtml(s) == EscapeHtml(t) ==> s == t
  {
    FivePassesAreOne(s);
    NothingRaw(s);
    RoundTrip(s);
    RoundTrip(t);
  }

  // --- Why `&` goes first ---

  ghost predicate Injective(order: string)
  {
    forall s, t {:trigger Passes(order, s), Passes(order, t)} | Passes(order, s) == Passes(order, t) :: s == t
  }

  /** A character whose pass goes first comes out like its own entity, unless that pass is the one for `&`. */
  lemma FirstPassConfuses(order: string)
    requires Order(order) && order != [] && order[0] != '&'
    ensures !Injective(order)
  {
    var c := order[0];
    var e := EscapeChar(c);
    assert c in order;
    if c in e { EntityHoldsOnlyAmpersand(c, c); }
    ReplaceOne(c, c, e);
    ReplaceAbsent(e, c, e);
    EntityHoldsOnlyAmpersand(c, e[0]);
    assert Passes(order, [c]) == Passes(order, e) && |[c]| != |e|;
  }

  /** Of all orders of the five passes, exactly those with `&` first keep different texts apart. */
  lemma AmpersandMustGoFirst(order: string)
    requires Order(order)
    ensures order != [] && (Injective(order) <==> order[0] == '&')
  {
    assert Special('&') && '&' in order;
    if order[0] == '&' {
      forall s, t | Passes(order, s) == Passes(order, t) ensures s == t
      {
        AmpersandFirstIsEach(order, s);
        AmpersandFirstIsEach(order, t);
        EachRoundTrip(s);
        EachRoundTrip(t);
      }
    } else {
      FirstPassConfuses(order);
    }
  }
}
