/**
 Paged listing: SELECT ... ORDER BY created_at DESC, id LIMIT k OFFSET n. The database may
 answer with any sequence that obeys the ORDER BY; the unique id leaves it only one.
 */
module Listing {
  import opened Base

  datatype Row = Row(id: nat, createdAt: Time, deleted: bool)

  /** ORDER BY created_at DESC, id */
  predicate Before(a: Row, b: Row)
  {
    a.createdAt > b.createdAt || (a.createdAt == b.createdAt && a.id < b.id)
  }

  /** The primary key. */
  predicate UniqueIds(rows: set<Row>)
  {
    forall a, b | a in rows && b in rows && a.id == b.id :: a == b
  }

  /** The rows of one query: active ones, of one owner when the caller may only see its own. */
  function Visible(table: set<Row>, owner: Option<nat>): set<Row>
  {
    set a | a in table && !a.deleted && (owner.Some? ==> a.id == owner.value)
  }

  /** `q` lists the rows, each once, so that none comes before an earlier one. */
  ghost predicate Obeys(rows: set<Row>, q: seq<Row>)
  {
    && (forall a | a in q :: a in rows)
    && (forall a | a in rows :: a in q)
    && (forall i, j {:trigger q[i], q[j]} | 0 <= i < j < |q| :: q[i] != q[j] && !Before(q[j], q[i]))
  }

  function Min(a: nat, b: nat): nat
  {
    if a < b then a else b
  }

  function Slice(q: seq<Row>, limit: nat, offset: nat): seq<Row>
  {
    q[Min(offset, |q|)..Min(offset + limit, |q|)]
  }

  /** An answer the database may give to one page request. */
  ghost predicate LegalPage(rows: set<Row>, limit: nat, offset: nat, page: seq<Row>)
  {
    exists q :: Obeys(rows, q) && page == Slice(q, limit, offset)
  }

  /** Pages from `offset` on, k rows at a time, each a legal answer to its own request. */
  ghost predicate EachLegal(rows: set<Row>, k: nat, offset: nat, pages: seq<seq<Row>>)
    decreases |pages|
  {
    pages != [] ==>
      && LegalPage(rows, k, offset, pages[0])
      && EachLegal(rows, k, offset + k, pages[1..])
  }

  lemma Connex(a: Row, b: Row)
    requires a.id != b.id
    ensures Before(a, b) != Before(b, a)
  {
  }

  lemma EmptyIff(rows: set<Row>, q: seq<Row>)
    requires Obeys(rows, q)
    ensures q == [] <==> rows == {}
  {
    if q != [] { assert q[0] in rows; }
  }

  lemma TailObeys(rows: set<Row>, q: seq<Row>)
    requires Obeys(rows, q) && q != []
    ensures Obeys(rows - {q[0]}, q[1..])
  {
    forall i, j | 0 <= i < j < |q[1..]| ensures q[1..][i] != q[1..][j] && !Before(q[1..][j], q[1..][i])
    {
      assert q[1..][i] == q[i + 1] && q[1..][j] == q[j + 1];
    }
    forall a | a in rows - {q[0]} ensures a in q[1..]
    {
      var i :| 0 <= i < |q| && q[i] == a;
      assert q[1..][i - 1] == a;
    }
    forall a | a in q[1..] ensures a in rows - {q[0]}
    {
      var i :| 0 <= i < |q[1..]| && q[1..][i] == a;
      assert q[i + 1] == a && q[0] != q[i + 1];
    }
  }

  /** Whatever obeys the ORDER BY starts with the same row. */
  lemma SameHead(rows: set<Row>, p: seq<Row>, q: seq<Row>)
    requires UniqueIds(rows) && Obeys(rows, p) && Obeys(rows, q) && p != [] && q != []
    ensures p[0] == q[0]
  {
    assert p[0] in rows && q[0] in rows;
    assert p[0] in q && q[0] in p;
    if p[0] != q[0] {
      var i :| 0 <= i < |q| && q[i] == p[0];
      var j :| 0 <= j < |p| && p[j] == q[0];
      assert !Before(q[i], q[0]) && !Before(p[j], p[0]);
      Connex(p[0], q[0]);
      assert false;
    }
  }

  /** The order determines exactly one sequence. */
  lemma {:induction false} OnlyOneOrder(rows: set<Row>, p: seq<Row>, q: seq<Row>)
    requires UniqueIds(rows) && Obeys(rows, p) && Obeys(rows, q)
    ensures p == q
    decreases |p|
  {
    EmptyIff(rows, p);
    EmptyIff(rows, q);
    if p != [] {
      SameHead(rows, p, q);
      TailObeys(rows, p);
      TailObeys(rows, q);
      OnlyOneOrder(rows - {p[0]}, p[1..], q[1..]);
    }
  }

  function Place(a: Row, q: seq<Row>): seq<Row>
  {
    if q == [] then [a]
    else if Before(a, q[0]) then [a] + q
    else [q[0]] + Place(a, q[1..])
  }

  lemma {:induction false} PlaceObeys(rows: set<Row>, a: Row, q: seq<Row>)
    requires UniqueIds(rows + {a}) && a !in rows && Obeys(rows, q)
    ensures Obeys(rows + {a}, Place(a, q))
    decreases |q|
  {
    if q != [] {
      if Before(a, q[0]) {
        FrontObeys(rows, a, q);
      } else {
        assert q[0] in rows;
        TailObeys(rows, q);
        PlaceObeys(rows - {q[0]}, a, q[1..]);
        var tail := Place(a, q[1..]);
        assert rows + {a} - {q[0]} == rows - {q[0]} + {a};
        FrontOfRest(rows + {a} - {q[0]}, q[0], tail, rows, a, q);
        assert rows + {a} - {q[0]} + {q[0]} == rows + {a};
      }
    }
  }

  lemma FrontObeys(rows: set<Row>, a: Row, q: seq<Row>)
    requires Obeys(rows, q) && a !in rows && q != [] && Before(a, q[0])
    ensures Obeys(rows + {a}, [a] + q)
  {
    var p := [a] + q;
    forall i, j | 0 <= i < j < |p| ensures p[i] != p[j] && !Before(p[j], p[i])
    {
      if i == 0 {
        assert p[j] == q[j - 1] && q[j - 1] in rows;
        if j > 1 { assert !Before(q[j - 1], q[0]); }
      } else {
        assert p[i] == q[i - 1] && p[j] == q[j - 1];
      }
    }
    assert forall b | b in p :: b == a || b in q;
    assert p[0] == a;
    assert forall b | b in q :: b in p;
  }

  lemma FrontOfRest(rest: set<Row>, head: Row, tail: seq<Row>, rows: set<Row>, a: Row, q: seq<Row>)
    requires Obeys(rest, tail) && head !in rest && Obeys(rows, q) && q != [] && q[0] == head && !Before(a, head)
    requires forall b | b in rest :: b == a || b in rows
    ensures Obeys(rest + {head}, [head] + tail)
  {
    var p := [head] + tail;
    forall i, j | 0 <= i < j < |p| ensures p[i] != p[j] && !Before(p[j], p[i])
    {
      assert p[j] == tail[j - 1] && tail[j - 1] in rest;
      if i == 0 {
        if p[j] != a {
          assert p[j] in q;
          var k :| 0 <= k < |q| && q[k] == p[j];
          assert k > 0;
        }
      } else {
        assert p[i] == tail[i - 1];
      }
    }
    assert forall b | b in p :: b == head || b in tail;
    assert p[0] == head;
    assert forall b | b in tail :: b in p;
  }

  /** And there is one. */
  lemma {:induction false} SomeOrder(rows: set<Row>) returns (q: seq<Row>)
    requires UniqueIds(rows)
    ensures Obeys(rows, q)
  {
    if rows == {} {
      q := [];
    } else {
      var a :| a in rows;
      var rest := SomeOrder(rows - {a});
      PlaceObeys(rows - {a}, a, rest);
      q := Place(a, rest);
      assert rows - {a} + {a} == rows;
    }
  }

  function Flatten(pages: seq<seq<Row>>): seq<Row>
  {
    if pages == [] then [] else pages[0] + Flatten(pages[1..])
  }

  /** A page request has one legal answer. */
  lemma OnlyOnePage(rows: set<Row>, q: seq<Row>, limit: nat, offset: nat, page: seq<Row>)
    requires UniqueIds(rows) && Obeys(rows, q)
    ensures LegalPage(rows, limit, offset, page) <==> page == Slice(q, limit, offset)
  {
    if LegalPage(rows, limit, offset, page) {
      var p :| Obeys(rows, p) && page == Slice(p, limit, offset);
      OnlyOneOrder(rows, p, q);
    }
  }

  lemma SlicesJoin(q: seq<Row>, k: nat, rest: nat, offset: nat)
    ensures Slice(q, k, offset) + Slice(q, rest, offset + k) == Slice(q, k + rest, offset)
  {
  }

  lemma Distribute(n: nat, k: nat)
    ensures (n + 1) * k == k + n * k
  {
  }

  /** `total` rows from `offset` on are what so many pages of `k` come to. */
  lemma {:induction false} PagesFrom(rows: set<Row>, q: seq<Row>, k: nat, offset: nat, pages: seq<seq<Row>>, total: nat)
    requires UniqueIds(rows) && Obeys(rows, q)
    requires EachLegal(rows, k, offset, pages) && total == |pages| * k
    ensures Flatten(pages) == Slice(q, total, offset)
    decreases |pages|
  {
    if pages == [] {
      assert Slice(q, 0, offset) == [];
    } else {
      Distribute(|pages[1..]|, k);
      OnlyOnePage(rows, q, k, offset, pages[0]);
      PagesFrom(rows, q, k, offset + k, pages[1..], total - k);
      SlicesJoin(q, k, total - k, offset);
    }
  }

  /**
   The pages of a fixed table, each answered on its own, put together are the one
   ordered list of the visible rows, none skipped and none repeated, exactly when the pages
   asked for hold that many.
   */
  lemma PagesCoverExactly(table: set<Row>, owner: Option<nat>, q: seq<Row>, k: nat, pages: seq<seq<Row>>)
    requires UniqueIds(table) && Obeys(Visible(table, owner), q)
    requires EachLegal(Visible(table, owner), k, 0, pages)
    ensures Flatten(pages) == q <==> |q| <= |pages| * k
    ensures Flatten(pages) == q <==> multiset(Flatten(pages)) == multiset(Visible(table, owner))
  {
    PagesFrom(Visible(table, owner), q, k, 0, pages, |pages| * k);
    assert |Flatten(pages)| == Min(|pages| * k, |q|);
    EachOnce(Visible(table, owner), q);
    assert |Flatten(pages)| < |q| ==> |multiset(Flatten(pages))| < |multiset(q)|;
  }

  lemma {:induction false} EachOnce(rows: set<Row>, q: seq<Row>)
    requires Obeys(rows, q)
    ensures multiset(q) == multiset(rows)
    decreases |q|
  {
    if q == [] {
      assert rows == {};
    } else {
      TailObeys(rows, q);
      EachOnce(rows - {q[0]}, q[1..]);
      assert q == [q[0]] + q[1..];
      assert multiset(rows) == multiset(rows - {q[0]}) + multiset{q[0]};
    }
  }

  lemma {:induction false} CountOnce(rows: set<Row>, q: seq<Row>)
    requires Obeys(rows, q)
    ensures |q| == |rows|
    decreases |q|
  {
    if q == [] {
      assert rows == {};
    } else {
      TailObeys(rows, q);
      CountOnce(rows - {q[0]}, q[1..]);
      assert q[0] in rows;
    }
  }

  lemma OrderOf(rows: set<Row>, q: seq<Row>, i: nat, j: nat)
    requires UniqueIds(rows) && Obeys(rows, q) && i < j < |q|
    ensures q[i].createdAt > q[j].createdAt || (q[i].createdAt == q[j].createdAt && q[i].id < q[j].id)
  {
    assert q[i] in rows && q[j] in rows && q[i] != q[j];
  }

  /**
   What one page shows: no more rows than asked for, all of them to be seen by the caller,
   newest first, then by id.
   */
  lemma PageLaw(table: set<Row>, owner: Option<nat>, limit: nat, offset: nat, page: seq<Row>)
    requires UniqueIds(table) && LegalPage(Visible(table, owner), limit, offset, page)
    ensures |page| <= limit
    ensures forall a | a in page :: a in table && !a.deleted && (owner.Some? ==> a.id == owner.value)
    ensures forall i, j | 0 <= i < j < |page| ::
              page[i].createdAt > page[j].createdAt ||
                (page[i].createdAt == page[j].createdAt && page[i].id < page[j].id)
  {
    var rows := Visible(table, owner);
    var q :| Obeys(rows, q) && page == Slice(q, limit, offset);
    assert forall a | a in page :: a in q;
    forall i, j | 0 <= i < j < |page|
      ensures page[i].createdAt > page[j].createdAt ||
              (page[i].createdAt == page[j].createdAt && page[i].id < page[j].id)
    {
      OrderOf(rows, q, Min(offset, |q|) + i, Min(offset, |q|) + j);
    }
  }

  lemma SliceIn(q: seq<Row>, limit: nat, a: Row)
    ensures a in Slice(q, limit, 0) ==> a in q
    ensures |q| <= limit ==> Slice(q, limit, 0) == q
  {
  }

  /** The pages together show such rows only, in that order throughout. */
  lemma PagesLaw(table: set<Row>, owner: Option<nat>, k: nat, pages: seq<seq<Row>>)
    requires UniqueIds(table) && EachLegal(Visible(table, owner), k, 0, pages)
    ensures forall a | a in Flatten(pages) :: a in table && !a.deleted && (owner.Some? ==> a.id == owner.value)
    ensures var all := Flatten(pages);
            forall i, j | 0 <= i < j < |all| ::
              all[i].createdAt > all[j].createdAt || (all[i].createdAt == all[j].createdAt && all[i].id < all[j].id)
  {
    var rows := Visible(table, owner);
    var q := SomeOrder(rows);
    PagesFrom(rows, q, k, 0, pages, |pages| * k);
    PageLaw(table, owner, |pages| * k, 0, Flatten(pages));
  }

  /** And all of them, once the pages asked for hold that many. */
  lemma NoneMissing(table: set<Row>, owner: Option<nat>, k: nat, pages: seq<seq<Row>>, a: Row)
    requires UniqueIds(table) && EachLegal(Visible(table, owner), k, 0, pages)
    requires |set b | b in table && !b.deleted && (owner.Some? ==> b.id == owner.value)| <= |pages| * k
    requires a in table && !a.deleted && (owner.Some? ==> a.id == owner.value)
    ensures a in Flatten(pages)
  {
    var rows := Visible(table, owner);
    var q := SomeOrder(rows);
    PagesFrom(rows, q, k, 0, pages, |pages| * k);
    CountOnce(rows, q);
    assert rows == set b | b in table && !b.deleted && (owner.Some? ==> b.id == owner.value);
    SliceIn(q, |pages| * k, a);
  }

  /** Ordered by date alone, two answers the database may give can show one row twice and another never. */
  ghost predicate ObeysDateOnly(rows: set<Row>, q: seq<Row>)
  {
    && (forall a | a in q :: a in rows)
    && (forall a | a in rows :: a in q)
    && (forall i, j {:trigger q[i], q[j]} | 0 <= i < j < |q| :: q[i] != q[j] && q[i].createdAt >= q[j].createdAt)
  }

  lemma TieBreakIsNeeded() returns (rows: set<Row>, p: seq<Row>, q: seq<Row>, missing: Row)
    ensures UniqueIds(rows) && ObeysDateOnly(rows, p) && ObeysDateOnly(rows, q)
    ensures missing in rows && missing !in Flatten([Slice(p, 1, 0), Slice(q, 1, 1)])
  {
    var a, b := Row(1, 7, false), Row(2, 7, false);
    rows, p, q, missing := {a, b}, [a, b], [b, a], b;
    assert Slice(p, 1, 0) == [a] && Slice(q, 1, 1) == [a];
    var pages := [[a], [a]];
    assert pages[1..] == [[a]] && pages[1..][1..] == [];
    assert Flatten(pages[1..]) == [a];
    assert Flatten(pages) == [a, a];
  }
}
