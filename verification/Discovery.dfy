// Keyset pagination over a live table: what a client walking page by page is promised.
module Discovery {
  import opened Basics

  datatype Sort = ByScore | Newest | ById

  /** The columns the orders use. Times are numbers: the stored text layout keeps text order equal to time order. */
  datatype Row = Row(id: nat, score: real, created: int)

  datatype Key = Key(value: real, id: nat)

  /** The two rows' places under ORDER BY. */
  predicate Precedes(sort: Sort, a: Row, b: Row) {
    match sort
    case ByScore => a.score > b.score || (a.score == b.score && a.id < b.id)
    case Newest => a.created > b.created || (a.created == b.created && a.id > b.id)
    case ById => a.id < b.id
  }

  function KeyOf(sort: Sort, r: Row): Key {
    match sort
    case ByScore => Key(r.score, r.id)
    case Newest => Key(r.created as real, r.id)
    case ById => Key(r.id as real, r.id)
  }

  /** The WHERE clause a cursor becomes. */
  predicate After(sort: Sort, k: Key, r: Row) {
    match sort
    case ByScore => r.score < k.value || (r.score == k.value && r.id > k.id)
    case Newest => r.created as real < k.value || (r.created as real == k.value && r.id < k.id)
    case ById => r.id > k.id
  }

  /** The clause of a row's own key selects exactly the rows ordered after it. */
  lemma CursorMatchesOrder(sort: Sort, a: Row, b: Row)
    ensures After(sort, KeyOf(sort, a), b) <==> Precedes(sort, a, b)
  {
  }

  /** Every order ends in the id, so it is strict and total on rows of different ids. */
  lemma StrictTotalOrder(sort: Sort, a: Row, b: Row, c: Row)
    ensures a.id != b.id ==> Precedes(sort, a, b) != Precedes(sort, b, a)
    ensures KeyOf(sort, a) == KeyOf(sort, b) ==> !Precedes(sort, a, b)
    ensures Precedes(sort, a, b) && Precedes(sort, b, c) ==> Precedes(sort, a, c)
  {
  }

  // ---------------------------------------------------------------- one page

  /** The rows that match the query's filters at the time of a page, by id. */
  type View = m: map<nat, Row> | forall id :: id in m ==> m[id].id == id
    witness map[]

  predicate Reachable(sort: Sort, cursor: Option<Key>, r: Row) {
    cursor.Some? ==> After(sort, cursor.value, r)
  }

  predicate Ascending(sort: Sort, rows: seq<Row>) {
    forall i, j :: 0 <= i < j < |rows| ==> Precedes(sort, rows[i], rows[j])
  }

  /** SELECT .. WHERE after the cursor ORDER BY .. LIMIT n. */
  ghost predicate Selects(view: View, sort: Sort, cursor: Option<Key>, n: nat, rows: seq<Row>) {
    && |rows| <= n
    && Ascending(sort, rows)
    && (forall r | r in rows :: r.id in view && view[r.id] == r && Reachable(sort, cursor, r))
    && (forall id | id in view && Reachable(sort, cursor, view[id]) && view[id] !in rows ::
          |rows| == n && forall r | r in rows :: Precedes(sort, r, view[id]))
  }

  datatype Page = Page(rows: seq<Row>, next: Option<Key>)

  /** One row more than asked tells whether there is a next page; its cursor is the last row's key. */
  function Cut(sort: Sort, results: seq<Row>, limit: nat): Page
    requires limit >= 1
  {
    if |results| > limit then Page(results[..limit], Some(KeyOf(sort, results[limit - 1])))
    else Page(results, None)
  }

  /** What a page delivers: the rows next in order after the cursor, and whether any are left behind. */
  ghost predicate Delivers(view: View, sort: Sort, cursor: Option<Key>, page: Page) {
    && Ascending(sort, page.rows)
    && (forall r | r in page.rows :: r.id in view && view[r.id] == r && Reachable(sort, cursor, r))
    && (page.next.None? ==> forall id | id in view && Reachable(sort, cursor, view[id]) :: view[id] in page.rows)
    && (page.next.Some? ==>
          && page.rows != [] && page.next == Some(KeyOf(sort, page.rows[|page.rows| - 1]))
          && forall id | id in view && Reachable(sort, cursor, view[id]) && view[id] !in page.rows ::
               Precedes(sort, page.rows[|page.rows| - 1], view[id]))
  }

  lemma PageDelivers(view: View, sort: Sort, cursor: Option<Key>, limit: nat, results: seq<Row>)
    requires limit >= 1 && Selects(view, sort, cursor, limit + 1, results)
    ensures Delivers(view, sort, cursor, Cut(sort, results, limit))
    ensures var page := Cut(sort, results, limit); |page.rows| <= limit && (page.next.Some? ==> |page.rows| == limit)
  {
    hide Precedes;
    hide KeyOf;
    hide After;
    if |results| > limit {
      var last := results[limit - 1];
      forall id | id in view && Reachable(sort, cursor, view[id]) && view[id] !in results[..limit]
        ensures Precedes(sort, last, view[id])
      {
        if view[id] in results {
          assert view[id] == results[limit];
        } else {
          assert last in results;
        }
      }
    }
  }

  lemma {:induction false} FirstExists(sort: Sort, pool: set<Row>) returns (first: Row)
    requires pool != {} && forall a, b | a in pool && b in pool && a != b :: a.id != b.id
    ensures first in pool && forall r | r in pool && r != first :: Precedes(sort, first, r)
    decreases pool
  {
    hide Precedes;
    first :| first in pool;
    if pool != {first} {
      var rest := pool - {first};
      assert pool == {first} + rest;
      var next := FirstExists(sort, rest);
      StrictTotalOrder(sort, first, next, next);
      if Precedes(sort, next, first) {
        first := next;
      } else {
        forall r | r in pool && r != first ensures Precedes(sort, first, r) {
          StrictTotalOrder(sort, first, next, r);
        }
      }
    }
  }

  lemma {:induction false} FirstRows(sort: Sort, pool: set<Row>, n: nat) returns (rows: seq<Row>)
    requires forall a, b | a in pool && b in pool && a != b :: a.id != b.id
    ensures |rows| <= n && Ascending(sort, rows) && forall r | r in rows :: r in pool
    ensures forall r | r in pool && r !in rows :: |rows| == n && forall s | s in rows :: Precedes(sort, s, r)
    decreases n
  {
    hide Precedes;
    if n == 0 || pool == {} {
      rows := [];
    } else {
      var first := FirstExists(sort, pool);
      var rest := FirstRows(sort, pool - {first}, n - 1);
      rows := [first] + rest;
      assert forall r :: r in rows <==> r == first || r in rest;
      forall i | 0 <= i < |rest| ensures Precedes(sort, first, rest[i]) {
        assert rest[i] in rest;
      }
    }
  }

  /** The database always has an answer. */
  lemma SelectExists(view: View, sort: Sort, cursor: Option<Key>, n: nat) returns (rows: seq<Row>)
    ensures Selects(view, sort, cursor, n, rows)
  {
    hide Precedes;
    hide Reachable;
    var pool := set id | id in view && Reachable(sort, cursor, view[id]) :: view[id];
    rows := FirstRows(sort, pool, n);
  }

  // ---------------------------------------------------------------- a walk

  /** One request of a walk: the matching rows at that moment, and the page answered. */
  datatype Visit = Visit(view: View, page: Page)

  function CursorOf(visits: seq<Visit>, i: nat): Option<Key>
    requires i < |visits|
  {
    if i == 0 then None else visits[i - 1].page.next
  }

  ghost predicate Answers(sort: Sort, visits: seq<Visit>, i: nat) {
    && i < |visits|
    && (i > 0 ==> visits[i - 1].page.next.Some?)
    && Delivers(visits[i].view, sort, CursorOf(visits, i), visits[i].page)
  }

  /** Each page is asked for with the previous page's cursor; anything may change in between. */
  ghost predicate Walk(sort: Sort, visits: seq<Visit>) {
    forall i :: 0 <= i < |visits| ==> Answers(sort, visits, i)
  }

  predicate Finished(visits: seq<Visit>) {
    visits != [] && visits[|visits| - 1].page.next.None?
  }

  /** The order that reaches across pages: a page's rows up to its last, and all it leaves after that. */
  lemma AcrossPages(sort: Sort, visits: seq<Visit>, i: nat, r: Row, s: Row)
    requires Answers(sort, visits, i) && visits[i].page.next.Some?
    requires r in visits[i].page.rows && Reachable(sort, visits[i].page.next, s)
    ensures Precedes(sort, r, s)
  {
    hide Precedes;
    hide KeyOf;
    hide After;
    var rows := visits[i].page.rows;
    var last := rows[|rows| - 1];
    CursorMatchesOrder(sort, last, s);
    StrictTotalOrder(sort, r, last, s);
  }

  /** Keys strictly advance: a later page's rows come after every row of an earlier one. */
  lemma {:induction false} KeysAdvance(sort: Sort, visits: seq<Visit>, i: nat, j: nat, r: Row, s: Row)
    requires Walk(sort, visits) && i < j < |visits|
    requires r in visits[i].page.rows && Reachable(sort, visits[j - 1].page.next, s)
    ensures Precedes(sort, r, s)
    decreases j
  {
    hide Precedes;
    hide KeyOf;
    hide After;
    hide Reachable;
    assert Answers(sort, visits, j - 1) && Answers(sort, visits, j);
    if i == j - 1 {
      AcrossPages(sort, visits, i, r, s);
    } else {
      var last := LastOf(sort, visits, j - 1);
      KeysAdvance(sort, visits, i, j - 1, r, last);
      AcrossPages(sort, visits, j - 1, last, s);
      StrictTotalOrder(sort, r, last, s);
    }
  }

  lemma LastOf(sort: Sort, visits: seq<Visit>, i: nat) returns (last: Row)
    requires i > 0 && Answers(sort, visits, i) && visits[i].page.next.Some?
    ensures last in visits[i].page.rows && Reachable(sort, visits[i - 1].page.next, last)
  {
    var rows := visits[i].page.rows;
    last := rows[|rows| - 1];
  }

  lemma RowOf(sort: Sort, visits: seq<Visit>, i: nat, r: Row)
    requires Answers(sort, visits, i) && r in visits[i].page.rows
    ensures r.id in visits[i].view && visits[i].view[r.id] == r
    ensures i > 0 ==> Reachable(sort, visits[i - 1].page.next, r)
  {
  }

  // ---------------------------------------------------------------- rows that stay

  ghost predicate Matches(sort: Sort, v: Visit, id: nat, k: Key) {
    id in v.view && KeyOf(sort, v.view[id]) == k
  }

  /** A row matching throughout, with one key. */
  ghost predicate Steady(sort: Sort, visits: seq<Visit>, id: nat, k: Key) {
    forall v :: v in visits ==> Matches(sort, v, id, k)
  }

  lemma SameKeySameOrder(sort: Sort, a: Row, b: Row, c: Row)
    requires KeyOf(sort, a) == KeyOf(sort, b)
    ensures Precedes(sort, c, a) <==> Precedes(sort, c, b)
  {
  }

  predicate ReturnedAt(visits: seq<Visit>, id: nat, i: nat)
    requires i < |visits|
  {
    id in visits[i].view && visits[i].view[id] in visits[i].page.rows
  }

  /** A row that was due on a page and did not come is still due on the next. */
  lemma StillDue(sort: Sort, visits: seq<Visit>, id: nat, k: Key, i: nat)
    requires Answers(sort, visits, i) && visits[i].page.next.Some? && i + 1 < |visits|
    requires Matches(sort, visits[i], id, k) && Matches(sort, visits[i + 1], id, k) && !ReturnedAt(visits, id, i)
    requires Reachable(sort, CursorOf(visits, i), visits[i].view[id])
    ensures Reachable(sort, CursorOf(visits, i + 1), visits[i + 1].view[id])
  {
    hide Precedes;
    hide KeyOf;
    hide After;
    var rows := visits[i].page.rows;
    var last := rows[|rows| - 1];
    SameKeySameOrder(sort, visits[i].view[id], visits[i + 1].view[id], last);
    CursorMatchesOrder(sort, last, visits[i + 1].view[id]);
  }

  /** While a steady row has not been returned, the cursor is still before it. */
  lemma {:induction false} FindIt(sort: Sort, visits: seq<Visit>, id: nat, k: Key, i: nat) returns (page: nat)
    requires Walk(sort, visits) && Finished(visits) && Steady(sort, visits, id, k) && i < |visits|
    requires id in visits[i].view && Reachable(sort, CursorOf(visits, i), visits[i].view[id])
    ensures page < |visits| && ReturnedAt(visits, id, page)
    decreases |visits| - i
  {
    hide Precedes;
    hide KeyOf;
    hide After;
    hide Reachable;
    hide Matches;
    page := i;
    assert Answers(sort, visits, i);
    if !ReturnedAt(visits, id, i) {
      assert visits[i].page.next.Some?;
      assert Answers(sort, visits, i + 1);
      assert Matches(sort, visits[i], id, k) && Matches(sort, visits[i + 1], id, k);
      Matching(sort, visits[i + 1], id, k);
      StillDue(sort, visits, id, k, i);
      page := FindIt(sort, visits, id, k, i + 1);
    }
  }

  lemma Matching(sort: Sort, v: Visit, id: nat, k: Key)
    requires Matches(sort, v, id, k)
    ensures id in v.view
  {
  }

  /** How often a walk returned an id. */
  function Times(rows: seq<Row>, id: nat): nat {
    if rows == [] then 0 else Times(rows[..|rows| - 1], id) + if rows[|rows| - 1].id == id then 1 else 0
  }

  lemma {:induction false} TimesAtMostOnce(sort: Sort, rows: seq<Row>, id: nat, k: Key)
    requires Ascending(sort, rows) && forall r | r in rows && r.id == id :: KeyOf(sort, r) == k
    ensures Times(rows, id) <= 1
    ensures Times(rows, id) == 0 <==> forall r | r in rows :: r.id != id
  {
    hide Precedes;
    hide KeyOf;
    if rows != [] {
      var n := |rows| - 1;
      TimesAtMostOnce(sort, rows[..n], id, k);
      if rows[n].id == id {
        forall r | r in rows[..n] ensures r.id != id {
          StrictTotalOrder(sort, r, rows[n], rows[n]);
          assert Precedes(sort, r, rows[n]);
        }
      }
      assert forall r :: r in rows <==> r in rows[..n] || r == rows[n];
    }
  }

  // ---------------------------------------------------------------- the whole walk

  function Returned(visits: seq<Visit>): seq<Row> {
    if visits == [] then [] else Returned(visits[..|visits| - 1]) + visits[|visits| - 1].page.rows
  }

  lemma {:induction false} ReturnedMembers(visits: seq<Visit>, r: Row) returns (i: nat)
    ensures r in Returned(visits) ==> i < |visits| && r in visits[i].page.rows
    ensures forall j :: 0 <= j < |visits| && r in visits[j].page.rows ==> r in Returned(visits)
  {
    i := 0;
    if visits != [] {
      var k := |visits| - 1;
      i := ReturnedMembers(visits[..k], r);
      forall j | 0 <= j < |visits| && r in visits[j].page.rows ensures r in Returned(visits) {
        if j < k {
          assert visits[..k][j] == visits[j];
        }
      }
      if r in visits[k].page.rows {
        i := k;
      }
    }
  }

  lemma WalkBeginning(sort: Sort, visits: seq<Visit>, k: nat)
    requires Walk(sort, visits) && k <= |visits|
    ensures Walk(sort, visits[..k])
  {
    hide Delivers;
    var start := visits[..k];
    forall i | 0 <= i < k ensures Answers(sort, start, i) {
      assert CursorOf(start, i) == CursorOf(visits, i);
      assert Answers(sort, visits, i);
    }
  }

  /** Everything returned by a walk, one page after the other, is in strict order. */
  lemma {:induction false} ReturnedAscends(sort: Sort, visits: seq<Visit>)
    requires Walk(sort, visits)
    ensures Ascending(sort, Returned(visits))
    decreases |visits|
  {
    hide Precedes;
    hide Delivers;
    hide Reachable;
    if visits != [] {
      var k := |visits| - 1;
      WalkBeginning(sort, visits, k);
      ReturnedAscends(sort, visits[..k]);
      assert Answers(sort, visits, k);
      forall r, s | r in Returned(visits[..k]) && s in visits[k].page.rows ensures Precedes(sort, r, s) {
        var i := ReturnedMembers(visits[..k], r);
        RowOf(sort, visits, k, s);
        KeysAdvance(sort, visits, i, k, r, s);
      }
      PageAscends(sort, visits, k);
      JoinAscends(sort, Returned(visits[..k]), visits[k].page.rows);
    }
  }

  lemma JoinAscends(sort: Sort, rows: seq<Row>, more: seq<Row>)
    requires Ascending(sort, rows) && Ascending(sort, more)
    requires forall r, s | r in rows && s in more :: Precedes(sort, r, s)
    ensures Ascending(sort, rows + more)
  {
    hide Precedes;
  }

  lemma PageAscends(sort: Sort, visits: seq<Visit>, i: nat)
    requires Answers(sort, visits, i)
    ensures Ascending(sort, visits[i].page.rows)
  {
  }

  /**
   * However other rows come, go and move between pages, a finished walk returns a row that matched
   * throughout with one key exactly once.
   */
  lemma SteadyRowReturnedOnce(sort: Sort, visits: seq<Visit>, id: nat, k: Key)
    requires Walk(sort, visits) && Finished(visits) && Steady(sort, visits, id, k)
    ensures Times(Returned(visits), id) == 1
  {
    hide Precedes;
    hide KeyOf;
    hide After;
    hide Delivers;
    ReturnedAscends(sort, visits);
    assert Matches(sort, visits[0], id, k);
    var page := FindIt(sort, visits, id, k, 0);
    var found := visits[page].view[id];
    var _ := ReturnedMembers(visits, found);
    forall r | r in Returned(visits) && r.id == id ensures KeyOf(sort, r) == k {
      var i := ReturnedMembers(visits, r);
      assert Answers(sort, visits, i);
      RowOf(sort, visits, i, r);
      assert Matches(sort, visits[i], id, k);
    }
    TimesAtMostOnce(sort, Returned(visits), id, k);
  }

  /** On a table that does not change, pages of any sizes make up the whole sorted result. */
  lemma FixedTableWalk(sort: Sort, visits: seq<Visit>, view: View)
    requires Walk(sort, visits) && Finished(visits) && forall v | v in visits :: v.view == view
    ensures Ascending(sort, Returned(visits))
    ensures forall r :: r in Returned(visits) <==> r.id in view && view[r.id] == r
  {
    hide Precedes;
    hide KeyOf;
    hide After;
    hide Delivers;
    ReturnedAscends(sort, visits);
    forall r ensures r in Returned(visits) <==> r.id in view && view[r.id] == r {
      var i := ReturnedMembers(visits, r);
      if r in Returned(visits) {
        assert Answers(sort, visits, i);
        RowOf(sort, visits, i, r);
        assert visits[i] in visits;
      }
      if r.id in view && view[r.id] == r {
        assert visits[0] in visits && Steady(sort, visits, r.id, KeyOf(sort, r));
        var page := FindIt(sort, visits, r.id, KeyOf(sort, r), 0);
        assert visits[page] in visits;
      }
    }
  }

  // ---------------------------------------------------------------- the orders, spelled out

  /** A page's rows: highest scores first, or latest, or lowest ids; ties by id, newest backwards. */
  lemma RowsInOrder(view: View, sort: Sort, cursor: Option<Key>, page: Page, i: nat, j: nat)
    requires Delivers(view, sort, cursor, page) && i < j < |page.rows|
    ensures var a, b := page.rows[i], page.rows[j];
            match sort
            case ByScore => a.score >= b.score && (a.score == b.score ==> a.id < b.id)
            case Newest => a.created >= b.created && (a.created == b.created ==> a.id > b.id)
            case ById => a.id < b.id
  {
    assert Precedes(sort, page.rows[i], page.rows[j]);
  }

  /** The first row of a first page is the highest score there is, the latest time or the lowest id. */
  lemma FirstRowIsBest(view: View, sort: Sort, page: Page, id: nat)
    requires Delivers(view, sort, None, page) && id in view
    ensures page.rows != []
    ensures match sort
            case ByScore => page.rows[0].score >= view[id].score
            case Newest => page.rows[0].created >= view[id].created
            case ById => page.rows[0].id <= id
  {
    var first, last := page.rows[0], page.rows[|page.rows| - 1];
    assert |page.rows| > 1 ==> Precedes(sort, first, last);
    if view[id] in page.rows {
      var i :| 0 <= i < |page.rows| && page.rows[i] == view[id];
      assert i > 0 ==> Precedes(sort, first, page.rows[i]);
    } else {
      assert Precedes(sort, last, view[id]);
    }
  }

  /** The rows a cursor still leaves. */
  ghost function Left(view: View, sort: Sort, cursor: Option<Key>): set<nat> {
    set id | id in view && Reachable(sort, cursor, view[id])
  }

  lemma FewerLeft(view: View, sort: Sort, cursor: Option<Key>, page: Page)
    requires Delivers(view, sort, cursor, page) && page.next.Some?
    ensures |Left(view, sort, page.next)| < |Left(view, sort, cursor)|
  {
    hide Precedes;
    hide KeyOf;
    hide After;
    var last := page.rows[|page.rows| - 1];
    var was, now := Left(view, sort, cursor), Left(view, sort, page.next);
    CursorMatchesOrder(sort, last, last);
    StrictTotalOrder(sort, last, last, last);
    assert last.id in was && last.id !in now;
    forall id | id in now ensures id in was {
      CursorMatchesOrder(sort, last, view[id]);
      if cursor.Some? {
        AfterChains(sort, cursor.value, last, view[id]);
      }
    }
    Smaller(now, was, last.id);
  }

  lemma AfterChains(sort: Sort, k: Key, a: Row, b: Row)
    requires After(sort, k, a) && Precedes(sort, a, b)
    ensures After(sort, k, b)
  {
  }

  lemma Smaller(now: set<nat>, was: set<nat>, id: nat)
    requires now <= was && id in was && id !in now
    ensures |now| < |was|
  {
    assert now <= was - {id};
    SubsetSize(now, was - {id});
  }

  lemma {:induction false} SubsetSize(a: set<nat>, b: set<nat>)
    requires a <= b
    ensures |a| <= |b|
    decreases a
  {
    if a != {} {
      var x :| x in a;
      SubsetSize(a - {x}, b - {x});
    }
  }

  lemma WalkStarts(sort: Sort)
    ensures Walk(sort, [])
  {
  }

  /** From wherever a walk stands, it ends once the table no longer changes. */
  lemma {:induction false} WalkFinishes(sort: Sort, visits: seq<Visit>, view: View, limit: nat) returns (more: seq<Visit>)
    requires limit >= 1 && Walk(sort, visits) && (visits != [] ==> visits[|visits| - 1].page.next.Some?)
    ensures Walk(sort, visits + more) && Finished(visits + more)
    ensures forall v | v in more :: v.view == view && |v.page.rows| <= limit
    decreases |Left(view, sort, CursorOf(visits + [Visit(view, Page([], None))], |visits|))|
  {
    hide Precedes;
    hide KeyOf;
    hide After;
    hide Reachable;
    hide Delivers;
    hide Cut;
    WalkStarts(sort);
    var cursor := CursorOf(visits + [Visit(view, Page([], None))], |visits|);
    var rows := SelectExists(view, sort, cursor, limit + 1);
    PageDelivers(view, sort, cursor, limit, rows);
    var v := Visit(view, Cut(sort, rows, limit));
    var longer := visits + [v];
    forall i | 0 <= i < |longer| ensures Answers(sort, longer, i) {
      if i < |visits| {
        assert Answers(sort, visits, i);
        assert CursorOf(longer, i) == CursorOf(visits, i);
      } else {
        assert CursorOf(longer, i) == cursor;
      }
    }
    if v.page.next.None? {
      more := [v];
    } else {
      FewerLeft(view, sort, cursor, v.page);
      assert CursorOf(longer + [Visit(view, Page([], None))], |longer|) == v.page.next;
      var rest := WalkFinishes(sort, longer, view, limit);
      more := [v] + rest;
      assert visits + more == longer + rest;
    }
  }
}
