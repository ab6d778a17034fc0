/** Keyset paging, as the audit search and the case-proof list do it, in either direction. */
module Paging {
  import opened Common
  import opened ProofSaga

  /** (occurredAt or requestedAt, id); the id is a primary key. */
  datatype Key = Key(at: int, id: nat)

  datatype Row = Row(key: Key, data: nat)

  /** a is listed before b. */
  predicate Ahead(descending: bool, a: Key, b: Key) {
    if descending then b.at < a.at || (b.at == a.at && b.id < a.id)
    else a.at < b.at || (a.at == b.at && a.id < b.id)
  }

  predicate Beyond(descending: bool, cursor: Option<Key>, key: Key) {
    cursor.None? || Ahead(descending, cursor.value, key)
  }

  predicate Listed(descending: bool, rows: seq<Row>) {
    forall i, j :: 0 <= i < j < |rows| ==> Ahead(descending, rows[i].key, rows[j].key)
  }

  predicate DistinctKeys(rows: seq<Row>) { forall i, j :: 0 <= i < j < |rows| ==> rows[i].key != rows[j].key }

  // ---------------------------------------------------------------- queries

  function InsertRow(descending: bool, row: Row, rows: seq<Row>): (r: seq<Row>)
    ensures forall x :: x in r <==> x == row || x in rows
  {
    if rows == [] || Ahead(descending, row.key, rows[0].key) then [row] + rows
    else
      assert rows == [rows[0]] + rows[1..];
      [rows[0]] + InsertRow(descending, row, rows[1..])
  }

  /** WHERE the filters and the cursor's boundary hold, ORDER BY the key in the direction. */
  function Listing(rows: seq<Row>, p: Row -> bool, descending: bool, cursor: Option<Key>): (r: seq<Row>)
    ensures forall x :: x in r <==> x in rows && p(x) && Beyond(descending, cursor, x.key)
  {
    if rows == [] then [] else
      assert rows == [rows[0]] + rows[1..];
      var rest := Listing(rows[1..], p, descending, cursor);
      if p(rows[0]) && Beyond(descending, cursor, rows[0].key) then InsertRow(descending, rows[0], rest) else rest
  }

  datatype Page = Page(items: seq<Row>, next: Option<Key>)

  /** One more row than a page is fetched, to tell whether there is a next one. */
  function FirstPage(all: seq<Row>, size: nat): Page {
    var fetched := if |all| <= size + 1 then all else all[..size + 1];
    var items := if |fetched| <= size then fetched else fetched[..size];
    Page(items, if |fetched| > size && items != [] then Some(items[|items| - 1].key) else None)
  }

  function FetchPage(rows: seq<Row>, p: Row -> bool, descending: bool, size: nat, cursor: Option<Key>): Page {
    FirstPage(Listing(rows, p, descending, cursor), size)
  }

  // ---------------------------------------------------------------- order

  lemma AheadOrder(descending: bool, a: Key, b: Key)
    ensures a == b || Ahead(descending, a, b) || Ahead(descending, b, a)
    ensures !(Ahead(descending, a, b) && Ahead(descending, b, a)) && !Ahead(descending, a, a)
  {
  }

  lemma {:induction false} InsertListed(descending: bool, row: Row, rows: seq<Row>)
    requires Listed(descending, rows) && forall x :: x in rows ==> x.key != row.key
    ensures Listed(descending, InsertRow(descending, row, rows))
  {
    if rows != [] && !Ahead(descending, row.key, rows[0].key) {
      InsertListed(descending, row, rows[1..]);
      var r := InsertRow(descending, row, rows[1..]);
      forall j | 0 <= j < |r| ensures Ahead(descending, rows[0].key, r[j].key) {
        assert r[j] in r;
        if r[j] != row {
          var i :| 0 <= i < |rows[1..]| && rows[1..][i] == r[j];
          assert rows[i + 1] == r[j];
        }
      }
    }
  }

  lemma {:induction false} ListingListed(rows: seq<Row>, p: Row -> bool, descending: bool, cursor: Option<Key>)
    requires DistinctKeys(rows)
    ensures Listed(descending, Listing(rows, p, descending, cursor))
  {
    if rows != [] {
      ListingListed(rows[1..], p, descending, cursor);
      var rest := Listing(rows[1..], p, descending, cursor);
      forall x | x in rest ensures x.key != rows[0].key {
        var i :| 0 <= i < |rows[1..]| && rows[1..][i] == x;
        assert rows[i + 1].key != rows[0].key;
      }
      InsertListed(descending, rows[0], rest);
    }
  }

  /** A list in order is determined by its elements. */
  lemma {:induction false} ListedUnique(descending: bool, a: seq<Row>, b: seq<Row>)
    requires Listed(descending, a) && Listed(descending, b) && forall x :: x in a <==> x in b
    ensures a == b
  {
    assert (a != [] ==> a[0] in a) && (b != [] ==> b[0] in b);
    if a != [] && b != [] {
      HeadFirst(descending, a, b[0]);
      HeadFirst(descending, b, a[0]);
      forall x ensures x in a[1..] <==> x in b[1..] {
        ListedTail(descending, a, x);
        ListedTail(descending, b, x);
      }
      ListedUnique(descending, a[1..], b[1..]);
      assert a == [a[0]] + a[1..] && b == [b[0]] + b[1..];
    }
  }

  lemma HeadFirst(descending: bool, a: seq<Row>, x: Row)
    requires Listed(descending, a) && x in a
    ensures x == a[0] || Ahead(descending, a[0].key, x.key)
  {
    var i :| 0 <= i < |a| && a[i] == x;
    assert i > 0 ==> Ahead(descending, a[0].key, a[i].key);
  }

  lemma ListedTail(descending: bool, a: seq<Row>, x: Row)
    requires a != [] && Listed(descending, a)
    ensures x in a[1..] <==> x in a && x != a[0]
  {
    assert forall i :: 1 <= i < |a| ==> a[i] != a[0] by {
      forall i | 1 <= i < |a| ensures a[i] != a[0] { assert Ahead(descending, a[0].key, a[i].key); }
    }
    assert forall i :: 0 <= i < |a[1..]| ==> a[1..][i] == a[i + 1];
    assert forall i :: 1 <= i < |a| ==> a[i] == a[1..][i - 1];
  }

  lemma RestOfList(descending: bool, all: seq<Row>, i: nat, x: Row)
    requires Listed(descending, all) && i < |all|
    ensures x in all[i + 1..] <==> x in all && Ahead(descending, all[i].key, x.key)
  {
    assert forall k :: 0 <= k < i ==> Ahead(descending, all[k].key, all[i].key);
    var rest := all[i + 1..];
    assert forall k :: 0 <= k < |rest| ==> rest[k] == all[i + 1 + k];
    if x in all && Ahead(descending, all[i].key, x.key) {
      var k :| 0 <= k < |all| && all[k] == x;
      assert rest[k - i - 1] == x;
    }
  }

  /** What lies beyond a listed row is the rest of the list. */
  lemma {:induction false} ListingAfter(rows: seq<Row>, p: Row -> bool, descending: bool, cursor: Option<Key>, i: nat)
    requires DistinctKeys(rows) && i < |Listing(rows, p, descending, cursor)|
    ensures var all := Listing(rows, p, descending, cursor);
            Listing(rows, p, descending, Some(all[i].key)) == all[i + 1..]
  {
    var all := Listing(rows, p, descending, cursor);
    var rest := Listing(rows, p, descending, Some(all[i].key));
    ListingListed(rows, p, descending, cursor);
    ListingListed(rows, p, descending, Some(all[i].key));
    assert all[i] in all;
    forall x ensures x in rest <==> x in all[i + 1..] { RestOfList(descending, all, i, x); }
    ListedUnique(descending, rest, all[i + 1..]);
  }

  // ---------------------------------------------------------------- a walk over a table at rest

  /** Following nextCursor to null; each page leaves less to list. */
  function Walk(rows: seq<Row>, p: Row -> bool, descending: bool, size: nat, cursor: Option<Key>): seq<seq<Row>>
    requires DistinctKeys(rows) && size > 0
    decreases |Listing(rows, p, descending, cursor)|
  {
    var page := FetchPage(rows, p, descending, size, cursor);
    if page.next.None? then [page.items] else
      PageOf(Listing(rows, p, descending, cursor), size);
      ListingAfter(rows, p, descending, cursor, size - 1);
      [page.items] + Walk(rows, p, descending, size, page.next)
  }

  function Concat(pages: seq<seq<Row>>): seq<Row> {
    if pages == [] then [] else pages[0] + Concat(pages[1..])
  }

  lemma PageOf(all: seq<Row>, size: nat)
    requires size > 0
    ensures FirstPage(all, size) ==
            if |all| <= size then Page(all, None) else Page(all[..size], Some(all[size - 1].key))
  {
    if |all| > size + 1 { assert all[..size + 1][..size] == all[..size]; }
  }

  lemma PageJoins(all: seq<Row>, size: nat, rest: seq<Row>)
    requires size > 0 && (|all| > size ==> rest == all[size..])
    ensures var page := FirstPage(all, size);
            if page.next.None? then page.items == all else |page.items| == size && all == page.items + rest
  {
    PageOf(all, size);
  }

  lemma {:induction false} PageThenRest(rows: seq<Row>, p: Row -> bool, descending: bool, size: nat,
                                        cursor: Option<Key>)
    requires DistinctKeys(rows) && size > 0
    ensures var (all, page) := (Listing(rows, p, descending, cursor), FetchPage(rows, p, descending, size, cursor));
            if page.next.None? then page.items == all
            else |page.items| == size && all == page.items + Listing(rows, p, descending, page.next)
  {
    var all := Listing(rows, p, descending, cursor);
    PageOf(all, size);
    if |all| > size { ListingAfter(rows, p, descending, cursor, size - 1); }
    PageJoins(all, size, if |all| > size then all[size..] else []);
  }

  /** The pages of a walk, put together, are the whole query in order; all but the last are full. */
  lemma {:induction false} WalkIsQuery(rows: seq<Row>, p: Row -> bool, descending: bool, size: nat, cursor: Option<Key>)
    requires DistinctKeys(rows) && size > 0
    ensures Concat(Walk(rows, p, descending, size, cursor)) == Listing(rows, p, descending, cursor)
    ensures FullPages(Walk(rows, p, descending, size, cursor), size)
    decreases |Listing(rows, p, descending, cursor)|
  {
    var page := FetchPage(rows, p, descending, size, cursor);
    PageThenRest(rows, p, descending, size, cursor);
    if page.next.Some? {
      WalkIsQuery(rows, p, descending, size, page.next);
      ConcatStep(page.items, Walk(rows, p, descending, size, page.next), size);
    } else {
      assert Concat([page.items]) == page.items + Concat([]);
    }
  }

  ghost predicate FullPages(pages: seq<seq<Row>>, size: nat) {
    forall i :: 0 <= i < |pages| - 1 ==> |pages[i]| == size
  }

  lemma ConcatStep(items: seq<Row>, pages: seq<seq<Row>>, size: nat)
    requires |items| == size && FullPages(pages, size)
    ensures Concat([items] + pages) == items + Concat(pages) && FullPages([items] + pages, size)
  {
    assert ([items] + pages)[1..] == pages;
  }

  // ---------------------------------------------------------------- a walk over a changing table

  /** Page i was fetched from tables[i] with the cursor that page i - 1 returned, and the last had none. */
  ghost predicate IsWalk(tables: seq<seq<Row>>, p: Row -> bool, descending: bool, size: nat, start: Option<Key>,
                         pages: seq<seq<Row>>)
    decreases |tables|
  {
    && |pages| == |tables| > 0 && DistinctKeys(tables[0])
    && var page := FetchPage(tables[0], p, descending, size, start);
    && pages[0] == page.items
    && if |tables| == 1 then page.next.None?
       else page.next.Some? && IsWalk(tables[1..], p, descending, size, page.next, pages[1..])
  }

  ghost predicate Matches(rows: seq<Row>, p: Row -> bool, key: Key) {
    exists x :: x in rows && x.key == key && p(x)
  }

  ghost function Positions(rows: seq<Row>, key: Key): set<nat> { set i: nat | i < |rows| && rows[i].key == key }

  /** However the table changes meanwhile, nothing is listed twice and the order is kept. */
  lemma {:induction false} WalkInOrder(tables: seq<seq<Row>>, p: Row -> bool, descending: bool, size: nat,
                                       start: Option<Key>, pages: seq<seq<Row>>)
    requires size > 0 && IsWalk(tables, p, descending, size, start, pages)
    ensures Listed(descending, Concat(pages))
    ensures forall x :: x in Concat(pages) ==> p(x) && Beyond(descending, start, x.key)
    decreases |tables|
  {
    PageInOrder(tables[0], p, descending, size, start);
    var page := FetchPage(tables[0], p, descending, size, start);
    if |tables| == 1 {
      assert Concat(pages) == page.items + Concat(pages[1..]) && pages[1..] == [];
    } else {
      WalkInOrder(tables[1..], p, descending, size, page.next, pages[1..]);
      OrderedJoin(descending, start, page.items, Concat(pages[1..]), page.next.value);
    }
  }

  lemma PageInOrder(rows: seq<Row>, p: Row -> bool, descending: bool, size: nat, cursor: Option<Key>)
    requires DistinctKeys(rows) && size > 0
    ensures var page := FetchPage(rows, p, descending, size, cursor);
            && Listed(descending, page.items)
            && (forall x :: x in page.items ==> p(x) && Beyond(descending, cursor, x.key))
            && (page.next.Some? ==> page.items != [] && page.items[|page.items| - 1].key == page.next.value)
  {
    ListingListed(rows, p, descending, cursor);
    var (all, page) := (Listing(rows, p, descending, cursor), FetchPage(rows, p, descending, size, cursor));
    assert page.items <= all;
  }

  lemma OrderedJoin(descending: bool, start: Option<Key>, a: seq<Row>, b: seq<Row>, cursor: Key)
    requires Listed(descending, a) && Listed(descending, b) && a != [] && a[|a| - 1].key == cursor
    requires forall x :: x in a ==> Beyond(descending, start, x.key)
    requires forall x :: x in b ==> Ahead(descending, cursor, x.key)
    ensures Listed(descending, a + b)
    ensures forall x :: x in b ==> Beyond(descending, start, x.key)
  {
    assert a[|a| - 1] in a;
    forall i, j | 0 <= i < j < |a + b| ensures Ahead(descending, (a + b)[i].key, (a + b)[j].key) {
      if i < |a| <= j { assert b[j - |a|] in b; }
    }
  }

  /** A key that is present and matches throughout the walk is listed. */
  lemma {:induction false} WalkFinds(tables: seq<seq<Row>>, p: Row -> bool, descending: bool, size: nat,
                                     start: Option<Key>, pages: seq<seq<Row>>, key: Key)
    requires size > 0 && IsWalk(tables, p, descending, size, start, pages) && Beyond(descending, start, key)
    requires forall i :: 0 <= i < |tables| ==> Matches(tables[i], p, key)
    ensures exists x :: x in Concat(pages) && x.key == key
    decreases |tables|
  {
    assert Matches(tables[0], p, key);
    var x :| x in tables[0] && x.key == key && p(x);
    var all := Listing(tables[0], p, descending, start);
    ListingListed(tables[0], p, descending, start);
    var page := FetchPage(tables[0], p, descending, size, start);
    var i :| 0 <= i < |all| && all[i] == x;
    if |tables| == 1 {
      assert page.items == all;
      assert x in pages[0] + Concat(pages[1..]);
    } else if i < size {
      assert page.items[i] == x;
      assert x in pages[0] + Concat(pages[1..]);
    } else {
      assert Ahead(descending, all[size - 1].key, all[i].key);
      assert forall k :: 0 <= k < |tables[1..]| ==> tables[1..][k] == tables[k + 1];
      WalkFinds(tables[1..], p, descending, size, page.next, pages[1..], key);
    }
  }

  /** Under concurrent writes, a row that is there and matches throughout the walk is listed exactly once. */
  lemma {:induction false} WalkListsOnce(tables: seq<seq<Row>>, p: Row -> bool, descending: bool, size: nat,
                                         pages: seq<seq<Row>>, key: Key) returns (i: nat)
    requires size > 0 && IsWalk(tables, p, descending, size, None, pages)
    requires forall i :: 0 <= i < |tables| ==> Matches(tables[i], p, key)
    ensures Positions(Concat(pages), key) == {i}
  {
    WalkFinds(tables, p, descending, size, None, pages, key);
    WalkInOrder(tables, p, descending, size, None, pages);
    var all := Concat(pages);
    ListedDistinct(descending, all);
    i :| 0 <= i < |all| && all[i].key == key;
    OnlyPosition(all, i);
  }

  lemma OnlyPosition(rows: seq<Row>, i: nat)
    requires DistinctKeys(rows) && i < |rows|
    ensures Positions(rows, rows[i].key) == {i}
  {
    assert forall j: nat :: j in Positions(rows, rows[i].key) ==> j == i;
  }

  lemma ListedDistinct(descending: bool, rows: seq<Row>)
    requires Listed(descending, rows)
    ensures DistinctKeys(rows)
  {
    forall i, j | 0 <= i < j < |rows| ensures rows[i].key != rows[j].key {
      AheadOrder(descending, rows[i].key, rows[j].key);
    }
  }

  /** Newest first in the one direction and oldest first in the other, by id where the times are the same. */
  lemma {:induction false} WalkByTime(tables: seq<seq<Row>>, p: Row -> bool, descending: bool, size: nat,
                                      pages: seq<seq<Row>>, i: nat, j: nat)
    requires size > 0 && IsWalk(tables, p, descending, size, None, pages) && i < j < |Concat(pages)|
    ensures var (x, y) := (Concat(pages)[i].key, Concat(pages)[j].key);
            if descending then x.at > y.at || (x.at == y.at && x.id > y.id)
            else x.at < y.at || (x.at == y.at && x.id < y.id)
  {
    WalkInOrder(tables, p, descending, size, None, pages);
  }

  // ---------------------------------------------------------------- the case-proof list

  datatype Lifecycle = PendingProof | SubmittedProof | ConfirmedProof | FailedProof

  function LifecycleOf(state: RequestState): Lifecycle {
    match state
    case Pending => PendingProof
    case Submitting => PendingProof
    case Submitted => SubmittedProof
    case Confirmed => ConfirmedProof
    case _ => FailedProof
  }

  function StoredStates(status: Lifecycle): set<RequestState> {
    match status
    case PendingProof => {Pending, Submitting}
    case SubmittedProof => {Submitted}
    case ConfirmedProof => {Confirmed}
    case FailedProof => {FailedRetryable, FailedPermanent, Conflict}
  }

  /** The status filter selects exactly the rows that are presented with that status. */
  lemma FilterIsPresentation(status: Lifecycle, state: RequestState)
    ensures state in StoredStates(status) <==> LifecycleOf(state) == status
  {
  }

  /** What each presented status stands for. */
  lemma PresentedStatus(state: RequestState)
    ensures LifecycleOf(state) == ConfirmedProof <==> state == Confirmed
    ensures LifecycleOf(state) == SubmittedProof <==> state == Submitted
    ensures LifecycleOf(state) == PendingProof <==> state == Pending || state == Submitting
    ensures LifecycleOf(state) == FailedProof <==> state in {Conflict, FailedRetryable, FailedPermanent}
  {
  }

  datatype Event = Event(proof: nat, kind: nat)

  function EventsOf(events: seq<Event>, proof: nat): seq<Event> {
    if events == [] then [] else
      EventsOf(events[..|events| - 1], proof)
      + if events[|events| - 1].proof == proof then [events[|events| - 1]] else []
  }

  /** list: the events of a page's proofs, gathered into a map in one pass. */
  method GroupEvents(events: seq<Event>) returns (byProof: map<nat, seq<Event>>)
    ensures forall proof :: proof in byProof <==> EventsOf(events, proof) != []
    ensures forall proof :: proof in byProof ==> byProof[proof] == EventsOf(events, proof)
  {
    byProof := map[];
    for k := 0 to |events|
      invariant forall proof :: proof in byProof <==> EventsOf(events[..k], proof) != []
      invariant forall proof :: proof in byProof ==> byProof[proof] == EventsOf(events[..k], proof)
    {
      assert events[..k + 1][..k] == events[..k];
      var proof := events[k].proof;
      var current := if proof in byProof then byProof[proof] else [];
      byProof := byProof[proof := current + [events[k]]];
    }
    assert events[..|events|] == events;
  }
}
