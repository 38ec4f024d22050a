/** The ticket store: tickets are objects whose priority is changed in place; the list a user
    sees is the stable sort by priority and creation time. */
module Tickets {
  import opened Prelude
  import opened Ordering
  import Tokens

  /** What a ticket holds at one moment. */
  datatype Row = Row(id: string, title: string, priority: int, createdAt: string, updatedAt: string)

  // ---- the order of the list ----

  predicate KeyLess(a: Row, b: Row) {
    a.priority < b.priority || (a.priority == b.priority && StringLess(a.createdAt, b.createdAt))
  }

  /** Row `i` is listed before row `j`. */
  predicate Before(rows: seq<Row>, i: nat, j: nat)
    requires i < |rows| && j < |rows|
  {
    KeyLess(rows[i], rows[j]) || (!KeyLess(rows[j], rows[i]) && i < j)
  }

  lemma {:induction false} KeyOrder(a: Row, b: Row, c: Row)
    ensures !KeyLess(b, a) && !KeyLess(c, b) ==> !KeyLess(c, a)
    ensures KeyLess(a, b) ==> !KeyLess(b, a)
  {
    StringOrder(a.createdAt, b.createdAt, c.createdAt);
    StringOrder(c.createdAt, b.createdAt, a.createdAt);
    StringOrder(c.createdAt, a.createdAt, b.createdAt);
    StringOrder(b.createdAt, a.createdAt, c.createdAt);
    StringOrder(a.createdAt, c.createdAt, b.createdAt);
    StringOrder(b.createdAt, c.createdAt, a.createdAt);
  }

  /** `sorted` by the key: insertion behind every row that is not greater. */
  function Insert(rows: seq<Row>, order: seq<nat>, i: nat): seq<nat>
    requires i < |rows| && forall k :: 0 <= k < |order| ==> order[k] < |rows|
  {
    if order == [] || !KeyLess(rows[i], rows[order[|order| - 1]]) then order + [i]
    else Insert(rows, order[..|order| - 1], i) + [order[|order| - 1]]
  }

  /** All positions below `n`, each once, every one listed before the next. */
  ghost predicate IsOrder(rows: seq<Row>, n: nat, order: seq<nat>)
    requires n <= |rows|
  {
    && (forall k :: 0 <= k < |order| ==> order[k] < n)
    && (forall i: nat :: i < n ==> i in order)
    && (forall j, k :: 0 <= j < k < |order| ==> Before(rows, order[j], order[k]))
  }

  lemma {:induction false} InsertMembers(rows: seq<Row>, order: seq<nat>, i: nat)
    requires i < |rows| && forall k :: 0 <= k < |order| ==> order[k] < |rows|
    ensures forall j: nat :: j in Insert(rows, order, i) <==> j in order || j == i
    ensures |Insert(rows, order, i)| == |order| + 1
  {
    if order != [] && KeyLess(rows[i], rows[order[|order| - 1]]) {
      var front, last := order[..|order| - 1], order[|order| - 1];
      InsertMembers(rows, front, i);
      assert order == front + [last];
    }
  }

  ghost predicate InOrder(rows: seq<Row>, order: seq<nat>) {
    && (forall k :: 0 <= k < |order| ==> order[k] < |rows|)
    && (forall j, k :: 0 <= j < k < |order| ==> Before(rows, order[j], order[k]))
  }

  lemma {:induction false} InOrderSnoc(rows: seq<Row>, front: seq<nat>, last: nat)
    requires InOrder(rows, front) && last < |rows|
    requires forall k: nat :: k in front ==> k < |rows| && Before(rows, k, last)
    ensures InOrder(rows, front + [last])
  {
    assert forall k :: 0 <= k < |front| ==> front[k] in front;
  }

  /** A row that is not less than the last one comes behind them all. */
  lemma {:induction false} AllBefore(rows: seq<Row>, order: seq<nat>, i: nat)
    requires i < |rows| && InOrder(rows, order) && forall k :: 0 <= k < |order| ==> order[k] < i
    requires order != [] && !KeyLess(rows[i], rows[order[|order| - 1]])
    ensures forall k: nat :: k in order ==> k < |rows| && Before(rows, k, i)
  {
    hide KeyLess;
    var last := |order| - 1;
    forall k: nat | k in order
      ensures k < |rows| && Before(rows, k, i)
    {
      var j :| 0 <= j < |order| && order[j] == k;
      assert j < last ==> Before(rows, order[j], order[last]);
      KeyOrder(rows[k], rows[order[last]], rows[i]);
      KeyOrder(rows[k], rows[order[last]], rows[k]);
    }
  }

  lemma {:induction false} InsertInOrder(rows: seq<Row>, order: seq<nat>, i: nat)
    requires i < |rows| && InOrder(rows, order) && forall k :: 0 <= k < |order| ==> order[k] < i
    ensures InOrder(rows, Insert(rows, order, i))
  {
    if order == [] {
    } else {
      var front, last := order[..|order| - 1], order[|order| - 1];
      assert order == front + [last];
      assert last in order;
      if KeyLess(rows[i], rows[last]) {
        InsertInOrder(rows, front, i);
        InsertMembers(rows, front, i);
        var rest := Insert(rows, front, i);
        forall k: nat | k in rest
          ensures k < |rows| && Before(rows, k, last)
        {
          if k in front {
            var j :| 0 <= j < |front| && front[j] == k;
            assert order[j] == k && order[|front|] == last;
          }
        }
        InOrderSnoc(rows, rest, last);
      } else {
        AllBefore(rows, order, i);
        InOrderSnoc(rows, order, i);
      }
    }
  }

  function OrderUpTo(rows: seq<Row>, n: nat): (order: seq<nat>)
    requires n <= |rows|
    ensures forall k :: 0 <= k < |order| ==> order[k] < n
  {
    if n == 0 then []
    else
      var front := OrderUpTo(rows, n - 1);
      InsertMembers(rows, front, n - 1);
      var order := Insert(rows, front, n - 1);
      assert forall k :: 0 <= k < |order| ==> order[k] in order;
      order
  }

  lemma {:induction false} OrderIsOrder(rows: seq<Row>, n: nat)
    requires n <= |rows|
    ensures IsOrder(rows, n, OrderUpTo(rows, n)) && |OrderUpTo(rows, n)| == n
  {
    if n > 0 {
      OrderIsOrder(rows, n - 1);
      InsertMembers(rows, OrderUpTo(rows, n - 1), n - 1);
      InsertInOrder(rows, OrderUpTo(rows, n - 1), n - 1);
    }
  }

  // ---- the list of ids a user sees ----

  ghost predicate UniqueRows(rows: seq<Row>) {
    forall i, j :: 0 <= i < j < |rows| ==> rows[i].id != rows[j].id
  }

  /** The ids in the order of the list. */
  function Listed(rows: seq<Row>): (ids: seq<string>)
  {
    var order := OrderUpTo(rows, |rows|);
    seq(|order|, k requires 0 <= k < |order| => rows[order[k]].id)
  }

  ghost predicate At(rows: seq<Row>, i: nat, id: string) {
    i < |rows| && rows[i].id == id
  }

  ghost predicate HasId(rows: seq<Row>, id: string) {
    exists i: nat :: At(rows, i, id)
  }

  ghost predicate Precedes(rows: seq<Row>, a: string, b: string) {
    exists i: nat, j: nat :: At(rows, i, a) && At(rows, j, b) && Before(rows, i, j)
  }

  /** `ids` are the ids of `rows`, each once, in the order of the list. */
  ghost predicate IsListing(rows: seq<Row>, ids: seq<string>) {
    && Distinct(ids)
    && (forall id :: id in ids <==> HasId(rows, id))
    && (forall j, k :: 0 <= j < k < |ids| ==> Precedes(rows, ids[j], ids[k]))
  }

  lemma {:induction false} ListedIsListing(rows: seq<Row>)
    requires UniqueRows(rows)
    ensures IsListing(rows, Listed(rows))
  {
    OrderIsOrder(rows, |rows|);
    var order, ids := OrderUpTo(rows, |rows|), Listed(rows);
    hide OrderUpTo, Before;
    forall j, k | 0 <= j < k < |ids|
      ensures Precedes(rows, ids[j], ids[k]) && ids[j] != ids[k]
    {
      assert At(rows, order[j], ids[j]) && At(rows, order[k], ids[k]);
      assert order[j] != order[k] by {
        NotBeforeItself(rows, order[j]);
      }
    }
    forall id
      ensures id in ids <==> HasId(rows, id)
    {
      if i: nat :| At(rows, i, id) {
        assert i in order;
        var k :| 0 <= k < |order| && order[k] == i;
        assert ids[k] == id;
      }
      if id in ids {
        var k :| 0 <= k < |ids| && ids[k] == id;
        assert At(rows, order[k], id);
      }
    }
  }

  lemma {:induction false} NotBeforeItself(rows: seq<Row>, i: nat)
    requires i < |rows|
    ensures !Before(rows, i, i)
  {
    KeyOrder(rows[i], rows[i], rows[i]);
  }

  lemma {:induction false} OneWay(rows: seq<Row>, a: string, b: string)
    requires UniqueRows(rows) && Precedes(rows, a, b)
    ensures !Precedes(rows, b, a)
  {
    var i: nat, j: nat :| At(rows, i, a) && At(rows, j, b) && Before(rows, i, j);
    KeyOrder(rows[i], rows[j], rows[i]);
    assert !Before(rows, j, i);
    hide Before;
    assert forall k: nat :: At(rows, k, a) ==> k == i;
    assert forall k: nat :: At(rows, k, b) ==> k == j;
  }

  /** There is one listing only. */
  lemma {:induction false} ListingUnique(rows: seq<Row>, a: seq<string>, b: seq<string>, n: nat)
    requires UniqueRows(rows) && IsListing(rows, a) && IsListing(rows, b) && n <= |a| && n <= |b|
    ensures a[..n] == b[..n]
  {
    if n > 0 {
      ListingUnique(rows, a, b, n - 1);
      var k := n - 1;
      hide UniqueRows, Precedes, HasId;
      assert a[k] in a && b[k] in b;
      var m := FoundLater(a, b, k);
      var l := FoundLater(b, a, k);
      if k < m && k < l {
        OneWay(rows, a[k], a[l]);
      }
    }
  }

  lemma {:induction false} FoundLater(a: seq<string>, b: seq<string>, k: nat) returns (m: nat)
    requires k < |a| && k < |b| && a[..k] == b[..k] && Distinct(a) && a[k] in b
    ensures k <= m < |b| && b[m] == a[k]
  {
    m :| 0 <= m < |b| && b[m] == a[k];
    assert forall i :: 0 <= i < k ==> b[i] == b[..k][i] == a[..k][i] == a[i];
  }

  lemma {:induction false} ListingIsListed(rows: seq<Row>, ids: seq<string>)
    requires UniqueRows(rows) && IsListing(rows, ids)
    ensures Listed(rows) == ids
  {
    ListedIsListing(rows);
    hide Listed, HasId, Precedes;
    var a := Listed(rows);
    SetLength(a, ids);
    ListingUnique(rows, a, ids, |a|);
    assert a[..|a|] == a && ids[..|a|] == ids;
  }

  lemma {:induction false} SetLength(a: seq<string>, b: seq<string>)
    requires Distinct(a) && Distinct(b) && forall id :: id in a <==> id in b
    ensures |a| == |b|
  {
    DistinctCount(a);
    DistinctCount(b);
    assert (set id | id in a) == (set id | id in b);
  }

  lemma {:induction false} DistinctCount(a: seq<string>)
    requires Distinct(a)
    ensures |set id | id in a| == |a|
  {
    if a != [] {
      var front, last := a[..|a| - 1], a[|a| - 1];
      DistinctCount(front);
      assert a == front + [last];
      assert (set id | id in a) == (set id | id in front) + {last};
    }
  }

  /** The order of the list, spelled out: by priority, then by creation time as text, then by
      position in the store. */
  lemma {:induction false} ListedByKey(rows: seq<Row>, j: nat, k: nat) returns (a: nat, b: nat)
    requires UniqueRows(rows) && j < k < |Listed(rows)|
    ensures At(rows, a, Listed(rows)[j]) && At(rows, b, Listed(rows)[k])
    ensures rows[a].priority < rows[b].priority
            || (rows[a].priority == rows[b].priority
                && (StringLess(rows[a].createdAt, rows[b].createdAt) || (rows[a].createdAt == rows[b].createdAt && a < b)))
  {
    ListedIsListing(rows);
    hide Listed;
    var ids := Listed(rows);
    assert Precedes(rows, ids[j], ids[k]);
    a, b :| At(rows, a, ids[j]) && At(rows, b, ids[k]) && Before(rows, a, b);
    StringOrder(rows[a].createdAt, rows[b].createdAt, rows[a].createdAt);
    hide StringLess;
  }

  // ---- what the operations do to the list ----

  /** The priorities are a permutation of 0..n-1. */
  ghost predicate Permutation(rows: seq<Row>) {
    && (forall i :: 0 <= i < |rows| ==> 0 <= rows[i].priority < |rows|)
    && (forall i, j :: 0 <= i < j < |rows| ==> rows[i].priority != rows[j].priority)
  }

  /** Creating appends to the list and continues the numbering. */
  lemma {:induction false} CreateAppends(rows: seq<Row>, r: Row)
    requires UniqueRows(rows) && !HasId(rows, r.id) && r.priority == |rows| && Permutation(rows)
    ensures UniqueRows(rows + [r]) && Permutation(rows + [r])
    ensures Listed(rows + [r]) == Listed(rows) + [r.id]
  {
    assert forall i: nat :: i < |rows| ==> At(rows, i, rows[i].id);
    var ids := Listed(rows);
    ListedIsListing(rows);
    hide Listed;
    AppendedListing(rows, r, ids);
    ListingIsListed(rows + [r], ids + [r.id]);
  }

  lemma {:induction false} AppendedListing(rows: seq<Row>, r: Row, ids: seq<string>)
    requires IsListing(rows, ids) && !HasId(rows, r.id)
    requires forall i :: 0 <= i < |rows| ==> !KeyLess(r, rows[i])
    ensures IsListing(rows + [r], ids + [r.id])
  {
    var next, all := rows + [r], ids + [r.id];
    assert At(next, |rows|, r.id);
    forall id
      ensures id in all <==> HasId(next, id)
    {
      if i: nat :| At(rows, i, id) {
        assert At(next, i, id);
      }
      if i: nat :| At(next, i, id) {
        assert i < |rows| ==> At(rows, i, id);
      }
    }
    forall j, k | 0 <= j < k < |all|
      ensures Precedes(next, all[j], all[k]) && all[j] != all[k]
    {
      assert ids[j] in ids;
      if k < |ids| {
        PrecedesLater(rows, r, ids[j], ids[k]);
      } else {
        var i: nat :| At(rows, i, ids[j]);
        assert At(next, i, ids[j]) && Before(next, i, |rows|);
      }
    }
  }

  lemma {:induction false} PrecedesLater(rows: seq<Row>, r: Row, a: string, b: string)
    requires Precedes(rows, a, b)
    ensures Precedes(rows + [r], a, b)
  {
    var i: nat, j: nat :| At(rows, i, a) && At(rows, j, b) && Before(rows, i, j);
    assert At(rows + [r], i, a) && At(rows + [r], j, b) && Before(rows + [r], i, j);
  }

  function CutAt<T>(s: seq<T>, p: nat): seq<T>
    requires p < |s|
  {
    s[..p] + s[p + 1..]
  }

  /** Taking a row out takes its id out of the list and moves no other. */
  lemma {:induction false} CutListing(rows: seq<Row>, p: nat, ids: seq<string>, q: nat)
    requires UniqueRows(rows) && IsListing(rows, ids) && p < |rows| && q < |ids| && ids[q] == rows[p].id
    ensures UniqueRows(CutAt(rows, p)) && IsListing(CutAt(rows, p), CutAt(ids, q))
  {
    var left, rest := CutAt(rows, p), CutAt(ids, q);
    forall id
      ensures id in rest <==> HasId(left, id)
    {
      IdsOfCut(rows, p, id);
      CutMember(ids, q, id);
    }
    forall j, k | 0 <= j < k < |rest|
      ensures Precedes(left, rest[j], rest[k]) && rest[j] != rest[k]
    {
      var j', k' := (if j < q then j else j + 1), (if k < q then k else k + 1);
      assert rest[j] == ids[j'] && rest[k] == ids[k'] && ids[j'] != ids[q] && ids[k'] != ids[q];
      PrecedesWithout(rows, p, ids[j'], ids[k']);
    }
  }

  lemma {:induction false} CutMember(ids: seq<string>, q: nat, id: string)
    requires Distinct(ids) && q < |ids|
    ensures id in CutAt(ids, q) <==> id in ids && id != ids[q]
  {
    var rest := CutAt(ids, q);
    if k :| 0 <= k < |ids| && ids[k] == id && k != q {
      assert rest[if k < q then k else k - 1] == id;
    }
    if k :| 0 <= k < |rest| && rest[k] == id {
      assert ids[if k < q then k else k + 1] == id;
    }
  }

  lemma {:induction false} IdsOfCut(rows: seq<Row>, p: nat, id: string)
    requires UniqueRows(rows) && p < |rows|
    ensures HasId(CutAt(rows, p), id) <==> HasId(rows, id) && id != rows[p].id
  {
    var left := CutAt(rows, p);
    if i: nat :| At(rows, i, id) {
      assert i != p ==> At(left, if i < p then i else i - 1, id);
    }
    if i: nat :| At(left, i, id) {
      assert At(rows, if i < p then i else i + 1, id);
    }
  }

  lemma {:induction false} PrecedesWithout(rows: seq<Row>, p: nat, a: string, b: string)
    requires Precedes(rows, a, b) && p < |rows| && a != rows[p].id && b != rows[p].id
    ensures Precedes(CutAt(rows, p), a, b)
  {
    var left := CutAt(rows, p);
    var i: nat, j: nat :| At(rows, i, a) && At(rows, j, b) && Before(rows, i, j);
    var i': nat, j': nat := (if i < p then i else i - 1), (if j < p then j else j - 1);
    assert At(left, i', a) && At(left, j', b) && Before(left, i', j');
  }

  // ---- priorities by position ----

  /** Position of the last occurrence of `id`. */
  function LastPosition(ids: seq<string>, id: string): (k: nat)
    requires id in ids
    ensures k < |ids| && ids[k] == id && forall j :: k < j < |ids| ==> ids[j] != id
  {
    if ids[|ids| - 1] == id then |ids| - 1
    else
      assert ids == ids[..|ids| - 1] + [ids[|ids| - 1]];
      LastPosition(ids[..|ids| - 1], id)
  }

  /** Every row gets the position of its id; `updated_at` changes only with the priority, and
      only when a time is given. */
  function Placed(rows: seq<Row>, ids: seq<string>, now: Option<string>): (r: seq<Row>)
    requires forall i :: 0 <= i < |rows| ==> rows[i].id in ids
    ensures |r| == |rows|
  {
    seq(|rows|, i requires 0 <= i < |rows| => PlacedRow(rows[i], LastPosition(ids, rows[i].id), now))
  }

  function PlacedRow(r: Row, position: nat, now: Option<string>): Row {
    if r.priority == position then r
    else r.(priority := position, updatedAt := if now.Some? then now.value else r.updatedAt)
  }

  /** Each id once, at its last occurrence. */
  function LastOccurrences(ids: seq<string>): seq<string> {
    if ids == [] then []
    else if ids[0] in ids[1..] then LastOccurrences(ids[1..])
    else [ids[0]] + LastOccurrences(ids[1..])
  }

  lemma {:induction false} PositionInTail(ids: seq<string>, id: string)
    requires ids != [] && id in ids[1..]
    ensures LastPosition(ids, id) == LastPosition(ids[1..], id) + 1
  {
    var k := LastPosition(ids[1..], id);
    assert ids[k + 1] == id && forall j :: k + 1 < j < |ids| ==> ids[j] == ids[1..][j - 1];
  }

  lemma {:induction false} LastOccurrencesShape(ids: seq<string>)
    ensures forall id :: id in LastOccurrences(ids) <==> id in ids
    ensures Distinct(LastOccurrences(ids))
    ensures |LastOccurrences(ids)| <= |ids|
    ensures |LastOccurrences(ids)| == |ids| <==> Distinct(ids)
    ensures Distinct(ids) ==> LastOccurrences(ids) == ids
  {
    if ids != [] {
      var tail := ids[1..];
      LastOccurrencesShape(tail);
      assert ids == [ids[0]] + tail;
      var rest := LastOccurrences(tail);
      assert forall k :: 0 <= k < |rest| ==> rest[k] in rest;
      assert Distinct(ids) <==> ids[0] !in tail && Distinct(tail);
    }
  }

  ghost predicate Rising(ids: seq<string>, shown: seq<string>) {
    && (forall k :: 0 <= k < |shown| ==> shown[k] in ids)
    && (forall j, k :: 0 <= j < k < |shown| ==> LastPosition(ids, shown[j]) < LastPosition(ids, shown[k]))
  }

  lemma {:induction false} RisingInTail(ids: seq<string>, shown: seq<string>)
    requires ids != [] && Rising(ids[1..], shown)
    ensures Rising(ids, shown)
  {
    hide LastPosition;
    forall k | 0 <= k < |shown|
      ensures shown[k] in ids && LastPosition(ids, shown[k]) == LastPosition(ids[1..], shown[k]) + 1
    {
      PositionInTail(ids, shown[k]);
    }
  }

  lemma {:induction false} RisingFromHead(ids: seq<string>, shown: seq<string>)
    requires ids != [] && ids[0] !in ids[1..] && Rising(ids[1..], shown)
    ensures Rising(ids, [ids[0]] + shown)
  {
    RisingInTail(ids, shown);
    HeadPosition(ids);
    hide LastPosition;
    assert forall k :: 0 <= k < |shown| ==> shown[k] != ids[0];
  }

  /** Last occurrences are listed by rising position. */
  lemma {:induction false} LastOccurrencesRise(ids: seq<string>)
    ensures Rising(ids, LastOccurrences(ids))
  {
    if ids != [] {
      LastOccurrencesRise(ids[1..]);
      hide Rising;
      if ids[0] in ids[1..] {
        RisingInTail(ids, LastOccurrences(ids[1..]));
      } else {
        RisingFromHead(ids, LastOccurrences(ids[1..]));
      }
    }
  }

  lemma {:induction false} HeadPosition(ids: seq<string>)
    requires ids != [] && ids[0] !in ids[1..]
    ensures LastPosition(ids, ids[0]) == 0
  {
    assert forall k :: 1 <= k < |ids| ==> ids[k] == ids[1..][k - 1];
  }

  ghost predicate SameIds(rows: seq<Row>, ids: seq<string>) {
    forall id :: id in ids <==> HasId(rows, id)
  }

  /** The list shows every id at its last position in `ids`. */
  lemma {:induction false} PlacedListing(rows: seq<Row>, ids: seq<string>, now: Option<string>)
    requires UniqueRows(rows) && SameIds(rows, ids)
    requires forall i :: 0 <= i < |rows| ==> rows[i].id in ids
    ensures UniqueRows(Placed(rows, ids, now))
    ensures Listed(Placed(rows, ids, now)) == LastOccurrences(ids)
  {
    hide *;
    PlacedIds(rows, ids, now);
    PlacedIsListing(rows, ids, now);
    ListingIsListed(Placed(rows, ids, now), LastOccurrences(ids));
  }

  lemma {:induction false} PlacedIsListing(rows: seq<Row>, ids: seq<string>, now: Option<string>)
    requires SameIds(rows, ids) && forall i :: 0 <= i < |rows| ==> rows[i].id in ids
    ensures IsListing(Placed(rows, ids, now), LastOccurrences(ids))
  {
    hide Placed, LastOccurrences, Precedes, LastPosition, HasId, Rising;
    LastOccurrencesShape(ids);
    LastOccurrencesRise(ids);
    PlacedIds(rows, ids, now);
    PlacedRising(rows, ids, now, LastOccurrences(ids));
  }

  lemma {:induction false} PlacedRising(rows: seq<Row>, ids: seq<string>, now: Option<string>, shown: seq<string>)
    requires SameIds(rows, ids) && forall i :: 0 <= i < |rows| ==> rows[i].id in ids
    requires Rising(ids, shown)
    ensures forall j, k :: 0 <= j < k < |shown| ==> Precedes(Placed(rows, ids, now), shown[j], shown[k])
  {
    hide Placed, Precedes, LastPosition, SameIds;
    forall j, k | 0 <= j < k < |shown|
      ensures Precedes(Placed(rows, ids, now), shown[j], shown[k])
    {
      PlacedPrecedes(rows, ids, now, shown[j], shown[k]);
    }
  }

  lemma {:induction false} PlacedIds(rows: seq<Row>, ids: seq<string>, now: Option<string>)
    requires forall i :: 0 <= i < |rows| ==> rows[i].id in ids
    ensures UniqueRows(rows) ==> UniqueRows(Placed(rows, ids, now))
    ensures forall id :: HasId(Placed(rows, ids, now), id) <==> HasId(rows, id)
  {
    hide LastPosition;
    forall id
      ensures HasId(Placed(rows, ids, now), id) <==> HasId(rows, id)
    {
      assert forall i: nat :: At(Placed(rows, ids, now), i, id) <==> At(rows, i, id);
    }
  }

  lemma {:induction false} PlacedPrecedes(rows: seq<Row>, ids: seq<string>, now: Option<string>, a: string, b: string)
    requires SameIds(rows, ids) && forall i :: 0 <= i < |rows| ==> rows[i].id in ids
    requires a in ids && b in ids && LastPosition(ids, a) < LastPosition(ids, b)
    ensures Precedes(Placed(rows, ids, now), a, b)
  {
    hide LastPosition;
    var placed := Placed(rows, ids, now);
    var i: nat :| At(rows, i, a);
    var j: nat :| At(rows, j, b);
    assert At(placed, i, a) && At(placed, j, b) && Before(placed, i, j);
  }

  function IdsOf(rows: seq<Row>): (ids: seq<string>)
    ensures |ids| == |rows|
  {
    seq(|rows|, i requires 0 <= i < |rows| => rows[i].id)
  }

  /** Positions are a permutation exactly when no id is given twice. */
  lemma {:induction false} PlacedPermutation(rows: seq<Row>, ids: seq<string>, now: Option<string>)
    requires UniqueRows(rows) && SameIds(rows, ids)
    requires forall i :: 0 <= i < |rows| ==> rows[i].id in ids
    ensures Permutation(Placed(rows, ids, now)) <==> Distinct(ids)
  {
    PlacedCount(rows, ids);
    LastOccurrencesShape(ids);
    PlacedIds(rows, ids, now);
    hide LastOccurrences, LastPosition, HasId;
    if Distinct(ids) {
      DistinctPositions(rows, ids, now);
    } else {
      TooHigh(rows, ids, now);
    }
  }

  lemma {:induction false} DistinctPositions(rows: seq<Row>, ids: seq<string>, now: Option<string>)
    requires UniqueRows(rows) && |ids| == |rows|
    requires forall i :: 0 <= i < |rows| ==> rows[i].id in ids
    ensures Permutation(Placed(rows, ids, now))
  {
    hide LastPosition;
    var placed := Placed(rows, ids, now);
    assert forall i :: 0 <= i < |rows| ==> placed[i].id == rows[i].id == ids[placed[i].priority];
  }

  lemma {:induction false} TooHigh(rows: seq<Row>, ids: seq<string>, now: Option<string>)
    requires SameIds(rows, ids) && |ids| > |rows|
    requires forall i :: 0 <= i < |rows| ==> rows[i].id in ids
    ensures !Permutation(Placed(rows, ids, now))
  {
    var last := ids[|ids| - 1];
    assert last in ids && HasId(rows, last);
    var i: nat :| At(rows, i, last);
    assert Placed(rows, ids, now)[i].priority == |ids| - 1;
  }

  lemma {:induction false} PlacedCount(rows: seq<Row>, ids: seq<string>)
    requires UniqueRows(rows) && SameIds(rows, ids)
    ensures |LastOccurrences(ids)| == |rows|
  {
    LastOccurrencesShape(ids);
    hide LastOccurrences;
    forall id
      ensures id in IdsOf(rows) <==> HasId(rows, id)
    {
      assert forall i: nat :: i < |rows| ==> (IdsOf(rows)[i] == id <==> At(rows, i, id));
    }
    SetLength(IdsOf(rows), LastOccurrences(ids));
  }

  // ---- deleting ----

  lemma {:induction false} EveryIdListed(rows: seq<Row>)
    requires UniqueRows(rows)
    ensures Distinct(Listed(rows)) && SameIds(rows, Listed(rows))
    ensures forall i :: 0 <= i < |rows| ==> rows[i].id in Listed(rows)
  {
    ListedIsListing(rows);
    hide Listed;
    assert forall i: nat :: i < |rows| ==> At(rows, i, rows[i].id);
  }

  /** The priorities become the positions in the list. */
  ghost function Renumbered(rows: seq<Row>): seq<Row>
    requires UniqueRows(rows)
  {
    EveryIdListed(rows);
    Placed(rows, Listed(rows), None)
  }

  /** Renumbering restores a permutation from any priorities and moves nothing. */
  lemma {:induction false} RenumberKeepsList(rows: seq<Row>)
    requires UniqueRows(rows)
    ensures UniqueRows(Renumbered(rows)) && Permutation(Renumbered(rows))
    ensures Listed(Renumbered(rows)) == Listed(rows)
  {
    EveryIdListed(rows);
    assert Renumbered(rows) == Placed(rows, Listed(rows), None);
    hide *;
    PlacedListing(rows, Listed(rows), None);
    PlacedPermutation(rows, Listed(rows), None);
    LastOccurrencesShape(Listed(rows));
  }

  /** Deleting takes the id out of the list, moves no other, and renumbers. */
  lemma {:induction false} DeleteRemoves(rows: seq<Row>, p: nat)
    requires UniqueRows(rows) && p < |rows|
    ensures var kept := CutAt(rows, p);
      && UniqueRows(kept) && UniqueRows(Renumbered(kept)) && Permutation(Renumbered(kept))
      && rows[p].id in Listed(rows)
      && Listed(Renumbered(kept)) == CutAt(Listed(rows), LastPosition(Listed(rows), rows[p].id))
  {
    var kept, ids := CutAt(rows, p), Listed(rows);
    ListedIsListing(rows);
    assert At(rows, p, rows[p].id);
    var q := LastPosition(ids, rows[p].id);
    hide *;
    CutListing(rows, p, ids, q);
    ListingIsListed(kept, CutAt(ids, q));
    RenumberKeepsList(kept);
  }

  // ---- the store ----

  class Ticket {
    const id: string
    const title: string
    const createdAt: string
    var priority: int
    var updatedAt: string

    constructor (id: string, title: string, priority: int, now: string)
      ensures this.id == id && this.title == title && this.createdAt == now
      ensures this.priority == priority && updatedAt == now
    {
      this.id, this.title, this.createdAt := id, title, now;
      this.priority, updatedAt := priority, now;
    }
  }

  function RowOf(t: Ticket): Row
    reads t
  {
    Row(t.id, t.title, t.priority, t.createdAt, t.updatedAt)
  }

  function RowsOf(list: seq<Ticket>): (rows: seq<Row>)
    reads list
    ensures |rows| == |list| && forall i :: 0 <= i < |list| ==> rows[i] == RowOf(list[i])
  {
    if list == [] then [] else RowsOf(list[..|list| - 1]) + [RowOf(list[|list| - 1])]
  }

  /** `_sorted`: the same objects in the order of the list. */
  method Sorted(list: seq<Ticket>) returns (sorted: seq<Ticket>)
    ensures |sorted| == |list| == |OrderUpTo(RowsOf(list), |list|)|
    ensures forall k :: 0 <= k < |list| ==> sorted[k] == list[OrderUpTo(RowsOf(list), |list|)[k]]
    ensures IdsOf(RowsOf(sorted)) == Listed(RowsOf(list))
  {
    var order := OrderUpTo(RowsOf(list), |list|);
    OrderIsOrder(RowsOf(list), |list|);
    hide OrderUpTo, IsOrder;
    sorted := seq(|order|, k requires 0 <= k < |order| => list[order[k]]);
  }

  lemma {:induction false} NumberedInOrder(rows: seq<Row>, done: seq<Row>)
    requires UniqueRows(rows) && |done| == |rows|
    requires var order := OrderUpTo(rows, |rows|);
      forall k :: 0 <= k < |order| ==> done[order[k]] == rows[order[k]].(priority := k)
    ensures done == Renumbered(rows)
  {
    var order := OrderUpTo(rows, |rows|);
    EveryIdListed(rows);
    forall i: nat | i < |rows|
      ensures done[i] == Renumbered(rows)[i]
    {
      var k := PlaceInOrder(rows, i);
      hide OrderUpTo, UniqueRows, Listed, LastPosition;
      assert done[order[k]] == rows[i].(priority := k);
    }
  }

  lemma {:induction false} PlaceInOrder(rows: seq<Row>, i: nat) returns (k: nat)
    requires UniqueRows(rows) && i < |rows|
    ensures k < |OrderUpTo(rows, |rows|)| && OrderUpTo(rows, |rows|)[k] == i
    ensures rows[i].id in Listed(rows) && LastPosition(Listed(rows), rows[i].id) == k
  {
    var order := OrderUpTo(rows, |rows|);
    OrderIsOrder(rows, |rows|);
    EveryIdListed(rows);
    var ids := Listed(rows);
    assert forall m :: 0 <= m < |order| ==> ids[m] == rows[order[m]].id;
    hide OrderUpTo, Before, UniqueRows, Listed, SameIds;
    assert i in order;
    k :| 0 <= k < |order| && order[k] == i;
  }

  lemma {:induction false} OrderCovers(rows: seq<Row>)
    ensures var order := OrderUpTo(rows, |rows|);
      |order| == |rows| && forall j, k :: 0 <= j < k < |order| ==> order[j] != order[k]
  {
    OrderIsOrder(rows, |rows|);
    var order := OrderUpTo(rows, |rows|);
    forall j, k | 0 <= j < k < |order|
      ensures order[j] != order[k]
    {
      NotBeforeItself(rows, order[j]);
    }
  }

  /** The loop of `delete_ticket` that numbers the sorted tickets. */
  method Renumber(list: seq<Ticket>)
    requires UniqueRows(RowsOf(list))
    modifies (set t | t in list)`priority
    ensures RowsOf(list) == Renumbered(old(RowsOf(list)))
  {
    hide RowsOf, OrderUpTo, Renumbered, Listed, IdsOf, Before;
    ghost var rows := RowsOf(list);
    ghost var order := OrderUpTo(rows, |rows|);
    OrderCovers(rows);
    assert forall i, j :: 0 <= i < j < |list| ==> list[i] != list[j] by {
      assert forall i, j :: 0 <= i < j < |list| ==> rows[i].id != rows[j].id;
    }
    var sorted := Sorted(list);
    hide UniqueRows;
    for k := 0 to |sorted|
      invariant forall j :: 0 <= j < k ==> sorted[j].priority == j
    {
      sorted[k].priority := k;
    }
    ghost var after := RowsOf(list);
    forall k | 0 <= k < |order|
      ensures after[order[k]] == rows[order[k]].(priority := k)
    {
      assert sorted[k] == list[order[k]];
    }
    NumberedInOrder(rows, after);
  }

  lemma {:induction false} RowsOfCut(list: seq<Ticket>, p: nat)
    requires p < |list|
    ensures RowsOf(CutAt(list, p)) == CutAt(RowsOf(list), p)
    ensures forall k :: 0 <= k < |CutAt(list, p)| ==> CutAt(list, p)[k] in list
  {
    hide RowsOf;
  }

  /** The tickets that do not carry `tid`. */
  function Without(list: seq<Ticket>, tid: string): seq<Ticket> {
    if list == [] then []
    else Without(list[..|list| - 1], tid) + (if list[|list| - 1].id != tid then [list[|list| - 1]] else [])
  }

  lemma {:induction false} WithoutAbsent(list: seq<Ticket>, tid: string)
    requires forall i :: 0 <= i < |list| ==> list[i].id != tid
    ensures Without(list, tid) == list
  {
    if list != [] {
      WithoutAbsent(list[..|list| - 1], tid);
    }
  }

  lemma {:induction false} WithoutOne(list: seq<Ticket>, tid: string, p: nat)
    requires p < |list| && list[p].id == tid && forall i :: 0 <= i < |list| && i != p ==> list[i].id != tid
    ensures Without(list, tid) == CutAt(list, p)
  {
    var front, last := list[..|list| - 1], list[|list| - 1];
    if p == |front| {
      WithoutAbsent(front, tid);
    } else {
      WithoutOne(front, tid, p);
      assert CutAt(list, p) == CutAt(front, p) + [last];
    }
  }

  /** With unique ids one ticket goes, or none. */
  lemma {:induction false} WithoutCuts(list: seq<Ticket>, tid: string) returns (p: nat)
    requires UniqueRows(RowsOf(list))
    ensures |Without(list, tid)| != |list| <==> HasId(RowsOf(list), tid)
    ensures !HasId(RowsOf(list), tid) ==> Without(list, tid) == list
    ensures HasId(RowsOf(list), tid) ==> At(RowsOf(list), p, tid) && Without(list, tid) == CutAt(list, p)
  {
    hide RowsOf, Without;
    var rows := RowsOf(list);
    p := 0;
    assert forall i: nat :: i < |list| ==> (At(rows, i, tid) <==> list[i].id == tid);
    if HasId(rows, tid) {
      p :| At(rows, p, tid);
      assert forall i :: 0 <= i < |list| && i != p ==> rows[i].id != rows[p].id;
      WithoutOne(list, tid, p);
    } else {
      WithoutAbsent(list, tid);
    }
  }

  /** The comprehension of `delete_ticket`. */
  method Filter(list: seq<Ticket>, tid: string) returns (kept: seq<Ticket>)
    ensures kept == Without(list, tid)
  {
    kept := [];
    for i := 0 to |list|
      invariant kept == Without(list[..i], tid)
    {
      assert list[..i + 1][..i] == list[..i];
      if list[i].id != tid {
        kept := kept + [list[i]];
      }
    }
    assert list[..|list|] == list;
  }

  /** One row taken out and the rest renumbered. */
  ghost predicate IsDeletion(before: seq<Row>, tid: string, after: seq<Row>) {
    exists p: nat :: At(before, p, tid) && UniqueRows(CutAt(before, p)) && after == Renumbered(CutAt(before, p))
  }

  lemma {:induction false} OneDeletion(before: seq<Row>, p: nat, tid: string)
    requires At(before, p, tid) && UniqueRows(CutAt(before, p))
    ensures IsDeletion(before, tid, Renumbered(CutAt(before, p)))
  {
  }

  lemma {:induction false} UniqueCut(rows: seq<Row>, p: nat)
    requires UniqueRows(rows) && p < |rows|
    ensures UniqueRows(CutAt(rows, p))
  {
  }

  lemma {:induction false} DeletionShown(before: seq<Row>, tid: string, after: seq<Row>)
    requires UniqueRows(before) && IsDeletion(before, tid, after)
    ensures UniqueRows(after) && Permutation(after) && tid in Listed(before)
    ensures Listed(after) == CutAt(Listed(before), LastPosition(Listed(before), tid))
  {
    var p: nat :| At(before, p, tid) && UniqueRows(CutAt(before, p)) && after == Renumbered(CutAt(before, p));
    DeleteRemoves(before, p);
  }

  /** Every row at the position of its id. */
  ghost predicate IsReorder(before: seq<Row>, ids: seq<string>, now: string, after: seq<Row>) {
    && SameIds(before, ids)
    && (forall i :: 0 <= i < |before| ==> before[i].id in ids)
    && after == Placed(before, ids, Some(now))
  }

  /** The list is exactly the given order; an id given twice counts at its last place, and
      then the priorities are no permutation any more. */
  lemma {:induction false} ReorderShown(before: seq<Row>, ids: seq<string>, now: string, after: seq<Row>)
    requires UniqueRows(before) && IsReorder(before, ids, now, after)
    ensures UniqueRows(after) && Listed(after) == LastOccurrences(ids)
    ensures Permutation(after) <==> Distinct(ids)
    ensures Distinct(ids) ==> Listed(after) == ids
  {
    hide Listed, Permutation, Placed, UniqueRows, LastOccurrences;
    PlacedIds(before, ids, Some(now));
    PlacedListing(before, ids, Some(now));
    PlacedPermutation(before, ids, Some(now));
    LastOccurrencesShape(ids);
  }

  /** What reordering does to each row: only its priority changes, to the last position of its id
      in the list given, and the update time exactly with it. */
  ghost predicate RowsReordered(before: seq<Row>, ids: seq<string>, now: string, after: seq<Row>) {
    && |after| == |before|
    && forall i :: 0 <= i < |before| ==>
         && after[i].id == before[i].id && after[i].title == before[i].title && after[i].createdAt == before[i].createdAt
         && 0 <= after[i].priority < |ids| && ids[after[i].priority] == before[i].id
         && (forall j :: after[i].priority < j < |ids| ==> ids[j] != before[i].id)
         && after[i].updatedAt == if after[i].priority == before[i].priority then before[i].updatedAt else now
  }

  lemma {:induction false} ReorderRows(before: seq<Row>, ids: seq<string>, now: string, after: seq<Row>)
    requires IsReorder(before, ids, now, after)
    ensures RowsReordered(before, ids, now, after)
  {
    hide SameIds;
  }

  /** Row `p` is gone; the others keep their order and changed in nothing but the priority, which
      is their place in the list. */
  ghost predicate RowGone(before: seq<Row>, p: nat, after: seq<Row>) {
    && p < |before| && |after| == |before| - 1
    && forall i :: 0 <= i < |after| ==>
         && after[i] == before[if i < p then i else i + 1].(priority := after[i].priority)
         && 0 <= after[i].priority < |Listed(after)| && Listed(after)[after[i].priority] == after[i].id
  }

  /** What deleting does to the rows. */
  ghost predicate RowDeleted(before: seq<Row>, tid: string, after: seq<Row>) {
    exists p: nat :: At(before, p, tid) && RowGone(before, p, after)
  }

  lemma {:induction false} DeletionRows(before: seq<Row>, tid: string, after: seq<Row>)
    requires UniqueRows(before) && IsDeletion(before, tid, after)
    ensures RowDeleted(before, tid, after)
  {
    var p: nat :| At(before, p, tid) && UniqueRows(CutAt(before, p)) && after == Renumbered(CutAt(before, p));
    hide *;
    RenumberKeepsList(CutAt(before, p));
    RenumberedRows(CutAt(before, p));
    CutRows(before, p, after);
    DeletedAt(before, p, tid, after);
  }

  lemma {:induction false} DeletedAt(before: seq<Row>, p: nat, tid: string, after: seq<Row>)
    requires At(before, p, tid) && (p < |before| ==> RowGone(before, p, after))
    ensures RowDeleted(before, tid, after)
  {
    hide RowGone;
  }

  lemma {:induction false} RenumberedRows(rows: seq<Row>)
    requires UniqueRows(rows)
    ensures var after := Renumbered(rows);
      |after| == |rows| && forall i :: 0 <= i < |rows| ==>
        && after[i] == rows[i].(priority := after[i].priority)
        && 0 <= after[i].priority < |Listed(rows)| && Listed(rows)[after[i].priority] == rows[i].id
  {
    EveryIdListed(rows);
    hide Listed, UniqueRows, SameIds;
  }

  lemma {:induction false} CutRows(before: seq<Row>, p: nat, after: seq<Row>)
    requires p < |before| && |after| == |CutAt(before, p)|
    requires forall i :: 0 <= i < |after| ==>
      && after[i] == CutAt(before, p)[i].(priority := after[i].priority)
      && 0 <= after[i].priority < |Listed(after)| && Listed(after)[after[i].priority] == after[i].id
    ensures RowGone(before, p, after)
  {
    hide Listed;
    assert forall i :: 0 <= i < |after| ==> CutAt(before, p)[i] == before[if i < p then i else i + 1];
  }

  class TicketStore {
    var entries: seq<Ticket>

    ghost function Rows(): seq<Row>
      reads this, entries
    {
      RowsOf(entries)
    }

    constructor ()
      ensures entries == [] && UniqueRows(Rows()) && Permutation(Rows()) && Listed(Rows()) == []
    {
      entries := [];
    }

    /** `list_tickets` */
    method List() returns (list: seq<Ticket>)
      requires UniqueRows(Rows())
      ensures |list| == |entries| && forall k :: 0 <= k < |list| ==> list[k] in entries
      ensures IdsOf(RowsOf(list)) == Listed(Rows())
    {
      hide Listed, OrderUpTo, IdsOf, UniqueRows, RowOf;
      list := Sorted(entries);
    }

    /** `create_ticket`; the caller's `id` stands for the new UUID. */
    method Create(title: string, id: string, now: string) returns (r: Option<Ticket>)
      requires UniqueRows(Rows()) && !HasId(Rows(), id)
      modifies this
      ensures r.None? <==> Tokens.Strip(title) == ""
      ensures r.None? ==> entries == old(entries)
      ensures r.Some? ==> entries == old(entries) + [r.value]
      ensures r.Some? ==> Rows() == old(Rows()) + [Row(id, Tokens.Strip(title), |old(entries)|, now, now)]
      ensures UniqueRows(Rows())
      ensures old(Permutation(Rows())) ==> Permutation(Rows())
      ensures r.Some? && old(Permutation(Rows())) ==> Listed(Rows()) == old(Listed(Rows())) + [id]
    {
      if Tokens.Strip(title) == "" {
        return None;
      }
      ghost var rows := Rows();
      var entry := new Ticket(id, Tokens.Strip(title), |entries|, now);
      entries := entries + [entry];
      ghost var row := RowOf(entry);
      assert Rows() == rows + [row];
      assert forall i: nat :: i < |rows| ==> At(rows, i, rows[i].id);
      hide Listed, Permutation;
      if Permutation(rows) {
        CreateAppends(rows, row);
      }
      return Some(entry);
    }

    /** `delete_ticket`. Whatever the priorities were, they are a permutation afterwards. */
    method Delete(tid: string) returns (deleted: bool)
      requires UniqueRows(Rows())
      modifies this, (set t | t in entries)`priority
      ensures deleted <==> old(HasId(Rows(), tid))
      ensures !deleted ==> entries == old(entries) && Rows() == old(Rows())
      ensures deleted ==> IsDeletion(old(Rows()), tid, Rows()) && RowDeleted(old(Rows()), tid, Rows())
      ensures UniqueRows(Rows())
      ensures deleted ==> Permutation(Rows()) && tid in old(Listed(Rows()))
                          && Listed(Rows()) == CutAt(old(Listed(Rows())), LastPosition(old(Listed(Rows())), tid))
    {
      ghost var rows := Rows();
      deleted := DeleteEntry(tid);
      hide *;
      if deleted {
        DeletionShown(rows, tid, Rows());
        DeletionRows(rows, tid, Rows());
      }
    }

    method DeleteEntry(tid: string) returns (deleted: bool)
      requires UniqueRows(Rows())
      modifies this, (set t | t in entries)`priority
      ensures deleted <==> old(HasId(Rows(), tid))
      ensures if deleted then IsDeletion(old(Rows()), tid, Rows()) else entries == old(entries) && Rows() == old(Rows())
    {
      hide HasId, UniqueRows, Renumbered, CutAt, RowsOf, RowOf, IsDeletion, Without;
      ghost var rows := RowsOf(entries);
      var kept := Filter(entries, tid);
      ghost var p := WithoutCuts(entries, tid);
      deleted := |kept| != |entries|;
      if deleted {
        RowsOfCut(entries, p);
        UniqueCut(rows, p);
        Renumber(kept);
        entries := kept;
        OneDeletion(rows, p, tid);
      }
    }

    /** `reorder_tickets` */
    method Reorder(ids: seq<string>, now: string) returns (list: Option<seq<Ticket>>)
      requires UniqueRows(Rows())
      modifies (set t | t in entries)`priority, (set t | t in entries)`updatedAt
      ensures list.Some? <==> old(SameIds(Rows(), ids))
      ensures list.None? ==> Rows() == old(Rows())
      ensures list.Some? ==> IsReorder(old(Rows()), ids, now, Rows())
      ensures list.Some? ==> Listed(Rows()) == LastOccurrences(ids) && (Permutation(Rows()) <==> Distinct(ids))
      ensures list.Some? && Distinct(ids) ==> Listed(Rows()) == ids
      ensures list.Some? ==> RowsReordered(old(Rows()), ids, now, Rows())
      ensures list.Some? ==> IdsOf(RowsOf(list.value)) == Listed(Rows())
      ensures UniqueRows(Rows())
    {
      ghost var rows := Rows();
      hide Listed, UniqueRows, SameIds, IsReorder, RowsOf, RowOf, IdsOf, Permutation, Distinct, LastOccurrences,
        RowsReordered;
      var ok := ReorderEntries(ids, now);
      if ok {
        ReorderShown(rows, ids, now, Rows());
        ReorderRows(rows, ids, now, Rows());
        var sorted := List();
        list := Some(sorted);
      } else {
        list := None;
      }
    }

    method ReorderEntries(ids: seq<string>, now: string) returns (ok: bool)
      requires UniqueRows(Rows())
      modifies (set t | t in entries)`priority, (set t | t in entries)`updatedAt
      ensures ok <==> old(SameIds(Rows(), ids))
      ensures if ok then IsReorder(old(Rows()), ids, now, Rows()) else Rows() == old(Rows())
    {
      var existing := set i | 0 <= i < |entries| :: entries[i].id;
      var given := set id | id in ids;
      SameSets(Rows(), ids, existing);
      hide UniqueRows, SameIds, Placed;
      ok := given == existing;
      if ok {
        var pos := Positions(ids);
        Install(pos, ids, now);
      }
    }

    /** The loop of `reorder_tickets`. */
    method Install(pos: map<string, nat>, ids: seq<string>, now: string)
      requires UniqueRows(Rows()) && forall i :: 0 <= i < |entries| ==> entries[i].id in ids
      requires forall id :: id in ids ==> id in pos && pos[id] == LastPosition(ids, id)
      modifies (set t | t in entries)`priority, (set t | t in entries)`updatedAt
      ensures forall i :: 0 <= i < |entries| ==> old(Rows())[i].id in ids
      ensures Rows() == Placed(old(Rows()), ids, Some(now))
    {
      ghost var rows := Rows();
      assert forall i, j :: 0 <= i < j < |entries| ==> rows[i].id != rows[j].id;
      hide LastPosition, UniqueRows;
      for i := 0 to |entries|
        invariant forall j :: 0 <= j < i ==> RowOf(entries[j]) == PlacedRow(rows[j], LastPosition(ids, rows[j].id), Some(now))
        invariant forall j :: i <= j < |entries| ==> RowOf(entries[j]) == rows[j]
      {
        var e := entries[i];
        var newPriority := pos[e.id];
        if e.priority != newPriority {
          e.priority := newPriority;
          e.updatedAt := now;
        }
      }
    }
  }

  lemma {:induction false} SameSets(rows: seq<Row>, ids: seq<string>, existing: set<string>)
    requires existing == set i | 0 <= i < |rows| :: rows[i].id
    ensures (set id | id in ids) == existing <==> SameIds(rows, ids)
    ensures SameIds(rows, ids) ==> forall i :: 0 <= i < |rows| ==> rows[i].id in ids
  {
    forall id
      ensures id in existing <==> HasId(rows, id)
    {
      assert forall i: nat :: i < |rows| ==> (At(rows, i, id) <==> rows[i].id == id);
    }
  }

  /** `{tid: i for i, tid in enumerate(ids)}` */
  method Positions(ids: seq<string>) returns (pos: map<string, nat>)
    ensures forall id :: id in ids ==> id in pos && pos[id] == LastPosition(ids, id)
  {
    pos := map[];
    for i := 0 to |ids|
      invariant forall id :: id in ids[..i] ==> id in pos && pos[id] == LastPosition(ids[..i], id)
    {
      var front := ids[..i];
      assert ids[..i + 1] == front + [ids[i]] && ids[..i + 1][..i] == front;
      pos := pos[ids[i] := i];
    }
    assert ids[..|ids|] == ids;
  }

  // ---- a priority written directly ----

  lemma {:induction false} EveryPriorityUsed(rows: seq<Row>, v: int)
    requires Permutation(rows) && 0 <= v < |rows|
    ensures exists i :: 0 <= i < |rows| && rows[i].priority == v
  {
    if forall i :: 0 <= i < |rows| ==> rows[i].priority != v {
      var priorities := seq(|rows|, i requires 0 <= i < |rows| => rows[i].priority);
      DistinctLength(priorities, Range(|rows|) - {v});
    }
  }

  ghost function Range(n: nat): (r: set<int>)
    ensures |r| == n && forall x :: x in r <==> 0 <= x < n
  {
    if n == 0 then {} else Range(n - 1) + {n - 1}
  }

  /** `update_ticket` may write any priority: the permutation survives exactly when the value
      was there already. */
  lemma {:induction false} UpdateKeepsPermutationIff(rows: seq<Row>, i: nat, priority: int, now: string)
    requires Permutation(rows) && i < |rows|
    ensures Permutation(rows[i := rows[i].(priority := priority, updatedAt := now)]) <==> priority == rows[i].priority
  {
    var next := rows[i := rows[i].(priority := priority, updatedAt := now)];
    if 0 <= priority < |rows| && priority != rows[i].priority {
      EveryPriorityUsed(rows, priority);
      var j :| 0 <= j < |rows| && rows[j].priority == priority;
      assert next[j].priority == next[i].priority && i != j;
    }
    assert next[i].priority == priority;
  }
}
