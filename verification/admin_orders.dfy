/**
 * The admin order actions of src/actions/admin/orders.ts over the document
 * store: listing with an optional status filter, reading one order with its
 * items, overwriting the status, the cascading delete and the dashboard
 * statistics.
 */
module AdminOrders {
  import opened Wrappers
  import opened JsString
  import opened JsNumber
  import opened JsValue
  import opened DocStore

  /** The order statuses of src/types/order.ts. */
  const Statuses: seq<string> := ["ordered", "confirmed", "processing", "delivering", "delivered", "cancelled"]

  // ---------------------------------------------------------------------
  // Items of one order.
  // ---------------------------------------------------------------------

  /** `[Query.equal("oreders", orderId)]`: no limit, so the store's default page applies. */
  function ItemQueries(orderId: string): seq<Query> {
    [Equal("oreders", [Str(orderId)])]
  }

  /** An item belongs to the order whose id its "oreders" attribute holds. */
  predicate BelongsTo(d: Doc, orderId: string) {
    Attr(d, "oreders") == Str(orderId)
  }

  lemma ItemQueryMatches(d: Doc, orderId: string)
    ensures Matches(d, ItemQueries(orderId)) <==> BelongsTo(d, orderId)
  {
    var q := ItemQueries(orderId);
    if BelongsTo(d, orderId) {
      assert forall i :: 0 <= i < |q| ==> q[i] == Equal("oreders", [Str(orderId)]);
    } else {
      assert q[0].Equal? && Attr(d, q[0].attr) !in q[0].values;
    }
  }

  /** The items of an order as one listing returns them: at most a default page, in creation order. */
  function ItemsOf(items: seq<Doc>, orderId: string): (r: seq<Doc>)
    ensures |r| <= DefaultLimit
    ensures forall d :: d in r ==> d in items && BelongsTo(d, orderId)
  {
    var r := List(items, ItemQueries(orderId));
    assert ItemQueries(orderId)[..0] == [];
    assert PageSize(ItemQueries(orderId)) == DefaultLimit;
    forall d | d in r
      ensures BelongsTo(d, orderId)
    {
      ItemQueryMatches(d, orderId);
    }
    r
  }

  /** The documents of a collection that belong to the order. */
  function Belonging(items: seq<Doc>, orderId: string): (r: seq<Doc>)
    ensures forall d :: d in r <==> d in items && BelongsTo(d, orderId)
    ensures |r| <= |items|
  {
    if items == [] then []
    else if BelongsTo(items[0], orderId) then [items[0]] + Belonging(items[1..], orderId)
    else Belonging(items[1..], orderId)
  }

  /** When an order has no more items than one page holds, the listing holds every one of them. */
  lemma SmallOrdersListedInFull(items: seq<Doc>, orderId: string)
    requires |Belonging(items, orderId)| <= DefaultLimit
    ensures forall d :: d in ItemsOf(items, orderId) <==> d in items && BelongsTo(d, orderId)
  {
    var q := ItemQueries(orderId);
    FilterIsBelonging(items, orderId);
    assert q[..0] == [];
    assert PageSize(q) == DefaultLimit;
    assert |Filter(items, q)| <= PageSize(q);
    var r := List(items, q);
    assert r == ItemsOf(items, orderId);
    forall d | d in items && BelongsTo(d, orderId)
      ensures d in r
    {
      ItemQueryMatches(d, orderId);
    }
  }

  lemma {:induction false} FilterIsBelonging(items: seq<Doc>, orderId: string)
    ensures Filter(items, ItemQueries(orderId)) == Belonging(items, orderId)
  {
    if items != [] {
      ItemQueryMatches(items[0], orderId);
      FilterIsBelonging(items[1..], orderId);
    }
  }

  /**
   * `listItemsForOrder(orderId)`: the identical query is retried once. The
   * backend's failures are an input: `failures[k]` is what the k-th call
   * throws, and calls past the end of the list succeed.
   */
  function ListItemsForOrder(items: seq<Doc>, orderId: string, failures: seq<Thrown>): (r: Result<seq<Doc>, Thrown>)
    ensures |failures| <= 1 ==> r == Ok(ItemsOf(items, orderId))
    ensures |failures| >= 2 ==> r == Err(failures[1])
  {
    if |failures| == 0 then Ok(ItemsOf(items, orderId))
    else if |failures| == 1 then Ok(ItemsOf(items, orderId))
    else Err(failures[1])
  }

  /** One failure is invisible to the caller: the retry returns what a first successful call would have. */
  lemma OneFailureRetried(items: seq<Doc>, orderId: string, e: Thrown)
    ensures ListItemsForOrder(items, orderId, [e]) == ListItemsForOrder(items, orderId, [])
  {
  }

  // ---------------------------------------------------------------------
  // listOrders and getOrder.
  // ---------------------------------------------------------------------

  /** `status && status !== "all"`: an absent or empty status, or "all", adds no filter. */
  predicate Filters(status: Option<string>) {
    status.Some? && status.value != "" && status.value != "all"
  }

  /** The query list of `listOrders`. */
  function OrderQueries(status: Option<string>): (q: seq<Query>)
    ensures |q| >= 2 && q[0] == OrderDescCreated && q[1] == Limit(100)
    ensures Filters(status) ==> q == [OrderDescCreated, Limit(100), Equal("status", [Str(status.value)])]
    ensures !Filters(status) ==> q == [OrderDescCreated, Limit(100)]
  {
    var base := [OrderDescCreated, Limit(100)];
    if Filters(status) then base + [Equal("status", [Str(status.value)])] else base
  }

  lemma StatusQueryMatches(d: Doc, status: Option<string>)
    ensures Matches(d, OrderQueries(status)) <==> !Filters(status) || Attr(d, "status") == Str(status.value)
  {
    var q := OrderQueries(status);
    if Filters(status) && Attr(d, "status") != Str(status.value) {
      assert q[2].Equal? && Attr(d, q[2].attr) !in q[2].values;
    }
  }

  /** `listOrders(status)`. */
  function ListOrders(orders: seq<Doc>, status: Option<string>): (r: seq<Doc>)
    ensures |r| <= 100
    ensures forall d :: d in r ==> d in orders
    ensures Filters(status) ==> forall d :: d in r ==> Attr(d, "status") == Str(status.value)
  {
    var r := List(orders, OrderQueries(status));
    assert PageSize(OrderQueries(status)) == 100;
    forall d | d in r
      ensures Filters(status) ==> Attr(d, "status") == Str(status.value)
    {
      StatusQueryMatches(d, status);
    }
    r
  }

  /** The listing is the newest matching orders, newest first: a prefix of the matches in reverse creation order. */
  lemma NewestFirst(orders: seq<Doc>, status: Option<string>)
    ensures var r := ListOrders(orders, status);
      var newest := Reverse(Filter(orders, OrderQueries(status)));
      |r| <= |newest| && r == newest[..|r|]
  {
  }

  /** "all", "" and no status give the same listing. */
  lemma AllIsUnfiltered(orders: seq<Doc>)
    ensures ListOrders(orders, Some("all")) == ListOrders(orders, None)
    ensures ListOrders(orders, Some("")) == ListOrders(orders, None)
  {
    assert OrderQueries(Some("all")) == OrderQueries(None);
    assert OrderQueries(Some("")) == OrderQueries(None);
  }

  /** What `getOrder` returns. */
  datatype OrderView = OrderView(order: Doc, items: seq<Doc>)

  /** `getOrder(orderId)`: the order document, then its items. */
  function GetOrder(db: Db, orderId: string, failures: seq<Thrown>): (r: Result<OrderView, Thrown>)
    ensures orderId !in Ids(db.orders) ==> r == Err(Backend(NotFound))
    ensures r.Ok? ==> r.value.order in db.orders && r.value.order.id == orderId
    ensures r.Ok? ==> forall d :: d in r.value.items ==> d in db.orderItems && BelongsTo(d, orderId)
    ensures orderId in Ids(db.orders) && |failures| <= 1 ==> r.Ok? && r.value.items == ItemsOf(db.orderItems, orderId)
  {
    var order :- GetDoc(db.orders, orderId);
    var items :- ListItemsForOrder(db.orderItems, orderId, failures);
    Ok(OrderView(order, items))
  }

  // ---------------------------------------------------------------------
  // updateOrderStatus.
  // ---------------------------------------------------------------------

  /** The patch `{ status }` as it reaches the store. */
  lemma StatusPatch(attrs: map<string, Value>, status: string)
    ensures attrs + Sent(map["status" := Str(status)]) == attrs["status" := Str(status)]
  {
    assert Sent(map["status" := Str(status)]) == map["status" := Str(status)];
  }

  /** The orders after the status write: the order's attributes get the new status, nothing else changes. */
  predicate StatusWritten(before: seq<Doc>, after: seq<Doc>, orderId: string, status: string) {
    && |after| == |before|
    && forall i :: 0 <= i < |before| ==>
         if before[i].id == orderId
         then after[i] == before[i].(attrs := before[i].attrs["status" := Str(status)])
         else after[i] == before[i]
  }

  /** The store's update with the patch `{ status }` is exactly the status write. */
  lemma UpdateWritesStatus(c: seq<Doc>, orderId: string, status: string)
    requires orderId in Ids(c)
    ensures Update(c, orderId, map["status" := Str(status)]).Ok?
    ensures StatusWritten(c, Update(c, orderId, map["status" := Str(status)]).value, orderId, status)
  {
    var r := Update(c, orderId, map["status" := Str(status)]).value;
    forall i | 0 <= i < |c| && c[i].id == orderId
      ensures r[i] == c[i].(attrs := c[i].attrs["status" := Str(status)])
    {
      StatusPatch(c[i].attrs, status);
    }
  }

  /** After the write, a document under the order's id carries the new status. */
  lemma WrittenStatus(before: seq<Doc>, after: seq<Doc>, orderId: string, status: string, d: Doc)
    requires StatusWritten(before, after, orderId, status) && d in after && d.id == orderId
    ensures Attr(d, "status") == Str(status)
  {
    var j :| 0 <= j < |after| && after[j] == d;
    assert before[j].id == orderId;
  }

  /** `updateOrderStatus(orderId, status)`: only the status attribute is written, whatever it was before. */
  function UpdateOrderStatus(db: Db, orderId: string, status: string): (o: Outcome<Doc>)
    ensures o.db.orderItems == db.orderItems && o.db.products == db.products && o.db.files == db.files
    ensures o.result.Err? <==> orderId !in Ids(db.orders)
    ensures o.result.Err? ==> o.db == db && o.result.error == Backend(NotFound)
    ensures o.result.Ok? ==> StatusWritten(db.orders, o.db.orders, orderId, status)
    ensures o.result.Ok? ==> o.result.value.id == orderId && Attr(o.result.value, "status") == Str(status)
  {
    if orderId !in Ids(db.orders) then Outcome(db, Err(Backend(NotFound)))
    else
      UpdateWritesStatus(db.orders, orderId, status);
      var orders := Update(db.orders, orderId, map["status" := Str(status)]).value;
      var updated := GetDoc(orders, orderId);
      WrittenStatus(db.orders, orders, orderId, status, updated.value);
      Outcome(db.(orders := orders), updated)
  }

  /** Two status writes leave what the second alone would: there is no transition rule. */
  lemma LastStatusWins(db: Db, orderId: string, s1: string, s2: string)
    ensures UpdateOrderStatus(UpdateOrderStatus(db, orderId, s1).db, orderId, s2).db == UpdateOrderStatus(db, orderId, s2).db
  {
    var o1 := UpdateOrderStatus(db, orderId, s1);
    var o2 := UpdateOrderStatus(o1.db, orderId, s2);
    var o := UpdateOrderStatus(db, orderId, s2);
    if orderId in Ids(db.orders) {
      WriteKeepsIds(db.orders, o1.db.orders, orderId, s1);
      StatusWritesCompose(db.orders, o1.db.orders, o2.db.orders, o.db.orders, orderId, s1, s2);
    }
  }

  lemma WriteKeepsIds(before: seq<Doc>, after: seq<Doc>, orderId: string, status: string)
    requires StatusWritten(before, after, orderId, status)
    ensures Ids(after) == Ids(before)
  {
    assert forall i :: 0 <= i < |before| ==> after[i].id == before[i].id;
  }

  lemma StatusWritesCompose(before: seq<Doc>, mid: seq<Doc>, after: seq<Doc>, direct: seq<Doc>, orderId: string, s1: string, s2: string)
    requires StatusWritten(before, mid, orderId, s1)
    requires StatusWritten(mid, after, orderId, s2)
    requires StatusWritten(before, direct, orderId, s2)
    ensures after == direct
  {
    forall i | 0 <= i < |before|
      ensures after[i] == direct[i]
    {
      if before[i].id == orderId {
        assert before[i].attrs["status" := Str(s1)]["status" := Str(s2)] == before[i].attrs["status" := Str(s2)];
      }
    }
  }

  // ---------------------------------------------------------------------
  // deleteOrder.
  // ---------------------------------------------------------------------

  /** The sequential `for ... await deleteDocument` loop: it stops at the first deletion that throws. */
  function DeleteEach(c: seq<Doc>, ids: seq<string>): (r: (seq<Doc>, Option<Thrown>))
    ensures r.1.None? ==> forall d :: d in r.0 <==> d in c && d.id !in ids
    ensures r.1.Some? ==> r.1.value == Backend(NotFound)
    ensures forall d :: d in r.0 ==> d in c
    ensures |r.0| <= |c|
    ensures r.1.None? && ids != [] ==> |r.0| < |c|
    ensures UniqueIds(c) ==> UniqueIds(r.0)
    decreases |ids|
  {
    if ids == [] then (c, None)
    else
      match Delete(c, ids[0])
      case Err(e) => (c, Some(e))
      case Ok(c1) =>
        if UniqueIds(c) then
          WithoutUnique(c, ids[0]);
          DeleteEach(c1, ids[1..])
        else DeleteEach(c1, ids[1..])
  }

  /** With distinct ids all present, every deletion succeeds. */
  lemma {:induction false} DeleteEachPresent(c: seq<Doc>, ids: seq<string>)
    requires forall i :: 0 <= i < |ids| ==> ids[i] in Ids(c)
    requires forall i, j :: 0 <= i < j < |ids| ==> ids[i] != ids[j]
    ensures DeleteEach(c, ids).1.None?
    decreases |ids|
  {
    if ids != [] {
      var c1 := Without(c, ids[0]);
      forall i | 0 <= i < |ids[1..]|
        ensures ids[1..][i] in Ids(c1)
      {
        var x := ids[1..][i];
        var j :| 0 <= j < |c| && Ids(c)[j] == x;
        assert c[j] in c1;
        var k :| 0 <= k < |c1| && c1[k] == c[j];
        assert Ids(c1)[k] == x;
      }
      DeleteEachPresent(c1, ids[1..]);
    }
  }

  /** `deleteOrder(orderId)`: the listed items one by one, then the header. */
  function DeleteOrder(db: Db, orderId: string, failures: seq<Thrown>): (o: Outcome<()>)
    ensures o.db.products == db.products && o.db.files == db.files
    ensures o.result.Ok? ==> forall d :: d in o.db.orders <==> d in db.orders && d.id != orderId
    ensures o.db.orders != db.orders ==> o.result.Ok?
    ensures |failures| >= 2 ==> o == Outcome(db, Err(failures[1]))
  {
    match ListItemsForOrder(db.orderItems, orderId, failures)
    case Err(e) => Outcome(db, Err(e))
    case Ok(listed) =>
      var (items, failed) := DeleteEach(db.orderItems, Ids(listed));
      match failed
      case Some(e) => Outcome(db.(orderItems := items), Err(e))
      case None =>
        match Delete(db.orders, orderId)
        case Err(e) => Outcome(db.(orderItems := items), Err(e))
        case Ok(orders) => Outcome(db.(orderItems := items, orders := orders), Ok(()))
  }

  /** A failed item deletion leaves the header in place: items go strictly before the order. */
  lemma HeaderOutlivesFailedItems(db: Db, orderId: string, failures: seq<Thrown>)
    requires |failures| <= 1
    requires DeleteEach(db.orderItems, Ids(ItemsOf(db.orderItems, orderId))).1.Some?
    ensures var o := DeleteOrder(db, orderId, failures);
      o.result == Err(Backend(NotFound)) && o.db.orders == db.orders
  {
  }

  /** A successful delete removes exactly the listed items and the order; every other item stays. */
  lemma DeletedItemsAreTheListed(db: Db, orderId: string, failures: seq<Thrown>)
    requires |failures| <= 1
    requires DeleteOrder(db, orderId, failures).result.Ok?
    ensures var o := DeleteOrder(db, orderId, failures);
      forall d :: d in o.db.orderItems <==> d in db.orderItems && d.id !in Ids(ItemsOf(db.orderItems, orderId))
  {
  }

  // ---------------------------------------------------------------------
  // Orders with more items than one page.
  // ---------------------------------------------------------------------

  /** The ids of a collection as a set. */
  function IdSet(c: seq<Doc>): (r: set<string>)
    ensures forall x :: x in r <==> x in Ids(c)
    ensures |r| <= |c|
  {
    if c == [] then {}
    else
      assert Ids(c) == [c[0].id] + Ids(c[1..]);
      {c[0].id} + IdSet(c[1..])
  }

  /** Distinct ids: as many ids as documents. */
  lemma {:induction false} IdSetOfUnique(c: seq<Doc>)
    requires UniqueIds(c)
    ensures |IdSet(c)| == |c|
  {
    if c != [] {
      assert UniqueIds(c[1..]) by {
        forall i, j | 0 <= i < j < |c[1..]|
          ensures c[1..][i].id != c[1..][j].id
        {
          assert c[1..][i] == c[i + 1] && c[1..][j] == c[j + 1];
        }
      }
      IdSetOfUnique(c[1..]);
      assert c[0].id !in IdSet(c[1..]);
    }
  }

  /** The items of an order keep the collection's distinct ids. */
  lemma {:induction false} BelongingUnique(items: seq<Doc>, orderId: string)
    requires UniqueIds(items)
    ensures UniqueIds(Belonging(items, orderId))
  {
    if items != [] {
      var rest := items[1..];
      assert UniqueIds(rest) by {
        forall i, j | 0 <= i < j < |rest|
          ensures rest[i].id != rest[j].id
        {
          assert rest[i] == items[i + 1] && rest[j] == items[j + 1];
        }
      }
      BelongingUnique(rest, orderId);
      var b := Belonging(rest, orderId);
      if BelongsTo(items[0], orderId) {
        var r := [items[0]] + b;
        forall i, j | 0 <= i < j < |r|
          ensures r[i].id != r[j].id
        {
          if i == 0 {
            assert r[j] in rest;
            var k :| 0 <= k < |rest| && rest[k] == r[j];
            assert items[k + 1] == r[j];
          } else {
            assert r[i] == b[i - 1] && r[j] == b[j - 1];
          }
        }
      }
    }
  }

  /** One listing of an order's items: a prefix of its items in creation order. */
  lemma ListedArePrefix(items: seq<Doc>, orderId: string)
    ensures var b := Belonging(items, orderId);
      |ItemsOf(items, orderId)| <= |b| && ItemsOf(items, orderId) == b[..|ItemsOf(items, orderId)|]
  {
    FilterIsBelonging(items, orderId);
    assert OrderDescCreated !in ItemQueries(orderId);
  }

  /** The listed ids are distinct and all present. */
  lemma ListedIdsDeletable(items: seq<Doc>, orderId: string)
    requires UniqueIds(items)
    ensures forall i :: 0 <= i < |ItemsOf(items, orderId)| ==> Ids(ItemsOf(items, orderId))[i] in Ids(items)
    ensures forall i, j :: 0 <= i < j < |ItemsOf(items, orderId)| ==> Ids(ItemsOf(items, orderId))[i] != Ids(ItemsOf(items, orderId))[j]
  {
    var listed := ItemsOf(items, orderId);
    var b := Belonging(items, orderId);
    ListedArePrefix(items, orderId);
    BelongingUnique(items, orderId);
    forall i | 0 <= i < |listed|
      ensures listed[i].id in Ids(items)
    {
      assert listed[i] in items;
      var k :| 0 <= k < |items| && items[k] == listed[i];
      assert Ids(items)[k] == listed[i].id;
    }
    forall i, j | 0 <= i < j < |listed|
      ensures listed[i].id != listed[j].id
    {
      assert listed[i] == b[i] && listed[j] == b[j];
    }
  }

  /**
   * As written, `deleteOrder` of an order with more than one page of items
   * succeeds and still leaves one of its items behind: the listing carries
   * no limit, so only the store's default page of 25 is deleted.
   */
  lemma DeleteOrderLeavesOrphans(db: Db, orderId: string)
    requires UniqueIds(db.orderItems) && orderId in Ids(db.orders)
    requires |Belonging(db.orderItems, orderId)| > DefaultLimit
    ensures var o := DeleteOrder(db, orderId, []);
      && o.result.Ok?
      && orderId !in Ids(o.db.orders)
      && exists d :: d in o.db.orderItems && BelongsTo(d, orderId)
  {
    var listed := ItemsOf(db.orderItems, orderId);
    var ids := Ids(listed);
    ListedIdsDeletable(db.orderItems, orderId);
    DeleteEachPresent(db.orderItems, ids);
    var d := Unlisted(db.orderItems, orderId);
    var o := DeleteOrder(db, orderId, []);
    assert o.db.orderItems == DeleteEach(db.orderItems, ids).0;
    assert d in o.db.orderItems;
  }

  lemma SubsetCard(a: set<string>, b: set<string>)
    requires a <= b
    ensures |a| <= |b|
  {
    assert b == a + (b - a);
  }

  /** Pigeonhole: a shorter list cannot name every id of a longer list of distinct ids. */
  lemma Pigeonhole(b: seq<Doc>, listed: seq<Doc>) returns (d: Doc)
    requires UniqueIds(b) && |listed| < |b|
    ensures d in b && d.id !in Ids(listed)
  {
    IdSetOfUnique(b);
    var big, small := IdSet(b), IdSet(listed);
    assert !(big <= small) by {
      if big <= small {
        SubsetCard(big, small);
      }
    }
    var x :| x in big && x !in small;
    var k :| 0 <= k < |b| && Ids(b)[k] == x;
    d := b[k];
  }

  /** One page cannot name every item of an order with more items than that. */
  lemma Unlisted(items: seq<Doc>, orderId: string) returns (d: Doc)
    requires UniqueIds(items)
    requires |Belonging(items, orderId)| > DefaultLimit
    ensures d in items && BelongsTo(d, orderId) && d.id !in Ids(ItemsOf(items, orderId))
  {
    BelongingUnique(items, orderId);
    d := Pigeonhole(Belonging(items, orderId), ItemsOf(items, orderId));
  }

  /** The corrected cascade: list and delete a page at a time until the listing comes back empty. */
  function DeleteItemsPaged(items: seq<Doc>, orderId: string): (r: (seq<Doc>, Option<Thrown>))
    ensures forall d :: d in r.0 ==> d in items
    ensures r.1.None? ==> forall d :: d in r.0 ==> !BelongsTo(d, orderId)
    decreases |items|
  {
    var page := ItemsOf(items, orderId);
    if page == [] then
      EmptyPageNoItems(items, orderId);
      (items, None)
    else
      var (rest, failed) := DeleteEach(items, Ids(page));
      if failed.Some? then (rest, failed)
      else DeleteItemsPaged(rest, orderId)
  }

  /** An empty listing means the order has no items at all. */
  lemma EmptyPageNoItems(items: seq<Doc>, orderId: string)
    requires ItemsOf(items, orderId) == []
    ensures forall d :: d in items ==> !BelongsTo(d, orderId)
  {
    var q := ItemQueries(orderId);
    assert q[..0] == [];
    assert PageSize(q) == DefaultLimit;
    FilterIsBelonging(items, orderId);
    assert |Filter(items, q)| == 0;
  }

  /** With distinct item ids every round of the paged cascade succeeds. */
  lemma {:induction false} PagedSucceeds(items: seq<Doc>, orderId: string)
    requires UniqueIds(items)
    ensures DeleteItemsPaged(items, orderId).1.None?
    decreases |items|
  {
    var page := ItemsOf(items, orderId);
    if page != [] {
      ListedIdsDeletable(items, orderId);
      DeleteEachPresent(items, Ids(page));
      PagedSucceeds(DeleteEach(items, Ids(page)).0, orderId);
    }
  }

  /** `deleteOrder` with the paged cascade: on success no item of the order is left. */
  function DeleteOrderPaged(db: Db, orderId: string): (o: Outcome<()>)
    ensures o.db.products == db.products && o.db.files == db.files
    ensures o.result.Ok? ==> forall d :: d in o.db.orders <==> d in db.orders && d.id != orderId
    ensures o.result.Ok? ==> forall d :: d in o.db.orderItems ==> d in db.orderItems && !BelongsTo(d, orderId)
    ensures o.db.orders != db.orders ==> o.result.Ok?
  {
    var (items, failed) := DeleteItemsPaged(db.orderItems, orderId);
    match failed
    case Some(e) => Outcome(db.(orderItems := items), Err(e))
    case None =>
      match Delete(db.orders, orderId)
      case Err(e) => Outcome(db.(orderItems := items), Err(e))
      case Ok(orders) => Outcome(db.(orderItems := items, orders := orders), Ok(()))
  }

  /** Where the as-written cascade leaves an orphan, the paged one deletes the order and every one of its items. */
  lemma PagedLeavesNoOrphans(db: Db, orderId: string)
    requires UniqueIds(db.orderItems) && orderId in Ids(db.orders)
    ensures var o := DeleteOrderPaged(db, orderId);
      && o.result.Ok?
      && orderId !in Ids(o.db.orders)
      && forall d :: d in o.db.orderItems ==> !BelongsTo(d, orderId)
  {
    PagedSucceeds(db.orderItems, orderId);
  }

  // ---------------------------------------------------------------------
  // getOrderStats.
  // ---------------------------------------------------------------------

  datatype Stats = Stats(
    total: nat, ordered: nat, confirmed: nat, processing: nat, delivering: nat, delivered: nat, cancelled: nat,
    totalRevenue: Value, todayOrders: nat)

  /** `orders.filter((o) => o.status === status).length`. */
  function CountStatus(orders: seq<Doc>, status: string): (n: nat)
    ensures n <= |orders|
  {
    if orders == [] then 0
    else (if Attr(orders[0], "status") == Str(status) then 1 else 0) + CountStatus(orders[1..], status)
  }

  /** `.filter((o) => o.status !== "cancelled").reduce((sum, o) => sum + o.totalAmount, acc)`. */
  function RevenueFrom(acc: Value, orders: seq<Doc>): (r: Value)
    ensures (forall i :: 0 <= i < |orders| ==> Attr(orders[i], "status") == Str("cancelled")) ==> r == acc
    ensures acc.Str? ==> r.Str?
    decreases |orders|
  {
    if orders == [] then acc
    else if Attr(orders[0], "status") == Str("cancelled") then RevenueFrom(acc, orders[1..])
    else RevenueFrom(Plus(acc, Attr(orders[0], "totalAmount")), orders[1..])
  }

  /** Orders created on the given day: `$createdAt` starts with the YYYY-MM-DD text. */
  function CountToday(orders: seq<Doc>, today: string): (n: nat)
    ensures n <= |orders|
  {
    if orders == [] then 0
    else (if StartsWith(orders[0].createdAt, today) then 1 else 0) + CountToday(orders[1..], today)
  }

  /** `getOrderStats()` over the first 1000 orders; the current date is an input. */
  function GetOrderStats(db: Db, today: string): (s: Stats)
    ensures s.total <= 1000 && s.total <= |db.orders|
    ensures s.ordered <= s.total && s.confirmed <= s.total && s.processing <= s.total
    ensures s.delivering <= s.total && s.delivered <= s.total && s.cancelled <= s.total
    ensures s.todayOrders <= s.total
  {
    var orders := List(db.orders, [Limit(1000)]);
    Stats(
      |orders|,
      CountStatus(orders, "ordered"), CountStatus(orders, "confirmed"), CountStatus(orders, "processing"),
      CountStatus(orders, "delivering"), CountStatus(orders, "delivered"), CountStatus(orders, "cancelled"),
      RevenueFrom(Real(0.0), orders),
      CountToday(orders, today))
  }

  /** Up to 1000 orders, the scan sees the whole collection. */
  lemma {:induction false} ScanIsWhole(orders: seq<Doc>)
    requires |orders| <= 1000
    ensures List(orders, [Limit(1000)]) == orders
  {
    NoEqualityKeepsAll(orders, [Limit(1000)]);
  }

  lemma {:induction false} NoEqualityKeepsAll(c: seq<Doc>, q: seq<Query>)
    requires forall i :: 0 <= i < |q| ==> !q[i].Equal?
    ensures Filter(c, q) == c
  {
    if c != [] {
      NoEqualityKeepsAll(c[1..], q);
    }
  }

  /** A status from the enumeration. */
  predicate KnownStatus(d: Doc) {
    exists i :: 0 <= i < |Statuses| && Attr(d, "status") == Str(Statuses[i])
  }

  /** With every status from the enumeration, the six counts add up to the total. */
  lemma {:induction false} CountsPartition(orders: seq<Doc>)
    requires forall i :: 0 <= i < |orders| ==> KnownStatus(orders[i])
    ensures CountStatus(orders, "ordered") + CountStatus(orders, "confirmed") + CountStatus(orders, "processing")
      + CountStatus(orders, "delivering") + CountStatus(orders, "delivered") + CountStatus(orders, "cancelled") == |orders|
  {
    if orders != [] {
      assert KnownStatus(orders[0]);
      CountsPartition(orders[1..]);
    }
  }

  /** Every order counted once in the stats when the statuses are known. */
  lemma StatsPartition(db: Db, today: string)
    requires forall d :: d in db.orders ==> KnownStatus(d)
    ensures var s := GetOrderStats(db, today);
      s.ordered + s.confirmed + s.processing + s.delivering + s.delivered + s.cancelled == s.total
  {
    var orders := List(db.orders, [Limit(1000)]);
    assert forall i :: 0 <= i < |orders| ==> orders[i] in orders;
    CountsPartition(orders);
  }

  /** A finite numeric total on every order that is not cancelled. */
  predicate NumericTotals(orders: seq<Doc>) {
    forall i :: 0 <= i < |orders| && Attr(orders[i], "status") != Str("cancelled") ==>
      Attr(orders[i], "totalAmount").Number? && Attr(orders[i], "totalAmount").n.Finite?
  }

  /** Σ totalAmount over the orders that are not cancelled. */
  function Revenue(orders: seq<Doc>): real
    requires NumericTotals(orders)
  {
    if orders == [] then 0.0
    else if Attr(orders[0], "status") == Str("cancelled") then Revenue(orders[1..])
    else Attr(orders[0], "totalAmount").n.r + Revenue(orders[1..])
  }

  /** With numeric totals the fold is the sum over the orders that are not cancelled. */
  lemma {:induction false} RevenueIsSum(acc: real, orders: seq<Doc>)
    requires NumericTotals(orders)
    ensures RevenueFrom(Real(acc), orders) == Real(acc + Revenue(orders))
    decreases |orders|
  {
    if orders != [] {
      assert NumericTotals(orders[1..]) by {
        forall i | 0 <= i < |orders[1..]| && Attr(orders[1..][i], "status") != Str("cancelled")
          ensures Attr(orders[1..][i], "totalAmount").Number?
        {
          assert orders[1..][i] == orders[i + 1];
        }
      }
      if Attr(orders[0], "status") == Str("cancelled") {
        RevenueIsSum(acc, orders[1..]);
      } else {
        var t := Attr(orders[0], "totalAmount").n.r;
        assert Plus(Real(acc), Attr(orders[0], "totalAmount")) == Real(acc + t);
        RevenueIsSum(acc + t, orders[1..]);
      }
    }
  }

  /** Cancelling an order takes its amount out of the revenue. */
  lemma CancelledEarnNothing(d: Doc, acc: Value)
    requires Attr(d, "status") == Str("cancelled")
    ensures RevenueFrom(acc, [d]) == acc
  {
  }

  /** A total stored as text is concatenated into the revenue, not added. */
  lemma TextTotalConcatenates(d: Doc)
    requires Attr(d, "status") == Str("ordered") && Attr(d, "totalAmount") == Str("5")
    ensures RevenueFrom(Real(0.0), [d]) == Str("05")
  {
    assert FractionDigits(0.0, MaxFractionDigits) == "";
    assert ToStr(Real(0.0)) == "0";
    assert Plus(Real(0.0), Str("5")) == Str("05");
    assert RevenueFrom(Real(0.0), [d]) == RevenueFrom(Str("05"), []);
  }
}
