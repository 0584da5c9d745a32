// The administrator's order handlers: creating an order for an account from a list
// of items, updating its header, deleting it with its lines and payments (giving the
// stock back), and the filtered, paged order list.
module AdminOrders {
  import opened Common
  import opened Entities
  import opened Stock
  import opened Queries

  /** `CreateDonHangDTO`. */
  datatype CreateOrderRequest = CreateOrderRequest(
    accountId: int,
    recipient: string,
    address: string,
    phone: string,
    shippingFee: Option<int>,
    status: Option<string>,
    items: seq<Item>)

  /** `UpdateDonHangDTO`. */
  datatype UpdateOrderRequest = UpdateOrderRequest(
    status: Option<string>,
    recipient: Option<string>,
    address: Option<string>,
    phone: Option<string>,
    total: Option<int>)

  // ---------------------------------------------------------------------------
  // Create
  // ---------------------------------------------------------------------------

  /** The answer for one item, when it is refused: 404 for a missing product, 400 for an inactive or short one. */
  function ItemRejection(products: map<int, Product>, item: Item): (r: Option<Reply>)
    ensures r.None? <==> Sellable(products, item)
    ensures r.Some? ==> r.value == BadRequest(if item.productId in products then 400 else 404)
  {
    if item.productId !in products then Some(BadRequest(404))
    else if !Active(products[item.productId]) then Some(BadRequest(400))
    else if products[item.productId].stock < item.qty then Some(BadRequest(400))
    else None
  }

  /** The answer for the first refused item, if any. */
  function FirstRejection(products: map<int, Product>, items: seq<Item>): (r: Option<Reply>)
    ensures r.None? <==> forall i :: 0 <= i < |items| ==> Sellable(products, items[i])
  {
    if items == [] then None
    else if ItemRejection(products, items[0]).Some? then ItemRejection(products, items[0])
    else
      var rest := FirstRejection(products, items[1..]);
      assert forall i :: 1 <= i < |items| ==> items[i] == items[1..][i - 1];
      rest
  }

  /** The answer to a create request refused before any write, if it is refused. */
  function CreateRejection(db: Tables, req: CreateOrderRequest): (r: Option<Reply>)
    ensures r.None? <==>
      req.accountId > 0 && req.accountId in db.accounts && req.items != []
      && forall i :: 0 <= i < |req.items| ==> Sellable(db.products, req.items[i])
  {
    if req.accountId <= 0 then Some(BadRequest(400))
    else if req.accountId !in db.accounts then Some(BadRequest(404))
    else if req.items == [] then Some(BadRequest(400))
    else FirstRejection(db.products, req.items)
  }

  /** The status a created order gets: the one given, or pending when none is. */
  function InitialStatus(status: Option<string>): OrderStatus
  {
    if status.Some? then ParseOrderStatus(status.value) else Pending
  }

  /** The order total: the items at current prices, plus the shipping fee when one is given. */
  function RequestTotal(products: map<int, Product>, req: CreateOrderRequest): int
  {
    ItemsTotal(products, req.items) + (if req.shippingFee.Some? then req.shippingFee.value else 0)
  }

  /** The state after both saves of a create: the header, its lines at current prices, and the stock withdrawn. */
  function Created(db: Tables, req: CreateOrderRequest, total: int, clock: Clock): Tables
  {
    var orderId := FreshId(db.orders.Keys);
    var header := Order(req.accountId, Some(clock.now), Some(total), Some(InitialStatus(req.status)),
                        Some(req.recipient), Some(req.address), Some(req.phone));
    db.(orders := db.orders[orderId := header],
        orderLines := Snapshot(db.orderLines, orderId, db.products, req.items, FreshId(db.orderLines.Keys)),
        products := Withdraw(db.products, req.items))
  }

  /** The check-and-sum loop: stops at the first refused item, and otherwise sums price times quantity. */
  method CheckAndTotal(products: map<int, Product>, items: seq<Item>) returns (rejection: Option<Reply>, total: int)
    ensures rejection == FirstRejection(products, items)
    ensures rejection.None? ==> total == ItemsTotal(products, items)
  {
    total := 0;
    var i := 0;
    while i < |items|
      invariant 0 <= i <= |items|
      invariant forall j :: 0 <= j < i ==> Sellable(products, items[j])
      invariant FirstRejection(products, items) == FirstRejection(products, items[i..])
      invariant total == ItemsTotal(products, items[..i])
    {
      assert items[i..] == [items[i]] + items[i + 1..];
      assert items[i..][1..] == items[i + 1..];
      var refused := ItemRejection(products, items[i]);
      if refused.Some? {
        return refused, total;
      }
      assert AllButLast(items[..i + 1]) == items[..i];
      total := total + products[items[i].productId].price * items[i].qty;
      i := i + 1;
    }
    assert items[..i] == items;
    return None, total;
  }

  /** The second loop: a line and a withdrawal for each item whose product exists. */
  method WriteItems(db: Tables, orderId: int, items: seq<Item>) returns (lines: map<int, OrderLine>, products: map<int, Product>)
    requires forall i :: 0 <= i < |items| ==> items[i].productId in db.products
    ensures lines == Snapshot(db.orderLines, orderId, db.products, items, FreshId(db.orderLines.Keys))
    ensures products == Withdraw(db.products, items)
  {
    var base := FreshId(db.orderLines.Keys);
    lines, products := db.orderLines, db.products;
    var i := 0;
    while i < |items|
      invariant 0 <= i <= |items|
      invariant lines == Snapshot(db.orderLines, orderId, db.products, items[..i], base)
      invariant products == Withdraw(db.products, items[..i])
    {
      var item := items[i];
      SnapshotStep(db.orderLines, orderId, db.products, items, base, i);
      WithdrawStep(db.products, items, i);
      WithdrawKeepsPrices(db.products, items[..i], item.productId);
      if item.productId in products {
        lines := lines[base + i := OrderLine(orderId, item.productId, item.qty, Some(products[item.productId].price))];
        products := TakeItem(products, item);
      }
      i := i + 1;
    }
    assert items[..i] == items;
  }

  /**
   * `CreateDonHang`: refuses a bad account id (400), an unknown account (404), an
   * empty item list (400) or the first refused item, before any write; otherwise
   * saves the header and then its lines with the stock withdrawn.
   */
  method CreateOrder(ctx: ShopContext, req: CreateOrderRequest, clock: Clock) returns (reply: Reply)
    modifies ctx
    ensures CreateRejection(old(ctx.db), req).Some? ==>
      reply == CreateRejection(old(ctx.db), req).value && ctx.db == old(ctx.db)
    ensures CreateRejection(old(ctx.db), req).None? ==>
      reply == OkReply
      && ctx.db == Created(old(ctx.db), req, RequestTotal(old(ctx.db).products, req), clock)
  {
    var db := ctx.db;
    if req.accountId <= 0 {
      return BadRequest(400);
    }
    if req.accountId !in db.accounts {
      return BadRequest(404);
    }
    if req.items == [] {
      return BadRequest(400);
    }
    var refused, total := CheckAndTotal(db.products, req.items);
    if refused.Some? {
      return refused.value;
    }
    assert forall i :: 0 <= i < |req.items| ==> req.items[i].productId in db.products;
    if req.shippingFee.Some? {
      total := total + req.shippingFee.value;
    }
    assert total == RequestTotal(db.products, req);
    var orderId := FreshId(db.orders.Keys);
    var header := db.(orders := db.orders[orderId := Order(req.accountId, Some(clock.now), Some(total),
      Some(InitialStatus(req.status)), Some(req.recipient), Some(req.address), Some(req.phone))]);
    ctx.SaveChanges(header);
    var lines, products := WriteItems(header, orderId, req.items);
    ctx.SaveChanges(header.(orderLines := lines, products := products));
    assert ctx.db == Created(db, req, total, clock);
    return OkReply;
  }

  /**
   * A created order's lines carry its items at the prices of that moment, and each
   * product's stock drops by the total quantity its items ask for, whether or not
   * that leaves it negative.
   */
  lemma CreatedEffects(db: Tables, req: CreateOrderRequest, total: int, clock: Clock)
    ensures var r := Created(db, req, total, clock);
      var orderId := FreshId(db.orders.Keys);
      var base := FreshId(db.orderLines.Keys);
      && orderId !in db.orders && r.orders.Keys == db.orders.Keys + {orderId}
      && r.orders[orderId].total == Some(total)
      && (req.status.None? ==> r.orders[orderId].status == Some(Pending))
      && (forall i :: 0 <= i < |req.items| ==>
            r.orderLines[base + i] == OrderLine(orderId, req.items[i].productId, req.items[i].qty,
                                                Some(PriceOf(db.products, req.items[i].productId))))
      && (forall k :: k in db.products ==> r.products[k].stock == db.products[k].stock - QtyOf(req.items, k))
  {
  }

  // ---------------------------------------------------------------------------
  // Update
  // ---------------------------------------------------------------------------

  /** The order after an update: each text field replaced only by a non-blank value, the total only when given. */
  function UpdatedOrder(o: Order, req: UpdateOrderRequest): (r: Order)
    ensures r.accountId == o.accountId && r.placedAt == o.placedAt
    ensures r.status == if Blank(req.status) then o.status else Some(ParseOrderStatus(req.status.value))
    ensures r.recipient == if Blank(req.recipient) then o.recipient else req.recipient
    ensures r.address == if Blank(req.address) then o.address else req.address
    ensures r.phone == if Blank(req.phone) then o.phone else req.phone
    ensures r.total == if req.total.Some? then req.total else o.total
  {
    var o1 := if !Blank(req.status) then o.(status := Some(ParseOrderStatus(req.status.value))) else o;
    var o2 := if !Blank(req.recipient) then o1.(recipient := req.recipient) else o1;
    var o3 := if !Blank(req.address) then o2.(address := req.address) else o2;
    var o4 := if !Blank(req.phone) then o3.(phone := req.phone) else o3;
    if req.total.Some? then o4.(total := req.total) else o4
  }

  /** `UpdateDonHang`: an unknown order is answered 404 and nothing changes. */
  method UpdateOrder(ctx: ShopContext, id: int, req: UpdateOrderRequest) returns (reply: Reply)
    modifies ctx
    ensures id !in old(ctx.db).orders ==> reply == BadRequest(404) && ctx.db == old(ctx.db)
    ensures id in old(ctx.db).orders ==>
      reply == OkReply && ctx.db == old(ctx.db).(orders := old(ctx.db).orders[id := UpdatedOrder(old(ctx.db).orders[id], req)])
  {
    var db := ctx.db;
    if id !in db.orders {
      return BadRequest(404);
    }
    var o := db.orders[id];
    if !Blank(req.status) {
      o := o.(status := Some(ParseOrderStatus(req.status.value)));
    }
    if !Blank(req.recipient) {
      o := o.(recipient := req.recipient);
    }
    if !Blank(req.address) {
      o := o.(address := req.address);
    }
    if !Blank(req.phone) {
      o := o.(phone := req.phone);
    }
    if req.total.Some? {
      o := o.(total := req.total);
    }
    ctx.SaveChanges(db.(orders := db.orders[id := o]));
    return OkReply;
  }

  /** An update with nothing to say leaves the order as it was. */
  lemma EmptyUpdateKeepsOrder(o: Order)
    ensures UpdatedOrder(o, UpdateOrderRequest(None, None, None, None, None)) == o
  {
  }

  // ---------------------------------------------------------------------------
  // Delete
  // ---------------------------------------------------------------------------

  /** The order's status forbids deleting it: delivered or completed. */
  predicate Terminal(o: Order)
  {
    OrderStatusIs(o.status, DeliveredText) || OrderStatusIs(o.status, CompletedText)
  }

  /** The given order lines as items, in the same order. */
  function LineItems(lines: map<int, OrderLine>, ids: seq<int>): (r: seq<Item>)
    requires forall i :: 0 <= i < |ids| ==> ids[i] in lines
    ensures |r| == |ids|
    ensures forall i :: 0 <= i < |ids| ==> r[i] == Item(lines[ids[i]].productId, lines[ids[i]].qty)
  {
    if ids == [] then [] else [Item(lines[ids[0]].productId, lines[ids[0]].qty)] + LineItems(lines, ids[1..])
  }

  /** The lines of order `id`, in id order, as items. */
  function OrderItems(db: Tables, id: int): seq<Item>
  {
    LineItems(db.orderLines, SortedIds(LinesOfOrder(db.orderLines, id)))
  }

  /** The state after a delete: stock given back for every line, then the lines, the payments and the order removed. */
  function Deleted(db: Tables, id: int): Tables
  {
    db.(products := Restock(db.products, OrderItems(db, id)),
        orderLines := db.orderLines - LinesOfOrder(db.orderLines, id),
        payments := db.payments - PaymentsOfOrder(db.payments, id),
        orders := db.orders - {id})
  }

  /** The restocking loop over the order's lines. */
  method GiveBack(products: map<int, Product>, items: seq<Item>) returns (r: map<int, Product>)
    ensures r == Restock(products, items)
  {
    r := products;
    var i := 0;
    while i < |items|
      invariant 0 <= i <= |items|
      invariant r == Restock(products, items[..i])
    {
      assert AllButLast(items[..i + 1]) == items[..i];
      r := ReturnItem(r, items[i]);
      i := i + 1;
    }
    assert items[..i] == items;
  }

  /** `DeleteDonHang`: unknown (404) and delivered or completed (400) orders stay; any other is removed with its lines and payments. */
  method DeleteOrder(ctx: ShopContext, id: int) returns (reply: Reply)
    modifies ctx
    ensures id !in old(ctx.db).orders ==> reply == BadRequest(404) && ctx.db == old(ctx.db)
    ensures id in old(ctx.db).orders && Terminal(old(ctx.db).orders[id]) ==> reply == BadRequest(400) && ctx.db == old(ctx.db)
    ensures id in old(ctx.db).orders && !Terminal(old(ctx.db).orders[id]) ==> reply == OkReply && ctx.db == Deleted(old(ctx.db), id)
  {
    var db := ctx.db;
    if id !in db.orders {
      return BadRequest(404);
    }
    if Terminal(db.orders[id]) {
      return BadRequest(400);
    }
    var products := GiveBack(db.products, OrderItems(db, id));
    ctx.SaveChanges(db.(products := products,
                        orderLines := db.orderLines - LinesOfOrder(db.orderLines, id),
                        payments := db.payments - PaymentsOfOrder(db.payments, id),
                        orders := db.orders - {id}));
    return OkReply;
  }

  /** Every order line and every payment belongs to an existing order. */
  predicate OrdersReferenced(db: Tables)
  {
    && (forall k :: k in db.orderLines ==> db.orderLines[k].orderId in db.orders)
    && (forall k :: k in db.payments ==> db.payments[k].orderId in db.orders)
  }

  /** The consecutive ids `base`, ..., `base + n - 1`, in order. */
  function Consecutive(base: int, n: nat): (r: seq<int>)
    ensures |r| == n
    ensures forall i :: 0 <= i < n ==> r[i] == base + i
  {
    if n == 0 then [] else Consecutive(base, n - 1) + [base + n - 1]
  }

  /** Lines snapshotted for a new order are exactly the lines of that order. */
  lemma SnapshotLinesOfOrder(lines: map<int, OrderLine>, orderId: int, products: map<int, Product>, items: seq<Item>, base: int)
    requires forall k :: k in lines ==> k < base && lines[k].orderId != orderId
    ensures LinesOfOrder(Snapshot(lines, orderId, products, items, base), orderId) == IdRange(base, |items|)
  {
    var s := Snapshot(lines, orderId, products, items, base);
    forall k | k in s
      ensures s[k].orderId == orderId <==> k in IdRange(base, |items|)
    {
      if k in lines {
        assert s[k] == lines[k] && k < base;
      } else {
        assert k in IdRange(base, |items|);
        var i := k - base;
        assert 0 <= i < |items|;
        assert s[base + i] == OrderLine(orderId, items[i].productId, items[i].qty, Some(PriceOf(products, items[i].productId)));
      }
    }
  }

  /** Read back in id order, the snapshotted lines are the items. */
  lemma SnapshotItems(lines: map<int, OrderLine>, orderId: int, products: map<int, Product>, items: seq<Item>, base: int)
    requires forall k :: k in lines ==> k < base
    ensures forall i :: 0 <= i < |items| ==> Consecutive(base, |items|)[i] in Snapshot(lines, orderId, products, items, base)
    ensures LineItems(Snapshot(lines, orderId, products, items, base), Consecutive(base, |items|)) == items
  {
    var s := Snapshot(lines, orderId, products, items, base);
    var ids := Consecutive(base, |items|);
    forall i | 0 <= i < |items|
      ensures ids[i] in s && s[ids[i]].productId == items[i].productId && s[ids[i]].qty == items[i].qty
    {
      assert ids[i] == base + i;
    }
  }

  /** The id range read back in id order is the consecutive ids. */
  lemma SortedIdRange(base: int, n: nat)
    ensures SortedIds(IdRange(base, n)) == Consecutive(base, n)
  {
    var sorted := Consecutive(base, n);
    forall x
      ensures x in IdRange(base, n) <==> x in sorted
    {
      if base <= x < base + n {
        assert sorted[x - base] == x;
      }
    }
    SortedIdsOfIncreasing(IdRange(base, n), sorted);
  }

  /** A fresh order id is not referenced by any existing line or payment. */
  lemma FreshOrderUnreferenced(db: Tables)
    requires OrdersReferenced(db)
    ensures forall k :: k in db.orderLines ==> db.orderLines[k].orderId != FreshId(db.orders.Keys)
    ensures PaymentsOfOrder(db.payments, FreshId(db.orders.Keys)) == {}
  {
    var orderId := FreshId(db.orders.Keys);
    var paid := PaymentsOfOrder(db.payments, orderId);
    assert forall k :: k in paid ==> db.payments[k].orderId in db.orders && k !in paid;
  }

  /** Read back in id order, a freshly created order's lines are its items. */
  lemma CreatedOrderItems(db: Tables, req: CreateOrderRequest, total: int, clock: Clock)
    requires OrdersReferenced(db)
    ensures LinesOfOrder(Created(db, req, total, clock).orderLines, FreshId(db.orders.Keys))
         == IdRange(FreshId(db.orderLines.Keys), |req.items|)
    ensures OrderItems(Created(db, req, total, clock), FreshId(db.orders.Keys)) == req.items
  {
    var orderId := FreshId(db.orders.Keys);
    var base := FreshId(db.orderLines.Keys);
    FreshOrderUnreferenced(db);
    SnapshotLinesOfOrder(db.orderLines, orderId, db.products, req.items, base);
    SortedIdRange(base, |req.items|);
    SnapshotItems(db.orderLines, orderId, db.products, req.items, base);
  }

  /** Removing the snapshotted ids leaves the lines that were there before. */
  lemma SnapshotRemoved(lines: map<int, OrderLine>, orderId: int, products: map<int, Product>, items: seq<Item>, base: int)
    requires forall k :: k in lines ==> k < base
    ensures Snapshot(lines, orderId, products, items, base) - IdRange(base, |items|) == lines
  {
  }

  /** Removing a key just added to a map gives back the map. */
  lemma RemoveAdded(orders: map<int, Order>, id: int, o: Order)
    requires id !in orders
    ensures orders[id := o] - {id} == orders
  {
  }

  /** Deleting a freshly created order gives every product its stock back. */
  lemma DeleteCreatedProducts(db: Tables, req: CreateOrderRequest, total: int, clock: Clock)
    requires OrdersReferenced(db)
    ensures Deleted(Created(db, req, total, clock), FreshId(db.orders.Keys)).products == db.products
  {
    CreatedOrderItems(db, req, total, clock);
    RestockUndoesWithdraw(db.products, req.items);
  }

  /** Deleting a freshly created order removes exactly the lines it added. */
  lemma DeleteCreatedLines(db: Tables, req: CreateOrderRequest, total: int, clock: Clock)
    requires OrdersReferenced(db)
    ensures Deleted(Created(db, req, total, clock), FreshId(db.orders.Keys)).orderLines == db.orderLines
  {
    CreatedOrderItems(db, req, total, clock);
    SnapshotRemoved(db.orderLines, FreshId(db.orders.Keys), db.products, req.items, FreshId(db.orderLines.Keys));
  }

  /** Deleting a freshly created order removes no payment and leaves the other orders. */
  lemma DeleteCreatedHeader(db: Tables, req: CreateOrderRequest, total: int, clock: Clock)
    requires OrdersReferenced(db)
    ensures var d := Deleted(Created(db, req, total, clock), FreshId(db.orders.Keys));
      d.payments == db.payments && d.orders == db.orders
  {
    var c := Created(db, req, total, clock);
    var orderId := FreshId(db.orders.Keys);
    FreshOrderUnreferenced(db);
    DeleteAddedHeader(db, c, orderId);
  }

  /** Deleting an order added to a store where nothing referred to its id leaves the other orders and the payments. */
  lemma DeleteAddedHeader(db: Tables, c: Tables, orderId: int)
    requires orderId !in db.orders && PaymentsOfOrder(db.payments, orderId) == {}
    requires c.payments == db.payments && orderId in c.orders && c.orders == db.orders[orderId := c.orders[orderId]]
    ensures Deleted(c, orderId).payments == db.payments && Deleted(c, orderId).orders == db.orders
  {
    assert db.payments - {} == db.payments;
    RemoveAdded(db.orders, orderId, c.orders[orderId]);
  }

  /**
   * Creating an order and then deleting it (its status not delivered or completed,
   * so that the delete goes through) gives back the store as it was: every product's
   * stock, the orders, the lines and the payments.
   */
  lemma CreateThenDeleteRestores(db: Tables, req: CreateOrderRequest, total: int, clock: Clock)
    requires OrdersReferenced(db)
    requires !Terminal(Created(db, req, total, clock).orders[FreshId(db.orders.Keys)])
    ensures Deleted(Created(db, req, total, clock), FreshId(db.orders.Keys)) == db
  {
    DeleteCreatedProducts(db, req, total, clock);
    DeleteCreatedLines(db, req, total, clock);
    DeleteCreatedHeader(db, req, total, clock);
  }

  // ---------------------------------------------------------------------------
  // The order list
  // ---------------------------------------------------------------------------

  /** An order passes the list's filters: the status text when one is given, the account when one is given. */
  predicate ListMatches(o: Order, status: Option<string>, accountId: Option<int>)
  {
    (Blank(status) || OrderStatusIs(o.status, status.value))
    && (accountId.None? || o.accountId == accountId.value)
  }

  /** The ids of the orders the list's filters keep, in id order. */
  function ListedOrders(orders: map<int, Order>, status: Option<string>, accountId: Option<int>): (r: seq<int>)
    ensures forall k :: k in r <==> k in orders && ListMatches(orders[k], status, accountId)
    ensures Increasing(r)
  {
    Filter(SortedIds(orders.Keys), k => k in orders && ListMatches(orders[k], status, accountId))
  }

  /**
   * `GetDonHangs`: the total of matching orders, and the requested page of them, newest
   * first; 400 when the database refuses the page.
   */
  function OrderList(orders: map<int, Order>, page: int, pageSize: int, status: Option<string>, accountId: Option<int>)
    : (r: (Reply, int, seq<int>))
    ensures PageRefused(page, pageSize) ==> r == (BadRequest(400), 0, [])
    ensures !PageRefused(page, pageSize) ==> r.0 == OkReply && r.1 == |ListedOrders(orders, status, accountId)|
    ensures |r.2| <= Max(pageSize, 0)
    ensures forall k :: k in r.2 ==> k in orders && ListMatches(orders[k], status, accountId)
    ensures OrderedBy(r.2, PlacedAt(orders), true)
    ensures !PageRefused(page, pageSize) ==>
      Some(r.2) == Page(SortByDate(ListedOrders(orders, status, accountId), PlacedAt(orders), true), page, pageSize)
  {
    var matching := ListedOrders(orders, status, accountId);
    match PageByDate(matching, PlacedAt(orders), true, page, pageSize)
    case None => (BadRequest(400), 0, [])
    case Some(rows) => (OkReply, |matching|, rows)
  }
}
