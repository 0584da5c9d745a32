// The customer's order handlers: placing an order from the cart (with its payment
// record and, for VNPAY, the payment URL), the gateway's callback, and the owner's
// confirmation of a pending order.
module Orders {
  import opened Common
  import opened Entities
  import opened Stock
  import opened Carts
  import opened Vnpay

  /** `DonHangCreateDTO`: recipient details, optional shipping fee, optional payment method and gateway. */
  datatype OrderRequest = OrderRequest(
    recipient: string,
    address: string,
    phone: string,
    shippingFee: Option<int>,
    paymentMethod: Option<string>,
    gateway: Option<string>)

  /** The `Vnpay` configuration section; a missing key reads as null. */
  datatype GatewayConfig = GatewayConfig(
    tmnCode: Option<string>,
    hashSecret: Option<string>,
    callbackUrl: Option<string>,
    baseUrl: Option<string>)

  /** `value ?? ""`. */
  function OrEmpty(s: Option<string>): string
  {
    if s.Some? then s.value else ""
  }

  /** The payment methods an order may name. */
  const OrderPaymentMethods: set<string> := {"COD", "ChuyenKhoan", "ViDienTu", "VnPay"}

  // ---------------------------------------------------------------------------
  // The checks before the first write
  // ---------------------------------------------------------------------------

  /** Every check that precedes the first write passes: known account, non-empty cart, every line sellable. */
  predicate CanPlaceOrder(db: Tables, accountId: int)
  {
    && accountId in db.accounts
    && AccountCart(db.carts, accountId).Some?
    && var items := CartContents(db, AccountCart(db.carts, accountId).value);
      && items != []
      && forall i :: 0 <= i < |items| ==> Sellable(db.products, items[i])
  }

  /** The order total: the items at current prices, plus the shipping fee when one is given. */
  function OrderTotal(products: map<int, Product>, items: seq<Item>, fee: Option<int>): int
  {
    ItemsTotal(products, items) + (if fee.Some? then fee.value else 0)
  }

  /** The new order row: placed now, pending, with the request's recipient details. */
  function NewOrder(accountId: int, total: int, req: OrderRequest, clock: Clock): Order
  {
    Order(accountId, Some(clock.now), Some(total), Some(Pending), Some(req.recipient), Some(req.address), Some(req.phone))
  }

  /** The state the first `SaveChanges` commits: the order header alone, under a fresh id. */
  function WithHeader(db: Tables, accountId: int, total: int, req: OrderRequest, clock: Clock): (r: Tables)
    ensures r == db.(orders := r.orders)
    ensures r.orders == db.orders[FreshId(db.orders.Keys) := NewOrder(accountId, total, req, clock)]
  {
    db.(orders := db.orders[FreshId(db.orders.Keys) := NewOrder(accountId, total, req, clock)])
  }

  // ---------------------------------------------------------------------------
  // The payment record
  // ---------------------------------------------------------------------------

  /** A payment method is acceptable when none is named or it is one of the four. */
  predicate MethodAccepted(m: Option<string>)
  {
    Blank(m) || m.value in OrderPaymentMethods
  }

  /**
   * The payment row written with the order. The payment date is left empty for "COD"
   * and for the lower-case spelling "vnpay"; the automatic transaction id is left out
   * for the same two.
   */
  function OrderPayment(orderId: int, m: string, total: int, gateway: Option<string>, clock: Clock): Payment
  {
    Payment(orderId, Some(m), Some(total), Some(Unpaid),
            if m == "COD" then None else if m == "vnpay" then None else Some(clock.now),
            if m != "COD" && m != "vnpay" then Some("DH" + IntText(orderId) + "-AUTO-" + Stamp(clock)) else None,
            gateway)
  }

  /**
   * The payment row of an order paid with an accepted method records the order total,
   * is unpaid, and is undated only for COD. Because the comparison is made with
   * "vnpay" and the accepted spelling is "VnPay", a VNPAY payment gets a date and an
   * automatic transaction id like a transfer.
   */
  lemma OrderPaymentRules(orderId: int, m: string, total: int, gateway: Option<string>, clock: Clock)
    requires m in OrderPaymentMethods
    ensures var p := OrderPayment(orderId, m, total, gateway, clock);
      && p.orderId == orderId && p.amount == Some(total) && p.status == Some(Unpaid) && p.gateway == gateway
      && (p.paidAt.None? <==> m == "COD")
      && (p.txnId.None? <==> m == "COD")
      && (m == "VnPay" ==> p.paidAt == Some(clock.now) && p.txnId == Some("DH" + IntText(orderId) + "-AUTO-" + Stamp(clock)))
  {
    assert m != "vnpay" by {
      assert "vnpay"[0] != "VnPay"[0];
    }
  }

  // ---------------------------------------------------------------------------
  // The state the second SaveChanges commits
  // ---------------------------------------------------------------------------

  /**
   * After the header was saved: one order line per cart line with the current price,
   * the stock withdrawn, the cart's lines removed, and the payment row when a method
   * was named.
   */
  function Fulfilled(db: Tables, orderId: int, cartId: int, items: seq<Item>, req: OrderRequest, total: int, clock: Clock)
    : Tables
  {
    db.(products := Withdraw(db.products, items),
        orderLines := Snapshot(db.orderLines, orderId, db.products, items, FreshId(db.orderLines.Keys)),
        cartLines := db.cartLines - LinesOfCart(db.cartLines, cartId),
        payments := if Blank(req.paymentMethod) then db.payments
                    else db.payments[FreshId(db.payments.Keys) := OrderPayment(orderId, req.paymentMethod.value, total, req.gateway, clock)])
  }

  /**
   * What placing the order commits: every cart line becomes an order line of the new
   * order carrying the product's price at that moment; every product's stock drops by
   * the quantity ordered of it; the cart keeps its row but loses all its lines; no
   * other row of those tables changes.
   */
  lemma FulfilledEffects(db: Tables, orderId: int, cartId: int, items: seq<Item>, req: OrderRequest, total: int, clock: Clock)
    ensures var r := Fulfilled(db, orderId, cartId, items, req, total, clock);
      var base := FreshId(db.orderLines.Keys);
      && r.orderLines.Keys == db.orderLines.Keys + IdRange(base, |items|)
      && (forall k :: k in db.orderLines ==> r.orderLines[k] == db.orderLines[k])
      && (forall i :: 0 <= i < |items| ==>
            r.orderLines[base + i] == OrderLine(orderId, items[i].productId, items[i].qty, Some(PriceOf(db.products, items[i].productId))))
      && r.products.Keys == db.products.Keys
      && (forall k :: k in db.products ==> r.products[k].stock == db.products[k].stock - QtyOf(items, k))
      && r.carts == db.carts && r.orders == db.orders
      && (forall k :: k in r.cartLines <==> k in db.cartLines && db.cartLines[k].cartId != cartId)
      && (forall k :: k in r.cartLines ==> r.cartLines[k] == db.cartLines[k])
  {
  }

  /** The payment row is written exactly when a method is named, and it records the order total. */
  lemma FulfilledPayment(db: Tables, orderId: int, cartId: int, items: seq<Item>, req: OrderRequest, total: int, clock: Clock)
    requires MethodAccepted(req.paymentMethod)
    ensures var r := Fulfilled(db, orderId, cartId, items, req, total, clock);
      var pid := FreshId(db.payments.Keys);
      && (Blank(req.paymentMethod) <==> r.payments == db.payments)
      && (!Blank(req.paymentMethod) ==>
            && r.payments.Keys == db.payments.Keys + {pid}
            && r.payments[pid].orderId == orderId && r.payments[pid].amount == Some(total)
            && r.payments[pid].status == Some(Unpaid))
  {
    if !Blank(req.paymentMethod) {
      var pid := FreshId(db.payments.Keys);
      var r := Fulfilled(db, orderId, cartId, items, req, total, clock);
      assert pid in r.payments && pid !in db.payments;
      OrderPaymentRules(orderId, req.paymentMethod.value, total, req.gateway, clock);
    }
  }

  // ---------------------------------------------------------------------------
  // The gateway step
  // ---------------------------------------------------------------------------

  /** The description the order sends to the gateway. */
  function PaymentDescription(orderId: int): string
  {
    "Thanh toán đơn hàng #" + IntText(orderId)
  }

  /** The gateway request for the order's payment: any bank, dong, Vietnamese, created now. */
  function GatewayRequest(paymentId: int, orderId: int, total: int, ip: Option<string>, clock: Clock): PaymentRequest
  {
    PaymentRequest(paymentId, Some(PaymentDescription(orderId)), total, ip, ANY, clock.now, VND, Vietnamese)
  }

  /** The gateway issues a URL: all four settings present, the total within bounds, an IP address known. */
  predicate GatewayAccepts(config: GatewayConfig, total: int, ip: Option<string>)
  {
    && OrEmpty(config.tmnCode) != "" && OrEmpty(config.hashSecret) != ""
    && OrEmpty(config.callbackUrl) != "" && OrEmpty(config.baseUrl) != ""
    && MinAmount <= total <= MaxAmount
    && !NullOrEmpty(ip)
  }

  /** The payment URL the order's VNPAY payment gets. */
  function OrderPaymentUrl(config: GatewayConfig, paymentId: int, orderId: int, total: int, ip: Option<string>, clock: Clock)
    : PaymentUrl
    requires !NullOrEmpty(ip)
  {
    PaymentUrl(OrEmpty(config.baseUrl), OrEmpty(config.hashSecret),
      RequestFields(DefaultVersion, OrEmpty(config.tmnCode), DefaultOrderType, OrEmpty(config.callbackUrl),
                    GatewayRequest(paymentId, orderId, total, ip, clock), PaymentDescription(orderId), ip.value, clock.render))
  }

  /** A total below the gateway minimum is refused whatever the configuration. */
  lemma SmallTotalRefused(config: GatewayConfig, total: int, ip: Option<string>)
    requires total < MinAmount
    ensures !GatewayAccepts(config, total, ip)
  {
  }

  /** The check loop over the cart lines: succeeds exactly when every item is sellable. */
  method CheckItems(products: map<int, Product>, items: seq<Item>) returns (ok: bool)
    ensures ok <==> forall i :: 0 <= i < |items| ==> Sellable(products, items[i])
  {
    var i := 0;
    while i < |items|
      invariant 0 <= i <= |items|
      invariant forall j :: 0 <= j < i ==> Sellable(products, items[j])
    {
      var item := items[i];
      if item.productId !in products {
        return false;
      }
      if products[item.productId].stock < item.qty {
        return false;
      }
      if !Active(products[item.productId]) {
        return false;
      }
      i := i + 1;
    }
    return true;
  }

  /** The line-writing loop: one order line per item, and the stock withdrawn item by item. */
  method WriteLines(db: Tables, orderId: int, items: seq<Item>) returns (lines: map<int, OrderLine>, products: map<int, Product>)
    ensures lines == Snapshot(db.orderLines, orderId, db.products, items, FreshId(db.orderLines.Keys))
    ensures products == Withdraw(db.products, items)
  {
    var base := FreshId(db.orderLines.Keys);
    lines, products := db.orderLines, db.products;
    var i := 0;
    while i < |items|
      invariant 0 <= i <= |items|
      invariant lines == Snapshot(db.orderLines, orderId, db.products, items[..i], base)
      invariant products == Withdraw(db.products, items[..i])
    {
      var item := items[i];
      SnapshotStep(db.orderLines, orderId, db.products, items, base, i);
      WithdrawStep(db.products, items, i);
      lines := lines[base + i := OrderLine(orderId, item.productId, item.qty, Some(PriceOf(db.products, item.productId)))];
      products := TakeItem(products, item);
      i := i + 1;
    }
    assert items[..i] == items;
  }

  /**
   * The checks before the first write, in the handler's order: the account, the cart
   * and its lines, then every line's product.
   */
  method CheckOrder(db: Tables, accountId: int) returns (reply: Reply, proceed: bool, cartId: int, items: seq<Item>)
    ensures proceed <==> CanPlaceOrder(db, accountId)
    ensures !proceed ==> reply == (if accountId !in db.accounts then UnauthorizedReply else BadRequest(400))
    ensures proceed ==> cartId == AccountCart(db.carts, accountId).value && items == CartContents(db, cartId)
  {
    reply, proceed, cartId, items := BadRequest(400), false, 0, [];
    if accountId !in db.accounts {
      return UnauthorizedReply, false, 0, [];
    }
    var cart := AccountCart(db.carts, accountId);
    if cart.None? {
      return;
    }
    cartId := cart.value;
    items := CartContents(db, cartId);
    if items == [] {
      return;
    }
    proceed := CheckItems(db.products, items);
  }

  /**
   * What the handler stages after the header was saved: the order lines and stock,
   * the cart clearing, and the payment row, or a refusal of the payment method, which
   * discards all of it.
   */
  method StageFulfilment(header: Tables, orderId: int, cartId: int, items: seq<Item>, req: OrderRequest, total: int, clock: Clock)
    returns (accepted: bool, staged: Tables)
    ensures accepted <==> MethodAccepted(req.paymentMethod)
    ensures accepted ==> staged == Fulfilled(header, orderId, cartId, items, req, total, clock)
  {
    var lines, products := WriteLines(header, orderId, items);
    var cartLines := header.cartLines - LinesOfCart(header.cartLines, cartId);
    var payments := header.payments;
    if !Blank(req.paymentMethod) {
      if req.paymentMethod.value !in OrderPaymentMethods {
        return false, header;
      }
      payments := payments[FreshId(header.payments.Keys) := OrderPayment(orderId, req.paymentMethod.value, total, req.gateway, clock)];
    }
    return true, header.(products := products, orderLines := lines, cartLines := cartLines, payments := payments);
  }

  /** The VNPAY step: a fresh service initialised from the configuration builds the payment URL. */
  method RequestPaymentUrl(config: GatewayConfig, paymentId: int, orderId: int, total: int, ip: Option<string>, clock: Clock)
    returns (reply: Reply, url: Option<PaymentUrl>)
    ensures reply == OkReply <==> GatewayAccepts(config, total, ip)
    ensures reply != OkReply ==> reply == BadRequest(400) && url.None?
    ensures reply == OkReply ==> url == Some(OrderPaymentUrl(config, paymentId, orderId, total, ip, clock))
  {
    var client := new VnpayClient();
    var init := client.Initialize(OrEmpty(config.tmnCode), OrEmpty(config.hashSecret),
                                  OrEmpty(config.callbackUrl), OrEmpty(config.baseUrl));
    if init.Thrown? {
      return BadRequest(400), None;
    }
    var made := client.GetPaymentUrl(GatewayRequest(paymentId, orderId, total, ip, clock), clock.render);
    if made.Thrown? {
      return BadRequest(400), None;
    }
    return OkReply, Some(made.value);
  }

  /**
   * `TaoDonHang`: places an order from the account's cart. Every failure before the
   * first save leaves the store as it was. An unaccepted payment method is reported
   * after the order header was saved, so the header stays (without lines, with stock
   * and cart untouched). A VNPAY order whose URL the gateway refuses is reported as
   * an error although everything was committed.
   */
  method PlaceOrder(ctx: ShopContext, req: OrderRequest, accountId: int, clock: Clock, config: GatewayConfig, ip: Option<string>)
    returns (reply: Reply, url: Option<PaymentUrl>)
    modifies ctx
    ensures accountId !in old(ctx.db).accounts ==> reply == UnauthorizedReply && ctx.db == old(ctx.db)
    ensures accountId in old(ctx.db).accounts && !CanPlaceOrder(old(ctx.db), accountId) ==>
      reply == BadRequest(400) && ctx.db == old(ctx.db)
    ensures CanPlaceOrder(old(ctx.db), accountId) ==>
      var db := old(ctx.db);
      var cartId := AccountCart(db.carts, accountId).value;
      var items := CartContents(db, cartId);
      var total := OrderTotal(db.products, items, req.shippingFee);
      var header := WithHeader(db, accountId, total, req, clock);
      var orderId := FreshId(db.orders.Keys);
      && (!MethodAccepted(req.paymentMethod) ==> reply == BadRequest(400) && ctx.db == header)
      && (MethodAccepted(req.paymentMethod) ==> ctx.db == Fulfilled(header, orderId, cartId, items, req, total, clock))
      && (MethodAccepted(req.paymentMethod) && req.paymentMethod != Some("VnPay") ==> reply == OkReply && url.None?)
      && (MethodAccepted(req.paymentMethod) && req.paymentMethod == Some("VnPay") ==>
            && (reply == OkReply <==> GatewayAccepts(config, total, ip))
            && (reply != OkReply ==> reply == BadRequest(400))
            && (reply == OkReply ==> url == Some(OrderPaymentUrl(config, FreshId(db.payments.Keys), orderId, total, ip, clock))))
    ensures reply == OkReply ==> CanPlaceOrder(old(ctx.db), accountId)
  {
    var db := ctx.db;
    var checked, proceed, cartId, items := CheckOrder(db, accountId);
    if !proceed {
      return checked, None;
    }
    var total := OrderTotal(db.products, items, req.shippingFee);
    var orderId := FreshId(db.orders.Keys);
    var header := WithHeader(db, accountId, total, req, clock);
    ctx.SaveChanges(header);

    var accepted, staged := StageFulfilment(header, orderId, cartId, items, req, total, clock);
    if !accepted {
      return BadRequest(400), None;
    }
    ctx.SaveChanges(staged);

    if req.paymentMethod == Some("VnPay") {
      reply, url := RequestPaymentUrl(config, FreshId(header.payments.Keys), orderId, total, ip, clock);
      return;
    }
    return OkReply, None;
  }

  // ---------------------------------------------------------------------------
  // Callback
  // ---------------------------------------------------------------------------

  /** The payments after payment `id` was marked paid. */
  function Settle(payments: map<int, Payment>, id: int): map<int, Payment>
    requires id in payments
  {
    payments[id := payments[id].(status := Some(Settled))]
  }

  /**
   * `Callback`: an empty query is answered 404. The service is initialised outside the
   * handler's try block, so a missing setting escapes as a server error. A query the
   * adapter cannot read is answered with an "error" body (HTTP 200, code 500). The
   * payment id is narrowed to 32 bits; an unknown payment is answered 400 (code 404);
   * otherwise the payment is marked paid, whether or not the result reports success.
   */
  method Callback(ctx: ShopContext, query: Fields, config: GatewayConfig, signatureValid: (Fields, string, string) -> bool)
    returns (reply: Reply)
    modifies ctx
    ensures query == [] ==> reply == NotFoundReply && ctx.db == old(ctx.db)
    ensures query != [] && !GatewayConfigured(config) ==> reply == ServerErrorReply && ctx.db == old(ctx.db)
    ensures var d := RetainGatewayFields(query);
      var result := ReadCallback(d, signatureValid(SignatureInput(d), Value(d, "vnp_SecureHash"), OrEmpty(config.hashSecret)));
      query != [] && GatewayConfigured(config) ==>
        && (result.Thrown? ==> reply == Reply(200, 500) && ctx.db == old(ctx.db))
        && (result.Returned? && ToInt32(result.value.paymentId) !in old(ctx.db).payments ==>
              reply == BadRequest(404) && ctx.db == old(ctx.db))
        && (result.Returned? && ToInt32(result.value.paymentId) in old(ctx.db).payments ==>
              reply == OkReply
              && ctx.db == old(ctx.db).(payments := Settle(old(ctx.db).payments, ToInt32(result.value.paymentId))))
    ensures reply == OkReply ==> query != [] && GatewayConfigured(config)
  {
    if query == [] {
      return NotFoundReply;
    }
    var client := new VnpayClient();
    var init := client.Initialize(OrEmpty(config.tmnCode), OrEmpty(config.hashSecret),
                                  OrEmpty(config.callbackUrl), OrEmpty(config.baseUrl));
    if init.Thrown? {
      return ServerErrorReply;
    }
    var result := client.GetPaymentResult(query, signatureValid);
    if result.Thrown? {
      return Reply(200, 500);
    }
    var id := ToInt32(result.value.paymentId);
    var db := ctx.db;
    if id !in db.payments {
      return BadRequest(404);
    }
    ctx.SaveChanges(db.(payments := Settle(db.payments, id)));
    return OkReply;
  }

  /** The four settings the service needs are all present. */
  predicate GatewayConfigured(config: GatewayConfig)
  {
    OrEmpty(config.tmnCode) != "" && OrEmpty(config.hashSecret) != ""
    && OrEmpty(config.callbackUrl) != "" && OrEmpty(config.baseUrl) != ""
  }

  /**
   * The callback's effect does not depend on the signature: a query reads as a result
   * for the same payment whether or not its signature checks out, so a forged query
   * settles the payment just as a genuine one does.
   */
  lemma ForgedCallbackSettlesAlike(d: Fields)
    ensures ReadCallback(d, true).Returned? <==> ReadCallback(d, false).Returned?
    ensures ReadCallback(d, false).Returned? ==>
      && ReadCallback(d, false).value.paymentId == ReadCallback(d, true).value.paymentId
      && !ReadCallback(d, false).value.isSuccess
  {
  }

  /**
   * A callback echoing the transaction reference the payment URL sent finds the
   * payment it was sent for: a payment id read back from the reference and narrowed to
   * 32 bits is the id itself.
   */
  lemma CallbackFindsSentPayment(paymentId: int)
    requires -Int32Bound <= paymentId < Int32Bound
    ensures ParseLong(IntText(paymentId)).Some?
    ensures ToInt32(ParseLong(IntText(paymentId)).value) == paymentId
  {
    TxnRefRoundTrip(paymentId);
  }

  // ---------------------------------------------------------------------------
  // Owner confirmation
  // ---------------------------------------------------------------------------

  /** The owner may confirm the order: it exists, belongs to the caller and is pending. */
  predicate CanConfirm(orders: map<int, Order>, id: int, accountId: int)
  {
    id in orders && orders[id].accountId == accountId && OrderStatusIs(orders[id].status, PendingText)
  }

  /** The orders after order `id` was confirmed. */
  function Confirm(orders: map<int, Order>, id: int): map<int, Order>
    requires id in orders
  {
    orders[id := orders[id].(status := Some(Confirmed))]
  }

  /** `XacNhanDonHang`: moves the caller's pending order to "confirmed"; anything else is refused unchanged. */
  method ConfirmOrder(ctx: ShopContext, id: int, accountId: int) returns (reply: Reply)
    modifies ctx
    ensures !(id in old(ctx.db).orders && old(ctx.db).orders[id].accountId == accountId) ==>
      reply == BadRequest(404) && ctx.db == old(ctx.db)
    ensures (id in old(ctx.db).orders && old(ctx.db).orders[id].accountId == accountId
             && !CanConfirm(old(ctx.db).orders, id, accountId)) ==> reply == BadRequest(400) && ctx.db == old(ctx.db)
    ensures CanConfirm(old(ctx.db).orders, id, accountId) ==>
      reply == OkReply && ctx.db == old(ctx.db).(orders := Confirm(old(ctx.db).orders, id))
  {
    var db := ctx.db;
    if id !in db.orders || db.orders[id].accountId != accountId {
      return BadRequest(404);
    }
    if !OrderStatusIs(db.orders[id].status, PendingText) {
      return BadRequest(400);
    }
    ctx.SaveChanges(db.(orders := Confirm(db.orders, id)));
    return OkReply;
  }

  /** Confirmation succeeds at most once: a confirmed order can no longer be confirmed. */
  lemma ConfirmAtMostOnce(orders: map<int, Order>, id: int, accountId: int)
    requires CanConfirm(orders, id, accountId)
    ensures !CanConfirm(Confirm(orders, id), id, accountId)
    ensures forall k :: k in orders && k != id ==> Confirm(orders, id)[k] == orders[k]
  {
    assert ConfirmedText != PendingText by {
      assert ConfirmedText[0] != PendingText[0];
    }
  }
}
