// The customer's payment handlers: recording a payment for an order, and confirming a
// payment, which also marks a pending or confirmed order paid.
module Payments {
  import opened Common
  import opened Entities

  /** The methods a payment may be created with here; VNPAY payments only arise when an order is placed. */
  const PaymentMethods: set<string> := {"COD", "ChuyenKhoan", "ViDienTu"}

  /** `ThanhToanCreateDTO`. */
  datatype PaymentRequest = PaymentRequest(orderId: int, paymentMethod: Option<string>, gateway: Option<string>)

  /** The payment has been settled (`TrangThai == "Đã thanh toán"`). */
  predicate IsSettled(p: Payment)
  {
    PaymentStatusIs(p.status, SettledText)
  }

  /** The ids of the settled payments of order `orderId`. */
  function SettledPaymentsOf(payments: map<int, Payment>, orderId: int): (ids: set<int>)
    ensures forall k :: k in ids <==> k in payments && payments[k].orderId == orderId && IsSettled(payments[k])
  {
    set k | k in payments && payments[k].orderId == orderId && IsSettled(payments[k])
  }

  /** The order exists and belongs to the account. */
  predicate OwnsOrder(db: Tables, orderId: int, accountId: int)
  {
    orderId in db.orders && db.orders[orderId].accountId == accountId
  }

  // ---------------------------------------------------------------------------
  // Creating a payment
  // ---------------------------------------------------------------------------

  /** The answer to a payment request that is refused, if it is refused. */
  function CreateRejection(db: Tables, accountId: int, req: PaymentRequest): (r: Option<Reply>)
    ensures r.None? <==>
      && accountId in db.accounts && OwnsOrder(db, req.orderId, accountId)
      && req.paymentMethod.Some? && req.paymentMethod.value in PaymentMethods
      && SettledPaymentsOf(db.payments, req.orderId) == {}
    ensures r.Some? ==> r.value in {UnauthorizedReply, BadRequest(404), BadRequest(400)}
  {
    if accountId !in db.accounts then Some(UnauthorizedReply)
    else if !OwnsOrder(db, req.orderId, accountId) then Some(BadRequest(404))
    else if !(req.paymentMethod.Some? && req.paymentMethod.value in PaymentMethods) then Some(BadRequest(400))
    else if SettledPaymentsOf(db.payments, req.orderId) != {} then Some(BadRequest(400))
    else None
  }

  /** The payment row a request creates for an order with total `total`. */
  function NewPayment(req: PaymentRequest, m: string, total: Option<int>, clock: Clock): Payment
  {
    var cash := m == "COD";
    Payment(req.orderId, Some(m), total,
            Some(if cash then AwaitingCash else Unpaid),
            if cash then None else Some(clock.now),
            if cash then None else Some("GD" + Stamp(clock) + IntText(req.orderId)),
            req.gateway)
  }

  /**
   * A new payment records the order's total; a cash payment waits for the cash and has
   * neither date nor transaction id, any other is unpaid, dated now and identified by
   * "GD", the time stamp and the order id.
   */
  lemma NewPaymentRules(req: PaymentRequest, m: string, total: Option<int>, clock: Clock)
    requires m in PaymentMethods
    ensures var p := NewPayment(req, m, total, clock);
      && p.orderId == req.orderId && p.amount == total && p.paymentMethod == Some(m) && p.gateway == req.gateway
      && !IsSettled(p)
      && (m == "COD" ==> p.status == Some(AwaitingCash) && p.paidAt.None? && p.txnId.None?)
      && (m != "COD" ==> p.status == Some(Unpaid) && p.paidAt == Some(clock.now)
                         && p.txnId == Some("GD" + Stamp(clock) + IntText(req.orderId)))
  {
    assert AwaitingCashText != SettledText by {
      assert AwaitingCashText[0] != SettledText[0];
    }
    assert UnpaidText != SettledText by {
      assert UnpaidText[1] != SettledText[1];
    }
  }

  /** The state after an accepted request: one new payment row. */
  function PaymentCreated(db: Tables, req: PaymentRequest, clock: Clock): Tables
    requires req.orderId in db.orders && req.paymentMethod.Some?
  {
    db.(payments := db.payments[FreshId(db.payments.Keys) :=
          NewPayment(req, req.paymentMethod.value, db.orders[req.orderId].total, clock)])
  }

  /** `TaoThanhToan`: records a payment for the caller's order unless the request is refused; a refusal writes nothing. */
  method CreatePayment(ctx: ShopContext, accountId: int, req: PaymentRequest, clock: Clock)
    returns (reply: Reply, paymentId: Option<int>)
    modifies ctx
    ensures CreateRejection(old(ctx.db), accountId, req).Some? ==>
      reply == CreateRejection(old(ctx.db), accountId, req).value && paymentId.None? && ctx.db == old(ctx.db)
    ensures CreateRejection(old(ctx.db), accountId, req).None? ==>
      && reply == OkReply
      && paymentId == Some(FreshId(old(ctx.db).payments.Keys))
      && ctx.db == PaymentCreated(old(ctx.db), req, clock)
  {
    var db := ctx.db;
    if accountId !in db.accounts {
      return UnauthorizedReply, None;
    }
    if !OwnsOrder(db, req.orderId, accountId) {
      return BadRequest(404), None;
    }
    if !(req.paymentMethod.Some? && req.paymentMethod.value in PaymentMethods) {
      return BadRequest(400), None;
    }
    if SettledPaymentsOf(db.payments, req.orderId) != {} {
      return BadRequest(400), None;
    }
    var id := FreshId(db.payments.Keys);
    var row := NewPayment(req, req.paymentMethod.value, db.orders[req.orderId].total, clock);
    ctx.SaveChanges(db.(payments := db.payments[id := row]));
    return OkReply, Some(id);
  }

  // ---------------------------------------------------------------------------
  // Confirming a payment
  // ---------------------------------------------------------------------------

  /** The answer to a confirmation that is refused, if it is refused. */
  function ConfirmRejection(db: Tables, id: int, accountId: int): (r: Option<Reply>)
    ensures r.None? <==>
      id in db.payments && OwnsOrder(db, db.payments[id].orderId, accountId) && !IsSettled(db.payments[id])
    ensures r.Some? ==> r.value in {BadRequest(404), UnauthorizedReply, BadRequest(400)}
  {
    if id !in db.payments then Some(BadRequest(404))
    else if !OwnsOrder(db, db.payments[id].orderId, accountId) then Some(UnauthorizedReply)
    else if IsSettled(db.payments[id]) then Some(BadRequest(400))
    else None
  }

  /** The order status a confirmed payment leaves: paid when it was pending or confirmed, unchanged otherwise. */
  function StatusAfterPayment(s: Option<OrderStatus>): Option<OrderStatus>
  {
    if OrderStatusIs(s, PendingText) || OrderStatusIs(s, ConfirmedText) then Some(Paid) else s
  }

  /** The state after payment `id` was confirmed: settled and dated now, and its order's status moved on. */
  function PaymentConfirmed(db: Tables, id: int, clock: Clock): Tables
    requires id in db.payments && db.payments[id].orderId in db.orders
  {
    var orderId := db.payments[id].orderId;
    db.(payments := db.payments[id := db.payments[id].(status := Some(Settled), paidAt := Some(clock.now))],
        orders := db.orders[orderId := db.orders[orderId].(status := StatusAfterPayment(db.orders[orderId].status))])
  }

  /** `XacNhanThanhToan`: settles an unsettled payment of the caller's order; a refusal writes nothing. */
  method ConfirmPayment(ctx: ShopContext, id: int, accountId: int, clock: Clock) returns (reply: Reply)
    modifies ctx
    ensures ConfirmRejection(old(ctx.db), id, accountId).Some? ==>
      reply == ConfirmRejection(old(ctx.db), id, accountId).value && ctx.db == old(ctx.db)
    ensures ConfirmRejection(old(ctx.db), id, accountId).None? ==>
      reply == OkReply && ctx.db == PaymentConfirmed(old(ctx.db), id, clock)
  {
    var db := ctx.db;
    if id !in db.payments {
      return BadRequest(404);
    }
    var payment := db.payments[id];
    if !OwnsOrder(db, payment.orderId, accountId) {
      return UnauthorizedReply;
    }
    if IsSettled(payment) {
      return BadRequest(400);
    }
    payment := payment.(status := Some(Settled), paidAt := Some(clock.now));
    var order := db.orders[payment.orderId];
    if OrderStatusIs(order.status, PendingText) || OrderStatusIs(order.status, ConfirmedText) {
      order := order.(status := Some(Paid));
    }
    ctx.SaveChanges(db.(payments := db.payments[id := payment], orders := db.orders[payment.orderId := order]));
    return OkReply;
  }

  /**
   * A confirmation changes only the payment and its order: the order becomes paid
   * exactly when it was pending or confirmed, and keeps its status otherwise.
   */
  lemma ConfirmationEffects(db: Tables, id: int, clock: Clock)
    requires id in db.payments && db.payments[id].orderId in db.orders
    ensures var r := PaymentConfirmed(db, id, clock);
      var orderId := db.payments[id].orderId;
      && IsSettled(r.payments[id]) && r.payments[id].paidAt == Some(clock.now)
      && r.payments.Keys == db.payments.Keys && r.orders.Keys == db.orders.Keys
      && (forall k :: k in db.payments && k != id ==> r.payments[k] == db.payments[k])
      && (forall k :: k in db.orders && k != orderId ==> r.orders[k] == db.orders[k])
      && (OrderStatusIs(r.orders[orderId].status, PaidText) <==>
            OrderStatusIs(db.orders[orderId].status, PendingText)
            || OrderStatusIs(db.orders[orderId].status, ConfirmedText)
            || OrderStatusIs(db.orders[orderId].status, PaidText))
      && (!OrderStatusIs(db.orders[orderId].status, PendingText) && !OrderStatusIs(db.orders[orderId].status, ConfirmedText) ==>
            r.orders[orderId] == db.orders[orderId])
  {
  }

  /** A payment can be confirmed at most once: once confirmed, confirming it again is refused. */
  lemma ConfirmAtMostOnce(db: Tables, id: int, accountId: int, clock: Clock)
    requires ConfirmRejection(db, id, accountId).None?
    ensures ConfirmRejection(PaymentConfirmed(db, id, clock), id, accountId) == Some(BadRequest(400))
  {
  }

  /** Once a payment of an order is confirmed, no further payment can be created for that order. */
  lemma SettledOrderTakesNoPayment(db: Tables, id: int, accountId: int, clock: Clock, req: PaymentRequest)
    requires ConfirmRejection(db, id, accountId).None?
    requires req.orderId == db.payments[id].orderId
    ensures CreateRejection(PaymentConfirmed(db, id, clock), accountId, req).Some?
  {
    assert id in SettledPaymentsOf(PaymentConfirmed(db, id, clock).payments, req.orderId);
  }
}
