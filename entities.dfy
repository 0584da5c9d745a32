// The shop's database: one record type per table, the order and payment statuses
// the controllers write, and the context object whose SaveChanges commits staged rows.
module Entities {
  import opened Common

  /** Seconds since an arbitrary epoch; `DateTime.Now` becomes a value of this kind. */
  type Instant = int

  const SecondsPerMinute := 60

  /**
   * A reading of the clock: the instant `DateTime.Now` returns, and the rendering
   * of instants as `yyyyMMddHHmmss` text (date formatting is not modelled).
   */
  datatype Clock = Clock(now: Instant, render: Instant -> string)

  /** `DateTime.Now.ToString("yyyyMMddHHmmss")`. */
  function Stamp(c: Clock): string
  {
    c.render(c.now)
  }

  // ---------------------------------------------------------------------------
  // Statuses
  // ---------------------------------------------------------------------------

  /** `DonHang.TrangThai`: the statuses the code names, and any other text an administrator stores. */
  datatype OrderStatus = Pending | Confirmed | Paid | Delivered | Completed | OtherOrderStatus(text: string)

  const PendingText := "Chờ xử lý"
  const ConfirmedText := "Đã xác nhận"
  const PaidText := "Đã thanh toán"
  const DeliveredText := "Đã giao"
  const CompletedText := "Đã hoàn thành"

  function OrderStatusText(s: OrderStatus): string
  {
    match s
    case Pending => PendingText
    case Confirmed => ConfirmedText
    case Paid => PaidText
    case Delivered => DeliveredText
    case Completed => CompletedText
    case OtherOrderStatus(t) => t
  }

  /** Reads a stored status text; the named statuses are recognised, anything else is kept verbatim. */
  function ParseOrderStatus(t: string): (s: OrderStatus)
    ensures OrderStatusText(s) == t
    ensures s.OtherOrderStatus? <==> t !in {PendingText, ConfirmedText, PaidText, DeliveredText, CompletedText}
  {
    if t == PendingText then Pending
    else if t == ConfirmedText then Confirmed
    else if t == PaidText then Paid
    else if t == DeliveredText then Delivered
    else if t == CompletedText then Completed
    else OtherOrderStatus(t)
  }

  /** A status value is canonical when `OtherOrderStatus` never spells a named status. */
  predicate CanonicalOrderStatus(s: OrderStatus)
  {
    s.OtherOrderStatus? ==> s.text !in {PendingText, ConfirmedText, PaidText, DeliveredText, CompletedText}
  }

  lemma OrderStatusRoundTrip(s: OrderStatus)
    requires CanonicalOrderStatus(s)
    ensures ParseOrderStatus(OrderStatusText(s)) == s
  {
  }

  /** The status text of a possibly-null stored status equals `t` (C# string equality; null equals nothing). */
  predicate OrderStatusIs(s: Option<OrderStatus>, t: string)
  {
    s.Some? && OrderStatusText(s.value) == t
  }

  /** `ThanhToan.TrangThai`. */
  datatype PaymentStatus = Unpaid | AwaitingCash | Settled | OtherPaymentStatus(text: string)

  const UnpaidText := "Chưa thanh toán"
  const AwaitingCashText := "Chờ thanh toán"
  const SettledText := "Đã thanh toán"

  function PaymentStatusText(s: PaymentStatus): string
  {
    match s
    case Unpaid => UnpaidText
    case AwaitingCash => AwaitingCashText
    case Settled => SettledText
    case OtherPaymentStatus(t) => t
  }

  predicate PaymentStatusIs(s: Option<PaymentStatus>, t: string)
  {
    s.Some? && PaymentStatusText(s.value) == t
  }

  // ---------------------------------------------------------------------------
  // Rows
  // ---------------------------------------------------------------------------

  /** `LoaiTaiKhoan`. */
  datatype AccountType = AccountType(name: string)

  /** `TaiKhoan`; `otp` is the one-time code column `Code`. */
  datatype Account = Account(
    name: Option<string>,
    email: string,
    passwordHash: string,
    phone: Option<string>,
    address: Option<string>,
    avatar: Option<string>,
    createdAt: Option<Instant>,
    active: Option<bool>,
    typeId: Option<int>,
    categoryId: Option<int>,
    otp: Option<string>)

  /** `DanhMuc`. */
  datatype Category = Category(name: string)

  /** `SanPham`; `price` is `Gia` in whole dong, `stock` is `SoLuong`. */
  datatype Product = Product(
    name: string,
    description: Option<string>,
    price: int,
    stock: int,
    categoryId: Option<int>,
    addedAt: Option<Instant>,
    active: Option<bool>,
    brand: Option<string>,
    promotion: Option<int>)

  /** `SanPhamHinhAnh`. */
  datatype ProductImage = ProductImage(productId: int, path: Option<string>)

  /** `ThongSo`. */
  datatype TechSpec = TechSpec(productId: int, cpu: Option<string>, vga: Option<string>, ram: Option<string>, rom: Option<string>)

  /** `GioHang`. */
  datatype Cart = Cart(accountId: int, updatedAt: Option<Instant>)

  /** `ChiTietGioHang`. */
  datatype CartLine = CartLine(cartId: int, productId: int, qty: int)

  /** `DonHang`. */
  datatype Order = Order(
    accountId: int,
    placedAt: Option<Instant>,
    total: Option<int>,
    status: Option<OrderStatus>,
    recipient: Option<string>,
    address: Option<string>,
    phone: Option<string>)

  /** `ChiTietDonHang`; `unitPrice` is the price captured when the line was written. */
  datatype OrderLine = OrderLine(orderId: int, productId: int, qty: int, unitPrice: Option<int>)

  /** `ThanhToan`. */
  datatype Payment = Payment(
    orderId: int,
    paymentMethod: Option<string>,
    amount: Option<int>,
    status: Option<PaymentStatus>,
    paidAt: Option<Instant>,
    txnId: Option<string>,
    gateway: Option<string>)

  /** `DanhGium`. */
  datatype Review = Review(productId: int, accountId: int, content: Option<string>, score: Option<int>, reviewedAt: Option<Instant>)

  /** `TinNhan`. */
  datatype Message = Message(senderId: int, recipientId: int, content: Option<string>, sentAt: Option<Instant>)

  /** The committed contents of every table, keyed by primary key. */
  datatype Tables = Tables(
    accountTypes: map<int, AccountType>,
    accounts: map<int, Account>,
    categories: map<int, Category>,
    products: map<int, Product>,
    images: map<int, ProductImage>,
    specs: map<int, TechSpec>,
    carts: map<int, Cart>,
    cartLines: map<int, CartLine>,
    orders: map<int, Order>,
    orderLines: map<int, OrderLine>,
    payments: map<int, Payment>,
    reviews: map<int, Review>,
    messages: map<int, Message>)

  /** A product can be sold: it is marked active (`TrangThai == true`). */
  predicate Active(p: Product)
  {
    p.active == Some(true)
  }

  // The sort keys of the list endpoints: a row's date (or name) by id, none for an unknown id.

  function AddedAt(products: map<int, Product>): int -> Option<Instant>
  {
    k => if k in products then products[k].addedAt else None
  }

  function CreatedAt(accounts: map<int, Account>): int -> Option<Instant>
  {
    k => if k in accounts then accounts[k].createdAt else None
  }

  function PlacedAt(orders: map<int, Order>): int -> Option<Instant>
  {
    k => if k in orders then orders[k].placedAt else None
  }

  function ReviewedAt(reviews: map<int, Review>): int -> Option<Instant>
  {
    k => if k in reviews then reviews[k].reviewedAt else None
  }

  function SentAt(messages: map<int, Message>): int -> Option<Instant>
  {
    k => if k in messages then messages[k].sentAt else None
  }

  function CategoryName(categories: map<int, Category>): int -> string
  {
    k => if k in categories then categories[k].name else ""
  }

  /** The ids of the cart lines belonging to cart `cartId`. */
  function LinesOfCart(lines: map<int, CartLine>, cartId: int): (ids: set<int>)
    ensures forall k :: k in ids <==> k in lines && lines[k].cartId == cartId
  {
    set k | k in lines && lines[k].cartId == cartId
  }

  /** The ids of the order lines belonging to order `orderId`. */
  function LinesOfOrder(lines: map<int, OrderLine>, orderId: int): (ids: set<int>)
    ensures forall k :: k in ids <==> k in lines && lines[k].orderId == orderId
  {
    set k | k in lines && lines[k].orderId == orderId
  }

  /** The ids of the payments recorded for order `orderId`. */
  function PaymentsOfOrder(payments: map<int, Payment>, orderId: int): (ids: set<int>)
    ensures forall k :: k in ids <==> k in payments && payments[k].orderId == orderId
  {
    set k | k in payments && payments[k].orderId == orderId
  }

  /** The ids of the images of product `productId`. */
  function ImagesOf(images: map<int, ProductImage>, productId: int): (ids: set<int>)
    ensures forall k :: k in ids <==> k in images && images[k].productId == productId
  {
    set k | k in images && images[k].productId == productId
  }

  /** The ids of the spec rows of product `productId`. */
  function SpecsOf(specs: map<int, TechSpec>, productId: int): (ids: set<int>)
    ensures forall k :: k in ids <==> k in specs && specs[k].productId == productId
  {
    set k | k in specs && specs[k].productId == productId
  }

  /**
   * The EF Core `DbContext` of one request. A handler stages changes on a copy of
   * `db`; `SaveChanges` commits them; returning without it discards them.
   */
  class ShopContext {
    var db: Tables

    constructor (initial: Tables)
      ensures db == initial
    {
      db := initial;
    }

    method SaveChanges(staged: Tables)
      modifies this
      ensures db == staged
    {
      db := staged;
    }
  }
}
