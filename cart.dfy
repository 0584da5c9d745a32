// The shopping cart: adding a product (creating the account's cart on first use),
// removing a line, changing a line's quantity, and the cart page with its total.
module Carts {
  import opened Common
  import opened Entities
  import opened Stock

  // ---------------------------------------------------------------------------
  // Finding the cart and its lines
  // ---------------------------------------------------------------------------

  /** The ids of the carts of an account. */
  function CartsOf(carts: map<int, Cart>, accountId: int): (ids: set<int>)
    ensures forall k :: k in ids <==> k in carts && carts[k].accountId == accountId
  {
    set k | k in carts && carts[k].accountId == accountId
  }

  /** The account's cart as `FirstOrDefault` finds it: its cart with the least id, if any. */
  function AccountCart(carts: map<int, Cart>, accountId: int): (r: Option<int>)
    ensures r.None? <==> CartsOf(carts, accountId) == {}
    ensures r.Some? ==> r.value in carts && carts[r.value].accountId == accountId
    ensures r.Some? ==> forall k :: k in CartsOf(carts, accountId) ==> r.value <= k
  {
    var owned := CartsOf(carts, accountId);
    if owned == {} then None else Some(MinOf(owned))
  }

  /** The given cart lines as items, in the same order. */
  function CartItems(cartLines: map<int, CartLine>, ids: seq<int>): (r: seq<Item>)
    requires forall i :: 0 <= i < |ids| ==> ids[i] in cartLines
    ensures |r| == |ids|
    ensures forall i :: 0 <= i < |ids| ==> r[i] == Item(cartLines[ids[i]].productId, cartLines[ids[i]].qty)
  {
    if ids == [] then [] else [Item(cartLines[ids[0]].productId, cartLines[ids[0]].qty)] + CartItems(cartLines, ids[1..])
  }

  /** The lines of cart `cartId`, in id order, as items. */
  function CartContents(db: Tables, cartId: int): seq<Item>
  {
    CartItems(db.cartLines, SortedIds(LinesOfCart(db.cartLines, cartId)))
  }

  /** `Sum(ct => (ct.SanPham?.Gia ?? 0) * ct.SoLuong)` over the lines of one cart. */
  function CartTotal(db: Tables, cartId: int): int
  {
    ItemsTotal(db.products, CartContents(db, cartId))
  }

  /** The ids of the lines of cart `cartId` holding product `productId`. */
  function LinesFor(cartLines: map<int, CartLine>, cartId: int, productId: int): (ids: set<int>)
    ensures forall k :: k in ids <==> k in cartLines && cartLines[k].cartId == cartId && cartLines[k].productId == productId
  {
    set k | k in cartLines && cartLines[k].cartId == cartId && cartLines[k].productId == productId
  }

  /** The line of the cart holding the product, as `FirstOrDefault` finds it. */
  function LineFor(cartLines: map<int, CartLine>, cartId: int, productId: int): (r: Option<int>)
    ensures r.None? <==> LinesFor(cartLines, cartId, productId) == {}
    ensures r.Some? ==> r.value in cartLines && cartLines[r.value].cartId == cartId && cartLines[r.value].productId == productId
  {
    var ids := LinesFor(cartLines, cartId, productId);
    if ids == {} then None else Some(MinOf(ids))
  }

  /** The quantity of the product the cart holds: its line's quantity, or zero without a line. */
  function CartQty(cartLines: map<int, CartLine>, cartId: int, productId: int): int
  {
    var l := LineFor(cartLines, cartId, productId);
    if l.Some? then cartLines[l.value].qty else 0
  }

  /** No cart has two lines for the same product. */
  predicate OneLinePerProduct(cartLines: map<int, CartLine>)
  {
    forall a, b :: a in cartLines && b in cartLines && a != b ==>
      cartLines[a].cartId != cartLines[b].cartId || cartLines[a].productId != cartLines[b].productId
  }

  /** No account has two carts. */
  predicate OneCartPerAccount(carts: map<int, Cart>)
  {
    forall a, b :: a in carts && b in carts && a != b ==> carts[a].accountId != carts[b].accountId
  }

  /** The invariant the cart handlers keep. */
  predicate CartsWellFormed(db: Tables)
  {
    OneLinePerProduct(db.cartLines) && OneCartPerAccount(db.carts)
  }

  /** With one line per product, the line holding a product is the only one. */
  lemma OnlyLine(cartLines: map<int, CartLine>, cartId: int, productId: int)
    requires OneLinePerProduct(cartLines)
    requires LineFor(cartLines, cartId, productId).Some?
    ensures LinesFor(cartLines, cartId, productId) == {LineFor(cartLines, cartId, productId).value}
  {
  }

  // ---------------------------------------------------------------------------
  // Adding a product
  // ---------------------------------------------------------------------------

  /** The answer to an add refused before the cart is looked up, if it is refused. */
  function AddRejection(db: Tables, accountId: int, productId: int, qty: int): (r: Option<Reply>)
    ensures r.None? <==>
      qty > 0 && accountId in db.accounts && productId in db.products && db.products[productId].stock >= qty
    ensures r.Some? ==> r.value in {BadRequest(400), UnauthorizedReply, BadRequest(404)}
  {
    if qty <= 0 then Some(BadRequest(400))
    else if accountId !in db.accounts then Some(UnauthorizedReply)
    else if productId !in db.products then Some(BadRequest(404))
    else if db.products[productId].stock < qty then Some(BadRequest(400))
    else None
  }

  /** The id of the cart an add goes to: the account's cart, or the id a new one gets. */
  function CartIdFor(db: Tables, accountId: int): int
  {
    var c := AccountCart(db.carts, accountId);
    if c.Some? then c.value else FreshId(db.carts.Keys)
  }

  /** The state after the cart lookup: unchanged when the account has a cart, otherwise with a new, saved cart. */
  function EnsureCart(db: Tables, accountId: int, clock: Clock): (r: Tables)
    ensures r.cartLines == db.cartLines && r.products == db.products && r.accounts == db.accounts
    ensures AccountCart(r.carts, accountId) == Some(CartIdFor(db, accountId))
    ensures AccountCart(db.carts, accountId).Some? ==> r == db
    ensures AccountCart(db.carts, accountId).None? ==>
      CartIdFor(db, accountId) !in db.carts && r.carts == db.carts[CartIdFor(db, accountId) := Cart(accountId, Some(clock.now))]
  {
    if AccountCart(db.carts, accountId).Some? then db
    else
      var id := FreshId(db.carts.Keys);
      var r := db.(carts := db.carts[id := Cart(accountId, Some(clock.now))]);
      assert CartsOf(r.carts, accountId) == {id};
      r
  }

  /** The merged quantity of a product already in the cart would exceed its stock. */
  predicate MergeRefused(db: Tables, cartId: int, productId: int, qty: int)
    requires productId in db.products
  {
    LineFor(db.cartLines, cartId, productId).Some? && CartQty(db.cartLines, cartId, productId) + qty > db.products[productId].stock
  }

  /** `NgayCapNhat = DateTime.Now` on the cart. */
  function Touch(carts: map<int, Cart>, cartId: int, clock: Clock): map<int, Cart>
    requires cartId in carts
  {
    carts[cartId := carts[cartId].(updatedAt := Some(clock.now))]
  }

  /** The state after an accepted add: the product's line grown by `qty`, or a new line, and the cart touched. */
  function AddedToCart(db: Tables, cartId: int, productId: int, qty: int, clock: Clock): Tables
    requires cartId in db.carts
  {
    var l := LineFor(db.cartLines, cartId, productId);
    var lines := if l.Some? then db.cartLines[l.value := db.cartLines[l.value].(qty := db.cartLines[l.value].qty + qty)]
                 else db.cartLines[FreshId(db.cartLines.Keys) := CartLine(cartId, productId, qty)];
    db.(cartLines := lines, carts := Touch(db.carts, cartId, clock))
  }

  /**
   * An accepted add leaves exactly one line for the product in the cart, holding the
   * quantity the cart had plus `qty`; every other line is unchanged, and no cart ends
   * up with two lines for one product.
   */
  lemma AddedToCartEffects(db: Tables, cartId: int, productId: int, qty: int, clock: Clock)
    requires cartId in db.carts && OneLinePerProduct(db.cartLines)
    ensures var r := AddedToCart(db, cartId, productId, qty, clock);
      && LineFor(r.cartLines, cartId, productId).Some?
      && LinesFor(r.cartLines, cartId, productId) == {LineFor(r.cartLines, cartId, productId).value}
      && CartQty(r.cartLines, cartId, productId) == CartQty(db.cartLines, cartId, productId) + qty
      && (forall k :: k in db.cartLines ==> k in r.cartLines)
      && (forall k :: k in r.cartLines && k != LineFor(r.cartLines, cartId, productId).value ==>
            k in db.cartLines && r.cartLines[k] == db.cartLines[k])
      && OneLinePerProduct(r.cartLines)
  {
    var r := AddedToCart(db, cartId, productId, qty, clock);
    var l := LineFor(db.cartLines, cartId, productId);
    var target := if l.Some? then l.value else FreshId(db.cartLines.Keys);
    if l.Some? {
      OnlyLine(db.cartLines, cartId, productId);
    } else {
      assert target !in db.cartLines;
    }
    assert LinesFor(r.cartLines, cartId, productId) == {target};
  }

  /**
   * `ThemSanPhamVaoGioHang`: refuses a non-positive quantity (400), an unknown account
   * (401), an unknown product (404) and a quantity above the stock (400) without any
   * write. It then saves a new cart if the account has none; that cart stays even when
   * the merged quantity of a product already in the cart then exceeds the stock (400).
   * Otherwise the line is grown or added and the cart's date refreshed.
   */
  method AddToCart(ctx: ShopContext, accountId: int, productId: int, qty: int, clock: Clock) returns (reply: Reply)
    modifies ctx
    ensures AddRejection(old(ctx.db), accountId, productId, qty).Some? ==>
      reply == AddRejection(old(ctx.db), accountId, productId, qty).value && ctx.db == old(ctx.db)
    ensures AddRejection(old(ctx.db), accountId, productId, qty).None? ==>
      var db := EnsureCart(old(ctx.db), accountId, clock);
      var cartId := CartIdFor(old(ctx.db), accountId);
      && (MergeRefused(db, cartId, productId, qty) ==> reply == BadRequest(400) && ctx.db == db)
      && (!MergeRefused(db, cartId, productId, qty) ==> reply == OkReply && ctx.db == AddedToCart(db, cartId, productId, qty, clock))
  {
    var db := ctx.db;
    if qty <= 0 {
      return BadRequest(400);
    }
    if accountId !in db.accounts {
      return UnauthorizedReply;
    }
    if productId !in db.products {
      return BadRequest(404);
    }
    var product := db.products[productId];
    if product.stock < qty {
      return BadRequest(400);
    }
    var cart := AccountCart(db.carts, accountId);
    var cartId: int;
    if cart.None? {
      cartId := FreshId(db.carts.Keys);
      db := db.(carts := db.carts[cartId := Cart(accountId, Some(clock.now))]);
      ctx.SaveChanges(db);
    } else {
      cartId := cart.value;
    }
    assert db == EnsureCart(old(ctx.db), accountId, clock);
    var line := LineFor(db.cartLines, cartId, productId);
    var lines: map<int, CartLine>;
    if line.Some? {
      var merged := db.cartLines[line.value].(qty := db.cartLines[line.value].qty + qty);
      if merged.qty > product.stock {
        return BadRequest(400);
      }
      lines := db.cartLines[line.value := merged];
    } else {
      lines := db.cartLines[FreshId(db.cartLines.Keys) := CartLine(cartId, productId, qty)];
    }
    ctx.SaveChanges(db.(cartLines := lines, carts := Touch(db.carts, cartId, clock)));
    return OkReply;
  }

  /** After an accepted add, the cart holds the product within its stock. */
  lemma AddedWithinStock(db: Tables, accountId: int, productId: int, qty: int, clock: Clock)
    requires OneLinePerProduct(db.cartLines)
    requires AddRejection(db, accountId, productId, qty).None?
    requires !MergeRefused(EnsureCart(db, accountId, clock), CartIdFor(db, accountId), productId, qty)
    ensures var r := AddedToCart(EnsureCart(db, accountId, clock), CartIdFor(db, accountId), productId, qty, clock);
      CartQty(r.cartLines, CartIdFor(db, accountId), productId) <= db.products[productId].stock
  {
    var e := EnsureCart(db, accountId, clock);
    var cartId := CartIdFor(db, accountId);
    AddedToCartEffects(e, cartId, productId, qty, clock);
    if LineFor(e.cartLines, cartId, productId).None? {
      assert CartQty(e.cartLines, cartId, productId) == 0;
    }
  }

  // ---------------------------------------------------------------------------
  // Removing a line and changing its quantity
  // ---------------------------------------------------------------------------

  /** Line `lineId` exists and belongs to a cart of the account. */
  predicate OwnsLine(db: Tables, lineId: int, accountId: int)
  {
    lineId in db.cartLines && db.cartLines[lineId].cartId in db.carts
    && db.carts[db.cartLines[lineId].cartId].accountId == accountId
  }

  /** The state after line `lineId` was removed and its cart touched. */
  function RemovedFromCart(db: Tables, lineId: int, clock: Clock): Tables
    requires lineId in db.cartLines && db.cartLines[lineId].cartId in db.carts
  {
    db.(cartLines := db.cartLines - {lineId}, carts := Touch(db.carts, db.cartLines[lineId].cartId, clock))
  }

  /** `XoaSanPhamKhoiGioHang`: removes a line of the caller's cart; any other line id is answered 404 and nothing changes. */
  method RemoveFromCart(ctx: ShopContext, lineId: int, accountId: int, clock: Clock) returns (reply: Reply)
    modifies ctx
    ensures !OwnsLine(old(ctx.db), lineId, accountId) ==> reply == BadRequest(404) && ctx.db == old(ctx.db)
    ensures OwnsLine(old(ctx.db), lineId, accountId) ==> reply == OkReply && ctx.db == RemovedFromCart(old(ctx.db), lineId, clock)
  {
    var db := ctx.db;
    if !OwnsLine(db, lineId, accountId) {
      return BadRequest(404);
    }
    var cartId := db.cartLines[lineId].cartId;
    ctx.SaveChanges(db.(cartLines := db.cartLines - {lineId}, carts := Touch(db.carts, cartId, clock)));
    return OkReply;
  }

  /** The answer to a quantity change that is refused, if it is refused. */
  function UpdateRejection(db: Tables, lineId: int, qty: int, accountId: int): (r: Option<Reply>)
    ensures r.None? <==>
      qty > 0 && OwnsLine(db, lineId, accountId)
      && db.cartLines[lineId].productId in db.products && db.products[db.cartLines[lineId].productId].stock >= qty
    ensures r.Some? ==> r.value in {BadRequest(400), BadRequest(404)}
  {
    if qty <= 0 then Some(BadRequest(400))
    else if !OwnsLine(db, lineId, accountId) then Some(BadRequest(404))
    else if db.cartLines[lineId].productId !in db.products then Some(BadRequest(404))
    else if db.products[db.cartLines[lineId].productId].stock < qty then Some(BadRequest(400))
    else None
  }

  /** The state after line `lineId` was given quantity `qty` and its cart touched. */
  function QuantitySet(db: Tables, lineId: int, qty: int, clock: Clock): Tables
    requires lineId in db.cartLines && db.cartLines[lineId].cartId in db.carts
  {
    db.(cartLines := db.cartLines[lineId := db.cartLines[lineId].(qty := qty)],
        carts := Touch(db.carts, db.cartLines[lineId].cartId, clock))
  }

  /**
   * `CapNhatSoLuong`: replaces the quantity of a line of the caller's cart by one
   * between 1 and the product's stock, and answers with the cart's new total; a
   * refused change writes nothing.
   */
  method UpdateQuantity(ctx: ShopContext, lineId: int, qty: int, accountId: int, clock: Clock)
    returns (reply: Reply, total: Option<int>)
    modifies ctx
    ensures UpdateRejection(old(ctx.db), lineId, qty, accountId).Some? ==>
      reply == UpdateRejection(old(ctx.db), lineId, qty, accountId).value && total.None? && ctx.db == old(ctx.db)
    ensures UpdateRejection(old(ctx.db), lineId, qty, accountId).None? ==>
      && reply == OkReply
      && ctx.db == QuantitySet(old(ctx.db), lineId, qty, clock)
      && total == Some(CartTotal(ctx.db, old(ctx.db).cartLines[lineId].cartId))
  {
    var db := ctx.db;
    if qty <= 0 {
      return BadRequest(400), None;
    }
    if !OwnsLine(db, lineId, accountId) {
      return BadRequest(404), None;
    }
    var line := db.cartLines[lineId];
    if line.productId !in db.products {
      return BadRequest(404), None;
    }
    if db.products[line.productId].stock < qty {
      return BadRequest(400), None;
    }
    ctx.SaveChanges(db.(cartLines := db.cartLines[lineId := line.(qty := qty)], carts := Touch(db.carts, line.cartId, clock)));
    return OkReply, Some(CartTotal(ctx.db, line.cartId));
  }

  /** Creating the account's cart on first use keeps one cart per account. */
  lemma EnsureCartKeepsWellFormed(db: Tables, accountId: int, clock: Clock)
    requires CartsWellFormed(db)
    ensures CartsWellFormed(EnsureCart(db, accountId, clock))
  {
    var e := EnsureCart(db, accountId, clock);
    if AccountCart(db.carts, accountId).None? {
      var id := CartIdFor(db, accountId);
      forall a, b | a in e.carts && b in e.carts && a != b
        ensures e.carts[a].accountId != e.carts[b].accountId
      {
        if a == id {
          assert b in CartsOf(db.carts, e.carts[b].accountId);
        } else if b == id {
          assert a in CartsOf(db.carts, e.carts[a].accountId);
        }
      }
    }
  }

  /** An accepted add keeps the carts well formed. */
  lemma AddKeepsWellFormed(db: Tables, accountId: int, productId: int, qty: int, clock: Clock)
    requires CartsWellFormed(db)
    ensures CartsWellFormed(AddedToCart(EnsureCart(db, accountId, clock), CartIdFor(db, accountId), productId, qty, clock))
  {
    EnsureCartKeepsWellFormed(db, accountId, clock);
    AddedToCartEffects(EnsureCart(db, accountId, clock), CartIdFor(db, accountId), productId, qty, clock);
  }

  /** Removing a line or changing its quantity keeps the carts well formed. */
  lemma RemoveAndSetKeepWellFormed(db: Tables, lineId: int, qty: int, clock: Clock)
    requires CartsWellFormed(db)
    requires lineId in db.cartLines && db.cartLines[lineId].cartId in db.carts
    ensures CartsWellFormed(RemovedFromCart(db, lineId, clock))
    ensures CartsWellFormed(QuantitySet(db, lineId, qty, clock))
  {
  }

  // ---------------------------------------------------------------------------
  // The cart page and the cart total
  // ---------------------------------------------------------------------------

  /** One line of the cart page (`GioHangItemDTO`); a line whose product is gone shows an empty name, price 0 and stock 0. */
  datatype CartItemView = CartItemView(
    lineId: int,
    productId: int,
    name: string,
    price: int,
    qty: int,
    image: Option<string>,
    stock: int)

  /** The cart page (`GioHangResponseDTO`). */
  datatype CartView = CartView(cartId: int, items: seq<CartItemView>, total: int)

  /** The path of a product's first image, if it has one. */
  function FirstImage(images: map<int, ProductImage>, productId: int): Option<string>
  {
    var ids := ImagesOf(images, productId);
    if ids == {} then None else images[MinOf(ids)].path
  }

  function LineView(db: Tables, lineId: int): CartItemView
    requires lineId in db.cartLines
  {
    var line := db.cartLines[lineId];
    if line.productId in db.products then
      var p := db.products[line.productId];
      CartItemView(lineId, line.productId, p.name, p.price, line.qty, FirstImage(db.images, line.productId), p.stock)
    else
      CartItemView(lineId, line.productId, "", 0, line.qty, None, 0)
  }

  function LineViews(db: Tables, ids: seq<int>): (r: seq<CartItemView>)
    requires forall i :: 0 <= i < |ids| ==> ids[i] in db.cartLines
    ensures |r| == |ids|
    ensures forall i :: 0 <= i < |ids| ==> r[i] == LineView(db, ids[i]) && r[i].lineId == ids[i]
  {
    if ids == [] then [] else [LineView(db, ids[0])] + LineViews(db, ids[1..])
  }

  /** The sum of price times quantity over the lines shown. */
  function ViewTotal(items: seq<CartItemView>): int
  {
    if items == [] then 0 else ViewTotal(AllButLast(items)) + Last(items).price * Last(items).qty
  }

  /** Summing the lines shown gives the value of the same lines as items. */
  lemma {:induction false} ViewTotalOfLines(db: Tables, ids: seq<int>)
    requires forall i :: 0 <= i < |ids| ==> ids[i] in db.cartLines
    ensures ViewTotal(LineViews(db, ids)) == ItemsTotal(db.products, CartItems(db.cartLines, ids))
  {
    if ids != [] {
      var front := AllButLast(ids);
      ViewTotalOfLines(db, front);
      assert AllButLast(LineViews(db, ids)) == LineViews(db, front);
      assert AllButLast(CartItems(db.cartLines, ids)) == CartItems(db.cartLines, front);
    }
  }

  /**
   * `XemGioHang`: the account's cart with its lines in id order and the total; an
   * account without a cart sees cart id 0, no lines and total 0. The total is the sum
   * of price times quantity of the lines shown.
   */
  function ViewCart(db: Tables, accountId: int): (r: CartView)
    ensures AccountCart(db.carts, accountId).None? ==> r == CartView(0, [], 0)
    ensures AccountCart(db.carts, accountId).Some? ==>
      && r.cartId == AccountCart(db.carts, accountId).value
      && |r.items| == |LinesOfCart(db.cartLines, r.cartId)|
      && (forall i :: 0 <= i < |r.items| ==> r.items[i].lineId in LinesOfCart(db.cartLines, r.cartId))
      && (forall k :: k in LinesOfCart(db.cartLines, r.cartId) ==> exists i :: 0 <= i < |r.items| && r.items[i].lineId == k)
      && (forall i, j :: 0 <= i < j < |r.items| ==> r.items[i].lineId < r.items[j].lineId)
      && r.items == LineViews(db, SortedIds(LinesOfCart(db.cartLines, r.cartId)))
      && r.total == ViewTotal(r.items)
      && r.total == CartTotal(db, r.cartId)
  {
    var cart := AccountCart(db.carts, accountId);
    if cart.None? then CartView(0, [], 0)
    else
      var ids := SortedIds(LinesOfCart(db.cartLines, cart.value));
      var items := LineViews(db, ids);
      ViewTotalOfLines(db, ids);
      CartView(cart.value, items, CartTotal(db, cart.value))
  }

  /** The ids of the lines of every cart of the account. */
  function LinesOfAccount(db: Tables, accountId: int): (ids: set<int>)
    ensures forall k :: k in ids <==> k in db.cartLines && db.cartLines[k].cartId in CartsOf(db.carts, accountId)
  {
    set k | k in db.cartLines && db.cartLines[k].cartId in CartsOf(db.carts, accountId)
  }

  /** `GetTongTien`: price times quantity summed over the lines of all the account's carts. */
  function AccountTotal(db: Tables, accountId: int): int
  {
    ItemsTotal(db.products, CartItems(db.cartLines, SortedIds(LinesOfAccount(db, accountId))))
  }

  /** With one cart per account, the total endpoint agrees with the cart page; without a cart both say 0. */
  lemma AccountTotalMatchesCartPage(db: Tables, accountId: int)
    requires OneCartPerAccount(db.carts)
    ensures AccountTotal(db, accountId) == ViewCart(db, accountId).total
  {
    var cart := AccountCart(db.carts, accountId);
    if cart.None? {
      assert LinesOfAccount(db, accountId) == {};
    } else {
      assert CartsOf(db.carts, accountId) == {cart.value};
      assert LinesOfAccount(db, accountId) == LinesOfCart(db.cartLines, cart.value);
    }
  }
}
