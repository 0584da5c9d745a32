// Stock bookkeeping shared by the order handlers: the lines an order is made of,
// their value, the stock they withdraw or give back, and the order lines that
// snapshot them.
module Stock {
  import opened Common
  import opened Entities

  /** One requested line: a product id and a quantity (a cart line, or an admin order item). */
  datatype Item = Item(productId: int, qty: int)

  function Last<T>(s: seq<T>): T
    requires s != []
  {
    s[|s| - 1]
  }

  function AllButLast<T>(s: seq<T>): seq<T>
    requires s != []
  {
    s[..|s| - 1]
  }

  /** `item.SanPham?.Gia ?? 0`: the current price, or zero for a missing product. */
  function PriceOf(products: map<int, Product>, productId: int): int
  {
    if productId in products then products[productId].price else 0
  }

  /** The total quantity the items ask of one product. */
  function QtyOf(items: seq<Item>, productId: int): int
  {
    if items == [] then 0
    else QtyOf(AllButLast(items), productId) + (if Last(items).productId == productId then Last(items).qty else 0)
  }

  /** The value of the items at current prices: the sum of price times quantity. */
  function ItemsTotal(products: map<int, Product>, items: seq<Item>): int
  {
    if items == [] then 0
    else ItemsTotal(products, AllButLast(items)) + PriceOf(products, Last(items).productId) * Last(items).qty
  }

  /** An item can be sold as requested: its product exists, is active and has at least that much stock. */
  predicate Sellable(products: map<int, Product>, item: Item)
  {
    item.productId in products && Active(products[item.productId]) && products[item.productId].stock >= item.qty
  }

  /**
   * The products after each item's quantity has been taken from its product's stock,
   * one item after the other (items naming a missing product change nothing). Each
   * product ends up short by exactly the total its items ask for.
   */
  function Withdraw(products: map<int, Product>, items: seq<Item>): (r: map<int, Product>)
    ensures r.Keys == products.Keys
    ensures forall k :: k in products ==> r[k] == products[k].(stock := products[k].stock - QtyOf(items, k))
  {
    if items == [] then products else TakeItem(Withdraw(products, AllButLast(items)), Last(items))
  }

  /** `sanPham.SoLuong -= item.SoLuong` on the item's product, when it exists. */
  function TakeItem(products: map<int, Product>, item: Item): map<int, Product>
  {
    if item.productId in products
    then products[item.productId := products[item.productId].(stock := products[item.productId].stock - item.qty)]
    else products
  }

  /** Withdrawing stock leaves every product's price alone. */
  lemma WithdrawKeepsPrices(products: map<int, Product>, items: seq<Item>, k: int)
    ensures k in Withdraw(products, items) <==> k in products
    ensures k in products ==> Withdraw(products, items)[k].price == products[k].price
  {
  }

  /** The products after each item's quantity has been added back to its product's stock. */
  function Restock(products: map<int, Product>, items: seq<Item>): (r: map<int, Product>)
    ensures r.Keys == products.Keys
    ensures forall k :: k in products ==> r[k] == products[k].(stock := products[k].stock + QtyOf(items, k))
  {
    if items == [] then products else ReturnItem(Restock(products, AllButLast(items)), Last(items))
  }

  /** `sanPham.SoLuong += chiTiet.SoLuong` on the line's product, when it exists. */
  function ReturnItem(products: map<int, Product>, item: Item): map<int, Product>
  {
    if item.productId in products
    then products[item.productId := products[item.productId].(stock := products[item.productId].stock + item.qty)]
    else products
  }

  /** Giving back what was withdrawn restores every product exactly. */
  lemma RestockUndoesWithdraw(products: map<int, Product>, items: seq<Item>)
    ensures Restock(Withdraw(products, items), items) == products
  {
    var r := Restock(Withdraw(products, items), items);
    assert forall k :: k in products ==> r[k] == products[k];
  }

  /** The ids `base`, `base + 1`, ... given to `n` rows inserted one after the other. */
  function IdRange(base: int, n: nat): (ids: set<int>)
    ensures forall k :: k in ids <==> base <= k < base + n
  {
    if n == 0 then {} else IdRange(base, n - 1) + {base + n - 1}
  }

  /**
   * The order lines after one line per item has been added to order `orderId`, with
   * the ids `base`, `base + 1`, ... and the product's current price as unit price.
   */
  function Snapshot(lines: map<int, OrderLine>, orderId: int, products: map<int, Product>, items: seq<Item>, base: int)
    : (r: map<int, OrderLine>)
    requires forall k :: k in lines ==> k < base
    ensures r.Keys == lines.Keys + IdRange(base, |items|)
    ensures forall k :: k in lines ==> r[k] == lines[k]
    ensures forall i :: 0 <= i < |items| ==>
      r[base + i] == OrderLine(orderId, items[i].productId, items[i].qty, Some(PriceOf(products, items[i].productId)))
  {
    if items == [] then lines
    else
      var before := Snapshot(lines, orderId, products, AllButLast(items), base);
      SnapshotGrows(lines, before, orderId, products, items, base);
      before[base + |items| - 1 := OrderLine(orderId, Last(items).productId, Last(items).qty, Some(PriceOf(products, Last(items).productId)))]
  }

  /** The line of the last item, added under the next id, extends what `Snapshot` promises for the items before it. */
  lemma SnapshotGrows(lines: map<int, OrderLine>, before: map<int, OrderLine>, orderId: int, products: map<int, Product>,
                      items: seq<Item>, base: int)
    requires items != []
    requires forall k :: k in lines ==> k < base
    requires before.Keys == lines.Keys + IdRange(base, |items| - 1)
    requires forall k :: k in lines ==> before[k] == lines[k]
    requires forall i :: 0 <= i < |items| - 1 ==>
      before[base + i] == OrderLine(orderId, items[i].productId, items[i].qty, Some(PriceOf(products, items[i].productId)))
    ensures var r := before[base + |items| - 1 := OrderLine(orderId, Last(items).productId, Last(items).qty,
                                                            Some(PriceOf(products, Last(items).productId)))];
      && r.Keys == lines.Keys + IdRange(base, |items|)
      && (forall k :: k in lines ==> r[k] == lines[k])
      && (forall i :: 0 <= i < |items| ==>
            r[base + i] == OrderLine(orderId, items[i].productId, items[i].qty, Some(PriceOf(products, items[i].productId))))
  {
  }

  /** Snapshotting one more item adds its line under the next id. */
  lemma SnapshotStep(lines: map<int, OrderLine>, orderId: int, products: map<int, Product>, items: seq<Item>, base: int, i: int)
    requires forall k :: k in lines ==> k < base
    requires 0 <= i < |items|
    ensures Snapshot(lines, orderId, products, items[..i + 1], base)
      == Snapshot(lines, orderId, products, items[..i], base)[base + i :=
           OrderLine(orderId, items[i].productId, items[i].qty, Some(PriceOf(products, items[i].productId)))]
  {
    assert AllButLast(items[..i + 1]) == items[..i];
  }

  /** Withdrawing one more item changes only that item's product. */
  lemma WithdrawStep(products: map<int, Product>, items: seq<Item>, i: int)
    requires 0 <= i < |items|
    ensures Withdraw(products, items[..i + 1]) == TakeItem(Withdraw(products, items[..i]), items[i])
  {
    assert AllButLast(items[..i + 1]) == items[..i];
  }

  /**
   * The check compares each item with the stock before anything is withdrawn, so two
   * items that each fit the stock can together overdraw it.
   */
  lemma RepeatedItemsOverdraw(products: map<int, Product>, productId: int)
    requires productId in products && Active(products[productId]) && products[productId].stock == 1
    ensures var items := [Item(productId, 1), Item(productId, 1)];
      && (forall i :: 0 <= i < |items| ==> Sellable(products, items[i]))
      && Withdraw(products, items)[productId].stock == -1
  {
    var items := [Item(productId, 1), Item(productId, 1)];
    assert AllButLast(items) == [Item(productId, 1)];
    assert AllButLast(AllButLast(items)) == [];
  }

  /** Without repeated products, items that each pass the check leave no stock negative. */
  lemma {:induction false} DistinctSellableKeepsStock(products: map<int, Product>, items: seq<Item>, productId: int)
    requires forall i :: 0 <= i < |items| ==> Sellable(products, items[i])
    requires forall i, j :: 0 <= i < j < |items| ==> items[i].productId != items[j].productId
    requires productId in products && products[productId].stock >= 0
    ensures Withdraw(products, items)[productId].stock >= 0
  {
    QtyOfDistinct(items, productId);
    if i :| 0 <= i < |items| && items[i].productId == productId {
      assert QtyOf(items, productId) == items[i].qty;
    } else {
      assert QtyOf(items, productId) == 0;
    }
  }

  /** With distinct product ids, a product's total is the quantity of its one item, or zero. */
  lemma {:induction false} QtyOfDistinct(items: seq<Item>, productId: int)
    requires forall i, j :: 0 <= i < j < |items| ==> items[i].productId != items[j].productId
    ensures forall i :: 0 <= i < |items| && items[i].productId == productId ==> QtyOf(items, productId) == items[i].qty
    ensures (forall i :: 0 <= i < |items| ==> items[i].productId != productId) ==> QtyOf(items, productId) == 0
  {
    if items != [] {
      var front := AllButLast(items);
      QtyOfDistinct(front, productId);
      forall i | 0 <= i < |items| && items[i].productId == productId
        ensures QtyOf(items, productId) == items[i].qty
      {
        if i < |front| {
          assert front[i] == items[i];
          assert Last(items).productId != productId;
        } else {
          assert forall j :: 0 <= j < |front| ==> front[j] == items[j] && front[j].productId != productId;
        }
      }
      if forall i :: 0 <= i < |items| ==> items[i].productId != productId {
        assert forall j :: 0 <= j < |front| ==> front[j] == items[j];
      }
    }
  }
}
