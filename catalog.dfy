// The storefront's product queries: newest products, a category's products, search
// by name, the combined filter, and related products.
module Catalog {
  import opened Common
  import opened Entities
  import opened Queries

  /** How many products the newest-products and related-products lists show. */
  const ShortListSize := 10

  /** The ids of the active products. */
  function ActiveIds(products: map<int, Product>): (ids: set<int>)
    ensures forall k :: k in ids <==> k in products && Active(products[k])
  {
    set k | k in products && Active(products[k])
  }

  /**
   * `GetTop10SanPham`: the ten newest active products, newest first; an active
   * product left out is not newer than any product shown.
   */
  function Newest(products: map<int, Product>): (r: seq<int>)
    ensures |r| == Min(ShortListSize, |ActiveIds(products)|)
    ensures forall k :: k in r ==> k in products && Active(products[k])
    ensures OrderedBy(r, AddedAt(products), true)
    ensures forall k, j :: k in ActiveIds(products) && k !in r && 0 <= j < |r| ==>
      Precedes(AddedAt(products)(r[j]), AddedAt(products)(k), true)
  {
    var ids := SortedIds(ActiveIds(products));
    TopByDate(ids, AddedAt(products), true, ShortListSize)
  }

  /** `GetSanPhamByDanhMuc`: exactly the active products of the category, in id order. */
  function InCategory(products: map<int, Product>, categoryId: int): (r: seq<int>)
    ensures forall k :: k in r <==> k in products && products[k].categoryId == Some(categoryId) && Active(products[k])
    ensures Increasing(r)
  {
    SortedIds(set k | k in products && products[k].categoryId == Some(categoryId) && Active(products[k]))
  }

  /** `TimKiemSanPham`: 400 for a blank term; otherwise exactly the active products whose name contains it. */
  function Search(products: map<int, Product>, term: Option<string>): (r: (Reply, seq<int>))
    ensures r.0 == (if Blank(term) then BadRequest(400) else OkReply)
    ensures Blank(term) ==> r.1 == []
    ensures !Blank(term) ==> forall k :: k in r.1 <==> k in products && Active(products[k]) && Contains(products[k].name, term.value)
  {
    if Blank(term) then (BadRequest(400), [])
    else (OkReply, SortedIds(set k | k in products && Active(products[k]) && Contains(products[k].name, term.value)))
  }

  /** `SanPhamFilterDTO`; prices in whole dong. */
  datatype ProductQuery = ProductQuery(
    categoryId: Option<int>, name: Option<string>, minPrice: Option<int>, maxPrice: Option<int>,
    active: Option<bool>, inStock: Option<bool>, page: int, pageSize: int)

  /** A product meets every criterion given; inactive products are not excluded unless asked. */
  predicate Meets(p: Product, q: ProductQuery)
  {
    && (q.categoryId.None? || p.categoryId == q.categoryId)
    && (Blank(q.name) || Contains(p.name, q.name.value))
    && (q.minPrice.None? || p.price >= q.minPrice.value)
    && (q.maxPrice.None? || p.price <= q.maxPrice.value)
    && (q.active.None? || p.active == q.active)
    && (q.inStock != Some(true) || p.stock > 0)
  }

  function Meeting(products: map<int, Product>, q: ProductQuery): (ids: set<int>)
    ensures forall k :: k in ids <==> k in products && Meets(products[k], q)
  {
    set k | k in products && Meets(products[k], q)
  }

  /**
   * `LocSanPham`: the number of products meeting the query, and the requested page of
   * them, newest first; 400 when the database refuses the page.
   */
  function FilterProducts(products: map<int, Product>, q: ProductQuery): (r: (Reply, int, seq<int>))
    ensures PageRefused(q.page, q.pageSize) ==> r == (BadRequest(400), 0, [])
    ensures !PageRefused(q.page, q.pageSize) ==> r.0 == OkReply && r.1 == |Meeting(products, q)|
    ensures |r.2| <= Max(q.pageSize, 0)
    ensures forall k :: k in r.2 ==> k in products && Meets(products[k], q)
    ensures OrderedBy(r.2, AddedAt(products), true)
    ensures !PageRefused(q.page, q.pageSize) ==>
      Some(r.2) == Page(SortByDate(SortedIds(Meeting(products, q)), AddedAt(products), true), q.page, q.pageSize)
  {
    var ids := Meeting(products, q);
    var sorted := SortedIds(ids);
    assert |sorted| == |ids|;
    match PageByDate(sorted, AddedAt(products), true, q.page, q.pageSize)
    case None => (BadRequest(400), 0, [])
    case Some(rows) => (OkReply, |ids|, rows)
  }

  /** A product related to `p` (id `id`): another active product of the same category. */
  function RelatedIds(products: map<int, Product>, id: int, p: Product): (ids: set<int>)
    ensures forall k :: k in ids <==> k in products && k != id && products[k].categoryId == p.categoryId && Active(products[k])
  {
    set k | k in products && k != id && products[k].categoryId == p.categoryId && Active(products[k])
  }

  /**
   * `GetSanPhamLienQuan`: 404 for an unknown product; otherwise up to ten other active
   * products of its category, the lowest ids first.
   */
  function Related(products: map<int, Product>, id: int): (r: (Reply, seq<int>))
    ensures id !in products ==> r == (BadRequest(404), [])
    ensures id in products ==>
      && r.0 == OkReply
      && |r.1| == Min(ShortListSize, |RelatedIds(products, id, products[id])|)
      && (forall k :: k in r.1 ==> k in RelatedIds(products, id, products[id]))
      && Increasing(r.1)
  {
    if id !in products then (BadRequest(404), [])
    else
      var all := SortedIds(RelatedIds(products, id, products[id]));
      var r := Take(all, ShortListSize).value;
      assert r == all[..|r|];
      (OkReply, r)
  }
}
