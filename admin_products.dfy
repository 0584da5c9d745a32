// The back-office product handlers: list with filters, create (with its images and
// technical specification), update, and delete (which only hides a product that
// some order line refers to).
module AdminProducts {
  import opened Common
  import opened Entities
  import opened Stock
  import opened Queries

  /** The filters of the product list; each one is optional. */
  datatype ProductFilter = ProductFilter(search: Option<string>, categoryId: Option<int>, active: Option<bool>)

  /** A product passes every filter given: the search text in its name or description, the category, the status. */
  predicate ProductListed(p: Product, f: ProductFilter)
  {
    && (Blank(f.search) || Contains(p.name, f.search.value)
        || (p.description.Some? && Contains(p.description.value, f.search.value)))
    && (f.categoryId.None? || p.categoryId == f.categoryId)
    && (f.active.None? || p.active == f.active)
  }

  /** The ids of the products the list keeps. */
  function ListedProducts(products: map<int, Product>, f: ProductFilter): (ids: set<int>)
    ensures forall k :: k in ids <==> k in products && ProductListed(products[k], f)
  {
    set k | k in products && ProductListed(products[k], f)
  }

  /**
   * `GetSanPhams`: the number of listed products, and the requested page of them, newest
   * first; 400 when the database refuses the page.
   */
  function ProductList(products: map<int, Product>, page: int, pageSize: int, f: ProductFilter)
    : (r: (Reply, int, seq<int>))
    ensures PageRefused(page, pageSize) ==> r == (BadRequest(400), 0, [])
    ensures !PageRefused(page, pageSize) ==> r.0 == OkReply && r.1 == |ListedProducts(products, f)|
    ensures |r.2| <= Max(pageSize, 0)
    ensures forall k :: k in r.2 ==> k in ListedProducts(products, f)
    ensures OrderedBy(r.2, AddedAt(products), true)
    ensures !PageRefused(page, pageSize) ==>
      Some(r.2) == Page(SortByDate(SortedIds(ListedProducts(products, f)), AddedAt(products), true), page, pageSize)
  {
    var ids := ListedProducts(products, f);
    match PageByDate(SortedIds(ids), AddedAt(products), true, page, pageSize)
    case None => (BadRequest(400), 0, [])
    case Some(rows) => (OkReply, |ids|, rows)
  }

  // ---------------------------------------------------------------------------
  // Invariants
  // ---------------------------------------------------------------------------

  /** The values the handlers guarantee: a positive price and a stock that is not negative. */
  predicate ValidProduct(p: Product)
  {
    p.price > 0 && p.stock >= 0
  }

  /** Every image, specification, cart line, order line and review names an existing product. */
  predicate ProductRefsValid(db: Tables)
  {
    && (forall k :: k in db.images ==> db.images[k].productId in db.products)
    && (forall k :: k in db.specs ==> db.specs[k].productId in db.products)
    && (forall k :: k in db.cartLines ==> db.cartLines[k].productId in db.products)
    && (forall k :: k in db.orderLines ==> db.orderLines[k].productId in db.products)
    && (forall k :: k in db.reviews ==> db.reviews[k].productId in db.products)
  }

  // ---------------------------------------------------------------------------
  // Create
  // ---------------------------------------------------------------------------

  /** `ThongSoCreateDTO`. */
  datatype SpecRequest = SpecRequest(cpu: Option<string>, vga: Option<string>, ram: Option<string>, rom: Option<string>)

  /** `CreateSanPhamDTO`; a missing image list is the empty sequence. */
  datatype NewProduct = NewProduct(
    name: Option<string>, description: Option<string>, price: int, stock: int, categoryId: Option<int>,
    active: Option<bool>, brand: Option<string>, promotion: Option<int>, images: seq<Option<string>>,
    spec: Option<SpecRequest>)

  /** The answer to a creation that is refused, if it is refused. */
  function CreateRejection(db: Tables, req: NewProduct): (r: Option<Reply>)
    ensures r.None? <==>
      !Blank(req.name) && req.price > 0 && req.stock >= 0 && (req.categoryId.None? || req.categoryId.value in db.categories)
    ensures r.Some? ==> r.value == (if !Blank(req.name) && req.price > 0 && req.stock >= 0 then BadRequest(404) else BadRequest(400))
  {
    if Blank(req.name) then Some(BadRequest(400))
    else if req.price <= 0 then Some(BadRequest(400))
    else if req.stock < 0 then Some(BadRequest(400))
    else if req.categoryId.Some? && req.categoryId.value !in db.categories then Some(BadRequest(404))
    else None
  }

  /** The product row a creation inserts: active unless told otherwise. */
  function CreatedProduct(req: NewProduct, clock: Clock): (p: Product)
    requires req.name.Some?
    ensures req.price > 0 && req.stock >= 0 ==> ValidProduct(p)
    ensures p.active == Some(req.active.None? || req.active.value)
  {
    Product(req.name.value, req.description, req.price, req.stock, req.categoryId, Some(clock.now),
            Some(if req.active.Some? then req.active.value else true), req.brand, req.promotion)
  }

  /** How many of the paths are not blank. */
  function NonBlankCount(paths: seq<Option<string>>): nat
  {
    if paths == [] then 0 else NonBlankCount(AllButLast(paths)) + (if Blank(Last(paths)) then 0 else 1)
  }

  /** The non-blank paths, in order. */
  function NonBlankPaths(paths: seq<Option<string>>): (r: seq<Option<string>>)
    ensures |r| == NonBlankCount(paths)
    ensures forall i :: 0 <= i < |r| ==> !Blank(r[i]) && r[i] in paths
  {
    if paths == [] then []
    else NonBlankPaths(AllButLast(paths)) + (if Blank(Last(paths)) then [] else [Last(paths)])
  }

  /** The images after one row per non-blank path has been added to product `productId`. */
  function AddImages(images: map<int, ProductImage>, productId: int, paths: seq<Option<string>>): (r: map<int, ProductImage>)
    ensures images.Keys <= r.Keys
    ensures forall k :: k in images ==> r[k] == images[k]
    ensures forall k :: k in r && k !in images ==> r[k].productId == productId
    ensures |r.Keys - images.Keys| == NonBlankCount(paths)
  {
    if paths == [] then
      assert images.Keys - images.Keys == {};
      images
    else
      var before := AddImages(images, productId, AllButLast(paths));
      AddOneImage(images, before, productId, Last(paths));
      AddImage(before, productId, Last(paths))
  }

  /** The images after the row for one path, when it is not blank, has been added under the next id. */
  function AddImage(images: map<int, ProductImage>, productId: int, path: Option<string>): map<int, ProductImage>
  {
    if Blank(path) then images else images[FreshId(images.Keys) := ProductImage(productId, path)]
  }

  /** Adding the row for one path keeps what `AddImages` promises, with one more row unless the path is blank. */
  lemma AddOneImage(images: map<int, ProductImage>, before: map<int, ProductImage>, productId: int, path: Option<string>)
    requires images.Keys <= before.Keys
    requires forall k :: k in images ==> before[k] == images[k]
    requires forall k :: k in before && k !in images ==> before[k].productId == productId
    ensures var after := AddImage(before, productId, path);
      && images.Keys <= after.Keys
      && (forall k :: k in images ==> after[k] == images[k])
      && (forall k :: k in after && k !in images ==> after[k].productId == productId)
      && |after.Keys - images.Keys| == |before.Keys - images.Keys| + (if Blank(path) then 0 else 1)
  {
    if !Blank(path) {
      var id := FreshId(before.Keys);
      var after := before[id := ProductImage(productId, path)];
      assert |after.Keys - images.Keys| == |before.Keys - images.Keys| + 1 by {
        AddedKeys(before, images.Keys, id, ProductImage(productId, path));
      }
      forall k | k in after && k !in images
        ensures after[k].productId == productId
      {
        if k != id {
          assert after[k] == before[k];
        }
      }
    }
  }

  /** A key added to a map is one more key outside a base set the map already covered. */
  lemma AddedKeys<V>(m: map<int, V>, base: set<int>, id: int, v: V)
    requires base <= m.Keys && id !in m
    ensures |m[id := v].Keys - base| == |m.Keys - base| + 1
  {
    assert m[id := v].Keys - base == (m.Keys - base) + {id};
  }

  /** One more path adds one more row, under the next id, unless it is blank. */
  lemma AddImagesStep(images: map<int, ProductImage>, productId: int, paths: seq<Option<string>>, i: int)
    requires 0 <= i < |paths|
    ensures AddImages(images, productId, paths[..i + 1]) == AddImage(AddImages(images, productId, paths[..i]), productId, paths[i])
  {
    assert AllButLast(paths[..i + 1]) == paths[..i];
  }

  /**
   * The added rows take the next ids in turn: the `j`-th non-blank path is the row with
   * id `FreshId(images.Keys) + j`, and there are no other new rows.
   */
  lemma {:induction false} AddImagesPaths(images: map<int, ProductImage>, productId: int, paths: seq<Option<string>>)
    ensures var r := AddImages(images, productId, paths);
      var base := FreshId(images.Keys);
      var added := NonBlankPaths(paths);
      && (forall k :: k in r <==> k in images || base <= k < base + |added|)
      && (forall j :: 0 <= j < |added| ==> r[base + j] == ProductImage(productId, added[j]))
  {
    if paths != [] {
      var front := AllButLast(paths);
      var before := AddImages(images, productId, front);
      assert AddImages(images, productId, paths) == AddImage(before, productId, Last(paths));
      AddImagesPaths(images, productId, front);
      if !Blank(Last(paths)) {
        assert NonBlankPaths(paths) == NonBlankPaths(front) + [Last(paths)];
        AddNextImage(images, before, productId, Last(paths), NonBlankPaths(front));
      } else {
        assert NonBlankPaths(paths) == NonBlankPaths(front);
      }
    }
  }

  /** A non-blank path added after a run of consecutive new rows takes the next id. */
  lemma AddNextImage(images: map<int, ProductImage>, before: map<int, ProductImage>, productId: int, path: Option<string>,
                     added: seq<Option<string>>)
    requires !Blank(path)
    requires forall k :: k in before <==> k in images || FreshId(images.Keys) <= k < FreshId(images.Keys) + |added|
    requires forall j :: 0 <= j < |added| ==> before[FreshId(images.Keys) + j] == ProductImage(productId, added[j])
    ensures var after := AddImage(before, productId, path);
      var base := FreshId(images.Keys);
      && (forall k :: k in after <==> k in images || base <= k < base + |added + [path]|)
      && (forall j :: 0 <= j < |added + [path]| ==> after[base + j] == ProductImage(productId, (added + [path])[j]))
  {
    var base := FreshId(images.Keys);
    FreshIdAfterRun(images.Keys, before.Keys, |added|);
    var after := before[base + |added| := ProductImage(productId, path)];
    assert AddImage(before, productId, path) == after;
    forall j | 0 <= j < |added + [path]|
      ensures after[base + j] == ProductImage(productId, (added + [path])[j])
    {
      if j < |added| {
        assert after[base + j] == before[base + j];
      }
    }
  }

  /** The specifications after the optional one of product `productId` has been added. */
  function AddSpec(specs: map<int, TechSpec>, productId: int, spec: Option<SpecRequest>): map<int, TechSpec>
  {
    if spec.None? then specs
    else specs[FreshId(specs.Keys) := TechSpec(productId, spec.value.cpu, spec.value.vga, spec.value.ram, spec.value.rom)]
  }

  /** The state after an accepted creation: the product, its images and its specification. */
  function ProductCreated(db: Tables, req: NewProduct, clock: Clock): Tables
    requires req.name.Some?
  {
    var id := FreshId(db.products.Keys);
    db.(products := db.products[id := CreatedProduct(req, clock)],
        images := AddImages(db.images, id, req.images),
        specs := AddSpec(db.specs, id, req.spec))
  }

  /**
   * `CreateSanPham`: validates, saves the product, then adds a row for each non-blank
   * image path and the specification if one is given, and saves again.
   */
  method CreateProduct(ctx: ShopContext, req: NewProduct, clock: Clock) returns (reply: Reply, productId: Option<int>)
    modifies ctx
    ensures CreateRejection(old(ctx.db), req).Some? ==>
      reply == CreateRejection(old(ctx.db), req).value && productId.None? && ctx.db == old(ctx.db)
    ensures CreateRejection(old(ctx.db), req).None? ==>
      && reply == OkReply && productId == Some(FreshId(old(ctx.db).products.Keys))
      && ctx.db == ProductCreated(old(ctx.db), req, clock)
  {
    var db := ctx.db;
    if Blank(req.name) {
      return BadRequest(400), None;
    }
    if req.price <= 0 {
      return BadRequest(400), None;
    }
    if req.stock < 0 {
      return BadRequest(400), None;
    }
    if req.categoryId.Some? && req.categoryId.value !in db.categories {
      return BadRequest(404), None;
    }
    var id := FreshId(db.products.Keys);
    db := db.(products := db.products[id := CreatedProduct(req, clock)]);
    ctx.SaveChanges(db);
    var images := db.images;
    var i := 0;
    while i < |req.images|
      invariant 0 <= i <= |req.images|
      invariant images == AddImages(db.images, id, req.images[..i])
    {
      AddImagesStep(db.images, id, req.images, i);
      if !Blank(req.images[i]) {
        images := images[FreshId(images.Keys) := ProductImage(id, req.images[i])];
      }
      i := i + 1;
    }
    assert req.images[..i] == req.images;
    var specs := db.specs;
    if req.spec.Some? {
      var s := req.spec.value;
      specs := specs[FreshId(specs.Keys) := TechSpec(id, s.cpu, s.vga, s.ram, s.rom)];
    }
    ctx.SaveChanges(db.(images := images, specs := specs));
    return OkReply, Some(id);
  }

  /** A created product is valid and active unless told otherwise. */
  lemma CreatedProductValid(db: Tables, req: NewProduct, clock: Clock)
    requires CreateRejection(db, req).None?
    ensures var p := ProductCreated(db, req, clock).products[FreshId(db.products.Keys)];
      ValidProduct(p) && Active(p) == (req.active != Some(false))
  {
    assert ProductCreated(db, req, clock).products[FreshId(db.products.Keys)] == CreatedProduct(req, clock);
  }

  /** After a creation every image, specification, cart line and order line still names an existing product. */
  lemma CreateKeepsRefs(db: Tables, req: NewProduct, clock: Clock)
    requires ProductRefsValid(db) && CreateRejection(db, req).None?
    ensures ProductRefsValid(ProductCreated(db, req, clock))
  {
    var id := FreshId(db.products.Keys);
    var products := db.products[id := CreatedProduct(req, clock)];
    var images := AddImages(db.images, id, req.images);
    var specs := AddSpec(db.specs, id, req.spec);
    assert ProductCreated(db, req, clock) == db.(products := products, images := images, specs := specs);
    AddedRefsValid(db, products, images, specs, id);
  }

  /** References stay valid when the products only grow and every added image or specification names the new product. */
  lemma AddedRefsValid(db: Tables, products: map<int, Product>, images: map<int, ProductImage>, specs: map<int, TechSpec>, id: int)
    requires ProductRefsValid(db)
    requires db.products.Keys <= products.Keys && id in products
    requires forall k :: k in images ==> (k in db.images && images[k] == db.images[k]) || images[k].productId == id
    requires forall k :: k in specs ==> (k in db.specs && specs[k] == db.specs[k]) || specs[k].productId == id
    ensures ProductRefsValid(db.(products := products, images := images, specs := specs))
  {
  }

  /**
   * The created product has exactly one image per non-blank path: its images are the
   * rows with the next ids of the image table.
   */
  lemma CreatedImages(db: Tables, req: NewProduct, clock: Clock)
    requires ProductRefsValid(db) && CreateRejection(db, req).None?
    ensures |ImagesOf(ProductCreated(db, req, clock).images, FreshId(db.products.Keys))| == NonBlankCount(req.images)
    ensures var base := FreshId(db.images.Keys);
      forall k :: k in ImagesOf(ProductCreated(db, req, clock).images, FreshId(db.products.Keys)) <==>
        base <= k < base + NonBlankCount(req.images)
  {
    var id := FreshId(db.products.Keys);
    var added := AddImages(db.images, id, req.images);
    assert ImagesOf(added, id) == added.Keys - db.images.Keys by {
      ImagesOfAdded(db.images, db.products, id, req.images);
    }
    AddImagesPaths(db.images, id, req.images);
  }

  /** The created product's image with the `j`-th of those ids holds the `j`-th non-blank path. */
  lemma CreatedImagePaths(db: Tables, req: NewProduct, clock: Clock)
    requires ProductRefsValid(db) && CreateRejection(db, req).None?
    ensures var images := ProductCreated(db, req, clock).images;
      var base := FreshId(db.images.Keys);
      var paths := NonBlankPaths(req.images);
      forall j :: 0 <= j < |paths| ==> base + j in images && images[base + j] == ProductImage(FreshId(db.products.Keys), paths[j])
  {
    AddImagesPaths(db.images, FreshId(db.products.Keys), req.images);
  }

  /** The images of a product no existing image refers to are exactly the ones added for it. */
  lemma ImagesOfAdded(images: map<int, ProductImage>, products: map<int, Product>, productId: int, paths: seq<Option<string>>)
    requires forall k :: k in images ==> images[k].productId in products
    requires productId !in products
    ensures ImagesOf(AddImages(images, productId, paths), productId) == AddImages(images, productId, paths).Keys - images.Keys
  {
    var r := AddImages(images, productId, paths);
    forall k | k in images
      ensures r[k].productId != productId
    {
      assert images[k].productId in products;
    }
  }

  /** The created product has one specification if one was given, and none otherwise. */
  lemma CreatedSpec(db: Tables, req: NewProduct, clock: Clock)
    requires ProductRefsValid(db) && CreateRejection(db, req).None?
    ensures |SpecsOf(ProductCreated(db, req, clock).specs, FreshId(db.products.Keys))| == (if req.spec.Some? then 1 else 0)
  {
    var id := FreshId(db.products.Keys);
    var added := AddSpec(db.specs, id, req.spec);
    assert ProductCreated(db, req, clock).specs == added;
    assert |SpecsOf(added, id)| == (if req.spec.Some? then 1 else 0) by {
      SpecsOfAdded(db.specs, db.products, id, req.spec);
    }
  }

  /** The specifications of a product no existing one refers to are the one added for it, if any. */
  lemma SpecsOfAdded(specs: map<int, TechSpec>, products: map<int, Product>, productId: int, spec: Option<SpecRequest>)
    requires forall k :: k in specs ==> specs[k].productId in products
    requires productId !in products
    ensures SpecsOf(AddSpec(specs, productId, spec), productId) == if spec.Some? then {FreshId(specs.Keys)} else {}
  {
    forall k | k in specs
      ensures specs[k].productId != productId
    {
      assert specs[k].productId in products;
    }
  }

  // ---------------------------------------------------------------------------
  // Update
  // ---------------------------------------------------------------------------

  /** `UpdateSanPhamDTO`. */
  datatype ProductChanges = ProductChanges(
    name: Option<string>, description: Option<string>, price: Option<int>, stock: Option<int>,
    categoryId: Option<int>, active: Option<bool>, brand: Option<string>, promotion: Option<int>)

  /** The answer to an update that is refused, if it is refused. */
  function UpdateRejection(db: Tables, id: int, req: ProductChanges): (r: Option<Reply>)
    ensures r.None? <==> id in db.products && (req.categoryId.None? || req.categoryId.value in db.categories)
    ensures r.Some? ==> r.value == BadRequest(404)
  {
    if id !in db.products then Some(BadRequest(404))
    else if req.categoryId.Some? && req.categoryId.value !in db.categories then Some(BadRequest(404))
    else None
  }

  /** The name after the update: replaced only by a non-blank one. */
  function NewName(given: Option<string>, current: string): string
  {
    if Blank(given) then current else given.value
  }

  /** The price after the update: replaced only by a positive one. */
  function NewPrice(given: Option<int>, current: int): int
  {
    if given.Some? && given.value > 0 then given.value else current
  }

  /** The stock after the update: replaced only by one that is not negative. */
  function NewStock(given: Option<int>, current: int): int
  {
    if given.Some? && given.value >= 0 then given.value else current
  }

  /** The product after an accepted update; out-of-range prices and stocks are ignored, not refused. */
  function ProductUpdated(p: Product, req: ProductChanges): (r: Product)
    ensures r.price == (if req.price.Some? && req.price.value > 0 then req.price.value else p.price)
    ensures r.stock == (if req.stock.Some? && req.stock.value >= 0 then req.stock.value else p.stock)
    ensures r.name == (if Blank(req.name) then p.name else req.name.value)
    ensures r.description == (if req.description.None? then p.description else req.description)
    ensures r.categoryId == (if req.categoryId.None? then p.categoryId else req.categoryId)
    ensures r.active == (if req.active.None? then p.active else req.active)
    ensures r.brand == (if req.brand.None? then p.brand else req.brand)
    ensures r.promotion == (if req.promotion.None? then p.promotion else req.promotion)
    ensures r.addedAt == p.addedAt
  {
    Product(NewName(req.name, p.name), GivenOr(req.description, p.description), NewPrice(req.price, p.price),
            NewStock(req.stock, p.stock), GivenOr(req.categoryId, p.categoryId), p.addedAt,
            GivenOr(req.active, p.active), GivenOr(req.brand, p.brand), GivenOr(req.promotion, p.promotion))
  }

  /** `UpdateSanPham`: the fields are changed on the tracked row, and saved only if the category exists. */
  method UpdateProduct(ctx: ShopContext, id: int, req: ProductChanges) returns (reply: Reply)
    modifies ctx
    ensures UpdateRejection(old(ctx.db), id, req).Some? ==> reply == BadRequest(404) && ctx.db == old(ctx.db)
    ensures UpdateRejection(old(ctx.db), id, req).None? ==>
      reply == OkReply
      && ctx.db == old(ctx.db).(products := old(ctx.db).products[id := ProductUpdated(old(ctx.db).products[id], req)])
  {
    var db := ctx.db;
    if id !in db.products {
      return BadRequest(404);
    }
    var p := db.products[id];
    p := p.(name := NewName(req.name, p.name));
    p := p.(description := GivenOr(req.description, p.description));
    p := p.(price := NewPrice(req.price, p.price));
    p := p.(stock := NewStock(req.stock, p.stock));
    if req.categoryId.Some? && req.categoryId.value !in db.categories {
      return BadRequest(404);
    }
    p := p.(categoryId := GivenOr(req.categoryId, p.categoryId));
    p := p.(active := GivenOr(req.active, p.active));
    p := p.(brand := GivenOr(req.brand, p.brand));
    p := p.(promotion := GivenOr(req.promotion, p.promotion));
    ctx.SaveChanges(db.(products := db.products[id := p]));
    return OkReply;
  }

  /** An update cannot make a valid product invalid. */
  lemma UpdateKeepsValid(p: Product, req: ProductChanges)
    requires ValidProduct(p)
    ensures ValidProduct(ProductUpdated(p, req))
  {
  }

  // ---------------------------------------------------------------------------
  // Delete
  // ---------------------------------------------------------------------------

  /** Some order line refers to the product. */
  predicate InSomeOrder(db: Tables, id: int)
  {
    exists k :: k in db.orderLines && db.orderLines[k].productId == id
  }

  /** The ids of the cart lines holding the product. */
  function CartLinesOf(lines: map<int, CartLine>, productId: int): (ids: set<int>)
    ensures forall k :: k in ids <==> k in lines && lines[k].productId == productId
  {
    set k | k in lines && lines[k].productId == productId
  }

  /** Some review refers to the product. */
  predicate Reviewed(db: Tables, id: int)
  {
    exists k :: k in db.reviews && db.reviews[k].productId == id
  }

  /**
   * The store refuses to remove the product: its reviews still refer to it, they are
   * not removed with it, and the reference has no cascading delete.
   */
  predicate DeleteRefused(db: Tables, id: int)
  {
    !InSomeOrder(db, id) && Reviewed(db, id)
  }

  /** The state after a delete: a product in some order is hidden; any other is removed with its rows. */
  function ProductDeleted(db: Tables, id: int): Tables
    requires id in db.products
  {
    if InSomeOrder(db, id) then db.(products := db.products[id := db.products[id].(active := Some(false))])
    else db.(images := db.images - ImagesOf(db.images, id),
             specs := db.specs - SpecsOf(db.specs, id),
             cartLines := db.cartLines - CartLinesOf(db.cartLines, id),
             products := db.products - {id})
  }

  /**
   * `DeleteSanPham`: 404 for an unknown product, else hides it or removes it with its
   * images, specifications and cart lines. Removing a reviewed product makes the save
   * fail, which is answered 400 with nothing saved.
   */
  method DeleteProduct(ctx: ShopContext, id: int) returns (reply: Reply)
    modifies ctx
    ensures id !in old(ctx.db).products ==> reply == BadRequest(404) && ctx.db == old(ctx.db)
    ensures id in old(ctx.db).products && DeleteRefused(old(ctx.db), id) ==> reply == BadRequest(400) && ctx.db == old(ctx.db)
    ensures id in old(ctx.db).products && !DeleteRefused(old(ctx.db), id) ==>
      reply == OkReply && ctx.db == ProductDeleted(old(ctx.db), id)
  {
    var db := ctx.db;
    if id !in db.products {
      return BadRequest(404);
    }
    if exists k :: k in db.orderLines && db.orderLines[k].productId == id {
      ctx.SaveChanges(db.(products := db.products[id := db.products[id].(active := Some(false))]));
      return OkReply;
    }
    if exists k :: k in db.reviews && db.reviews[k].productId == id {
      return BadRequest(400);
    }
    db := db.(images := db.images - ImagesOf(db.images, id));
    db := db.(specs := db.specs - SpecsOf(db.specs, id));
    db := db.(cartLines := db.cartLines - CartLinesOf(db.cartLines, id));
    db := db.(products := db.products - {id});
    ctx.SaveChanges(db);
    return OkReply;
  }

  /** A delete the store accepts keeps every reference to a product valid. */
  lemma DeleteKeepsRefs(db: Tables, id: int)
    requires id in db.products && ProductRefsValid(db) && !DeleteRefused(db, id)
    ensures ProductRefsValid(ProductDeleted(db, id))
  {
    if !InSomeOrder(db, id) {
      var r := ProductDeleted(db, id);
      forall k | k in r.orderLines
        ensures r.orderLines[k].productId in r.products
      {
        assert db.orderLines[k].productId != id;
      }
      forall k | k in r.reviews
        ensures r.reviews[k].productId in r.products
      {
        assert db.reviews[k].productId != id;
      }
    }
  }

  /** Removing the product regardless would leave each of its reviews naming no product. */
  lemma RefusedDeleteWouldDangle(db: Tables, id: int)
    requires id in db.products && DeleteRefused(db, id)
    ensures !ProductRefsValid(ProductDeleted(db, id))
  {
    var k :| k in db.reviews && db.reviews[k].productId == id;
    assert ProductDeleted(db, id).reviews[k].productId !in ProductDeleted(db, id).products;
  }

  /** A deleted product can no longer be sold, whether it was hidden or removed. */
  lemma DeletedNotSellable(db: Tables, id: int, qty: int)
    requires id in db.products
    ensures !Sellable(ProductDeleted(db, id).products, Item(id, qty))
  {
    if InSomeOrder(db, id) {
      assert !Active(ProductDeleted(db, id).products[id]);
    } else {
      assert id !in ProductDeleted(db, id).products;
    }
  }
}
