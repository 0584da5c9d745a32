// The back-office category handlers: list sorted by name, create and rename under
// unique names, and delete only when nothing refers to the category.
module AdminCategories {
  import opened Common
  import opened Entities
  import opened Queries

  /** No two categories share a name. */
  predicate UniqueNames(categories: map<int, Category>)
  {
    forall a, b :: a in categories && b in categories && a != b ==> categories[a].name != categories[b].name
  }

  /** Some category other than `except` is called `name`. */
  predicate NameTaken(categories: map<int, Category>, name: string, except: Option<int>)
  {
    exists k :: k in categories && categories[k].name == name && Some(k) != except
  }

  /** The ids of the categories the list keeps: all of them for a blank search. */
  function ListedCategories(categories: map<int, Category>, search: Option<string>): (ids: set<int>)
    ensures forall k :: k in ids <==> k in categories && (Blank(search) || Contains(categories[k].name, search.value))
  {
    set k | k in categories && (Blank(search) || Contains(categories[k].name, search.value))
  }

  /**
   * `GetDanhMucs`: the number of listed categories, and the requested page of them in name
   * order; 400 when the database refuses the page.
   */
  function CategoryList(categories: map<int, Category>, page: int, pageSize: int, search: Option<string>)
    : (r: (Reply, int, seq<int>))
    ensures PageRefused(page, pageSize) ==> r == (BadRequest(400), 0, [])
    ensures !PageRefused(page, pageSize) ==> r.0 == OkReply && r.1 == |ListedCategories(categories, search)|
    ensures |r.2| <= Max(pageSize, 0)
    ensures forall k :: k in r.2 ==> k in ListedCategories(categories, search)
    ensures OrderedByName(r.2, CategoryName(categories))
    ensures !PageRefused(page, pageSize) ==>
      Some(r.2) == Page(SortByName(SortedIds(ListedCategories(categories, search)), CategoryName(categories)), page, pageSize)
  {
    var ids := ListedCategories(categories, search);
    match PageByName(SortedIds(ids), CategoryName(categories), page, pageSize)
    case None => (BadRequest(400), 0, [])
    case Some(rows) => (OkReply, |ids|, rows)
  }

  /** The answer to a creation that is refused, if it is refused. */
  function CreateRejection(db: Tables, name: Option<string>): (r: Option<Reply>)
    ensures r.None? <==> !Blank(name) && !NameTaken(db.categories, name.value, None)
    ensures r.Some? ==> r.value == BadRequest(400)
  {
    if Blank(name) then Some(BadRequest(400))
    else if NameTaken(db.categories, name.value, None) then Some(BadRequest(400))
    else None
  }

  /** `CreateDanhMuc`: a new category under a fresh id, when the name is given and unused. */
  method CreateCategory(ctx: ShopContext, name: Option<string>) returns (reply: Reply, categoryId: Option<int>)
    modifies ctx
    ensures CreateRejection(old(ctx.db), name).Some? ==> reply == BadRequest(400) && categoryId.None? && ctx.db == old(ctx.db)
    ensures CreateRejection(old(ctx.db), name).None? ==>
      && reply == OkReply && categoryId == Some(FreshId(old(ctx.db).categories.Keys))
      && ctx.db == old(ctx.db).(categories := old(ctx.db).categories[categoryId.value := Category(name.value)])
  {
    var db := ctx.db;
    if Blank(name) {
      return BadRequest(400), None;
    }
    if exists k :: k in db.categories && db.categories[k].name == name.value {
      return BadRequest(400), None;
    }
    var id := FreshId(db.categories.Keys);
    ctx.SaveChanges(db.(categories := db.categories[id := Category(name.value)]));
    return OkReply, Some(id);
  }

  /** The answer to a rename that is refused, if it is refused. */
  function RenameRejection(db: Tables, id: int, name: Option<string>): (r: Option<Reply>)
    ensures r.None? <==> id in db.categories && !Blank(name) && !NameTaken(db.categories, name.value, Some(id))
    ensures r.Some? ==> r.value == (if id !in db.categories then BadRequest(404) else BadRequest(400))
  {
    if id !in db.categories then Some(BadRequest(404))
    else if Blank(name) then Some(BadRequest(400))
    else if NameTaken(db.categories, name.value, Some(id)) then Some(BadRequest(400))
    else None
  }

  /** `UpdateDanhMuc`: renames the category when the new name is given and no other category has it. */
  method RenameCategory(ctx: ShopContext, id: int, name: Option<string>) returns (reply: Reply)
    modifies ctx
    ensures RenameRejection(old(ctx.db), id, name).Some? ==>
      reply == RenameRejection(old(ctx.db), id, name).value && ctx.db == old(ctx.db)
    ensures RenameRejection(old(ctx.db), id, name).None? ==>
      reply == OkReply && ctx.db == old(ctx.db).(categories := old(ctx.db).categories[id := Category(name.value)])
  {
    var db := ctx.db;
    if id !in db.categories {
      return BadRequest(404);
    }
    if Blank(name) {
      return BadRequest(400);
    }
    if exists k :: k in db.categories && db.categories[k].name == name.value && k != id {
      return BadRequest(400);
    }
    ctx.SaveChanges(db.(categories := db.categories[id := Category(name.value)]));
    return OkReply;
  }

  /** Creating and renaming keep category names unique. */
  lemma CreateAndRenameKeepNamesUnique(db: Tables, id: int, name: Option<string>)
    requires UniqueNames(db.categories)
    ensures CreateRejection(db, name).None? ==>
      UniqueNames(db.categories[FreshId(db.categories.Keys) := Category(name.value)])
    ensures RenameRejection(db, id, name).None? ==>
      UniqueNames(db.categories[id := Category(name.value)])
  {
    if RenameRejection(db, id, name).None? {
      var r := db.categories[id := Category(name.value)];
      forall a, b | a in r && b in r && a != b
        ensures r[a].name != r[b].name
      {
        if a != id && b != id {
          assert r[a] == db.categories[a] && r[b] == db.categories[b];
        }
      }
    }
  }

  /** Some product or account is in the category. */
  predicate InUse(db: Tables, id: int)
  {
    (exists k :: k in db.products && db.products[k].categoryId == Some(id))
    || (exists k :: k in db.accounts && db.accounts[k].categoryId == Some(id))
  }

  /** Every category a product or an account names exists. */
  predicate CategoryRefsValid(db: Tables)
  {
    && (forall k :: k in db.products && db.products[k].categoryId.Some? ==> db.products[k].categoryId.value in db.categories)
    && (forall k :: k in db.accounts && db.accounts[k].categoryId.Some? ==> db.accounts[k].categoryId.value in db.categories)
  }

  /** `DeleteDanhMuc`: 404 for an unknown category, 400 for one in use, otherwise removes it. */
  method DeleteCategory(ctx: ShopContext, id: int) returns (reply: Reply)
    modifies ctx
    ensures id !in old(ctx.db).categories ==> reply == BadRequest(404) && ctx.db == old(ctx.db)
    ensures id in old(ctx.db).categories && InUse(old(ctx.db), id) ==> reply == BadRequest(400) && ctx.db == old(ctx.db)
    ensures id in old(ctx.db).categories && !InUse(old(ctx.db), id) ==>
      reply == OkReply && ctx.db == old(ctx.db).(categories := old(ctx.db).categories - {id})
  {
    var db := ctx.db;
    if id !in db.categories {
      return BadRequest(404);
    }
    if exists k :: k in db.products && db.products[k].categoryId == Some(id) {
      return BadRequest(400);
    }
    if exists k :: k in db.accounts && db.accounts[k].categoryId == Some(id) {
      return BadRequest(400);
    }
    ctx.SaveChanges(db.(categories := db.categories - {id}));
    return OkReply;
  }

  /** Deleting a category nothing uses keeps every category reference valid. */
  lemma DeleteKeepsRefs(db: Tables, id: int)
    requires CategoryRefsValid(db) && id in db.categories && !InUse(db, id)
    ensures CategoryRefsValid(db.(categories := db.categories - {id}))
  {
    forall k | k in db.products && db.products[k].categoryId.Some?
      ensures db.products[k].categoryId.value != id
    {
    }
    forall k | k in db.accounts && db.accounts[k].categoryId.Some?
      ensures db.accounts[k].categoryId.value != id
    {
    }
  }
}
