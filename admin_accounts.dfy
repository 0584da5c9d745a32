// The back-office account handlers: list with search, create, update, and delete
// (which only locks an account that has orders).
module AdminAccounts {
  import opened Common
  import opened Entities
  import opened Queries
  import opened Accounts

  /** An account matches the search text in its name, e-mail or phone number. */
  predicate AccountMatches(a: Account, search: string)
  {
    (a.name.Some? && Contains(a.name.value, search))
    || Contains(a.email, search)
    || (a.phone.Some? && Contains(a.phone.value, search))
  }

  /** The accounts the list keeps: all of them for a blank search, else the matching ones. */
  predicate Listed(a: Account, search: Option<string>)
  {
    Blank(search) || AccountMatches(a, search.value)
  }

  /** The ids of the accounts the list keeps. */
  function ListedIds(accounts: map<int, Account>, search: Option<string>): (ids: set<int>)
    ensures forall k :: k in ids <==> k in accounts && Listed(accounts[k], search)
  {
    set k | k in accounts && Listed(accounts[k], search)
  }

  /**
   * `GetTaiKhoans`: the number of listed accounts, and the requested page of them, newest
   * first; 400 when the database refuses the page.
   */
  function AccountList(accounts: map<int, Account>, page: int, pageSize: int, search: Option<string>)
    : (r: (Reply, int, seq<int>))
    ensures PageRefused(page, pageSize) ==> r == (BadRequest(400), 0, [])
    ensures !PageRefused(page, pageSize) ==> r.0 == OkReply && r.1 == |ListedIds(accounts, search)|
    ensures |r.2| <= Max(pageSize, 0)
    ensures forall k :: k in r.2 ==> k in ListedIds(accounts, search)
    ensures OrderedBy(r.2, CreatedAt(accounts), true)
    ensures !PageRefused(page, pageSize) ==>
      Some(r.2) == Page(SortByDate(SortedIds(ListedIds(accounts, search)), CreatedAt(accounts), true), page, pageSize)
  {
    var ids := ListedIds(accounts, search);
    match PageByDate(SortedIds(ids), CreatedAt(accounts), true, page, pageSize)
    case None => (BadRequest(400), 0, [])
    case Some(rows) => (OkReply, |ids|, rows)
  }

  // ---------------------------------------------------------------------------
  // Create
  // ---------------------------------------------------------------------------

  /** `CreateTaiKhoanDTO`. */
  datatype NewAccount = NewAccount(
    name: Option<string>, email: Option<string>, password: Option<string>, phone: Option<string>,
    address: Option<string>, avatar: Option<string>, active: Option<bool>, typeId: Option<int>, categoryId: Option<int>)

  /** A reference that is either absent or names an existing row. */
  predicate KnownOrAbsent<T>(id: Option<int>, rows: map<int, T>)
  {
    id.None? || id.value in rows
  }

  /** The answer to a creation that is refused, if it is refused. */
  function CreateRejection(db: Tables, req: NewAccount): (r: Option<Reply>)
    ensures r.None? <==>
      && !Blank(req.email) && ValidPassword(req.password)
      && AccountsWithEmail(db.accounts, req.email.value) == {}
      && KnownOrAbsent(req.typeId, db.accountTypes) && KnownOrAbsent(req.categoryId, db.categories)
    ensures r.Some? ==> r.value == BadRequest(400)
  {
    if Blank(req.email) then Some(BadRequest(400))
    else if Blank(req.password) then Some(BadRequest(400))
    else if |req.password.value| < 6 then Some(BadRequest(400))
    else if AccountsWithEmail(db.accounts, req.email.value) != {} then Some(BadRequest(400))
    else if !KnownOrAbsent(req.typeId, db.accountTypes) then Some(BadRequest(400))
    else if !KnownOrAbsent(req.categoryId, db.categories) then Some(BadRequest(400))
    else None
  }

  /** The row a creation inserts: the password hashed, and active unless told otherwise. */
  function CreatedAccount(req: NewAccount, hash: Hasher, clock: Clock): (a: Account)
    requires req.email.Some? && req.password.Some?
    ensures a.passwordHash == hash(req.password.value) && a.email == req.email.value
    ensures a.active == Some(req.active.None? || req.active.value)
    ensures a.otp.None?
  {
    Account(req.name, req.email.value, hash(req.password.value), req.phone, req.address, req.avatar,
            Some(clock.now), Some(if req.active.Some? then req.active.value else true), req.typeId, req.categoryId, None)
  }

  /** `CreateTaiKhoan`: validates, then inserts the account under a fresh id. */
  method CreateAccount(ctx: ShopContext, req: NewAccount, hash: Hasher, clock: Clock) returns (reply: Reply, accountId: Option<int>)
    modifies ctx
    ensures CreateRejection(old(ctx.db), req).Some? ==> reply == BadRequest(400) && accountId.None? && ctx.db == old(ctx.db)
    ensures CreateRejection(old(ctx.db), req).None? ==>
      && reply == OkReply && accountId == Some(FreshId(old(ctx.db).accounts.Keys))
      && ctx.db == old(ctx.db).(accounts := old(ctx.db).accounts[accountId.value := CreatedAccount(req, hash, clock)])
  {
    var db := ctx.db;
    if Blank(req.email) {
      return BadRequest(400), None;
    }
    if Blank(req.password) {
      return BadRequest(400), None;
    }
    if |req.password.value| < 6 {
      return BadRequest(400), None;
    }
    if AccountsWithEmail(db.accounts, req.email.value) != {} {
      return BadRequest(400), None;
    }
    if req.typeId.Some? && req.typeId.value !in db.accountTypes {
      return BadRequest(400), None;
    }
    if req.categoryId.Some? && req.categoryId.value !in db.categories {
      return BadRequest(400), None;
    }
    var id := FreshId(db.accounts.Keys);
    ctx.SaveChanges(db.(accounts := db.accounts[id := CreatedAccount(req, hash, clock)]));
    return OkReply, Some(id);
  }

  /** Creation keeps e-mail addresses unique. */
  lemma CreateKeepsUniqueEmails(db: Tables, req: NewAccount, hash: Hasher, clock: Clock)
    requires UniqueEmails(db.accounts) && CreateRejection(db, req).None?
    ensures UniqueEmails(db.accounts[FreshId(db.accounts.Keys) := CreatedAccount(req, hash, clock)])
  {
  }

  // ---------------------------------------------------------------------------
  // Update
  // ---------------------------------------------------------------------------

  /** `UpdateTaiKhoanDTO`. */
  datatype AccountChanges = AccountChanges(
    name: Option<string>, email: Option<string>, password: Option<string>, phone: Option<string>,
    address: Option<string>, avatar: Option<string>, active: Option<bool>, typeId: Option<int>, categoryId: Option<int>)

  /** The update asks for a different, non-blank e-mail. */
  predicate ChangesEmail(a: Account, req: AccountChanges)
  {
    !Blank(req.email) && req.email.value != a.email
  }

  /** Another account than `id` already holds `email`. */
  predicate EmailTakenByOther(accounts: map<int, Account>, id: int, email: string)
  {
    exists k :: k in accounts && k != id && accounts[k].email == email
  }

  /** The answer to an update that is refused, if it is refused. */
  function UpdateRejection(db: Tables, id: int, req: AccountChanges): (r: Option<Reply>)
    ensures r.None? <==>
      && id in db.accounts
      && !(ChangesEmail(db.accounts[id], req) && EmailTakenByOther(db.accounts, id, req.email.value))
      && KnownOrAbsent(req.typeId, db.accountTypes) && KnownOrAbsent(req.categoryId, db.categories)
      && (Blank(req.password) || |req.password.value| >= 6)
    ensures r.Some? ==> r.value == (if id !in db.accounts then BadRequest(404) else BadRequest(400))
  {
    if id !in db.accounts then Some(BadRequest(404))
    else if ChangesEmail(db.accounts[id], req) && EmailTakenByOther(db.accounts, id, req.email.value) then Some(BadRequest(400))
    else if !KnownOrAbsent(req.typeId, db.accountTypes) then Some(BadRequest(400))
    else if !KnownOrAbsent(req.categoryId, db.categories) then Some(BadRequest(400))
    else if !Blank(req.password) && |req.password.value| < 6 then Some(BadRequest(400))
    else None
  }

  /** The password hash after the update: replaced only for a non-blank password. */
  function NewHash(given: Option<string>, current: string, hash: Hasher): string
  {
    if Blank(given) then current else hash(given.value)
  }

  /** The e-mail after the update: replaced only by a different, non-blank address. */
  function NewEmail(a: Account, req: AccountChanges): string
  {
    if ChangesEmail(a, req) then req.email.value else a.email
  }

  /**
   * The account after an accepted update: name and password only when non-blank,
   * e-mail only when it changes, the other fields whenever they are given.
   */
  function AccountUpdated(a: Account, req: AccountChanges, hash: Hasher): (r: Account)
    ensures r.email == (if ChangesEmail(a, req) then req.email.value else a.email)
    ensures r.passwordHash == (if Blank(req.password) then a.passwordHash else hash(req.password.value))
    ensures r.name == (if Blank(req.name) then a.name else req.name)
    ensures r.phone == (if req.phone.None? then a.phone else req.phone)
    ensures r.address == (if req.address.None? then a.address else req.address)
    ensures r.avatar == (if req.avatar.None? then a.avatar else req.avatar)
    ensures r.active == (if req.active.None? then a.active else req.active)
    ensures r.typeId == (if req.typeId.None? then a.typeId else req.typeId)
    ensures r.categoryId == (if req.categoryId.None? then a.categoryId else req.categoryId)
    ensures r.createdAt == a.createdAt && r.otp == a.otp
  {
    Account(NonBlankOr(req.name, a.name), NewEmail(a, req), NewHash(req.password, a.passwordHash, hash),
            GivenOr(req.phone, a.phone), GivenOr(req.address, a.address), GivenOr(req.avatar, a.avatar),
            a.createdAt, GivenOr(req.active, a.active), GivenOr(req.typeId, a.typeId),
            GivenOr(req.categoryId, a.categoryId), a.otp)
  }

  /** `UpdateTaiKhoan`: the fields are changed on the tracked row, and saved only if every check passes. */
  method UpdateAccount(ctx: ShopContext, id: int, req: AccountChanges, hash: Hasher) returns (reply: Reply)
    modifies ctx
    ensures UpdateRejection(old(ctx.db), id, req).Some? ==>
      reply == UpdateRejection(old(ctx.db), id, req).value && ctx.db == old(ctx.db)
    ensures UpdateRejection(old(ctx.db), id, req).None? ==>
      reply == OkReply
      && ctx.db == old(ctx.db).(accounts := old(ctx.db).accounts[id := AccountUpdated(old(ctx.db).accounts[id], req, hash)])
  {
    var db := ctx.db;
    if id !in db.accounts {
      return BadRequest(404);
    }
    var a := db.accounts[id];
    if ChangesEmail(a, req) && exists k :: k in db.accounts && k != id && db.accounts[k].email == req.email.value {
      return BadRequest(400);
    }
    a := a.(email := NewEmail(a, req));
    if req.typeId.Some? && req.typeId.value !in db.accountTypes {
      return BadRequest(400);
    }
    a := a.(typeId := GivenOr(req.typeId, a.typeId));
    if req.categoryId.Some? && req.categoryId.value !in db.categories {
      return BadRequest(400);
    }
    a := a.(categoryId := GivenOr(req.categoryId, a.categoryId));
    a := a.(name := NonBlankOr(req.name, a.name));
    a := a.(phone := GivenOr(req.phone, a.phone));
    a := a.(address := GivenOr(req.address, a.address));
    a := a.(avatar := GivenOr(req.avatar, a.avatar));
    a := a.(active := GivenOr(req.active, a.active));
    if !Blank(req.password) && |req.password.value| < 6 {
      return BadRequest(400);
    }
    a := a.(passwordHash := NewHash(req.password, a.passwordHash, hash));
    ctx.SaveChanges(db.(accounts := db.accounts[id := a]));
    return OkReply;
  }

  /** An accepted update keeps e-mail addresses unique. */
  lemma UpdateKeepsUniqueEmails(db: Tables, id: int, req: AccountChanges, hash: Hasher)
    requires UniqueEmails(db.accounts) && UpdateRejection(db, id, req).None?
    ensures UniqueEmails(db.accounts[id := AccountUpdated(db.accounts[id], req, hash)])
  {
    var r := db.accounts[id := AccountUpdated(db.accounts[id], req, hash)];
    forall a, b | a in r && b in r && a != b
      ensures r[a].email != r[b].email
    {
      if a != id && b != id {
        assert r[a] == db.accounts[a] && r[b] == db.accounts[b];
      }
    }
  }

  // ---------------------------------------------------------------------------
  // Delete
  // ---------------------------------------------------------------------------

  /** Some order belongs to the account. */
  predicate HasOrders(db: Tables, id: int)
  {
    exists k :: k in db.orders && db.orders[k].accountId == id
  }

  /** Every order belongs to an account that exists. */
  predicate OrdersOwned(db: Tables)
  {
    forall k :: k in db.orders ==> db.orders[k].accountId in db.accounts
  }

  /** Some cart, review or message (sent or received) refers to the account. */
  predicate HasOtherRows(db: Tables, id: int)
  {
    || (exists k :: k in db.carts && db.carts[k].accountId == id)
    || (exists k :: k in db.reviews && db.reviews[k].accountId == id)
    || (exists k :: k in db.messages && (db.messages[k].senderId == id || db.messages[k].recipientId == id))
  }

  /**
   * The store refuses to remove the account: a cart, review or message still refers to
   * it, and none of those references has a cascading delete.
   */
  predicate DeleteRefused(db: Tables, id: int)
  {
    !HasOrders(db, id) && HasOtherRows(db, id)
  }

  /** Every order, cart, review and message names existing accounts. */
  predicate AccountRefsValid(db: Tables)
  {
    && OrdersOwned(db)
    && (forall k :: k in db.carts ==> db.carts[k].accountId in db.accounts)
    && (forall k :: k in db.reviews ==> db.reviews[k].accountId in db.accounts)
    && (forall k :: k in db.messages ==> db.messages[k].senderId in db.accounts && db.messages[k].recipientId in db.accounts)
  }

  /** The state after a delete: an account with orders is locked, any other one removed. */
  function AccountDeleted(db: Tables, id: int): (r: Tables)
    requires id in db.accounts
    ensures r == db.(accounts := r.accounts)
    ensures forall a :: a in r.accounts <==> a in db.accounts && (a != id || HasOrders(db, id))
  {
    if HasOrders(db, id) then db.(accounts := db.accounts[id := db.accounts[id].(active := Some(false))])
    else db.(accounts := db.accounts - {id})
  }

  /**
   * `DeleteTaiKhoan`: 404 for an unknown account, else locks or removes it. Removing an
   * account that still has a cart, a review or a message makes the save fail, which is
   * answered 400 with nothing saved.
   */
  method DeleteAccount(ctx: ShopContext, id: int) returns (reply: Reply)
    modifies ctx
    ensures id !in old(ctx.db).accounts ==> reply == BadRequest(404) && ctx.db == old(ctx.db)
    ensures id in old(ctx.db).accounts && DeleteRefused(old(ctx.db), id) ==> reply == BadRequest(400) && ctx.db == old(ctx.db)
    ensures id in old(ctx.db).accounts && !DeleteRefused(old(ctx.db), id) ==>
      reply == OkReply && ctx.db == AccountDeleted(old(ctx.db), id)
  {
    var db := ctx.db;
    if id !in db.accounts {
      return BadRequest(404);
    }
    if exists k :: k in db.orders && db.orders[k].accountId == id {
      ctx.SaveChanges(db.(accounts := db.accounts[id := db.accounts[id].(active := Some(false))]));
      return OkReply;
    }
    if || (exists k :: k in db.carts && db.carts[k].accountId == id)
       || (exists k :: k in db.reviews && db.reviews[k].accountId == id)
       || (exists k :: k in db.messages && (db.messages[k].senderId == id || db.messages[k].recipientId == id))
    {
      return BadRequest(400);
    }
    ctx.SaveChanges(db.(accounts := db.accounts - {id}));
    return OkReply;
  }

  /** Deleting never leaves an order without its account. */
  lemma DeleteKeepsOrdersOwned(db: Tables, id: int)
    requires id in db.accounts && OrdersOwned(db)
    ensures OrdersOwned(AccountDeleted(db, id))
  {
    if !HasOrders(db, id) {
      var r := db.(accounts := db.accounts - {id});
      forall k | k in db.orders
        ensures db.orders[k].accountId in r.accounts
      {
        assert db.orders[k].accountId != id;
      }
    }
  }

  /** A delete the store accepts leaves no order, cart, review or message without its account. */
  lemma DeleteKeepsAccountRefs(db: Tables, id: int)
    requires id in db.accounts && AccountRefsValid(db) && !DeleteRefused(db, id)
    ensures AccountRefsValid(AccountDeleted(db, id))
  {
    DeleteKeepsOrdersOwned(db, id);
    if !HasOrders(db, id) {
      OtherRowsKeepAccounts(db, id, AccountDeleted(db, id).accounts);
    }
  }

  /** Removing the account regardless would leave a cart, review or message naming no account. */
  lemma RefusedDeleteWouldDangle(db: Tables, id: int)
    requires id in db.accounts && DeleteRefused(db, id)
    ensures !AccountRefsValid(db.(accounts := db.accounts - {id}))
  {
    var r := db.(accounts := db.accounts - {id});
    if k :| k in db.carts && db.carts[k].accountId == id {
      assert r.carts[k].accountId !in r.accounts;
    } else if k :| k in db.reviews && db.reviews[k].accountId == id {
      assert r.reviews[k].accountId !in r.accounts;
    } else {
      var k :| k in db.messages && (db.messages[k].senderId == id || db.messages[k].recipientId == id);
      assert r.messages[k].senderId !in r.accounts || r.messages[k].recipientId !in r.accounts;
    }
  }

  /** With no row of its own, removing an account leaves every cart, review and message its accounts. */
  lemma OtherRowsKeepAccounts(db: Tables, id: int, accounts: map<int, Account>)
    requires AccountRefsValid(db) && !HasOtherRows(db, id)
    requires forall a :: a in db.accounts && a != id ==> a in accounts
    ensures forall k :: k in db.carts ==> db.carts[k].accountId in accounts
    ensures forall k :: k in db.reviews ==> db.reviews[k].accountId in accounts
    ensures forall k :: k in db.messages ==> db.messages[k].senderId in accounts && db.messages[k].recipientId in accounts
  {
    forall k | k in db.carts
      ensures db.carts[k].accountId in accounts
    {
      assert db.carts[k].accountId != id;
    }
    forall k | k in db.reviews
      ensures db.reviews[k].accountId in accounts
    {
      assert db.reviews[k].accountId != id;
    }
    forall k | k in db.messages
      ensures db.messages[k].senderId in accounts && db.messages[k].recipientId in accounts
    {
      assert db.messages[k].senderId != id && db.messages[k].recipientId != id;
    }
  }

  /** Whether locked or removed, a deleted account can no longer log in. */
  lemma DeletedCannotLogin(db: Tables, id: int, password: Option<string>, hash: Hasher)
    requires id in db.accounts
    ensures Login(AccountDeleted(db, id), db.accounts[id].email, password, hash).1 != Some(id)
  {
    if HasOrders(db, id) {
      var r := db.(accounts := db.accounts[id := db.accounts[id].(active := Some(false))]);
      assert !IsActive(r.accounts[id]);
      assert Login(r, db.accounts[id].email, password, hash).1 != Some(id);
    } else {
      var r := db.(accounts := db.accounts - {id});
      assert id !in r.accounts;
      assert Login(r, db.accounts[id].email, password, hash).1 != Some(id);
    }
  }
}
