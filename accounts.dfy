// The customer's account handlers: registration, login, password change, profile
// update, and the password reset by one-time code (OTP) sent by e-mail.
module Accounts {
  import opened Common
  import opened Entities

  /** `HashPassword`: SHA-256 of the UTF-8 bytes, in Base64; an opaque function here. */
  type Hasher = string -> string

  /** The name of the account type registration gives. */
  const CustomerTypeName := "Khách hàng"

  /** The ids of the accounts registered with `email`. */
  function AccountsWithEmail(accounts: map<int, Account>, email: string): (ids: set<int>)
    ensures forall k :: k in ids <==> k in accounts && accounts[k].email == email
  {
    set k | k in accounts && accounts[k].email == email
  }

  /** The account `FirstOrDefault(tk => tk.Email == email)` finds: the least id with that e-mail. */
  function AccountByEmail(accounts: map<int, Account>, email: string): (r: Option<int>)
    ensures r.None? <==> AccountsWithEmail(accounts, email) == {}
    ensures r.Some? ==> r.value in accounts && accounts[r.value].email == email
  {
    var ids := AccountsWithEmail(accounts, email);
    if ids == {} then None else Some(MinOf(ids))
  }

  /** No two accounts share an e-mail address (the unique index on `Email`). */
  predicate UniqueEmails(accounts: map<int, Account>)
  {
    forall a, b :: a in accounts && b in accounts && a != b ==> accounts[a].email != accounts[b].email
  }

  /** With unique e-mails, the account found by e-mail is the one holding it. */
  lemma FoundByEmail(accounts: map<int, Account>, id: int)
    requires UniqueEmails(accounts) && id in accounts
    ensures AccountByEmail(accounts, accounts[id].email) == Some(id)
  {
    var ids := AccountsWithEmail(accounts, accounts[id].email);
    forall k | k in ids
      ensures k == id
    {
    }
    assert ids == {id};
  }

  /** A password the handlers accept: not blank and at least 6 characters. */
  predicate ValidPassword(p: Option<string>)
  {
    !Blank(p) && |p.value| >= 6
  }

  /** The account may log in and ask for a code: `TrangThai == true`. */
  predicate IsActive(a: Account)
  {
    a.active == Some(true)
  }

  // ---------------------------------------------------------------------------
  // Registration
  // ---------------------------------------------------------------------------

  /** `DangKyDTO`. */
  datatype Registration = Registration(name: string, email: string, password: Option<string>, phone: Option<string>, address: Option<string>)

  /** The ids of the account types registration recognises as the customer type. */
  function CustomerTypes(types: map<int, AccountType>): (ids: set<int>)
    ensures forall k :: k in ids <==> k in types && (types[k].name == CustomerTypeName || types[k].name == "Customer")
  {
    set k | k in types && (types[k].name == CustomerTypeName || types[k].name == "Customer")
  }

  /** The customer type's id: the first one found, or the id a new one gets. */
  function CustomerTypeId(types: map<int, AccountType>): int
  {
    var ids := CustomerTypes(types);
    if ids == {} then FreshId(types.Keys) else MinOf(ids)
  }

  /** The account types after the lookup: a customer type is added when none exists. */
  function WithCustomerType(types: map<int, AccountType>): (r: map<int, AccountType>)
    ensures CustomerTypeId(types) in r
    ensures CustomerTypes(types) != {} ==> r == types
    ensures CustomerTypes(types) == {} ==>
      CustomerTypeId(types) !in types && r == types[CustomerTypeId(types) := AccountType(CustomerTypeName)]
  {
    if CustomerTypes(types) == {} then types[FreshId(types.Keys) := AccountType(CustomerTypeName)] else types
  }

  /** The answer to a registration that is refused, if it is refused. */
  function RegisterRejection(db: Tables, req: Registration): (r: Option<Reply>)
    ensures r.None? <==> AccountsWithEmail(db.accounts, req.email) == {} && ValidPassword(req.password)
    ensures r.Some? ==> r.value == BadRequest(400)
  {
    if AccountsWithEmail(db.accounts, req.email) != {} then Some(BadRequest(400))
    else if !ValidPassword(req.password) then Some(BadRequest(400))
    else None
  }

  /** The state after an accepted registration: the customer type ensured and the new active account. */
  function Registered(db: Tables, req: Registration, hash: Hasher, clock: Clock): Tables
    requires req.password.Some?
  {
    db.(accountTypes := WithCustomerType(db.accountTypes),
        accounts := db.accounts[FreshId(db.accounts.Keys) :=
          Account(Some(req.name), req.email, hash(req.password.value), req.phone, req.address, None,
                  Some(clock.now), Some(true), Some(CustomerTypeId(db.accountTypes)), None, None)])
  }

  /**
   * `DangKy`: refuses an e-mail in use, then a blank or short password; otherwise
   * saves the customer type if it is missing, and then the new account.
   */
  method Register(ctx: ShopContext, req: Registration, hash: Hasher, clock: Clock) returns (reply: Reply, accountId: Option<int>)
    modifies ctx
    ensures RegisterRejection(old(ctx.db), req).Some? ==>
      reply == BadRequest(400) && accountId.None? && ctx.db == old(ctx.db)
    ensures RegisterRejection(old(ctx.db), req).None? ==>
      && reply == OkReply && accountId == Some(FreshId(old(ctx.db).accounts.Keys))
      && ctx.db == Registered(old(ctx.db), req, hash, clock)
  {
    var db := ctx.db;
    if AccountsWithEmail(db.accounts, req.email) != {} {
      return BadRequest(400), None;
    }
    if Blank(req.password) || |req.password.value| < 6 {
      return BadRequest(400), None;
    }
    var digest := hash(req.password.value);
    var found := CustomerTypes(db.accountTypes);
    var typeId: int;
    if found == {} {
      typeId := FreshId(db.accountTypes.Keys);
      db := db.(accountTypes := db.accountTypes[typeId := AccountType(CustomerTypeName)]);
      ctx.SaveChanges(db);
    } else {
      typeId := MinOf(found);
    }
    var id := FreshId(db.accounts.Keys);
    db := db.(accounts := db.accounts[id := Account(Some(req.name), req.email, digest, req.phone, req.address, None,
                                                    Some(clock.now), Some(true), Some(typeId), None, None)]);
    ctx.SaveChanges(db);
    return OkReply, Some(id);
  }

  /** Registration keeps e-mail addresses unique, and the new account can log in with its password. */
  lemma RegisterThenLogin(db: Tables, req: Registration, hash: Hasher, clock: Clock)
    requires UniqueEmails(db.accounts)
    requires RegisterRejection(db, req).None?
    ensures var r := Registered(db, req, hash, clock);
      && UniqueEmails(r.accounts)
      && Login(r, req.email, req.password, hash) == (OkReply, Some(FreshId(db.accounts.Keys)))
  {
    var r := Registered(db, req, hash, clock);
    var id := FreshId(db.accounts.Keys);
    assert AccountsWithEmail(r.accounts, req.email) == {id};
  }

  // ---------------------------------------------------------------------------
  // Login and password change
  // ---------------------------------------------------------------------------

  /** The ids of the accounts with this e-mail and password hash. */
  function Matching(accounts: map<int, Account>, email: string, digest: string): (ids: set<int>)
    ensures forall k :: k in ids <==> k in accounts && accounts[k].email == email && accounts[k].passwordHash == digest
  {
    set k | k in accounts && accounts[k].email == email && accounts[k].passwordHash == digest
  }

  /**
   * `DangNhap`: the account whose e-mail and password hash match, when it is active;
   * no match and a locked account are both answered 401. Hashing a missing password
   * throws, which is answered 400.
   */
  function Login(db: Tables, email: string, password: Option<string>, hash: Hasher): (r: (Reply, Option<int>))
    ensures r.0 == OkReply <==> r.1.Some?
    ensures r.1.Some? ==>
      && password.Some? && r.1.value in db.accounts
      && db.accounts[r.1.value].email == email && db.accounts[r.1.value].passwordHash == hash(password.value)
      && IsActive(db.accounts[r.1.value])
    ensures r.1.None? ==> r.0 == (if password.None? then BadRequest(400) else UnauthorizedReply)
  {
    if password.None? then (BadRequest(400), None)
    else
      var ids := Matching(db.accounts, email, hash(password.value));
      if ids == {} then (UnauthorizedReply, None)
      else if !IsActive(db.accounts[MinOf(ids)]) then (UnauthorizedReply, None)
      else (OkReply, Some(MinOf(ids)))
  }

  /**
   * With unique e-mails, the right password for account `k` logs into `k` when it is
   * active and is answered 401 when it is locked.
   */
  lemma LoginFindsAccount(db: Tables, email: string, password: Option<string>, hash: Hasher, k: int)
    requires UniqueEmails(db.accounts) && k in db.accounts && password.Some?
    requires db.accounts[k].email == email && db.accounts[k].passwordHash == hash(password.value)
    ensures Login(db, email, password, hash) ==
      (if IsActive(db.accounts[k]) then (OkReply, Some(k)) else (UnauthorizedReply, None))
  {
    var ids := Matching(db.accounts, email, hash(password.value));
    forall j | j in ids
      ensures j == k
    {
    }
    assert ids == {k};
  }

  /** The answer to a password change that is refused, if it is refused. */
  function ChangeRejection(db: Tables, accountId: int, oldPassword: Option<string>, newPassword: Option<string>, hash: Hasher)
    : (r: Option<Reply>)
    ensures r.None? <==>
      && accountId in db.accounts && oldPassword.Some?
      && db.accounts[accountId].passwordHash == hash(oldPassword.value) && ValidPassword(newPassword)
    ensures r.Some? ==> r.value == (if accountId !in db.accounts then UnauthorizedReply else BadRequest(400))
  {
    if accountId !in db.accounts then Some(UnauthorizedReply)
    else if oldPassword.None? then Some(BadRequest(400))
    else if db.accounts[accountId].passwordHash != hash(oldPassword.value) then Some(BadRequest(400))
    else if !ValidPassword(newPassword) then Some(BadRequest(400))
    else None
  }

  /** The accounts after account `id` got a new password hash. */
  function WithPassword(accounts: map<int, Account>, id: int, digest: string): map<int, Account>
    requires id in accounts
  {
    accounts[id := accounts[id].(passwordHash := digest)]
  }

  /** `DoiMatKhau`: replaces the password hash when the old password matches and the new one is valid. */
  method ChangePassword(ctx: ShopContext, accountId: int, oldPassword: Option<string>, newPassword: Option<string>, hash: Hasher)
    returns (reply: Reply)
    modifies ctx
    ensures ChangeRejection(old(ctx.db), accountId, oldPassword, newPassword, hash).Some? ==>
      reply == ChangeRejection(old(ctx.db), accountId, oldPassword, newPassword, hash).value && ctx.db == old(ctx.db)
    ensures ChangeRejection(old(ctx.db), accountId, oldPassword, newPassword, hash).None? ==>
      reply == OkReply
      && ctx.db == old(ctx.db).(accounts := WithPassword(old(ctx.db).accounts, accountId, hash(newPassword.value)))
  {
    var db := ctx.db;
    if accountId !in db.accounts {
      return UnauthorizedReply;
    }
    if oldPassword.None? {
      return BadRequest(400);
    }
    if db.accounts[accountId].passwordHash != hash(oldPassword.value) {
      return BadRequest(400);
    }
    if Blank(newPassword) || |newPassword.value| < 6 {
      return BadRequest(400);
    }
    ctx.SaveChanges(db.(accounts := WithPassword(db.accounts, accountId, hash(newPassword.value))));
    return OkReply;
  }

  /** After a password change an active account logs in with the new password. */
  lemma ChangedPasswordLogsIn(db: Tables, accountId: int, oldPassword: Option<string>, newPassword: Option<string>, hash: Hasher)
    requires UniqueEmails(db.accounts)
    requires ChangeRejection(db, accountId, oldPassword, newPassword, hash).None?
    requires IsActive(db.accounts[accountId])
    ensures var r := db.(accounts := WithPassword(db.accounts, accountId, hash(newPassword.value)));
      Login(r, db.accounts[accountId].email, newPassword, hash) == (OkReply, Some(accountId))
  {
    var r := db.(accounts := WithPassword(db.accounts, accountId, hash(newPassword.value)));
    var ids := Matching(r.accounts, db.accounts[accountId].email, hash(newPassword.value));
    forall k | k in ids
      ensures k == accountId
    {
    }
    assert ids == {accountId};
  }

  // ---------------------------------------------------------------------------
  // Profile
  // ---------------------------------------------------------------------------

  /** `TaiKhoanUpdateDTO`. */
  datatype ProfileUpdate = ProfileUpdate(name: Option<string>, phone: Option<string>, address: Option<string>, avatar: Option<string>)

  /** The avatar text is an inline image to upload rather than a URL to keep. */
  predicate IsInlineImage(s: string)
  {
    StartsWith(s, "data:image/") || StartsWith(s, "/9j/") || StartsWith(s, "iVBORw0KGgo")
  }

  /**
   * The avatar after an update: unchanged for a blank value; the uploaded image's URL
   * for an inline image (the upload's outcome is given); the value itself otherwise.
   * A failed upload is `Thrown`.
   */
  function NewAvatar(current: Option<string>, given: Option<string>, upload: Outcome<string>): (r: Outcome<Option<string>>)
    ensures Blank(given) ==> r == Returned(current)
    ensures !Blank(given) && !IsInlineImage(given.value) ==> r == Returned(given)
    ensures r.Thrown? <==> !Blank(given) && IsInlineImage(given.value) && upload.Thrown?
  {
    if Blank(given) then Returned(current)
    else if IsInlineImage(given.value) then
      if upload.Thrown? then Thrown else Returned(Some(upload.value))
    else Returned(given)
  }

  /** The account after a profile update: each text field replaced only by a non-blank value. */
  function ProfileUpdated(a: Account, req: ProfileUpdate, avatar: Option<string>): (r: Account)
    ensures r.name == (if Blank(req.name) then a.name else req.name)
    ensures r.phone == (if Blank(req.phone) then a.phone else req.phone)
    ensures r.address == (if Blank(req.address) then a.address else req.address)
    ensures r.avatar == avatar
    ensures r.email == a.email && r.passwordHash == a.passwordHash && r.active == a.active && r.otp == a.otp
    ensures r.createdAt == a.createdAt && r.typeId == a.typeId && r.categoryId == a.categoryId
  {
    var a1 := if !Blank(req.name) then a.(name := req.name) else a;
    var a2 := if !Blank(req.phone) then a1.(phone := req.phone) else a1;
    var a3 := if !Blank(req.address) then a2.(address := req.address) else a2;
    a3.(avatar := avatar)
  }

  /**
   * `CapNhatThongTin`: an unknown account is answered 401; a failed avatar upload is
   * answered 400 and no field change is saved; otherwise the non-blank fields are saved.
   */
  method UpdateProfile(ctx: ShopContext, accountId: int, req: ProfileUpdate, upload: Outcome<string>) returns (reply: Reply)
    modifies ctx
    ensures accountId !in old(ctx.db).accounts ==> reply == UnauthorizedReply && ctx.db == old(ctx.db)
    ensures accountId in old(ctx.db).accounts ==>
      var avatar := NewAvatar(old(ctx.db).accounts[accountId].avatar, req.avatar, upload);
      && (avatar.Thrown? ==> reply == BadRequest(400) && ctx.db == old(ctx.db))
      && (avatar.Returned? ==>
            reply == OkReply
            && ctx.db == old(ctx.db).(accounts := old(ctx.db).accounts[accountId :=
                 ProfileUpdated(old(ctx.db).accounts[accountId], req, avatar.value)]))
  {
    var db := ctx.db;
    if accountId !in db.accounts {
      return UnauthorizedReply;
    }
    var a := db.accounts[accountId];
    if !Blank(req.name) {
      a := a.(name := req.name);
    }
    if !Blank(req.phone) {
      a := a.(phone := req.phone);
    }
    if !Blank(req.address) {
      a := a.(address := req.address);
    }
    if !Blank(req.avatar) {
      if IsInlineImage(req.avatar.value) {
        if upload.Thrown? {
          return BadRequest(400);
        }
        a := a.(avatar := Some(upload.value));
      } else {
        a := a.(avatar := req.avatar);
      }
    }
    ctx.SaveChanges(db.(accounts := db.accounts[accountId := a]));
    return OkReply;
  }

  /** `CapNhatAnhDaiDien`: the same avatar rule alone. */
  method UpdateAvatar(ctx: ShopContext, accountId: int, given: Option<string>, upload: Outcome<string>) returns (reply: Reply)
    modifies ctx
    ensures accountId !in old(ctx.db).accounts ==> reply == UnauthorizedReply && ctx.db == old(ctx.db)
    ensures accountId in old(ctx.db).accounts ==>
      var avatar := NewAvatar(old(ctx.db).accounts[accountId].avatar, given, upload);
      && (avatar.Thrown? ==> reply == BadRequest(400) && ctx.db == old(ctx.db))
      && (avatar.Returned? ==>
            reply == OkReply
            && ctx.db == old(ctx.db).(accounts := old(ctx.db).accounts[accountId :=
                 old(ctx.db).accounts[accountId].(avatar := avatar.value)]))
  {
    var db := ctx.db;
    if accountId !in db.accounts {
      return UnauthorizedReply;
    }
    var avatar := NewAvatar(db.accounts[accountId].avatar, given, upload);
    if avatar.Thrown? {
      return BadRequest(400);
    }
    ctx.SaveChanges(db.(accounts := db.accounts[accountId := db.accounts[accountId].(avatar := avatar.value)]));
    return OkReply;
  }

  // ---------------------------------------------------------------------------
  // Password reset by one-time code
  // ---------------------------------------------------------------------------

  /** The range `Random.Next(100000, 999999)` draws from: the upper bound is exclusive. */
  predicate OtpInRange(code: int)
  {
    100000 <= code <= 999998
  }

  /** The accounts after account `id`'s code column was set. */
  function WithCode(accounts: map<int, Account>, id: int, code: Option<string>): map<int, Account>
    requires id in accounts
  {
    accounts[id := accounts[id].(otp := code)]
  }

  /**
   * `GuiOTP`: for an unknown e-mail or a locked account, 400 and no write. Otherwise
   * the code is saved; if the e-mail then fails (`emailSent` false) the code is
   * cleared again and the answer is 500. `code` is the random draw.
   */
  method SendOtp(ctx: ShopContext, email: string, code: int, emailSent: bool) returns (reply: Reply)
    requires OtpInRange(code)
    modifies ctx
    ensures AccountByEmail(old(ctx.db).accounts, email).None? ==> reply == BadRequest(400) && ctx.db == old(ctx.db)
    ensures AccountByEmail(old(ctx.db).accounts, email).Some? ==>
      var id := AccountByEmail(old(ctx.db).accounts, email).value;
      && (!IsActive(old(ctx.db).accounts[id]) ==> reply == BadRequest(400) && ctx.db == old(ctx.db))
      && (IsActive(old(ctx.db).accounts[id]) && emailSent ==>
            reply == OkReply && ctx.db == old(ctx.db).(accounts := WithCode(old(ctx.db).accounts, id, Some(IntText(code)))))
      && (IsActive(old(ctx.db).accounts[id]) && !emailSent ==>
            reply == ServerErrorReply && ctx.db == old(ctx.db).(accounts := WithCode(old(ctx.db).accounts, id, None)))
  {
    var db := ctx.db;
    var found := AccountByEmail(db.accounts, email);
    if found.None? {
      return BadRequest(400);
    }
    var id := found.value;
    if !IsActive(db.accounts[id]) {
      return BadRequest(400);
    }
    db := db.(accounts := WithCode(db.accounts, id, Some(IntText(code))));
    ctx.SaveChanges(db);
    if !emailSent {
      db := db.(accounts := WithCode(db.accounts, id, None));
      ctx.SaveChanges(db);
      return ServerErrorReply;
    }
    return OkReply;
  }

  /** `XacNhanOTP`: accepts the code stored for the e-mail's account, and leaves it stored. */
  function VerifyOtp(db: Tables, email: string, code: Option<string>): (r: Reply)
    ensures r == OkReply <==>
      && AccountByEmail(db.accounts, email).Some?
      && !Blank(db.accounts[AccountByEmail(db.accounts, email).value].otp)
      && db.accounts[AccountByEmail(db.accounts, email).value].otp == code
    ensures r != OkReply ==> r == BadRequest(400)
  {
    var found := AccountByEmail(db.accounts, email);
    if found.None? then BadRequest(400)
    else if Blank(db.accounts[found.value].otp) then BadRequest(400)
    else if db.accounts[found.value].otp != code then BadRequest(400)
    else OkReply
  }

  /** The answer to a reset that is refused, if it is refused. */
  function ResetRejection(db: Tables, email: string, code: Option<string>, newPassword: Option<string>): (r: Option<Reply>)
    ensures r.None? <==> VerifyOtp(db, email, code) == OkReply && ValidPassword(newPassword)
    ensures r.Some? ==> r.value == BadRequest(400)
  {
    if VerifyOtp(db, email, code) != OkReply then Some(BadRequest(400))
    else if !ValidPassword(newPassword) then Some(BadRequest(400))
    else None
  }

  /** The state after an accepted reset: the new password hash, and the code cleared. */
  function PasswordReset(db: Tables, email: string, newPassword: Option<string>, hash: Hasher): Tables
    requires AccountByEmail(db.accounts, email).Some? && newPassword.Some?
  {
    var id := AccountByEmail(db.accounts, email).value;
    db.(accounts := db.accounts[id := db.accounts[id].(passwordHash := hash(newPassword.value), otp := None)])
  }

  /** `DoiMatKhauQuen`: with the stored code and a valid new password, sets the password and clears the code. */
  method ResetPassword(ctx: ShopContext, email: string, code: Option<string>, newPassword: Option<string>, hash: Hasher)
    returns (reply: Reply)
    modifies ctx
    ensures ResetRejection(old(ctx.db), email, code, newPassword).Some? ==> reply == BadRequest(400) && ctx.db == old(ctx.db)
    ensures ResetRejection(old(ctx.db), email, code, newPassword).None? ==>
      reply == OkReply && ctx.db == PasswordReset(old(ctx.db), email, newPassword, hash)
  {
    var db := ctx.db;
    var found := AccountByEmail(db.accounts, email);
    if found.None? {
      return BadRequest(400);
    }
    var a := db.accounts[found.value];
    if Blank(a.otp) {
      return BadRequest(400);
    }
    if a.otp != code {
      return BadRequest(400);
    }
    if Blank(newPassword) || |newPassword.value| < 6 {
      return BadRequest(400);
    }
    a := a.(passwordHash := hash(newPassword.value));
    a := a.(otp := None);
    ctx.SaveChanges(db.(accounts := db.accounts[found.value := a]));
    return OkReply;
  }

  /** Only the account's code column changes, so the e-mail still finds the same account. */
  lemma CodeKeepsLookup(accounts: map<int, Account>, email: string, id: int, code: Option<string>)
    requires AccountByEmail(accounts, email) == Some(id)
    ensures AccountByEmail(WithCode(accounts, id, code), email) == Some(id)
  {
    assert AccountsWithEmail(WithCode(accounts, id, code), email) == AccountsWithEmail(accounts, email);
  }

  /**
   * The code life cycle: a code that was e-mailed verifies, and verifying leaves it
   * usable for the reset; a code whose e-mail failed is cleared and verifies no more.
   */
  lemma SentCodeVerifies(db: Tables, email: string, code: int)
    requires OtpInRange(code)
    requires AccountByEmail(db.accounts, email).Some?
    ensures var id := AccountByEmail(db.accounts, email).value;
      && VerifyOtp(db.(accounts := WithCode(db.accounts, id, Some(IntText(code)))), email, Some(IntText(code))) == OkReply
      && VerifyOtp(db.(accounts := WithCode(db.accounts, id, None)), email, Some(IntText(code))) == BadRequest(400)
  {
    var id := AccountByEmail(db.accounts, email).value;
    CodeKeepsLookup(db.accounts, email, id, Some(IntText(code)));
    CodeKeepsLookup(db.accounts, email, id, None);
    assert IntText(code) == DigitText(code);
    assert !IsWhiteSpace(IntText(code)[0]);
  }

  /** A reset consumes the code: the same code cannot reset the password again. */
  lemma ResetConsumesCode(db: Tables, email: string, code: Option<string>, newPassword: Option<string>, hash: Hasher,
                          again: Option<string>)
    requires ResetRejection(db, email, code, newPassword).None?
    ensures ResetRejection(PasswordReset(db, email, newPassword, hash), email, code, again) == Some(BadRequest(400))
  {
    var id := AccountByEmail(db.accounts, email).value;
    var r := PasswordReset(db, email, newPassword, hash);
    assert AccountsWithEmail(r.accounts, email) == AccountsWithEmail(db.accounts, email);
  }

  function Pow10(k: nat): nat
  {
    if k == 0 then 1 else 10 * Pow10(k - 1)
  }

  /** A number with `k` decimal digits is written with `k` characters. */
  lemma {:induction false} DigitTextLength(n: nat, k: nat)
    requires k >= 1 && Pow10(k - 1) <= n < Pow10(k)
    ensures |DigitText(n)| == k
  {
    if k > 1 {
      assert Pow10(k - 1) == 10 * Pow10(k - 2);
      assert n / 10 >= Pow10(k - 2);
      assert n / 10 < Pow10(k - 1);
      DigitTextLength(n / 10, k - 1);
    }
  }

  /** The stored code is six decimal digits, not starting with 0, that read back as the number drawn. */
  lemma OtpText(code: int)
    requires OtpInRange(code)
    ensures var t := IntText(code);
      |t| == 6 && AllDigits(t) && t[0] != '0' && DigitsValue(t) == code
  {
    assert Pow10(5) == 100000 && Pow10(6) == 1000000 by {
      assert Pow10(1) == 10 && Pow10(2) == 100 && Pow10(3) == 1000 && Pow10(4) == 10000;
    }
    DigitTextLength(code, 6);
    DigitTextValue(code);
    var t := IntText(code);
    if t[0] == '0' {
      LeadingDigit(code);
    }
  }

  /** `DigitText` never writes a leading zero for a positive number. */
  lemma {:induction false} LeadingDigit(n: nat)
    requires n > 0
    ensures DigitText(n)[0] != '0'
  {
    if n >= 10 {
      LeadingDigit(n / 10);
    }
  }
}
