# shopBanHang business layer in Dafny

This project models the business rules of the shopBanHang web shop backend (an ASP.NET Core
service over an Entity Framework database) and proves properties of them.
The database is one value, `Entities.Tables`, with one map per table from row id to record:
accounts, account types, categories, products, product images, specifications, carts, cart lines,
orders, order lines, payments, reviews and messages.
The object `Entities.ShopContext` holds it. Its `SaveChanges` commits the rows a handler has staged.
Each controller action is a method that `modifies` the context. It works on a staged copy, and an
early `return` before a `SaveChanges` discards what was staged since the last save. This is how
the handlers that answer an error after an earlier save are modelled: the earlier writes persist.

Each handler has three parts:
- a `…Rejection` function: the error answer, if there is one;
- a function giving the new store;
- the method, proved against both.

Lemmas then state what the handlers promise together:
- placing or creating an order and deleting it again;
- confirming a payment at most once;
- one review per account and product;
- unique e-mail addresses and category names;
- the one-time-code life cycle;
- references that stay valid after deletes.

The query endpoints are functions over the maps (`Queries`, `Catalog`, `Messages`) with proofs of
order, membership and paging.

The VNPAY gateway adapter (`Vnpay`, merchant API version 2.1.0) and the image-hosting helpers
(`Media`) are modelled down to the fields they read and write. The HMAC check, the password hash,
the upload and destroy calls, and the clock are parameters.

Conventions:
- A new row's id is one above the largest id in use (`Common.FreshId`). This is a choice of
  the model: a SQL Server identity column never hands out an id again, even after its row is
  deleted, while the model can. Every property proved needs only that the id is fresh, positive
  and above every live id.
- A query without ORDER BY returns rows in ascending id order.
- Where ORDER BY sorts on a key that several rows share, SQL Server leaves their order open. The
  model breaks such ties by ascending id.
- `Skip((page - 1) * pageSize).Take(pageSize)` runs in SQL Server as OFFSET / FETCH. The offset is
  computed in unchecked 32-bit `int` arithmetic. A negative offset or a fetch of no rows is a
  database error, which the list endpoints catch and answer with 400.
- `FirstOrDefault` without ordering finds the least matching id.
- Money is an integer number of dong.
- Time is an integer number of seconds. Its `yyyyMMddHHmmss` rendering is a function carried by the
  clock.

Modules, one per file:
- `Common`: options, outcomes, text, paging, ids, `int` narrowing;
- `Entities`: records, statuses, the context;
- `Stock`: order items, stock withdrawal and restocking, line snapshots;
- `Queries`: filtering, sorting and paging;
- `Carts`: `GioHangController`;
- `Orders`: `DonHangController`;
- `AdminOrders`: `QuanLyDonHangController`;
- `Payments`: `ThanhToanController`;
- `Reviews`: `DanhGiaController`;
- `Accounts`: `TaiKhoanController`;
- `AdminAccounts`: `QuanLyTaiKhoanController`;
- `AdminProducts`: `QuanLySanPhamController`;
- `AdminCategories`: `QuanLyDanhMucController`;
- `Catalog`: `SanPhamController`;
- `Messages`: `TinNhanController`;
- `Vnpay`: `Vnpay.cs` and the parts of its helper it uses;
- `Media`: `CloudinaryService`.

## Model

| member | source | states |
|---|---|---|
| Common.Trim | shopBanHang/Services/VnpayServices/Vnpay.cs:69 | `string.Trim()`: the input with only leading and trailing white space removed (a run `s[i..j]` with nothing but white space outside it), with no white space at either end, and empty exactly when the input is all white space |
| Common.Skip | shopBanHang/Controllers/QuanLy/QuanLyDanhMucController.cs:34 | `Skip(n)` as `OFFSET n ROWS`: refused exactly for a negative `n`; otherwise the rows after the first `n`, in order, none when `n` passes the end |
| Common.Take | shopBanHang/Controllers/QuanLy/QuanLyDanhMucController.cs:35 | `Take(n)` as `FETCH NEXT n ROWS ONLY`: refused exactly for `n <= 0`; otherwise the first `min(n, len)` rows, in order |
| Common.Page | shopBanHang/Controllers/QuanLy/QuanLyDanhMucController.cs:34-35 | refused exactly when the 32-bit offset `(page-1)*pageSize` is negative or `pageSize <= 0`; otherwise exactly `min(pageSize, n - lo)` rows, the run of the input starting at the offset `lo` (at most `n`) |
| Common.PageIsSlice | shopBanHang/Controllers/QuanLy/QuanLyDanhMucController.cs:34-35 | an accepted page is the slice `s[lo..lo+|page|]` of its input |
| Common.PageHolds | shopBanHang/Controllers/QuanLy/QuanLyDanhMucController.cs:34-35 | with a positive size, row `i` (below 2^31) is row `i % pageSize` of page `i / pageSize + 1`, which is accepted |
| Common.PageOffsetWraps | shopBanHang/Controllers/QuanLy/QuanLyDanhMucController.cs:34 | the offset is the 32-bit product of the 32-bit `page - 1` and the size, so page 1073741825 of 4 rows starts at offset 0 |
| Common.DigitText | shopBanHang/Controllers/TaiKhoanController.cs:394 | `ToString()` of a natural number: non-empty, all decimal digits |
| Common.DigitTextValue | shopBanHang/Controllers/TaiKhoanController.cs:394 | the digits written for `n` read back as `n` |
| Common.IntTextRoundTrip | shopBanHang/Services/VnpayServices/Vnpay.cs:72 | parsing the text `ToString()` writes for any integer gives the integer back |
| Common.ToInt32 | shopBanHang/Controllers/DonHangController.cs:221 | the unchecked `(int)` cast: a value in 32-bit range, congruent to the input modulo 2^32, and the input itself when it already fits |
| Common.FreshId | shopBanHang/Controllers/QuanLy/QuanLyDanhMucController.cs:122-123 | the model's id for an inserted row: positive, unused, and above every id in use |
| Common.SortedIds | shopBanHang/Controllers/GioHangController.cs:109 | rows read without ORDER BY: every id once, ascending |
| Entities.ParseOrderStatus | shopBanHang/Controllers/QuanLy/QuanLyDonHangController.cs:245-248 | a stored status text reads as a named status exactly when it spells one, and the text is kept either way |
| Entities.OrderStatusRoundTrip | shopBanHang/Controllers/QuanLy/QuanLyDonHangController.cs:245-248 | writing a status and reading it back gives the same status |
| Stock.Withdraw | shopBanHang/Controllers/DonHangController.cs:117-121 | `SoLuong -= qty` item by item: same products, each short by exactly the total quantity its items ask for |
| Stock.WithdrawKeepsPrices | shopBanHang/Controllers/DonHangController.cs:117-121 | withdrawing stock changes no product's price and no key |
| Stock.Restock | shopBanHang/Controllers/QuanLy/QuanLyDonHangController.cs:300-308 | `SoLuong += qty` line by line: each product up by exactly the total quantity of its lines |
| Stock.RestockUndoesWithdraw | shopBanHang/Controllers/QuanLy/QuanLyDonHangController.cs:203-219 | giving back what was withdrawn restores every product exactly |
| Stock.IdRange | shopBanHang/Controllers/QuanLy/QuanLyDonHangController.cs:216 | rows inserted one after another get the consecutive ids `base`, `base+1`, … |
| Stock.Snapshot | shopBanHang/Controllers/DonHangController.cs:105-115 | one order line per item under consecutive fresh ids, carrying the item's product and quantity and the product's price at that moment; existing lines untouched |
| Stock.SnapshotStep | shopBanHang/Controllers/DonHangController.cs:105-115 | one more item adds exactly its line under the next id |
| Stock.WithdrawStep | shopBanHang/Controllers/DonHangController.cs:117-121 | one more item changes only that item's product |
| Stock.RepeatedItemsOverdraw | shopBanHang/Controllers/QuanLy/QuanLyDonHangController.cs:161-177 | two items of one product, each within the stock of 1 at check time, together leave the stock at -1 |
| Stock.DistinctSellableKeepsStock | shopBanHang/Controllers/QuanLy/QuanLyDonHangController.cs:161-219 | with no product repeated, items that each pass the check never leave a stock negative |
| Stock.QtyOfDistinct | shopBanHang/Controllers/QuanLy/QuanLyDonHangController.cs:203-219 | with distinct products, a product's withdrawn quantity is that of its one item, or zero |
| Queries.Filter | shopBanHang/Controllers/QuanLy/QuanLySanPhamController.cs:26-40 | LINQ `Where`: exactly the accepted ids, no more than given, ascending when the input is |
| Queries.InsertByDate | shopBanHang/Controllers/QuanLy/QuanLySanPhamController.cs:45 | inserting into a date-ordered list keeps it ordered and adds exactly one id |
| Queries.SortByDate | shopBanHang/Controllers/QuanLy/QuanLySanPhamController.cs:45 | `OrderBy`/`OrderByDescending` on a nullable date (nulls lowest): date-ordered and a permutation of the input |
| Queries.PageByDate | shopBanHang/Controllers/QuanLy/QuanLySanPhamController.cs:45-47 | refused exactly as `Page` is; otherwise exactly the slice of `SortByDate(ids)` at the page start, of the exact page length, all ids of the input, in date order |
| Queries.PagesByDateCoverAll | shopBanHang/Controllers/QuanLy/QuanLySanPhamController.cs:45-47 | with a positive page size, every listed id (of fewer than 2^31) is on some accepted page |
| Queries.TextAtMostTotal | shopBanHang/Controllers/QuanLy/QuanLyDanhMucController.cs:33 | ordinal text order is total |
| Queries.TextAtMostTransitive | shopBanHang/Controllers/QuanLy/QuanLyDanhMucController.cs:33 | ordinal text order is transitive |
| Queries.InsertByName | shopBanHang/Controllers/QuanLy/QuanLyDanhMucController.cs:33 | inserting into a name-ordered list keeps it ordered and adds exactly one id |
| Queries.SortByName | shopBanHang/Controllers/QuanLy/QuanLyDanhMucController.cs:33 | `OrderBy` on a name: name-ordered and a permutation of the input |
| Queries.PageByName | shopBanHang/Controllers/QuanLy/QuanLyDanhMucController.cs:33-35 | refused exactly as `Page` is; otherwise exactly the slice of `SortByName(ids)` at the page start, of the exact page length, all ids of the input, in name order |
| Queries.TopByDate | shopBanHang/Controllers/SanPhamController.cs:23-26 | `OrderBy(date).Take(n)`: `min(n, count)` ids, in date order, and no id left out comes before an id taken |
| Carts.AccountCart | shopBanHang/Controllers/GioHangController.cs:50 | the cart `FirstOrDefault` finds: none exactly when the account has no cart, otherwise the account's own cart |
| Carts.LineFor | shopBanHang/Controllers/GioHangController.cs:63-64 | the line found for a product: none exactly when the cart holds no line of it |
| Carts.OnlyLine | shopBanHang/Controllers/GioHangController.cs:63-64 | with one line per product, the line found is the only one holding it |
| Carts.AddRejection | shopBanHang/Controllers/GioHangController.cs:25-47 | an add is refused before any write exactly for a non-positive quantity (400), an unknown account (401), an unknown product (404) or a quantity above the stock (400) |
| Carts.EnsureCart | shopBanHang/Controllers/GioHangController.cs:50-60 | the account's cart is created and saved when it has none, and the store is otherwise unchanged |
| Carts.AddedToCartEffects | shopBanHang/Controllers/GioHangController.cs:62-88 | after an accepted add the cart has exactly one line for the product holding the old quantity plus `qty`, other lines unchanged, and no cart has two lines for one product |
| Carts.AddToCart | shopBanHang/Controllers/GioHangController.cs:21-98 | the add handler: refusals write nothing; a merge over the stock answers 400 but keeps the cart saved at line 59; otherwise the merged or new line is saved |
| Carts.AddedWithinStock | shopBanHang/Controllers/GioHangController.cs:66-73 | after an accepted add the cart's quantity of the product is within its stock |
| Carts.RemoveFromCart | shopBanHang/Controllers/GioHangController.cs:146-175 | only a line of the caller's own cart is removed; any other id is answered 404 with no change |
| Carts.UpdateRejection | shopBanHang/Controllers/GioHangController.cs:181-202 | a quantity change is refused for a quantity below 1, a line outside the caller's cart, a missing product or a quantity above the stock |
| Carts.UpdateQuantity | shopBanHang/Controllers/GioHangController.cs:177-227 | an accepted change replaces (does not add to) the quantity and answers the cart's new total; a refused one writes nothing |
| Carts.EnsureCartKeepsWellFormed | shopBanHang/Controllers/GioHangController.cs:50-60 | creating the cart on first use keeps one cart per account |
| Carts.AddKeepsWellFormed | shopBanHang/Controllers/GioHangController.cs:62-88 | an accepted add keeps every cart at one line per product |
| Carts.RemoveAndSetKeepWellFormed | shopBanHang/Controllers/GioHangController.cs:158-205 | removing a line or changing its quantity keeps the carts well formed |
| Carts.ViewTotalOfLines | shopBanHang/Controllers/GioHangController.cs:121-122 | the total shown is the value of the lines shown at current prices, missing products counting 0 |
| Carts.ViewCart | shopBanHang/Controllers/GioHangController.cs:100-144 | the cart page: without a cart, id 0, no lines and total 0; otherwise the account's cart and one entry per line of that cart, each line exactly once, in ascending line id, each entry the view of its line (product name, price, first image, stock), and a total equal both to the entries' sum and to the cart's stored-line total |
| Carts.AccountTotalMatchesCartPage | shopBanHang/Controllers/GioHangController.cs:229-238 | the total endpoint agrees with the cart page, and both say 0 without a cart |
| Orders.WithHeader | shopBanHang/Controllers/DonHangController.cs:90-102 | the first save commits the order header alone, under a fresh id, status pending |
| Orders.OrderPaymentRules | shopBanHang/Controllers/DonHangController.cs:140-151 | the payment row records the order total and is unpaid; only COD is undated and without a transaction id, so "VnPay" (compared with "vnpay") gets both |
| Orders.FulfilledEffects | shopBanHang/Controllers/DonHangController.cs:105-128 | each cart line becomes an order line at the product's current price, each stock drops by the quantity ordered, and the cart's lines go while the cart stays |
| Orders.FulfilledPayment | shopBanHang/Controllers/DonHangController.cs:130-156 | a payment row is added exactly when a method is named, recording the order total, unpaid |
| Orders.SmallTotalRefused | shopBanHang/Services/VnpayServices/Vnpay.cs:47-50 | a total below 5,000 is refused by the gateway whatever its configuration |
| Orders.CheckItems | shopBanHang/Controllers/DonHangController.cs:62-78 | the check loop succeeds exactly when every line's product exists, is active and has the stock |
| Orders.WriteLines | shopBanHang/Controllers/DonHangController.cs:105-122 | the line loop builds exactly the snapshot lines and the withdrawn stock |
| Orders.CheckOrder | shopBanHang/Controllers/DonHangController.cs:34-78 | the checks before any write: unknown account 401; missing or empty cart, or any unsellable line, 400 |
| Orders.StageFulfilment | shopBanHang/Controllers/DonHangController.cs:105-156 | what is staged after the header: accepted exactly for a blank or listed method, and then exactly the fulfilled store |
| Orders.RequestPaymentUrl | shopBanHang/Controllers/DonHangController.cs:159-190 | the VNPAY step answers OK with the signed URL exactly when the gateway accepts the request, else 400 |
| Orders.PlaceOrder | shopBanHang/Controllers/DonHangController.cs:29-199 | placing an order: failures before the first save change nothing; an unlisted method answers 400 with the header saved; otherwise the whole order is committed, and a gateway refusal for VnPay answers 400 after that |
| Orders.Callback | shopBanHang/Controllers/DonHangController.cs:201-358 | the callback: empty query 404; any of the four settings unset escapes as 500; an unreadable query answers a 500 body; an unknown payment 404; otherwise that payment alone is marked paid |
| Orders.ForgedCallbackSettlesAlike | shopBanHang/Controllers/DonHangController.cs:220-231 | whether a query reads, and the payment it names, do not depend on the signature; a bad signature only makes `IsSuccess` false |
| Orders.CallbackFindsSentPayment | shopBanHang/Controllers/DonHangController.cs:221 | a payment id sent as `vnp_TxnRef` and read back through `long.Parse` and `(int)` is the same id |
| Orders.ConfirmOrder | shopBanHang/Controllers/DonHangController.cs:467-492 | only the caller's pending order moves to confirmed; anything else is refused with no change |
| Orders.ConfirmAtMostOnce | shopBanHang/Controllers/DonHangController.cs:479-484 | a confirmed order can no longer be confirmed, and no other order changes |
| AdminOrders.ItemRejection | shopBanHang/Controllers/QuanLy/QuanLyDonHangController.cs:163-177 | an item is refused exactly for a missing product (404), an inactive one or one short of stock (400) |
| AdminOrders.FirstRejection | shopBanHang/Controllers/QuanLy/QuanLyDonHangController.cs:161-177 | the answer of the first refused item, if any item is refused |
| AdminOrders.CreateRejection | shopBanHang/Controllers/QuanLy/QuanLyDonHangController.cs:142-177 | a create is refused before any write for an id ≤ 0, an unknown account, an empty item list or a refused item |
| AdminOrders.CheckAndTotal | shopBanHang/Controllers/QuanLy/QuanLyDonHangController.cs:159-186 | the check-and-sum loop: its answer is the first refused item's, and when none is refused the total is the sum of price times quantity over the items (the shipping fee is added by the caller) |
| AdminOrders.WriteItems | shopBanHang/Controllers/QuanLy/QuanLyDonHangController.cs:203-219 | the second loop builds the snapshot lines and the withdrawn stock |
| AdminOrders.CreateOrder | shopBanHang/Controllers/QuanLy/QuanLyDonHangController.cs:138-233 | the create handler: refusals write nothing; otherwise the header (status defaulting to pending), then its lines and stock |
| AdminOrders.CreatedEffects | shopBanHang/Controllers/QuanLy/QuanLyDonHangController.cs:188-219 | the created order is new, carries the total and defaults to pending; its lines carry its items at that moment's prices, and each stock drops by its items' total, even below zero |
| AdminOrders.UpdatedOrder | shopBanHang/Controllers/QuanLy/QuanLyDonHangController.cs:245-268 | an update replaces each text field only by a non-blank value and the total only when given |
| AdminOrders.UpdateOrder | shopBanHang/Controllers/QuanLy/QuanLyDonHangController.cs:235-280 | unknown id 404 with no change; otherwise exactly the updated order is saved |
| AdminOrders.EmptyUpdateKeepsOrder | shopBanHang/Controllers/QuanLy/QuanLyDonHangController.cs:245-268 | an update with nothing to say leaves the order as it was |
| AdminOrders.GiveBack | shopBanHang/Controllers/QuanLy/QuanLyDonHangController.cs:299-308 | the restocking loop adds back exactly each line's quantity |
| AdminOrders.DeleteOrder | shopBanHang/Controllers/QuanLy/QuanLyDonHangController.cs:282-329 | unknown 404, delivered or completed 400, both with no change; otherwise the stock comes back and the lines, payments and order go |
| AdminOrders.SnapshotLinesOfOrder | shopBanHang/Controllers/QuanLy/QuanLyDonHangController.cs:203-219 | the lines snapshotted for a new order are exactly that order's lines |
| AdminOrders.SnapshotItems | shopBanHang/Controllers/QuanLy/QuanLyDonHangController.cs:299 | the snapshotted lines read back in id order are the items |
| AdminOrders.CreatedOrderItems | shopBanHang/Controllers/QuanLy/QuanLyDonHangController.cs:299 | a created order's lines read back in id order are its items |
| AdminOrders.DeleteCreatedProducts | shopBanHang/Controllers/QuanLy/QuanLyDonHangController.cs:219 | deleting a freshly created order gives every product its stock back |
| AdminOrders.DeleteCreatedLines | shopBanHang/Controllers/QuanLy/QuanLyDonHangController.cs:310 | deleting a freshly created order removes exactly the lines it added |
| AdminOrders.DeleteCreatedHeader | shopBanHang/Controllers/QuanLy/QuanLyDonHangController.cs:313-317 | deleting a freshly created order removes no payment and leaves the other orders |
| AdminOrders.CreateThenDeleteRestores | shopBanHang/Controllers/QuanLy/QuanLyDonHangController.cs:138-329 | creating an order and deleting it again gives back the same products, orders, lines and payments |
| AdminOrders.OrderList | shopBanHang/Controllers/QuanLy/QuanLyDonHangController.cs:19-82 | 400 exactly when the page is refused; otherwise OK with the count of orders matching the status and account filters and exactly page `page` of them, newest first (ties by id, the model's tie-break) |
| Payments.CreateRejection | shopBanHang/Controllers/ThanhToanController.cs:26-55 | a payment is refused exactly for an unknown account, an order not the caller's, a method other than COD, ChuyenKhoan or ViDienTu, or an order already paid; the answer is 401, 404 or 400 |
| Payments.NewPaymentRules | shopBanHang/Controllers/ThanhToanController.cs:58-67 | the new payment records the order total; COD awaits cash with no date or id, the others are unpaid, dated now, with id "GD", the stamp and the order id |
| Payments.CreatePayment | shopBanHang/Controllers/ThanhToanController.cs:21-80 | the create handler: a refusal writes nothing, otherwise exactly the new payment under a fresh id |
| Payments.ConfirmRejection | shopBanHang/Controllers/ThanhToanController.cs:129-149 | a confirmation is refused exactly for an unknown payment (404), an order not the caller's (401) or a payment already settled (400) |
| Payments.ConfirmPayment | shopBanHang/Controllers/ThanhToanController.cs:125-170 | the confirm handler: a refusal writes nothing, otherwise exactly the confirmed store |
| Payments.ConfirmationEffects | shopBanHang/Controllers/ThanhToanController.cs:151-158 | only the payment (settled, dated now) and its order change; the order becomes paid exactly from pending or confirmed |
| Payments.ConfirmAtMostOnce | shopBanHang/Controllers/ThanhToanController.cs:146-149 | once confirmed, confirming the same payment again is refused |
| Payments.SettledOrderTakesNoPayment | shopBanHang/Controllers/ThanhToanController.cs:49-55 | once a payment of an order is confirmed, no further payment can be created for it |
| Reviews.SubmitRejection | shopBanHang/Controllers/DanhGiaController.cs:26-52 | a review is refused exactly for an unknown account, an unknown product, a score outside 1..5 or an existing review of the pair; the answer is 401, 404 or 400 |
| Reviews.SubmitReview | shopBanHang/Controllers/DanhGiaController.cs:21-79 | a refusal writes nothing, otherwise exactly one new review by the caller |
| Reviews.SubmitEffects | shopBanHang/Controllers/DanhGiaController.cs:46-71 | one review per product and account is kept, the caller's review is the new one, and a second submit is refused |
| Reviews.EditRejection | shopBanHang/Controllers/DanhGiaController.cs:87-99 | an edit is refused exactly when the review is not the caller's or the score is outside 1..5 |
| Reviews.EditReview | shopBanHang/Controllers/DanhGiaController.cs:83-113 | an accepted edit replaces content and score and refreshes the date; a refusal writes nothing |
| Reviews.DeleteReview | shopBanHang/Controllers/DanhGiaController.cs:117-138 | only the caller's review is removed; any other id is answered 404 with no change |
| Reviews.EditAndDeleteEffects | shopBanHang/Controllers/DanhGiaController.cs:101-130 | edits and deletes keep one review per pair; an edit keeps product and author; after a delete the author may review again |
| Reviews.CheckReview | shopBanHang/Controllers/DanhGiaController.cs:142-171 | the caller's review of the product, or none exactly when there is none |
| Reviews.CheckFindsSubmitted | shopBanHang/Controllers/DanhGiaController.cs:46-71 | after an accepted submit the check finds the review just written |
| Reviews.ProductReviews | shopBanHang/Controllers/DanhGiaController.cs:175-211 | 400 exactly when the page is refused; otherwise OK with the count of all the product's reviews and exactly page `page` of them, newest first (ties by id, the model's tie-break) |
| Accounts.AccountByEmail | shopBanHang/Controllers/TaiKhoanController.cs:380 | the account found by e-mail: none exactly when no account has it, otherwise one holding it |
| Accounts.FoundByEmail | shopBanHang/Controllers/TaiKhoanController.cs:380 | with unique e-mails, the account found by an e-mail is the one holding it |
| Accounts.WithCustomerType | shopBanHang/Controllers/TaiKhoanController.cs:52-61 | a customer account type exists afterwards, and is added only when none existed |
| Accounts.RegisterRejection | shopBanHang/Controllers/TaiKhoanController.cs:36-46 | registration is refused exactly for an e-mail in use or a blank or short password |
| Accounts.Register | shopBanHang/Controllers/TaiKhoanController.cs:31-85 | a refusal writes nothing, otherwise the customer type if missing and the new account under a fresh id |
| Accounts.RegisterThenLogin | shopBanHang/Controllers/TaiKhoanController.cs:64-106 | registration keeps e-mails unique and the new account logs in with its password |
| Accounts.Login | shopBanHang/Controllers/TaiKhoanController.cs:89-115 | soundness: a login succeeds only for an active account whose e-mail and password hash match; otherwise 401, or 400 when no password was sent |
| Accounts.LoginFindsAccount | shopBanHang/Controllers/TaiKhoanController.cs:89-115 | completeness: with unique e-mails, the right password logs into the account when it is active and is answered 401 when it is locked |
| Accounts.ChangeRejection | shopBanHang/Controllers/TaiKhoanController.cs:123-140 | a password change is refused exactly for an unknown account (401), a wrong old password or an invalid new one (400) |
| Accounts.ChangePassword | shopBanHang/Controllers/TaiKhoanController.cs:119-152 | an accepted change replaces the hash only; a refusal writes nothing |
| Accounts.ChangedPasswordLogsIn | shopBanHang/Controllers/TaiKhoanController.cs:141-144 | after a change an active account logs in with the new password |
| Accounts.NewAvatar | shopBanHang/Controllers/TaiKhoanController.cs:182-209 | a blank value keeps the avatar, an inline image becomes the uploaded URL, anything else is stored as given; a failed upload throws |
| Accounts.ProfileUpdated | shopBanHang/Controllers/TaiKhoanController.cs:166-179 | name, phone and address are replaced only by non-blank values, the avatar is the one decided; e-mail, password hash, active flag, OTP, creation date, type and category never change |
| Accounts.UpdateProfile | shopBanHang/Controllers/TaiKhoanController.cs:156-220 | unknown account 401; a failed upload 400 with nothing saved; otherwise exactly the updated account |
| Accounts.UpdateAvatar | shopBanHang/Controllers/TaiKhoanController.cs:251-300 | the same avatar rule alone |
| Accounts.SendOtp | shopBanHang/Controllers/TaiKhoanController.cs:375-444 | unknown or locked account: 400 and no write; otherwise the code is stored, and cleared again with 500 when the e-mail fails |
| Accounts.VerifyOtp | shopBanHang/Controllers/TaiKhoanController.cs:446-477 | a code is accepted exactly when it equals the non-blank code stored for the e-mail's account |
| Accounts.ResetRejection | shopBanHang/Controllers/TaiKhoanController.cs:484-505 | a reset is refused exactly when the code does not verify or the new password is invalid |
| Accounts.ResetPassword | shopBanHang/Controllers/TaiKhoanController.cs:479-522 | an accepted reset sets the hash and clears the code; a refusal writes nothing |
| Accounts.CodeKeepsLookup | shopBanHang/Controllers/TaiKhoanController.cs:396-398 | storing a code does not change which account the e-mail finds |
| Accounts.SentCodeVerifies | shopBanHang/Controllers/TaiKhoanController.cs:396-465 | an e-mailed code verifies, and one whose e-mail failed no longer does |
| Accounts.ResetConsumesCode | shopBanHang/Controllers/TaiKhoanController.cs:508-513 | after a reset the same code cannot reset again |
| Accounts.DigitTextLength | shopBanHang/Controllers/TaiKhoanController.cs:394 | a number of `k` decimal digits is written with `k` characters |
| Accounts.OtpText | shopBanHang/Controllers/TaiKhoanController.cs:393-394 | the stored code is six digits, not starting with 0, reading back as the number drawn |
| Accounts.LeadingDigit | shopBanHang/Controllers/TaiKhoanController.cs:394 | a positive number is written without a leading zero |
| AdminAccounts.AccountList | shopBanHang/Controllers/QuanLy/QuanLyTaiKhoanController.cs:19-70 | 400 exactly when the page is refused; otherwise OK with the count of accounts whose name, e-mail or phone contains the search and exactly page `page` of them, newest first (ties by id, the model's tie-break) |
| AdminAccounts.CreateRejection | shopBanHang/Controllers/QuanLy/QuanLyTaiKhoanController.cs:115-155 | creation is refused (400) exactly for a blank e-mail, a missing or short password, an e-mail in use, or an unknown type or category |
| AdminAccounts.CreatedAccount | shopBanHang/Controllers/QuanLy/QuanLyTaiKhoanController.cs:158-171 | the new account stores the password hash and is active unless told otherwise |
| AdminAccounts.CreateAccount | shopBanHang/Controllers/QuanLy/QuanLyTaiKhoanController.cs:111-183 | a refusal writes nothing, otherwise exactly the new account under a fresh id |
| AdminAccounts.CreateKeepsUniqueEmails | shopBanHang/Controllers/QuanLy/QuanLyTaiKhoanController.cs:131-134 | creation keeps e-mail addresses unique |
| AdminAccounts.UpdateRejection | shopBanHang/Controllers/QuanLy/QuanLyTaiKhoanController.cs:191-261 | an update is refused for an unknown account (404), an e-mail used by another, an unknown type or category, or a short password |
| AdminAccounts.AccountUpdated | shopBanHang/Controllers/QuanLy/QuanLyTaiKhoanController.cs:196-263 | name and password only when non-blank, e-mail only when it changes; phone, address, avatar, active flag, type and category whenever given; creation date and OTP never |
| AdminAccounts.UpdateAccount | shopBanHang/Controllers/QuanLy/QuanLyTaiKhoanController.cs:187-273 | a refused update saves no field change; an accepted one saves exactly the updated account |
| AdminAccounts.UpdateKeepsUniqueEmails | shopBanHang/Controllers/QuanLy/QuanLyTaiKhoanController.cs:198-206 | an accepted update keeps e-mail addresses unique |
| AdminAccounts.DeleteAccount | shopBanHang/Controllers/QuanLy/QuanLyTaiKhoanController.cs:277-305 | unknown 404; an account with orders is locked; one still named by a cart, review or message is refused by the store (400, nothing saved); any other is removed |
| AdminAccounts.DeleteKeepsOrdersOwned | shopBanHang/Controllers/QuanLy/QuanLyTaiKhoanController.cs:288-298 | deleting never leaves an order without its account |
| AdminAccounts.DeleteKeepsAccountRefs | shopBanHang/Controllers/QuanLy/QuanLyTaiKhoanController.cs:288-298 | a delete the store accepts leaves no order, cart, review or message without its account |
| AdminAccounts.RefusedDeleteWouldDangle | shopBanHang/Controllers/QuanLy/QuanLyTaiKhoanController.cs:297-298 | removing an account a cart, review or message still names would break that reference, which the store does not cascade |
| AdminAccounts.DeletedCannotLogin | shopBanHang/Controllers/QuanLy/QuanLyTaiKhoanController.cs:288-298 | a deleted account, locked or removed, can no longer log in |
| AdminCategories.ListedCategories | shopBanHang/Controllers/QuanLy/QuanLyDanhMucController.cs:25-28 | all categories for a blank search, otherwise exactly those whose name contains it |
| AdminCategories.CategoryList | shopBanHang/Controllers/QuanLy/QuanLyDanhMucController.cs:19-61 | 400 exactly when the page is refused; otherwise OK with the count of listed categories and exactly page `page` of them in name order (ties by id, the model's tie-break) |
| AdminCategories.CreateRejection | shopBanHang/Controllers/QuanLy/QuanLyDanhMucController.cs:105-115 | creation is refused exactly for a blank or existing name |
| AdminCategories.CreateCategory | shopBanHang/Controllers/QuanLy/QuanLyDanhMucController.cs:101-133 | a refusal writes nothing, otherwise exactly the new category under a fresh id |
| AdminCategories.RenameRejection | shopBanHang/Controllers/QuanLy/QuanLyDanhMucController.cs:139-155 | a rename is refused for an unknown category (404), a blank name or one another category has (400) |
| AdminCategories.RenameCategory | shopBanHang/Controllers/QuanLy/QuanLyDanhMucController.cs:135-168 | a refusal writes nothing, otherwise only that category's name changes |
| AdminCategories.CreateAndRenameKeepNamesUnique | shopBanHang/Controllers/QuanLy/QuanLyDanhMucController.cs:111-155 | creating and renaming keep category names unique |
| AdminCategories.DeleteCategory | shopBanHang/Controllers/QuanLy/QuanLyDanhMucController.cs:170-206 | unknown 404; a category used by a product or an account 400; otherwise it is removed |
| AdminCategories.DeleteKeepsRefs | shopBanHang/Controllers/QuanLy/QuanLyDanhMucController.cs:181-195 | deleting a category nothing uses keeps every category reference valid |
| AdminProducts.ListedProducts | shopBanHang/Controllers/QuanLy/QuanLySanPhamController.cs:26-40 | exactly the products matching the search in name or description, the category and the status given |
| AdminProducts.ProductList | shopBanHang/Controllers/QuanLy/QuanLySanPhamController.cs:19-83 | 400 exactly when the page is refused; otherwise OK with the count of listed products and exactly page `page` of them, newest first (ties by id, the model's tie-break) |
| AdminProducts.CreateRejection | shopBanHang/Controllers/QuanLy/QuanLySanPhamController.cs:141-164 | creation is refused exactly for a blank name, a price ≤ 0, a negative quantity or an unknown category; only the unknown category, with the rest fine, is 404 |
| AdminProducts.CreatedProduct | shopBanHang/Controllers/QuanLy/QuanLySanPhamController.cs:166-178 | the new product row is valid when price and quantity are, and active unless told otherwise |
| AdminProducts.AddImages | shopBanHang/Controllers/QuanLy/QuanLySanPhamController.cs:183-197 | one image row per non-blank path, under fresh ids, all naming the product, leaving the existing rows unchanged |
| AdminProducts.AddImagesPaths | shopBanHang/Controllers/QuanLy/QuanLySanPhamController.cs:183-197 | the new rows take the next ids in turn: row `FreshId + j` holds the `j`-th non-blank path, and there are no other new rows |
| AdminProducts.AddImagesStep | shopBanHang/Controllers/QuanLy/QuanLySanPhamController.cs:185-195 | one more path adds one more row under the next id, unless it is blank |
| AdminProducts.CreateProduct | shopBanHang/Controllers/QuanLy/QuanLySanPhamController.cs:137-223 | a refusal writes nothing; otherwise the product, then its image rows and specification |
| AdminProducts.CreatedProductValid | shopBanHang/Controllers/QuanLy/QuanLySanPhamController.cs:166-178 | a created product is valid, and active unless told otherwise |
| AdminProducts.CreateKeepsRefs | shopBanHang/Controllers/QuanLy/QuanLySanPhamController.cs:179-213 | after a creation every image, specification, cart line and order line still names an existing product |
| AdminProducts.CreatedImages | shopBanHang/Controllers/QuanLy/QuanLySanPhamController.cs:183-197 | the created product has exactly one image per non-blank path, and its images are the rows with the next ids of the image table |
| AdminProducts.CreatedImagePaths | shopBanHang/Controllers/QuanLy/QuanLySanPhamController.cs:183-197 | the created product's image with the `j`-th of those ids holds the `j`-th non-blank path, in request order |
| AdminProducts.CreatedSpec | shopBanHang/Controllers/QuanLy/QuanLySanPhamController.cs:198-211 | the created product has one specification when one was given and none otherwise |
| AdminProducts.UpdateRejection | shopBanHang/Controllers/QuanLy/QuanLySanPhamController.cs:229-262 | an update is refused for an unknown product or an unknown category (404) |
| AdminProducts.ProductUpdated | shopBanHang/Controllers/QuanLy/QuanLySanPhamController.cs:235-278 | out-of-range prices and quantities are ignored, not refused; a blank name keeps the old one; description, category, active flag, brand and promotion whenever given; the date added never changes |
| AdminProducts.UpdateProduct | shopBanHang/Controllers/QuanLy/QuanLySanPhamController.cs:225-290 | a refused update saves no field change; an accepted one saves exactly the updated product |
| AdminProducts.UpdateKeepsValid | shopBanHang/Controllers/QuanLy/QuanLySanPhamController.cs:245-253 | an update keeps a valid product (positive price, non-negative quantity) valid |
| AdminProducts.DeleteProduct | shopBanHang/Controllers/QuanLy/QuanLySanPhamController.cs:292-337 | unknown 404; a product in an order is hidden; a reviewed one is refused by the store (400, nothing saved); any other is removed with its images, specifications and cart lines |
| AdminProducts.DeleteKeepsRefs | shopBanHang/Controllers/QuanLy/QuanLySanPhamController.cs:303-326 | a delete the store accepts keeps every image, specification, cart line, order line and review naming an existing product |
| AdminProducts.RefusedDeleteWouldDangle | shopBanHang/Models/Entities/ShopContext.cs:89-92 | removing a reviewed product would leave its reviews naming no product, a reference the store does not cascade |
| AdminProducts.DeletedNotSellable | shopBanHang/Controllers/QuanLy/QuanLySanPhamController.cs:303-326 | a deleted product, hidden or removed, can no longer be sold |
| Catalog.Newest | shopBanHang/Controllers/SanPhamController.cs:19-52 | the ten newest active products, newest first; an active product left out is not newer than one shown |
| Catalog.InCategory | shopBanHang/Controllers/SanPhamController.cs:54-99 | exactly the active products of the category, in id order |
| Catalog.Search | shopBanHang/Controllers/SanPhamController.cs:101-151 | a blank term is 400; otherwise exactly the active products whose name contains it |
| Catalog.FilterProducts | shopBanHang/Controllers/SanPhamController.cs:153-245 | 400 exactly when the page is refused; otherwise OK with the count of products meeting every given criterion (no implicit active filter) and exactly page `page` of them, newest first (ties by id, the model's tie-break) |
| Catalog.Related | shopBanHang/Controllers/SanPhamController.cs:369-408 | unknown 404; otherwise min(10, n) of the n other active products of its category, in increasing id order |
| Messages.SendRejection | shopBanHang/Controllers/TinNhanController.cs:26-42 | a message is refused exactly for an unknown sender (401), an unknown recipient (404) or blank content (400) |
| Messages.Send | shopBanHang/Controllers/TinNhanController.cs:21-64 | a refusal writes nothing, otherwise exactly one message from the caller to the recipient, stamped now |
| Messages.History | shopBanHang/Controllers/TinNhanController.cs:66-101 | as written: the kept messages, each once, oldest first |
| Messages.HistoryOmitsReplies | shopBanHang/Controllers/TinNhanController.cs:70-77 | as written: with a correspondent other than the caller, the history holds only what the caller sent, never the replies |
| Messages.ReplyMissingFromHistory | shopBanHang/Controllers/TinNhanController.cs:73-77 | as written, a store holding only a reply from account 5 to account 7 gives account 7 an empty history with 5, where the corrected history holds the reply |
| Messages.Dialogue | shopBanHang/Controllers/TinNhanController.cs:64-80 | corrected: exactly the account's messages with the correspondent in either direction (all of its messages for correspondent 0), each once, oldest first |
| Messages.DialogueIsBothWays | shopBanHang/Controllers/TinNhanController.cs:73-76 | between two accounts, the corrected history holds exactly what either sent the other, and is the same seen from either side |
| Messages.HistoryWithinDialogue | shopBanHang/Controllers/TinNhanController.cs:70-77 | everything the history as written shows, the corrected one shows too |
| Messages.SentMessageInHistory | shopBanHang/Controllers/TinNhanController.cs:45-80 | a message just sent shows in the sender's history with that recipient, and in the corrected history seen from either side |
| Messages.Latest | shopBanHang/Controllers/TinNhanController.cs:125 | `Max(ThoiGian)`: the latest time among dated messages, none if none is dated |
| Messages.Conversations | shopBanHang/Controllers/TinNhanController.cs:103-138 | each party exchanged with exactly once, ordered by the latest time exchanged with them, newest first |
| Messages.NewMessages | shopBanHang/Controllers/TinNhanController.cs:140-175 | exactly the messages received strictly after the time given (all received ones without a time), each once, as many as there are such messages, oldest first |
| Messages.PollingSkipsSeen | shopBanHang/Controllers/TinNhanController.cs:148-151 | polling again from the latest time seen returns only strictly later messages |
| Vnpay.LookupFinds | shopBanHang/Services/VnpayServices/Vnpay.cs:80-89 | `GetValueOrDefault`: a key has a value exactly when some field carries it, and the value is stored under it |
| Vnpay.RetainGatewayFields | shopBanHang/Services/VnpayServices/Vnpay.cs:78-79 | exactly the fields whose non-empty key starts with "vnp_" |
| Vnpay.SignatureInput | shopBanHang/Services/VnpayServices/Vnpay.cs:104-111 | exactly the retained fields except vnp_SecureHash |
| Vnpay.ParseSByte | shopBanHang/Services/VnpayServices/Vnpay.cs:112-113 | `sbyte.Parse` gives a value in -128..127 or throws; a plain run of digits reads as its decimal value when at most 127 (so "00" is 0) and throws above |
| Vnpay.ParseLong | shopBanHang/Services/VnpayServices/Vnpay.cs:116-117 | `long.Parse` gives a 64-bit value or throws; a plain run of digits reads as its decimal value when below 2^63 and throws above |
| Common.ParseDigits | shopBanHang/Services/VnpayServices/Vnpay.cs:112-117 | an unsigned run of digits parses as its decimal value |
| Vnpay.DaysInMonth | shopBanHang/Services/VnpayServices/Vnpay.cs:121 | the month lengths of the Gregorian calendar: 28 to 31 days, 29 exactly for February of a leap year |
| Vnpay.StampDayInMonth | shopBanHang/Services/VnpayServices/Vnpay.cs:121 | a pay date naming a day past the end of its month (30 February, 29 February 2023) is not a date `ParseExact` accepts |
| Vnpay.FieldListLookup | shopBanHang/Services/VnpayServices/Vnpay.cs:60-73 | each of the fourteen request fields is found under its key |
| Vnpay.RequestCarriesAmountAndReference | shopBanHang/Services/VnpayServices/Vnpay.cs:63-72 | the URL carries the amount times 100 and the payment id as `vnp_TxnRef` |
| Vnpay.RequestExpiresAfterFifteenMinutes | shopBanHang/Services/VnpayServices/Vnpay.cs:64-73 | the expiry is the creation time plus fifteen minutes |
| Vnpay.RequestBankCodeAndDescription | shopBanHang/Services/VnpayServices/Vnpay.cs:68-69 | "any bank" sends an empty bank code, and the description is sent trimmed |
| Vnpay.PaymentHelper.AddRequestData | shopBanHang/Services/VnpayServices/Vnpay.cs:60-73 | appends one request field and leaves the response data alone |
| Vnpay.PaymentHelper.AddResponseData | shopBanHang/Services/VnpayServices/Vnpay.cs:109 | appends one response field and leaves the request data alone |
| Vnpay.PaymentHelper.AddFields | shopBanHang/Services/VnpayServices/Vnpay.cs:59-74 | seven request fields appended in the order given; the response data untouched |
| Vnpay.FillPaymentRequest | shopBanHang/Services/VnpayServices/Vnpay.cs:59-73 | a fresh helper holding exactly the fourteen request fields, in order |
| Vnpay.CollectResponseData | shopBanHang/Services/VnpayServices/Vnpay.cs:104-111 | a fresh helper holding exactly the signature input |
| Vnpay.ReadCallback | shopBanHang/Services/VnpayServices/Vnpay.cs:78-137 | a query reads exactly when the ten required fields are non-empty, the codes, ids and date parse, and the pay date names a real calendar day; `IsSuccess` holds exactly when both codes are 0 and the signature checks out |
| Vnpay.VnpayClient.EnsureParametersBeforePayment | shopBanHang/Services/VnpayServices/Vnpay.cs:139-145 | passes exactly when code, secret, callback and base URL are all set |
| Vnpay.VnpayClient.Initialize | shopBanHang/Services/VnpayServices/Vnpay.cs:28-43 | stores the six settings and passes exactly when the four required ones are non-empty |
| Vnpay.VnpayClient.GetPaymentUrl | shopBanHang/Services/VnpayServices/Vnpay.cs:44-75 | succeeds exactly for a configured service, an amount within 5,000..1,000,000,000 and a non-empty description and IP, and then signs exactly the fourteen request fields |
| Vnpay.VnpayClient.GetPaymentResult | shopBanHang/Services/VnpayServices/Vnpay.cs:76-138 | the callback reading, real-calendar pay date included, applied to the retained fields, with the HMAC check on the signature input |
| Vnpay.TxnRefRoundTrip | shopBanHang/Services/VnpayServices/Vnpay.cs:116-117 | the transaction reference sent (line 72) reads back as the payment id |
| Media.SplitOn | shopBanHang/Services/CloudinaryService.cs:106 | `Split(c)`: at least one piece, none holding `c`, joining back to the input, and more than one exactly when `c` occurs |
| Media.SplitOfJoin | shopBanHang/Services/CloudinaryService.cs:106-110 | splitting a join of pieces free of the separator gives the pieces back |
| Media.UploadImage | shopBanHang/Services/CloudinaryService.cs:33-75 | a missing or empty stream throws before any call; otherwise the secure URL of an OK answer, and a throw for any other |
| Media.Base64Payload | shopBanHang/Services/CloudinaryService.cs:82-84 | without a comma the whole text; with one, exactly the piece between the first comma and the next comma or the end |
| Media.PayloadOfDataUrl | shopBanHang/Services/CloudinaryService.cs:82-84 | for `header,payload` with no other comma, exactly the payload is decoded |
| Media.UploadBase64 | shopBanHang/Services/CloudinaryService.cs:77-95 | an undecodable or empty payload throws; the upload returns exactly when the payload decodes to some bytes and the service answers success with a secure URL, which is the URL returned |
| Media.RemoveAll | shopBanHang/Services/CloudinaryService.cs:110 | `Replace(pattern, "")`: never longer, and the input itself when the pattern does not occur |
| Media.RemoveAllKeepsPrefix | shopBanHang/Services/CloudinaryService.cs:110 | text in which no occurrence starts is kept unchanged at the front |
| Media.RemoveAllFirstOccurrence | shopBanHang/Services/CloudinaryService.cs:110 | the first occurrence is removed, the text before it kept, and the scan resumes after it |
| Media.PublicIdDropsFirstSegment | shopBanHang/Services/CloudinaryService.cs:110 | as written, before the extensions go, the id is the whole path after its first '/' |
| Media.WrittenIdStartsWithCloud | shopBanHang/Services/CloudinaryService.cs:110 | as written, the id of a delivery URL starts with the cloud name |
| Media.DeliveredPublicId | shopBanHang/Services/CloudinaryService.cs:105-110 | the corrected id exists only for a path of at least six '/'-separated segments |
| Media.DeliveredIdOfSegments | shopBanHang/Services/CloudinaryService.cs:105-110 | on a path of six or more segments whose fifth is a version, the corrected id is the segments after it with the last one's extension removed |
| Media.DeliveredIdOfDeliveryPath | shopBanHang/Services/CloudinaryService.cs:105-110 | on any delivery URL the corrected id is exactly the id the image was stored under |
| Media.WrittenIdMissesImage | shopBanHang/Services/CloudinaryService.cs:110 | as written, the id asked to be destroyed differs from the stored one whenever the first folder starts differently from the cloud name |
| Media.DeleteImage | shopBanHang/Services/CloudinaryService.cs:97-121 | true exactly when the URL is not blank, parses to a path with '/', the stored public id is derived from it, and the service answers "ok" for that id; false on every other path, a thrown call included |

## Left out

- The read-only detail and history endpoints are not modelled: `GetLichSuDonHang`, `GetChiTietDonHang`, `GetThongTin`, `GetLichSuMuaHang`, `GetTrangThaiThanhToan`, `GetLichSuThanhToan`, `GetChiTietSanPham`, `GetDanhGiaSanPham`, `GetDanhMuc` and the admin `Get…(id)` endpoints. They are projections with no rule of their own.
- `TestCloudinary` is a configuration echo used for debugging. The statistics controller `ThongKeController` is aggregation over dates and doubles. Neither is modelled.
- `DateTime.Now` is read once per request: one `Clock` value stands for every reading in a handler.
- The `yyyyMMddHHmmss` formatting is a function carried by the clock.
- SHA-256/Base64 password hashing is an opaque function parameter.
- The VNPAY HMAC check is an opaque predicate parameter.
- The library's `PaymentHelper.GetPaymentUrl` (query encoding and signing) is represented by the base URL, the secret and the field list it is given.
- `NetworkHelper.GetIpAddress` is an input.
- Sending e-mail is an input flag (`emailSent`). The e-mail text and the callback's HTML page are not modelled.
- The random one-time code is an input in the drawn range 100000..999998.
- The Cloudinary upload and destroy calls are parameters that return an outcome.
- `Uri.AbsolutePath` is a parameter (`absolutePath`). `Convert.FromBase64String` is a parameter (`decode`).
- The upload's resize and crop settings are not modelled.
- Money is an integer number of dong, not `decimal` or `double`. The gateway's `double` amount is rendered as an integer.
- Texts are compared ordinally. SQL Server collation, with its case and accent folding, is not modelled.
- Database failures in `SaveChanges` are modelled only where a delete meets a foreign key without cascade: a reviewed product, and an account still named by a cart, review or message, are refused with 400. The unique e-mail index and other store failures are not modelled; the model follows the handlers' own checks.
- Concurrency between requests is not modelled, and the SignalR hub is not part of this model.
- The `HoTen` and `TinNhanCuoi` columns of a conversation entry, and the double-valued rating averages, are not modelled.
- Vnpay.ReadCallback: the query is a list of key and value pairs, and the first value of a repeated key is read. ASP.NET Core's query collection joins the values of a repeated key with commas instead ("1,2"), so the source then fails to parse a numeric field and reads a text field as the joined text.
- Stock.Withdraw: stock is a C# `int`; `SoLuong -= qty` wraps round at 2^31 in the source, and the model's unbounded subtraction does not.
- Stock.Restock: `SoLuong += qty` wraps round at 2^31 in the source; the model does not.
- Carts.AddToCart: the merged quantity `SoLuong += qty` wraps round at 2^31 in the source; the model does not.
- AdminOrders.CheckAndTotal: the total is a `decimal` sum of price times quantity, which throws on overflow past about 7.9·10^28 in the source; the model's sum is unbounded.
- Common.PageHolds and Queries.PagesByDateCoverAll: stated for lists of fewer than 2^31 rows. Past that, the 32-bit offset of a later page wraps round, and `Count()` itself overflows the source's `int`.
- Carts.AddedWithinStock: only the upper bound is promised. A merge onto an old line with a non-positive quantity can still leave the cart quantity at or below zero, and the handler does not prevent that.
- Media.RemoveAll: its contract and lemmas fix the text before the first occurrence and the resumption after it; the model has no second, independent definition of `Replace` to compare with.
- Messages.History: it models the query as written, which keeps only what the caller sent to the correspondent (see Findings). The corrected history is `Messages.Dialogue`.
- Media.DeleteImage: it uses the corrected public id, not the id of the code as written (see Findings). The as-written id is modelled by `Media.PublicIdOf`.

## Findings

| source | as written | input that shows it | evidently intended | confidence | as-written member | corrected member |
|---|---|---|---|---|---|---|
| shopBanHang/Services/CloudinaryService.cs:110 | the public id to destroy is the whole URL path after its first '/', so a delivery URL's id keeps the cloud name and `image/upload/v<version>` | an avatar stored as `avatars/a` on cloud `demo`, URL path `/demo/image/upload/v1/avatars/a.jpg`: the id asked to be destroyed is `demo/image/upload/v1/avatars/a`, so the old avatar is never deleted (the profile handlers at shopBanHang/Controllers/TaiKhoanController.cs:190-193 and 270-273 pass the stored URL) | the id after `/<cloud>/image/upload/` and the version, without the extension: `avatars/a` | not executed | Media.WrittenIdMissesImage | Media.DeliveredIdOfDeliveryPath |
| shopBanHang/Controllers/TinNhanController.cs:76 | with a correspondent given (by default account 5), the history keeps only messages the caller sent to the correspondent, although the endpoint is described as the messages sent and received between the two | account 7 asks for its history with account 5, and the store holds only a reply from 5 to 7: the history is empty | the messages between the two accounts in either direction | not executed | Messages.ReplyMissingFromHistory | Messages.DialogueIsBothWays |
