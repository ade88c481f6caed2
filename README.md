# shopik in Dafny

shopik is a Telegram shop bot. Customers browse a catalog, open a product
page and buy a unit. They pay on the gateway's page, then press "check
payment". A succeeded payment hands out one unit of the product's stock.

A product's stock is one newline-delimited string. For a text product each line
is a key or code. For a file product the string is the id of one stored
document.

One administrator, recognised by user id, works a dialog with five steps: name,
description, price, type, stock. The same dialog edits prices and
descriptions, restocks products and deletes them. The administrator also reads
sales statistics and recent orders.

Buttons carry callback data such as `buy_<id>` or `check_payment_<pid>`. The
handlers read the id back with `data.split("_")[k]` or
`data.split("check_payment_")[1]`. Callbacks and commands are dispatched
first-match over the customer router and then the admin router.

The model has one module per concern.

- `Wrappers`: `Option` and `Result`.
- `PyStr`: the Python string functions the bot uses. These are `strip`,
  `split`, `join`, `startswith`, `lower`, `int()` and `str(int)`.
- `Stock`: the stock string.
  - The displayed unit count.
  - The claim of one unit (the string half of `get_stock_item`).
  - The text restock.
  - The FIFO meaning of repeated claims.
- `Database`: the three tables.
  - Its functions are the read-only queries and row updates as values.
  - Its class `Db` holds every query that writes, as a method with `modifies`.
- `Stats`: `get_orders_stats`.
- `Markup`, `Callbacks`, `UserKb`, `AdminKb`: the keyboards and the encoding and
  decoding of their callback data.
- `Shop`: the customer-side purchase and payment check.
  - Pure functions (`Buy`, `Settle`) state the outcome and the new tables.
  - Methods on `Db` are proved equal to them.
- `Admin`: the admin dialog.
  - The aiogram FSM state is a `Dialog` object with a `state` and a `data`
    field.
  - Every step is a pure function on a `Session` value.
  - A method on the `Dialog` and the `Db` is proved equal to that function.
  - It also holds the message dispatch.
- `Routing`: the callback dispatch over both routers, in the order `main.py`
  includes them.

A few conventions hold throughout.

- A handler that raises in Python (`IndexError`, `ValueError` or `KeyError`,
  or `NOT NULL` on insert) answers `Crashed`, `BuyCrashed` or `CheckCrashed`.
  It leaves the tables and the dialog as they were, because aiogram keeps the
  FSM state when a handler raises.
- Dialog data keys that were never stored are `Absent`. Reading one is the
  `KeyError` path.
- A table is held as its rows in insertion order. AUTOINCREMENT ids rise along
  that order, so `ORDER BY id` is the stored order and `created_at DESC` is its
  reverse.

## Model

| member | source | states |
|---|---|---|
| Stock.StockCount | handlers/user.py:135-143 | The displayed count is 0 exactly for an empty stock. A file product shows at most 1. A non-empty text stock shows one more than its newlines, with no stripping. |
| Stock.Claim | database/models.py:134-148 | The string half of get_stock_item, as a function. Its properties are stated by Stock.ClaimSpec, Stock.ClaimCount and Stock.ClaimRunFifo. |
| Stock.ClaimSpec | database/models.py:134-148 | A claim yields nothing exactly when the stripped stock is empty. Otherwise the unit is a non-empty line without a newline. With several lines, unit + "\n" + rest is the stripped stock. With one line, the unit is that line and the rest is "". Either way the rest counts one unit less. |
| Stock.ClaimCount | database/models.py:140-147 | Each successful claim lowers the displayed text count by at least one. |
| Stock.ClaimRunFifo | database/models.py:134-148 | n claims on a stock of clean units hand out the first min(n, units) units, each once and in entry order. After that every claim finds nothing. The remaining stock is the units not yet handed out. |
| Stock.ClaimRunBound | handlers/user.py:135-143 | However many claims are made, no more units come out than the displayed text count. |
| Stock.TrailingNewlineOvercounts | handlers/user.py:140 | A stock ending in a newline displays one unit more than it holds. Its claims hand out exactly what they would without the newline. |
| Stock.RestockLines | handlers/admin.py:392-397 | A text restock puts the new lines after the current ones. The reported count is the current count plus the pieces of the new text. |
| Stock.RestockJoin | handlers/admin.py:392-394 | Restocking clean units onto clean units gives the concatenated units, old ones first. |
| PyStr.Strip | database/models.py:140 | strip() returns a slice s[i..j] with only whitespace before i and after j, and no whitespace at either of its own ends. |
| PyStr.StripTrimmed | database/models.py:140 | strip() changes nothing on a string without whitespace at its ends. |
| PyStr.StripEmptyIff | database/models.py:140-142 | strip() yields "" exactly when every character is whitespace. |
| PyStr.JoinSplit | database/models.py:140-145 | Joining the pieces of a split with its separator gives the string back. |
| PyStr.SplitJoin | database/models.py:140-145 | Splitting a join of separator-free pieces gives the pieces back. |
| PyStr.ParseIntToString | handlers/user.py:94 | int(str(n)) == n for every integer n. |
| Database.FindProduct | database/models.py:84-91 | get_product finds a row exactly when some row has that id, and the row it returns carries that id. |
| Database.FindOrder | database/models.py:167-174 | get_order_by_payment finds an order exactly when some order carries that payment id. |
| Database.NewestFirst | database/models.py:187-194 | get_all_orders lists every order, newest first. |
| Database.Patched | database/models.py:93-124 | Each column given to update_product takes the given value; every other column keeps its own. |
| Database.PatchNothing | database/models.py:99-124 | update_product with no column given leaves the table unchanged. |
| Database.PatchMissing | database/models.py:120-122 | An update of an id no row carries changes nothing. |
| Database.FindProductPatched | database/models.py:93-124 | After an update the row is found with exactly those columns patched, and ids stay increasing. |
| Database.RemoveProduct | database/models.py:126-132 | delete_product keeps exactly the rows with other ids, and ids stay increasing. |
| Database.FindOrderSetStatus | database/models.py:176-185 | After a status update the order is found with its new status, and payment ids stay unique. |
| Database.SetStatusMissing | database/models.py:176-185 | A status update for an unknown payment id changes nothing. |
| Database.FindOrderAppended | database/models.py:152-165 | An order inserted under a fresh payment id is the one found by that id, and payment ids stay unique. |
| Database.Db.constructor | database/models.py:12-58 | init_db on a fresh file creates three empty tables. Ids start at 1. |
| Database.Db.AddProduct | database/models.py:62-73 | Appends a row under the next id and returns that id. Orders and users are untouched. |
| Database.Db.UpdateProduct | database/models.py:93-124 | Patches the row with that id and no other. Orders and users are untouched. |
| Database.Db.DeleteProduct | database/models.py:126-132 | Removes the row with that id. Orders that name it stay. |
| Database.Db.GetStockItem | database/models.py:134-148 | A missing product or an empty claim returns None and writes nothing. Otherwise it returns the claimed unit and writes back the rest to that product's stock only. |
| Database.Db.CreateOrder | database/models.py:152-165 | A payment id already on an order breaks the UNIQUE column (database/models.py:39) and changes nothing. Otherwise a 'pending' order is appended under the next id. |
| Database.Db.UpdateOrderStatus | database/models.py:176-185 | Sets the status of the order with that payment id only. |
| Database.Db.AddUser | database/models.py:230-241 | INSERT OR IGNORE: a known user is kept as first stored, and a new one is added. |
| Stats.TopProductsCorrect | database/models.py:208-218 | top_products is an admissible answer of the GROUP BY query. It has distinct names of paid orders, each with its exact count and revenue, sorted by count descending. It has min(5, names) groups, and no name left out sells more than a listed one. |
| Stats.StatsTotals | database/models.py:200-206 | total_orders is the number of paid orders and total_revenue their price sum. The groups of all names account for both exactly. With no paid order, both are 0 and the list is empty. |
| Stats.TopCoversAllWhenFew | database/models.py:208-218 | With at most five names, the top list is every group and covers every paid order. |
| Stats.PaidOrders | database/models.py:200-206 | WHERE status = 'paid': every paid row as often as the table holds it, and no other row. |
| Stats.OrdersStats | database/models.py:196-226 | get_orders_stats as a function. Its properties are stated by Stats.TopProductsCorrect, Stats.StatsTotals and Stats.TopCoversAllWhenFew. |
| Callbacks.DecodeId | handlers/user.py:94 | int(data.split("_")[k]) succeeds only when piece k exists. |
| Callbacks.DecodePaymentId | handlers/user.py:188 | data.split("check_payment_")[1] succeeds exactly when the marker occurs. |
| Callbacks.ProductDataRoundTrip | keyboards/user_kb.py:21 | product_<id> decodes back to id through piece 1 (handlers/user.py:94). |
| Callbacks.BuyDataRoundTrip | keyboards/user_kb.py:32 | buy_<id> decodes back to id through piece 1 (handlers/user.py:126). |
| Callbacks.CheckPaymentRoundTrip | keyboards/user_kb.py:41 | check_payment_<pid> decodes back to pid when pid does not contain the marker (handlers/user.py:188). |
| Callbacks.AdminProductDataRoundTrip | keyboards/admin_kb.py:32 | admin_product_<id> decodes back to id through piece 2 (handlers/admin.py:228). |
| Callbacks.AdminEditPriceDataRoundTrip | keyboards/admin_kb.py:43 | admin_edit_price_<id> decodes back through piece 3 (handlers/admin.py:269). |
| Callbacks.AdminEditDescDataRoundTrip | keyboards/admin_kb.py:44 | admin_edit_desc_<id> decodes back through piece 3 (handlers/admin.py:304). |
| Callbacks.AdminAddStockDataRoundTrip | keyboards/admin_kb.py:45 | admin_add_stock_<id> decodes back through piece 3 (handlers/admin.py:335). |
| Callbacks.AdminDeleteDataRoundTrip | keyboards/admin_kb.py:46 | admin_delete_<id> decodes back through piece 2 (handlers/admin.py:415). |
| Callbacks.AdminConfirmDeleteDataRoundTrip | keyboards/admin_kb.py:54 | admin_confirm_delete_<id> decodes back through piece 3 (handlers/admin.py:433). |
| UserKb.CatalogKb | keyboards/user_kb.py:13-27 | One row per product, in input order, then the back_to_main row. Each row's data decodes to that product's id. |
| UserKb.ProductKb | keyboards/user_kb.py:29-35 | The buy button decodes to the product id, and the second row goes back to the catalog. |
| UserKb.PaymentKb | keyboards/user_kb.py:37-44 | The first button opens payment_url unchanged, the second carries check_payment_<pid>, and the last is cancel_payment. |
| UserKb.PaymentKbRoundTrip | keyboards/user_kb.py:37-44 | The check button reads back as the payment id when the id lacks the marker. |
| AdminKb.AdminProductsKb | keyboards/admin_kb.py:15-38 | One row per product, in input order, then the admin_menu row. Each label shows the product's displayed count, and each row's data decodes to its id. |
| AdminKb.AdminProductActionsKb | keyboards/admin_kb.py:40-49 | The edit price, edit description, add stock and delete buttons each decode to the id. The last button is admin_products. |
| AdminKb.AdminConfirmDeleteKb | keyboards/admin_kb.py:51-57 | Confirm decodes through piece 3 and cancel through piece 2, both to the id. |
| Shop.SettleClaimsOneUnit | handlers/user.py:185-270 | Every outcome but a claim leaves both tables unchanged. A claim requires a succeeded, paid report for a pending order of an existing product with a unit left. It hands out that product's first unit and removes it from that product only. It marks that order only as paid, and reports delivery exactly when sending worked. |
| Shop.PendingPaymentClaims | handlers/user.py:194-248 | A succeeded, paid report for any pending order whose product still has a unit claims that unit. It hands out the product's first unit, writes back the rest and marks that order paid. |
| Shop.SettleWhenPaid | handlers/user.py:202-204 | A check of an already paid order changes nothing and, on a succeeded report, answers "already delivered". |
| Shop.DeliverOnce | handlers/user.py:194-223 | Once a check has claimed a unit, a later check of the same payment changes nothing, even when the first delivery message failed. |
| Shop.BuyRecordsOrder | handlers/user.py:123-183 | Every outcome but AwaitingPayment records nothing. A purchase records exactly one pending order under the gateway's payment id, with the page's name and price. It also offers payment_kb for that payment. |
| Shop.BuyAccepts | handlers/user.py:145-181 | A purchase of an existing product with a unit left is accepted whenever the gateway creates a payment under a fresh id. |
| Shop.RefusalSkipsGateway | handlers/user.py:126-143 | Bad data, a missing product and no units left are refused exactly in those cases. They are refused before the gateway is asked, so the result is the same for any gateway answer, and nothing is recorded. |
| Shop.PageAgreesWithBuy | handlers/user.py:91-143 | For the same id, the product page is missing exactly when the purchase finds no product. The page shows 0 units exactly when the purchase says sold out. |
| Shop.BuyThenPay | handlers/user.py:123-260 | A purchase followed by a succeeded payment delivers the first unit, or, when the stripped stock is empty, answers that units ran out although the purchase accepted. |
| Shop.Start | handlers/user.py:54-65 | /start records the user once (INSERT OR IGNORE) and shows the main menu. |
| Shop.ShowCatalog | handlers/user.py:73-89 | An empty catalog offers only the way back. Otherwise each row's button opens that product's page. |
| Shop.BuyProduct | handlers/user.py:123-183 | The outcome and the new orders are those of Buy. Products are never touched. |
| Shop.CheckPaymentStatus | handlers/user.py:185-270 | The outcome and the new tables are those of Settle. |
| Shop.ShowProduct | handlers/user.py:91-121 | The product page as a function. Its properties are stated by Shop.PageAgreesWithBuy. |
| Shop.Buy | handlers/user.py:123-183 | The purchase as a function of the tables and the gateway's answer. Its properties are stated by Shop.BuyRecordsOrder, Shop.BuyAccepts and Shop.RefusalSkipsGateway. |
| Shop.Settle | handlers/user.py:185-270 | The payment check as a function of the tables and the gateway's report. Its properties are stated by Shop.SettleClaimsOneUnit, Shop.PendingPaymentClaims, Shop.SettleWhenPaid and Shop.DeliverOnce. |
| Shop.Deliver | handlers/user.py:194-262 | The succeeded branch of the payment check, as a function. Its properties are stated by Shop.SettleClaimsOneUnit and Shop.PendingPaymentClaims. |
| Admin.GuardDenies | handlers/admin.py:31-33 | A non-admin is refused at every guarded entry point, and no table or dialog state changes. |
| Admin.GuardAdmits | handlers/admin.py:35-58 | The admin is never refused. The menu, stats and orders pages are shown with their keyboards. |
| Admin.AddDialogAddsProduct | handlers/admin.py:68-161 | The dialog run in order advances name, description, price, type, stock. The last step inserts exactly the described product under the next id and clears the dialog. |
| Admin.PriceStepOutcomes | handlers/admin.py:93-113 | A price float() refuses keeps state and data unchanged. An accepted one is stored and the state moves to the type step. |
| Admin.StockChoice | handlers/admin.py:119-133 | The skip word, in any case, means an empty stock unless a file product got a document. A file product stores the document id. A text product stores the text. Only a file product without a document or the skip word is refused. |
| Admin.StockStepAddsOnce | handlers/admin.py:115-161 | The stock step either refuses (dialog kept), crashes (nothing written), or inserts one product. That product reads back under the reported id with the reported count, and the dialog is cleared. |
| Admin.NewPriceOutcomes | handlers/admin.py:276-293 | A refused price changes nothing. An accepted one changes only that product's price, when it still exists, and clears the dialog. |
| Admin.NewDescriptionOutcomes | handlers/admin.py:311-324 | Only that product's description changes. A message without text changes no row, and the dialog is cleared. |
| Admin.TextRestock | handlers/admin.py:388-404 | The new lines follow the current ones. The reported count is the old count plus the new pieces, and equals the new displayed count for non-empty text. Only that product's stock changes. |
| Admin.FileRestock | handlers/admin.py:375-387 | A document replaces the stock. Without a document nothing is written. The dialog is cleared either way. |
| Admin.DetailButtonsOpenSteps | handlers/admin.py:221-258 | Each button of a product's page starts its step for that product's id, and delete asks to confirm that product. |
| Admin.ConfirmThenDelete | handlers/admin.py:408-440 | Confirm removes exactly that product and keeps every other. Cancel shows its page again. |
| Admin.RecentOrders | handlers/admin.py:473-497 | The order page lists min(10, orders), newest first, and is empty exactly when there are no orders. |
| Admin.CommandOf | handlers/admin.py:35 | A command is recognised exactly when the text starts with "/"; it is then the whole first word after "/": it holds no space and ends at the end of the text or at the first space. |
| Admin.FirstMessageRoute | handlers/admin.py:79-116 | Nothing handles the message exactly when no registered filter accepts it. |
| Admin.MessageDispatch | handlers/admin.py:35-361 | /start and /admin are answered in every state. Any other message goes to the step the state waits for, and is dropped in Idle and in the type step. |
| Admin.CmdAdmin | handlers/admin.py:35-45 | The admin gets the menu and anyone else is denied. |
| Admin.AddProductStart | handlers/admin.py:68-77 | The new dialog state is that of StartAdding. |
| Admin.ProductName | handlers/admin.py:79-84 | The new dialog state is that of TakeName. |
| Admin.ProductDescription | handlers/admin.py:86-91 | The new dialog state is that of TakeDescription. |
| Admin.ProductPrice | handlers/admin.py:93-113 | The new dialog state is that of TakePrice. |
| Admin.ProductType | handlers/admin.py:164-195 | The new dialog state is that of ChooseType. |
| Admin.ProductStock | handlers/admin.py:115-161 | The reply, dialog and products are those of TakeStock. Orders and users are untouched. |
| Admin.EditPriceStart | handlers/admin.py:262-274 | The new dialog state is that of StartEdit, moving into the new price step. |
| Admin.EditDescStart | handlers/admin.py:297-309 | The new dialog state is that of StartEdit, moving into the new description step. |
| Admin.EditPriceFinish | handlers/admin.py:276-293 | The reply, dialog and products are those of TakeNewPrice. |
| Admin.EditDescFinish | handlers/admin.py:311-324 | The reply, dialog and products are those of TakeNewDescription. |
| Admin.AddStockStart | handlers/admin.py:328-358 | The new dialog state is that of StartRestock. A missing product answers "not found". |
| Admin.AddStockFinish | handlers/admin.py:360-404 | The reply, dialog and products are those of TakeRestock. |
| Admin.DeleteFinish | handlers/admin.py:426-440 | The reply and products are those of DeleteStep. |
| Admin.ProductsList | handlers/admin.py:199-219 | A non-admin is denied. An empty table offers only the way back. Otherwise each row's button opens that product's page with its count and action buttons. |
| Admin.Dialog.constructor | handlers/admin.py:20-29 | A fresh dialog is in no state with no data stored. |
| Admin.IsAdmin | handlers/admin.py:31-33 | The guard: the caller is the administrator exactly when the ids are equal. Stated by Admin.GuardDenies and Admin.GuardAdmits. |
| Admin.IsSkip | handlers/admin.py:126 | The skip-word test on the lowered text. Stated by Admin.StockChoice. |
| Admin.MenuPage | handlers/admin.py:35-58 | The admin menu, as a function. Stated by Admin.GuardDenies and Admin.GuardAdmits. |
| Admin.StartAdding | handlers/admin.py:68-77 | Entering the add dialog, as a function. Stated by Admin.AddDialogAddsProduct and Admin.GuardDenies. |
| Admin.TakeName | handlers/admin.py:79-84 | The name step, as a function. Stated by Admin.AddDialogAddsProduct. |
| Admin.TakeDescription | handlers/admin.py:86-91 | The description step, as a function. Stated by Admin.AddDialogAddsProduct. |
| Admin.TakePrice | handlers/admin.py:93-113 | The price step, as a function. Stated by Admin.PriceStepOutcomes and Admin.AddDialogAddsProduct. |
| Admin.ChooseType | handlers/admin.py:164-195 | The type step, as a function. Stated by Admin.AddDialogAddsProduct. |
| Admin.KindOf | handlers/admin.py:119 | The stored product type, text when none was stored. Stated by Admin.StockStepAddsOnce. |
| Admin.StockFrom | handlers/admin.py:119-133 | The stock the stock step stores, or a refusal. Stated by Admin.StockChoice. |
| Admin.TakeStock | handlers/admin.py:115-161 | The stock step, as a function. Stated by Admin.StockStepAddsOnce and Admin.AddDialogAddsProduct. |
| Admin.StartEdit | handlers/admin.py:262-274 | Entering a price or description edit (also handlers/admin.py:297-309), as a function. Stated by Admin.DetailButtonsOpenSteps and Admin.GuardDenies. |
| Admin.TakeNewPrice | handlers/admin.py:276-293 | The new-price step, as a function. Stated by Admin.NewPriceOutcomes. |
| Admin.TakeNewDescription | handlers/admin.py:311-324 | The new-description step, as a function. Stated by Admin.NewDescriptionOutcomes. |
| Admin.StartRestock | handlers/admin.py:328-358 | Entering a restock, as a function. Stated by Admin.DetailButtonsOpenSteps and Admin.GuardDenies. |
| Admin.TakeRestock | handlers/admin.py:360-404 | The restock step, as a function. Stated by Admin.TextRestock and Admin.FileRestock. |
| Admin.ProductDetail | handlers/admin.py:221-258 | The admin product page, as a function. Stated by Admin.DetailButtonsOpenSteps and Admin.ProductsList. |
| Admin.DeleteConfirmation | handlers/admin.py:408-424 | The delete confirmation page, as a function. Stated by Admin.ConfirmThenDelete. |
| Admin.DeleteStep | handlers/admin.py:426-440 | The confirmed deletion, as a function. Stated by Admin.ConfirmThenDelete. |
| Admin.StatsReply | handlers/admin.py:444-469 | The statistics page, as a function. Stated by Admin.GuardAdmits; its figures by Stats.TopProductsCorrect and Stats.StatsTotals. |
| Admin.Recent | handlers/admin.py:491 | The first ten orders of get_all_orders. Stated by Admin.RecentOrders. |
| Admin.OrdersReply | handlers/admin.py:473-497 | The orders page, as a function. Stated by Admin.GuardAdmits and Admin.RecentOrders. |
| Routing.FirstMatch | main.py:38-39 | The first matching handler is taken, and nothing is taken exactly when no filter accepts. |
| Routing.TypeStepMisrouted | handlers/user.py:91-94 | As written, product_type_text and product_type_file reach the customer product page, and int("type") there raises. |
| Routing.TypeStepRouted | handlers/admin.py:164-195 | With the corrected product-page filter, the two type buttons reach the type step. |
| Routing.CorrectionOnlyTypeStep | handlers/user.py:91 | The corrected dispatch differs from the written one only on data starting with product_type_. |
| Routing.ProductDataRouted | handlers/user.py:91 | product_<id> reaches the product page. |
| Routing.BuyDataRouted | handlers/user.py:123 | buy_<id> reaches the purchase. |
| Routing.CheckPaymentDataRouted | handlers/user.py:185 | check_payment_<pid> reaches the payment check. |
| Routing.AdminProductDataRouted | handlers/admin.py:221 | admin_product_<id> reaches the admin product page. |
| Routing.UserMissesAdminData | main.py:38-39 | Data starting with admin_ passes every customer handler. |

## Left out

- `services/payment.py` is not part of this model. The gateway is a parameter: a `Result` of `create_payment` giving url and payment id, and a `Result` of `check_payment` giving status and paid. The success of sending a file or text unit is a boolean parameter.
- `main.py` and `config.py` start the bot, poll and load settings. Only the router order is modelled. `ADMIN_ID` is a parameter.
- SQL text, connections and `CURRENT_TIMESTAMP` are not modelled. Tables are sequences in insertion order and `created_at DESC` is the reverse order. The foreign key from orders to products is not enforced, as SQLite does not enforce it by default.
- A NULL `stock` is read as "", since every reader in the core treats the two alike.
- Concurrency is not modelled. The read-then-write in `get_stock_item` is racy between two buyers, and the model is sequential.
- Float parsing is a parameter: `float(message.text)` is an `Option<real>`. Prices are `real`, so rounding of REAL sums and the `:.2f` formatting are not modelled.
- Message texts, emoji and HTML are not modelled; only the kind of each reply and its keyboard are. The delivery calls `edit_text`, `answer` and `answer_document` are not modelled either.
- The static pages `back_to_main`, `show_info`, `show_support`, `cancel_payment` and `admin_menu`'s edit are modelled only through their keyboards. `admin_close` only deletes a message and is not modelled.
- PyStr.ParseInt: accepts an optional '-' and ASCII digits only, so it rejects the surrounding whitespace, '+', underscores and non-ASCII digits that Python's int() accepts. The product ids the keyboards write are plain decimals either way.
- PyStr.Lower: folds ASCII and the basic Cyrillic alphabet only, which covers the skip-word comparison.
- Admin.CommandOf: splits on a space only and ignores bot mentions (`/start@bot`), captions and aiogram's other Command options.
- Routing: the dispatch lemmas cover the type-step data and the id-carrying data families. The remaining literal callbacks are not proved one by one.
- Admin.Dialog: aiogram keeps one FSM context per chat and user. The model keeps the single dialog of the one administrator.
- Telegram delivery failures are modelled only for the unit delivery message (`sendOk`), where they matter to the store.

## Findings

| source | as written | input that shows it | evidently intended | confidence | as-written member | corrected member |
|---|---|---|---|---|---|---|
| main.py:38-39 with handlers/user.py:91-94 | The customer router is included first, and its product page takes every data starting with `product_`. That includes the admin's type buttons `product_type_text` and `product_type_file` (handlers/admin.py:103-104). There `int("type")` raises, so the type step (handlers/admin.py:164-195) is never reached and the add dialog stays in the type step. | callback data `product_type_text` while the admin dialog waits for the type | The type buttons reach the admin's type handlers, so the dialog goes on to the stock step | not executed | Routing.TypeStepMisrouted | Routing.TypeStepRouted |

The corrected dispatch gives the product page the filter "starts with
`product_` but not with `product_type_`". Routing.CorrectionOnlyTypeStep proves
it routes every other data exactly as written. The add-dialog lemmas
(Admin.AddDialogAddsProduct) take the type step as reached, which holds under
the corrected dispatch.
