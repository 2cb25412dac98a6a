# sklad-uchet-bot ledger, modelled in Dafny

The bot keeps warehouse books. Stock is kept in kilograms per (warehouse,
product). Money is kept per cash or bank account. Purchases ("Приход")
bring stock in and pay for it from an account. Sales ("Продажа") take
stock out and pay money into an account. Every document can be edited or
deleted later, and editing or deleting rolls its effect back.

This project models the database side of that logic in `main.py`:

- the four balance primitives;
- the customer get-or-create;
- phone normalisation and the admin test;
- the commit paths of the purchase and sale confirm handlers, in both
  their "new" and "edit" modes;
- the two delete handlers;
- account creation with its zero-balance `Money` row.

The database is an immutable `Ledger` record of maps. Each handler is a
pure function that returns either `Committed(value, ledger)` or
`Aborted(fault, ledger)`. In the aborted case the ledger is the input
unchanged. This matches the source: a handler that returns before
`s.commit()`, or raises, drops every change made in its session.

Quantities and amounts are exact `real`s, and ids are `int`s. The
tables use an `Integer` primary key without AUTOINCREMENT, so SQLite gives
a new row one more than the largest id present, or 1 in an empty table
(`LedgerState.NextRowId`). After the row with the largest id is deleted,
its id is handed out again. An edit deletes the old row and flushes before
inserting the new one, so an edited document may get its old id back.

Files:

- `sums.dfy`: a choice-independent sum over a map, with its insert and
  remove laws.
- `ledger_state.dfy`: the entities (stock key, account, customer key,
  purchase, sale), tables with id allocation, the ledger and the outcome
  type.
- `balances.dfy`: `stock_add`, `stock_sub`, `money_add`, `money_sub`.
- `customers.dfy`: `upsert_customer`.
- `access.dfy`: `is_admin`.
- `phone.dfy`: `normalize_phone` and the sale wizard's length test.
- `documents.dfy`: the purchase and sale handlers and `add_account`.
- `conservation.dfy`: the bookkeeping invariant and its preservation by
  every handler.
- `edits.dfy`: what an edit does to the balances.
- `history.dfy`: any sequence of handler runs from an empty database.
- `scenario.dfy`: one concrete day of operations, worked through.

The bookkeeping invariant (`Conservation.Inv`) has three parts:

- Every stock row equals the purchased quantity minus the sold quantity at
  that (warehouse, product).
- No stock row is negative.
- Every account balance equals the sale totals minus the purchase totals
  booked on it.

`History.LedgerBalancesFromEmpty` proves that this invariant holds after
any sequence of confirms, edits, deletes and account creations, starting
from an empty database. The only assumption is the checks the wizard makes
on each form: quantity > 0, price ≥ 0, delivery ≥ 0, total = quantity ×
price, a non-empty supplier or customer name, and a phone of at least 5
characters.

## Model

| member | source | states |
|---|---|---|
| `LedgerState.NextRowId` | main.py:97 | the id of a new row is not in use, is above every id in use, is 1 in an empty table and otherwise one more than an id in use, i.e. SQLite's max(rowid)+1 |
| `Balances.StockAdd` | main.py:258-265 | creates the (warehouse, product) row at 0 if absent and raises it by exactly `qty`; every other row's level is unchanged |
| `Balances.StockSub` | main.py:268-275 | refuses (None) exactly when the row is absent or holds less than `qty`; otherwise lowers that row by exactly `qty`, so it stays ≥ 0, and leaves every other row alone |
| `Balances.MoneyAdd` | main.py:278-280 | fails exactly when the account has no Money row (`scalar_one` raises); otherwise raises that balance by `amount` and keeps every other balance and the set of rows |
| `Balances.MoneySub` | main.py:283-285 | fails exactly when the account has no Money row; otherwise lowers that balance by `amount` with no lower bound, other balances unchanged |
| `Balances.StockStaysNonNegative` | main.py:258-275 | on a table with no negative row, adding a non-negative quantity or a successful subtraction leaves no negative row |
| `Balances.StockSubUndoesAdd` | main.py:258-275 | subtracting what was just added always succeeds and restores the table; the only difference is a 0 row left behind when the row was new |
| `Balances.StockAddUndoesSub` | main.py:258-275 | adding back what a successful subtraction took restores the table exactly |
| `Balances.MoneySubUndoesAdd` | main.py:278-285 | on an existing account, `money_sub` undoes `money_add` and vice versa |
| `Balances.MoneyMayGoNegative` | main.py:283-285 | `money_sub` of more than the balance still succeeds and leaves a negative balance |
| `Customers.UpsertCustomer` | main.py:247-255 | returns the id stored under (name, phone); an existing pair changes nothing; a new pair adds exactly one customer with an id not used before and keeps every other entry; nothing outside the customers table changes |
| `Customers.UpsertIdempotent` | main.py:247-255 | a second call with the same name and phone returns the same id and leaves the ledger as the first call left it |
| `Access.IsAdmin` | main.py:157-158 | with no admins configured everyone is admin; otherwise exactly the listed users are |
| `Phone.StripLeftKeepsSuffix` | main.py:201 | the result is a suffix of the text that does not start with whitespace, and everything dropped was whitespace (the left half of `str.strip`) |
| `Phone.StripRightKeepsPrefix` | main.py:201 | the result is a prefix that does not end with whitespace, and everything dropped was whitespace |
| `Phone.KeepPhoneChars` | main.py:199-201 | the result holds only `0-9` and `+`, is a subsequence of the input, and keeps every such character as often as the input has it |
| `Phone.NormalizeIgnoresStrip` | main.py:199-201 | stripping surrounding whitespace first never changes the normalised phone |
| `Phone.NormalizeIdempotent` | main.py:199-201 | normalising a normalised phone returns it unchanged |
| `Phone.NormalizeCharacterised` | main.py:199-201 | a string is the normalised phone if and only if it is made of phone characters, is a subsequence of the input, and has the input's count of every phone character |
| `Phone.PhoneAcceptedCharacterised` | main.py:738-741 | the sale wizard accepts a typed phone exactly when at least five phone characters can be picked out of it in order |
| `Documents.EditTarget` | main.py:648-651 | the rollback branch runs exactly in edit mode with a non-zero id (Python truthiness of `edit_id`) |
| `Documents.PurchaseCreate` | main.py:668-684 | aborts, changing nothing, exactly when the chosen account has no Money row; otherwise stores the form as a new purchase under a fresh id, raises its stock row by `qty`, lowers the account by `total`, and changes nothing else |
| `Documents.PurchaseDelete` | main.py:1093-1109 | aborts with NotFound exactly when the id is absent, with RollbackBlocked exactly when its stock row is absent or holds less than its quantity, with NoMoneyRow exactly when the stock covers it but its account has no Money row, and with nothing else; a commit removes the row, lowers stock by its quantity, returns its total to its account and changes nothing else |
| `Documents.PurchaseEdit` | main.py:648-684 | aborts, changing nothing, only with NotFound, RollbackBlocked or NoMoneyRow: NotFound exactly when the old id is absent, RollbackBlocked exactly when the old purchase's stock row is absent or short; commits exactly when the old purchase exists, its stock row covers its quantity and both accounts have Money rows; a commit replaces the old row by the form under the next rowid of the table without the old row, keeps every other purchase, changes only stock, money and purchases, adds no stock row but the form's, and moves every stock row and balance by the new purchase minus the old one |
| `Documents.PurchaseConfirm` | main.py:639-688 | any abort leaves the ledger untouched; new mode is exactly a purchase create and edit mode with a non-zero id exactly a purchase edit; a commit in either mode stores the form as confirmed |
| `Documents.SaleCreate` | main.py:911-934 | gets or creates the customer, then aborts with InsufficientStock exactly when the stock row is absent or short, with NoMoneyRow exactly when stock covers it but the account has no Money row, and with nothing else; a commit stores the sale with that customer under the next rowid, lowers stock by `qty`, raises the account by `total` and changes nothing but stock, money, sales and customers |
| `Documents.SaleDelete` | main.py:1004-1018 | aborts with NotFound exactly when the id is absent and with NoMoneyRow exactly when its account has no Money row, and with nothing else, so it never depends on stock; a commit returns its quantity to stock, takes its total from its account and removes the row |
| `Documents.SaleEdit` | main.py:899-934 | aborts, changing nothing, customers included, only with NotFound, InsufficientStock or NoMoneyRow, and with NotFound exactly when the old id is absent; commits exactly when the old sale exists, both accounts have Money rows and the stock row, with the old quantity returned, covers the new one; a commit stores the form with the looked-up customer under the next rowid of the table without the old row, keeps every other sale, changes only stock, money, sales and customers, adds no stock row but the old sale's, and moves every stock row and balance by the new sale minus the old one |
| `Documents.SaleConfirm` | main.py:888-938 | any abort leaves the ledger untouched; new mode is exactly a sale create and edit mode with a non-zero id exactly a sale edit; a commit in either mode stores the form with the customer upserted from its name and phone and changes only stock, money, sales and customers |
| `Documents.AddAccount` | main.py:388-409 | aborts with AccessDenied exactly for non-admins, with BadAccountType exactly for an admin giving a type other than cash/bank, with DuplicateAccount exactly when the name is taken, and with nothing else; otherwise adds the account under the next rowid and a Money row at 0 for it, nothing else |
| `Conservation.EmptyLedgerInv` | main.py:139-142 | the freshly created database satisfies the bookkeeping invariant |
| `Conservation.PurchaseStockStep` | main.py:668-684 | adding a purchase row together with its quantity on its stock row keeps stock = purchased − sold, in both directions |
| `Conservation.PurchaseMoneyStep` | main.py:668-684 | adding a purchase row together with its total taken from its account keeps balance = sales − purchases, in both directions |
| `Conservation.SaleStockStep` | main.py:911-934 | the same for a sale row and its quantity taken from stock |
| `Conservation.SaleMoneyStep` | main.py:911-934 | the same for a sale row and its total paid into its account |
| `Conservation.PurchaseCreatePreservesInv` | main.py:668-684 | confirming a new purchase keeps the bookkeeping invariant |
| `Conservation.PurchaseDeletePreservesInv` | main.py:1093-1109 | deleting a purchase, or being refused, keeps the invariant |
| `Conservation.PurchaseConfirmPreservesInv` | main.py:639-688 | confirming a purchase in either mode keeps the invariant |
| `Conservation.SaleCreatePreservesInv` | main.py:911-934 | confirming a new sale keeps the invariant |
| `Conservation.SaleCreateKeepsStockNonNegative` | main.py:912-916 | the stock guard of a sale keeps every stock row ≥ 0 |
| `Conservation.SaleDeletePreservesInv` | main.py:1004-1018 | deleting a sale keeps the invariant |
| `Conservation.SaleConfirmPreservesInv` | main.py:888-938 | confirming a sale in either mode keeps the invariant |
| `Conservation.AddAccountPreservesInv` | main.py:388-409 | adding an account with a zero Money row keeps the invariant |
| `Conservation.NoDocumentsOnUnknownAccount` | main.py:407 | when every document's account has a Money row, an account without one has no sale or purchase totals |
| `Edits.SaleReconfirmKeepsBalances` | main.py:899-934 | re-confirming a sale edit with the same row, quantity, total and account always commits and leaves stock and money exactly as they were |
| `Edits.PurchaseReconfirmKeepsBalances` | main.py:650-684 | re-confirming a purchase edit unchanged commits exactly when its stock row still covers its quantity, and leaves stock and money exactly as they were |
| `Edits.SaleEditStockThreshold` | main.py:899-925 | a sale edit is refused for stock exactly when the row's level, plus the old quantity if the old sale was on the same row, is below the new quantity |
| `Edits.PurchaseRollbackThreshold` | main.py:657-663 | a purchase edit, and a purchase delete, is refused for stock exactly when its row holds less than its quantity |
| `Edits.PurchaseDeliveryNeverTouchesBalances` | main.py:668-684 | two purchase confirmations differing only in delivery cost commit alike and give the same stock and money |
| `Edits.SaleDeliveryNeverTouchesBalances` | main.py:911-934 | two sale confirmations differing only in delivery cost commit alike and give the same stock and money |
| `History.ApplyPreservesInv` | main.py:639-1109 | one handler run on a wizard-checked form keeps the invariant, whatever its outcome |
| `History.ReplayPreservesInv` | main.py:639-1109 | any sequence of handler runs keeps the invariant |
| `History.LedgerBalancesFromEmpty` | main.py:139-1109 | from an empty database, after any history, stock = purchased − sold per row and is never negative, and every balance = sale totals − purchase totals |
| `Scenario.OpenDesk` | main.py:388-409 | an admin-less bot lets anyone open a cash account, which gets id 1 and a zero balance |
| `Scenario.BuyThousand` | main.py:668-684 | buying 1000 kg at 2 leaves 1000 kg in stock and −2000 on the account |
| `Scenario.SellTooMuch` | main.py:912-916 | selling 1200 kg against 1000 kg is refused and changes nothing |
| `Scenario.SellThreeHundred` | main.py:911-934 | selling 300 kg at 5 leaves 700 kg, −500 on the account and one new customer |
| `Scenario.PurchaseNowLocked` | main.py:1102-1105 | after that sale, deleting the 1000 kg purchase is refused |
| `Scenario.EditSaleReusesId` | main.py:899-934 | editing the only sale down to 200 kg commits under rowid 1 again and leaves 800 kg and −1000 on the account |

## Left out

- The aiogram handlers, the FSM wizard steps, keyboards, message texts and list views (`limit(50)`) are left out. They are UI. The cancel buttons only clear the wizard and touch no table.
- The wizard's stock check in `sale_qty` (main.py:781-791) is left out. It refuses a quantity above the current stock row before the confirm step is reached. It does not add back the old sale's quantity in edit mode. So the program as a whole refuses more than `Edits.SaleEditStockThreshold` describes: for example, a sale that used up its whole stock row cannot be edited to any quantity on the same row. The model covers only the confirm handler, whose `stock_sub` is checked again at confirm time.
- `parse_pos_float` and `parse_date_yyyy_mm_dd` are left out. They depend on Python's `float()` grammar and on `strptime`. Their results appear only as the form predicates `ValidPurchaseForm` and `ValidSaleForm`, which are assumed of every form.
- `today_str` and `yesterday_str` are left out because they read the wall clock. The date is an opaque string field.
- Float rounding is not modelled. Quantities and amounts are exact reals.
- SQLAlchemy session mechanics, `init_db` and the engine are left out. A commit is the new ledger; an early return or exception is the input ledger.
- Concurrency between handlers is not modelled. The source takes no locks.
- Environment and token loading are left out. The admin list is a parameter of `IsAdmin` and `AddAccount`.
- The text parsing of `/add_account` is left out; the account type and name arrive already split. `/add_warehouse` and `/add_product` are left out too.
- Warehouse, product and account foreign keys are not checked. SQLite does not enforce them unless asked to, and the source never asks.
- SQLite's special case for a table whose largest rowid is already the largest 64-bit integer, where it picks an unused id at random, is left out. Ids are unbounded integers.
- Only the database outcome of a handler is modelled, not the message it sends.
- There is no movement log, no debtor record and no paid/unpaid flag. The code has none of them.
- The report views `show_stock` and `show_money` only read tables and are left out.
