/** The database effects of the document handlers.

    Each handler runs in one session and commits at its end; a `return`
    before the commit, or an exception, discards every pending change. So
    each handler here returns `Committed` with the new ledger, or `Aborted`
    with a fault and the input ledger untouched.

    The edit branch of a confirm handler first rolls the old document back,
    with exactly the steps of the matching delete handler, and then creates
    the new document, all in one session. The confirm functions are written
    that way: delete, then create, and on any failure the original ledger. */
module Documents {
  import opened LedgerState
  import opened Balances
  import opened Customers
  import opened Access

  /** The answers the purchase wizard has collected when "Confirm" is pressed. */
  datatype PurchaseForm = PurchaseForm(
    dt: string,
    supplier: string,
    warehouse: WarehouseId,
    product: ProductId,
    qty: real,
    price: real,
    total: real,
    delivery: real,
    paymentMethod: string,
    account: AccountId,
    comment: string)
  {
    function Key(): StockKey { StockKey(warehouse, product) }
  }

  /** The answers the sale wizard has collected when "Confirm" is pressed. */
  datatype SaleForm = SaleForm(
    dt: string,
    customerName: string,
    customerPhone: string,
    warehouse: WarehouseId,
    product: ProductId,
    qty: real,
    price: real,
    total: real,
    delivery: real,
    paymentMethod: string,
    account: AccountId,
    comment: string)
  {
    function Key(): StockKey { StockKey(warehouse, product) }
  }

  /** What the wizard guarantees about its answers: a positive quantity,
      a non-negative price and delivery, the total it computed as quantity
      times price, a non-empty name and, for a sale, a phone of at least
      five characters. */
  predicate ValidPurchaseForm(f: PurchaseForm)
  {
    f.qty > 0.0 && f.price >= 0.0 && f.delivery >= 0.0 && f.total == f.qty * f.price && f.supplier != ""
  }

  predicate ValidSaleForm(f: SaleForm)
  {
    f.qty > 0.0 && f.price >= 0.0 && f.delivery >= 0.0 && f.total == f.qty * f.price
    && f.customerName != "" && |f.customerPhone| >= 5
  }

  /** The wizard's "new"/"edit" mode; an edit carries the id it replaces. */
  datatype Mode = New | Edit(editId: int)

  /** `mode == "edit" and edit_id`: an id of 0 is falsy and means "new". */
  function EditTarget(mode: Mode): (r: Option<DocId>)
    ensures r.Some? <==> mode.Edit? && mode.editId != 0
    ensures r.Some? ==> r.value == mode.editId
  {
    if mode.Edit? && mode.editId != 0 then Some(mode.editId) else None
  }

  function AsPurchase(f: PurchaseForm): Purchase
  {
    Purchase(f.dt, f.supplier, f.warehouse, f.product, f.qty, f.price, f.total,
             f.delivery, f.paymentMethod, f.account, f.comment)
  }

  function AsSale(f: SaleForm, customer: CustomerId): Sale
  {
    Sale(f.dt, customer, f.warehouse, f.product, f.qty, f.price, f.total,
         f.delivery, f.paymentMethod, f.account, f.comment)
  }

  /** `q` if `k` is the key `at`, zero otherwise: the change one document
      makes to one stock row or one account. */
  function At<K(==)>(k: K, at: K, q: real): real
  {
    if k == at then q else 0.0
  }

  // ---------------------------------------------------------------- purchases

  /** Stores a new purchase: stock rises by its quantity, the chosen account
      pays its total. The delivery cost is stored and nothing else. */
  function PurchaseCreate(st: Ledger, f: PurchaseForm): (r: Commit<DocId>)
    ensures r.Aborted? <==> f.account !in st.money
    ensures r.Aborted? ==> r.fault == NoMoneyRow && r.ledger == st
    ensures r.Committed? ==>
              && r.value == NextRowId(st.purchases.rows.Keys) && r.value !in st.purchases.rows
              && r.ledger.purchases.rows.Keys == st.purchases.rows.Keys + {r.value}
              && r.ledger.purchases.rows[r.value] == AsPurchase(f)
              && (forall id :: id in st.purchases.rows ==> r.ledger.purchases.rows[id] == st.purchases.rows[id])
    ensures r.Committed? ==>
              && r.ledger.stock.Keys == st.stock.Keys + {f.Key()}
              && (forall k :: Level(r.ledger.stock, k) == Level(st.stock, k) + At(k, f.Key(), f.qty))
    ensures r.Committed? ==>
              && r.ledger.money.Keys == st.money.Keys
              && (forall a :: a in st.money ==> r.ledger.money[a] == st.money[a] - At(a, f.account, f.total))
    ensures r.Committed? ==>
              r.ledger == st.(stock := r.ledger.stock, money := r.ledger.money, purchases := r.ledger.purchases)
  {
    var (id, purchases) := Insert(st.purchases, AsPurchase(f));
    var stock := StockAdd(st.stock, f.Key(), f.qty);
    match MoneySub(st.money, f.account, f.total)
    case None => Aborted(NoMoneyRow, st)
    case Some(money) => Committed(id, st.(stock := stock, money := money, purchases := purchases))
  }

  /** Deletes a purchase, taking its quantity back out of stock and refunding
      its total. Refused when the stock row no longer covers the quantity. */
  function PurchaseDelete(st: Ledger, id: DocId): (r: Commit<()>)
    ensures r.Aborted? ==> r.ledger == st
    ensures r.Aborted? ==> r.fault in {NotFound, RollbackBlocked, NoMoneyRow}
    ensures r.Aborted? && r.fault == NotFound <==> id !in st.purchases.rows
    ensures r.Aborted? && r.fault == RollbackBlocked <==>
              id in st.purchases.rows &&
              var p := st.purchases.rows[id];
              p.Key() !in st.stock || st.stock[p.Key()] < p.qty
    ensures r.Aborted? && r.fault == NoMoneyRow <==>
              id in st.purchases.rows &&
              var p := st.purchases.rows[id];
              p.Key() in st.stock && st.stock[p.Key()] >= p.qty && p.account !in st.money
    ensures r.Committed? ==>
              var p := st.purchases.rows[id];
              && id in st.purchases.rows
              && r.ledger.purchases.rows.Keys == st.purchases.rows.Keys - {id}
              && (forall i :: i in r.ledger.purchases.rows ==> r.ledger.purchases.rows[i] == st.purchases.rows[i])
              && r.ledger.stock.Keys == st.stock.Keys
              && (forall k :: Level(r.ledger.stock, k) == Level(st.stock, k) - At(k, p.Key(), p.qty))
              && Level(r.ledger.stock, p.Key()) >= 0.0
              && r.ledger.money.Keys == st.money.Keys
              && (forall a :: a in st.money ==> r.ledger.money[a] == st.money[a] + At(a, p.account, p.total))
              && r.ledger == st.(stock := r.ledger.stock, money := r.ledger.money, purchases := r.ledger.purchases)
  {
    if id !in st.purchases.rows then Aborted(NotFound, st)
    else
      var p := st.purchases.rows[id];
      match StockSub(st.stock, p.Key(), p.qty)
      case None => Aborted(RollbackBlocked, st)
      case Some(stock) =>
        match MoneyAdd(st.money, p.account, p.total)
        case None => Aborted(NoMoneyRow, st)
        case Some(money) =>
          Committed((), st.(stock := stock, money := money, purchases := Delete(st.purchases, id)))
  }

  /** The edit branch of the purchase wizard's "confirm" button: the old
      purchase is deleted and flushed, then the form is stored as a new
      purchase in the same transaction. The new row gets the next rowid of
      the table without the old row, and nothing is written unless both steps
      go through. */
  function PurchaseEdit(st: Ledger, id: DocId, f: PurchaseForm): (r: Commit<DocId>)
    ensures r.Aborted? ==> r.ledger == st
    ensures r.Aborted? ==> r.fault in {NotFound, RollbackBlocked, NoMoneyRow}
    ensures r.Aborted? && r.fault == NotFound <==> id !in st.purchases.rows
    ensures r.Aborted? && r.fault == RollbackBlocked <==>
              id in st.purchases.rows &&
              var prev := st.purchases.rows[id];
              prev.Key() !in st.stock || st.stock[prev.Key()] < prev.qty
    ensures r.Committed? <==>
              && id in st.purchases.rows
              && var prev := st.purchases.rows[id];
              && prev.Key() in st.stock && st.stock[prev.Key()] >= prev.qty
              && prev.account in st.money && f.account in st.money
    ensures r.Committed? ==>
              && id in st.purchases.rows
              && r.value == NextRowId(st.purchases.rows.Keys - {id})
              && r.ledger.purchases.rows.Keys == st.purchases.rows.Keys - {id} + {r.value}
              && r.ledger.purchases.rows[r.value] == AsPurchase(f)
              && (forall i :: i in st.purchases.rows && i != id ==> r.ledger.purchases.rows[i] == st.purchases.rows[i])
              && r.ledger.money.Keys == st.money.Keys
              && r.ledger == st.(stock := r.ledger.stock, money := r.ledger.money, purchases := r.ledger.purchases)
    ensures r.Committed? ==>
              && id in st.purchases.rows
              && var prev := st.purchases.rows[id];
              && (forall k :: Level(r.ledger.stock, k) == Level(st.stock, k) - At(k, prev.Key(), prev.qty) + At(k, f.Key(), f.qty))
              && (forall a :: a in st.money ==>
                    a in r.ledger.money && r.ledger.money[a] == st.money[a] + At(a, prev.account, prev.total) - At(a, f.account, f.total))
    ensures r.Committed? ==> r.ledger.stock.Keys == st.stock.Keys + {f.Key()}
  {
    match PurchaseDelete(st, id)
    case Aborted(fault, _) => Aborted(fault, st)
    case Committed(_, rolledBack) =>
      match PurchaseCreate(rolledBack, f)
      case Aborted(fault, _) => Aborted(fault, st)
      case Committed(newId, done) => Committed(newId, done)
  }

  /** The "confirm" button of the purchase wizard: a new purchase, or an
      edit of the one the wizard was opened on. Either way a committed
      purchase stores the form as it was confirmed. */
  function PurchaseConfirm(st: Ledger, mode: Mode, f: PurchaseForm): (r: Commit<DocId>)
    ensures r.Aborted? ==> r.ledger == st
    ensures EditTarget(mode).None? ==> r == PurchaseCreate(st, f)
    ensures EditTarget(mode).Some? ==> r == PurchaseEdit(st, EditTarget(mode).value, f)
    ensures r.Committed? ==> r.value in r.ledger.purchases.rows && r.ledger.purchases.rows[r.value] == AsPurchase(f)
  {
    match EditTarget(mode)
    case None => PurchaseCreate(st, f)
    case Some(id) => PurchaseEdit(st, id, f)
  }

  // -------------------------------------------------------------------- sales

  /** Stores a new sale: gets or creates the customer, takes the quantity out
      of stock (refused when the row does not cover it), and pays the total
      into the chosen account. */
  function SaleCreate(st: Ledger, f: SaleForm): (r: Commit<DocId>)
    ensures r.Aborted? ==> r.ledger == st
    ensures r.Aborted? ==> r.fault in {InsufficientStock, NoMoneyRow}
    ensures r.Aborted? && r.fault == InsufficientStock <==> f.Key() !in st.stock || st.stock[f.Key()] < f.qty
    ensures r.Aborted? && r.fault == NoMoneyRow <==>
              f.Key() in st.stock && st.stock[f.Key()] >= f.qty && f.account !in st.money
    ensures r.Committed? ==>
              var key := CustomerKey(f.customerName, f.customerPhone);
              && key in r.ledger.customers
              && r.value == NextRowId(st.sales.rows.Keys) && r.value !in st.sales.rows
              && r.ledger.sales.rows.Keys == st.sales.rows.Keys + {r.value}
              && r.ledger.sales.rows[r.value] == AsSale(f, r.ledger.customers[key])
              && (forall id :: id in st.sales.rows ==> r.ledger.sales.rows[id] == st.sales.rows[id])
    ensures r.Committed? ==>
              && r.ledger.stock.Keys == st.stock.Keys
              && (forall k :: Level(r.ledger.stock, k) == Level(st.stock, k) - At(k, f.Key(), f.qty))
              && Level(r.ledger.stock, f.Key()) >= 0.0
    ensures r.Committed? ==>
              && r.ledger.money.Keys == st.money.Keys
              && (forall a :: a in st.money ==> r.ledger.money[a] == st.money[a] + At(a, f.account, f.total))
    ensures r.Committed? ==>
              && r.ledger.customers == UpsertCustomer(st, f.customerName, f.customerPhone).1.customers
              && r.ledger == st.(stock := r.ledger.stock, money := r.ledger.money, sales := r.ledger.sales,
                                 customers := r.ledger.customers)
  {
    var (customer, withCustomer) := UpsertCustomer(st, f.customerName, f.customerPhone);
    match StockSub(st.stock, f.Key(), f.qty)
    case None => Aborted(InsufficientStock, st)
    case Some(stock) =>
      var (id, sales) := Insert(st.sales, AsSale(f, customer));
      match MoneyAdd(st.money, f.account, f.total)
      case None => Aborted(NoMoneyRow, st)
      case Some(money) => Committed(id, withCustomer.(stock := stock, money := money, sales := sales))
  }

  /** Deletes a sale, unconditionally putting its quantity back into stock
      and taking its total back out of the account. */
  function SaleDelete(st: Ledger, id: DocId): (r: Commit<()>)
    ensures r.Aborted? ==> r.ledger == st
    ensures r.Aborted? ==> r.fault in {NotFound, NoMoneyRow}
    ensures r.Aborted? && r.fault == NotFound <==> id !in st.sales.rows
    ensures r.Aborted? && r.fault == NoMoneyRow <==>
              id in st.sales.rows && st.sales.rows[id].account !in st.money
    ensures r.Committed? ==>
              var s := st.sales.rows[id];
              && id in st.sales.rows
              && r.ledger.sales.rows.Keys == st.sales.rows.Keys - {id}
              && (forall i :: i in r.ledger.sales.rows ==> r.ledger.sales.rows[i] == st.sales.rows[i])
              && r.ledger.stock.Keys == st.stock.Keys + {s.Key()}
              && (forall k :: Level(r.ledger.stock, k) == Level(st.stock, k) + At(k, s.Key(), s.qty))
              && r.ledger.money.Keys == st.money.Keys
              && (forall a :: a in st.money ==> r.ledger.money[a] == st.money[a] - At(a, s.account, s.total))
              && r.ledger == st.(stock := r.ledger.stock, money := r.ledger.money, sales := r.ledger.sales)
  {
    if id !in st.sales.rows then Aborted(NotFound, st)
    else
      var s := st.sales.rows[id];
      var stock := StockAdd(st.stock, s.Key(), s.qty);
      match MoneySub(st.money, s.account, s.total)
      case None => Aborted(NoMoneyRow, st)
      case Some(money) =>
        Committed((), st.(stock := stock, money := money, sales := Delete(st.sales, id)))
  }

  /** The edit branch of the sale wizard's "confirm" button: the old sale is
      deleted and flushed, then the form is stored as a new sale in the same
      transaction. The new row gets the next rowid of the table without the
      old row, and nothing is written unless both steps go through. */
  function SaleEdit(st: Ledger, id: DocId, f: SaleForm): (r: Commit<DocId>)
    ensures r.Aborted? ==> r.ledger == st
    ensures r.Aborted? ==> r.fault in {NotFound, InsufficientStock, NoMoneyRow}
    ensures r.Aborted? && r.fault == NotFound <==> id !in st.sales.rows
    ensures r.Committed? <==>
              && id in st.sales.rows
              && var prev := st.sales.rows[id];
              && prev.account in st.money && f.account in st.money
              && (f.Key() in st.stock || f.Key() == prev.Key())
              && Level(st.stock, f.Key()) + At(f.Key(), prev.Key(), prev.qty) >= f.qty
    ensures r.Committed? ==>
              var key := CustomerKey(f.customerName, f.customerPhone);
              && key in r.ledger.customers
              && r.value in r.ledger.sales.rows
              && r.ledger.sales.rows[r.value] == AsSale(f, r.ledger.customers[key])
              && r.ledger.customers == UpsertCustomer(st, f.customerName, f.customerPhone).1.customers
              && r.ledger.money.Keys == st.money.Keys
              && r.ledger == st.(stock := r.ledger.stock, money := r.ledger.money, sales := r.ledger.sales,
                                 customers := r.ledger.customers)
    ensures r.Committed? ==>
              && id in st.sales.rows
              && r.value == NextRowId(st.sales.rows.Keys - {id})
              && r.ledger.sales.rows.Keys == st.sales.rows.Keys - {id} + {r.value}
              && (forall i :: i in st.sales.rows && i != id ==> r.ledger.sales.rows[i] == st.sales.rows[i])
    ensures r.Committed? ==>
              && id in st.sales.rows
              && var prev := st.sales.rows[id];
              && (forall k :: Level(r.ledger.stock, k) == Level(st.stock, k) + At(k, prev.Key(), prev.qty) - At(k, f.Key(), f.qty))
              && (forall a :: a in st.money ==>
                    a in r.ledger.money && r.ledger.money[a] == st.money[a] - At(a, prev.account, prev.total) + At(a, f.account, f.total))
    ensures r.Committed? ==> id in st.sales.rows && r.ledger.stock.Keys == st.stock.Keys + {st.sales.rows[id].Key()}
  {
    match SaleDelete(st, id)
    case Aborted(fault, _) => Aborted(fault, st)
    case Committed(_, rolledBack) =>
      match SaleCreate(rolledBack, f)
      case Aborted(fault, _) => Aborted(fault, st)
      case Committed(newId, done) => Committed(newId, done)
  }

  /** The "confirm" button of the sale wizard: a new sale, or an edit of the
      one the wizard was opened on. Either way a committed sale stores the
      form against the upserted customer and touches nothing but stock,
      money, sales and customers. */
  function SaleConfirm(st: Ledger, mode: Mode, f: SaleForm): (r: Commit<DocId>)
    ensures r.Aborted? ==> r.ledger == st
    ensures EditTarget(mode).None? ==> r == SaleCreate(st, f)
    ensures EditTarget(mode).Some? ==> r == SaleEdit(st, EditTarget(mode).value, f)
    ensures r.Committed? ==>
              var key := CustomerKey(f.customerName, f.customerPhone);
              && key in r.ledger.customers
              && r.value in r.ledger.sales.rows
              && r.ledger.sales.rows[r.value] == AsSale(f, r.ledger.customers[key])
              && r.ledger.customers == UpsertCustomer(st, f.customerName, f.customerPhone).1.customers
              && r.ledger.money.Keys == st.money.Keys
              && r.ledger == st.(stock := r.ledger.stock, money := r.ledger.money, sales := r.ledger.sales,
                                 customers := r.ledger.customers)
  {
    match EditTarget(mode)
    case None => SaleCreate(st, f)
    case Some(id) => SaleEdit(st, id, f)
  }

  // ----------------------------------------------------------------- accounts

  /** Adds an account of type "cash" or "bank" together with its Money row,
      which starts at zero. Only admins may do so; names are unique. */
  function AddAccount(st: Ledger, admins: set<int>, user: int, kind: string, name: string): (r: Commit<AccountId>)
    ensures r.Aborted? ==> r.ledger == st
    ensures r.Aborted? ==> r.fault in {AccessDenied, BadAccountType, DuplicateAccount}
    ensures r.Aborted? && r.fault == AccessDenied <==> !IsAdmin(admins, user)
    ensures r.Aborted? && r.fault == BadAccountType <==> IsAdmin(admins, user) && kind != "cash" && kind != "bank"
    ensures r.Aborted? && r.fault == DuplicateAccount <==>
              && IsAdmin(admins, user) && (kind == "cash" || kind == "bank")
              && exists id :: id in st.accounts.rows && st.accounts.rows[id].name == name
    ensures r.Committed? ==>
              && r.value == NextRowId(st.accounts.rows.Keys) && r.value !in st.accounts.rows
              && r.ledger.accounts.rows.Keys == st.accounts.rows.Keys + {r.value}
              && r.ledger.accounts.rows[r.value] == Account(name, kind)
              && (forall id :: id in st.accounts.rows ==> r.ledger.accounts.rows[id] == st.accounts.rows[id])
              && r.ledger.money == st.money[r.value := 0.0]
              && r.ledger == st.(accounts := r.ledger.accounts, money := r.ledger.money)
  {
    if !IsAdmin(admins, user) then Aborted(AccessDenied, st)
    else if kind != "cash" && kind != "bank" then Aborted(BadAccountType, st)
    else if exists id :: id in st.accounts.rows && st.accounts.rows[id].name == name then Aborted(DuplicateAccount, st)
    else
      var (id, accounts) := Insert(st.accounts, Account(name, kind));
      Committed(id, st.(accounts := accounts, money := st.money[id := 0.0]))
  }
}
