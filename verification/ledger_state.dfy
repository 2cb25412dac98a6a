/** The database of the stock-keeping bot, as an immutable value.

    Every table of the SQLite schema that the ledger logic touches is a
    field of `Ledger`: the stock counters per (warehouse, product), the money
    balance per account, the account catalog, the customers, and the two
    document tables, purchases ("Приход") and sales ("Продажа"). Quantities
    and amounts are exact reals; the program stores them as floats. */
module LedgerState {

  datatype Option<T> = None | Some(value: T)

  type WarehouseId = int
  type ProductId = int
  type AccountId = int
  type CustomerId = int
  type DocId = int

  /** The unique (warehouse_id, product_id) key of a stock row. */
  datatype StockKey = StockKey(warehouse: WarehouseId, product: ProductId)

  /** The unique (name, phone) key of a customer row. */
  datatype CustomerKey = CustomerKey(name: string, phone: string)

  /** An account of the catalog; `kind` is "cash" or "bank". */
  datatype Account = Account(name: string, kind: string)

  /** A stored purchase (incoming stock) document. */
  datatype Purchase = Purchase(
    dt: string,
    supplier: string,
    warehouse: WarehouseId,
    product: ProductId,
    qty: real,
    price: real,
    total: real,
    delivery: real,
    paymentMethod: string,
    account: AccountId,
    comment: string)
  {
    function Key(): StockKey { StockKey(warehouse, product) }
  }

  /** A stored sale (outgoing stock) document; the customer is a row id. */
  datatype Sale = Sale(
    dt: string,
    customer: CustomerId,
    warehouse: WarehouseId,
    product: ProductId,
    qty: real,
    price: real,
    total: real,
    delivery: real,
    paymentMethod: string,
    account: AccountId,
    comment: string)
  {
    function Key(): StockKey { StockKey(warehouse, product) }
  }

  /** A table with an integer primary key, which SQLite stores as the rowid. */
  datatype Table<T> = Table(rows: map<int, T>)

  /** A non-empty set of ids has a largest element. */
  lemma {:induction false} MaxExists(ids: set<int>)
    requires ids != {}
    ensures exists m :: m in ids && forall i :: i in ids ==> i <= m
    decreases |ids|
  {
    assert exists y :: y in ids by {
      if forall y :: y !in ids { assert false; }
    }
    var x :| x in ids;
    var rest := ids - {x};
    if rest == {} {
      forall i | i in ids
        ensures i <= x
      {
        assert i !in rest;
      }
    } else {
      assert |rest| < |ids|;
      MaxExists(rest);
      var m :| m in rest && forall i :: i in rest ==> i <= m;
      var top := if x <= m then m else x;
      forall i | i in ids
        ensures i <= top
      {
        if i != x {
          assert i in rest;
        }
      }
      assert top in ids;
    }
  }

  function MaxId(ids: set<int>): (m: int)
    requires ids != {}
    ensures m in ids && forall i :: i in ids ==> i <= m
  {
    MaxExists(ids);
    var m :| m in ids && forall i :: i in ids ==> i <= m;
    m
  }

  /** The rowid SQLite gives a new row when the key column is not
      AUTOINCREMENT: one more than the largest id in use, or 1 when there is
      none. The id of a deleted last row is therefore handed out again. */
  function NextRowId(ids: set<int>): (id: int)
    ensures id !in ids
    ensures forall i :: i in ids ==> i < id
    ensures ids == {} ==> id == 1
    ensures ids != {} ==> id - 1 in ids
  {
    if ids == {} then 1 else MaxId(ids) + 1
  }

  /** Inserts a row under the next rowid and returns that id. */
  function Insert<T>(t: Table<T>, row: T): (r: (int, Table<T>))
    ensures r.0 == NextRowId(t.rows.Keys) && r.0 !in t.rows
    ensures r.1.rows.Keys == t.rows.Keys + {r.0}
    ensures r.1.rows[r.0] == row
    ensures forall id :: id in t.rows ==> r.1.rows[id] == t.rows[id]
  {
    var id := NextRowId(t.rows.Keys);
    (id, Table(t.rows[id := row]))
  }

  function Delete<T>(t: Table<T>, id: int): (r: Table<T>)
    ensures r.rows.Keys == t.rows.Keys - {id}
    ensures forall i :: i in r.rows ==> r.rows[i] == t.rows[i]
  {
    Table(t.rows - {id})
  }

  function EmptyTable<T>(): (r: Table<T>)
    ensures |r.rows| == 0
  {
    Table(map[])
  }

  datatype Ledger = Ledger(
    stock: map<StockKey, real>,
    money: map<AccountId, real>,
    accounts: Table<Account>,
    customers: map<CustomerKey, CustomerId>,
    purchases: Table<Purchase>,
    sales: Table<Sale>)

  /** A freshly created database: every table empty. */
  function EmptyLedger(): Ledger
  {
    Ledger(map[], map[], EmptyTable(), map[], EmptyTable(), EmptyTable())
  }

  /** Why a handler returned before `commit()`. */
  datatype Fault =
    | NotFound           // the document to edit or delete does not exist
    | InsufficientStock  // stock_sub refused the sale quantity
    | RollbackBlocked    // stock_sub refused to take back a purchase
    | NoMoneyRow         // scalar_one() found no Money row for the account
    | AccessDenied       // is_admin refused the user
    | BadAccountType     // account type other than "cash" or "bank"
    | DuplicateAccount   // the account name is already taken

  /** The result of one handler run inside one session: either everything
      was committed, or nothing was and the ledger is the input ledger. */
  datatype Commit<T> =
    | Committed(value: T, ledger: Ledger)
    | Aborted(fault: Fault, ledger: Ledger)
}
