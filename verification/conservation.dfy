/** The bookkeeping invariant the document handlers keep.

    Starting from an empty database, after any sequence of confirmed and
    deleted documents:
      - the stock row of (warehouse, product) holds the purchased quantity
        minus the sold quantity of that pair, and is never negative;
      - the balance of every account is the sum of its sale totals minus
        the sum of its purchase totals (accounts start at zero). */
module Conservation {
  import opened LedgerState
  import opened Balances
  import opened Customers
  import opened Documents
  import opened Sums

  // ------------------------------------------------------ what documents add up to

  function PurchaseQtyAt(k: StockKey): Purchase -> real
  {
    (p: Purchase) => if p.Key() == k then p.qty else 0.0
  }

  function SaleQtyAt(k: StockKey): Sale -> real
  {
    (s: Sale) => if s.Key() == k then s.qty else 0.0
  }

  function PurchaseTotalOn(a: AccountId): Purchase -> real
  {
    (p: Purchase) => if p.account == a then p.total else 0.0
  }

  function SaleTotalOn(a: AccountId): Sale -> real
  {
    (s: Sale) => if s.account == a then s.total else 0.0
  }

  ghost function Purchased(st: Ledger, k: StockKey): real
  {
    SumOf(st.purchases.rows, PurchaseQtyAt(k))
  }

  ghost function Sold(st: Ledger, k: StockKey): real
  {
    SumOf(st.sales.rows, SaleQtyAt(k))
  }

  ghost function PaidOut(st: Ledger, a: AccountId): real
  {
    SumOf(st.purchases.rows, PurchaseTotalOn(a))
  }

  ghost function TakenIn(st: Ledger, a: AccountId): real
  {
    SumOf(st.sales.rows, SaleTotalOn(a))
  }

  // ------------------------------------------------------------- the invariant

  ghost predicate StockConserved(st: Ledger)
  {
    forall k :: Level(st.stock, k) == Purchased(st, k) - Sold(st, k)
  }

  ghost predicate MoneyConserved(st: Ledger)
  {
    forall a :: a in st.money ==> st.money[a] == TakenIn(st, a) - PaidOut(st, a)
  }

  ghost predicate StockNonNegative(st: Ledger)
  {
    forall k :: k in st.stock ==> st.stock[k] >= 0.0
  }

  /** Stored documents have positive quantities and point at rows that exist. */
  ghost predicate DocumentsWellFormed(st: Ledger)
  {
    && (forall id :: id in st.purchases.rows ==>
          var p := st.purchases.rows[id];
          p.qty > 0.0 && p.account in st.money && p.Key() in st.stock)
    && (forall id :: id in st.sales.rows ==>
          var s := st.sales.rows[id];
          s.qty > 0.0 && s.account in st.money && s.Key() in st.stock && s.customer in st.customers.Values)
  }

  /** Money rows belong to accounts of the catalog, and customer ids are
      unique. */
  ghost predicate TablesWellFormed(st: Ledger)
  {
    && (forall a :: a in st.money ==> a in st.accounts.rows)
    && CustomersWellFormed(st)
  }

  ghost predicate Inv(st: Ledger)
  {
    && StockConserved(st)
    && MoneyConserved(st)
    && StockNonNegative(st)
    && DocumentsWellFormed(st)
    && TablesWellFormed(st)
  }

  lemma EmptyLedgerInv()
    ensures Inv(EmptyLedger())
  {
    var st := EmptyLedger();
    forall k
      ensures Level(st.stock, k) == Purchased(st, k) - Sold(st, k)
    {
      SumOfZero(st.purchases.rows, PurchaseQtyAt(k));
      SumOfZero(st.sales.rows, SaleQtyAt(k));
    }
  }

  // ----------------------------------------- one document more or less

  /** `big` holds one purchase more than `small` and its stock rows are
      raised by that purchase's quantity. Then stock is conserved in one
      exactly when it is in the other: this covers adding a purchase and
      deleting one. */
  lemma PurchaseStockStep(small: Ledger, big: Ledger, id: DocId, p: Purchase)
    requires id !in small.purchases.rows
    requires big.purchases.rows == small.purchases.rows[id := p]
    requires big.sales.rows == small.sales.rows
    requires forall k :: Level(big.stock, k) == Level(small.stock, k) + At(k, p.Key(), p.qty)
    ensures StockConserved(small) <==> StockConserved(big)
  {
    forall k
      ensures Purchased(big, k) == Purchased(small, k) + At(k, p.Key(), p.qty)
    {
      PurchasedStep(small, big, id, p, k);
    }
  }

  lemma PurchasedStep(small: Ledger, big: Ledger, id: DocId, p: Purchase, k: StockKey)
    requires id !in small.purchases.rows
    requires big.purchases.rows == small.purchases.rows[id := p]
    ensures Purchased(big, k) == Purchased(small, k) + At(k, p.Key(), p.qty)
  {
    SumOfInsert(small.purchases.rows, PurchaseQtyAt(k), id, p);
  }

  /** `big` holds one purchase more than `small` and its account has paid
      that purchase's total. */
  lemma PurchaseMoneyStep(small: Ledger, big: Ledger, id: DocId, p: Purchase)
    requires id !in small.purchases.rows
    requires big.purchases.rows == small.purchases.rows[id := p]
    requires big.sales.rows == small.sales.rows
    requires big.money.Keys == small.money.Keys
    requires forall a :: a in small.money ==> big.money[a] == small.money[a] - At(a, p.account, p.total)
    ensures MoneyConserved(small) <==> MoneyConserved(big)
  {
    forall a
      ensures PaidOut(big, a) == PaidOut(small, a) + At(a, p.account, p.total)
    {
      SumOfInsert(small.purchases.rows, PurchaseTotalOn(a), id, p);
    }
  }

  /** `big` holds one sale more than `small` and its stock rows are lowered
      by that sale's quantity. */
  lemma SaleStockStep(small: Ledger, big: Ledger, id: DocId, s: Sale)
    requires id !in small.sales.rows
    requires big.sales.rows == small.sales.rows[id := s]
    requires big.purchases.rows == small.purchases.rows
    requires forall k :: Level(big.stock, k) == Level(small.stock, k) - At(k, s.Key(), s.qty)
    ensures StockConserved(small) <==> StockConserved(big)
  {
    forall k
      ensures Sold(big, k) == Sold(small, k) + At(k, s.Key(), s.qty)
    {
      SumOfInsert(small.sales.rows, SaleQtyAt(k), id, s);
    }
  }

  /** `big` holds one sale more than `small` and its account has received
      that sale's total. */
  lemma SaleMoneyStep(small: Ledger, big: Ledger, id: DocId, s: Sale)
    requires id !in small.sales.rows
    requires big.sales.rows == small.sales.rows[id := s]
    requires big.purchases.rows == small.purchases.rows
    requires big.money.Keys == small.money.Keys
    requires forall a :: a in small.money ==> big.money[a] == small.money[a] + At(a, s.account, s.total)
    ensures MoneyConserved(small) <==> MoneyConserved(big)
  {
    forall a
      ensures TakenIn(big, a) == TakenIn(small, a) + At(a, s.account, s.total)
    {
      SumOfInsert(small.sales.rows, SaleTotalOn(a), id, s);
    }
  }

  // ---------------------------------------------------------------- purchases

  lemma {:induction false} PurchaseCreatePreservesInv(st: Ledger, f: PurchaseForm)
    requires Inv(st) && ValidPurchaseForm(f)
    ensures Inv(PurchaseCreate(st, f).ledger)
  {
    PurchaseCreateConserves(st, f);
    PurchaseCreateKeepsStockNonNegative(st, f);
    PurchaseCreateKeepsDocumentsWellFormed(st, f);
  }

  lemma PurchaseCreateConserves(st: Ledger, f: PurchaseForm)
    requires StockConserved(st) && MoneyConserved(st)
    ensures StockConserved(PurchaseCreate(st, f).ledger) && MoneyConserved(PurchaseCreate(st, f).ledger)
  {
    var r := PurchaseCreate(st, f);
    if r.Committed? {
      var st', id, p := r.ledger, r.value, AsPurchase(f);
      assert st'.purchases.rows == st.purchases.rows[id := p];
      assert p.Key() == f.Key();
      PurchaseStockStep(st, st', id, p);
      PurchaseMoneyStep(st, st', id, p);
    }
  }

  lemma PurchaseCreateKeepsStockNonNegative(st: Ledger, f: PurchaseForm)
    requires StockNonNegative(st) && f.qty > 0.0
    ensures StockNonNegative(PurchaseCreate(st, f).ledger)
  {
    var r := PurchaseCreate(st, f);
    if r.Committed? {
      forall k | k in r.ledger.stock
        ensures r.ledger.stock[k] >= 0.0
      {
        assert Level(r.ledger.stock, k) == Level(st.stock, k) + At(k, f.Key(), f.qty);
      }
    }
  }

  lemma PurchaseCreateKeepsDocumentsWellFormed(st: Ledger, f: PurchaseForm)
    requires DocumentsWellFormed(st) && TablesWellFormed(st) && f.qty > 0.0
    ensures DocumentsWellFormed(PurchaseCreate(st, f).ledger) && TablesWellFormed(PurchaseCreate(st, f).ledger)
  {
  }

  lemma {:induction false} PurchaseDeletePreservesInv(st: Ledger, id: DocId)
    requires Inv(st)
    ensures Inv(PurchaseDelete(st, id).ledger)
  {
    var r := PurchaseDelete(st, id);
    if r.Committed? {
      var st', p := r.ledger, st.purchases.rows[id];
      assert st.purchases.rows == st'.purchases.rows[id := p];
      forall k
        ensures Level(st.stock, k) == Level(st'.stock, k) + At(k, p.Key(), p.qty)
      {
      }
      forall a | a in st'.money
        ensures st.money[a] == st'.money[a] - At(a, p.account, p.total)
      {
      }
      PurchaseStockStep(st', st, id, p);
      PurchaseMoneyStep(st', st, id, p);
      forall k | k in st'.stock
        ensures st'.stock[k] >= 0.0
      {
        assert Level(st'.stock, k) == Level(st.stock, k) - At(k, p.Key(), p.qty);
      }
    }
  }

  lemma {:induction false} PurchaseConfirmPreservesInv(st: Ledger, mode: Mode, f: PurchaseForm)
    requires Inv(st) && ValidPurchaseForm(f)
    ensures Inv(PurchaseConfirm(st, mode, f).ledger)
  {
    match EditTarget(mode)
    case None =>
      PurchaseCreatePreservesInv(st, f);
    case Some(id) =>
      PurchaseDeletePreservesInv(st, id);
      var d := PurchaseDelete(st, id);
      if d.Committed? {
        PurchaseCreatePreservesInv(d.ledger, f);
      }
  }

  // -------------------------------------------------------------------- sales

  lemma {:induction false} SaleCreatePreservesInv(st: Ledger, f: SaleForm)
    requires Inv(st) && ValidSaleForm(f)
    ensures Inv(SaleCreate(st, f).ledger)
  {
    SaleCreateConserves(st, f);
    SaleCreateKeepsStockNonNegative(st, f);
    SaleCreateKeepsDocumentsWellFormed(st, f);
  }

  lemma SaleCreateConserves(st: Ledger, f: SaleForm)
    requires StockConserved(st) && MoneyConserved(st)
    ensures StockConserved(SaleCreate(st, f).ledger) && MoneyConserved(SaleCreate(st, f).ledger)
  {
    var r := SaleCreate(st, f);
    if r.Committed? {
      var st', id := r.ledger, r.value;
      var s := AsSale(f, st'.customers[CustomerKey(f.customerName, f.customerPhone)]);
      assert st'.sales.rows == st.sales.rows[id := s];
      assert s.Key() == f.Key();
      SaleStockStep(st, st', id, s);
      SaleMoneyStep(st, st', id, s);
    }
  }

  lemma SaleCreateKeepsStockNonNegative(st: Ledger, f: SaleForm)
    requires StockNonNegative(st)
    ensures StockNonNegative(SaleCreate(st, f).ledger)
  {
    var r := SaleCreate(st, f);
    if r.Committed? {
      forall k | k in r.ledger.stock
        ensures r.ledger.stock[k] >= 0.0
      {
        assert Level(r.ledger.stock, k) == Level(st.stock, k) - At(k, f.Key(), f.qty);
      }
    }
  }

  lemma SaleCreateKeepsDocumentsWellFormed(st: Ledger, f: SaleForm)
    requires DocumentsWellFormed(st) && TablesWellFormed(st) && f.qty > 0.0
    ensures DocumentsWellFormed(SaleCreate(st, f).ledger) && TablesWellFormed(SaleCreate(st, f).ledger)
  {
    var r := SaleCreate(st, f);
    if r.Committed? {
      var st', id := r.ledger, r.value;
      forall i | i in st'.sales.rows
        ensures st'.sales.rows[i].customer in st'.customers.Values
      {
        if i != id {
          var c := st.sales.rows[i].customer;
          var ck :| ck in st.customers && st.customers[ck] == c;
          assert ck in st'.customers && st'.customers[ck] == c;
        }
      }
    }
  }

  lemma {:induction false} SaleDeletePreservesInv(st: Ledger, id: DocId)
    requires Inv(st)
    ensures Inv(SaleDelete(st, id).ledger)
  {
    var r := SaleDelete(st, id);
    if r.Committed? {
      var st', s := r.ledger, st.sales.rows[id];
      assert st.sales.rows == st'.sales.rows[id := s];
      forall k
        ensures Level(st.stock, k) == Level(st'.stock, k) - At(k, s.Key(), s.qty)
      {
      }
      forall a | a in st'.money
        ensures st.money[a] == st'.money[a] + At(a, s.account, s.total)
      {
      }
      SaleStockStep(st', st, id, s);
      SaleMoneyStep(st', st, id, s);
      forall k | k in st'.stock
        ensures st'.stock[k] >= 0.0
      {
        assert Level(st'.stock, k) == Level(st.stock, k) + At(k, s.Key(), s.qty);
      }
    }
  }

  lemma {:induction false} SaleConfirmPreservesInv(st: Ledger, mode: Mode, f: SaleForm)
    requires Inv(st) && ValidSaleForm(f)
    ensures Inv(SaleConfirm(st, mode, f).ledger)
  {
    match EditTarget(mode)
    case None =>
      SaleCreatePreservesInv(st, f);
    case Some(id) =>
      SaleDeletePreservesInv(st, id);
      var d := SaleDelete(st, id);
      if d.Committed? {
        SaleCreatePreservesInv(d.ledger, f);
      }
  }

  // ----------------------------------------------------------------- accounts

  lemma {:induction false} AddAccountPreservesInv(st: Ledger, admins: set<int>, user: int, kind: string, name: string)
    requires Inv(st)
    ensures Inv(AddAccount(st, admins, user, kind, name).ledger)
  {
    var r := AddAccount(st, admins, user, kind, name);
    if r.Committed? {
      var st', a := r.ledger, r.value;
      assert a !in st.money;
      NoDocumentsOnUnknownAccount(st, a);
      assert MoneyConserved(st');
      assert TablesWellFormed(st');
    }
  }

  /** An account without a Money row has neither paid nor received anything. */
  lemma NoDocumentsOnUnknownAccount(st: Ledger, a: AccountId)
    requires DocumentsWellFormed(st) && a !in st.money
    ensures TakenIn(st, a) == 0.0 && PaidOut(st, a) == 0.0
  {
    forall id | id in st.sales.rows
      ensures SaleTotalOn(a)(st.sales.rows[id]) == 0.0
    {
      assert st.sales.rows[id].account != a;
    }
    forall id | id in st.purchases.rows
      ensures PurchaseTotalOn(a)(st.purchases.rows[id]) == 0.0
    {
      assert st.purchases.rows[id].account != a;
    }
    SumOfZero(st.sales.rows, SaleTotalOn(a));
    SumOfZero(st.purchases.rows, PurchaseTotalOn(a));
  }
}
