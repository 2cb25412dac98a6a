/** What editing a document does to the balances.

    An edit rolls the old document back and books the new one in one
    session. Re-confirming a sale unchanged therefore always goes through
    and leaves stock and money as they were; re-confirming a purchase
    unchanged does the same, unless later sales have used up the stock the
    purchase brought in, in which case it is refused. */
module Edits {
  import opened LedgerState
  import opened Balances
  import opened Documents
  import opened Conservation

  /** Two stock tables with the same rows and the same levels are equal. */
  lemma SameLevelsSameStock(a: map<StockKey, real>, b: map<StockKey, real>)
    requires a.Keys == b.Keys
    requires forall k :: Level(a, k) == Level(b, k)
    ensures a == b
  {
    forall k | k in a
      ensures a[k] == b[k]
    {
      assert Level(a, k) == Level(b, k);
    }
  }

  /** Confirming an edit of a sale with its own warehouse, product,
      quantity, total and account commits, and leaves every stock row and
      every balance exactly as it was. */
  lemma SaleReconfirmKeepsBalances(st: Ledger, id: DocId, f: SaleForm)
    requires Inv(st)
    requires id != 0 && id in st.sales.rows
    requires var s := st.sales.rows[id];
             f.Key() == s.Key() && f.qty == s.qty && f.total == s.total && f.account == s.account
    ensures SaleConfirm(st, Edit(id), f).Committed?
    ensures SaleConfirm(st, Edit(id), f).ledger.stock == st.stock
    ensures SaleConfirm(st, Edit(id), f).ledger.money == st.money
  {
    var s := st.sales.rows[id];
    assert s.account in st.money && s.Key() in st.stock && st.stock[s.Key()] >= 0.0;
    SaleRedoKeepsBalances(st, id, f);
  }

  lemma SaleRedoKeepsBalances(st: Ledger, id: DocId, f: SaleForm)
    requires id != 0 && id in st.sales.rows
    requires var s := st.sales.rows[id];
             && f.Key() == s.Key() && f.qty == s.qty && f.total == s.total && f.account == s.account
             && s.account in st.money && s.Key() in st.stock && st.stock[s.Key()] >= 0.0
    ensures SaleConfirm(st, Edit(id), f).Committed?
    ensures SaleConfirm(st, Edit(id), f).ledger.stock == st.stock
    ensures SaleConfirm(st, Edit(id), f).ledger.money == st.money
  {
    var s := st.sales.rows[id];
    var d := SaleDelete(st, id);
    assert d.Committed?;
    var rolled := d.ledger;
    assert rolled.stock.Keys == st.stock.Keys;
    assert Level(rolled.stock, s.Key()) == Level(st.stock, s.Key()) + s.qty;
    var c := SaleCreate(rolled, f);
    assert c.Committed?;
    assert SaleConfirm(st, Edit(id), f) == c;
    forall k
      ensures Level(c.ledger.stock, k) == Level(st.stock, k)
    {
      assert Level(c.ledger.stock, k) == Level(rolled.stock, k) - At(k, f.Key(), f.qty);
      assert Level(rolled.stock, k) == Level(st.stock, k) + At(k, s.Key(), s.qty);
    }
    SameLevelsSameStock(c.ledger.stock, st.stock);
    forall a | a in st.money
      ensures c.ledger.money[a] == st.money[a]
    {
      assert c.ledger.money[a] == rolled.money[a] + At(a, f.account, f.total);
    }
  }

  /** Confirming an edit of a purchase with its own warehouse, product,
      quantity, total and account commits exactly when the stock row still
      covers the purchase's quantity, and then leaves every stock row and
      every balance exactly as it was. */
  lemma PurchaseReconfirmKeepsBalances(st: Ledger, id: DocId, f: PurchaseForm)
    requires Inv(st)
    requires id != 0 && id in st.purchases.rows
    requires var p := st.purchases.rows[id];
             f.Key() == p.Key() && f.qty == p.qty && f.total == p.total && f.account == p.account
    ensures PurchaseConfirm(st, Edit(id), f).Committed? <==> st.stock[f.Key()] >= f.qty
    ensures PurchaseConfirm(st, Edit(id), f).ledger.stock == st.stock
    ensures PurchaseConfirm(st, Edit(id), f).ledger.money == st.money
  {
    assert DocumentsWellFormed(st);
    PurchaseRedoKeepsBalances(st, id, f);
    assert PurchaseConfirm(st, Edit(id), f) == PurchaseEdit(st, id, f);
  }

  lemma PurchaseRedoKeepsBalances(st: Ledger, id: DocId, f: PurchaseForm)
    requires id in st.purchases.rows
    requires var p := st.purchases.rows[id];
             && f.Key() == p.Key() && f.qty == p.qty && f.total == p.total && f.account == p.account
             && p.Key() in st.stock && p.account in st.money
    ensures PurchaseEdit(st, id, f).Committed? <==> st.stock[f.Key()] >= f.qty
    ensures PurchaseEdit(st, id, f).ledger.stock == st.stock
    ensures PurchaseEdit(st, id, f).ledger.money == st.money
  {
    var p := st.purchases.rows[id];
    var d := PurchaseDelete(st, id);
    if d.Committed? {
      var rolled := d.ledger;
      var c := PurchaseCreate(rolled, f);
      assert c.Committed? && PurchaseEdit(st, id, f) == c;
      forall k
        ensures Level(c.ledger.stock, k) == Level(st.stock, k)
      {
        assert Level(c.ledger.stock, k) == Level(rolled.stock, k) + At(k, f.Key(), f.qty);
        assert Level(rolled.stock, k) == Level(st.stock, k) - At(k, p.Key(), p.qty);
      }
      SameLevelsSameStock(c.ledger.stock, st.stock);
      forall a | a in st.money
        ensures c.ledger.money[a] == st.money[a]
      {
        assert c.ledger.money[a] == rolled.money[a] - At(a, f.account, f.total);
      }
    }
  }

  /** Editing a sale may reuse the stock its old version held: the edit is
      refused for want of stock exactly when the current row, plus the old
      quantity if the old sale was on the same row, is short of the new
      quantity. */
  lemma SaleEditStockThreshold(st: Ledger, id: DocId, f: SaleForm)
    requires Inv(st) && f.qty > 0.0
    requires id != 0 && id in st.sales.rows
    ensures var r := SaleConfirm(st, Edit(id), f);
            var s := st.sales.rows[id];
            r.Aborted? && r.fault == InsufficientStock <==>
              Level(st.stock, f.Key()) + At(f.Key(), s.Key(), s.qty) < f.qty
  {
    var s := st.sales.rows[id];
    var d := SaleDelete(st, id);
    assert d.Committed?;
    var rolled := d.ledger;
    assert Level(rolled.stock, f.Key()) == Level(st.stock, f.Key()) + At(f.Key(), s.Key(), s.qty);
  }

  /** Editing or deleting a purchase is refused exactly when its stock row
      holds less than the purchase brought in. */
  lemma PurchaseRollbackThreshold(st: Ledger, id: DocId, f: PurchaseForm)
    requires Inv(st)
    requires id != 0 && id in st.purchases.rows
    ensures var p := st.purchases.rows[id];
            var r := PurchaseConfirm(st, Edit(id), f);
            r.Aborted? && r.fault == RollbackBlocked <==> st.stock[p.Key()] < p.qty
    ensures var p := st.purchases.rows[id];
            var r := PurchaseDelete(st, id);
            r.Aborted? && r.fault == RollbackBlocked <==> st.stock[p.Key()] < p.qty
  {
  }

  /** The delivery cost is only stored: two purchase confirmations that
      differ in it alone commit or abort alike and leave the same stock and
      money. */
  lemma PurchaseDeliveryNeverTouchesBalances(st: Ledger, mode: Mode, f: PurchaseForm, delivery: real)
    ensures var r1 := PurchaseConfirm(st, mode, f);
            var r2 := PurchaseConfirm(st, mode, f.(delivery := delivery));
            r1.Committed? == r2.Committed? && r1.ledger.stock == r2.ledger.stock && r1.ledger.money == r2.ledger.money
  {
    var g := f.(delivery := delivery);
    match EditTarget(mode)
    case None =>
      PurchaseCreateIgnoresDelivery(st, f, g);
    case Some(id) =>
      var d := PurchaseDelete(st, id);
      if d.Committed? {
        PurchaseCreateIgnoresDelivery(d.ledger, f, g);
      }
  }

  lemma PurchaseCreateIgnoresDelivery(st: Ledger, f: PurchaseForm, g: PurchaseForm)
    requires g == f.(delivery := g.delivery)
    ensures var r1 := PurchaseCreate(st, f);
            var r2 := PurchaseCreate(st, g);
            r1.Committed? == r2.Committed? && r1.ledger.stock == r2.ledger.stock && r1.ledger.money == r2.ledger.money
  {
    assert f.Key() == g.Key();
  }

  /** The same for sales. */
  lemma SaleDeliveryNeverTouchesBalances(st: Ledger, mode: Mode, f: SaleForm, delivery: real)
    ensures var r1 := SaleConfirm(st, mode, f);
            var r2 := SaleConfirm(st, mode, f.(delivery := delivery));
            r1.Committed? == r2.Committed? && r1.ledger.stock == r2.ledger.stock && r1.ledger.money == r2.ledger.money
  {
    var g := f.(delivery := delivery);
    match EditTarget(mode)
    case None =>
      SaleCreateIgnoresDelivery(st, f, g);
    case Some(id) =>
      var d := SaleDelete(st, id);
      if d.Committed? {
        SaleCreateIgnoresDelivery(d.ledger, f, g);
      }
  }

  lemma SaleCreateIgnoresDelivery(st: Ledger, f: SaleForm, g: SaleForm)
    requires g == f.(delivery := g.delivery)
    ensures var r1 := SaleCreate(st, f);
            var r2 := SaleCreate(st, g);
            r1.Committed? == r2.Committed? && r1.ledger.stock == r2.ledger.stock && r1.ledger.money == r2.ledger.money
  {
    assert f.Key() == g.Key();
  }
}
