/** One day at the warehouse, worked through on a fresh database.

    An admin opens the cash desk, 1000 kg are bought at 2 per kg, a sale of
    1200 kg is refused, 300 kg are sold at 5 per kg, and after that the
    purchase can no longer be deleted, because part of it has been sold.
    Editing the sale down to 200 kg then stores it under its old rowid. */
module Scenario {
  import opened LedgerState
  import opened Documents

  const Row := StockKey(1, 1)
  const Phone := "+77011234567"

  function Bought(): PurchaseForm
  {
    PurchaseForm("2024-05-01", "Farm", 1, 1, 1000.0, 2.0, 2000.0, 0.0, "cash", 1, "")
  }

  function SaleOf(qty: real, total: real): SaleForm
  {
    SaleForm("2024-05-02", "Aigerim", Phone, 1, 1, qty, 5.0, total, 0.0, "cash", 1, "")
  }

  /** The database after each committed step. */
  function DeskOpen(): Ledger
  {
    EmptyLedger().(money := map[1 := 0.0], accounts := Table(map[1 := Account("Kassa", "cash")]))
  }

  function AfterPurchase(): Ledger
  {
    DeskOpen().(stock := map[Row := 1000.0], money := map[1 := -2000.0],
                purchases := Table(map[1 := AsPurchase(Bought())]))
  }

  function AfterSale(): Ledger
  {
    AfterPurchase().(stock := map[Row := 700.0], money := map[1 := -500.0],
                     customers := map[CustomerKey("Aigerim", Phone) := 1],
                     sales := Table(map[1 := AsSale(SaleOf(300.0, 1500.0), 1)]))
  }

  lemma OpenDesk()
    ensures AddAccount(EmptyLedger(), {}, 42, "cash", "Kassa") == Committed(1, DeskOpen())
  {
  }

  lemma BuyThousand()
    ensures PurchaseConfirm(DeskOpen(), New, Bought()) == Committed(1, AfterPurchase())
  {
    var r := PurchaseCreate(DeskOpen(), Bought());
    assert r.Committed? && r.value == 1;
    assert r.ledger.stock == map[Row := 1000.0];
    assert r.ledger.money == map[1 := -2000.0];
  }

  lemma SellTooMuch()
    ensures SaleConfirm(AfterPurchase(), New, SaleOf(1200.0, 6000.0)) == Aborted(InsufficientStock, AfterPurchase())
  {
    assert AfterPurchase().stock[Row] < 1200.0;
  }

  lemma SellThreeHundred()
    ensures SaleConfirm(AfterPurchase(), New, SaleOf(300.0, 1500.0)) == Committed(1, AfterSale())
  {
    var r := SaleCreate(AfterPurchase(), SaleOf(300.0, 1500.0));
    assert r.Committed? && r.value == 1;
    assert r.ledger.stock == map[Row := 700.0];
    assert r.ledger.money == map[1 := -500.0];
  }

  lemma PurchaseNowLocked()
    ensures PurchaseDelete(AfterSale(), 1) == Aborted(RollbackBlocked, AfterSale())
  {
    assert AfterSale().purchases.rows[1].Key() == Row;
  }

  /** Editing the only sale down to 200 kg deletes row 1 before inserting,
      so SQLite gives the edited sale rowid 1 again; 100 kg go back to stock
      and 500 back out of the till. */
  lemma EditSaleReusesId()
    ensures var r := SaleConfirm(AfterSale(), Edit(1), SaleOf(200.0, 1000.0));
            && r.Committed? && r.value == 1
            && r.ledger.stock == map[Row := 800.0] && r.ledger.money == map[1 := -1000.0]
  {
    var r := SaleConfirm(AfterSale(), Edit(1), SaleOf(200.0, 1000.0));
    assert r.Committed?;
    assert AfterSale().sales.rows.Keys - {1} == {};
    assert r.ledger.stock.Keys == {Row};
    assert r.ledger.stock[Row] == 800.0;
    assert r.ledger.money.Keys == {1};
  }

  /** The whole day in one statement. */
  lemma OneDay()
    ensures var desk := AddAccount(EmptyLedger(), {}, 42, "cash", "Kassa");
            && desk.Committed?
            && var bought := PurchaseConfirm(desk.ledger, New, Bought());
            && bought.Committed? && bought.ledger.stock[Row] == 1000.0 && bought.ledger.money[1] == -2000.0
            && SaleConfirm(bought.ledger, New, SaleOf(1200.0, 6000.0)).Aborted?
            && var sold := SaleConfirm(bought.ledger, New, SaleOf(300.0, 1500.0));
            && sold.Committed? && sold.ledger.stock[Row] == 700.0 && sold.ledger.money[1] == -500.0
            && PurchaseDelete(sold.ledger, bought.value).Aborted?
  {
    OpenDesk();
    BuyThousand();
    SellTooMuch();
    SellThreeHundred();
    PurchaseNowLocked();
  }
}
