/** The four balance primitives the document handlers are built from.

    Stock is a guarded counter per (warehouse, product): `StockAdd` creates a
    zero row on first use and raises it, `StockSub` refuses (and changes
    nothing) unless the row exists and holds at least the quantity. Money is
    unguarded: `MoneyAdd` and `MoneySub` move a balance either way and may
    drive it below zero, but they fail when the account has no Money row
    (the program's `scalar_one()` raises then). */
module Balances {
  import opened LedgerState

  /** The quantity on hand for a key; a missing row reads as zero. */
  function Level(stock: map<StockKey, real>, k: StockKey): real
  {
    if k in stock then stock[k] else 0.0
  }

  function StockAdd(stock: map<StockKey, real>, k: StockKey, qty: real): (r: map<StockKey, real>)
    ensures r.Keys == stock.Keys + {k}
    ensures Level(r, k) == Level(stock, k) + qty
    ensures forall k' :: k' != k ==> Level(r, k') == Level(stock, k')
  {
    var current := if k in stock then stock[k] else 0.0;
    stock[k := current + qty]
  }

  function StockSub(stock: map<StockKey, real>, k: StockKey, qty: real): (r: Option<map<StockKey, real>>)
    ensures r.None? <==> k !in stock || stock[k] < qty
    ensures r.Some? ==> r.value.Keys == stock.Keys
    ensures r.Some? ==> r.value[k] == stock[k] - qty && r.value[k] >= 0.0
    ensures r.Some? ==> forall k' :: k' != k ==> Level(r.value, k') == Level(stock, k')
  {
    if k !in stock || stock[k] < qty then None
    else Some(stock[k := stock[k] - qty])
  }

  function MoneyAdd(money: map<AccountId, real>, acct: AccountId, amount: real): (r: Option<map<AccountId, real>>)
    ensures r.None? <==> acct !in money
    ensures r.Some? ==> r.value.Keys == money.Keys
    ensures r.Some? ==> r.value[acct] == money[acct] + amount
    ensures r.Some? ==> forall a :: a in money && a != acct ==> r.value[a] == money[a]
  {
    if acct !in money then None
    else Some(money[acct := money[acct] + amount])
  }

  function MoneySub(money: map<AccountId, real>, acct: AccountId, amount: real): (r: Option<map<AccountId, real>>)
    ensures r.None? <==> acct !in money
    ensures r.Some? ==> r.value.Keys == money.Keys
    ensures r.Some? ==> r.value[acct] == money[acct] - amount
    ensures r.Some? ==> forall a :: a in money && a != acct ==> r.value[a] == money[a]
  {
    if acct !in money then None
    else Some(money[acct := money[acct] - amount])
  }

  /** A stock row never goes negative through the primitives: adding a
      non-negative quantity keeps a non-negative row so, and subtracting
      succeeds only when the row covers the quantity. */
  lemma StockStaysNonNegative(stock: map<StockKey, real>, k: StockKey, qty: real)
    requires forall k' :: k' in stock ==> stock[k'] >= 0.0
    requires qty >= 0.0
    ensures forall k' :: k' in StockAdd(stock, k, qty) ==> StockAdd(stock, k, qty)[k'] >= 0.0
    ensures StockSub(stock, k, qty).Some? ==>
              forall k' :: k' in StockSub(stock, k, qty).value ==> StockSub(stock, k, qty).value[k'] >= 0.0
  {
  }

  /** Taking back what was just added restores the counters, except that a
      row created by the addition stays behind holding zero. */
  lemma StockSubUndoesAdd(stock: map<StockKey, real>, k: StockKey, qty: real)
    requires Level(stock, k) >= 0.0
    ensures StockSub(StockAdd(stock, k, qty), k, qty)
         == Some(if k in stock then stock else stock[k := 0.0])
  {
    var added := StockAdd(stock, k, qty);
    assert k in added && added[k] == Level(stock, k) + qty;
    if k in stock {
      assert added[k := stock[k]] == stock;
    } else {
      assert added[k := 0.0] == stock[k := 0.0];
    }
  }

  /** Adding back what was just taken restores the counters exactly. */
  lemma StockAddUndoesSub(stock: map<StockKey, real>, k: StockKey, qty: real)
    requires StockSub(stock, k, qty).Some?
    ensures StockAdd(StockSub(stock, k, qty).value, k, qty) == stock
  {
    var taken := StockSub(stock, k, qty).value;
    assert taken[k := stock[k]] == stock;
  }

  /** The two money primitives are inverse to each other, on any amount. */
  lemma MoneySubUndoesAdd(money: map<AccountId, real>, acct: AccountId, amount: real)
    requires acct in money
    ensures MoneyAdd(money, acct, amount).Some?
    ensures MoneySub(MoneyAdd(money, acct, amount).value, acct, amount) == Some(money)
    ensures MoneyAdd(MoneySub(money, acct, amount).value, acct, amount) == Some(money)
  {
    var m := money[acct];
    assert money[acct := m + amount][acct := m] == money;
    assert money[acct := m - amount][acct := m] == money;
  }

  /** Money has no floor: withdrawing more than the balance succeeds and
      leaves the balance negative. */
  lemma MoneyMayGoNegative(money: map<AccountId, real>, acct: AccountId, amount: real)
    requires acct in money && amount > money[acct]
    ensures MoneySub(money, acct, amount).Some?
    ensures MoneySub(money, acct, amount).value[acct] < 0.0
  {
  }
}
