/** Any sequence of handler runs, starting from a fresh database.

    Whatever the operator confirms, edits or deletes, in whatever order and
    whether each step commits or is refused, the stock rows and balances
    stay equal to what the stored documents add up to, and no stock row is
    ever negative. The only assumption is what the wizard enforces on every
    form (`WizardChecked`): a positive quantity, a non-negative price and
    delivery, a total equal to quantity times price, a non-empty supplier or
    customer name, and a customer phone of at least five characters. */
module History {
  import opened LedgerState
  import opened Balances
  import opened Documents
  import opened Conservation

  /** One bot action that reaches the database. */
  datatype Action =
    | ConfirmPurchase(pmode: Mode, purchase: PurchaseForm)
    | ConfirmSale(smode: Mode, sale: SaleForm)
    | DeletePurchase(purchaseId: DocId)
    | DeleteSale(saleId: DocId)
    | AddCashOrBankAccount(admins: set<int>, user: int, kind: string, name: string)

  /** The forms of an action passed the wizard's checks. */
  predicate WizardChecked(act: Action)
  {
    match act
    case ConfirmPurchase(_, f) => ValidPurchaseForm(f)
    case ConfirmSale(_, f) => ValidSaleForm(f)
    case _ => true
  }

  function Apply(st: Ledger, act: Action): Ledger
  {
    match act
    case ConfirmPurchase(mode, f) => PurchaseConfirm(st, mode, f).ledger
    case ConfirmSale(mode, f) => SaleConfirm(st, mode, f).ledger
    case DeletePurchase(id) => PurchaseDelete(st, id).ledger
    case DeleteSale(id) => SaleDelete(st, id).ledger
    case AddCashOrBankAccount(admins, user, kind, name) => AddAccount(st, admins, user, kind, name).ledger
  }

  function Replay(st: Ledger, acts: seq<Action>): Ledger
    decreases |acts|
  {
    if |acts| == 0 then st else Replay(Apply(st, acts[0]), acts[1..])
  }

  lemma ApplyPreservesInv(st: Ledger, act: Action)
    requires Inv(st) && WizardChecked(act)
    ensures Inv(Apply(st, act))
  {
    match act
    case ConfirmPurchase(mode, f) => PurchaseConfirmPreservesInv(st, mode, f);
    case ConfirmSale(mode, f) => SaleConfirmPreservesInv(st, mode, f);
    case DeletePurchase(id) => PurchaseDeletePreservesInv(st, id);
    case DeleteSale(id) => SaleDeletePreservesInv(st, id);
    case AddCashOrBankAccount(admins, user, kind, name) => AddAccountPreservesInv(st, admins, user, kind, name);
  }

  lemma {:induction false} ReplayPreservesInv(st: Ledger, acts: seq<Action>)
    requires Inv(st)
    requires forall i :: 0 <= i < |acts| ==> WizardChecked(acts[i])
    ensures Inv(Replay(st, acts))
    decreases |acts|
  {
    if |acts| > 0 {
      ApplyPreservesInv(st, acts[0]);
      ReplayPreservesInv(Apply(st, acts[0]), acts[1..]);
    }
  }

  /** The bookkeeping theorem: from an empty database, after any history,
      stock per (warehouse, product) is purchases minus sales there and is
      never negative, and every balance is sale totals minus purchase
      totals on that account. */
  lemma LedgerBalancesFromEmpty(acts: seq<Action>)
    requires forall i :: 0 <= i < |acts| ==> WizardChecked(acts[i])
    ensures var st := Replay(EmptyLedger(), acts);
            && (forall k :: Level(st.stock, k) == Purchased(st, k) - Sold(st, k))
            && (forall k :: k in st.stock ==> st.stock[k] >= 0.0)
            && (forall a :: a in st.money ==> st.money[a] == TakenIn(st, a) - PaidOut(st, a))
  {
    EmptyLedgerInv();
    ReplayPreservesInv(EmptyLedger(), acts);
  }
}
