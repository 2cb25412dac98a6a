/** Customer get-or-create on the (name, phone) pair.

    The customers table carries a UNIQUE(name, phone) constraint, so the
    model keys it by that pair; the value is the row id. */
module Customers {
  import opened LedgerState

  /** No two (name, phone) pairs share a row id. */
  ghost predicate CustomersWellFormed(st: Ledger)
  {
    forall key1, key2 :: key1 in st.customers && key2 in st.customers && key1 != key2 ==>
      st.customers[key1] != st.customers[key2]
  }

  /** Looks up the customer with this name and phone, adding a row when there
      is none, and returns its id. Nothing but the customers table changes. */
  function UpsertCustomer(st: Ledger, name: string, phone: string): (r: (CustomerId, Ledger))
    ensures var key := CustomerKey(name, phone);
            key in r.1.customers && r.1.customers[key] == r.0
    ensures r.1 == st.(customers := r.1.customers)
    ensures CustomerKey(name, phone) in st.customers ==> r.1 == st
    ensures CustomerKey(name, phone) !in st.customers ==>
              && r.0 == NextRowId(st.customers.Values) && r.0 !in st.customers.Values
              && r.1.customers.Keys == st.customers.Keys + {CustomerKey(name, phone)}
              && |r.1.customers| == |st.customers| + 1
              && (forall key :: key in st.customers ==> r.1.customers[key] == st.customers[key])
    ensures CustomersWellFormed(st) ==> CustomersWellFormed(r.1)
  {
    var key := CustomerKey(name, phone);
    if key in st.customers then (st.customers[key], st)
    else
      var id := NextRowId(st.customers.Values);
      (id, st.(customers := st.customers[key := id]))
  }

  /** Calling get-or-create a second time with the same pair returns the
      same id and adds no customer. */
  lemma UpsertIdempotent(st: Ledger, name: string, phone: string)
    ensures var (id1, st1) := UpsertCustomer(st, name, phone);
            var (id2, st2) := UpsertCustomer(st1, name, phone);
            id2 == id1 && st2 == st1
  {
  }
}
