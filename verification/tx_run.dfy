/** Facts about the whole `migrate_transactions` fold. */
module TransactionRun {
  import opened Entities
  import opened Rows
  import opened Items
  import opened Transactions
  import opened TransactionSteps

  /** The fold keeps the invariant, and never takes back a row it emitted. */
  lemma {:induction false} RunKeeps(all: seq<Transaction>, currencies: seq<Currency>, i: nat,
                                    st: TxState, acc: seq<Stmt>)
    requires i <= |all| && Inv(st, acc)
    ensures var o := RunFrom(all, currencies, i, st, acc);
      Inv(o.st, o.out) && acc <= o.out
    decreases |all| - i
  {
    if i < |all| {
      var o := Step(all, currencies, st, all[i]);
      StepKeeps(all, currencies, st, acc, all[i]);
      RunKeeps(all, currencies, i + 1, o.st, acc + o.out);
      assert acc <= acc + o.out;
    }
  }

  /** Over the whole run: the ITEMTABLE rows announce items 41, 42, ... in
      order, no label is announced twice, and every transaction row uses an
      unnamed item (2 or 3) or one whose ITEMTABLE row came earlier. */
  lemma MigrateTransactionsItems(transactions: seq<Transaction>, currencies: seq<Currency>)
    ensures var out := MigrateTransactions(transactions, currencies);
      && (forall k :: 0 <= k < |ItemRows(out)| ==> ItemRows(out)[k].itemTableID == InitialLastItemId + 1 + k)
      && (forall i, j :: 0 <= i < j < |ItemRows(out)| ==> ItemRows(out)[i].itemName != ItemRows(out)[j].itemName)
      && DeclaredBeforeUse(out)
  {
    InitialInv();
    RunKeeps(transactions, currencies, 0, InitialState, []);
    var o := RunFrom(transactions, currencies, 0, InitialState, []);
    ItemIdsIncrease(o.st.table, o.out);
    ItemNamesDistinct(o.st.table, o.out);
  }
}
