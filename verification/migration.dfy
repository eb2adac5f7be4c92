/** How the item ids of the two transforms that create items meet: the
    account transform numbers its items from 5, the transaction transform
    from 41, and the two ranges stay apart only while there are at most 36
    accounts. */
module Migration {
  import opened Wrappers
  import opened Text
  import opened Entities
  import opened Rows
  import opened Accounts
  import opened Items
  import opened Transactions
  import opened TransactionRun

  /** The ITEMTABLE rows of the account transform: one per account, in
      account order, numbered from `itemId` and named by the escaped title. */
  lemma {:induction false} AccountItemRows(accounts: seq<Account>, currencies: seq<Currency>, itemId: int)
    requires MigrateFrom(accounts, currencies, itemId).Success?
    ensures var items := ItemRows(MigrateFrom(accounts, currencies, itemId).value);
      && |items| == |accounts|
      && forall i :: 0 <= i < |accounts| ==> items[i] == ItemRow(itemId + i, EscapeQuote(accounts[i].title))
    decreases |accounts|
  {
    if |accounts| > 0 {
      var a := accounts[0];
      var c := FindCurrency(currencies, a.currencyId).value;
      var head := AccountStmts(a, itemId, c.name);
      var rest := MigrateFrom(accounts[1..], currencies, itemId + 1).value;
      assert MigrateFrom(accounts, currencies, itemId).value == head + rest;
      ItemRowsAppend(head, rest);
      assert ItemRows(head) == [ItemRow(itemId, EscapeQuote(a.title))] by {
        assert head[1..][1..][1..] == [];
        assert ItemRows(head[1..][1..]) == [];
      }
      AccountItemRows(accounts[1..], currencies, itemId + 1);
      forall i | 1 <= i < |accounts|
        ensures ItemRows(head + rest)[i] == ItemRow(itemId + i, EscapeQuote(accounts[i].title))
      {
        assert accounts[1..][i - 1] == accounts[i];
      }
    }
  }

  /** Account `i` announces item `5 + i`. */
  lemma AccountItemIds(accounts: seq<Account>, currencies: seq<Currency>)
    requires MigrateAccounts(accounts, currencies).Success?
    ensures var items := ItemRows(MigrateAccounts(accounts, currencies).value);
      && |items| == |accounts|
      && forall i :: 0 <= i < |accounts| ==>
           items[i] == ItemRow(FirstAccountItemId + i, EscapeQuote(accounts[i].title))
  {
    AccountItemRows(accounts, currencies, FirstAccountItemId);
  }

  /** Every account item id lies at or below the transaction counter's
      starting value 40 exactly when there are at most 36 accounts. */
  lemma AccountItemsBelowLimit(accounts: seq<Account>, currencies: seq<Currency>)
    requires MigrateAccounts(accounts, currencies).Success?
    ensures var items := ItemRows(MigrateAccounts(accounts, currencies).value);
      (forall k :: 0 <= k < |items| ==> items[k].itemTableID <= InitialLastItemId)
        <==> |accounts| <= InitialLastItemId - FirstAccountItemId + 1
  {
    var items := ItemRows(MigrateAccounts(accounts, currencies).value);
    AccountItemIds(accounts, currencies);
    if |accounts| > InitialLastItemId - FirstAccountItemId + 1 {
      assert items[36].itemTableID == InitialLastItemId + 1;
    }
  }

  /** With at most 36 accounts no account item shares its id with an item
      the transaction transform announces; with more, and at least one
      transaction item, the 37th account's item and the first transaction
      item both get id 41. */
  lemma ItemIdsDisjoint(accounts: seq<Account>, currencies: seq<Currency>,
                        transactions: seq<Transaction>, txCurrencies: seq<Currency>)
    requires MigrateAccounts(accounts, currencies).Success?
    ensures var accItems := ItemRows(MigrateAccounts(accounts, currencies).value);
      var txItems := ItemRows(MigrateTransactions(transactions, txCurrencies));
      && (|accounts| <= 36 ==>
            forall i, k :: 0 <= i < |accItems| && 0 <= k < |txItems| ==>
              accItems[i].itemTableID != txItems[k].itemTableID)
      && (|accItems| > 36 && |txItems| > 0 ==>
            accItems[36].itemTableID == txItems[0].itemTableID)
  {
    AccountItemIds(accounts, currencies);
    MigrateTransactionsItems(transactions, txCurrencies);
  }
}
