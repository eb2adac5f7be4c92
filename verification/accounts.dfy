/** `migrate_accounts`: every source account becomes an account row, an
    item named after it and a zero-amount opening transaction. */
module Accounts {
  import opened Wrappers
  import opened Text
  import opened Entities
  import opened Rows

  /** Item ids given to accounts start here and grow by one per account. */
  const FirstAccountItemId: int := 5

  datatype AccountError = MissingCurrency(accountId: int, currencyId: int)

  /** The fixed table from source account kinds to target account-type codes;
      unknown kinds pass through with an empty code. */
  function AccountTypeCode(kind: string): string
  {
    match kind
    case "ASSET" => "15"
    case "BANK" => "3"
    case "CREDIT_CARD" => "8"
    case "DEBIT_CARD" => "8"
    case "CASH" => "4"
    case "ELECTRONIC" => "15"
    case "OTHER" => "15"
    case _ => ""
  }

  /** Read backwards, the table says which kinds give each code. */
  lemma AccountTypeCodeTable(kind: string)
    ensures AccountTypeCode(kind) == "15" <==> kind == "ASSET" || kind == "ELECTRONIC" || kind == "OTHER"
    ensures AccountTypeCode(kind) == "3" <==> kind == "BANK"
    ensures AccountTypeCode(kind) == "8" <==> kind == "CREDIT_CARD" || kind == "DEBIT_CARD"
    ensures AccountTypeCode(kind) == "4" <==> kind == "CASH"
    ensures AccountTypeCode(kind) in {"", "15", "3", "8", "4"}
  {
  }

  /** The three rows of one account, its item numbered `itemId`. */
  function AccountStmts(a: Account, itemId: int, currency: string): seq<Stmt>
  {
    [ Stmt.Account(AccountRow(a.id, EscapeQuote(a.title), AccountTypeCode(a.kind), currency)),
      Item(ItemRow(itemId, EscapeQuote(a.title))),
      Tx(TxRow(
        transactionsTableID := a.id,
        itemID := itemId,
        amount := 0,
        transactionCurrency := currency,
        dateMillis := a.creationDate,
        transactionTypeID := 2,
        categoryID := 2,
        accountID := a.id,
        notes := "",
        status := 2,
        accountReference := 3,
        accountPairID := a.id,
        uidPairID := a.creationDate,
        deletedTransaction := 6,
        newSplitTransactionID := 0,
        transferGroupID := 0)) ]
  }

  /** Every account of the list has a currency. */
  predicate AllCurrenciesKnown(accounts: seq<Account>, currencies: seq<Currency>)
  {
    forall i :: 0 <= i < |accounts| ==> FindCurrency(currencies, accounts[i].currencyId).Some?
  }

  /** `s0, s1, s2` are the account row, the item row and the opening
      transaction of account `a`, its item numbered `itemId`. */
  predicate AccountRows(s0: Stmt, s1: Stmt, s2: Stmt, a: Account, itemId: int, currency: string)
  {
    && s0 == Stmt.Account(AccountRow(a.id, EscapeQuote(a.title), AccountTypeCode(a.kind), currency))
    && s1 == Item(ItemRow(itemId, EscapeQuote(a.title)))
    && s2.Tx?
    && s2.tx.transactionsTableID == a.id && s2.tx.accountID == a.id && s2.tx.accountPairID == a.id
    && s2.tx.itemID == itemId && s2.tx.amount == 0 && s2.tx.transactionCurrency == currency
    && s2.tx.uidPairID == a.creationDate && s2.tx.dateMillis == a.creationDate
    && s2.tx.newSplitTransactionID == 0 && s2.tx.transferGroupID == 0
  }

  /** Rows `3*i .. 3*i+2` of `out` are those of account `i`. */
  ghost predicate EmitsAccount(out: seq<Stmt>, i: int, a: Account, itemId: int, currencies: seq<Currency>)
    requires 0 <= i && 3 * i + 3 <= |out|
    requires FindCurrency(currencies, a.currencyId).Some?
  {
    AccountRows(out[3 * i], out[3 * i + 1], out[3 * i + 2], a, itemId,
                FindCurrency(currencies, a.currencyId).value.name)
  }

  /** Account `k` is the first whose currency is missing. */
  predicate FirstMissing(accounts: seq<Account>, currencies: seq<Currency>, k: int)
  {
    && 0 <= k < |accounts|
    && FindCurrency(currencies, accounts[k].currencyId).None?
    && forall j :: 0 <= j < k ==> FindCurrency(currencies, accounts[j].currencyId).Some?
  }

  /** The loop of `migrate_accounts` with the item counter at `itemId`. */
  function MigrateFrom(accounts: seq<Account>, currencies: seq<Currency>, itemId: int)
    : (r: Result<seq<Stmt>, AccountError>)
    ensures r.Success? <==> AllCurrenciesKnown(accounts, currencies)
    ensures r.Failure? ==>
      exists k :: FirstMissing(accounts, currencies, k) && r.error == MissingCurrency(accounts[k].id, accounts[k].currencyId)
    ensures r.Success? ==> |r.value| == 3 * |accounts|
    ensures r.Success? ==> forall i :: 0 <= i < |accounts| ==>
      EmitsAccount(r.value, i, accounts[i], itemId + i, currencies)
  {
    if |accounts| == 0 then Success([])
    else
      var a := accounts[0];
      match FindCurrency(currencies, a.currencyId)
      case None =>
        assert FirstMissing(accounts, currencies, 0);
        Failure(MissingCurrency(a.id, a.currencyId))
      case Some(c) =>
        var tail := MigrateFrom(accounts[1..], currencies, itemId + 1);
        TailKnown(accounts, currencies);
        match tail
        case Failure(e) =>
          var k :| FirstMissing(accounts[1..], currencies, k)
            && e == MissingCurrency(accounts[1..][k].id, accounts[1..][k].currencyId);
          TailMissing(accounts, currencies, k);
          Failure(e)
        case Success(rest) =>
          var head := AccountStmts(a, itemId, c.name);
          assert EmitsAccount(head + rest, 0, a, itemId, currencies);
          ShiftEmits(accounts, currencies, itemId, head, rest);
          Success(head + rest)
  }

  lemma TailKnown(accounts: seq<Account>, currencies: seq<Currency>)
    requires |accounts| > 0 && FindCurrency(currencies, accounts[0].currencyId).Some?
    ensures AllCurrenciesKnown(accounts, currencies) <==> AllCurrenciesKnown(accounts[1..], currencies)
  {
    assert forall i :: 1 <= i < |accounts| ==> accounts[i] == accounts[1..][i - 1];
  }

  lemma TailMissing(accounts: seq<Account>, currencies: seq<Currency>, k: int)
    requires |accounts| > 0 && FindCurrency(currencies, accounts[0].currencyId).Some?
    requires FirstMissing(accounts[1..], currencies, k)
    ensures FirstMissing(accounts, currencies, k + 1) && accounts[k + 1] == accounts[1..][k]
  {
    forall j | 1 <= j < k + 1
      ensures FindCurrency(currencies, accounts[j].currencyId).Some?
    {
      assert accounts[j] == accounts[1..][j - 1];
    }
  }

  lemma ShiftEmits(accounts: seq<Account>, currencies: seq<Currency>, itemId: int,
                   head: seq<Stmt>, rest: seq<Stmt>)
    requires |accounts| > 0 && |head| == 3 && |rest| == 3 * (|accounts| - 1)
    requires FindCurrency(currencies, accounts[0].currencyId).Some?
    requires EmitsAccount(head + rest, 0, accounts[0], itemId, currencies)
    requires AllCurrenciesKnown(accounts[1..], currencies)
    requires forall i :: 0 <= i < |accounts| - 1 ==>
      EmitsAccount(rest, i, accounts[1..][i], itemId + 1 + i, currencies)
    ensures forall i :: 0 <= i < |accounts| ==>
      EmitsAccount(head + rest, i, accounts[i], itemId + i, currencies)
  {
    var out := head + rest;
    forall i | 1 <= i < |accounts|
      ensures EmitsAccount(out, i, accounts[i], itemId + i, currencies)
    {
      assert accounts[i] == accounts[1..][i - 1];
      ShiftOne(head, rest, i, accounts[i], itemId + i, currencies);
    }
  }

  lemma ShiftOne(head: seq<Stmt>, rest: seq<Stmt>, i: int, a: Account, itemId: int, currencies: seq<Currency>)
    requires |head| == 3 && 1 <= i && 3 * i <= |rest|
    requires FindCurrency(currencies, a.currencyId).Some?
    requires EmitsAccount(rest, i - 1, a, itemId, currencies)
    ensures EmitsAccount(head + rest, i, a, itemId, currencies)
  {
    var j := 3 * (i - 1);
    var out := head + rest;
    assert out[j + 3] == rest[j] && out[j + 4] == rest[j + 1] && out[j + 5] == rest[j + 2];
  }

  /** `migrate_accounts`: item ids run 5, 6, 7, ... in account order; a
      missing currency aborts the whole transform. */
  function MigrateAccounts(accounts: seq<Account>, currencies: seq<Currency>)
    : (r: Result<seq<Stmt>, AccountError>)
    ensures r.Success? <==> AllCurrenciesKnown(accounts, currencies)
    ensures r.Success? ==> |r.value| == 3 * |accounts|
    ensures r.Success? ==> forall i :: 0 <= i < |accounts| ==>
      EmitsAccount(r.value, i, accounts[i], FirstAccountItemId + i, currencies)
  {
    MigrateFrom(accounts, currencies, FirstAccountItemId)
  }
}
