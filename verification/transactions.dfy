/** `migrate_transactions`: a fold over the transaction list that threads the
    item table, the `seq` counter (`counter`) and the set of keys already taken. */
module Transactions {
  import opened Wrappers
  import opened Text
  import opened Entities
  import opened Rows
  import opened Amounts
  import opened Items
  import opened Splits

  /** Notes of this account that parse as an `i32` are lottery-ticket numbers. */
  const LotteryAccountId: int := 33
  const LotteryItemName: string := "運動彩券"
  const TransferItemName: string := "轉帳"
  const DefaultCurrency: string := "TWD"

  /** Transaction-type codes of the target. */
  const ExpenseType: int := 3
  const IncomeType: int := 4
  const TransferType: int := 5
  /** The target's category for transfers. */
  const TransferCategory: int := 3

  /** The state of the fold: item table (label map and `last_item_id`),
      `seq`, and `id_set`. */
  datatype TxState = TxState(table: ItemTable, counter: int, idSet: set<int>)

  const InitialState: TxState := TxState(EmptyTable, 1, {})

  /** The state after a step and the rows it emitted. */
  datatype Outcome = Outcome(st: TxState, out: seq<Stmt>)

  /** The result of item resolution: the table afterwards, the item id, the
      text for the `notes` column, and the ITEMTABLE rows emitted. */
  datatype Resolved = Resolved(table: ItemTable, id: int, notes: string, out: seq<Stmt>)

  /** The name of the currency with id `id`, or "TWD" when there is none. */
  function CurrencyName(currencies: seq<Currency>, id: int): string
  {
    match FindCurrency(currencies, id)
    case Some(c) => c.name
    case None => DefaultCurrency
  }

  /** The name comes from the first currency with that id, and is "TWD"
      exactly when no currency has it. */
  lemma CurrencyNameFirst(currencies: seq<Currency>, id: int)
    ensures IdAbsent(currencies, id) ==> CurrencyName(currencies, id) == DefaultCurrency
    ensures !IdAbsent(currencies, id) ==>
      exists k :: 0 <= k < |currencies| && currencies[k].id == id && IdAbsent(currencies[..k], id)
        && CurrencyName(currencies, id) == currencies[k].name
  {
    FindCurrencyFirst(currencies, id);
  }

  /** Income when the amount is not negative, expense otherwise. */
  function TypeOf(amount: int): int
  {
    if amount >= 0 then IncomeType else ExpenseType
  }

  /** A new note of the lottery account that parses as an `i32`. */
  predicate IsLotteryNote(t: ItemTable, tx: Transaction)
  {
    && tx.note.Some?
    && tx.note.value !in t.ids
    && tx.fromAccountId == LotteryAccountId
    && ParsesAsI32(tx.note.value)
  }

  /** Item resolution of a non-transfer: its note names the item. */
  function ResolveItem(t: ItemTable, tx: Transaction): Resolved
  {
    match tx.note
    case None => Resolved(t, if tx.fromAmount >= 0 then UnnamedIncome else UnnamedExpense, "", [])
    case Some(v) =>
      if v in t.ids then Resolved(t, t.ids[v], "", [])
      else if tx.fromAccountId == LotteryAccountId && ParsesAsI32(v) then
        var r := Intern(t, LotteryItemName);
        Resolved(r.table, r.id, v, r.out)
      else
        var r := Intern(t, v);
        Resolved(r.table, r.id, "", r.out)
  }

  /** The table stays in step with the rows; without a note the item is
      "Unnamed Income" or "Unnamed Expense" by the amount's sign; a known note
      reuses its item; a new lottery number maps to the one shared lottery
      item and is kept as the row's notes; any other new note becomes the
      next item. */
  lemma ResolveItemSpec(t: ItemTable, out: seq<Stmt>, tx: Transaction)
    requires Tracks(t, out)
    ensures var r := ResolveItem(t, tx);
      && Tracks(r.table, out + r.out)
      && Extends(t, r.table)
      && NoTx(r.out)
      && (IsUnnamed(r.id) || InitialLastItemId < r.id <= r.table.last)
      && (tx.note.None? ==>
            r.id == (if tx.fromAmount >= 0 then UnnamedIncome else UnnamedExpense) && r.out == [] && r.notes == "")
      && (tx.note.Some? && tx.note.value in t.ids ==>
            r.id == t.ids[tx.note.value] && r.out == [] && r.notes == "")
      && (IsLotteryNote(t, tx) ==>
            LotteryItemName in r.table.ids && r.table.ids[LotteryItemName] == r.id && r.notes == tx.note.value)
      && (tx.note.Some? && tx.note.value !in t.ids && !IsLotteryNote(t, tx) ==>
            r.id == t.last + 1 && tx.note.value in r.table.ids && r.table.ids[tx.note.value] == r.id && r.notes == "")
  {
    var r := ResolveItem(t, tx);
    match tx.note
    case None =>
      assert out + r.out == out;
    case Some(v) =>
      if v in t.ids {
        assert out + r.out == out;
      } else if tx.fromAccountId == LotteryAccountId && ParsesAsI32(v) {
        InternTracks(t, out, LotteryItemName);
      } else {
        InternTracks(t, out, v);
      }
  }

  /** The two legs of a transfer keyed `key`: keys `key` and `key + 1`
      pointing at each other, one transfer group, accounts swapped. */
  predicate TransferPair(r0: Stmt, r1: Stmt, tx: Transaction, key: int, itemId: int, currency: string)
  {
    && r0.Tx? && r1.Tx?
    && r0.tx.transactionsTableID == key && r1.tx.transactionsTableID == key + 1
    && r0.tx.uidPairID == r1.tx.transactionsTableID && r1.tx.uidPairID == r0.tx.transactionsTableID
    && r0.tx.transferGroupID == key && r1.tx.transferGroupID == key
    && r0.tx.transactionTypeID == TransferType && r1.tx.transactionTypeID == TransferType
    && r0.tx.categoryID == TransferCategory && r1.tx.categoryID == TransferCategory
    && r0.tx.accountID == tx.fromAccountId && r0.tx.accountPairID == tx.toAccountId
    && r1.tx.accountID == tx.toAccountId && r1.tx.accountPairID == tx.fromAccountId
    && r0.tx.amount == Rescale(tx.fromAmount) && r1.tx.amount == Rescale(tx.toAmount)
    && r0.tx.accountReference == 1 && r1.tx.accountReference == 2
    && r0.tx.itemID == itemId && r1.tx.itemID == itemId
    && r0.tx.transactionCurrency == currency && r1.tx.transactionCurrency == currency
    && r0.tx.dateMillis == tx.datetime && r1.tx.dateMillis == tx.datetime
    && r0.tx.notes == "" && r1.tx.notes == ""
    && r0.tx.newSplitTransactionID == 0 && r1.tx.newSplitTransactionID == 0
  }

  /** A transfer: the shared transfer item, then its two legs. */
  function TransferStep(currencies: seq<Currency>, st: TxState, tx: Transaction): Outcome
  {
    var r := Intern(st.table, TransferItemName);
    var taken := tx.datetime in st.idSet;
    var key := if taken then tx.datetime + st.counter else tx.datetime;
    var counter := if taken then st.counter + 2 else st.counter;
    var currency := CurrencyName(currencies, tx.originalCurrencyId);
    var from := TxRow(
      transactionsTableID := key, itemID := r.id, amount := Rescale(tx.fromAmount),
      transactionCurrency := currency, dateMillis := tx.datetime,
      transactionTypeID := TransferType, categoryID := TransferCategory,
      accountID := tx.fromAccountId, notes := "", status := 0, accountReference := 1,
      accountPairID := tx.toAccountId, uidPairID := key + 1, deletedTransaction := 6,
      newSplitTransactionID := 0, transferGroupID := key);
    var to := TxRow(
      transactionsTableID := key + 1, itemID := r.id, amount := Rescale(tx.toAmount),
      transactionCurrency := currency, dateMillis := tx.datetime,
      transactionTypeID := TransferType, categoryID := TransferCategory,
      accountID := tx.toAccountId, notes := "", status := 0, accountReference := 2,
      accountPairID := tx.fromAccountId, uidPairID := key, deletedTransaction := 6,
      newSplitTransactionID := 0, transferGroupID := key);
    Outcome(TxState(r.table, counter, st.idSet + {key}), r.out + [Tx(from), Tx(to)])
  }

  /** The row of a single (non-split, non-transfer) transaction at `key`. */
  function SingleRow(currencies: seq<Currency>, tx: Transaction, key: int, itemId: int, notes: string): TxRow
  {
    TxRow(
      transactionsTableID := key, itemID := itemId, amount := Rescale(tx.fromAmount),
      transactionCurrency := CurrencyName(currencies, tx.originalCurrencyId),
      dateMillis := tx.datetime, transactionTypeID := TypeOf(tx.fromAmount),
      categoryID := tx.categoryId, accountID := tx.fromAccountId, notes := notes,
      status := 0, accountReference := 1, accountPairID := tx.fromAccountId,
      uidPairID := key, deletedTransaction := 6, newSplitTransactionID := 0,
      transferGroupID := 0)
  }

  /** The text a child's note puts in the `notes` column. */
  function NoteText(note: Option<string>): string
  {
    match note
    case Some(n) => n
    case None => ""
  }

  /** The row of the `index`-th sorted child of split `head` anchored at
      `anchor`. */
  function ChildRow(currencies: seq<Currency>, head: Transaction, child: Transaction,
                    anchor: int, index: int, itemId: int): TxRow
  {
    TxRow(
      transactionsTableID := anchor + index + 1, itemID := itemId,
      amount := Rescale(child.fromAmount),
      transactionCurrency := CurrencyName(currencies, child.originalCurrencyId),
      dateMillis := head.datetime, transactionTypeID := TypeOf(head.fromAmount),
      categoryID := child.categoryId, accountID := child.fromAccountId,
      notes := NoteText(child.note), status := 0, accountReference := 1,
      accountPairID := child.fromAccountId, uidPairID := anchor + index + 1,
      deletedTransaction := 6, newSplitTransactionID := anchor, transferGroupID := 0)
  }

  /** One row per child, in the given order. */
  function SplitRows(currencies: seq<Currency>, head: Transaction, children: seq<Transaction>,
                     anchor: int, itemId: int): seq<Stmt>
  {
    seq(|children|, i requires 0 <= i < |children| => Tx(ChildRow(currencies, head, children[i], anchor, i, itemId)))
  }

  /** A transaction with no parent and no target account: a single when
      `children` (its sorted split children) is empty, else a split head. Its
      datetime enters `id_set` before the conflict test, so the test always
      succeeds and the key is always bumped by `seq`. */
  function HeadStep(currencies: seq<Currency>, st: TxState, tx: Transaction, r: Resolved,
                    children: seq<Transaction>): Outcome
  {
    var idSet := st.idSet + {tx.datetime};
    var taken := tx.datetime in idSet;
    var anchor := if taken then tx.datetime + st.counter else tx.datetime;
    if |children| == 0 then
      var counter := if taken then st.counter + 1 else st.counter;
      Outcome(TxState(r.table, counter, idSet), r.out + [Tx(SingleRow(currencies, tx, anchor, r.id, r.notes))])
    else
      var counter := if taken then st.counter + |children| else st.counter;
      Outcome(TxState(r.table, counter, idSet), r.out + SplitRows(currencies, tx, children, anchor, r.id))
  }

  /** The split children of `tx` in the order their rows are emitted. */
  function SortedChildren(all: seq<Transaction>, tx: Transaction): seq<Transaction>
  {
    SortByTime(ChildrenOf(all, tx.id))
  }

  /** One iteration of the loop over `all`. */
  function Step(all: seq<Transaction>, currencies: seq<Currency>, st: TxState, tx: Transaction): Outcome
  {
    if tx.toAccountId == 0 then
      var r := ResolveItem(st.table, tx);
      if tx.parentId == 0 then HeadStep(currencies, st, tx, r, SortedChildren(all, tx))
      else Outcome(TxState(r.table, st.counter, st.idSet), r.out)
    else TransferStep(currencies, st, tx)
  }

  /** The loop from position `i` on, with state `st` and rows `acc` so far. */
  function RunFrom(all: seq<Transaction>, currencies: seq<Currency>, i: nat, st: TxState, acc: seq<Stmt>): Outcome
    requires i <= |all|
    decreases |all| - i
  {
    if i == |all| then Outcome(st, acc)
    else
      var o := Step(all, currencies, st, all[i]);
      RunFrom(all, currencies, i + 1, o.st, acc + o.out)
  }

  /** One turn of the loop. */
  lemma RunFromStep(all: seq<Transaction>, currencies: seq<Currency>, i: nat, st: TxState, acc: seq<Stmt>)
    requires i < |all|
    ensures var o := Step(all, currencies, st, all[i]);
      RunFrom(all, currencies, i, st, acc) == RunFrom(all, currencies, i + 1, o.st, acc + o.out)
  {
  }

  /** `migrate_transactions`. */
  function MigrateTransactions(transactions: seq<Transaction>, currencies: seq<Currency>): seq<Stmt>
  {
    RunFrom(transactions, currencies, 0, InitialState, []).out
  }
}
