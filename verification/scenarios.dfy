/** Worked examples of the transaction transform on small inputs. */
module Scenarios {
  import opened Wrappers
  import opened Entities
  import opened Rows
  import opened Amounts
  import opened Items
  import opened Splits
  import opened Transactions

  function Plain(id: int, parentId: int, amount: int, note: Option<string>, datetime: int): Transaction
  {
    Transaction(id := id, parentId := parentId, fromAccountId := 1, toAccountId := 0,
                fromAmount := amount, toAmount := 0, categoryId := 7, note := note,
                originalCurrencyId := 1, datetime := datetime)
  }

  /** A lone income of 5.00 with no note: one row keyed one past its
      datetime, amount 5 000 000, "Unnamed Income", income type, and the
      default currency. */
  lemma SingleIncome()
    ensures var out := MigrateTransactions([Plain(10, 0, 500, None, 1000)], []);
      && |out| == 1 && out[0].Tx?
      && out[0].tx.transactionsTableID == 1001
      && out[0].tx.amount == 5_000_000
      && out[0].tx.itemID == UnnamedIncome
      && out[0].tx.transactionTypeID == IncomeType
      && out[0].tx.transactionCurrency == "TWD"
  {
    var tx := Plain(10, 0, 500, None, 1000);
    assert ChildrenOf([tx], 10) == [];
    RescaleExact(500);
  }

  /** A transfer of 10.00 from account 1 to account 2 at an unused
      datetime: the transfer item (41) is announced, then two legs keyed by
      the datetime and the next value, amounts -10 000 000 and 10 000 000. */
  lemma SimpleTransfer()
    ensures var tx := Transaction(id := 1, parentId := 0, fromAccountId := 1, toAccountId := 2,
                                  fromAmount := -1000, toAmount := 1000, categoryId := 0, note := None,
                                  originalCurrencyId := 1, datetime := 5000);
      var out := MigrateTransactions([tx], [Currency(1, "USD", "Dollar", "$")]);
      && |out| == 3
      && out[0] == Item(ItemRow(41, TransferItemName))
      && out[1].Tx? && out[2].Tx?
      && out[1].tx.transactionsTableID == 5000 && out[2].tx.transactionsTableID == 5001
      && out[1].tx.uidPairID == 5001 && out[2].tx.uidPairID == 5000
      && out[1].tx.amount == -10_000_000 && out[2].tx.amount == 10_000_000
      && out[1].tx.accountID == 1 && out[2].tx.accountID == 2
      && out[1].tx.itemID == 41 && out[2].tx.itemID == 41
      && out[1].tx.transactionCurrency == "USD"
  {
    RescaleExact(-1000);
    RescaleExact(1000);
    assert Text.CountQuotes(TransferItemName) == 0;
  }

  function Ticket(id: int, note: string, datetime: int): Transaction
  {
    Transaction(id := id, parentId := 0, fromAccountId := LotteryAccountId, toAccountId := 0,
                fromAmount := -5000, toAmount := 0, categoryId := 9,
                note := Some(note), originalCurrencyId := 1, datetime := datetime)
  }

  /** Two lottery tickets of account 33 share the one lottery item and keep
      their numbers as notes. */
  lemma LotteryTickets()
    ensures var out := MigrateTransactions([Ticket(1, "123", 100), Ticket(2, "456", 200)], []);
      && |out| == 3
      && out[0] == Item(ItemRow(41, LotteryItemName))
      && out[1].Tx? && out[2].Tx?
      && out[1].tx.itemID == 41 && out[2].tx.itemID == 41
      && out[1].tx.notes == "123" && out[2].tx.notes == "456"
  {
    var all := [Ticket(1, "123", 100), Ticket(2, "456", 200)];
    var o1 := Step(all, [], InitialState, all[0]);
    var o2 := Step(all, [], o1.st, all[1]);
    FirstTicket();
    SecondTicket(o1.st);
    RunFromStep(all, [], 0, InitialState, []);
    RunFromStep(all, [], 1, o1.st, o1.out);
    assert [] + o1.out == o1.out;
  }

  /** The first ticket creates the lottery item. */
  lemma FirstTicket()
    ensures var all := [Ticket(1, "123", 100), Ticket(2, "456", 200)];
      var o := Step(all, [], InitialState, all[0]);
      && o.st.table == ItemTable(map[LotteryItemName := 41], 41)
      && |o.out| == 2
      && o.out[0] == Item(ItemRow(41, LotteryItemName))
      && o.out[1].Tx? && o.out[1].tx.itemID == 41 && o.out[1].tx.notes == "123"
  {
    var all := [Ticket(1, "123", 100), Ticket(2, "456", 200)];
    var tx := all[0];
    var r := ResolveItem(EmptyTable, tx);
    FirstTicketItem();
    assert SortedChildren(all, tx) == [] by {
      assert ChildrenOf(all, 1) == [];
    }
    assert Step(all, [], InitialState, tx) == HeadStep([], InitialState, tx, r, []);
  }

  /** The lottery label is new, so the first ticket announces it as item 41. */
  lemma FirstTicketItem()
    ensures ResolveItem(EmptyTable, Ticket(1, "123", 100))
         == Resolved(ItemTable(map[LotteryItemName := 41], 41), 41, "123", [Item(ItemRow(41, LotteryItemName))])
  {
    Text.ShortDigitStringsParse("123");
    assert Text.CountQuotes(LotteryItemName) == 0;
  }

  /** The second ticket reuses it. */
  lemma SecondTicket(st: TxState)
    requires st.table == ItemTable(map[LotteryItemName := 41], 41)
    ensures var all := [Ticket(1, "123", 100), Ticket(2, "456", 200)];
      var o := Step(all, [], st, all[1]);
      && |o.out| == 1
      && o.out[0].Tx? && o.out[0].tx.itemID == 41 && o.out[0].tx.notes == "456"
  {
    var all := [Ticket(1, "123", 100), Ticket(2, "456", 200)];
    Text.ShortDigitStringsParse("456");
    assert ChildrenOf(all, 2) == [];
  }

  /** Keys are not unique: a single at datetime 100 takes key 101 and bumps
      the counter to 2; a later single at datetime 99 then takes 99 + 2, the
      same key. */
  lemma KeyCollision()
    ensures var out := MigrateTransactions([Plain(1, 0, 100, None, 100), Plain(2, 0, 200, None, 99)], []);
      && |out| == 2 && out[0].Tx? && out[1].Tx?
      && out[0].tx.transactionsTableID == 101
      && out[1].tx.transactionsTableID == 101
  {
    var all := [Plain(1, 0, 100, None, 100), Plain(2, 0, 200, None, 99)];
    assert ChildrenOf(all, 1) == [] && ChildrenOf(all, 2) == [];
  }

  function SplitList(): seq<Transaction>
  {
    [Plain(5, 0, -300, None, 1000), Plain(6, 5, -200, None, 30), Plain(7, 5, -100, None, 10)]
  }

  /** A split head at datetime 1000 with children stamped 30 and 10 (in list
      order): the head emits nothing itself, the earlier child comes first
      under key 1002 and the later under 1003, both linked to anchor 1001. */
  lemma SplitOrder()
    ensures var out := MigrateTransactions(SplitList(), []);
      && |out| == 2 && out[0].Tx? && out[1].Tx?
      && out[0].tx.transactionsTableID == 1002 && out[0].tx.amount == Rescale(-100)
      && out[1].tx.transactionsTableID == 1003 && out[1].tx.amount == Rescale(-200)
      && out[0].tx.newSplitTransactionID == 1001 && out[1].tx.newSplitTransactionID == 1001
      && out[0].tx.itemID == UnnamedExpense && out[1].tx.itemID == UnnamedExpense
  {
    var all := SplitList();
    var o1 := Step(all, [], InitialState, all[0]);
    SplitHeadStep();
    var o2 := Step(all, [], o1.st, all[1]);
    var o3 := Step(all, [], o2.st, all[2]);
    ChildStepSilent(o1.st, all[1]);
    ChildStepSilent(o2.st, all[2]);
    RunFromStep(all, [], 0, InitialState, []);
    RunFromStep(all, [], 1, o1.st, o1.out);
    RunFromStep(all, [], 2, o2.st, o1.out);
    assert [] + o1.out == o1.out && o1.out + [] == o1.out;
  }

  /** A split child without a note emits nothing. */
  lemma ChildStepSilent(st: TxState, tx: Transaction)
    requires tx.toAccountId == 0 && tx.parentId != 0 && tx.note.None?
    ensures Step(SplitList(), [], st, tx).out == []
  {
  }

  lemma SplitChildren()
    ensures SortedChildren(SplitList(), SplitList()[0]) == [SplitList()[2], SplitList()[1]]
  {
    var all := SplitList();
    var a := all[1];
    var b := all[2];
    assert ChildrenOf(all, 5) == [a, b];
    assert SortByTime([b]) == [b];
    assert [a, b][1..] == [b];
    assert SortByTime([a, b]) == [b, a];
  }

  lemma SplitHeadStep()
    ensures var all := SplitList();
      var o := Step(all, [], InitialState, all[0]);
      && |o.out| == 2
      && o.out[0] == Tx(ChildRow([], all[0], all[2], 1001, 0, UnnamedExpense))
      && o.out[1] == Tx(ChildRow([], all[0], all[1], 1001, 1, UnnamedExpense))
  {
    var all := SplitList();
    var head := all[0];
    var kids := [all[2], all[1]];
    SplitChildren();
    var r := ResolveItem(EmptyTable, head);
    assert r == Resolved(EmptyTable, UnnamedExpense, "", []);
    assert Step(all, [], InitialState, head) == HeadStep([], InitialState, head, r, kids);
    HeadRows(r, kids);
  }

  lemma HeadRows(r: Resolved, kids: seq<Transaction>)
    requires r == Resolved(EmptyTable, UnnamedExpense, "", []) && |kids| == 2
    ensures var o := HeadStep([], InitialState, SplitList()[0], r, kids);
      && |o.out| == 2
      && o.out[0] == Tx(ChildRow([], SplitList()[0], kids[0], 1001, 0, UnnamedExpense))
      && o.out[1] == Tx(ChildRow([], SplitList()[0], kids[1], 1001, 1, UnnamedExpense))
  {
    var head := SplitList()[0];
    assert head.datetime == 1000;
    assert [] + SplitRows([], head, kids, 1001, UnnamedExpense) == SplitRows([], head, kids, 1001, UnnamedExpense);
  }
}
