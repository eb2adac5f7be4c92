/** What one iteration of `migrate_transactions` emits, case by case, and
    the invariant every iteration keeps. */
module TransactionSteps {
  import opened Wrappers
  import Text
  import opened Entities
  import opened Rows
  import opened Amounts
  import opened Items
  import opened Splits
  import opened Transactions

  /** A transfer emits the shared transfer item's row when it is still new,
      then exactly two legs keyed `k` and `k + 1`. `k` is the datetime,
      moved up by the counter (which then grows by two) only when the
      datetime is already taken; `k` is then marked taken. */
  lemma TransferShape(all: seq<Transaction>, currencies: seq<Currency>, st: TxState, tx: Transaction)
    requires tx.toAccountId != 0
    ensures var o := Step(all, currencies, st, tx);
      var taken := tx.datetime in st.idSet;
      var key := if taken then tx.datetime + st.counter else tx.datetime;
      var n := |o.out|;
      var item := o.out[n - 1].tx.itemID;
      && 2 <= n <= 3
      && NoTx(o.out[..n - 2])
      && TransferPair(o.out[n - 2], o.out[n - 1], tx, key, item, CurrencyName(currencies, tx.originalCurrencyId))
      && TransferItemName in o.st.table.ids && o.st.table.ids[TransferItemName] == item
      && (TransferItemName in st.table.ids ==> n == 2 && item == st.table.ids[TransferItemName])
      && (TransferItemName !in st.table.ids ==>
            && n == 3 && item == st.table.last + 1
            && o.out[0] == Item(ItemRow(st.table.last + 1, TransferItemName)))
      && o.st.counter == (if taken then st.counter + 2 else st.counter)
      && o.st.idSet == st.idSet + {key}
  {
    var o := Step(all, currencies, st, tx);
    var r := Intern(st.table, TransferItemName);
    assert o.out == r.out + o.out[|r.out|..];
    assert o.out[..|o.out| - 2] == r.out;
    assert Text.CountQuotes(TransferItemName) == 0;
  }

  /** The one row of a single: its key is always `datetime + counter`, even
      when the datetime was free, and the counter grows by one. */
  lemma SingleShape(all: seq<Transaction>, currencies: seq<Currency>, st: TxState, tx: Transaction)
    requires tx.toAccountId == 0 && tx.parentId == 0 && ChildrenOf(all, tx.id) == []
    ensures var o := Step(all, currencies, st, tx);
      var r := ResolveItem(st.table, tx);
      var key := tx.datetime + st.counter;
      var n := |o.out|;
      && n == |r.out| + 1
      && o.out[..n - 1] == r.out
      && o.out[n - 1].Tx?
      && o.out[n - 1].tx.transactionsTableID == key
      && o.out[n - 1].tx.uidPairID == key
      && o.out[n - 1].tx.itemID == r.id
      && o.out[n - 1].tx.notes == r.notes
      && o.out[n - 1].tx.amount == Rescale(tx.fromAmount)
      && o.out[n - 1].tx.transactionTypeID == (if tx.fromAmount >= 0 then IncomeType else ExpenseType)
      && o.out[n - 1].tx.accountID == tx.fromAccountId
      && o.out[n - 1].tx.accountPairID == tx.fromAccountId
      && o.out[n - 1].tx.categoryID == tx.categoryId
      && o.out[n - 1].tx.transactionCurrency == CurrencyName(currencies, tx.originalCurrencyId)
      && o.out[n - 1].tx.dateMillis == tx.datetime
      && o.out[n - 1].tx.newSplitTransactionID == 0
      && o.out[n - 1].tx.transferGroupID == 0
      && o.st.counter == st.counter + 1
      && o.st.idSet == st.idSet + {tx.datetime}
      && o.st.table == r.table
  {
    var r := ResolveItem(st.table, tx);
    assert |SortedChildren(all, tx)| == 0 by {
      assert |multiset(SortedChildren(all, tx))| == |multiset(ChildrenOf(all, tx.id))|;
    }
    var o := HeadStep(currencies, st, tx, r, []);
    assert o.out[..|o.out| - 1] == r.out;
  }

  /** Row `index` of a split is the child at that position of the sorted
      children, keyed one past the anchor plus its position, linked to the
      anchor, with the head's item and the type given by the head's sign. */
  predicate SplitChildRow(s: Stmt, currencies: seq<Currency>, head: Transaction, child: Transaction,
                          anchor: int, index: int, itemId: int)
  {
    && s.Tx?
    && s.tx.transactionsTableID == anchor + index + 1
    && s.tx.uidPairID == anchor + index + 1
    && s.tx.newSplitTransactionID == anchor
    && s.tx.itemID == itemId
    && s.tx.transactionTypeID == (if head.fromAmount >= 0 then IncomeType else ExpenseType)
    && s.tx.amount == Rescale(child.fromAmount)
    && s.tx.transactionCurrency == CurrencyName(currencies, child.originalCurrencyId)
    && s.tx.categoryID == child.categoryId
    && s.tx.accountID == child.fromAccountId
    && s.tx.accountPairID == child.fromAccountId
    && s.tx.notes == NoteText(child.note)
    && s.tx.dateMillis == head.datetime
    && s.tx.transferGroupID == 0
  }

  /** A split head emits no row of its own: one row per child, in the order
      given, keyed `anchor + 1 .. anchor + N` with `anchor = datetime +
      counter`; the counter grows by N. */
  lemma SplitRowsShape(currencies: seq<Currency>, st: TxState, tx: Transaction, r: Resolved,
                       children: seq<Transaction>)
    requires |children| > 0
    ensures var o := HeadStep(currencies, st, tx, r, children);
      var anchor := tx.datetime + st.counter;
      && |o.out| == |r.out| + |children|
      && o.out[..|r.out|] == r.out
      && (forall i :: 0 <= i < |children| ==>
            SplitChildRow(o.out[|r.out| + i], currencies, tx, children[i], anchor, i, r.id))
      && o.st.counter == st.counter + |children|
      && o.st.idSet == st.idSet + {tx.datetime}
      && o.st.table == r.table
  {
    var o := HeadStep(currencies, st, tx, r, children);
    var anchor := tx.datetime + st.counter;
    var rows := SplitRows(currencies, tx, children, anchor, r.id);
    assert o.out == r.out + rows;
    forall i | 0 <= i < |children|
      ensures SplitChildRow(o.out[|r.out| + i], currencies, tx, children[i], anchor, i, r.id)
    {
      assert o.out[|r.out| + i] == rows[i];
    }
  }

  /** The children a split head emits are exactly the transactions naming it
      as parent, sorted by datetime, ties kept in list order. */
  lemma SortedChildrenOrder(all: seq<Transaction>, tx: Transaction)
    ensures var children := SortedChildren(all, tx);
      && |children| == |ChildrenOf(all, tx.id)|
      && (forall c :: c in children <==> c in all && c.parentId == tx.id)
      && Sorted(children)
      && (forall d :: AtTime(children, d) == AtTime(ChildrenOf(all, tx.id), d))
  {
    var kids := ChildrenOf(all, tx.id);
    var children := SortByTime(kids);
    assert |multiset(children)| == |multiset(kids)|;
    assert forall c :: c in children <==> c in multiset(kids);
    forall d ensures AtTime(children, d) == AtTime(kids, d) {
      SortByTimeStable(kids, d);
    }
  }

  /** The rows of a split head, in terms of the whole list. */
  lemma SplitShape(all: seq<Transaction>, currencies: seq<Currency>, st: TxState, tx: Transaction)
    requires tx.toAccountId == 0 && tx.parentId == 0 && |ChildrenOf(all, tx.id)| > 0
    ensures var o := Step(all, currencies, st, tx);
      var r := ResolveItem(st.table, tx);
      var children := SortedChildren(all, tx);
      var anchor := tx.datetime + st.counter;
      && |children| == |ChildrenOf(all, tx.id)|
      && |o.out| == |r.out| + |children|
      && o.out[..|r.out|] == r.out
      && (forall i :: 0 <= i < |children| ==>
            SplitChildRow(o.out[|r.out| + i], currencies, tx, children[i], anchor, i, r.id))
      && o.st.counter == st.counter + |children|
  {
    SortedChildrenOrder(all, tx);
    SplitRowsShape(currencies, st, tx, ResolveItem(st.table, tx), SortedChildren(all, tx));
  }

  /** A split child (or any non-transfer with a parent) emits no
      transaction row: only, perhaps, the row of a new item. */
  lemma ChildShape(all: seq<Transaction>, currencies: seq<Currency>, st: TxState, tx: Transaction)
    requires tx.toAccountId == 0 && tx.parentId != 0
    ensures var o := Step(all, currencies, st, tx);
      && NoTx(o.out)
      && o.out == ResolveItem(st.table, tx).out
      && o.st.counter == st.counter
      && o.st.idSet == st.idSet
  {
    var t := st.table;
    if tx.note.Some? && tx.note.value !in t.ids {
      var name := if IsLotteryNote(t, tx) then LotteryItemName else tx.note.value;
      assert ResolveItem(t, tx).out == Intern(t, name).out;
    }
  }

  /** What the fold keeps true: the item table matches the ITEMTABLE rows,
      every item a transaction row uses was announced before it, and the
      counter stays positive. */
  ghost predicate Inv(st: TxState, out: seq<Stmt>)
  {
    Tracks(st.table, out) && DeclaredBeforeUse(out) && st.counter >= 1
  }

  lemma InitialInv()
    ensures Inv(InitialState, [])
  {
    EmptyTracks();
  }

  /** Every iteration keeps the invariant; labels keep their items, the
      counter never decreases and no key leaves `id_set`. */
  lemma StepKeeps(all: seq<Transaction>, currencies: seq<Currency>, st: TxState, out: seq<Stmt>, tx: Transaction)
    requires Inv(st, out)
    ensures var o := Step(all, currencies, st, tx);
      && Inv(o.st, out + o.out)
      && Extends(st.table, o.st.table)
      && st.counter <= o.st.counter
      && st.idSet <= o.st.idSet
  {
    if tx.toAccountId != 0 {
      TransferKeeps(currencies, st, out, tx);
    } else {
      var r := ResolveItem(st.table, tx);
      ResolveItemSpec(st.table, out, tx);
      DeclaredAppendItems(out, r.out);
      if tx.parentId == 0 {
        HeadKeeps(currencies, st, out, tx, r, SortedChildren(all, tx));
      }
    }
  }

  lemma TransferKeeps(currencies: seq<Currency>, st: TxState, out: seq<Stmt>, tx: Transaction)
    requires Inv(st, out) && tx.toAccountId != 0
    ensures var o := TransferStep(currencies, st, tx);
      && Inv(o.st, out + o.out)
      && Extends(st.table, o.st.table)
      && st.counter <= o.st.counter
      && st.idSet <= o.st.idSet
  {
    var o := TransferStep(currencies, st, tx);
    var r := Intern(st.table, TransferItemName);
    InternTracks(st.table, out, TransferItemName);
    DeclaredAppendItems(out, r.out);
    var legs := o.out[|r.out|..];
    assert o.out == r.out + legs;
    AppendUses(r.table, out + r.out, legs, r.id);
    assert out + o.out == (out + r.out) + legs;
  }

  lemma HeadKeeps(currencies: seq<Currency>, st: TxState, out: seq<Stmt>,
                  tx: Transaction, r: Resolved, children: seq<Transaction>)
    requires Inv(st, out)
    requires Tracks(r.table, out + r.out) && DeclaredBeforeUse(out + r.out)
    requires IsUnnamed(r.id) || InitialLastItemId < r.id <= r.table.last
    ensures var o := HeadStep(currencies, st, tx, r, children);
      && Inv(o.st, out + o.out)
      && st.counter <= o.st.counter
      && st.idSet <= o.st.idSet
  {
    var o := HeadStep(currencies, st, tx, r, children);
    var rows := o.out[|r.out|..];
    assert o.out == r.out + rows;
    assert forall i :: 0 <= i < |rows| ==> rows[i].Tx? && rows[i].tx.itemID == r.id;
    AppendUses(r.table, out + r.out, rows, r.id);
    assert out + o.out == (out + r.out) + rows;
  }
}
