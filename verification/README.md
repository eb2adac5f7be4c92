# financisto2bluecoins migration core, in Dafny

This project models the migration engine of financisto2bluecoins. The
engine converts a Financisto backup into SQL `INSERT` statements for a
Bluecoins database. It has three parts:

- a scanner that cuts the backup text into `key:value` blocks and picks
  out currencies, accounts, categories and transactions;
- a transform for each of accounts, categories and transactions, each
  turning one entity list into rows;
- two small text helpers, SQL quote doubling and the `i32` parse test
  used for lottery ticket numbers.

Entities are plain datatypes (`Entities`). Every emitted statement is a
row datatype (`Rows`) whose fields are the values the SQL template fills
in. The template text around them is fixed.

Modules, in program order:

- `Text`: `escape_quote`, its inverse, `str::find` for one character and
  the `i32` parse predicate.
- `Scanner`: `convert_entity` and the dispatch loop of `convert_maps`.
- `Accounts`: `migrate_accounts`.
- `Categories`: `migrate_categories`, which flattens the nested-set
  (left/right interval) tree into parent groups and child categories.
- `Amounts`: the `x * 1000000 / 100` rescaling on `i64`.
- `Items`: the label-to-item table that the transaction transform threads
  through its loop.
- `Splits`: the children of a split head and their stable sort by
  datetime.
- `Transactions`: `migrate_transactions`, a fold over the transaction list
  whose state has four parts:
  - the item table (label map plus `last_item_id`, starting at 40);
  - the `seq` counter (`counter`, starting at 1);
  - `id_set`.
- `TransactionSteps`: one iteration, case by case, and the invariant each
  iteration keeps.
- `TransactionRun`: facts about the whole fold.
- `Migration`: how account item ids and transaction item ids meet.
- `Scenarios`: small worked inputs. One of them shows that emitted keys
  can collide.

Behaviour worth knowing before reading the contracts:

- A single transaction always moves its key to `datetime + seq`. Its
  datetime is put into `id_set` just before the check (src/lib.rs:512,
  src/lib.rs:522), so the check always succeeds. A split head always moves
  its anchor the same way.
- A leaf's parent is the first top-level container in input order.
  `reduce(|a, _| a)` keeps the first element.
- Account and transaction item ids stay apart for up to 36 accounts.
  With 37 or more, account 36 (counting from 0) gets item id 41, which is
  also the first transaction item id.
- Emitted transaction keys are not unique. `Scenarios.KeyCollision` gives
  two singles that both get key 101.

## Model

| member | source | states |
|---|---|---|
| Text.EscapeQuote | src/lib.rs:294-296 | The output length is the input length plus the number of quotes. The quote count doubles, the non-quote text is unchanged, and a quote-free string comes back as it was. |
| Text.UnescapeEscape | src/lib.rs:294-296 | Collapsing every `''` back to `'` recovers the original text (round trip). |
| Text.EscapeQuoteInjective | src/lib.rs:294-296 | Two different labels never escape to the same text. |
| Text.ShortDigitStringsParse | src/lib.rs:471 | Every string of one to nine ASCII digits is a ticket number that `parse::<i32>` accepts. |
| Text.FindChar | src/lib.rs:265 | `find` returns None exactly when the character is absent; otherwise it returns the position of its first occurrence. |
| Scanner.FieldOfSplits | src/lib.rs:265-271 | A line without a colon gives no field. Otherwise the line is split at its first colon: the key is the text before it (`$ENTITY` is renamed to `entity`) and the value is everything after it, colons included. |
| Scanner.ConvertEntity | src/lib.rs:254-277 | It succeeds exactly when a `$$` line follows the index, and fails with Unterminated otherwise, where the source indexes past the end. On success the next index is just past the first `$$`, and the map is the in-order fold of the fields of the lines before it. |
| Scanner.ConvertEntityFields | src/lib.rs:254-277 | The block holds exactly the keys that its lines name. Each key maps to the value of its last occurrence, so later duplicates overwrite earlier ones. |
| Scanner.FoldIsFieldMap | src/lib.rs:268-271 | Inserting fields one line at a time yields a map whose keys are those named and whose values come from the last occurrence of each key. |
| Scanner.Dispatch | src/lib.rs:217-244 | A block becomes a record exactly when its `entity` field names one of the four kinds. The record keeps the whole map and is tagged with that kind. Other blocks are dropped. |
| Scanner.ScanFrom | src/lib.rs:208-249 | The records found so far are a prefix of the result, and every record is tagged by its `entity` field. A Loops failure names a line at or after the index that is neither a marker nor a block start. An Unterminated failure names a block start with no `$$` after it. |
| Scanner.ScanFromWalk | src/lib.rs:208-249 | The loop from a line follows a walk from that line: markers are passed one at a time and each block start together with its block up to its `$$`. A success returns the records found so far followed by the dispatch of every block passed, in line order. A failure names the line right after the walk. |
| Scanner.WalkBlocks | src/lib.rs:212-247 | Every block a walk reads starts at a block-start line, is terminated by a `$$`, and ends within the walk. |
| Scanner.WalkOrdered | src/lib.rs:212-247 | The blocks a walk reads come in increasing line order and do not overlap. |
| Scanner.WalkCovers | src/lib.rs:212-247 | Every line a walk passes is a marker or lies inside one of the blocks it reads. |
| Scanner.ConvertMaps | src/lib.rs:205-252 | The scan starts at line 4. A success is exactly the dispatch of the blocks of a walk from line 4 to the end of the file. A Loops failure names a line that is neither a marker nor a block start, and an Unterminated failure a block start with no `$$` after it; either comes right after a walk from line 4. |
| Scanner.ConvertMapsPasses | src/lib.rs:205-252 | Up to where `convert_maps` stops, it reads terminated blocks at block-start lines in increasing order, and every line from 4 up to the stop is a marker or inside one of those blocks. So a failure names the first line the scan cannot pass, and a success returns those blocks' records. |
| Entities.FindCurrencyFirst | src/lib.rs:320-325 | The currency lookup misses exactly when no currency has the id. A hit is the first currency with that id. |
| Accounts.AccountTypeCodeTable | src/lib.rs:309-318 | ASSET, ELECTRONIC and OTHER map to 15, BANK to 3, CREDIT_CARD and DEBIT_CARD to 8, CASH to 4, and every other kind to the empty code. Each direction is stated. |
| Accounts.MigrateFrom | src/lib.rs:305-369 | It succeeds exactly when every account's currency is known. Otherwise it fails and names the first account whose currency is missing. On success it emits three rows per account, numbering the items from the given id. |
| Accounts.MigrateAccounts | src/lib.rs:298-372 | It succeeds exactly when every currency is known. It emits 3·n rows. For account i the rows are, in order: the account row (escaped title, type code, currency name); item row 5+i; and the zero-amount initialiser keyed by the account id with uidPairID = creation date. |
| Categories.ContainerOfLeafIsTop | src/lib.rs:416-426 | Anything that strictly contains a unit-width category is at least three wide, so it is top-level. |
| Categories.TopLeafPartition | src/lib.rs:378-383 | No category is both top-level and a leaf. Every category of width at least one is one of the two. A leaf is exactly a unit-width category that is not top-level. |
| Categories.ParentIndex | src/lib.rs:416-426 | Every leaf has a parent, so the `unwrap` cannot fail. The parent is the first category in input order that is top-level and strictly contains the leaf. |
| Categories.ParentOf | src/lib.rs:416-426 | A leaf's parent is a category of the input that is top-level and strictly contains the leaf. |
| Categories.TopsMembers | src/lib.rs:378-383 | The first loop visits exactly the categories that are inner nodes or that nothing contains. |
| Categories.LeavesMembers | src/lib.rs:407-412 | The second loop visits exactly the unit-width categories that something contains. |
| Categories.TopStmts | src/lib.rs:378-404 | It emits two rows per top-level category, in input order. The first is a parent row keyed by the category's own id, with group code 2 for 收入 and 3 otherwise. The second is a child row whose id and parent id are both the category's own id. |
| Categories.LeafStmts | src/lib.rs:407-436 | It emits one child row per leaf, in input order. The row is keyed by the leaf's id and names the leaf's parent. |
| Categories.MigrateCategories | src/lib.rs:374-439 | It emits 2·top + leaf rows in total. All top-level rows come first, then the leaf rows. |
| Categories.ParentRowFirst | src/lib.rs:416-434 | The parent that each leaf row names has its parent row among the earlier top-level rows. |
| Categories.TopChildIds | src/lib.rs:398-403 | The child-row ids of the first loop are the top-level ids, in order. |
| Categories.LeafChildIds | src/lib.rs:430-435 | The child-row ids of the second loop are the leaf ids, in order. |
| Categories.SplitIds | src/lib.rs:378-412 | When every category is at least one wide, the top-level ids and the leaf ids together are exactly the category ids. |
| Categories.CategoryCoverage | src/lib.rs:374-439 | When every category is at least one wide, each category id is in exactly one child row. |
| Amounts.WrapI64 | src/lib.rs:532 | It models `i64` wrap-around: the result is in range, agrees with the input modulo 2^64, and equals the input when the input is in range. |
| Amounts.TruncDiv100 | src/lib.rs:532 | It divides by 100, rounding toward zero for both signs. |
| Amounts.RescaleExact | src/lib.rs:532 | When `x * 1000000` does not overflow, `x * 1000000 / 100` equals `x * 10000`. |
| Amounts.RescaleExactRange | src/lib.rs:532 | Every amount with magnitude up to 9 223 372 036 854 (in hundredths) rescales exactly. |
| Amounts.RescaleOverflow | src/lib.rs:532 | Past that range the multiplication wraps. A positive amount of 10^13 hundredths rescales to a negative number. |
| Items.InternTracks | src/lib.rs:596-609 | A known label reuses its id and emits nothing. A new label gets `last_item_id + 1`, and its escaped ITEMTABLE row is emitted. The table keeps matching the emitted item rows. |
| Items.ItemIdsIncrease | src/lib.rs:479-500 | The ITEMTABLE rows of the fold carry ids 41, 42, … in emission order, so the ids strictly increase. |
| Items.ItemNamesDistinct | src/lib.rs:469-500 | No label gets two ITEMTABLE rows, so the label map is injective. |
| Items.TrackedDeclared | src/lib.rs:479-500 | Every id the table has handed out has its ITEMTABLE row among the rows emitted so far. |
| Transactions.CurrencyNameFirst | src/lib.rs:454-459 | The currency name is that of the first currency with the id, or TWD when no currency has it. |
| Transactions.ResolveItemSpec | src/lib.rs:466-508 | A note already in the map reuses its id. An account-33 note that parses as an `i32` goes to the shared 運動彩券 item and is kept as the notes text. Any other new note gets `last_item_id + 1`. No note gives 3 for an amount ≥ 0, else 2. Only item rows are emitted, and the table keeps matching them. |
| TransactionSteps.TransferShape | src/lib.rs:593-660 | A transfer emits two legs keyed k and k+1. While 轉帳 is not yet an item, the legs are preceded by its item row with id `last_item_id + 1`, and that id is the legs' item; otherwise no item row is emitted and the legs reuse the known id. The legs' uidPairIDs point at each other. Both have group k, type 5, category 3, the rescaled amounts and the currency's name, and their accounts are swapped. k is the datetime, moved by `seq` (then `seq += 2`) only if the datetime is in `id_set`. k is then added to `id_set`. |
| TransactionSteps.SingleShape | src/lib.rs:510-547 | A single emits one row keyed `datetime + seq`. It has the rescaled amount, type 4 if the amount is ≥ 0 and 3 otherwise, the resolved item and notes, the name of the transaction's currency (TWD when unknown), its accounts and category, and the date of the unshifted datetime. Then `seq` grows by 1 and the datetime joins `id_set`. |
| TransactionSteps.SplitRowsShape | src/lib.rs:548-589 | A split head emits no row of its own. Child i of the given order gets the key anchor+i+1 with anchor = `datetime + seq`, newSplitTransactionID = anchor, and the head's item and type sign. Then `seq` grows by N. |
| TransactionSteps.SortedChildrenOrder | src/lib.rs:514-556 | The children are exactly the transactions that name the head as parent, sorted by datetime, with ties kept in list order. |
| TransactionSteps.SplitShape | src/lib.rs:510-589 | It states the split rows in terms of the whole transaction list: one row per child in stable datetime order, keyed anchor+1 … anchor+N. |
| TransactionSteps.ChildShape | src/lib.rs:590-592 | A non-transfer with a parent emits no transaction row, at most a new item row, and leaves `seq` and `id_set` alone. |
| TransactionSteps.StepKeeps | src/lib.rs:451-661 | Each iteration keeps the item table matching the item rows, announces every item before a row uses it, keeps existing labels, never decreases `seq` and never removes from `id_set`. |
| TransactionRun.RunKeeps | src/lib.rs:451-662 | The whole fold keeps that invariant and only appends rows. |
| TransactionRun.MigrateTransactionsItems | src/lib.rs:441-664 | Over the whole transform, the item ids are 41, 42, … in order, no label is announced twice, and every item a row uses is unnamed (2 or 3) or announced earlier. |
| Splits.ChildrenOf | src/lib.rs:514-517 | A transaction is a split child of the head exactly when it names the head's id as parent. The filter runs over the whole list. |
| Splits.SortByTime | src/lib.rs:556 | Sorting yields a datetime-ordered permutation of the children. |
| Splits.SortByTimeStable | src/lib.rs:556 | Children with equal datetimes keep their list order, as `sort_by` promises. |
| Splits.StableSortUnique | src/lib.rs:556 | Any sorted sequence that keeps the order among equal datetimes is the stable sort, so the sort is fully determined. |
| Migration.AccountItemIds | src/lib.rs:302-369 | The ITEMTABLE rows of the account transform carry ids 5, 6, … in account order, under the escaped titles. |
| Migration.AccountItemsBelowLimit | src/lib.rs:302-446 | All account item ids are at most 40 exactly when there are at most 36 accounts. |
| Migration.ItemIdsDisjoint | src/lib.rs:298-508 | With at most 36 accounts, no account item id equals a transaction item id. With more accounts and any transaction item, account 36 and the first transaction item share id 41. |
| Scenarios.SingleIncome | src/lib.rs:519-547 | A lone note-less income of 5.00 at datetime 1000 is keyed 1001, with amount 5 000 000, item 3, type 4 and currency TWD. |
| Scenarios.SimpleTransfer | src/lib.rs:595-660 | A transfer of 10.00 at a fresh datetime emits item 41 (轉帳), then legs keyed 5000 and 5001 that point at each other, with amounts ∓10 000 000. |
| Scenarios.LotteryTickets | src/lib.rs:471-489 | Two account-33 tickets share one 運動彩券 item, id 41, announced once, and keep their numbers as notes. |
| Scenarios.FirstTicket | src/lib.rs:471-489 | The first ticket announces the lottery item as id 41. |
| Scenarios.SecondTicket | src/lib.rs:476-477 | The second ticket reuses it. |
| Scenarios.KeyCollision | src/lib.rs:519-526 | A single at datetime 100 and then one at datetime 99 both get key 101, so keys are not unique. |
| Scenarios.SplitOrder | src/lib.rs:548-589 | A split at datetime 1000, whose children are stamped 30 and 10 in list order, emits the later-listed child first: keys 1002 and 1003 under anchor 1001. |

## Left out

- The `From<&HashMap>` decoders (src/lib.rs:25-185) are not modelled: their `str::parse` calls, panicking `unwrap`s and `f32` fields are library code. Entities are given directly as datatypes with integer and string fields. `Scanner.Dispatch` stops at the tagged field map.
- Timestamp formatting with `chrono::Local` (src/lib.rs:326-328, 462-464) depends on the time zone. The `date` column is modelled as the millisecond value it is formatted from, and the `unwrap` on an invalid timestamp is not modelled.
- The literal SQL template text and the `1.0` conversion rate are constant parts of every row and are not fields.
- `print_entity` and the logging macros only produce output.
- tests/mod.rs (gzip decompression, file reads and writes, logger setup) is I/O and is not part of this model.
- Integer widths other than the rescaling are not modelled. The model treats as unbounded:
  - the `datetime + seq` keys and `right - left`;
  - the item counters;
  - `index as i64`.
  Only `x * 1000000 / 100` is modelled with `i64` wrap-around, as in an optimised build. A debug build would panic there instead.
- The `partial_cmp(..).unwrap()` of the split sort compares `i64` values, so it never fails, and the model sorts by integer order.
- Global uniqueness of the emitted primary keys is not claimed, because the code does not guarantee it (`Scenarios.KeyCollision`).
- Scanner.ConvertMaps: an unadvanceable line makes the source loop forever. The model returns a `Loops` error naming that line instead, and a missing `$$` gives an `Unterminated` error where the source panics.
