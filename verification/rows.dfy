/** The rows the migration emits. Each stands for one INSERT statement whose
    SQL text is a fixed template around these fields; text fields hold exactly
    the text placed into the template. */
module Rows {

  /** ITEMTABLE (itemTableID, itemName). */
  datatype ItemRow = ItemRow(itemTableID: int, itemName: string)

  /** ACCOUNTSTABLE (accountsTableID, accountName, accountTypeID, accountCurrency). */
  datatype AccountRow = AccountRow(
    accountsTableID: int,
    accountName: string,
    accountTypeID: string,
    accountCurrency: string)

  /** PARENTCATEGORYTABLE (parentCategoryTableID, parentCategoryName, categoryGroupID). */
  datatype ParentCatRow = ParentCatRow(
    parentCategoryTableID: int,
    parentCategoryName: string,
    categoryGroupID: string)

  /** CHILDCATEGORYTABLE (categoryTableID, childCategoryName, parentCategoryID). */
  datatype ChildCatRow = ChildCatRow(
    categoryTableID: int,
    childCategoryName: string,
    parentCategoryID: int)

  /** TRANSACTIONSTABLE. `dateMillis` is the instant the `date` column is
      formatted from; the reminder columns are always NULL and
      `conversionRateNew` is always 1.0, so they are not fields. */
  datatype TxRow = TxRow(
    transactionsTableID: int,
    itemID: int,
    amount: int,
    transactionCurrency: string,
    dateMillis: int,
    transactionTypeID: int,
    categoryID: int,
    accountID: int,
    notes: string,
    status: int,
    accountReference: int,
    accountPairID: int,
    uidPairID: int,
    deletedTransaction: int,
    newSplitTransactionID: int,
    transferGroupID: int)

  datatype Stmt =
    | Item(item: ItemRow)
    | Account(account: AccountRow)
    | ParentCat(parent: ParentCatRow)
    | ChildCat(child: ChildCatRow)
    | Tx(tx: TxRow)
}
