/** The decoded source entities (Financisto backup records). Only the fields
    the migration reads are kept; integers are unbounded. */
module Entities {
  import opened Wrappers

  datatype Currency = Currency(id: int, name: string, title: string, symbol: string)

  /** `kind` is the source account-type tag (`BANK`, `CASH`, ...). */
  datatype Account = Account(
    id: int,
    title: string,
    kind: string,
    currencyId: int,
    creationDate: int)

  /** A node of the nested-set category tree: it covers the interval
      `[left, right]`. */
  datatype Category = Category(id: int, title: string, left: int, right: int, kind: int)

  /** `parentId == 0`: not a split child; `toAccountId == 0`: not a transfer.
      Amounts carry two implied decimal digits; `datetime` is in milliseconds. */
  datatype Transaction = Transaction(
    id: int,
    parentId: int,
    fromAccountId: int,
    toAccountId: int,
    fromAmount: int,
    toAmount: int,
    categoryId: int,
    note: Option<string>,
    originalCurrencyId: int,
    datetime: int)

  predicate IdAbsent(currencies: seq<Currency>, id: int)
  {
    forall c :: c in currencies ==> c.id != id
  }

  /** `find` over the currency list: the first currency whose id is `id`. */
  function FindCurrency(currencies: seq<Currency>, id: int): Option<Currency>
  {
    if |currencies| == 0 then None
    else if currencies[0].id == id then Some(currencies[0])
    else FindCurrency(currencies[1..], id)
  }

  /** The lookup misses exactly when no currency has the id, and a hit is
      the first currency in list order that has it. */
  lemma {:induction false} FindCurrencyFirst(currencies: seq<Currency>, id: int)
    ensures FindCurrency(currencies, id).None? <==> IdAbsent(currencies, id)
    ensures FindCurrency(currencies, id).Some? ==>
      exists k :: 0 <= k < |currencies| && currencies[k] == FindCurrency(currencies, id).value
        && currencies[k].id == id && IdAbsent(currencies[..k], id)
  {
    if |currencies| > 0 && currencies[0].id != id {
      var tail := currencies[1..];
      FindCurrencyFirst(tail, id);
      assert forall c :: c in currencies <==> c == currencies[0] || c in tail;
      if FindCurrency(tail, id).Some? {
        var k :| 0 <= k < |tail| && tail[k] == FindCurrency(tail, id).value
          && tail[k].id == id && IdAbsent(tail[..k], id);
        assert currencies[..k + 1] == [currencies[0]] + tail[..k];
        assert currencies[k + 1] == tail[k];
      }
    } else if |currencies| > 0 {
      assert currencies[..0] == [];
    }
  }
}
