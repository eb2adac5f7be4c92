/** The item table of `migrate_transactions`: free-text labels interned
    into numeric item ids, each new id announced by an ITEMTABLE row. */
module Items {
  import opened Text
  import opened Rows

  /** `last_item_id` starts here, so the first item created is 41. */
  const InitialLastItemId: int := 40

  /** The fixed ids of the target's "Unnamed Expense" and "Unnamed Income". */
  const UnnamedExpense: int := 2
  const UnnamedIncome: int := 3

  /** The label map and the last id handed out. */
  datatype ItemTable = ItemTable(ids: map<string, int>, last: int)

  const EmptyTable: ItemTable := ItemTable(map[], InitialLastItemId)

  /** The table after a lookup, the id found or made, and the rows emitted. */
  datatype Interned = Interned(table: ItemTable, id: int, out: seq<Stmt>)

  /** Looks `name` up; when it is new it becomes item `last + 1`, announced
      by an ITEMTABLE row carrying the escaped name. */
  function Intern(t: ItemTable, name: string): Interned
  {
    if name in t.ids then Interned(t, t.ids[name], [])
    else
      var id := t.last + 1;
      Interned(ItemTable(t.ids[name := id], id), id, [Item(ItemRow(id, EscapeQuote(name)))])
  }

  /** The ITEMTABLE rows of `out`, in order. */
  function ItemRows(out: seq<Stmt>): seq<ItemRow>
  {
    if |out| == 0 then []
    else (if out[0].Item? then [out[0].item] else []) + ItemRows(out[1..])
  }

  lemma {:induction false} ItemRowsAppend(a: seq<Stmt>, b: seq<Stmt>)
    ensures ItemRows(a + b) == ItemRows(a) + ItemRows(b)
  {
    if |a| == 0 {
      assert a + b == b;
    } else {
      assert (a + b)[0] == a[0];
      assert (a + b)[1..] == a[1..] + b;
      ItemRowsAppend(a[1..], b);
    }
  }

  /** Every ITEMTABLE row comes from a position of `out`. */
  lemma {:induction false} ItemRowsIndex(out: seq<Stmt>, k: int)
    requires 0 <= k < |ItemRows(out)|
    ensures exists j :: 0 <= j < |out| && out[j] == Item(ItemRows(out)[k])
  {
    if out[0].Item? && k == 0 {
      assert out[0] == Item(ItemRows(out)[0]);
    } else {
      var k' := if out[0].Item? then k - 1 else k;
      assert ItemRows(out)[k] == ItemRows(out[1..])[k'];
      ItemRowsIndex(out[1..], k');
      var j :| 0 <= j < |out[1..]| && out[1..][j] == Item(ItemRows(out[1..])[k']);
      assert out[j + 1] == out[1..][j];
    }
  }

  /** `row` announces item `id` under the escape of a label the table maps
      to `id`. */
  predicate RowOf(t: ItemTable, row: ItemRow, id: int)
  {
    && row.itemTableID == id
    && Unescape(row.itemName) in t.ids
    && t.ids[Unescape(row.itemName)] == id
    && row.itemName == EscapeQuote(Unescape(row.itemName))
  }

  /** The table and the emitted rows agree: the k-th ITEMTABLE row announces
      item 41 + k, the table's ids lie in 41..last, and no two labels share
      an id. */
  ghost predicate Tracks(t: ItemTable, out: seq<Stmt>)
  {
    && t.last >= InitialLastItemId
    && |ItemRows(out)| == t.last - InitialLastItemId
    && (forall k :: 0 <= k < |ItemRows(out)| ==> RowOf(t, ItemRows(out)[k], InitialLastItemId + 1 + k))
    && (forall n :: n in t.ids ==> InitialLastItemId < t.ids[n] <= t.last)
    && (forall n1, n2 :: n1 in t.ids && n2 in t.ids && t.ids[n1] == t.ids[n2] ==> n1 == n2)
  }

  /** `u` keeps every label of `t` under the same id. */
  predicate Extends(t: ItemTable, u: ItemTable)
  {
    t.last <= u.last && forall n :: n in t.ids ==> n in u.ids && u.ids[n] == t.ids[n]
  }

  predicate NoTx(out: seq<Stmt>)
  {
    forall i :: 0 <= i < |out| ==> !out[i].Tx?
  }

  lemma EmptyTracks()
    ensures Tracks(EmptyTable, [])
  {
  }

  /** A known label reuses its id; a new one gets the next id, is added to
      the table and announced by one ITEMTABLE row. */
  lemma InternTracks(t: ItemTable, out: seq<Stmt>, name: string)
    requires Tracks(t, out)
    ensures var r := Intern(t, name);
      && Tracks(r.table, out + r.out)
      && Extends(t, r.table)
      && NoTx(r.out)
      && name in r.table.ids && r.table.ids[name] == r.id
      && InitialLastItemId < r.id <= r.table.last
      && (name in t.ids ==> r.out == [] && r.table == t)
      && (name !in t.ids ==>
            (r.id == t.last + 1 && r.table.last == r.id && r.out == [Item(ItemRow(r.id, EscapeQuote(name)))]))
  {
    var r := Intern(t, name);
    if name !in t.ids {
      NewItemTracks(t, out, name);
    } else {
      assert out + r.out == out;
    }
  }

  lemma NewItemTracks(t: ItemTable, out: seq<Stmt>, name: string)
    requires Tracks(t, out) && name !in t.ids
    ensures Tracks(Intern(t, name).table, out + Intern(t, name).out)
  {
    var r := Intern(t, name);
    var row := ItemRow(r.id, EscapeQuote(name));
    ItemRowsAppend(out, r.out);
    assert r.out[1..] == [];
    assert ItemRows(r.out) == [row] + ItemRows([]);
    assert row == ItemRow(r.table.last, EscapeQuote(name));
    assert ItemRows(out + r.out) == ItemRows(out) + [row];
    NewRowsOf(t, ItemRows(out), name);
    NewIds(t, name);
  }

  /** The rows already announced stay valid and the new row is valid. */
  lemma NewRowsOf(t: ItemTable, rows: seq<ItemRow>, name: string)
    requires name !in t.ids
    requires forall k :: 0 <= k < |rows| ==> RowOf(t, rows[k], InitialLastItemId + 1 + k)
    requires |rows| == t.last - InitialLastItemId
    ensures var u := Intern(t, name).table;
      var all := rows + [ItemRow(u.last, EscapeQuote(name))];
      forall k :: 0 <= k < |all| ==> RowOf(u, all[k], InitialLastItemId + 1 + k)
  {
    var u := Intern(t, name).table;
    var all := rows + [ItemRow(u.last, EscapeQuote(name))];
    UnescapeEscape(name);
    forall k | 0 <= k < |all| ensures RowOf(u, all[k], InitialLastItemId + 1 + k) {
      if k < |rows| {
        assert all[k] == rows[k];
        assert RowOf(t, rows[k], InitialLastItemId + 1 + k);
      } else {
        assert all[k] == ItemRow(u.last, EscapeQuote(name));
      }
    }
  }

  /** The new id is above every id in use, so the map stays injective. */
  lemma NewIds(t: ItemTable, name: string)
    requires name !in t.ids && t.last >= InitialLastItemId
    requires forall n :: n in t.ids ==> InitialLastItemId < t.ids[n] <= t.last
    requires forall n1, n2 :: n1 in t.ids && n2 in t.ids && t.ids[n1] == t.ids[n2] ==> n1 == n2
    ensures var u := Intern(t, name).table;
      && u.last == t.last + 1
      && (forall n :: n in u.ids ==> InitialLastItemId < u.ids[n] <= u.last)
      && (forall n1, n2 :: n1 in u.ids && n2 in u.ids && u.ids[n1] == u.ids[n2] ==> n1 == n2)
  {
  }

  /** Item ids of the announced rows strictly increase from 41. */
  lemma ItemIdsIncrease(t: ItemTable, out: seq<Stmt>)
    requires Tracks(t, out)
    ensures forall k :: 0 <= k < |ItemRows(out)| ==> ItemRows(out)[k].itemTableID == InitialLastItemId + 1 + k
    ensures forall i, j :: 0 <= i < j < |ItemRows(out)| ==> ItemRows(out)[i].itemTableID < ItemRows(out)[j].itemTableID
  {
    forall k | 0 <= k < |ItemRows(out)| ensures ItemRows(out)[k].itemTableID == InitialLastItemId + 1 + k {
      assert RowOf(t, ItemRows(out)[k], InitialLastItemId + 1 + k);
    }
  }

  /** No label is announced twice. */
  lemma ItemNamesDistinct(t: ItemTable, out: seq<Stmt>)
    requires Tracks(t, out)
    ensures forall i, j :: 0 <= i < j < |ItemRows(out)| ==> ItemRows(out)[i].itemName != ItemRows(out)[j].itemName
  {
    forall i, j | 0 <= i < j < |ItemRows(out)|
      ensures ItemRows(out)[i].itemName != ItemRows(out)[j].itemName
    {
      assert RowOf(t, ItemRows(out)[i], InitialLastItemId + 1 + i);
      assert RowOf(t, ItemRows(out)[j], InitialLastItemId + 1 + j);
    }
  }

  /** An ITEMTABLE row of `out` announces item `id`. */
  ghost predicate Declared(out: seq<Stmt>, id: int)
  {
    exists j :: 0 <= j < |out| && out[j].Item? && out[j].item.itemTableID == id
  }

  predicate IsUnnamed(id: int)
  {
    id == UnnamedExpense || id == UnnamedIncome
  }

  /** Every transaction row uses an unnamed item or one announced by an
      earlier row. */
  ghost predicate DeclaredBeforeUse(out: seq<Stmt>)
  {
    forall i :: 0 <= i < |out| && out[i].Tx? ==> IsUnnamed(out[i].tx.itemID) || Declared(out[..i], out[i].tx.itemID)
  }

  /** Every id the table hands out has been announced. */
  lemma TrackedDeclared(t: ItemTable, out: seq<Stmt>, id: int)
    requires Tracks(t, out) && InitialLastItemId < id <= t.last
    ensures Declared(out, id)
  {
    var k := id - InitialLastItemId - 1;
    assert RowOf(t, ItemRows(out)[k], id);
    ItemRowsIndex(out, k);
  }

  /** Appending rows without transactions keeps the property. */
  lemma DeclaredAppendItems(a: seq<Stmt>, b: seq<Stmt>)
    requires DeclaredBeforeUse(a) && NoTx(b)
    ensures DeclaredBeforeUse(a + b)
  {
    var c := a + b;
    forall i | 0 <= i < |c| && c[i].Tx?
      ensures IsUnnamed(c[i].tx.itemID) || Declared(c[..i], c[i].tx.itemID)
    {
      if i < |a| {
        assert c[..i] == a[..i];
      } else {
        assert false;
      }
    }
  }

  /** Appending transaction rows that all use an already usable item keeps
      the property. */
  lemma DeclaredAppendTx(a: seq<Stmt>, b: seq<Stmt>, id: int)
    requires DeclaredBeforeUse(a)
    requires IsUnnamed(id) || Declared(a, id)
    requires forall i :: 0 <= i < |b| ==> b[i].Tx? && b[i].tx.itemID == id
    ensures DeclaredBeforeUse(a + b)
  {
    var c := a + b;
    forall i | 0 <= i < |c| && c[i].Tx?
      ensures IsUnnamed(c[i].tx.itemID) || Declared(c[..i], c[i].tx.itemID)
    {
      if i >= |a| {
        assert c[i] == b[i - |a|];
        if !IsUnnamed(id) {
          var j :| 0 <= j < |a| && a[j].Item? && a[j].item.itemTableID == id;
          assert c[..i][j] == a[j];
        }
      } else {
        assert c[..i] == a[..i];
      }
    }
  }

  /** A run of transaction rows that all use one usable item keeps the
      table in step and every use declared. */
  lemma AppendUses(t: ItemTable, a: seq<Stmt>, b: seq<Stmt>, id: int)
    requires Tracks(t, a) && DeclaredBeforeUse(a)
    requires IsUnnamed(id) || InitialLastItemId < id <= t.last
    requires forall i :: 0 <= i < |b| ==> b[i].Tx? && b[i].tx.itemID == id
    ensures Tracks(t, a + b) && DeclaredBeforeUse(a + b)
  {
    NoItemRows(b);
    ItemRowsAppend(a, b);
    assert ItemRows(a + b) == ItemRows(a);
    if !IsUnnamed(id) {
      TrackedDeclared(t, a, id);
    }
    DeclaredAppendTx(a, b, id);
  }

  lemma {:induction false} NoItemRows(b: seq<Stmt>)
    requires forall i :: 0 <= i < |b| ==> b[i].Tx?
    ensures ItemRows(b) == []
  {
    if |b| > 0 {
      assert forall i :: 0 <= i < |b| - 1 ==> b[1..][i] == b[i + 1];
      NoItemRows(b[1..]);
    }
  }
}
