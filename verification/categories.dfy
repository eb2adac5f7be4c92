/** `migrate_categories`: flattens the nested-set category tree into the
    target's two levels of parent groups and child categories. */
module Categories {
  import opened Entities
  import opened Rows

  function Width(c: Category): int
  {
    c.right - c.left
  }

  /** `outer`'s interval strictly contains `inner`'s. */
  predicate Contains(outer: Category, inner: Category)
  {
    outer.left < inner.left && outer.right > inner.right
  }

  /** Some category of `cats` strictly contains `c`. */
  predicate HasContainer(cats: seq<Category>, c: Category)
  {
    exists j :: 0 <= j < |cats| && Contains(cats[j], c)
  }

  /** Top-level: an inner node, or a node nothing contains. */
  predicate IsTop(cats: seq<Category>, c: Category)
  {
    Width(c) > 1 || !HasContainer(cats, c)
  }

  /** Leaf: a unit-width node that something contains. */
  predicate IsLeaf(cats: seq<Category>, c: Category)
  {
    Width(c) == 1 && HasContainer(cats, c)
  }

  /** No category is both top-level and a leaf; every category of width at
      least one is one of the two. */
  lemma TopLeafPartition(cats: seq<Category>, c: Category)
    ensures !(IsTop(cats, c) && IsLeaf(cats, c))
    ensures Width(c) >= 1 ==> IsTop(cats, c) || IsLeaf(cats, c)
    ensures IsLeaf(cats, c) <==> Width(c) == 1 && !IsTop(cats, c)
  {
  }

  /** Whatever strictly contains a leaf is at least three wide, hence top-level. */
  lemma ContainerOfLeafIsTop(cats: seq<Category>, c: Category, n: Category)
    requires Width(c) == 1 && Contains(n, c)
    ensures Width(n) >= 3 && IsTop(cats, n)
  {
  }

  /** `cats[j]` is a top-level category that contains `c`. */
  predicate TopContainer(cats: seq<Category>, j: int, c: Category)
    requires 0 <= j < |cats|
  {
    IsTop(cats, cats[j]) && Contains(cats[j], c)
  }

  /** `k` is the first index of a top-level category containing `c`. */
  predicate FirstTopContainer(cats: seq<Category>, k: int, c: Category)
  {
    0 <= k < |cats| && TopContainer(cats, k, c) && forall j :: 0 <= j < k ==> !TopContainer(cats, j, c)
  }

  /** The first index at or after `i` of a top-level category containing `c`. */
  function ParentFrom(cats: seq<Category>, c: Category, i: nat): (k: nat)
    requires i <= |cats|
    requires exists j :: i <= j < |cats| && TopContainer(cats, j, c)
    ensures i <= k < |cats| && TopContainer(cats, k, c)
    ensures forall j :: i <= j < k ==> !TopContainer(cats, j, c)
    decreases |cats| - i
  {
    if TopContainer(cats, i, c) then i else ParentFrom(cats, c, i + 1)
  }

  /** A leaf always has a top-level container: whatever contains it will do. */
  lemma LeafHasTopContainer(cats: seq<Category>, c: Category)
    requires IsLeaf(cats, c)
    ensures exists j :: 0 <= j < |cats| && TopContainer(cats, j, c)
  {
    var n :| 0 <= n < |cats| && Contains(cats[n], c);
    ContainerOfLeafIsTop(cats, c, cats[n]);
    assert TopContainer(cats, n, c);
  }

  /** The position of a leaf's parent: the first top-level category, in
      input order, that contains it. It always exists. */
  function ParentIndex(cats: seq<Category>, c: Category): (k: nat)
    requires IsLeaf(cats, c)
    ensures FirstTopContainer(cats, k, c)
  {
    LeafHasTopContainer(cats, c);
    ParentFrom(cats, c, 0)
  }

  /** The parent of a leaf. */
  function ParentOf(cats: seq<Category>, c: Category): (p: Category)
    requires IsLeaf(cats, c)
    ensures p in cats && IsTop(cats, p) && Contains(p, c)
  {
    cats[ParentIndex(cats, c)]
  }

  /** The group code of a parent category: income or expense. */
  function GroupCode(title: string): string
  {
    if title == "收入" then "2" else "3"
  }

  /** The top-level categories of `cs`, in order. */
  function Tops(cats: seq<Category>, cs: seq<Category>): seq<Category>
  {
    if |cs| == 0 then []
    else (if IsTop(cats, cs[0]) then [cs[0]] else []) + Tops(cats, cs[1..])
  }

  /** The leaf categories of `cs`, in order. */
  function Leaves(cats: seq<Category>, cs: seq<Category>): seq<Category>
  {
    if |cs| == 0 then []
    else (if IsLeaf(cats, cs[0]) then [cs[0]] else []) + Leaves(cats, cs[1..])
  }

  /** `Tops` keeps exactly the top-level members of `cs`. */
  lemma {:induction false} TopsMembers(cats: seq<Category>, cs: seq<Category>)
    ensures forall t :: t in Tops(cats, cs) <==> t in cs && IsTop(cats, t)
  {
    if |cs| > 0 {
      TopsMembers(cats, cs[1..]);
      assert cs == [cs[0]] + cs[1..];
    }
  }

  /** `Leaves` keeps exactly the leaf members of `cs`. */
  lemma {:induction false} LeavesMembers(cats: seq<Category>, cs: seq<Category>)
    ensures forall t :: t in Leaves(cats, cs) <==> t in cs && IsLeaf(cats, t)
  {
    if |cs| > 0 {
      LeavesMembers(cats, cs[1..]);
      assert cs == [cs[0]] + cs[1..];
    }
  }

  /** The two rows of a top-level category: its group, and a child of that
      group keyed by its own id. */
  predicate TopRows(s0: Stmt, s1: Stmt, t: Category)
  {
    && s0 == ParentCat(ParentCatRow(t.id, t.title, GroupCode(t.title)))
    && s1 == ChildCat(ChildCatRow(t.id, t.title, t.id))
  }

  /** The first loop: two rows per top-level category of `cs`. */
  function TopStmts(cats: seq<Category>, cs: seq<Category>): (r: seq<Stmt>)
    ensures |r| == 2 * |Tops(cats, cs)|
    ensures forall i :: 0 <= i < |Tops(cats, cs)| ==> TopRows(r[2 * i], r[2 * i + 1], Tops(cats, cs)[i])
  {
    if |cs| == 0 then []
    else
      var c := cs[0];
      var rest := TopStmts(cats, cs[1..]);
      if IsTop(cats, c) then
        var head := [ParentCat(ParentCatRow(c.id, c.title, GroupCode(c.title))),
                     ChildCat(ChildCatRow(c.id, c.title, c.id))];
        ShiftTops(head, rest, cats, c, Tops(cats, cs[1..]));
        head + rest
      else rest
  }

  lemma ShiftTops(head: seq<Stmt>, rest: seq<Stmt>, cats: seq<Category>, c: Category, ts: seq<Category>)
    requires |head| == 2 && TopRows(head[0], head[1], c)
    requires |rest| == 2 * |ts|
    requires forall i :: 0 <= i < |ts| ==> TopRows(rest[2 * i], rest[2 * i + 1], ts[i])
    ensures forall i :: 0 <= i < |ts| + 1 ==>
      TopRows((head + rest)[2 * i], (head + rest)[2 * i + 1], ([c] + ts)[i])
  {
    forall i | 1 <= i < |ts| + 1
      ensures TopRows((head + rest)[2 * i], (head + rest)[2 * i + 1], ([c] + ts)[i])
    {
      var j := 2 * (i - 1);
      assert (head + rest)[j + 2] == rest[j] && (head + rest)[j + 3] == rest[j + 1];
      assert ([c] + ts)[i] == ts[i - 1];
    }
  }

  /** The child row of a leaf, under its parent. */
  predicate LeafRow(s: Stmt, cats: seq<Category>, l: Category)
  {
    IsLeaf(cats, l) && s == ChildCat(ChildCatRow(l.id, l.title, ParentOf(cats, l).id))
  }

  /** The second loop: one child row per leaf of `cs`. */
  function LeafStmts(cats: seq<Category>, cs: seq<Category>): (r: seq<Stmt>)
    ensures |r| == |Leaves(cats, cs)|
    ensures forall i :: 0 <= i < |r| ==> LeafRow(r[i], cats, Leaves(cats, cs)[i])
  {
    if |cs| == 0 then []
    else
      var c := cs[0];
      var rest := LeafStmts(cats, cs[1..]);
      if IsLeaf(cats, c) then
        var head := [ChildCat(ChildCatRow(c.id, c.title, ParentOf(cats, c).id))];
        ShiftLeaves(head, rest, cats, c, Leaves(cats, cs[1..]));
        assert Leaves(cats, cs) == [c] + Leaves(cats, cs[1..]);
        head + rest
      else
        assert Leaves(cats, cs) == Leaves(cats, cs[1..]);
        rest
  }

  lemma ShiftLeaves(head: seq<Stmt>, rest: seq<Stmt>, cats: seq<Category>, c: Category, ls: seq<Category>)
    requires |head| == 1 && LeafRow(head[0], cats, c)
    requires |rest| == |ls|
    requires forall i :: 0 <= i < |ls| ==> LeafRow(rest[i], cats, ls[i])
    ensures forall i :: 0 <= i < |ls| + 1 ==> LeafRow((head + rest)[i], cats, ([c] + ls)[i])
  {
    forall i | 1 <= i < |ls| + 1
      ensures LeafRow((head + rest)[i], cats, ([c] + ls)[i])
    {
      assert (head + rest)[i] == rest[i - 1];
      assert ([c] + ls)[i] == ls[i - 1];
    }
  }

  /** `migrate_categories`: all rows of top-level categories, in input
      order, then the rows of the leaves, in input order. */
  function MigrateCategories(cats: seq<Category>): (r: seq<Stmt>)
    ensures |r| == 2 * |Tops(cats, cats)| + |Leaves(cats, cats)|
    ensures forall i :: 0 <= i < |Tops(cats, cats)| ==>
      TopRows(r[2 * i], r[2 * i + 1], Tops(cats, cats)[i])
    ensures forall i :: 0 <= i < |Leaves(cats, cats)| ==>
      LeafRow(r[2 * |Tops(cats, cats)| + i], cats, Leaves(cats, cats)[i])
  {
    var tops := TopStmts(cats, cats);
    var leaves := LeafStmts(cats, cats);
    assert forall i :: 0 <= i < |leaves| ==> (tops + leaves)[|tops| + i] == leaves[i];
    tops + leaves
  }

  /** Every leaf's child row names a parent group whose row is emitted
      earlier, among the rows of the first loop. */
  lemma ParentRowFirst(cats: seq<Category>, i: int)
    requires 0 <= i < |Leaves(cats, cats)|
    ensures var r := MigrateCategories(cats);
      var p := r[2 * |Tops(cats, cats)| + i].child.parentCategoryID;
      exists j :: 0 <= j < |Tops(cats, cats)| && r[2 * j].ParentCat? && r[2 * j].parent.parentCategoryTableID == p
  {
    var r := MigrateCategories(cats);
    var ts := Tops(cats, cats);
    var l := Leaves(cats, cats)[i];
    assert LeafRow(r[2 * |ts| + i], cats, l);
    var p := ParentOf(cats, l);
    TopsMembers(cats, cats);
    assert p in ts;
    var j :| 0 <= j < |ts| && ts[j] == p;
    assert TopRows(r[2 * j], r[2 * j + 1], ts[j]);
  }

  /** The ids of the child-category rows of `stmts`, in order. */
  function ChildIds(stmts: seq<Stmt>): seq<int>
  {
    if |stmts| == 0 then []
    else (if stmts[0].ChildCat? then [stmts[0].child.categoryTableID] else []) + ChildIds(stmts[1..])
  }

  function Ids(cs: seq<Category>): seq<int>
  {
    if |cs| == 0 then [] else [cs[0].id] + Ids(cs[1..])
  }

  lemma {:induction false} ChildIdsAppend(a: seq<Stmt>, b: seq<Stmt>)
    ensures ChildIds(a + b) == ChildIds(a) + ChildIds(b)
  {
    if |a| == 0 {
      assert a + b == b;
    } else {
      assert (a + b)[0] == a[0];
      assert (a + b)[1..] == a[1..] + b;
      ChildIdsAppend(a[1..], b);
    }
  }

  lemma IdsCons(c: Category, cs: seq<Category>)
    ensures Ids([c] + cs) == [c.id] + Ids(cs)
  {
    assert ([c] + cs)[1..] == cs;
  }

  lemma {:induction false} TopChildIds(cats: seq<Category>, cs: seq<Category>)
    ensures ChildIds(TopStmts(cats, cs)) == Ids(Tops(cats, cs))
  {
    if |cs| > 0 {
      var c := cs[0];
      var rest := TopStmts(cats, cs[1..]);
      TopChildIds(cats, cs[1..]);
      if IsTop(cats, c) {
        var head := [ParentCat(ParentCatRow(c.id, c.title, GroupCode(c.title))),
                     ChildCat(ChildCatRow(c.id, c.title, c.id))];
        assert TopStmts(cats, cs) == head + rest;
        ChildIdsAppend(head, rest);
        assert ChildIds(head) == [c.id] by {
          assert ChildIds(head) == ChildIds(head[1..]);
          assert head[1..][1..] == [];
        }
        assert Tops(cats, cs) == [c] + Tops(cats, cs[1..]);
        IdsCons(c, Tops(cats, cs[1..]));
        assert ChildIds(TopStmts(cats, cs)) == [c.id] + ChildIds(rest);
      } else {
        assert TopStmts(cats, cs) == rest;
        assert Tops(cats, cs) == Tops(cats, cs[1..]);
      }
    }
  }

  lemma {:induction false} LeafChildIds(cats: seq<Category>, cs: seq<Category>)
    ensures ChildIds(LeafStmts(cats, cs)) == Ids(Leaves(cats, cs))
  {
    if |cs| > 0 {
      var c := cs[0];
      var rest := LeafStmts(cats, cs[1..]);
      LeafChildIds(cats, cs[1..]);
      if IsLeaf(cats, c) {
        var head := [ChildCat(ChildCatRow(c.id, c.title, ParentOf(cats, c).id))];
        assert LeafStmts(cats, cs) == head + rest;
        ChildIdsAppend(head, rest);
        assert ChildIds(head) == [c.id] by {
          assert head[1..] == [];
        }
        assert Leaves(cats, cs) == [c] + Leaves(cats, cs[1..]);
        IdsCons(c, Leaves(cats, cs[1..]));
        assert ChildIds(LeafStmts(cats, cs)) == [c.id] + ChildIds(rest);
      } else {
        assert LeafStmts(cats, cs) == rest;
        assert Leaves(cats, cs) == Leaves(cats, cs[1..]);
      }
    }
  }

  predicate AllWide(cs: seq<Category>)
  {
    forall i :: 0 <= i < |cs| ==> Width(cs[i]) >= 1
  }

  /** When every category is at least one wide, tops and leaves split `cs`. */
  lemma {:induction false} SplitIds(cats: seq<Category>, cs: seq<Category>)
    requires AllWide(cs)
    ensures multiset(Ids(Tops(cats, cs))) + multiset(Ids(Leaves(cats, cs))) == multiset(Ids(cs))
  {
    if |cs| > 0 {
      AllWideTail(cs);
      SplitIds(cats, cs[1..]);
      SplitIdsStep(cats, cs);
    }
  }

  lemma AllWideTail(cs: seq<Category>)
    requires |cs| > 0 && AllWide(cs)
    ensures AllWide(cs[1..]) && Width(cs[0]) >= 1
  {
    forall i | 0 <= i < |cs[1..]| ensures Width(cs[1..][i]) >= 1 {
      assert cs[1..][i] == cs[i + 1];
    }
  }

  /** One category of width at least one lands on exactly one side. */
  lemma SplitIdsStep(cats: seq<Category>, cs: seq<Category>)
    requires |cs| > 0 && Width(cs[0]) >= 1
    requires multiset(Ids(Tops(cats, cs[1..]))) + multiset(Ids(Leaves(cats, cs[1..]))) == multiset(Ids(cs[1..]))
    ensures multiset(Ids(Tops(cats, cs))) + multiset(Ids(Leaves(cats, cs))) == multiset(Ids(cs))
  {
    var c := cs[0];
    var ts := Tops(cats, cs[1..]);
    var ls := Leaves(cats, cs[1..]);
    assert Ids(cs) == [c.id] + Ids(cs[1..]);
    if IsTop(cats, c) {
      assert Tops(cats, cs) == [c] + ts;
      assert Leaves(cats, cs) == ls;
      IdsCons(c, ts);
    } else {
      assert Leaves(cats, cs) == [c] + ls;
      assert Tops(cats, cs) == ts;
      IdsCons(c, ls);
    }
  }

  /** Every category of width at least one keeps exactly one child row under
      its own id: the child-row ids are the category ids, up to order. */
  lemma CategoryCoverage(cats: seq<Category>)
    requires AllWide(cats)
    ensures multiset(ChildIds(MigrateCategories(cats))) == multiset(Ids(cats))
  {
    ChildIdsAppend(TopStmts(cats, cats), LeafStmts(cats, cats));
    TopChildIds(cats, cats);
    LeafChildIds(cats, cats);
    SplitIds(cats, cats);
  }
}
