/** The children of a split transaction: collected from the whole list,
    then put in ascending-datetime order by a stable sort. */
module Splits {
  import opened Entities

  /** The transactions of `all` whose parent is `id`, in list order. */
  function ChildrenOf(all: seq<Transaction>, id: int): (r: seq<Transaction>)
    ensures forall t :: t in r <==> t in all && t.parentId == id
    ensures |r| <= |all|
  {
    if |all| == 0 then []
    else (if all[0].parentId == id then [all[0]] else []) + ChildrenOf(all[1..], id)
  }

  predicate Sorted(s: seq<Transaction>)
  {
    forall i, j :: 0 <= i < j < |s| ==> s[i].datetime <= s[j].datetime
  }

  /** The elements of `s` stamped `d`, in order: a stable sort must keep
      this sequence unchanged for every `d`. */
  function AtTime(s: seq<Transaction>, d: int): seq<Transaction>
  {
    if |s| == 0 then []
    else (if s[0].datetime == d then [s[0]] else []) + AtTime(s[1..], d)
  }

  /** Puts `t` before the first element that is not earlier than it. */
  function InsertByTime(t: Transaction, s: seq<Transaction>): (r: seq<Transaction>)
    ensures multiset(r) == multiset(s) + multiset{t}
  {
    if |s| == 0 || t.datetime <= s[0].datetime then
      [t] + s
    else
      assert s == [s[0]] + s[1..];
      [s[0]] + InsertByTime(t, s[1..])
  }

  /** Nothing in `s` is stamped earlier than `lo`. */
  predicate NotBefore(lo: int, s: seq<Transaction>)
  {
    forall k :: 0 <= k < |s| ==> lo <= s[k].datetime
  }

  lemma SortedCons(x: Transaction, rest: seq<Transaction>)
    requires NotBefore(x.datetime, rest) && Sorted(rest)
    ensures Sorted([x] + rest)
  {
    var r := [x] + rest;
    forall i, j | 0 <= i < j < |r| ensures r[i].datetime <= r[j].datetime {
      assert r[j] == rest[j - 1];
      if i > 0 {
        assert r[i] == rest[i - 1];
      }
    }
  }

  lemma {:induction false} InsertSorted(t: Transaction, s: seq<Transaction>)
    requires Sorted(s)
    ensures Sorted(InsertByTime(t, s))
  {
    if |s| == 0 || t.datetime <= s[0].datetime {
      assert NotBefore(t.datetime, s) by {
        forall k | 0 <= k < |s| ensures t.datetime <= s[k].datetime {
          assert s[0].datetime <= s[k].datetime;
        }
      }
      SortedCons(t, s);
    } else {
      var rest := InsertByTime(t, s[1..]);
      SortedTail(s);
      InsertSorted(t, s[1..]);
      assert NotBefore(s[0].datetime, rest) by {
        forall k | 0 <= k < |rest| ensures s[0].datetime <= rest[k].datetime {
          assert rest[k] in multiset(rest);
          if rest[k] != t {
            assert rest[k] in multiset(s[1..]);
            var m :| 0 <= m < |s[1..]| && s[1..][m] == rest[k];
            assert s[m + 1] == rest[k];
          }
        }
      }
      SortedCons(s[0], rest);
    }
  }

  /** Insertion keeps the same-time order and puts `t` at the front of
      those stamped like it. */
  lemma {:induction false} InsertAtTime(t: Transaction, s: seq<Transaction>, d: int)
    ensures AtTime(InsertByTime(t, s), d) == (if t.datetime == d then [t] else []) + AtTime(s, d)
  {
    if |s| == 0 || t.datetime <= s[0].datetime {
      assert ([t] + s)[1..] == s;
    } else {
      var rest := InsertByTime(t, s[1..]);
      InsertAtTime(t, s[1..], d);
      assert ([s[0]] + rest)[1..] == rest;
    }
  }

  /** `sort_by` on the datetime: stable insertion sort. */
  function SortByTime(s: seq<Transaction>): (r: seq<Transaction>)
    ensures Sorted(r)
    ensures multiset(r) == multiset(s)
  {
    if |s| == 0 then []
    else
      var rest := SortByTime(s[1..]);
      assert s == [s[0]] + s[1..];
      InsertSorted(s[0], rest);
      InsertByTime(s[0], rest)
  }

  /** Stability: elements with equal datetimes keep their input order. */
  lemma {:induction false} SortByTimeStable(s: seq<Transaction>, d: int)
    ensures AtTime(SortByTime(s), d) == AtTime(s, d)
  {
    if |s| > 0 {
      SortByTimeStable(s[1..], d);
      InsertAtTime(s[0], SortByTime(s[1..]), d);
    }
  }

  /** A sorted, same-time-order-preserving permutation is unique: any other
      stable ascending sort gives the same children order. */
  lemma {:induction false} StableSortUnique(a: seq<Transaction>, b: seq<Transaction>)
    requires Sorted(a) && Sorted(b)
    requires forall d :: AtTime(a, d) == AtTime(b, d)
    ensures a == b
    decreases |a| + |b|
  {
    if |a| == 0 && |b| == 0 {
    } else if |a| == 0 {
      AtTimeHead(b);
      assert false;
    } else if |b| == 0 {
      AtTimeHead(a);
      assert false;
    } else {
      // The first elements of sorted `a` and `b` both carry the smallest time.
      var da := a[0].datetime;
      var db := b[0].datetime;
      AtTimeHead(a);
      AtTimeHead(b);
      if da < db {
        assert AtTime(a, da) == AtTime(b, da);
        AtTimeAbsent(b, da);
        assert false;
      } else if db < da {
        assert AtTime(a, db) == AtTime(b, db);
        AtTimeAbsent(a, db);
        assert false;
      }
      assert AtTime(a, da) == AtTime(b, da);
      assert a[0] == AtTime(a, da)[0] == AtTime(b, da)[0] == b[0];
      forall d ensures AtTime(a[1..], d) == AtTime(b[1..], d) {
        AtTimeTail(a, d);
        AtTimeTail(b, d);
      }
      SortedTail(a);
      SortedTail(b);
      StableSortUnique(a[1..], b[1..]);
      assert a == [a[0]] + a[1..] && b == [b[0]] + b[1..];
    }
  }

  lemma AtTimeHead(s: seq<Transaction>)
    requires |s| > 0
    ensures AtTime(s, s[0].datetime) == [s[0]] + AtTime(s[1..], s[0].datetime)
  {
  }

  lemma AtTimeTail(s: seq<Transaction>, d: int)
    requires |s| > 0
    ensures AtTime(s[1..], d) == (if s[0].datetime == d then AtTime(s, d)[1..] else AtTime(s, d))
  {
  }

  lemma SortedTail(s: seq<Transaction>)
    requires |s| > 0 && Sorted(s)
    ensures Sorted(s[1..])
  {
    assert forall i :: 0 <= i < |s| - 1 ==> s[1..][i] == s[i + 1];
  }

  /** In a sorted sequence nothing is stamped earlier than its head. */
  lemma {:induction false} AtTimeAbsent(s: seq<Transaction>, d: int)
    requires |s| > 0 && Sorted(s) && d < s[0].datetime
    ensures AtTime(s, d) == []
    decreases |s|
  {
    if |s| > 1 {
      SortedTail(s);
      assert s[1..][0] == s[1];
      AtTimeAbsent(s[1..], d);
    }
  }
}
