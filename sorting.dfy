// The ordering the editor applies after every edit: List.OrderBy on the
// time in milliseconds. OrderBy is a stable sort, so items with the same
// time keep the order they had. Items are paired with their key.

module Sorting {
  import opened Common

  /** Ascending by key. */
  predicate SortedByKey<T>(s: seq<(int, T)>)
  {
    forall i, j :: 0 <= i < j < |s| ==> s[i].0 <= s[j].0
  }

  /** The items with key k, in their order in s. */
  function WithKey<T>(s: seq<(int, T)>, k: int): seq<(int, T)>
  {
    if s == [] then []
    else if s[0].0 == k then [s[0]] + WithKey(s[1..], k)
    else WithKey(s[1..], k)
  }

  /** Places x before the first item whose key is not smaller than x's. */
  function Insert<T>(x: (int, T), s: seq<(int, T)>): seq<(int, T)>
  {
    if s == [] then [x]
    else if x.0 <= s[0].0 then [x] + s
    else [s[0]] + Insert(x, s[1..])
  }

  /** Stable sort by key (the reference definition of OrderBy). */
  function Sort<T>(s: seq<(int, T)>): seq<(int, T)>
  {
    if s == [] then [] else Insert(s[0], Sort(s[1..]))
  }

  function Items<T>(s: seq<(int, T)>): (r: seq<T>)
    ensures |r| == |s|
    ensures forall i :: 0 <= i < |s| ==> r[i] == s[i].1
  {
    if s == [] then [] else [s[0].1] + Items(s[1..])
  }

  lemma {:induction false} InsertSorted<T>(x: (int, T), s: seq<(int, T)>)
    requires SortedByKey(s)
    ensures SortedByKey(Insert(x, s))
  {
    if s != [] && x.0 > s[0].0 {
      InsertSorted(x, s[1..]);
      InsertAbove(x, s[1..], s[0].0);
      SortedCons(s[0], Insert(x, s[1..]));
    }
  }

  /** Insert adds exactly one item. */
  lemma {:induction false} InsertPermutes<T>(x: (int, T), s: seq<(int, T)>)
    ensures multiset(Insert(x, s)) == multiset(s) + multiset{x}
  {
    if s != [] && x.0 > s[0].0 {
      InsertPermutes(x, s[1..]);
      assert s == [s[0]] + s[1..];
    }
  }

  /** Inserting an item keeps every key at or above a common lower bound. */
  lemma {:induction false} InsertAbove<T>(x: (int, T), s: seq<(int, T)>, lo: int)
    requires lo <= x.0
    requires forall i :: 0 <= i < |s| ==> lo <= s[i].0
    ensures forall i :: 0 <= i < |Insert(x, s)| ==> lo <= Insert(x, s)[i].0
  {
    if s != [] && x.0 > s[0].0 {
      InsertAbove(x, s[1..], lo);
    }
  }

  lemma SortedCons<T>(h: (int, T), r: seq<(int, T)>)
    requires SortedByKey(r)
    requires forall i :: 0 <= i < |r| ==> h.0 <= r[i].0
    ensures SortedByKey([h] + r)
  {
    var s := [h] + r;
    forall i, j | 0 <= i < j < |s| ensures s[i].0 <= s[j].0 {
      if i > 0 {
        assert s[i] == r[i - 1] && s[j] == r[j - 1];
      } else {
        assert s[j] == r[j - 1];
      }
    }
  }

  /** The result of Sort is ordered by key and holds exactly the input's items. */
  lemma {:induction false} SortSortsAndPermutes<T>(s: seq<(int, T)>)
    ensures SortedByKey(Sort(s))
    ensures multiset(Sort(s)) == multiset(s)
  {
    if s != [] {
      SortSortsAndPermutes(s[1..]);
      InsertSorted(s[0], Sort(s[1..]));
      InsertPermutes(s[0], Sort(s[1..]));
      assert s == [s[0]] + s[1..];
    }
  }

  lemma {:induction false} InsertWithKey<T>(x: (int, T), s: seq<(int, T)>, k: int)
    ensures WithKey(Insert(x, s), k) == if x.0 == k then [x] + WithKey(s, k) else WithKey(s, k)
  {
    if s == [] {
    } else if x.0 <= s[0].0 {
      assert ([x] + s)[1..] == s;
    } else {
      InsertWithKey(x, s[1..], k);
      assert ([s[0]] + Insert(x, s[1..]))[1..] == Insert(x, s[1..]);
    }
  }

  /** Stability: items that share a key keep their relative order. */
  lemma {:induction false} SortIsStable<T>(s: seq<(int, T)>, k: int)
    ensures WithKey(Sort(s), k) == WithKey(s, k)
  {
    if s != [] {
      SortIsStable(s[1..], k);
      InsertWithKey(s[0], Sort(s[1..]), k);
    }
  }

  /** Sorting a list that is already in order changes nothing. */
  lemma {:induction false} SortKeepsSorted<T>(s: seq<(int, T)>)
    requires SortedByKey(s)
    ensures Sort(s) == s
  {
    if s != [] {
      SortKeepsSorted(s[1..]);
      assert s == [s[0]] + s[1..];
    }
  }

  /** Removing an item just inserted gives back the list: the inserted copy is the first one. */
  lemma {:induction false} RemoveInserted<T>(x: (int, T), t: seq<(int, T)>)
    ensures RemoveFirst(Insert(x, t), x) == t
  {
    if t == [] {
      RemoveFirstCons(x, [], x);
    } else if x.0 <= t[0].0 {
      RemoveFirstCons(x, t, x);
    } else {
      RemoveInserted(x, t[1..]);
      RemoveFirstCons(t[0], Insert(x, t[1..]), x);
      assert [t[0]] + t[1..] == t;
    }
  }

  /** In an ordered list, removing one item and inserting another can be done in either order. */
  lemma {:induction false} RemoveInsert<T>(x: (int, T), y: (int, T), t: seq<(int, T)>)
    requires x != y && SortedByKey(t)
    ensures RemoveFirst(Insert(y, t), x) == Insert(y, RemoveFirst(t, x))
  {
    if t == [] {
      RemoveFirstCons(y, [], x);
    } else {
      assert t == [t[0]] + t[1..];
      RemoveFirstCons(t[0], t[1..], x);
      if y.0 <= t[0].0 {
        RemoveFirstCons(y, t, x);
        if t[0] == x && |t| > 1 {
          assert t[1..][0] == t[1];
        }
      } else {
        var rest := Insert(y, t[1..]);
        RemoveFirstCons(t[0], rest, x);
        if t[0] != x {
          RemoveInsert(x, y, t[1..]);
          var r := RemoveFirst(t[1..], x);
          assert ([t[0]] + r)[0] == t[0] && ([t[0]] + r)[1..] == r;
        }
      }
    }
  }

  /** Stable sorting and removing the first occurrence of an item commute. */
  lemma {:induction false} SortRemove<T>(s: seq<(int, T)>, x: (int, T))
    ensures Sort(RemoveFirst(s, x)) == RemoveFirst(Sort(s), x)
  {
    if s == [] {
    } else if s[0] == x {
      RemoveInserted(x, Sort(s[1..]));
    } else {
      var r := RemoveFirst(s[1..], x);
      assert RemoveFirst(s, x) == [s[0]] + r;
      assert ([s[0]] + r)[1..] == r;
      SortRemove(s[1..], x);
      SortSortsAndPermutes(s[1..]);
      RemoveInsert(x, s[0], Sort(s[1..]));
    }
  }

  /** Stable sorting and removing the first occurrences of several items commute. */
  lemma {:induction false} SortRemoveAll<T>(s: seq<(int, T)>, xs: seq<(int, T)>)
    ensures Sort(RemoveAll(s, xs)) == RemoveAll(Sort(s), xs)
    decreases |xs|
  {
    if xs != [] {
      SortRemoveAll(RemoveFirst(s, xs[0]), xs[1..]);
      SortRemove(s, xs[0]);
    }
  }

  lemma {:induction false} InsertItems<T>(x: (int, T), s: seq<(int, T)>)
    ensures multiset(Items(Insert(x, s))) == multiset(Items(s)) + multiset{x.1}
  {
    if s != [] {
      assert Items(s) == [s[0].1] + Items(s[1..]);
      if x.0 <= s[0].0 {
        assert Items([x] + s) == [x.1] + Items(s);
      } else {
        InsertItems(x, s[1..]);
        assert Items([s[0]] + Insert(x, s[1..])) == [s[0].1] + Items(Insert(x, s[1..]));
      }
    }
  }

  /** Sorting keeps exactly the items of the list, each as often as before. */
  lemma {:induction false} SortKeepsItems<T>(s: seq<(int, T)>)
    ensures multiset(Items(Sort(s))) == multiset(Items(s))
  {
    if s != [] {
      SortKeepsItems(s[1..]);
      InsertItems(s[0], Sort(s[1..]));
      assert Items(s) == [s[0].1] + Items(s[1..]);
    }
  }

  /** Sorting an ordered list followed by new items, then removing those items, gives back the list. */
  lemma SortThenRemoveAppended<T>(kn: seq<(int, T)>, kc: seq<(int, T)>)
    requires SortedByKey(kn)
    requires forall k :: 0 <= k < |kc| ==> kc[k] !in kn
    ensures RemoveAll(Sort(kn + kc), kc) == kn
  {
    SortRemoveAll(kn + kc, kc);
    RemoveAllAppended(kn, kc);
    SortKeepsSorted(kn);
  }

  /** The list with every item replaced by its image under f, keys kept. */
  function MapItems<T, U>(s: seq<(int, T)>, f: T -> U): (r: seq<(int, U)>)
    ensures |r| == |s|
    ensures forall i :: 0 <= i < |s| ==> r[i] == (s[i].0, f(s[i].1))
  {
    seq(|s|, i requires 0 <= i < |s| => (s[i].0, f(s[i].1)))
  }

  lemma {:induction false} InsertMapped<T, U>(x: (int, T), s: seq<(int, T)>, f: T -> U)
    ensures Insert((x.0, f(x.1)), MapItems(s, f)) == MapItems(Insert(x, s), f)
  {
    if s != [] {
      var m := MapItems(s, f);
      assert m[1..] == MapItems(s[1..], f);
      if x.0 > s[0].0 {
        InsertMapped(x, s[1..], f);
        assert MapItems([s[0]] + Insert(x, s[1..]), f) == [m[0]] + MapItems(Insert(x, s[1..]), f);
      }
    }
  }

  /** Sorting only compares keys, so it commutes with changing the items. */
  lemma {:induction false} SortMapped<T, U>(s: seq<(int, T)>, f: T -> U)
    ensures Sort(MapItems(s, f)) == MapItems(Sort(s), f)
  {
    if s != [] {
      SortMapped(s[1..], f);
      assert MapItems(s, f)[1..] == MapItems(s[1..], f);
      InsertMapped(s[0], Sort(s[1..]), f);
    }
  }
}
