// The orderings the editor restores after every edit (MainWindow's
// SortNotes, SortTimings and SortBookmarks: OrderBy on the time), and the
// list edits the note commands make before sorting: List.AddRange and one
// List.Remove per note.

module TimeOrder {
  import opened Common
  import opened Sorting
  import opened Notes
  import opened Timing
  import opened Bookmarks

  // ---------------------------------------------------------------------
  // Notes

  /** The note list after SortNotes. */
  function ByTime(ns: seq<Note>): seq<Note>
    reads ns`ms
  {
    Items(Sort(Keyed(ns)))
  }

  predicate InTimeOrder(ns: seq<Note>)
    reads ns`ms
  {
    SortedByKey(Keyed(ns))
  }

  lemma ItemsOfKeyed(ns: seq<Note>)
    ensures Items(Keyed(ns)) == ns
  {
  }

  /** Every entry of the sorted keyed list pairs a note with its own time. */
  lemma KeyedOfSorted(ns: seq<Note>)
    ensures Keyed(ByTime(ns)) == Sort(Keyed(ns))
  {
    var p := Sort(Keyed(ns));
    SortSortsAndPermutes(Keyed(ns));
    forall i | 0 <= i < |p| ensures p[i] == (p[i].1.ms, p[i].1) {
      assert p[i] in multiset(Keyed(ns));
      var j :| 0 <= j < |ns| && Keyed(ns)[j] == p[i];
    }
  }

  /**
   * SortNotes: the result is ascending by time, holds exactly the same notes,
   * and notes with the same time keep their order.
   */
  lemma ByTimeSortsStably(ns: seq<Note>, k: int)
    ensures InTimeOrder(ByTime(ns))
    ensures multiset(ByTime(ns)) == multiset(ns)
    ensures WithKey(Keyed(ByTime(ns)), k) == WithKey(Keyed(ns), k)
  {
    KeyedOfSorted(ns);
    SortSortsAndPermutes(Keyed(ns));
    SortKeepsItems(Keyed(ns));
    ItemsOfKeyed(ns);
    SortIsStable(Keyed(ns), k);
  }

  /** A list already in time order is left as it is. */
  lemma ByTimeKeepsOrdered(ns: seq<Note>)
    requires InTimeOrder(ns)
    ensures ByTime(ns) == ns
  {
    SortKeepsSorted(Keyed(ns));
    ItemsOfKeyed(ns);
  }

  lemma {:induction false} KeyedRemoveFirst(ns: seq<Note>, n: Note)
    ensures Keyed(RemoveFirst(ns, n)) == RemoveFirst(Keyed(ns), (n.ms, n))
  {
    if ns != [] {
      assert Keyed(ns) == [(ns[0].ms, ns[0])] + Keyed(ns[1..]);
      RemoveFirstCons((ns[0].ms, ns[0]), Keyed(ns[1..]), (n.ms, n));
      if ns[0] != n {
        KeyedRemoveFirst(ns[1..], n);
        assert Keyed([ns[0]] + RemoveFirst(ns[1..], n)) == [(ns[0].ms, ns[0])] + Keyed(RemoveFirst(ns[1..], n));
      }
    }
  }

  lemma {:induction false} KeyedRemoveAll(ns: seq<Note>, cs: seq<Note>)
    ensures Keyed(RemoveAll(ns, cs)) == RemoveAll(Keyed(ns), Keyed(cs))
    decreases |cs|
  {
    if cs != [] {
      KeyedRemoveFirst(ns, cs[0]);
      KeyedRemoveAll(RemoveFirst(ns, cs[0]), cs[1..]);
      assert Keyed(cs)[1..] == Keyed(cs[1..]);
    }
  }

  /**
   * Adding notes that are not in a time-ordered list and sorting, then
   * removing those notes one by one and sorting, gives back the list
   * exactly, ties included (the undo of ADD NOTE, PASTE and TWEEN after
   * their redo).
   */
  lemma AddThenRemove(ns: seq<Note>, cs: seq<Note>)
    requires InTimeOrder(ns)
    requires forall k :: 0 <= k < |cs| ==> cs[k] !in ns
    ensures ByTime(RemoveAll(ByTime(ns + cs), cs)) == ns
  {
    RemovedKeys(ns, cs);
    SortKeepsSorted(Keyed(ns));
    ItemsOfKeyed(ns);
  }

  lemma RemovedKeys(ns: seq<Note>, cs: seq<Note>)
    requires InTimeOrder(ns)
    requires forall k :: 0 <= k < |cs| ==> cs[k] !in ns
    ensures Keyed(RemoveAll(ByTime(ns + cs), cs)) == Keyed(ns)
  {
    var added := ByTime(ns + cs);
    KeyedAppend(ns, cs);
    KeyedOfSorted(ns + cs);
    KeyedRemoveAll(added, cs);
    KeyedDisjoint(ns, cs);
    SortThenRemoveAppended(Keyed(ns), Keyed(cs));
  }

  lemma KeyedAppend(ns: seq<Note>, cs: seq<Note>)
    ensures Keyed(ns + cs) == Keyed(ns) + Keyed(cs)
  {
  }

  lemma KeyedDisjoint(ns: seq<Note>, cs: seq<Note>)
    requires forall k :: 0 <= k < |cs| ==> cs[k] !in ns
    ensures forall k :: 0 <= k < |cs| ==> Keyed(cs)[k] !in Keyed(ns)
  {
  }

  /** Removing notes and adding them back keeps the same notes (the undo of CUT after its redo). */
  lemma RemoveThenAdd(ns: seq<Note>, cs: seq<Note>)
    requires multiset(cs) <= multiset(ns)
    ensures multiset(ByTime(ByTime(RemoveAll(ns, cs)) + cs)) == multiset(ns)
  {
    var r := RemoveAll(ns, cs);
    RemoveAllMultiset(ns, cs);
    ByTimeSortsStably(r, 0);
    ByTimeSortsStably(ByTime(r) + cs, 0);
  }

  // ---------------------------------------------------------------------
  // Timing points and bookmarks

  function KeyedPoints(ps: seq<TimingPoint>): (ks: seq<(int, TimingPoint)>)
    reads ps
    ensures |ks| == |ps|
    ensures forall i :: 0 <= i < |ps| ==> ks[i] == (ps[i].ms, ps[i])
  {
    seq(|ps|, i requires 0 <= i < |ps| reads ps => (ps[i].ms, ps[i]))
  }

  /** The timing point list after SortTimings. */
  function PointsByTime(ps: seq<TimingPoint>): seq<TimingPoint>
    reads ps
  {
    Items(Sort(KeyedPoints(ps)))
  }

  /** SortTimings: ascending by time, the same points, ties in their old order. */
  lemma PointsByTimeSortsStably(ps: seq<TimingPoint>, k: int)
    ensures SortedByKey(KeyedPoints(PointsByTime(ps)))
    ensures multiset(PointsByTime(ps)) == multiset(ps)
    ensures WithKey(KeyedPoints(PointsByTime(ps)), k) == WithKey(KeyedPoints(ps), k)
  {
    var p := Sort(KeyedPoints(ps));
    SortSortsAndPermutes(KeyedPoints(ps));
    forall i | 0 <= i < |p| ensures p[i] == (p[i].1.ms, p[i].1) {
      assert p[i] in multiset(KeyedPoints(ps));
      var j :| 0 <= j < |ps| && KeyedPoints(ps)[j] == p[i];
    }
    assert KeyedPoints(PointsByTime(ps)) == p;
    SortKeepsItems(KeyedPoints(ps));
    assert Items(KeyedPoints(ps)) == ps;
    SortIsStable(KeyedPoints(ps), k);
  }

  function KeyedTempos(ts: seq<Tempo>): (ks: seq<(int, Tempo)>)
    ensures |ks| == |ts|
    ensures forall i :: 0 <= i < |ts| ==> ks[i] == (ts[i].ms, ts[i])
  {
    seq(|ts|, i requires 0 <= i < |ts| => (ts[i].ms, ts[i]))
  }

  /** What the timing points say after SortTimings, computed on the values alone. */
  function TemposByTime(ts: seq<Tempo>): seq<Tempo>
  {
    Items(Sort(KeyedTempos(ts)))
  }

  /** Sorting the points and then reading them equals reading them and then sorting the values. */
  lemma TemposOfSorted(ps: seq<TimingPoint>)
    ensures Tempos(PointsByTime(ps)) == TemposByTime(Tempos(ps))
  {
    var m := map p | p in ps :: TempoOf(p);
    var f := (p: TimingPoint) => if p in m then m[p] else NoTempo;
    assert MapItems(KeyedPoints(ps), f) == KeyedTempos(Tempos(ps)) by {
      forall i | 0 <= i < |ps| ensures ps[i] in m {
      }
    }
    SortMapped(KeyedPoints(ps), f);
    var s := Sort(KeyedPoints(ps));
    SortSortsAndPermutes(KeyedPoints(ps));
    var a, b := Tempos(Items(s)), Items(MapItems(s, f));
    forall i | 0 <= i < |s| ensures a[i] == b[i] {
      assert s[i] in multiset(KeyedPoints(ps));
      var j :| 0 <= j < |ps| && KeyedPoints(ps)[j] == s[i];
      assert s[i].1 in m;
    }
    assert a == b;
  }

  function KeyedBookmarks(bs: seq<Bookmark>): (ks: seq<(int, Bookmark)>)
    ensures |ks| == |bs|
    ensures forall i :: 0 <= i < |bs| ==> ks[i] == (bs[i].ms, bs[i])
  {
    seq(|bs|, i requires 0 <= i < |bs| => (bs[i].ms, bs[i]))
  }

  /** The bookmark list after SortBookmarks (ordered by start time). */
  function BookmarksByTime(bs: seq<Bookmark>): seq<Bookmark>
  {
    Items(Sort(KeyedBookmarks(bs)))
  }

  /** SortBookmarks: ascending by start time, the same bookmarks, ties in their old order. */
  lemma BookmarksByTimeSortsStably(bs: seq<Bookmark>, k: int)
    ensures SortedByKey(KeyedBookmarks(BookmarksByTime(bs)))
    ensures multiset(BookmarksByTime(bs)) == multiset(bs)
    ensures WithKey(KeyedBookmarks(BookmarksByTime(bs)), k) == WithKey(KeyedBookmarks(bs), k)
  {
    var p := Sort(KeyedBookmarks(bs));
    SortSortsAndPermutes(KeyedBookmarks(bs));
    forall i | 0 <= i < |p| ensures p[i] == (p[i].1.ms, p[i].1) {
      assert p[i] in multiset(KeyedBookmarks(bs));
      var j :| 0 <= j < |bs| && KeyedBookmarks(bs)[j] == p[i];
    }
    assert KeyedBookmarks(BookmarksByTime(bs)) == p;
    SortKeepsItems(KeyedBookmarks(bs));
    assert Items(KeyedBookmarks(bs)) == bs;
    SortIsStable(KeyedBookmarks(bs), k);
  }
}
