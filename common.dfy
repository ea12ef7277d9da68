// Numeric helpers shared by the editor model: OpenTK's clamp, .NET's
// banker's rounding and C#'s truncating cast to long.

module Common {

  datatype Option<T> = None | Some(value: T)

  function MinInt(a: int, b: int): int { if a <= b then a else b }
  function MaxInt(a: int, b: int): int { if a >= b then a else b }
  function MinReal(a: real, b: real): real { if a <= b then a else b }
  function MaxReal(a: real, b: real): real { if a >= b then a else b }
  function AbsReal(a: real): real { if a >= 0.0 then a else -a }

  /** OpenTK MathHelper.Clamp: Max(Min(n, hi), lo). When hi < lo the lower bound wins. */
  function ClampInt(n: int, lo: int, hi: int): (r: int)
    ensures lo <= r
    ensures lo <= hi ==> r <= hi
    ensures lo <= n <= hi ==> r == n
    ensures n < lo ==> r == lo
    ensures lo <= hi < n ==> r == hi
  {
    MaxInt(MinInt(n, hi), lo)
  }

  /** The same clamp over single-precision values, idealised as reals. */
  function ClampReal(n: real, lo: real, hi: real): (r: real)
    ensures lo <= r
    ensures lo <= hi ==> r <= hi
    ensures lo <= n <= hi ==> r == n
    ensures n < lo ==> r == lo
    ensures lo <= hi < n ==> r == hi
  {
    MaxReal(MinReal(n, hi), lo)
  }

  /**
   * Math.Round with the default MidpointRounding.ToEven: the nearest integer,
   * and on a tie the even one.
   */
  function RoundHalfEven(x: real): (r: int)
    ensures AbsReal(x - r as real) <= 0.5
    ensures AbsReal(x - r as real) == 0.5 ==> r % 2 == 0
  {
    var f := x.Floor;
    var d := x - f as real;
    if d < 0.5 then f
    else if d > 0.5 then f + 1
    else if f % 2 == 0 then f else f + 1
  }

  /** The C# cast (long)x: truncation toward zero. */
  function Trunc(x: real): (r: int)
    ensures x >= 0.0 ==> 0 <= r && r as real <= x < r as real + 1.0
    ensures x < 0.0 ==> r <= 0 && r as real - 1.0 < x <= r as real
  {
    if x >= 0.0 then x.Floor else -((-x).Floor)
  }

  /** A whole number converts back to itself. */
  lemma TruncWhole(n: int)
    ensures Trunc(n as real) == n
  {
    if n < 0 {
      assert (-(n as real)).Floor == -n;
    }
  }

  /** C#'s % on floating-point operands: the remainder of a truncated quotient. */
  function RealRem(a: real, b: real): (r: real)
    requires b > 0.0
    ensures a >= 0.0 ==> 0.0 <= r < b
  {
    var q := Trunc(a / b);
    assert a >= 0.0 ==> q as real <= a / b < q as real + 1.0;
    RemBounds(a, b, q);
    a - q as real * b
  }

  lemma RemBounds(a: real, b: real, q: int)
    requires b > 0.0
    requires a >= 0.0 ==> q as real <= a / b < q as real + 1.0
    ensures a >= 0.0 ==> 0.0 <= a - q as real * b < b
  {
    if a >= 0.0 {
      var y := a / b;
      assert y * b == a;
      var d := y - q as real;
      Distribute(y, q as real, b);
      assert a - q as real * b == d * b;
      MulLe(0.0, d, b);
      MulLt(d, 1.0, b);
      assert 0.0 * b == 0.0 && 1.0 * b == b;
      assert 0.0 <= d * b < b;
    }
  }

  lemma Distribute(y: real, z: real, b: real)
    ensures y * b - z * b == (y - z) * b
  {}

  lemma DivPositive(x: real, y: real)
    requires x > 0.0 && y > 0.0
    ensures x / y > 0.0
  {
    var z := x / y;
    assert z * y == x;
    if z <= 0.0 {
      MulLe(z, 0.0, y);
      assert false;
    }
  }

  lemma DivTimes(a: real, b: real)
    requires b != 0.0
    ensures (a / b) * b == a
  {}

  lemma MulLe(x: real, y: real, b: real)
    requires x <= y && b > 0.0
    ensures x * b <= y * b
  {}

  lemma MulLt(x: real, y: real, b: real)
    requires x < y && b > 0.0
    ensures x * b < y * b
  {}

  lemma {:induction false} MulAtLeast(d: int, n: int)
    requires d >= 1 && n > 0
    ensures d * n >= n
  {
    if d > 1 {
      MulAtLeast(d - 1, n);
      assert d * n == (d - 1) * n + n;
    }
  }

  /** The remainder is the r of any quotient-remainder split of m with 0 <= r < n. */
  lemma ModUnique(m: int, n: int, q: int, r: int)
    requires n > 0 && 0 <= r < n && m == q * n + r
    ensures m % n == r
  {
    var q2, r2 := m / n, m % n;
    assert m == q2 * n + r2;
    assert (q2 - q) * n == r - r2;
    if q2 > q {
      MulAtLeast(q2 - q, n);
    } else if q2 < q {
      MulAtLeast(q - q2, n);
    }
  }

  /** No reference or value appears twice. */
  predicate Distinct<T(==)>(s: seq<T>)
  {
    forall i, j :: 0 <= i < j < |s| ==> s[i] != s[j]
  }

  lemma DistinctCounts<T>(s: seq<T>)
    ensures Distinct(s) <==> forall x :: multiset(s)[x] <= 1
  {
    if !Distinct(s) {
      var i, j :| 0 <= i < j < |s| && s[i] == s[j];
      assert s == s[..i] + [s[i]] + s[i + 1..j] + [s[j]] + s[j + 1..];
      assert multiset(s)[s[i]] >= 2;
    } else {
      forall x ensures multiset(s)[x] <= 1 {
        DistinctCount(s, x);
      }
    }
  }

  lemma {:induction false} DistinctCount<T>(s: seq<T>, x: T)
    requires Distinct(s)
    ensures multiset(s)[x] <= 1
  {
    if s != [] {
      assert s == [s[0]] + s[1..];
      assert Distinct(s[1..]) by {
        forall i, j | 0 <= i < j < |s[1..]| ensures s[1..][i] != s[1..][j] {
          assert s[1..][i] == s[i + 1] && s[1..][j] == s[j + 1];
        }
      }
      DistinctCount(s[1..], x);
      if s[0] == x {
        assert x !in s[1..];
      }
    }
  }

  /** A reordering of a list without repeats has no repeats. */
  lemma DistinctPermutation<T>(a: seq<T>, b: seq<T>)
    requires Distinct(a) && multiset(a) == multiset(b)
    ensures Distinct(b)
  {
    DistinctCounts(a);
    DistinctCounts(b);
  }

  /** The sequence with the first occurrence of x removed (List.Remove). */
  function RemoveFirst<T(==)>(s: seq<T>, x: T): (r: seq<T>)
    ensures x in s ==> |r| == |s| - 1
    ensures x !in s ==> r == s
  {
    if s == [] then []
    else if s[0] == x then s[1..]
    else [s[0]] + RemoveFirst(s[1..], x)
  }

  /** List.Remove takes away exactly one copy of x, when there is one. */
  lemma {:induction false} RemoveFirstMultiset<T>(s: seq<T>, x: T)
    ensures multiset(RemoveFirst(s, x)) == multiset(s) - multiset{x}
  {
    if s != [] {
      assert s == [s[0]] + s[1..];
      if s[0] != x {
        RemoveFirstMultiset(s[1..], x);
      }
    }
  }

  /** An item is in a list after List.Remove(n) only if it was before, and every item other than n stays. */
  lemma RemoveFirstIn<T>(s: seq<T>, n: T, m: T)
    ensures m in RemoveFirst(s, n) ==> m in s
    ensures m in s && m != n ==> m in RemoveFirst(s, n)
  {
    var r := RemoveFirst(s, n);
    RemoveFirstMultiset(s, n);
    if m in r {
      assert m in multiset(r);
      assert m in multiset(s);
    }
    if m in s && m != n {
      assert m in multiset(s);
      assert m in multiset(r);
    }
  }

  /** Removing n from a list without repeats leaves a list without repeats and without n. */
  lemma {:induction false} RemoveFirstDistinct<T>(s: seq<T>, n: T)
    requires Distinct(s)
    ensures Distinct(RemoveFirst(s, n))
    ensures n !in RemoveFirst(s, n)
  {
    if s != [] {
      var h := s[0];
      assert s == [h] + s[1..];
      assert h !in s[1..];
      if h != n {
        RemoveFirstDistinct(s[1..], n);
        var t := RemoveFirst(s[1..], n);
        assert RemoveFirst(s, n) == [h] + t;
        if h in t {
          RemoveFirstIn(s[1..], n, h);
        }
      }
    }
  }

  lemma RemoveFirstCons<T>(h: T, t: seq<T>, x: T)
    ensures RemoveFirst([h] + t, x) == if h == x then t else [h] + RemoveFirst(t, x)
  {
    assert ([h] + t)[0] == h && ([h] + t)[1..] == t;
  }

  /** The first occurrences of the items of xs removed one after another, in the order of xs. */
  function RemoveAll<T(==)>(s: seq<T>, xs: seq<T>): (r: seq<T>)
    ensures |r| <= |s|
    decreases |xs|
  {
    if xs == [] then s else RemoveAll(RemoveFirst(s, xs[0]), xs[1..])
  }

  /** Removing the items of xs takes away one copy of each, where there is one. */
  lemma {:induction false} RemoveAllMultiset<T>(s: seq<T>, xs: seq<T>)
    ensures multiset(RemoveAll(s, xs)) == multiset(s) - multiset(xs)
    decreases |xs|
  {
    if xs != [] {
      assert xs == [xs[0]] + xs[1..];
      RemoveFirstMultiset(s, xs[0]);
      RemoveAllMultiset(RemoveFirst(s, xs[0]), xs[1..]);
    }
  }

  /** Removing the items one by one: the last removal comes after all the others. */
  lemma {:induction false} RemoveAllSnoc<T>(s: seq<T>, xs: seq<T>, x: T)
    ensures RemoveAll(s, xs + [x]) == RemoveFirst(RemoveAll(s, xs), x)
    decreases |xs|
  {
    if xs == [] {
      assert RemoveAll(RemoveFirst(s, x), []) == RemoveFirst(s, x);
      assert ([] + [x])[1..] == [];
    } else {
      assert (xs + [x])[0] == xs[0];
      assert (xs + [x])[1..] == xs[1..] + [x];
      RemoveAllSnoc(RemoveFirst(s, xs[0]), xs[1..], x);
    }
  }

  lemma {:induction false} RemoveFirstAppend<T>(s: seq<T>, t: seq<T>, x: T)
    requires x !in s
    ensures RemoveFirst(s + t, x) == s + RemoveFirst(t, x)
  {
    if s != [] {
      assert (s + t)[0] == s[0];
      assert (s + t)[1..] == s[1..] + t;
      RemoveFirstAppend(s[1..], t, x);
      assert [s[0]] + (s[1..] + RemoveFirst(t, x)) == s + RemoveFirst(t, x);
    } else {
      assert s + t == t;
    }
  }

  /** Removing, from a list followed by some items, those items gives back the list, when none of them is in it. */
  lemma {:induction false} RemoveAllAppended<T>(s: seq<T>, xs: seq<T>)
    requires forall k :: 0 <= k < |xs| ==> xs[k] !in s
    ensures RemoveAll(s + xs, xs) == s
    decreases |xs|
  {
    if xs == [] {
      assert s + xs == s;
    } else {
      RemoveFirstAppend(s, xs, xs[0]);
      assert RemoveFirst(xs, xs[0]) == xs[1..];
      RemoveAllAppended(s, xs[1..]);
    }
  }
}
