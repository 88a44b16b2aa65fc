/** Orders on strings, and what sorting by a strict order determines. */
module Order {

  /** The order Go compares strings by. */
  predicate StringLess(x: string, y: string) {
    if y == "" then false
    else if x == "" then true
    else x[0] < y[0] || (x[0] == y[0] && StringLess(x[1..], y[1..]))
  }

  lemma {:induction false} StringTotal(x: string, y: string)
    ensures x == y || StringLess(x, y) || StringLess(y, x)
    ensures !(StringLess(x, y) && StringLess(y, x)) && !StringLess(x, x)
  {
    if x != "" { StringTotal(x[1..], x[1..]); }
    if x != "" && y != "" && x[0] == y[0] {
      StringTotal(x[1..], y[1..]);
      if x[1..] == y[1..] { assert x == [x[0]] + x[1..] && y == [y[0]] + y[1..]; }
    }
  }

  lemma {:induction false} StringTransitive(x: string, y: string, z: string)
    requires StringLess(x, y) && StringLess(y, z)
    ensures StringLess(x, z)
  {
    if x != "" && x[0] == y[0] && y[0] == z[0] { StringTransitive(x[1..], y[1..], z[1..]); }
  }

  /** `x` is a proper prefix of `y`, or has the smaller character at the first difference. */
  ghost predicate TextBelow(x: string, y: string) {
    exists k: nat | k <= |x| && k < |y| :: x[..k] == y[..k] && (k == |x| || x[k] < y[k])
  }

  lemma {:induction false} StringLessExactly(x: string, y: string)
    ensures StringLess(x, y) <==> TextBelow(x, y)
  {
    if x != "" && y != "" && x[0] == y[0] {
      StringLessExactly(x[1..], y[1..]);
      if StringLess(x[1..], y[1..]) {
        var k: nat :| k <= |x[1..]| && k < |y[1..]| && x[1..][..k] == y[1..][..k]
          && (k == |x[1..]| || x[1..][k] < y[1..][k]);
        assert x[..k + 1] == [x[0]] + x[1..][..k] && y[..k + 1] == [y[0]] + y[1..][..k];
      }
      if TextBelow(x, y) {
        var k: nat :| k <= |x| && k < |y| && x[..k] == y[..k] && (k == |x| || x[k] < y[k]);
        assert k > 0 && x[1..][..k - 1] == x[..k][1..] && y[1..][..k - 1] == y[..k][1..];
      }
    } else if x != "" && y != "" {
      assert x[..0] == y[..0];
      forall k: nat | 0 < k <= |x| && k < |y| ensures x[..k] != y[..k] { assert x[..k][0] != y[..k][0]; }
    } else if x == "" && y != "" {
      assert x[..0] == y[..0];
    }
  }

  /** A strict weak order: irreflexive, transitive, and with transitive incomparability. */
  ghost predicate StrictWeakOrder<T(!new)>(less: (T, T) -> bool) {
    && (forall x :: !less(x, x))
    && (forall x, y, z :: less(x, y) && less(y, z) ==> less(x, z))
    && (forall x, y, z :: less(x, z) ==> less(x, y) || less(y, z))
  }

  /** A strict weak order in which incomparable elements are equal. */
  ghost predicate StrictTotalOrder<T(!new)>(less: (T, T) -> bool) {
    StrictWeakOrder(less) && forall x, y :: x == y || less(x, y) || less(y, x)
  }

  /** What `sort.Sort` promises: no element is less than an earlier one. */
  ghost predicate Sorted<T>(less: (T, T) -> bool, s: seq<T>) {
    forall i, j | 0 <= i < j < |s| :: !less(s[j], s[i])
  }

  /** Any sorting algorithm would do; this one inserts. */
  method Sort<T(==, !new)>(less: (T, T) -> bool, a: seq<T>) returns (s: seq<T>)
    requires StrictWeakOrder(less)
    ensures Sorted(less, s) && multiset(s) == multiset(a)
  {
    s := [];
    for n := 0 to |a|
      invariant Sorted(less, s) && multiset(s) == multiset(a[..n])
    {
      s := Insert(less, s, a[n]);
      assert a[..n + 1] == a[..n] + [a[n]];
    }
    assert a[..|a|] == a;
  }

  method Insert<T(==, !new)>(less: (T, T) -> bool, a: seq<T>, x: T) returns (s: seq<T>)
    requires StrictWeakOrder(less) && Sorted(less, a)
    ensures Sorted(less, s) && multiset(s) == multiset(a) + multiset{x}
  {
    var i := 0;
    while i < |a| && less(a[i], x)
      invariant 0 <= i <= |a| && forall k | 0 <= k < i :: less(a[k], x)
    {
      i := i + 1;
    }
    InsertSorted(less, a, x, i);
    s := a[..i] + [x] + a[i..];
    assert a == a[..i] + a[i..];
  }

  lemma {:induction false} InsertSorted<T(!new)>(less: (T, T) -> bool, a: seq<T>, x: T, i: nat)
    requires StrictWeakOrder(less) && Sorted(less, a) && i <= |a|
    requires forall k | 0 <= k < i :: less(a[k], x)
    requires i < |a| ==> !less(a[i], x)
    ensures Sorted(less, a[..i] + [x] + a[i..])
  {
    var s := a[..i] + [x] + a[i..];
    forall m, n | 0 <= m < n < |s| ensures !less(s[n], s[m]) {
      if m == i {
        assert !less(s[n], a[i]) && !less(a[i], x);
      }
    }
  }

  lemma {:induction false} SortedHead<T(!new)>(less: (T, T) -> bool, s: seq<T>, t: seq<T>)
    requires StrictTotalOrder(less) && Sorted(less, s) && Sorted(less, t) && multiset(s) == multiset(t)
    requires s != [] && t != []
    ensures s[0] == t[0]
  {
    assert s[0] in multiset(s) && t[0] in multiset(t);
    var i :| 0 <= i < |t| && t[i] == s[0];
    var j :| 0 <= j < |s| && s[j] == t[0];
  }

  /** Under a strict total order a sorted sequence is determined by its elements. */
  lemma {:induction false} SortedIsUnique<T(!new)>(less: (T, T) -> bool, s: seq<T>, t: seq<T>)
    requires StrictTotalOrder(less) && Sorted(less, s) && Sorted(less, t) && multiset(s) == multiset(t)
    ensures s == t
  {
    assert |s| == |multiset(s)| == |multiset(t)| == |t|;
    if s != [] {
      SortedHead(less, s, t);
      assert s == [s[0]] + s[1..] && t == [t[0]] + t[1..];
      assert multiset(s[1..]) == multiset(s) - multiset{s[0]};
      assert multiset(t[1..]) == multiset(t) - multiset{t[0]};
      SortedIsUnique(less, s[1..], t[1..]);
    }
  }
}
