/**
 A stable sort by a comparator, as `Array.prototype.sort` is: a permutation, sorted when the
 comparator is a strict weak order, and with whatever no comparison separates left in its
 original order. A strict order leaves no choice at all.
 */
module StableSort {

  /** `x` goes before everything it is not after. */
  function Insert<T>(x: T, s: seq<T>, less: (T, T) -> bool): seq<T> {
    if s == [] then [x]
    else if less(s[0], x) then [s[0]] + Insert(x, s[1..], less)
    else [x] + s
  }

  function Sort<T>(s: seq<T>, less: (T, T) -> bool): seq<T> {
    if s == [] then [] else Insert(s[0], Sort(s[1..], less), less)
  }

  /** A strict weak order. */
  ghost predicate WeakOrder<T(!new)>(less: (T, T) -> bool) {
    && (forall x, y :: less(x, y) ==> !less(y, x))
    && (forall x, y, z :: !less(x, y) && !less(y, z) ==> !less(x, z))
  }

  ghost predicate Sorted<T>(s: seq<T>, less: (T, T) -> bool) {
    forall i, j :: 0 <= i < j < |s| ==> !less(s[j], s[i])
  }

  function Filter<T>(s: seq<T>, keep: T -> bool): seq<T> {
    if s == [] then [] else (if keep(s[0]) then [s[0]] else []) + Filter(s[1..], keep)
  }

  lemma {:induction false} InsertKeepsElements<T>(x: T, s: seq<T>, less: (T, T) -> bool)
    ensures multiset(Insert(x, s, less)) == multiset{x} + multiset(s)
    ensures |Insert(x, s, less)| == |s| + 1
  {
    if s != [] && less(s[0], x) {
      InsertKeepsElements(x, s[1..], less);
      assert s == [s[0]] + s[1..];
    }
  }

  lemma {:induction false} SortIsPermutation<T>(s: seq<T>, less: (T, T) -> bool)
    ensures multiset(Sort(s, less)) == multiset(s)
    ensures |Sort(s, less)| == |s|
    ensures forall x :: x in Sort(s, less) <==> x in s
  {
    if s == [] {
    } else {
      SortIsPermutation(s[1..], less);
      InsertKeepsElements(s[0], Sort(s[1..], less), less);
      assert s == [s[0]] + s[1..];
    }
    forall x ensures x in Sort(s, less) <==> x in s {
      assert x in Sort(s, less) <==> x in multiset(Sort(s, less));
      assert x in s <==> x in multiset(s);
    }
  }

  lemma {:induction false} InsertSorts<T(!new)>(x: T, s: seq<T>, less: (T, T) -> bool)
    requires WeakOrder(less) && Sorted(s, less)
    ensures Sorted(Insert(x, s, less), less)
  {
    var t := Insert(x, s, less);
    if s != [] {
      if less(s[0], x) {
        InsertSorts(x, s[1..], less);
        var rest := Insert(x, s[1..], less);
        InsertKeepsElements(x, s[1..], less);
        forall k | 0 <= k < |rest| ensures !less(rest[k], s[0]) {
          assert rest[k] in multiset(rest);
          assert rest[k] == x || rest[k] in s[1..];
        }
      } else {
        forall k | 0 <= k < |s| ensures !less(s[k], x) {
          assert k > 0 ==> !less(s[k], s[0]);
        }
      }
    }
  }

  lemma {:induction false} SortSorts<T(!new)>(s: seq<T>, less: (T, T) -> bool)
    requires WeakOrder(less)
    ensures Sorted(Sort(s, less), less)
  {
    if s == [] {
    } else {
      SortSorts(s[1..], less);
      InsertSorts(s[0], Sort(s[1..], less), less);
    }
  }

  /** Elements that no comparison separates stay in their original order. */
  lemma {:induction false} SortIsStable<T(!new)>(s: seq<T>, less: (T, T) -> bool, tied: T -> bool)
    requires forall x, y :: tied(x) && tied(y) ==> !less(x, y)
    ensures Filter(Sort(s, less), tied) == Filter(s, tied)
  {
    if s == [] {
    } else {
      SortIsStable(s[1..], less, tied);
      InsertIsStable(s[0], Sort(s[1..], less), less, tied);
    }
  }

  lemma {:induction false} InsertIsStable<T(!new)>(x: T, s: seq<T>, less: (T, T) -> bool, tied: T -> bool)
    requires forall x, y :: tied(x) && tied(y) ==> !less(x, y)
    ensures Filter(Insert(x, s, less), tied) == Filter([x] + s, tied)
  {
    assert ([x] + s)[1..] == s;
    if s != [] && less(s[0], x) {
      InsertIsStable(x, s[1..], less, tied);
      assert ([x] + s[1..])[1..] == s[1..];
      assert ([s[0]] + Insert(x, s[1..], less))[1..] == Insert(x, s[1..], less);
    }
  }

  /** Sequences in strict order with the same elements are the same sequence. */
  lemma {:induction false} StrictOrderIsUnique<T(!new)>(s: seq<T>, t: seq<T>, before: (T, T) -> bool)
    requires forall x, y :: before(x, y) ==> !before(y, x)
    requires forall i, j :: 0 <= i < j < |s| ==> before(s[i], s[j])
    requires forall i, j :: 0 <= i < j < |t| ==> before(t[i], t[j])
    requires forall x :: x in s <==> x in t
    ensures s == t
  {
    if s == [] {
      assert forall i :: 0 <= i < |t| ==> t[i] in t;
    } else {
      assert s[0] in t && t != [];
      assert t[0] in s;
      var i :| 0 <= i < |t| && t[i] == s[0];
      var j :| 0 <= j < |s| && s[j] == t[0];
      assert s[0] == t[0];
      forall x ensures x in s[1..] <==> x in t[1..] {
        assert x in s[1..] ==> before(s[0], x);
        assert x in t[1..] ==> before(t[0], x);
        assert x in s <==> x == s[0] || x in s[1..];
        assert x in t <==> x == t[0] || x in t[1..];
      }
      StrictOrderIsUnique(s[1..], t[1..], before);
      assert s == [s[0]] + s[1..] && t == [t[0]] + t[1..];
    }
  }
}
