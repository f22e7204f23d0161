/** Stable sorting, standing for Kotlin's `sortedByDescending { … }` and `toSortedMap()`.
    `before(a, b)` says that `a` may be placed ahead of `b`; an insertion sort places each
    element ahead of the first element it may precede, so equivalent elements keep their
    original relative order, as Kotlin's (TimSort-based) sorting does. */
module Sorting {

  ghost predicate TotalPreorder<T(!new)>(before: (T, T) -> bool) {
    && (forall a, b :: before(a, b) || before(b, a))
    && (forall a, b, c :: before(a, b) && before(b, c) ==> before(a, c))
  }

  predicate SortedBy<T>(s: seq<T>, before: (T, T) -> bool) {
    forall i, j :: 0 <= i < j < |s| ==> before(s[i], s[j])
  }

  function Insert<T(!new)>(x: T, s: seq<T>, before: (T, T) -> bool): (r: seq<T>)
    ensures |r| == |s| + 1 && multiset(r) == multiset(s) + multiset{x}
  {
    if s == [] || before(x, s[0]) then [x] + s
    else
      assert s == [s[0]] + s[1..];
      [s[0]] + Insert(x, s[1..], before)
  }

  lemma {:induction false} InsertSorted<T(!new)>(x: T, s: seq<T>, before: (T, T) -> bool)
    ensures TotalPreorder(before) && SortedBy(s, before) ==> SortedBy(Insert(x, s, before), before)
  {
    if TotalPreorder(before) && SortedBy(s, before) && s != [] && !before(x, s[0]) {
      InsertSorted(x, s[1..], before);
      var rest := Insert(x, s[1..], before);
      forall j | 0 <= j < |rest| ensures before(s[0], rest[j]) {
        assert rest[j] in multiset(rest);
        if rest[j] != x {
          assert rest[j] in multiset(s[1..]);
          var k :| 0 <= k < |s[1..]| && s[1..][k] == rest[j];
          assert before(s[0], s[k + 1]);
        }
      }
    }
  }

  /** The stable sort: the result is a permutation of `s`, in `before` order when `before` is a total preorder. */
  function SortBy<T(!new)>(s: seq<T>, before: (T, T) -> bool): (r: seq<T>)
    ensures |r| == |s| && multiset(r) == multiset(s)
    ensures TotalPreorder(before) ==> SortedBy(r, before)
  {
    if s == [] then []
    else
      assert s == [s[0]] + s[1..];
      var rest := SortBy(s[1..], before);
      InsertSorted(s[0], rest, before);
      Insert(s[0], rest, before)
  }

  /** The elements of `s` that `before` ties with `k` (each may be placed ahead of the other),
      in their order in `s`. */
  function TiedWith<T>(s: seq<T>, k: T, before: (T, T) -> bool): seq<T> {
    if s == [] then []
    else (if before(s[0], k) && before(k, s[0]) then [s[0]] else []) + TiedWith(s[1..], k, before)
  }

  lemma {:induction false} InsertUntied<T(!new)>(x: T, s: seq<T>, k: T, before: (T, T) -> bool)
    requires !(before(x, k) && before(k, x))
    ensures TiedWith(Insert(x, s, before), k, before) == TiedWith(s, k, before)
  {
    if s == [] || before(x, s[0]) {
      assert ([x] + s)[1..] == s;
    } else {
      assert ([s[0]] + Insert(x, s[1..], before))[1..] == Insert(x, s[1..], before);
      InsertUntied(x, s[1..], k, before);
    }
  }

  /** An element tied with `k` is placed ahead of the elements of `s` tied with `k`, given
      that it may precede each of them. */
  lemma {:induction false} InsertTied<T(!new)>(x: T, s: seq<T>, k: T, before: (T, T) -> bool)
    requires before(x, k) && before(k, x)
    requires forall i :: 0 <= i < |s| && before(s[i], k) && before(k, s[i]) ==> before(x, s[i])
    ensures TiedWith(Insert(x, s, before), k, before) == [x] + TiedWith(s, k, before)
  {
    if s == [] || before(x, s[0]) {
      assert ([x] + s)[1..] == s;
    } else {
      assert ([s[0]] + Insert(x, s[1..], before))[1..] == Insert(x, s[1..], before);
      assert forall i :: 0 <= i < |s[1..]| ==> s[1..][i] == s[i + 1];
      InsertTied(x, s[1..], k, before);
    }
  }

  /** Under a total preorder, an element tied with `k` may precede everything tied with `k`. */
  lemma TiedPrecedesTied<T(!new)>(x: T, s: seq<T>, k: T, before: (T, T) -> bool)
    requires TotalPreorder(before) && before(x, k)
    ensures forall i :: 0 <= i < |s| && before(k, s[i]) ==> before(x, s[i])
  {
  }

  /** The sort is stable: the elements tied with any `k` come out in their original order. */
  lemma {:induction false} SortIsStable<T(!new)>(s: seq<T>, k: T, before: (T, T) -> bool)
    requires TotalPreorder(before)
    ensures TiedWith(SortBy(s, before), k, before) == TiedWith(s, k, before)
  {
    if s != [] {
      SortIsStable(s[1..], k, before);
      var rest := SortBy(s[1..], before);
      if before(s[0], k) && before(k, s[0]) {
        TiedPrecedesTied(s[0], rest, k, before);
        InsertTied(s[0], rest, k, before);
      } else {
        InsertUntied(s[0], rest, k, before);
      }
    }
  }

  predicate Distinct<T(==)>(s: seq<T>) {
    forall i, j :: 0 <= i < j < |s| ==> s[i] != s[j]
  }

  lemma {:induction false} DistinctCount<T>(s: seq<T>, x: T)
    requires Distinct(s)
    ensures multiset(s)[x] <= 1
  {
    if s != [] {
      assert s == [s[0]] + s[1..];
      DistinctCount(s[1..], x);
      assert s[0] !in s[1..];
    }
  }

  /** Reordering keeps the elements distinct. */
  lemma PermutationDistinct<T>(s: seq<T>, t: seq<T>)
    requires Distinct(s) && multiset(s) == multiset(t)
    ensures Distinct(t)
  {
    forall i, j | 0 <= i < j < |t| ensures t[i] != t[j] {
      if t[i] == t[j] {
        assert t == t[..j] + [t[j]] + t[j + 1..];
        assert t[i] in t[..j];
        assert multiset(t)[t[j]] >= 2;
        DistinctCount(s, t[j]);
        assert false;
      }
    }
  }
}
