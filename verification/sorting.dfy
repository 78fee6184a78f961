// std::stable_sort: a permutation that keeps the order of everything it need not exchange.
module Sorting {
  import opened Sequences

  /** x stands somewhere before y. */
  ghost predicate Before<T(!new)>(s: seq<T>, x: T, y: T) {
    exists i, j :: 0 <= i < j < |s| && s[i] == x && s[j] == y
  }

  /** What std::stable_sort demands of a comparator. */
  ghost predicate StrictWeakOrder<T(!new)>(less: (T, T) -> bool) {
    && (forall a :: !less(a, a))
    && (forall a, b, c :: less(a, b) && less(b, c) ==> less(a, c))
    && (forall a, b, c :: !less(a, b) && !less(b, c) ==> !less(a, c))
  }

  function Insert<T>(less: (T, T) -> bool, s: seq<T>, x: T): seq<T> {
    if s == [] then [x]
    else if less(x, s[|s| - 1]) then Insert(less, s[..|s| - 1], x) + [s[|s| - 1]]
    else s + [x]
  }

  function StableSort<T>(less: (T, T) -> bool, s: seq<T>): seq<T> {
    if s == [] then [] else Insert(less, StableSort(less, s[..|s| - 1]), s[|s| - 1])
  }

  ghost predicate Sorted<T>(less: (T, T) -> bool, s: seq<T>) {
    forall i, j :: 0 <= i < j < |s| ==> !less(s[j], s[i])
  }

  lemma BeforeLast<T(!new)>(s: seq<T>, last: T, x: T, y: T)
    ensures Before(s + [last], x, y) <==> Before(s, x, y) || (x in s && y == last)
  {
    var t := s + [last];
    if Before(s, x, y) {
      var i, j :| 0 <= i < j < |s| && s[i] == x && s[j] == y;
      assert t[i] == x && t[j] == y;
    }
    if x in s && y == last {
      var i :| 0 <= i < |s| && s[i] == x;
      assert t[i] == x && t[|s|] == y;
    }
  }

  lemma {:induction false} InsertMembers<T(!new)>(less: (T, T) -> bool, s: seq<T>, x: T)
    ensures multiset(Insert(less, s, x)) == multiset(s) + multiset{x}
    ensures forall y :: y in Insert(less, s, x) <==> y in s || y == x
  {
    if s != [] {
      InsertMembers(less, s[..|s| - 1], x);
      assert s == s[..|s| - 1] + [s[|s| - 1]];
    }
  }

  lemma {:induction false} InsertSorted<T(!new)>(less: (T, T) -> bool, s: seq<T>, x: T)
    requires StrictWeakOrder(less) && Sorted(less, s)
    ensures Sorted(less, Insert(less, s, x))
  {
    if s != [] {
      var rest, last := s[..|s| - 1], s[|s| - 1];
      InsertSorted(less, rest, x);
      InsertMembers(less, rest, x);
      var r := Insert(less, s, x);
      forall i, j | 0 <= i < j < |r| ensures !less(r[j], r[i]) {
        if less(x, last) && j == |r| - 1 {
          assert r[i] in Insert(less, rest, x);
        }
      }
    }
  }

  /** Where Insert puts x: behind everything it is not less than, in front of everything it is. */
  lemma {:induction false} InsertPlace<T(!new)>(less: (T, T) -> bool, s: seq<T>, x: T, a: T, b: T)
    requires StrictWeakOrder(less) && Sorted(less, s)
    ensures Before(Insert(less, s, x), a, b) <==>
            Before(s, a, b) || (b == x && a in s && !less(x, a)) || (a == x && b in s && less(x, b))
  {
    if s != [] {
      var rest, last := s[..|s| - 1], s[|s| - 1];
      assert s == rest + [last];
      BeforeLast(rest, last, a, b);
      if less(x, last) {
        InsertPlace(less, rest, x, a, b);
        InsertMembers(less, rest, x);
        BeforeLast(Insert(less, rest, x), last, a, b);
      } else {
        BeforeLast(s, x, a, b);
        forall y | y in s ensures !less(x, y) {
          var i :| 0 <= i < |s| && s[i] == y;
          assert i == |s| - 1 || !less(last, y);
        }
      }
    } else {
      assert !Before([x], a, b);
    }
  }

  lemma {:induction false} StableSortSorts<T(!new)>(less: (T, T) -> bool, s: seq<T>)
    requires StrictWeakOrder(less)
    ensures multiset(StableSort(less, s)) == multiset(s)
    ensures Sorted(less, StableSort(less, s))
  {
    if s != [] {
      var rest, x := s[..|s| - 1], s[|s| - 1];
      assert s == rest + [x];
      StableSortSorts(less, rest);
      InsertMembers(less, StableSort(less, rest), x);
      InsertSorted(less, StableSort(less, rest), x);
    }
  }

  lemma OnlyMembersBefore<T(!new)>(s: seq<T>, x: T, y: T)
    ensures Before(s, x, y) ==> x in s && y in s
  {
  }

  lemma SameMembers<T(!new)>(s: seq<T>, r: seq<T>)
    requires multiset(r) == multiset(s)
    ensures forall x :: x in r <==> x in s
  {
    forall x ensures x in r <==> x in s {
      assert x in r <==> x in multiset(r);
      assert x in s <==> x in multiset(s);
    }
  }

  /** The sort is stable: it keeps the order of any two elements it need not exchange. */
  lemma {:induction false} StableSortPlaces<T(!new)>(less: (T, T) -> bool, s: seq<T>, a: T, b: T)
    requires StrictWeakOrder(less) && Distinct(s)
    ensures Before(StableSort(less, s), a, b) <==>
            a in s && b in s && (less(a, b) || (!less(b, a) && Before(s, a, b)))
  {
    if s != [] {
      var rest, x := s[..|s| - 1], s[|s| - 1];
      assert s == rest + [x] && x !in rest;
      StableSortPlaces(less, rest, a, b);
      StableSortSorts(less, rest);
      SameMembers(rest, StableSort(less, rest));
      InsertPlace(less, StableSort(less, rest), x, a, b);
      BeforeLast(rest, x, a, b);
      OnlyMembersBefore(rest, a, x);
      OnlyMembersBefore(rest, x, b);
      hide Before, Sorted, Insert;
    }
  }

  lemma SamePermutation<T(!new)>(s: seq<T>, r: seq<T>)
    requires multiset(r) == multiset(s) && Distinct(s)
    ensures Distinct(r) && forall x :: x in r <==> x in s
  {
    SameMembers(s, r);
    forall i, j | 0 <= i < j < |r| ensures r[i] != r[j] {
      if r[i] == r[j] {
        TwoOccurrences(r, i, j);
        OneOccurrence(s, r[i]);
      }
    }
  }

  lemma TwoOccurrences<T(!new)>(s: seq<T>, i: nat, j: nat)
    requires i < j < |s| && s[i] == s[j]
    ensures multiset(s)[s[i]] >= 2
  {
    assert s == s[..j] + [s[j]] + s[j + 1..];
    assert s[i] in s[..j];
  }

  lemma {:induction false} OneOccurrence<T(!new)>(s: seq<T>, x: T)
    requires Distinct(s)
    ensures multiset(s)[x] <= 1
  {
    if s != [] {
      var rest, last := s[..|s| - 1], s[|s| - 1];
      assert s == rest + [last];
      OneOccurrence(rest, x);
      assert last !in rest;
    }
  }
}
