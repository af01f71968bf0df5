/**
 Stable sorting, as the standard library's sort_by and sort_by_key do it: insertion from the left,
 where an element stays behind those it is equal to. Shown here: the result is sorted and a
 permutation of what was given; elements that are pairwise apart by some relation stay so under any
 permutation, which is how spacing and distinct frames survive the sort by time or by index.
 */
module Ordering {

  ghost predicate TotalOrder<T(!new)>(leq: (T, T) -> bool) {
    && (forall a, b :: leq(a, b) || leq(b, a))
    && (forall a, b, c :: leq(a, b) && leq(b, c) ==> leq(a, c))
  }

  function Insert<T>(s: seq<T>, x: T, leq: (T, T) -> bool): (r: seq<T>)
    ensures |r| == |s| + 1
  {
    if s == [] || leq(s[|s| - 1], x) then s + [x]
    else Insert(s[..|s| - 1], x, leq) + [s[|s| - 1]]
  }

  function Sort<T>(s: seq<T>, leq: (T, T) -> bool): (r: seq<T>)
    ensures |r| == |s|
  {
    if s == [] then [] else Insert(Sort(s[..|s| - 1], leq), s[|s| - 1], leq)
  }

  ghost predicate Sorted<T>(s: seq<T>, leq: (T, T) -> bool) {
    forall i, j :: 0 <= i < j < |s| ==> leq(s[i], s[j])
  }

  lemma {:induction false} InsertPermutes<T>(s: seq<T>, x: T, leq: (T, T) -> bool)
    ensures multiset(Insert(s, x, leq)) == multiset(s) + multiset{x}
  {
    if s == [] || leq(s[|s| - 1], x) {
    } else {
      InsertPermutes(s[..|s| - 1], x, leq);
      assert s == s[..|s| - 1] + [s[|s| - 1]];
    }
  }

  lemma {:induction false} SortPermutes<T>(s: seq<T>, leq: (T, T) -> bool)
    ensures multiset(Sort(s, leq)) == multiset(s)
  {
    if s != [] {
      SortPermutes(s[..|s| - 1], leq);
      InsertPermutes(Sort(s[..|s| - 1], leq), s[|s| - 1], leq);
      assert s == s[..|s| - 1] + [s[|s| - 1]];
    }
  }

  lemma SameElements<T>(s: seq<T>, t: seq<T>)
    requires multiset(s) == multiset(t)
    ensures forall x :: x in s <==> x in t
  {
    forall x ensures x in s <==> x in t {
      assert x in s <==> x in multiset(s);
      assert x in t <==> x in multiset(t);
    }
  }

  lemma {:induction false} InsertKeepsSorted<T(!new)>(s: seq<T>, x: T, leq: (T, T) -> bool)
    requires TotalOrder(leq) && Sorted(s, leq)
    ensures Sorted(Insert(s, x, leq), leq)
  {
    if s == [] || leq(s[|s| - 1], x) {
    } else {
      var rest, last := s[..|s| - 1], s[|s| - 1];
      InsertKeepsSorted(rest, x, leq);
      InsertPermutes(rest, x, leq);
      SameElements(Insert(rest, x, leq), rest + [x]);
      forall i | 0 <= i < |rest| + 1 ensures leq(Insert(rest, x, leq)[i], last) {
        assert Insert(rest, x, leq)[i] in rest + [x];
      }
    }
  }

  lemma {:induction false} SortSorts<T(!new)>(s: seq<T>, leq: (T, T) -> bool)
    requires TotalOrder(leq)
    ensures Sorted(Sort(s, leq), leq)
  {
    if s != [] {
      SortSorts(s[..|s| - 1], leq);
      InsertKeepsSorted(Sort(s[..|s| - 1], leq), s[|s| - 1], leq);
    }
  }

  // ---------------------------------------------------------------------------------------
  // Sequences without clashing elements
  // ---------------------------------------------------------------------------------------

  ghost predicate Clash<T(!new)>(clash: (T, T) -> bool) {
    (forall a :: clash(a, a)) && (forall a, b :: clash(a, b) ==> clash(b, a))
  }

  /** No two places hold clashing elements. */
  ghost predicate Apart<T>(s: seq<T>, clash: (T, T) -> bool) {
    forall i, j :: 0 <= i < j < |s| ==> !clash(s[i], s[j])
  }

  lemma {:induction false} ApartHasNoDoubles<T(!new)>(s: seq<T>, clash: (T, T) -> bool, x: T)
    requires Clash(clash) && Apart(s, clash)
    ensures multiset(s)[x] <= 1
  {
    if s != [] {
      var rest, last := s[..|s| - 1], s[|s| - 1];
      assert s == rest + [last];
      ApartHasNoDoubles(rest, clash, x);
      forall i | 0 <= i < |rest| ensures rest[i] != last {
        assert !clash(s[i], s[|s| - 1]);
      }
    }
  }

  lemma EqualPlacesCountTwice<T>(t: seq<T>, i: nat, j: nat)
    requires i < j < |t| && t[i] == t[j]
    ensures multiset(t)[t[i]] >= 2
  {
    assert t == t[..i] + [t[i]] + t[i + 1..j] + [t[j]] + t[j + 1..];
  }

  lemma RearrangedStaysApart<T(!new)>(s: seq<T>, t: seq<T>, clash: (T, T) -> bool)
    requires Clash(clash) && Apart(s, clash) && multiset(t) == multiset(s)
    ensures Apart(t, clash)
  {
    SameElements(s, t);
    forall i, j | 0 <= i < j < |t| ensures !clash(t[i], t[j]) {
      assert t[i] in t && t[j] in t;
      ApartHasNoDoubles(s, clash, t[i]);
      if t[i] == t[j] {
        EqualPlacesCountTwice(t, i, j);
      } else {
        var a :| 0 <= a < |s| && s[a] == t[i];
        var b :| 0 <= b < |s| && s[b] == t[j];
        assert !clash(s[if a < b then a else b], s[if a < b then b else a]);
      }
    }
  }
}
