/**
 The option lists of the category and location drop-downs: the distinct
 non-empty values of the full item list, sorted.
 */
module Facets {
  import opened Items
  import opened Text

  function Categories(items: seq<Item>): (r: seq<string>)
    ensures |r| == |items| && forall i :: 0 <= i < |items| ==> r[i] == items[i].category
  {
    seq(|items|, i requires 0 <= i < |items| => items[i].category)
  }

  function Zones(items: seq<Item>): (r: seq<string>)
    ensures |r| == |items| && forall i :: 0 <= i < |items| ==> r[i] == items[i].zone
  {
    seq(|items|, i requires 0 <= i < |items| => items[i].zone)
  }

  /** `r` holds exactly the non-empty values that occur in `values`. */
  ghost predicate SameNonEmptyValues(values: seq<string>, r: seq<string>)
  {
    forall v :: v in r <==> v in values && v != ""
  }

  predicate NoDuplicates(s: seq<string>)
  {
    forall i, j :: 0 <= i < j < |s| ==> s[i] != s[j]
  }

  predicate Sorted(s: seq<string>)
  {
    forall i, j :: 0 <= i < j < |s| ==> LexLe(s[i], s[j])
  }

  /** `r` is a correct option list for `values`: sorted, duplicate-free, exactly the non-empty values. */
  ghost predicate IsFacetList(values: seq<string>, r: seq<string>)
  {
    Sorted(r) && NoDuplicates(r) && SameNonEmptyValues(values, r)
  }

  /**
   The `forEach` loop of `updateFilters`: each non-empty value is pushed the
   first time it is seen (`indexOf(v) === -1`).
   */
  method CollectDistinct(values: seq<string>) returns (r: seq<string>)
    ensures NoDuplicates(r)
    ensures SameNonEmptyValues(values, r)
  {
    r := [];
    var i := 0;
    while i < |values|
      invariant 0 <= i <= |values|
      invariant NoDuplicates(r)
      invariant SameNonEmptyValues(values[..i], r)
    {
      var v := values[i];
      if v != "" && v !in r {
        r := r + [v];
      }
      assert values[..i + 1] == values[..i] + [v];
      i := i + 1;
    }
    assert values[..i] == values;
  }

  /** Insertion into a sorted list, ahead of the first element it does not follow. */
  function Insert(x: string, s: seq<string>): seq<string>
  {
    if s == [] then [x]
    else if LexLe(x, s[0]) then [x] + s
    else [s[0]] + Insert(x, s[1..])
  }

  /** `Array.prototype.sort()` on strings, as an insertion sort: a sorted permutation of `s`. */
  function SortStrings(s: seq<string>): (r: seq<string>)
    ensures Sorted(r)
    ensures multiset(r) == multiset(s)
  {
    if s == [] then []
    else
      var t := SortStrings(s[1..]);
      InsertSorted(s[0], t);
      InsertPermutes(s[0], t);
      assert s == [s[0]] + s[1..];
      Insert(s[0], t)
  }

  lemma {:induction false} InsertPermutes(x: string, s: seq<string>)
    ensures multiset(Insert(x, s)) == multiset(s) + multiset{x}
  {
    if s != [] && !LexLe(x, s[0]) {
      InsertPermutes(x, s[1..]);
      assert s == [s[0]] + s[1..];
    }
  }

  /** A sorted list stays sorted when an element below all of it is put in front. */
  lemma PrependSorted(h: string, t: seq<string>)
    requires Sorted(t)
    requires forall j :: 0 <= j < |t| ==> LexLe(h, t[j])
    ensures Sorted([h] + t)
  {
    var r := [h] + t;
    forall i, j | 0 <= i < j < |r| ensures LexLe(r[i], r[j]) {
      assert r[j] == t[j - 1];
      if i > 0 { assert r[i] == t[i - 1]; }
    }
  }

  lemma {:induction false} InsertSorted(x: string, s: seq<string>)
    requires Sorted(s)
    ensures Sorted(Insert(x, s))
  {
    if s == [] {
    } else if LexLe(x, s[0]) {
      forall j | 0 <= j < |s| ensures LexLe(x, s[j]) {
        if j > 0 { LexLeTransitive(x, s[0], s[j]); }
      }
      PrependSorted(x, s);
    } else {
      LexLeTotal(x, s[0]);
      assert Sorted(s[1..]);
      InsertSorted(x, s[1..]);
      InsertPermutes(x, s[1..]);
      var t := Insert(x, s[1..]);
      forall j | 0 <= j < |t| ensures LexLe(s[0], t[j]) {
        assert t[j] in multiset(t);
        if t[j] != x {
          assert t[j] in multiset(s[1..]);
          var k :| 0 <= k < |s[1..]| && s[1..][k] == t[j];
          assert s[k + 1] == t[j];
        }
      }
      PrependSorted(s[0], t);
    }
  }

  /**
   `categories.sort()` after the collecting loop: the option list holds every
   non-empty value once, in ascending order.
   */
  method FacetOptions(values: seq<string>) returns (r: seq<string>)
    ensures IsFacetList(values, r)
  {
    var distinct := CollectDistinct(values);
    r := SortStrings(distinct);
    PermutedDistinct(distinct, r);
  }

  /** A permutation of a duplicate-free list is duplicate-free and has the same elements. */
  lemma PermutedDistinct(s: seq<string>, r: seq<string>)
    requires NoDuplicates(s) && multiset(r) == multiset(s)
    ensures NoDuplicates(r)
    ensures forall v :: v in r <==> v in s
  {
    forall v ensures v in r <==> v in s {
      assert v in r <==> v in multiset(r);
    }
    forall i, j | 0 <= i < j < |r| ensures r[i] != r[j] {
      if r[i] == r[j] {
        assert multiset(r)[r[i]] >= 2 by {
          assert r == r[..i] + [r[i]] + r[i + 1..j] + [r[j]] + r[j + 1..];
        }
        DistinctOnce(s, r[i]);
      }
    }
  }

  /** In a list without duplicates every element occurs once. */
  lemma {:induction false} DistinctOnce(s: seq<string>, x: string)
    requires NoDuplicates(s)
    ensures multiset(s)[x] <= 1
  {
    if s != [] {
      DistinctOnce(s[1..], x);
      assert s == [s[0]] + s[1..];
      if s[0] == x {
        assert x !in s[1..];
      }
    }
  }

  /**
   The option list is determined by the values alone: two correct option lists
   for the same values are equal.
   */
  lemma {:induction false} FacetListUnique(values: seq<string>, a: seq<string>, b: seq<string>)
    requires IsFacetList(values, a) && IsFacetList(values, b)
    ensures a == b
  {
    SortedSetsEqual(a, b);
  }

  lemma {:induction false} SortedSetsEqual(a: seq<string>, b: seq<string>)
    requires Sorted(a) && NoDuplicates(a) && Sorted(b) && NoDuplicates(b)
    requires forall v :: v in a <==> v in b
    ensures a == b
    decreases |a|
  {
    if a == [] {
      forall v ensures multiset(b)[v] == 0 {
        assert v !in b;
      }
      assert multiset(b) == multiset{};
      assert |b| == |multiset(b)|;
    } else {
      assert a[0] in a;
      assert b != [];
      assert b[0] in b;
      var i :| 0 <= i < |a| && a[i] == b[0];
      var j :| 0 <= j < |b| && b[j] == a[0];
      if i > 0 && j > 0 {
        LexLeAntisymmetric(a[0], b[0]);
      }
      assert a[0] == b[0];
      forall v ensures v in a[1..] <==> v in b[1..] {
        if v in a[1..] {
          var k :| 0 <= k < |a| - 1 && a[1..][k] == v;
          assert a[k + 1] == v && v != a[0];
          assert v in a;
          var m :| 0 <= m < |b| && b[m] == v;
          assert m > 0 && b[1..][m - 1] == v;
        }
        if v in b[1..] {
          var k :| 0 <= k < |b| - 1 && b[1..][k] == v;
          assert b[k + 1] == v && v != b[0];
          assert v in b;
          var m :| 0 <= m < |a| && a[m] == v;
          assert m > 0 && a[1..][m - 1] == v;
        }
      }
      SortedSetsEqual(a[1..], b[1..]);
      assert a == [a[0]] + a[1..];
      assert b == [b[0]] + b[1..];
    }
  }
}
