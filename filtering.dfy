/**
 The filter engine: which items the list shows for the current search text,
 category and location.
 */
module Filtering {
  import opened Items
  import opened Text

  /**
   The three criteria as `applyFilters` reads them: the search text already
   lower-cased and trimmed, and the selected category and location, where ""
   stands for "All".
   */
  datatype Criteria = Criteria(query: string, category: string, zone: string)

  /** `searchInput.value.toLowerCase().trim()`. */
  function Query(raw: string): (r: string)
    ensures |r| <= |raw|
    ensures forall k :: 0 <= k < |r| ==> !('A' <= r[k] <= 'Z')
    ensures r == [] || (!IsSpace(r[0]) && !IsSpace(r[|r| - 1]))
  {
    Trim(ToLower(raw))
  }

  /** The criteria that let every item through. */
  const NoCriteria := Criteria("", "", "")

  /**
   `name.toLowerCase().indexOf(query) !== -1` behind an empty-query guard: the
   item matches exactly when the query is empty or a substring of the
   lower-cased name.
   */
  predicate MatchesSearch(item: Item, query: string): (r: bool)
    ensures r <==> query == "" || exists k :: OccursAt(ToLower(item.name), query, k)
  {
    query == "" || IndexOf(ToLower(item.name), query) != -1
  }

  predicate MatchesCategory(item: Item, category: string)
  {
    category == "" || item.category == category
  }

  predicate MatchesZone(item: Item, zone: string)
  {
    zone == "" || item.zone == zone
  }

  /** The three criteria combined with AND. */
  predicate Matches(item: Item, c: Criteria)
  {
    MatchesSearch(item, c.query) && MatchesCategory(item, c.category) && MatchesZone(item, c.zone)
  }

  /** `allItems.filter(...)` with the predicate above. */
  function FilterItems(items: seq<Item>, c: Criteria): (r: seq<Item>)
    ensures |r| <= |items|
    ensures forall k :: 0 <= k < |r| ==> r[k] in items && Matches(r[k], c)
  {
    if items == [] then []
    else (if Matches(items[0], c) then [items[0]] else []) + FilterItems(items[1..], c)
  }

  /** An item is shown exactly when it is in the list and meets all three criteria. */
  lemma {:induction false} FilterMembers(items: seq<Item>, c: Criteria, x: Item)
    ensures x in FilterItems(items, c) <==> x in items && Matches(x, c)
  {
    if items != [] {
      FilterMembers(items[1..], c, x);
      assert x in items <==> x == items[0] || x in items[1..];
    }
  }

  /** The shown items keep the order they have in the full list. */
  lemma {:induction false} FilterKeepsOrder(items: seq<Item>, c: Criteria)
    ensures IsSubsequence(FilterItems(items, c), items)
  {
    if items != [] {
      FilterKeepsOrder(items[1..], c);
      var rest := FilterItems(items[1..], c);
      if Matches(items[0], c) {
        assert FilterItems(items, c) == [items[0]] + rest;
        assert FilterItems(items, c)[1..] == rest;
      } else {
        assert FilterItems(items, c) == rest;
      }
    }
  }

  /** A matching item is shown as many times as it occurs in the full list. */
  lemma {:induction false} FilterKeepsEveryMatch(items: seq<Item>, c: Criteria, x: Item)
    requires Matches(x, c)
    ensures multiset(FilterItems(items, c))[x] == multiset(items)[x]
  {
    if items != [] {
      FilterKeepsEveryMatch(items[1..], c, x);
      var head := if Matches(items[0], c) then [items[0]] else [];
      var rest := FilterItems(items[1..], c);
      assert FilterItems(items, c) == head + rest;
      assert multiset(FilterItems(items, c)) == multiset(head) + multiset(rest);
      assert multiset(items) == multiset([items[0]]) + multiset(items[1..]) by {
        assert items == [items[0]] + items[1..];
      }
      assert multiset(head)[x] == multiset([items[0]])[x];
    }
  }

  /**
   Filtering by all three criteria at once is filtering by the search, then by
   the category, then by the location: the criteria combine with AND.
   */
  lemma {:induction false} FilterIsIntersection(items: seq<Item>, c: Criteria)
    ensures FilterItems(items, c) ==
      FilterItems(FilterItems(FilterItems(items, Criteria(c.query, "", "")), Criteria("", c.category, "")),
                  Criteria("", "", c.zone))
  {
    if items != [] {
      FilterIsIntersection(items[1..], c);
      var x := items[0];
      var cs, cc, cz := Criteria(c.query, "", ""), Criteria("", c.category, ""), Criteria("", "", c.zone);
      assert Matches(x, cs) == MatchesSearch(x, c.query);
      assert Matches(x, cc) == MatchesCategory(x, c.category);
      assert Matches(x, cz) == MatchesZone(x, c.zone);
      var s1 := FilterItems(items, cs);
      var t1 := FilterItems(items[1..], cs);
      if MatchesSearch(x, c.query) {
        assert s1 == [x] + t1;
        assert s1[0] == x && s1[1..] == t1;
        var s2 := FilterItems(s1, cc);
        var t2 := FilterItems(t1, cc);
        if MatchesCategory(x, c.category) {
          assert s2 == [x] + t2;
          assert s2[0] == x && s2[1..] == t2;
        } else {
          assert s2 == t2;
        }
      } else {
        assert s1 == t1;
      }
    }
  }

  /** With every criterion empty the filtered view is the whole list, in the same order. */
  lemma {:induction false} NoCriteriaKeepsAll(items: seq<Item>)
    ensures FilterItems(items, NoCriteria) == items
  {
    if items != [] {
      NoCriteriaKeepsAll(items[1..]);
      assert items == [items[0]] + items[1..];
    }
  }

  /** A search box holding only white space filters nothing. */
  lemma BlankSearchIsNoCriterion(raw: string)
    requires AllSpace(raw)
    ensures Query(raw) == ""
  {
    var lower := ToLower(raw);
    assert AllSpace(lower) by {
      forall i | 0 <= i < |lower| ensures IsSpace(lower[i]) {
        assert IsSpace(raw[i]);
      }
    }
    TrimIsInnerSlice(lower);
  }
}
