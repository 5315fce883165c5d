/**
 The summary line under the list: how many items are shown, out of how many,
 and how many of the shown items fall in each category.
 */
module Stats {
  import opened Items

  /** One `catCounts` key with its value. */
  datatype Entry = Entry(category: string, count: nat)

  /** The per-category tally in the order the categories were first met, as `Object.keys` lists them. */
  type Tally = seq<Entry>

  /** How many of `items` carry category `c`. */
  function CountCategory(items: seq<Item>, c: string): nat
  {
    if items == [] then 0
    else CountCategory(items[..|items| - 1], c) + (if items[|items| - 1].category == c then 1 else 0)
  }

  function Keys(counts: Tally): (r: seq<string>)
    ensures |r| == |counts| && forall k :: 0 <= k < |counts| ==> r[k] == counts[k].category
  {
    seq(|counts|, k requires 0 <= k < |counts| => counts[k].category)
  }

  /** The categories of `items`, each once, in the order they first occur. */
  function FirstSeen(items: seq<Item>): seq<string>
  {
    if items == [] then []
    else
      var seen := FirstSeen(items[..|items| - 1]);
      var c := items[|items| - 1].category;
      if c in seen then seen else seen + [c]
  }

  predicate DistinctKeys(counts: Tally)
  {
    forall i, j :: 0 <= i < j < |counts| ==> counts[i].category != counts[j].category
  }

  /** The sum of the tallied counts. */
  function Total(counts: Tally): nat
  {
    if counts == [] then 0 else Total(counts[..|counts| - 1]) + counts[|counts| - 1].count
  }

  /** `catCounts[c]` as a lookup: the position of key `c`, or -1. */
  function KeyIndex(counts: Tally, c: string): (r: int)
    ensures r == -1 <==> c !in Keys(counts)
    ensures r != -1 ==> 0 <= r < |counts| && counts[r].category == c
  {
    if counts == [] then -1
    else if counts[|counts| - 1].category == c then |counts| - 1
    else
      var r := KeyIndex(counts[..|counts| - 1], c);
      assert Keys(counts) == Keys(counts[..|counts| - 1]) + [counts[|counts| - 1].category];
      r
  }

  /** Adding one to a single count adds one to the total. */
  lemma {:induction false} TotalBump(counts: Tally, k: nat)
    requires k < |counts|
    ensures Total(counts[k := Entry(counts[k].category, counts[k].count + 1)]) == Total(counts) + 1
  {
    var bumped := counts[k := Entry(counts[k].category, counts[k].count + 1)];
    var n := |counts| - 1;
    if k < n {
      TotalBump(counts[..n], k);
      assert bumped[..n] == counts[..n][k := Entry(counts[k].category, counts[k].count + 1)];
    } else {
      assert bumped[..n] == counts[..n];
    }
  }

  /** A category no item carries has count zero. */
  lemma {:induction false} CountAbsent(items: seq<Item>, c: string)
    requires forall j :: 0 <= j < |items| ==> items[j].category != c
    ensures CountCategory(items, c) == 0
  {
    if items != [] {
      CountAbsent(items[..|items| - 1], c);
    }
  }

  /** `counts` is the tally of `items`: one entry per category in first-seen order, each holding its count. */
  predicate TallyOf(items: seq<Item>, counts: Tally)
  {
    DistinctKeys(counts) &&
    Keys(counts) == FirstSeen(items) &&
    (forall k :: 0 <= k < |counts| ==> counts[k].count == CountCategory(items, counts[k].category) > 0) &&
    Total(counts) == |items|
  }

  /** Every category of `items` is among those first seen. */
  lemma {:induction false} FirstSeenCovers(items: seq<Item>)
    ensures forall i :: 0 <= i < |items| ==> items[i].category in FirstSeen(items)
  {
    if items != [] {
      var n := |items| - 1;
      FirstSeenCovers(items[..n]);
      forall i | 0 <= i < |items| ensures items[i].category in FirstSeen(items) {
        if i < n { assert items[..n][i] == items[i]; }
      }
    }
  }

  /** An item of a new category adds an entry with count one. */
  lemma TallyAppend(prefix: seq<Item>, x: Item, counts: Tally)
    requires TallyOf(prefix, counts) && x.category !in Keys(counts)
    ensures TallyOf(prefix + [x], counts + [Entry(x.category, 1)])
  {
    var items := prefix + [x];
    assert items[..|items| - 1] == prefix;
    var next := counts + [Entry(x.category, 1)];
    assert Keys(next) == Keys(counts) + [x.category];
    assert next[..|next| - 1] == counts;
    FirstSeenCovers(prefix);
    CountAbsent(prefix, x.category);
  }

  /** An item of a known category adds one to that entry. */
  lemma TallyBump(prefix: seq<Item>, x: Item, counts: Tally, k: nat)
    requires TallyOf(prefix, counts) && k < |counts| && counts[k].category == x.category
    ensures TallyOf(prefix + [x], counts[k := Entry(x.category, counts[k].count + 1)])
  {
    var items := prefix + [x];
    assert items[..|items| - 1] == prefix;
    var next := counts[k := Entry(x.category, counts[k].count + 1)];
    assert Keys(next) == Keys(counts);
    assert x.category in FirstSeen(prefix);
    TotalBump(counts, k);
  }

  /**
   The `forEach` loop of `updateStats`: `catCounts[c] = (catCounts[c] || 0) + 1`
   for each shown item. The categories appear once each, in the order they are
   first met; each holds the number of items in it; the counts add up to the
   number of items.
   */
  method CategoryCounts(items: seq<Item>) returns (counts: seq<Entry>)
    ensures DistinctKeys(counts)
    ensures Keys(counts) == FirstSeen(items)
    ensures forall k :: 0 <= k < |counts| ==> counts[k].count == CountCategory(items, counts[k].category) > 0
    ensures forall i :: 0 <= i < |items| ==> items[i].category in Keys(counts)
    ensures Total(counts) == |items|
  {
    counts := [];
    var i := 0;
    while i < |items|
      invariant 0 <= i <= |items|
      invariant TallyOf(items[..i], counts)
    {
      var c := items[i].category;
      var k := KeyIndex(counts, c);
      assert items[..i + 1] == items[..i] + [items[i]];
      if k == -1 {
        TallyAppend(items[..i], items[i], counts);
        counts := counts + [Entry(c, 1)];
      } else {
        TallyBump(items[..i], items[i], counts, k);
        counts := counts[k := Entry(c, counts[k].count + 1)];
      }
      i := i + 1;
    }
    assert items[..i] == items;
    FirstSeenCovers(items);
  }
}
