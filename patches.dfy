/**
 The patches the page applies to its cached lists once the server has
 accepted a delete or a quantity update.
 */
module Patches {
  import opened Items

  /** `items.filter(i => i.id !== id)`: no longer than before, and only items of `items` with another identifier remain. */
  function RemoveId(items: seq<Item>, id: string): (r: seq<Item>)
    ensures |r| <= |items|
    ensures forall k :: 0 <= k < |r| ==> r[k] in items && r[k].id != id
  {
    if items == [] then []
    else (if items[0].id != id then [items[0]] else []) + RemoveId(items[1..], id)
  }

  /** An item survives the removal exactly when it was there and carries another identifier. */
  lemma {:induction false} RemoveIdMembers(items: seq<Item>, id: string, x: Item)
    ensures x in RemoveId(items, id) <==> x in items && x.id != id
  {
    if items != [] {
      RemoveIdMembers(items[1..], id, x);
      assert x in items <==> x == items[0] || x in items[1..];
    }
  }

  /** The items that remain keep their relative order. */
  lemma {:induction false} RemoveIdKeepsOrder(items: seq<Item>, id: string)
    ensures IsSubsequence(RemoveId(items, id), items)
  {
    if items != [] {
      RemoveIdKeepsOrder(items[1..], id);
      var rest := RemoveId(items[1..], id);
      if items[0].id != id {
        assert RemoveId(items, id) == [items[0]] + rest;
        assert RemoveId(items, id)[1..] == rest;
      } else {
        assert RemoveId(items, id) == rest;
      }
    }
  }

  /** Every item with another identifier is kept as often as it occurred. */
  lemma {:induction false} RemoveIdKeepsOthers(items: seq<Item>, id: string, x: Item)
    requires x.id != id
    ensures multiset(RemoveId(items, id))[x] == multiset(items)[x]
  {
    if items != [] {
      RemoveIdKeepsOthers(items[1..], id, x);
      assert items == [items[0]] + items[1..];
    }
  }

  /** `items.findIndex(i => i.id === id)`: the first position holding `id`, or -1. */
  function FindIndex(items: seq<Item>, id: string): (r: int)
    ensures r == -1 <==> id !in Ids(items)
    ensures r != -1 ==> 0 <= r < |items| && items[r].id == id
    ensures r != -1 ==> forall k :: 0 <= k < r ==> items[k].id != id
  {
    if items == [] then -1
    else if items[0].id == id then 0
    else
      var k := FindIndex(items[1..], id);
      assert Ids(items) == {items[0].id} + Ids(items[1..]) by {
        assert items == [items[0]] + items[1..];
      }
      if k == -1 then -1 else k + 1
  }

  /** `idx = findIndex(...); if (idx !== -1) items[idx] = x`. */
  function ReplaceFirst(items: seq<Item>, id: string, x: Item): (r: seq<Item>)
    ensures |r| == |items|
    ensures id !in Ids(items) ==> r == items
    ensures forall k :: 0 <= k < |r| ==> r[k] == items[k] || (r[k] == x && items[k].id == id)
  {
    var k := FindIndex(items, id);
    if k == -1 then items else items[k := x]
  }

  /**
   Replacing keeps the length; only the first entry carrying `id` becomes
   `x`, every other position keeps its item, and nothing changes when `id`
   is absent.
   */
  lemma ReplaceFirstSpec(items: seq<Item>, id: string, x: Item)
    ensures |ReplaceFirst(items, id, x)| == |items|
    ensures id !in Ids(items) ==> ReplaceFirst(items, id, x) == items
    ensures forall k :: 0 <= k < |items| ==>
      ReplaceFirst(items, id, x)[k] ==
        if items[k].id == id && (forall j :: 0 <= j < k ==> items[j].id != id) then x else items[k]
  {
    var r := ReplaceFirst(items, id, x);
    var f := FindIndex(items, id);
    forall k | 0 <= k < |items|
      ensures r[k] == if items[k].id == id && (forall j :: 0 <= j < k ==> items[j].id != id) then x else items[k]
    {
      if f != -1 && k != f && items[k].id == id {
        assert f < k;
      }
    }
  }

  /** Replacing an item by one with the same identifier leaves the set of identifiers as it was. */
  lemma ReplaceFirstKeepsIds(items: seq<Item>, id: string, x: Item)
    requires x.id == id
    ensures Ids(ReplaceFirst(items, id, x)) == Ids(items)
  {
    var k := FindIndex(items, id);
    if k != -1 {
      var r := items[k := x];
      forall y | y in Ids(r) ensures y in Ids(items) {
        var i :| 0 <= i < |r| && r[i].id == y;
        assert items[i].id == y;
      }
      forall y | y in Ids(items) ensures y in Ids(r) {
        var i :| 0 <= i < |items| && items[i].id == y;
        assert r[i].id == y;
      }
    }
  }

  /** Whatever the replaced list holds was in the old list or is the new item. */
  lemma ReplaceFirstMembers(items: seq<Item>, id: string, x: Item, y: Item)
    requires y in ReplaceFirst(items, id, x)
    ensures y == x || y in items
  {
    var k := FindIndex(items, id);
    if k != -1 && y != x {
      var i :| 0 <= i < |items| && items[k := x][i] == y;
      assert items[i] == y;
    }
  }
}
