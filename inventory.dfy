/**
 The state the admin page keeps between user actions: the cached full list,
 the list on show, the filter inputs and the drop-down option lists, and the
 handlers that change them once the REST endpoint has answered.
 */
module Inventory {
  import opened Items
  import opened Consumption
  import opened Filtering
  import opened Facets
  import opened Stats
  import opened Patches

  /** What the summary line shows: "Showing `shown` of `total` items", then the tally. */
  datatype StatsView = StatsView(shown: nat, total: nat, byCategory: Tally)

  /** The client-side check of `handleAddItem`: name, category and location are filled in. */
  predicate Complete(form: AddForm)
  {
    form.name != "" && form.category != "" && form.zone != ""
  }

  class InventoryPage {
    var allItems: seq<Item>
    var filteredItems: seq<Item>
    /** The raw text of the search box. */
    var searchText: string
    /** The value of the selected category option; "" is "All Categories". */
    var categoryValue: string
    /** The value of the selected location option; "" is "All Locations". */
    var zoneValue: string
    var categoryOptions: seq<string>
    var zoneOptions: seq<string>

    /** Every item on show has its identifier in the full list. */
    predicate Valid()
      reads this
    {
      forall x :: x in filteredItems ==> x.id in Ids(allItems)
    }

    /** The criteria `applyFilters` reads from the inputs. */
    function CurrentCriteria(): Criteria
      reads this
    {
      Criteria(Query(searchText), categoryValue, zoneValue)
    }

    /** Both option lists are the facets of the full list, never of the filtered one. */
    ghost predicate OptionsMatch()
      reads this
    {
      IsFacetList(Categories(allItems), categoryOptions) && IsFacetList(Zones(allItems), zoneOptions)
    }

    constructor ()
      ensures allItems == [] && filteredItems == []
      ensures searchText == "" && categoryValue == "" && zoneValue == ""
      ensures categoryOptions == [] && zoneOptions == []
      ensures Valid() && OptionsMatch()
    {
      allItems, filteredItems := [], [];
      searchText, categoryValue, zoneValue := "", "", "";
      categoryOptions, zoneOptions := [], [];
    }

    /**
     `updateFilters`: rebuild both option lists from the full list. Replacing
     a select's options leaves its first option, the empty "All" value,
     selected, so both drop-down criteria go back to "".
     */
    method UpdateFilters()
      modifies this`categoryOptions, this`zoneOptions, this`categoryValue, this`zoneValue
      ensures OptionsMatch()
      ensures categoryValue == "" && zoneValue == ""
    {
      categoryOptions := FacetOptions(Categories(allItems));
      zoneOptions := FacetOptions(Zones(allItems));
      categoryValue, zoneValue := "", "";
    }

    /** `applyFilters`: recompute the view from the full list and the current criteria. */
    method ApplyFilters()
      modifies this`filteredItems
      ensures filteredItems == FilterItems(allItems, CurrentCriteria())
      ensures Valid()
    {
      filteredItems := FilterItems(allItems, CurrentCriteria());
      forall x | x in filteredItems
        ensures x.id in Ids(allItems)
      {
        FilterMembers(allItems, CurrentCriteria(), x);
      }
    }

    /** Typing in the search box. */
    method SetSearch(text: string)
      modifies this`searchText, this`filteredItems
      ensures searchText == text
      ensures filteredItems == FilterItems(allItems, CurrentCriteria())
      ensures Valid()
    {
      searchText := text;
      ApplyFilters();
    }

    /** Choosing a category option. */
    method SetCategory(value: string)
      modifies this`categoryValue, this`filteredItems
      ensures categoryValue == value
      ensures filteredItems == FilterItems(allItems, CurrentCriteria())
      ensures Valid()
    {
      categoryValue := value;
      ApplyFilters();
    }

    /** Choosing a location option. */
    method SetZone(value: string)
      modifies this`zoneValue, this`filteredItems
      ensures zoneValue == value
      ensures filteredItems == FilterItems(allItems, CurrentCriteria())
      ensures Valid()
    {
      zoneValue := value;
      ApplyFilters();
    }

    /** `clearFilters`: empty all three inputs; the whole list is then on show, in order. */
    method ClearFilters()
      modifies this`searchText, this`categoryValue, this`zoneValue, this`filteredItems
      ensures searchText == "" && categoryValue == "" && zoneValue == ""
      ensures filteredItems == allItems
      ensures Valid()
    {
      searchText, categoryValue, zoneValue := "", "", "";
      ApplyFilters();
      BlankSearchIsNoCriterion("");
      NoCriteriaKeepsAll(allItems);
    }

    /**
     `loadInventory` once `GET /items` has answered: both lists become the
     returned items (the view is not filtered here) and the option lists are
     rebuilt. A failed request changes nothing.
     */
    method Load(reply: Reply<seq<Item>>) returns (outcome: Outcome)
      modifies this
      ensures reply.Failed? ==> outcome == RequestFailed && unchanged(this)
      ensures reply.Ok? ==> outcome == Done && allItems == reply.body && filteredItems == reply.body
      ensures reply.Ok? ==> OptionsMatch() && categoryValue == "" && zoneValue == ""
      ensures searchText == old(searchText)
      ensures reply.Ok? || old(Valid()) ==> Valid()
    {
      if reply.Failed? {
        return RequestFailed;
      }
      allItems := reply.body;
      filteredItems := reply.body;
      UpdateFilters();
      outcome := Done;
    }

    /**
     `handleAddItem`: an incomplete form is refused without a request; once
     `POST /items` has answered, the created item goes in front of the full
     list, the option lists are rebuilt and the view is recomputed.
     */
    method Add(form: AddForm, reply: Reply<Item>) returns (request: Request, outcome: Outcome)
      modifies this
      ensures !Complete(form) ==> request == NoRequest && outcome == Rejected(MissingRequiredField) && unchanged(this)
      ensures Complete(form) ==> request == CreateItem(form)
      ensures Complete(form) && reply.Failed? ==> outcome == RequestFailed && unchanged(this)
      ensures Complete(form) && reply.Ok? ==>
        outcome == Done && allItems == [reply.body] + old(allItems) &&
        OptionsMatch() && categoryValue == "" && zoneValue == "" &&
        filteredItems == FilterItems(allItems, CurrentCriteria())
      ensures searchText == old(searchText)
      ensures (Complete(form) && reply.Ok?) || old(Valid()) ==> Valid()
    {
      if !Complete(form) {
        return NoRequest, Rejected(MissingRequiredField);
      }
      request := CreateItem(form);
      if reply.Failed? {
        return request, RequestFailed;
      }
      allItems := [reply.body] + allItems;
      filteredItems := allItems;
      UpdateFilters();
      ApplyFilters();
      outcome := Done;
    }

    /** Drop `id` from both lists after a successful `DELETE`, then rebuild the option lists. */
    method RemoveEverywhere(id: string)
      modifies this
      ensures allItems == RemoveId(old(allItems), id)
      ensures filteredItems == RemoveId(old(filteredItems), id)
      ensures OptionsMatch() && categoryValue == "" && zoneValue == ""
      ensures searchText == old(searchText)
      ensures old(Valid()) ==> Valid()
    {
      ghost var wasValid := Valid();
      ghost var oldAll := allItems;
      ghost var oldFiltered := filteredItems;
      allItems := RemoveId(allItems, id);
      filteredItems := RemoveId(filteredItems, id);
      if wasValid {
        forall x | x in filteredItems
          ensures x.id in Ids(allItems)
        {
          RemoveIdMembers(oldFiltered, id, x);
          var y :| y in oldAll && y.id == x.id;
          RemoveIdMembers(oldAll, id, y);
        }
      }
      UpdateFilters();
    }

    /**
     `deleteItem`: nothing happens unless the user confirms; once `DELETE
     /items/{id}` has succeeded, no item with that identifier is left in
     either list.
     */
    method Delete(id: string, confirmed: bool, reply: Reply<()>) returns (request: Request, outcome: Outcome)
      modifies this
      ensures !confirmed ==> request == NoRequest && outcome == Cancelled && unchanged(this)
      ensures confirmed ==> request == DeleteItem(id)
      ensures confirmed && reply.Failed? ==> outcome == RequestFailed && unchanged(this)
      ensures confirmed && reply.Ok? ==>
        outcome == Done &&
        allItems == RemoveId(old(allItems), id) && filteredItems == RemoveId(old(filteredItems), id) &&
        OptionsMatch() && categoryValue == "" && zoneValue == ""
      ensures searchText == old(searchText)
      ensures old(Valid()) ==> Valid()
    {
      if !confirmed {
        return NoRequest, Cancelled;
      }
      request := DeleteItem(id);
      if reply.Failed? {
        return request, RequestFailed;
      }
      RemoveEverywhere(id);
      outcome := Done;
    }

    /**
     `useQuantity`: apply the consumption rule to `item`, whose card holds
     the amount input that parsed to `amount`. A refused amount sends nothing
     and changes nothing; a used-up item is deleted; otherwise `PUT
     /items/{id}` carries the new quantity and the first entry with that
     identifier in each list becomes the returned item. `reply` answers
     whichever request was sent (the body of a `DELETE` reply is not read).
     */
    method UseQuantity(item: Item, amount: Option<Decimal>, reply: Reply<Item>) returns (request: Request, outcome: Outcome)
      modifies this
      ensures Decide(item.quantity, amount).Reject? ==>
        request == NoRequest && outcome == Rejected(Decide(item.quantity, amount).reason) && unchanged(this)
      ensures Decide(item.quantity, amount).Delete? ==> request == DeleteItem(item.id)
      ensures Decide(item.quantity, amount).Update? ==>
        request == UpdateQuantity(item.id, Decide(item.quantity, amount).newQuantity)
      ensures !Decide(item.quantity, amount).Reject? && reply.Failed? ==>
        outcome == RequestFailed && unchanged(this)
      ensures Decide(item.quantity, amount).Delete? && reply.Ok? ==>
        outcome == Done &&
        allItems == RemoveId(old(allItems), item.id) && filteredItems == RemoveId(old(filteredItems), item.id) &&
        OptionsMatch() && categoryValue == "" && zoneValue == ""
      ensures Decide(item.quantity, amount).Update? && reply.Ok? ==>
        outcome == Done &&
        allItems == ReplaceFirst(old(allItems), item.id, reply.body) &&
        filteredItems == ReplaceFirst(old(filteredItems), item.id, reply.body) &&
        categoryValue == old(categoryValue) && zoneValue == old(zoneValue) &&
        categoryOptions == old(categoryOptions) && zoneOptions == old(zoneOptions)
      ensures searchText == old(searchText)
      ensures old(Valid()) && (reply.Ok? ==> reply.body.id == item.id) ==> Valid()
    {
      match Decide(item.quantity, amount)
      case Reject(reason) =>
        return NoRequest, Rejected(reason);
      case Delete =>
        request := DeleteItem(item.id);
        if reply.Failed? {
          return request, RequestFailed;
        }
        RemoveEverywhere(item.id);
        outcome := Done;
      case Update(q) =>
        request := UpdateQuantity(item.id, q);
        if reply.Failed? {
          return request, RequestFailed;
        }
        ghost var wasValid := Valid();
        ghost var oldAll := allItems;
        ghost var oldFiltered := filteredItems;
        var idx := FindIndex(allItems, item.id);
        if idx != -1 {
          allItems := allItems[idx := reply.body];
        }
        var fidx := FindIndex(filteredItems, item.id);
        if fidx != -1 {
          filteredItems := filteredItems[fidx := reply.body];
        }
        if wasValid && reply.body.id == item.id {
          ReplaceFirstKeepsIds(oldAll, item.id, reply.body);
          forall x | x in filteredItems
            ensures x.id in Ids(allItems)
          {
            ReplaceFirstMembers(oldFiltered, item.id, reply.body, x);
            if x !in oldFiltered {
              assert oldFiltered[fidx] in oldFiltered;
            }
          }
        }
        outcome := Done;
    }

    /**
     `updateStats`: nothing is shown while both lists are empty; otherwise
     the counts of shown and of all items and a per-category tally of the
     shown items that adds up to the number shown.
     */
    method Stats() returns (view: Option<StatsView>)
      ensures view.None? <==> filteredItems == [] && allItems == []
      ensures view.Some? ==> view.value.shown == |filteredItems| && view.value.total == |allItems|
      ensures view.Some? ==> Total(view.value.byCategory) == |filteredItems| && DistinctKeys(view.value.byCategory)
      ensures view.Some? ==> Keys(view.value.byCategory) == FirstSeen(filteredItems)
      ensures view.Some? ==> forall k :: 0 <= k < |view.value.byCategory| ==>
        view.value.byCategory[k].count == CountCategory(filteredItems, view.value.byCategory[k].category) > 0
      ensures view.Some? ==> forall i :: 0 <= i < |filteredItems| ==>
        filteredItems[i].category in Keys(view.value.byCategory)
    {
      if filteredItems == [] && allItems == [] {
        return None;
      }
      var counts := CategoryCounts(filteredItems);
      view := Some(StatsView(|filteredItems|, |allItems|, counts));
    }
  }
}
