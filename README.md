# Freezer inventory: the admin page's client-side state

This project models, in Dafny, the state engine of the freezer inventory admin page
(`freezer-inventory/admin/js/admin.js`). That page keeps two lists in memory: `allItems`, the cached
copy of every item, and `filteredItems`, the items on show. It also keeps a search box, a category
drop-down and a location drop-down. The model covers:

- **Consumption rule** (`useQuantity`). The amount typed into an item's "Use" box is refused when it
  is not a number, is not positive, or is more than the item holds. Otherwise the remaining quantity
  is rounded to thousandths. The item is deleted when that is zero or less, and updated with the
  new quantity when it is positive.
- **Filter engine** (`applyFilters`, `clearFilters`). The view is the items of the full list, in
  their order, whose lower-cased name contains the trimmed, lower-cased search text, and whose
  category and location equal the selected ones. An empty criterion lets everything through.
- **Facets** (`updateFilters`). The drop-down options are the distinct non-empty categories and
  locations of the full list, sorted.
- **List patches** applied once a request has succeeded. Load replaces both lists. Add puts the new
  item in front. Delete removes the identifier from both lists. A quantity update replaces the first
  entry with that identifier in each list.
- **Summary** (`updateStats`). It gives the number of items shown, the number of all items, and a
  per-category tally of the shown items.

Modelling choices:

- Quantities are integers counting thousandths of a unit. The amount typed in is a
  `Decimal(digits, scale)`, meaning `digits / 10^scale`, or `None` where `parseFloat` gives NaN.
  `Math.round((currentQty - amount) * 1000)` is then exact integer arithmetic: it rounds to the
  nearest integer, with halves going up.
- The module-level variables and the input values become the fields of the class
  `Inventory.InventoryPage`. Each handler is a method of that class.
- The server's answer to a handler's request is a parameter: `Ok(body)` or `Failed`. A handler that
  sends a request also returns the `Request` it sent, such as the `PUT` carrying the new quantity.
- `updateFilters` rebuilds each `<select>` by assigning its `innerHTML`. That leaves the first
  option, the empty "All" value, selected. So the model sets both drop-down criteria back to "" each
  time the option lists are rebuilt, on load, add, delete and use-up. The search text is kept.

Where the code does less than the surrounding behaviour suggests, the model follows the code:

- `loadInventory` copies the loaded list into `filteredItems` without applying the criteria.
- A delete only removes the identifier from `filteredItems`; it does not recompute the view.
- A quantity update writes the server's item into `filteredItems` without re-filtering.

So the view equals `FilterItems(allItems, criteria)` only after add, a filter change and
clear. The invariant that holds throughout is `InventoryPage.Valid()`: every item on show has its
identifier in the full list.

## Model

| member | source | states |
|---|---|---|
| `Consumption.Exceeds` | freezer-inventory/admin/js/admin.js:92 | For an amount with at most three decimals, it exceeds the quantity exactly when the amount in thousandths is larger than the quantity in thousandths |
| `Consumption.RoundedRemainder` | freezer-inventory/admin/js/admin.js:96 | The remaining quantity in thousandths is within half a unit of the exact remainder, with halves rounded up as `Math.round` does |
| `Consumption.Decide` | freezer-inventory/admin/js/admin.js:86-97 | The amount is refused as invalid exactly when it is NaN or not positive. It is refused as too large exactly when it is positive and exceeds the quantity. The item is deleted exactly when the exact remainder is under half a thousandth. Otherwise the update carries the rounded remainder, which is positive and at most the old quantity |
| `Consumption.UsingEverythingDeletes` | freezer-inventory/admin/js/admin.js:96-98 | Using exactly the quantity held deletes the item rather than leaving zero |
| `Consumption.AtMostThreeDecimalsIsExact` | freezer-inventory/admin/js/admin.js:96-97 | For an amount with at most three decimals no rounding happens: the item keeps exactly `current - amount`, or is deleted when that is zero |
| `Consumption.UsingTwiceIsUsingTheSum` | freezer-inventory/admin/js/admin.js:86-97 | Using `x` then `y` thousandths leads to the same decision as using `x + y` at once |
| `Consumption.UsingAllPeasRemovesThem` | freezer-inventory/admin/js/admin.js:96-98 | Using 2 out of 2 deletes the item |
| `Consumption.UsingHalfAPoundLeavesOne` | freezer-inventory/admin/js/admin.js:96-97 | Using 0.5 out of 1.5 leaves 1.0 |
| `Consumption.UsingFourDecimalsRounds` | freezer-inventory/admin/js/admin.js:96-97 | Using 0.2504 out of 1.5 leaves 1.2496, which is rounded to 1.25 |
| `Text.ToLower` | freezer-inventory/admin/js/admin.js:147 | Lower-casing keeps the length, lower-cases each character, and leaves no ASCII capital |
| `Text.Trim` | freezer-inventory/admin/js/admin.js:147 | `trim` gives text no longer than its input, made of the input's characters, that neither starts nor ends with white space |
| `Text.TrimIsInnerSlice` | freezer-inventory/admin/js/admin.js:147 | `trim` yields the slice of the text left after removing white space at both ends, and that slice neither starts nor ends with white space |
| `Text.IndexFrom` | freezer-inventory/admin/js/admin.js:151 | `indexOf` returns the first position where the needle occurs, or -1 exactly when it occurs nowhere |
| `Text.IndexOf` | freezer-inventory/admin/js/admin.js:151 | `indexOf` from the start returns the first position where the needle occurs, or -1 exactly when it is not a substring |
| `Filtering.Query` | freezer-inventory/admin/js/admin.js:147 | The query is no longer than the typed text, holds no ASCII capital, and neither starts nor ends with white space |
| `Filtering.MatchesSearch` | freezer-inventory/admin/js/admin.js:151 | An item matches the search exactly when the query is empty or is a substring of the lower-cased name |
| `Filtering.MatchesCategory` | freezer-inventory/admin/js/admin.js:152 | With no category selected every item matches; otherwise only items of that category |
| `Filtering.MatchesZone` | freezer-inventory/admin/js/admin.js:153 | With no location selected every item matches; otherwise only items in that location |
| `Filtering.Matches` | freezer-inventory/admin/js/admin.js:151-154 | An item is shown when it meets the search, category and location criteria together |
| `Filtering.FilterItems` | freezer-inventory/admin/js/admin.js:150-155 | The view is no longer than the full list, and each of its items is in the full list and meets the criteria |
| `Filtering.BlankSearchIsNoCriterion` | freezer-inventory/admin/js/admin.js:147-151 | A search box holding only white space gives an empty query, which filters nothing |
| `Filtering.FilterMembers` | freezer-inventory/admin/js/admin.js:150-155 | An item is in the view exactly when it is in the full list and meets the search, category and location criteria |
| `Filtering.FilterKeepsOrder` | freezer-inventory/admin/js/admin.js:150-155 | The view is a subsequence of the full list, so order is preserved |
| `Filtering.FilterKeepsEveryMatch` | freezer-inventory/admin/js/admin.js:150-155 | A matching item appears in the view as often as in the full list |
| `Filtering.FilterIsIntersection` | freezer-inventory/admin/js/admin.js:151-154 | Filtering by all three criteria is filtering by search, then category, then location (AND) |
| `Filtering.NoCriteriaKeepsAll` | freezer-inventory/admin/js/admin.js:150-155 | With every criterion empty the view is the full list, in the same order |
| `Facets.CollectDistinct` | freezer-inventory/admin/js/admin.js:168-171 | The collecting loop yields each non-empty value exactly once and nothing else |
| `Facets.SortStrings` | freezer-inventory/admin/js/admin.js:172 | The default sort returns a sorted permutation of its input |
| `Facets.FacetOptions` | freezer-inventory/admin/js/admin.js:167-186 | An option list is sorted, duplicate-free and holds exactly the non-empty values that occur |
| `Facets.FacetListUnique` | freezer-inventory/admin/js/admin.js:167-186 | Two correct option lists for the same values are equal, so the list is determined by the values alone |
| `Stats.CategoryCounts` | freezer-inventory/admin/js/admin.js:251-254 | Each category of the shown items gets one entry, in the order categories are first met. Each entry holds the number of items in that category, and the counts add up to the number of items shown |
| `Patches.RemoveId` | freezer-inventory/admin/js/admin.js:101-102 | Removing an identifier never lengthens a list, and every remaining item comes from the list and carries another identifier, so none with that identifier is left |
| `Patches.RemoveIdMembers` | freezer-inventory/admin/js/admin.js:101-102 | After removing an identifier, an item remains exactly when it was there and carries another identifier |
| `Patches.RemoveIdKeepsOrder` | freezer-inventory/admin/js/admin.js:136-137 | The remaining items keep their relative order |
| `Patches.RemoveIdKeepsOthers` | freezer-inventory/admin/js/admin.js:101-102 | Every item with another identifier is kept as often as it occurred |
| `Patches.FindIndex` | freezer-inventory/admin/js/admin.js:119 | `findIndex` gives the first position holding the identifier, or -1 exactly when it is absent |
| `Patches.ReplaceFirst` | freezer-inventory/admin/js/admin.js:119-122 | A quantity update keeps the length, changes nothing when the identifier is absent, and changes a position only into the returned item and only where the identifier was |
| `Patches.ReplaceFirstSpec` | freezer-inventory/admin/js/admin.js:119-122 | A quantity update keeps the length. Only the first entry with the identifier becomes the returned item, every other position is unchanged, and nothing changes when the identifier is absent |
| `Patches.ReplaceFirstKeepsIds` | freezer-inventory/admin/js/admin.js:119-122 | Replacing by an item with the same identifier keeps the set of identifiers |
| `Inventory.Complete` | freezer-inventory/admin/js/admin.js:60 | A new item needs a name, a category and a location |
| `Inventory.InventoryPage.constructor` | freezer-inventory/admin/js/admin.js:22-23 | The page starts with empty lists and empty inputs, and the invariant holds |
| `Inventory.InventoryPage.UpdateFilters` | freezer-inventory/admin/js/admin.js:167-196 | Both option lists are the facets of the full list, never of the view, and both drop-downs are back on "All" |
| `Inventory.InventoryPage.ApplyFilters` | freezer-inventory/admin/js/admin.js:146-158 | The view becomes the full list filtered by the current criteria, and the invariant holds |
| `Inventory.InventoryPage.SetSearch` | freezer-inventory/admin/js/admin.js:27 | Typing in the search box recomputes the view |
| `Inventory.InventoryPage.SetCategory` | freezer-inventory/admin/js/admin.js:28 | Choosing a category recomputes the view |
| `Inventory.InventoryPage.SetZone` | freezer-inventory/admin/js/admin.js:29 | Choosing a location recomputes the view |
| `Inventory.InventoryPage.ClearFilters` | freezer-inventory/admin/js/admin.js:160-165 | After clearing, all three inputs are empty and the view equals the full list |
| `Inventory.InventoryPage.Load` | freezer-inventory/admin/js/admin.js:34-47 | On success both lists are the loaded items and the option lists are rebuilt. On failure nothing changes. The invariant holds afterwards |
| `Inventory.InventoryPage.Add` | freezer-inventory/admin/js/admin.js:49-83 | A form without name, category or location is refused, with no request and no change. On success the created item is at index 0 followed by the previous items unchanged, the options are rebuilt and the view recomputed. On failure nothing changes |
| `Inventory.InventoryPage.RemoveEverywhere` | freezer-inventory/admin/js/admin.js:136-138 | The identifier is removed from both lists, the options are rebuilt, and the invariant is preserved |
| `Inventory.InventoryPage.Delete` | freezer-inventory/admin/js/admin.js:131-144 | Without confirmation nothing is sent or changed. After a successful `DELETE` no item with the identifier is left in either list. On failure nothing changes |
| `Inventory.InventoryPage.UseQuantity` | freezer-inventory/admin/js/admin.js:85-129 | A refused amount sends nothing and changes nothing. A used-up item is deleted from both lists. Otherwise the `PUT` carries the new quantity and only the first entry with that identifier in each list is replaced. A failed request changes nothing |
| `Inventory.InventoryPage.Stats` | freezer-inventory/admin/js/admin.js:245-257 | Nothing is shown while both lists are empty. Otherwise it shows the shown and total counts and a per-category tally of the shown items, in first-seen order, that adds up to the number shown |

## Left out

- Requests, promise chains and HTTP status handling are left out. Each handler receives the
  server's answer as a parameter, and a failure changes nothing.
- Rendering is left out: `renderInventory`, `createItemCard`, `escapeHtml`, date formatting, the
  timed notices of `showError`/`showSuccess`, and clearing the use input and the add form. These are
  DOM work with no effect on the lists.
- `handleDownloadPdf` is left out. It opens a browser window with server-rendered HTML.
- `setupEventListeners` is represented only by the handler methods it wires up.
- Two answers arriving in an unexpected order are not modelled. Each handler runs as one step on
  the state as it is when its answer arrives.
- Floating point is not modelled. `parseFloat` results are exact decimals, and an infinite amount
  cannot be expressed. The binary error in `(currentQty - amount) * 1000` before `Math.round` is
  ignored. Quantities held by items are whole thousandths.
- Text.ToLower: lower-cases ASCII letters only, whereas `toLowerCase` covers all of Unicode.
- Facets.SortStrings: compares strings by Unicode code point, whereas the default sort compares
  UTF-16 code units. The two orders differ only for characters outside the Basic Multilingual Plane.
- Stats.CategoryCounts: treats every category as a plain key, whereas `catCounts` is an ordinary
  object literal. `Object.keys` puts integer-like keys such as "2" first, in numeric order, while
  the model keeps first-seen order. A category named after an inherited member such as
  "constructor", "toString" or "valueOf" starts from that function, so `(catCounts[c] || 0) + 1`
  builds a string. A category named "__proto__" sets the prototype and is not listed. For such
  categories the shown tally does not add up to the number of items shown; the model's does.
- Inventory.InventoryPage.UseQuantity: keeps `Valid()` only when the `PUT` answer carries the
  requested identifier. What the server returns is decided by the item store, which is not part of
  this model.
- Missing (`null`) names, categories or locations are not modelled. Every field is a string, and
  "" stands for an absent value.
- `freezer-inventory/includes/class-freezer-rest.php` is not part of this model. It is a thin
  WordPress adapter over the item store, which is not part of this model either.
