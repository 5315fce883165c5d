/**
 The records the admin page holds in memory, and the small shared types the
 rest of the model uses.
 */
module Items {

  datatype Option<T> = None | Some(value: T)

  /** How a request to the REST endpoint ended: a 2xx reply with its JSON body, or a failure. */
  datatype Reply<T> = Ok(body: T) | Failed

  /** A decimal number `digits / 10^scale`, as a number input hands it to `parseFloat`. */
  datatype Decimal = Decimal(digits: int, scale: nat)

  /**
   An inventory item as the endpoint returns it. `quantity` is in thousandths
   of `unit`; `zone` is the `freezer_zone` field.
   */
  datatype Item = Item(
    id: string,
    name: string,
    category: string,
    quantity: int,
    unit: string,
    zone: string,
    notes: string,
    dateAdded: string)

  /** The fields of the add-item form as `FormData` hands them over ("" for an empty field). */
  datatype AddForm = AddForm(
    name: string,
    category: string,
    quantity: Option<Decimal>,
    unit: string,
    zone: string,
    notes: string)

  /** The request a user action sends to the REST endpoint, if any. */
  datatype Request =
    | NoRequest
    | CreateItem(form: AddForm)
    | DeleteItem(id: string)
    | UpdateQuantity(id: string, quantity: int)

  /** Why a user action was refused before any request was sent. */
  datatype Reason = MissingRequiredField | InvalidAmount | AmountExceedsQuantity

  /** What a user action led to. */
  datatype Outcome = Done | Rejected(reason: Reason) | RequestFailed | Cancelled

  /** The identifiers occurring in a list of items. */
  function Ids(items: seq<Item>): set<string>
  {
    set x | x in items :: x.id
  }

  /** `a` is `b` with some elements left out and the rest in their original order. */
  predicate IsSubsequence<T(==)>(a: seq<T>, b: seq<T>)
    decreases |b|
  {
    a == [] ||
    (b != [] && ((a[0] == b[0] && IsSubsequence(a[1..], b[1..])) || IsSubsequence(a, b[1..])))
  }
}
