/**
 * The records the chat core reads from the store: an order and a product as
 * the store's JSON gives them, reduced to the fields the core looks at.
 * A JSON field that may be missing or `null` is an `Option`.
 */
module Shop {
  import opened Wrappers

  /** Python truthiness of an optional string: present and non-empty. */
  predicate Truthy(v: Option<string>) {
    v.Some? && v.value != ""
  }

  /** The `customer` object of an order; an absent `email` is `None`. */
  datatype Customer = Customer(email: Option<string>)

  /** One entry of an order's `fulfillments` list. */
  datatype Fulfillment = Fulfillment(trackingUrl: Option<string>, trackingNumber: Option<string>)

  /** An order. A missing `fulfillments` list and an empty one are read alike
      by the core, so both are the empty sequence here. */
  datatype Order = Order(
    name: string,
    email: Option<string>,
    contactEmail: Option<string>,
    customer: Option<Customer>,
    fulfillmentStatus: Option<string>,
    financialStatus: Option<string>,
    fulfillments: seq<Fulfillment>)

  /** A product; `image` is the `src` of its image object when it has one. */
  datatype Product = Product(title: string, handle: string, image: Option<string>)
}
