/**
 * The store client, reduced to what the chat core relies on: an order is
 * looked up by its name with every space removed first, and the first order
 * of the answer (if any) is used; a product search returns the store's list.
 *
 * The store itself is abstract: `orders` maps an order name to the list the
 * store answers with, `catalog` maps a search text to the product list. Each
 * request is recorded in a log, so that what the core asks of the store, and
 * when it asks nothing, can be stated.
 */
module ShopifyClient {
  import opened Wrappers
  import opened Text
  import opened Shop

  /** The first order of the store's answer for `name`, or `None` when the
      answer is missing or empty. */
  function FirstOrder(orders: map<string, seq<Order>>, name: string): (order: Option<Order>)
    ensures order.Some? <==> name in orders && orders[name] != []
    ensures order.Some? ==> order.value == orders[name][0]
  {
    if name in orders && orders[name] != [] then Some(orders[name][0]) else None
  }

  /** The products the store answers a search with; none when it has no answer. */
  function Products(catalog: map<string, seq<Product>>, query: string): (products: seq<Product>)
    ensures query !in catalog ==> products == []
    ensures query in catalog ==> products == catalog[query]
  {
    if query in catalog then catalog[query] else []
  }

  /** The two store requests the chat core makes, each recorded in a log. */
  class Gateway {
    const orders: map<string, seq<Order>>
    const catalog: map<string, seq<Product>>
    /** The order names looked up so far, oldest first. */
    var orderQueries: seq<string>
    /** The search texts sent so far, oldest first. */
    var productQueries: seq<string>

    constructor(orders: map<string, seq<Order>>, catalog: map<string, seq<Product>>)
      ensures this.orders == orders && this.catalog == catalog
      ensures orderQueries == [] && productQueries == []
    {
      this.orders := orders;
      this.catalog := catalog;
      orderQueries := [];
      productQueries := [];
    }

    /** Looks an order up by its id with the spaces removed. */
    method GetOrder(orderId: string) returns (order: Option<Order>)
      modifies this`orderQueries
      ensures orderQueries == old(orderQueries) + [RemoveSpaces(orderId)]
      ensures order == FirstOrder(orders, RemoveSpaces(orderId))
    {
      var cleanId := RemoveSpaces(orderId);
      orderQueries := orderQueries + [cleanId];
      var answer := if cleanId in orders then orders[cleanId] else [];
      if answer != [] {
        order := Some(answer[0]);
      } else {
        order := None;
      }
    }

    /** Searches the catalogue for `query`. */
    method SearchProduct(query: string) returns (products: seq<Product>)
      modifies this`productQueries
      ensures productQueries == old(productQueries) + [query]
      ensures products == Products(catalog, query)
    {
      productQueries := productQueries + [query];
      products := if query in catalog then catalog[query] else [];
    }
  }

  /** Spaces anywhere in the id do not change which order is found. */
  lemma LookupIgnoresSpaces(orders: map<string, seq<Order>>, pre: string, post: string)
    ensures FirstOrder(orders, RemoveSpaces(pre + " " + post)) == FirstOrder(orders, RemoveSpaces(pre + post))
  {
    RemoveSpacesDropsSpace(pre, post);
    RemoveSpacesConcat(pre, post);
  }
}
