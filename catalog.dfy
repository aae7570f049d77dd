/**
 * The retailer's catalog as the selection engine sees it: products, the
 * responses of a product-page request, the inventory lookup, and the mutable
 * JavaScript array that `chooseBeer` and the strategies remove items from.
 */
module Catalog {
  import opened Base

  /** A catalog product; only the fields the selection logic reads are kept. */
  datatype Product = Product(id: string, name: string, primaryCategory: string)

  /** `item.primary_category === 'Beer'`. */
  predicate IsBeer(p: Product) {
    p.primaryCategory == "Beer"
  }

  /** `_.filter(results, item => item.primary_category === 'Beer')`. */
  function Beers(results: seq<Product>): seq<Product> {
    Filter(results, IsBeer)
  }

  /** The test `_.remove` applies to drop the items carrying `id`, negated. */
  function IdOtherThan(id: string): Product -> bool {
    (p: Product) => p.id != id
  }

  /** The items the used-id filter keeps. */
  function IdNotIn(used: seq<string>): Product -> bool {
    (p: Product) => p.id !in used
  }

  /** The array left by `_.remove(beers, item => item.id === id)`. */
  function WithoutId(ps: seq<Product>, id: string): seq<Product> {
    Filter(ps, IdOtherThan(id))
  }

  /** The array left once every id of `used` has been removed. */
  function WithoutIds(ps: seq<Product>, used: seq<string>): seq<Product> {
    Filter(ps, IdNotIn(used))
  }

  /** Removing one more used id after the others is filtering by the longer list. */
  lemma RemoveOneMore(ps: seq<Product>, used: seq<string>, id: string)
    ensures WithoutId(WithoutIds(ps, used), id) == WithoutIds(ps, used + [id])
  {
    FilterTwice(ps, IdNotIn(used), IdOtherThan(id), IdNotIn(used + [id]));
  }

  /**
   * One response to a product-page request, as the callback receives it:
   * a transport error, no body, a body JSON.parse rejects, or the parsed
   * page (`json.result`, or [] when absent, and `json.pager.total_pages`,
   * or 0 when there is no pager).
   */
  datatype PageResponse =
    | TransportFailure(error: Error)
    | MissingBody
    | UnparseableBody
    | Page(results: seq<Product>, totalPages: int)

  /** The live inventory service: the quantity a store holds of a product, or an error. */
  type Inventory = string -> Result<int>

  /** `lcboUtil.checkInventory`: errors pass through; a product is in stock unless its quantity is 0. */
  function CheckInventory(stock: Inventory, id: string): (r: Result<bool>)
    ensures r.Err? <==> stock(id).Err?
    ensures r == Ok(false) <==> stock(id) == Ok(0)
  {
    match stock(id)
    case Err(e) => Err(e)
    case Ok(quantity) => Ok(quantity != 0)
  }

  /** A JavaScript array of products, shared by reference and shrunk in place. */
  class ProductList {
    var items: seq<Product>

    constructor (items: seq<Product>)
      ensures this.items == items
    {
      this.items := items;
    }

    /** `_.remove(items, item => item.id === id)`: every item with that id goes, the rest stay in order. */
    method RemoveId(id: string)
      modifies this
      ensures items == WithoutId(old(items), id)
      ensures forall p :: p in items <==> p in old(items) && p.id != id
    {
      items := WithoutId(items, id);
    }

    /** The used-id filter: `for (i in used) _.remove(items, item => item.id == used[i])`. */
    method RemoveUsed(used: seq<string>)
      modifies this
      ensures items == WithoutIds(old(items), used)
      ensures forall p :: p in items <==> p in old(items) && p.id !in used
    {
      FilterKeepsAll(items, IdNotIn([]));
      for i := 0 to |used|
        invariant items == WithoutIds(old(items), used[..i])
      {
        RemoveOneMore(old(items), used[..i], used[i]);
        assert used[..i] + [used[i]] == used[..i + 1];
        RemoveId(used[i]);
      }
      assert used[..|used|] == used;
    }
  }
}
