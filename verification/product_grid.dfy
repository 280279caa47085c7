/** What the product grid shows: a fixed number of placeholder tiles while
    the product request is in flight, then one card per product of the
    response (none before any response has arrived). */
module ProductGrid {
  import opened Cart

  /** Number of skeleton tiles shown while the products are loading. */
  const PlaceholderCount: nat := 8

  datatype GridItem = Placeholder(index: nat) | Card(product: Product)

  /** `data || []`: before any response has arrived the product list is
      empty. A later failed request leaves `data` as the previous
      response, which is then still shown. */
  function ProductsOf(data: Option<seq<Product>>): seq<Product> {
    if data.Some? then data.value else []
  }

  /** The tiles of the grid, in display order. */
  function GridItems(loading: bool, data: Option<seq<Product>>): (r: seq<GridItem>)
    ensures loading ==> |r| == PlaceholderCount
    ensures loading ==> forall i :: 0 <= i < |r| ==> r[i] == Placeholder(i)
    ensures !loading ==> |r| == |ProductsOf(data)|
    ensures !loading ==> forall i :: 0 <= i < |r| ==> r[i] == Card(ProductsOf(data)[i])
  {
    if loading then seq(PlaceholderCount, i requires 0 <= i => Placeholder(i))
    else
      var ps := ProductsOf(data);
      seq(|ps|, i requires 0 <= i < |ps| => Card(ps[i]))
  }

  /** Number of product cards among the tiles. */
  function CardCount(items: seq<GridItem>): nat {
    if items == [] then 0
    else CardCount(items[..|items| - 1]) + (if items[|items| - 1].Card? then 1 else 0)
  }

  lemma {:induction false} CardCountBounds(items: seq<GridItem>)
    ensures CardCount(items) <= |items|
    ensures CardCount(items) == |items| <==> forall i :: 0 <= i < |items| ==> items[i].Card?
    ensures CardCount(items) == 0 <==> forall i :: 0 <= i < |items| ==> items[i].Placeholder?
  {
    if items != [] {
      var init := items[..|items| - 1];
      CardCountBounds(init);
      assert forall i :: 0 <= i < |init| ==> init[i] == items[i];
    }
  }

  /** While loading the grid shows no product card at all (in particular
      none left over from an earlier category); once loaded it shows
      exactly one card per product of the response. */
  lemma GridCardCount(loading: bool, data: Option<seq<Product>>)
    ensures CardCount(GridItems(loading, data)) ==
      if loading then 0 else |ProductsOf(data)|
  {
    CardCountBounds(GridItems(loading, data));
  }

  /** The add button of a card hands that card's product to the cart. */
  lemma CardAddsItsProduct(c: seq<CartLine>, data: Option<seq<Product>>, i: nat)
    requires i < |GridItems(false, data)|
    ensures Count(Added(c, GridItems(false, data)[i].product)) == Count(c) + 1
    ensures QuantityOf(Added(c, GridItems(false, data)[i].product), KeyOf(ProductsOf(data)[i])) ==
      QuantityOf(c, KeyOf(ProductsOf(data)[i])) + 1
  {
    var p := GridItems(false, data)[i].product;
    AddCount(c, p);
    AddQuantityOf(c, p, KeyOf(p));
  }
}
