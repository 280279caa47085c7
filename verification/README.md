# Storefront cart accumulator

A Dafny model of the client-side shopping cart of "The Herbal Chicken"
storefront (a React single-page app). The cart is an insertion-ordered
sequence of cart lines, one per product key. Pressing "Add" on a product card
either bumps the quantity of the line that already carries the product's key
or appends a new single-unit line that captures the product's title, price and
image at that moment. The header shows the cart count: the sum of the line
quantities. The product grid shows eight skeleton tiles while its request is
in flight and one card per product once it has completed.

- `cart.dfy`, module `Cart`: the product and cart-line datatypes, the key rule
  `p._id || p.id`, the lookup (`findIndex`), the add operation as a function of
  the old cart (`Added`), the count (`Count`, a left fold like `reduce`), the
  cart invariant (`WellFormed`: unique keys, quantities at least one), lemmas
  about single and repeated adds, and the class `ShoppingCart` that holds the
  session's cart and whose `AddToCart` method runs the search loop and the
  update.
- `product_grid.dfy`, module `ProductGrid`: the placeholder/card rule of the
  product grid, and the link from a card's add button to the cart.

A product's key is an `Option<string>`: `None` is the absent key that products
without any id share, so such products merge into a single line.

## Model

| member | source | states |
|---|---|---|
| Cart.FirstIndex | src/App.jsx:147 | the lookup returns the first line carrying the key, or -1 exactly when no line carries it |
| Cart.FirstIndexOfUnique | src/App.jsx:147 | in a cart with unique keys, the line found for a key is the only line with that key |
| Cart.AddExisting | src/App.jsx:147-151 | adding a product whose key has a line raises that line's quantity by exactly 1, keeps the cart length and leaves every other line unchanged |
| Cart.AddFresh | src/App.jsx:153-162 | adding a product whose key has no line appends exactly one line at the end, with that key, quantity 1 and the product's title, price and image |
| Cart.AddKeepsLines | src/App.jsx:147-162 | on either branch every old line keeps its position, key, title, price and image, its quantity grows by at most 1, and at most one new line (the product's new line) is appended |
| Cart.AddLineKeys | src/App.jsx:149-154 | the key order of the lines is unchanged when the key is known and extended at the end by the new key otherwise |
| Cart.AddPreservesUniqueKeys | src/App.jsx:147-162 | adding never makes two lines share a key |
| Cart.AddPreservesWellFormed | src/App.jsx:147-162 | adding keeps keys unique and every quantity at least 1 |
| Cart.AddQuantityOf | src/App.jsx:147-162 | on any cart, adding raises the quantity held for the product's key by 1 and leaves every other key's quantity unchanged |
| Cart.CountAppend | src/App.jsx:166 | the count of two carts put end to end is the sum of their counts |
| Cart.CountBump | src/App.jsx:150 | raising one line's quantity by 1 raises the count by 1 |
| Cart.AddCount | src/App.jsx:145-166 | every add raises the cart count by exactly 1, on either branch |
| Cart.CountAtLeastLines | src/App.jsx:166 | with positive quantities the count is at least the number of lines, and zero exactly for the empty cart |
| Cart.AddAllWellFormed | src/App.jsx:143-164 | any run of adds from a well-formed cart (such as the empty initial cart) leaves it well formed |
| Cart.AddAllUniqueKeys | src/App.jsx:143-164 | any run of adds from a cart with unique keys keeps the keys unique |
| Cart.AddAllCount | src/App.jsx:145-166 | n adds raise the count by exactly n |
| Cart.AddAllQuantity | src/App.jsx:145-164 | after a run of adds to any cart, the quantity held for each key has grown by the number of added products carrying that key |
| Cart.AddAllLineOrder | src/App.jsx:143-164 | from the empty cart, the lines are the distinct keys of the added products in the order of their first add, and a key has a line exactly when some added product carried it |
| Cart.AddAllSameKey | src/App.jsx:147-162 | adding k products sharing one key to the empty cart gives one line with quantity k whose title, price and image are those of the first product added |
| Cart.AddSameProduct | src/App.jsx:145-164 | adding the same product k times to the empty cart gives exactly one line with quantity k |
| Cart.AddTwoDistinct | src/App.jsx:145-164 | adding two products with different keys to the empty cart gives two single-unit lines in call order |
| Cart.AbsentKeysMerge | src/App.jsx:147-156 | two products that each have no `id` and a missing or empty `_id`, even different ones, merge into one line with quantity 2 |
| Cart.MongoIdTakesPrecedence | src/App.jsx:147-156 | two products with the same non-empty `_id` share one line with that `_id` as key, whatever their `id` fields hold |
| Cart.IdFallback | src/App.jsx:147-156 | a product with a missing or empty `_id` is keyed by its `id`, and merges with a product whose `_id` has that value |
| Cart.IdIgnoredBehindMongoId | src/App.jsx:147-156 | a product with a non-empty `_id` is keyed by it and not by its `id`, so it does not merge with a product keyed by that `id` |
| Cart.ShoppingCart.constructor | src/App.jsx:143 | the session starts with an empty, well-formed cart |
| Cart.ShoppingCart.FindLine | src/App.jsx:147 | the search loop returns the index of the first line with the key, or -1 exactly when there is none |
| Cart.ShoppingCart.AddToCart | src/App.jsx:145-164 | the new cart is the add of the product to the old one, stays well formed, and its count is one more than before |
| Cart.ShoppingCart.CartCount | src/App.jsx:166 | the header count is at least the number of lines and zero exactly when the cart is empty |
| ProductGrid.GridItems | src/App.jsx:100-105 | while loading the grid is exactly 8 placeholders; once loaded it is one card per product, in response order |
| ProductGrid.CardCountBounds | src/App.jsx:100-105 | the number of cards is at most the number of tiles, equal exactly when every tile is a card, zero exactly when every tile is a placeholder |
| ProductGrid.GridCardCount | src/App.jsx:100-105 | no product card is shown while loading; exactly N cards are shown for a response of N products |
| ProductGrid.CardAddsItsProduct | src/App.jsx:104 | on any cart, pressing add on card i raises the count by 1 and the quantity of the i-th product's key by 1 |

## Left out

- The data-fetching hook (`useApi`, src/App.jsx:5-22): network requests, promise chains, effect scheduling and the flag that discards stale results. The grid is modelled from its `loading` flag and its `data` value, taken as inputs. The hook never clears `data`, so after a failed request the grid keeps showing the previous response; that history is not modelled.
- The price conversion `Number(p.price)` and the `toFixed(2)` display: floating-point parsing and formatting are not modelled; a product's `price` is the numeric value that the cart line copies unchanged.
- All rendering markup: header, banner strip, category buttons, product card, offers, footer. The category selector holds one of four fixed names and is not modelled.
- The base URL from the environment, `encodeURIComponent`, and the current year in the footer: environment input and library calls.
- The React list key `_id || sku || title` (src/App.jsx:104): it only affects rendering identity, not the cart.
- Cart.KeyOf: does not distinguish `null` from `undefined`, nor numeric ids from string ids. Both kinds of missing id are the one absent key `None`, and ids are strings.
- Cart.ShoppingCart.AddToCart: the result is a fresh sequence value. The source's shallow copy shares the bumped line object with the previous cart array; that aliasing is not reproduced.
- Cart.Count: quantities are unbounded naturals; the 2^53 limit of exact JavaScript integers is not modelled.
