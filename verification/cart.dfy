/** The storefront's client-side cart: an insertion-ordered sequence of cart
    lines, at most one per product key, that an "add" either extends with a
    new line or bumps by one unit, and whose displayed count is the sum of
    the line quantities. */
module Cart {

  datatype Option<T> = None | Some(value: T)

  /** A product as the product grid hands it to the cart. `mongoId` is the
      `_id` field and `id` the fallback `id` field; either may be missing.
      `price` is the numeric value the cart stores for the product. */
  datatype Product = Product(
    mongoId: Option<string>,
    id: Option<string>,
    title: string,
    price: real,
    imageUrl: string)

  /** The key a cart line is identified by; `None` stands for a product
      that has no usable id at all. */
  type Key = Option<string>

  datatype CartLine = CartLine(
    productId: Key,
    title: string,
    price: real,
    quantity: nat,
    imageUrl: string)

  /** `p._id || p.id`: the `_id` field wins when it is present and not the
      empty string (which is falsy); otherwise the `id` field is used as it
      is, absent or not. */
  function KeyOf(p: Product): Key {
    if p.mongoId.Some? && p.mongoId.value != "" then p.mongoId else p.id
  }

  /** The line created on the first add of a product: one unit, with the
      product's title, price and image as they are at that moment. */
  function NewLine(p: Product): CartLine {
    CartLine(KeyOf(p), p.title, p.price, 1, p.imageUrl)
  }

  // ---------------------------------------------------------------------
  // Invariant of the cart

  ghost predicate UniqueKeys(c: seq<CartLine>) {
    forall i, j :: 0 <= i < j < |c| ==> c[i].productId != c[j].productId
  }

  ghost predicate QuantitiesPositive(c: seq<CartLine>) {
    forall i :: 0 <= i < |c| ==> c[i].quantity >= 1
  }

  /** What every cart reachable from the empty cart satisfies. */
  ghost predicate WellFormed(c: seq<CartLine>) {
    UniqueKeys(c) && QuantitiesPositive(c)
  }

  function LineKeys(c: seq<CartLine>): (ks: seq<Key>)
    ensures |ks| == |c|
    ensures forall i :: 0 <= i < |c| ==> ks[i] == c[i].productId
  {
    if c == [] then [] else LineKeys(c[..|c| - 1]) + [c[|c| - 1].productId]
  }

  // ---------------------------------------------------------------------
  // Lookup (`findIndex`)

  /** `i` is what `findIndex` returns when looking for key `k` in `c`:
      the first line with that key, or -1 when there is none. */
  ghost predicate IsFirstIndex(c: seq<CartLine>, k: Key, i: int) {
    if i == -1 then
      forall j :: 0 <= j < |c| ==> c[j].productId != k
    else
      0 <= i < |c| && c[i].productId == k &&
      forall j :: 0 <= j < i ==> c[j].productId != k
  }

  function FirstIndex(c: seq<CartLine>, k: Key): (i: int)
    ensures IsFirstIndex(c, k, i)
  {
    if c == [] then -1
    else if c[0].productId == k then 0
    else
      var r := FirstIndex(c[1..], k);
      if r == -1 then -1 else r + 1
  }

  /** In a cart without duplicate keys, the first line with a key is the
      only one. */
  lemma FirstIndexOfUnique(c: seq<CartLine>, j: nat)
    requires UniqueKeys(c)
    requires j < |c|
    ensures FirstIndex(c, c[j].productId) == j
  {
  }

  /** The quantity held for key `k`, 0 when the cart has no such line. */
  function QuantityOf(c: seq<CartLine>, k: Key): nat {
    var i := FirstIndex(c, k);
    if i == -1 then 0 else c[i].quantity
  }

  // ---------------------------------------------------------------------
  // The add operation as a function of the old cart

  /** The cart `addToCart(p)` produces from `c`. */
  function Added(c: seq<CartLine>, p: Product): seq<CartLine> {
    var i := FirstIndex(c, KeyOf(p));
    if i > -1 then c[i := c[i].(quantity := c[i].quantity + 1)]
    else c + [NewLine(p)]
  }

  /** Adding a product whose key already has a line bumps that line by
      exactly one unit; the cart keeps its length and every other line. */
  lemma AddExisting(c: seq<CartLine>, p: Product, j: nat)
    requires UniqueKeys(c)
    requires j < |c| && c[j].productId == KeyOf(p)
    ensures |Added(c, p)| == |c|
    ensures Added(c, p)[j] == c[j].(quantity := c[j].quantity + 1)
    ensures forall m :: 0 <= m < |c| && m != j ==> Added(c, p)[m] == c[m]
  {
  }

  /** Adding a product whose key has no line appends exactly one line, at
      the end, holding one unit and the product's title, price and image. */
  lemma AddFresh(c: seq<CartLine>, p: Product)
    requires forall j :: 0 <= j < |c| ==> c[j].productId != KeyOf(p)
    ensures Added(c, p) == c + [CartLine(KeyOf(p), p.title, p.price, 1, p.imageUrl)]
  {
  }

  /** On either branch the old lines stay in place, in order, with the same
      key, title, price and image; a quantity grows by at most one, and at
      most one line is appended. */
  lemma AddKeepsLines(c: seq<CartLine>, p: Product)
    ensures |Added(c, p)| == |c| || |Added(c, p)| == |c| + 1
    ensures forall j :: 0 <= j < |c| ==>
      Added(c, p)[j].(quantity := c[j].quantity) == c[j] &&
      c[j].quantity <= Added(c, p)[j].quantity <= c[j].quantity + 1
    ensures |Added(c, p)| == |c| + 1 ==> Added(c, p)[|c|] == NewLine(p)
  {
  }

  /** The line order seen through keys: unchanged when the key is known,
      extended by the new key otherwise. */
  lemma AddLineKeys(c: seq<CartLine>, p: Product)
    ensures LineKeys(Added(c, p)) ==
      if KeyOf(p) in LineKeys(c) then LineKeys(c) else LineKeys(c) + [KeyOf(p)]
  {
  }

  /** Adding never gives two lines the same key. */
  lemma AddPreservesUniqueKeys(c: seq<CartLine>, p: Product)
    requires UniqueKeys(c)
    ensures UniqueKeys(Added(c, p))
  {
  }

  /** Adding keeps the cart well formed: keys stay unique and every
      quantity stays at least one. */
  lemma AddPreservesWellFormed(c: seq<CartLine>, p: Product)
    requires WellFormed(c)
    ensures WellFormed(Added(c, p))
  {
  }

  /** The add bumps the quantity held for the product's key by one and
      leaves every other key's quantity alone. */
  lemma {:induction false} AddQuantityOf(c: seq<CartLine>, p: Product, k: Key)
    ensures QuantityOf(Added(c, p), k) ==
      QuantityOf(c, k) + (if k == KeyOf(p) then 1 else 0)
  {
    var a := Added(c, p);
    var i := FirstIndex(c, KeyOf(p));
    var ik := FirstIndex(c, k);
    if i == -1 {
      // the new line is the only one carrying the product's key
      if k == KeyOf(p) {
        assert IsFirstIndex(a, k, |c|);
      } else {
        assert IsFirstIndex(a, k, ik);
      }
    } else {
      // the bump leaves every key where it was
      assert IsFirstIndex(a, k, ik);
      assert k == KeyOf(p) ==> ik == i;
    }
  }

  // ---------------------------------------------------------------------
  // The count shown in the header: a left fold summing the line quantities

  /** Sum of the line quantities, folded from the left as `reduce` does. */
  function Count(c: seq<CartLine>): nat {
    if c == [] then 0 else Count(c[..|c| - 1]) + c[|c| - 1].quantity
  }

  lemma {:induction false} CountAppend(a: seq<CartLine>, b: seq<CartLine>)
    ensures Count(a + b) == Count(a) + Count(b)
  {
    if b == [] {
      assert a + b == a;
    } else {
      var b' := b[..|b| - 1];
      assert (a + b)[..|a + b| - 1] == a + b';
      CountAppend(a, b');
    }
  }

  /** Raising one line's quantity by one raises the count by one. */
  lemma {:induction false} CountBump(c: seq<CartLine>, i: nat)
    requires i < |c|
    ensures Count(c[i := c[i].(quantity := c[i].quantity + 1)]) == Count(c) + 1
  {
    var c' := c[i := c[i].(quantity := c[i].quantity + 1)];
    assert c == c[..i] + [c[i]] + c[i + 1..];
    assert c' == c[..i] + [c'[i]] + c[i + 1..];
    CountAppend(c[..i] + [c[i]], c[i + 1..]);
    CountAppend(c[..i], [c[i]]);
    CountAppend(c[..i] + [c'[i]], c[i + 1..]);
    CountAppend(c[..i], [c'[i]]);
    assert Count([c[i]]) == c[i].quantity by { assert [c[i]][..0] == []; }
    assert Count([c'[i]]) == c'[i].quantity by { assert [c'[i]][..0] == []; }
  }

  /** Every add raises the cart count by exactly one, on either branch. */
  lemma {:induction false} AddCount(c: seq<CartLine>, p: Product)
    ensures Count(Added(c, p)) == Count(c) + 1
  {
    var i := FirstIndex(c, KeyOf(p));
    if i > -1 {
      CountBump(c, i);
    } else {
      CountAppend(c, [NewLine(p)]);
      assert [NewLine(p)][..0] == [];
    }
  }

  /** In a well-formed cart the count is at least the number of lines, so
      a cart with a line never shows a count of zero. */
  lemma {:induction false} CountAtLeastLines(c: seq<CartLine>)
    requires QuantitiesPositive(c)
    ensures Count(c) >= |c|
    ensures Count(c) == 0 <==> c == []
  {
    if c != [] {
      CountAtLeastLines(c[..|c| - 1]);
    }
  }

  // ---------------------------------------------------------------------
  // Repeated adds

  /** The cart after adding each product of `ps`, in order, to `c`. */
  function AddAll(c: seq<CartLine>, ps: seq<Product>): seq<CartLine> {
    if ps == [] then c else Added(AddAll(c, ps[..|ps| - 1]), ps[|ps| - 1])
  }

  function KeysOf(ps: seq<Product>): (ks: seq<Key>)
    ensures |ks| == |ps|
    ensures forall i :: 0 <= i < |ps| ==> ks[i] == KeyOf(ps[i])
  {
    if ps == [] then [] else KeysOf(ps[..|ps| - 1]) + [KeyOf(ps[|ps| - 1])]
  }

  /** The distinct elements of `s`, in the order of their first occurrence. */
  function Distinct(s: seq<Key>): seq<Key> {
    if s == [] then []
    else
      var d := Distinct(s[..|s| - 1]);
      if s[|s| - 1] in d then d else d + [s[|s| - 1]]
  }

  lemma {:induction false} DistinctElements(s: seq<Key>)
    ensures forall k :: k in Distinct(s) <==> k in s
  {
    if s != [] {
      DistinctElements(s[..|s| - 1]);
      assert s == s[..|s| - 1] + [s[|s| - 1]];
    }
  }

  /** Any run of adds keeps a well-formed cart well formed. */
  lemma {:induction false} AddAllWellFormed(c: seq<CartLine>, ps: seq<Product>)
    requires WellFormed(c)
    ensures WellFormed(AddAll(c, ps))
  {
    if ps != [] {
      AddAllWellFormed(c, ps[..|ps| - 1]);
      AddPreservesWellFormed(AddAll(c, ps[..|ps| - 1]), ps[|ps| - 1]);
    }
  }

  /** `n` adds raise the count by exactly `n`. */
  lemma {:induction false} AddAllCount(c: seq<CartLine>, ps: seq<Product>)
    ensures Count(AddAll(c, ps)) == Count(c) + |ps|
  {
    if ps != [] {
      AddAllCount(c, ps[..|ps| - 1]);
      AddCount(AddAll(c, ps[..|ps| - 1]), ps[|ps| - 1]);
    }
  }

  /** The quantity held for a key grows by the number of added products
      carrying that key. */
  lemma {:induction false} AddAllQuantity(c: seq<CartLine>, ps: seq<Product>, k: Key)
    ensures QuantityOf(AddAll(c, ps), k) == QuantityOf(c, k) + multiset(KeysOf(ps))[k]
  {
    if ps != [] {
      var init := ps[..|ps| - 1];
      var last := ps[|ps| - 1];
      AddAllQuantity(c, init, k);
      AddQuantityOf(AddAll(c, init), last, k);
      assert KeysOf(ps) == KeysOf(init) + [KeyOf(last)];
    }
  }

  lemma {:induction false} AddAllUniqueKeys(c: seq<CartLine>, ps: seq<Product>)
    requires UniqueKeys(c)
    ensures UniqueKeys(AddAll(c, ps))
  {
    if ps != [] {
      AddAllUniqueKeys(c, ps[..|ps| - 1]);
      AddPreservesUniqueKeys(AddAll(c, ps[..|ps| - 1]), ps[|ps| - 1]);
    }
  }

  /** From an empty cart, the lines appear in the order in which their
      keys were first added, one line per distinct key. */
  lemma {:induction false} AddAllLineOrder(ps: seq<Product>)
    ensures LineKeys(AddAll([], ps)) == Distinct(KeysOf(ps))
    ensures forall k :: k in LineKeys(AddAll([], ps)) <==> k in KeysOf(ps)
  {
    DistinctElements(KeysOf(ps));
    if ps != [] {
      var init := ps[..|ps| - 1];
      AddAllLineOrder(init);
      AddLineKeys(AddAll([], init), ps[|ps| - 1]);
      assert KeysOf(ps)[..|ps| - 1] == KeysOf(init);
    }
  }

  /** Adding products that all share one key to an empty cart gives a
      single line whose quantity is the number of adds and whose title,
      price and image are those captured at the first add. */
  lemma {:induction false} AddAllSameKey(ps: seq<Product>)
    requires |ps| >= 1
    requires forall i :: 0 <= i < |ps| ==> KeyOf(ps[i]) == KeyOf(ps[0])
    ensures AddAll([], ps) == [NewLine(ps[0]).(quantity := |ps|)]
  {
    if |ps| == 1 {
      assert ps[..0] == [];
    } else {
      var init := ps[..|ps| - 1];
      AddAllSameKey(init);
      assert FirstIndex(AddAll([], init), KeyOf(ps[|ps| - 1])) == 0;
    }
  }

  /** Adding the same product `n` times to an empty cart gives one line
      with quantity `n`. */
  lemma AddSameProduct(p: Product, n: nat)
    requires n >= 1
    ensures AddAll([], seq(n, _ => p)) == [NewLine(p).(quantity := n)]
  {
    AddAllSameKey(seq(n, _ => p));
  }

  /** Two products with different keys give two single-unit lines, in the
      order of the adds. */
  lemma AddTwoDistinct(p1: Product, p2: Product)
    requires KeyOf(p1) != KeyOf(p2)
    ensures AddAll([], [p1, p2]) == [NewLine(p1), NewLine(p2)]
  {
    assert [p1, p2][..1] == [p1];
    assert [p1][..0] == [];
    assert AddAll([], [p1]) == [NewLine(p1)];
    AddFresh([NewLine(p1)], p2);
  }

  /** Products without any usable id (no `_id` or an empty one, and no
      `id`) all share the absent key, so adding two of them, even
      different ones, merges them into one line. */
  lemma AbsentKeysMerge(p: Product, q: Product)
    requires p.mongoId == None || p.mongoId == Some("")
    requires q.mongoId == None || q.mongoId == Some("")
    requires p.id == None && q.id == None
    ensures AddAll([], [p, q]) == [NewLine(p).(quantity := 2)]
  {
    AddAllSameKey([p, q]);
  }

  /** A non-empty `_id` is the key whatever the `id` field holds: two
      products with the same `_id` share a line even when their `id`
      fields differ. */
  lemma MongoIdTakesPrecedence(p: Product, q: Product, x: string)
    requires x != "" && p.mongoId == Some(x) && q.mongoId == Some(x)
    ensures AddAll([], [p, q]) == [NewLine(p).(quantity := 2)]
    ensures AddAll([], [p, q])[0].productId == Some(x)
  {
    AddAllSameKey([p, q]);
  }

  /** A missing or empty `_id` falls back to the `id` field, which then
      meets another product's `_id` of the same value. */
  lemma IdFallback(p: Product, q: Product, x: string)
    requires p.mongoId == None || p.mongoId == Some("")
    requires x != "" && p.id == Some(x) && q.mongoId == Some(x)
    ensures AddAll([], [p, q]) == [NewLine(p).(quantity := 2)]
    ensures AddAll([], [p, q])[0].productId == Some(x)
  {
    AddAllSameKey([p, q]);
  }

  /** The `id` field is not consulted when a non-empty `_id` is present:
      a product keyed by its `_id` and one keyed by a different `id` get
      separate lines, even when the first one's `id` equals the second's. */
  lemma IdIgnoredBehindMongoId(p: Product, q: Product, x: string, y: string)
    requires x != "" && x != y && p.mongoId == Some(x) && p.id == Some(y)
    requires q.mongoId == None && q.id == Some(y)
    ensures AddAll([], [p, q]) == [NewLine(p), NewLine(q)]
    ensures NewLine(p).productId == Some(x) && NewLine(q).productId == Some(y)
  {
    AddTwoDistinct(p, q);
  }

  // ---------------------------------------------------------------------
  // The cart state held by the application

  /** The cart held in the application's state; `AddToCart` is the
      `addToCart` callback the product grid calls. */
  class ShoppingCart {
    var lines: seq<CartLine>

    ghost predicate Valid()
      reads this
    {
      WellFormed(lines)
    }

    /** The session starts with an empty cart. */
    constructor ()
      ensures Valid() && lines == []
    {
      lines := [];
    }

    /** `findIndex` over the lines for key `k`. */
    method FindLine(k: Key) returns (i: int)
      ensures IsFirstIndex(lines, k, i)
    {
      i := 0;
      while i < |lines|
        invariant 0 <= i <= |lines|
        invariant forall j :: 0 <= j < i ==> lines[j].productId != k
      {
        if lines[i].productId == k {
          return;
        }
        i := i + 1;
      }
      i := -1;
    }

    /** Add one unit of `p`: bump its line when the key is present, append
        a fresh single-unit line otherwise. */
    method AddToCart(p: Product)
      requires Valid()
      modifies this
      ensures Valid()
      ensures lines == Added(old(lines), p)
      ensures Count(lines) == Count(old(lines)) + 1
    {
      ghost var before := lines;
      var i := FindLine(KeyOf(p));
      if i > -1 {
        lines := lines[i := lines[i].(quantity := lines[i].quantity + 1)];
      } else {
        lines := lines + [NewLine(p)];
      }
      AddPreservesWellFormed(before, p);
      AddCount(before, p);
    }

    /** The count shown in the header. */
    function CartCount(): (n: nat)
      reads this
      requires Valid()
      ensures n >= |lines|
      ensures n == 0 <==> lines == []
    {
      CountAtLeastLines(lines);
      Count(lines)
    }
  }
}
