/**
 * The client-side cart: an ordered sequence of line items, each a menu
 * product spread into an object together with its quantity (`cantidad`).
 * Adding merges by product id, quantities move by a delta only while they
 * stay positive, removal filters an id out, and the total and the badge
 * count are reductions over the entries.
 */
module Cart {
  import opened Wrappers
  import opened Catalog

  datatype LineItem = LineItem(id: int, nombre: string, precio: nat, descripcion: string, cantidad: int)

  type Cart = seq<LineItem>

  /** `{...item, cantidad: q}`: a product spread into a cart entry. */
  function Entry(p: Product, cantidad: int): LineItem {
    LineItem(p.id, p.nombre, p.precio, p.descripcion, cantidad)
  }

  /** The product fields of an entry, without its quantity. */
  function ProductOf(e: LineItem): Product {
    Product(e.id, e.nombre, e.precio, e.descripcion)
  }

  predicate HasId(cart: Cart, id: int) {
    exists i :: 0 <= i < |cart| && cart[i].id == id
  }

  predicate UniqueIds(cart: Cart) {
    forall i, j :: 0 <= i < j < |cart| ==> cart[i].id != cart[j].id
  }

  predicate PositiveQuantities(cart: Cart) {
    forall i :: 0 <= i < |cart| ==> cart[i].cantidad >= 1
  }

  /** The cart invariant: one entry per product id, every quantity at least one. */
  predicate Valid(cart: Cart) {
    UniqueIds(cart) && PositiveQuantities(cart)
  }

  /** Every entry of the cart that carries the id of `p` also carries its price. */
  predicate PriceAgrees(cart: Cart, p: Product) {
    forall i :: 0 <= i < |cart| && cart[i].id == p.id ==> cart[i].precio == p.precio
  }

  /** Position of the first entry with the given id (`cart.find`). */
  function IndexOf(cart: Cart, id: int): (k: nat)
    requires HasId(cart, id)
    ensures k < |cart| && cart[k].id == id
    ensures forall j :: 0 <= j < k ==> cart[j].id != id
  {
    if cart[0].id == id then 0
    else
      assert HasId(cart[1..], id) by {
        var i :| 0 <= i < |cart| && cart[i].id == id;
        assert cart[1..][i - 1].id == id;
      }
      1 + IndexOf(cart[1..], id)
  }

  /** In a cart with unique ids, the entry with a given id is the only one. */
  lemma IndexOfUnique(cart: Cart, id: int, i: int)
    requires UniqueIds(cart) && HasId(cart, id)
    requires 0 <= i < |cart| && cart[i].id == id
    ensures i == IndexOf(cart, id)
  {
  }

  // ---------------------------------------------------------------------
  // Reductions: the total and the badge count
  // ---------------------------------------------------------------------

  /** The price of one entry: `item.precio * item.cantidad`. */
  function Subtotal(e: LineItem): int {
    e.precio * e.cantidad
  }

  /** Σ f(e) over the entries of the cart. */
  function Sum(cart: Cart, f: LineItem -> int): int {
    if cart == [] then 0 else f(cart[0]) + Sum(cart[1..], f)
  }

  function Quantity(e: LineItem): int {
    e.cantidad
  }

  /** `cart.reduce((sum, item) => sum + item.precio * item.cantidad, 0)`. */
  function Total(cart: Cart): int {
    Sum(cart, Subtotal)
  }

  /** `cart.reduce((sum, item) => sum + item.cantidad, 0)`. */
  function ItemCount(cart: Cart): int {
    Sum(cart, Quantity)
  }

  lemma {:induction false} SumAppend(a: Cart, b: Cart, f: LineItem -> int)
    ensures Sum(a + b, f) == Sum(a, f) + Sum(b, f)
  {
    if a == [] {
      assert a + b == b;
    } else {
      assert (a + b)[1..] == a[1..] + b;
      SumAppend(a[1..], b, f);
    }
  }

  lemma SumSingleton(e: LineItem, f: LineItem -> int)
    ensures Sum([e], f) == f(e)
  {
    assert [e][1..] == [];
  }

  /** Replacing one entry changes a reduction by exactly that entry's difference. */
  lemma SumUpdate(cart: Cart, k: nat, e: LineItem, f: LineItem -> int)
    requires k < |cart|
    ensures Sum(cart[k := e], f) == Sum(cart, f) - f(cart[k]) + f(e)
  {
    assert cart == cart[..k] + [cart[k]] + cart[k + 1..];
    assert cart[k := e] == cart[..k] + [e] + cart[k + 1..];
    SumAppend(cart[..k] + [cart[k]], cart[k + 1..], f);
    SumAppend(cart[..k], [cart[k]], f);
    SumAppend(cart[..k] + [e], cart[k + 1..], f);
    SumAppend(cart[..k], [e], f);
    SumSingleton(cart[k], f);
    SumSingleton(e, f);
  }

  /** Deleting one entry takes exactly that entry's share off a reduction. */
  lemma {:induction false} SumDelete(cart: Cart, k: nat, f: LineItem -> int)
    requires k < |cart|
    ensures Sum(cart[..k] + cart[k + 1..], f) == Sum(cart, f) - f(cart[k])
  {
    if k == 0 {
      assert cart[..0] + cart[1..] == cart[1..];
    } else {
      var tail := cart[1..];
      assert cart[..k] + cart[k + 1..] == [cart[0]] + (tail[..k - 1] + tail[k..]);
      SumDelete(tail, k - 1, f);
    }
  }

  /** The total is additive over concatenation of carts. */
  lemma TotalAppend(a: Cart, b: Cart)
    ensures Total(a + b) == Total(a) + Total(b)
    ensures Total([]) == 0
    ensures |b| == 1 ==> Total(a + b) == Total(a) + Subtotal(b[0])
  {
    SumAppend(a, b, Subtotal);
    if |b| == 1 {
      assert b == [b[0]];
      SumSingleton(b[0], Subtotal);
    }
  }

  /** The badge count is additive over concatenation of carts. */
  lemma ItemCountAppend(a: Cart, b: Cart)
    ensures ItemCount(a + b) == ItemCount(a) + ItemCount(b)
    ensures ItemCount([]) == 0
    ensures |b| == 1 ==> ItemCount(a + b) == ItemCount(a) + b[0].cantidad
  {
    SumAppend(a, b, Quantity);
    if |b| == 1 {
      assert b == [b[0]];
      SumSingleton(b[0], Quantity);
    }
  }

  /** With positive quantities the total is never negative and every unit counts once in the badge. */
  lemma {:induction false} ReductionBounds(cart: Cart)
    ensures PositiveQuantities(cart) ==> Total(cart) >= 0
    ensures PositiveQuantities(cart) ==> ItemCount(cart) >= |cart|
  {
    if cart != [] && PositiveQuantities(cart) {
      ReductionBounds(cart[1..]);
      assert Subtotal(cart[0]) >= 0;
    }
  }

  /**
   * The number on the cart badge: shown only for a non-empty cart, where it
   * is the count of units ordered.
   */
  function Badge(cart: Cart): (b: Option<int>)
    ensures b.Some? <==> |cart| > 0
    ensures b.Some? && PositiveQuantities(cart) ==> b.value >= |cart| >= 1
  {
    if |cart| > 0 then
      ReductionBounds(cart);
      Some(ItemCount(cart))
    else None
  }

  /**
   * The reduction the cart, payment and confirmation screens each perform,
   * as the left-to-right accumulation `reduce` does; it always agrees with
   * the recursive Total.
   */
  method ComputeTotal(cart: Cart) returns (sum: int)
    ensures sum == Total(cart)
  {
    sum := 0;
    var i := 0;
    while i < |cart|
      invariant 0 <= i <= |cart|
      invariant sum == Total(cart[..i])
    {
      assert cart[..i + 1] == cart[..i] + [cart[i]];
      TotalAppend(cart[..i], [cart[i]]);
      sum := sum + cart[i].precio * cart[i].cantidad;
      i := i + 1;
    }
    assert cart[..i] == cart;
  }

  /** The badge reduction, accumulated left to right; agrees with ItemCount. */
  method ComputeItemCount(cart: Cart) returns (count: int)
    ensures count == ItemCount(cart)
  {
    count := 0;
    var i := 0;
    while i < |cart|
      invariant 0 <= i <= |cart|
      invariant count == ItemCount(cart[..i])
    {
      assert cart[..i + 1] == cart[..i] + [cart[i]];
      ItemCountAppend(cart[..i], [cart[i]]);
      count := count + cart[i].cantidad;
      i := i + 1;
    }
    assert cart[..i] == cart;
  }

  // ---------------------------------------------------------------------
  // addToCart
  // ---------------------------------------------------------------------

  /** The `map` of the merge branch: every entry with the id gains one unit. */
  function Bump(cart: Cart, id: int): Cart {
    seq(|cart|, i requires 0 <= i < |cart| =>
      if cart[i].id == id then cart[i].(cantidad := cart[i].cantidad + 1) else cart[i])
  }

  /**
   * Pressing "Agregar" on a product: a product already in the cart gains
   * one unit in place, any other product is appended with quantity one.
   */
  function AddToCart(cart: Cart, item: Product): (r: Cart)
    ensures HasId(cart, item.id) && UniqueIds(cart) ==>
      var k := IndexOf(cart, item.id);
      r == cart[k := cart[k].(cantidad := cart[k].cantidad + 1)]
    ensures !HasId(cart, item.id) ==> r == cart + [Entry(item, 1)]
  {
    if HasId(cart, item.id) then Bump(cart, item.id) else cart + [Entry(item, 1)]
  }

  lemma AddToCartValid(cart: Cart, item: Product)
    requires Valid(cart)
    ensures Valid(AddToCart(cart, item))
    ensures HasId(AddToCart(cart, item), item.id)
  {
    var r := AddToCart(cart, item);
    if HasId(cart, item.id) {
      var k := IndexOf(cart, item.id);
      assert r[k].id == item.id;
    } else {
      assert r[|cart|].id == item.id;
    }
  }

  /** Each add puts exactly one more unit on the badge. */
  lemma AddToCartItemCount(cart: Cart, item: Product)
    requires Valid(cart)
    ensures ItemCount(AddToCart(cart, item)) == ItemCount(cart) + 1
  {
    if HasId(cart, item.id) {
      var k := IndexOf(cart, item.id);
      SumUpdate(cart, k, cart[k].(cantidad := cart[k].cantidad + 1), Quantity);
    } else {
      ItemCountAppend(cart, [Entry(item, 1)]);
    }
  }

  /** Each add raises the total by exactly the product's price, as long as the cart prices that id the same way. */
  lemma AddToCartTotal(cart: Cart, item: Product)
    requires Valid(cart) && PriceAgrees(cart, item)
    ensures Total(AddToCart(cart, item)) == Total(cart) + item.precio
  {
    if HasId(cart, item.id) {
      var k := IndexOf(cart, item.id);
      var e := cart[k].(cantidad := cart[k].cantidad + 1);
      SumUpdate(cart, k, e, Subtotal);
      assert Subtotal(e) == Subtotal(cart[k]) + item.precio;
    } else {
      TotalAppend(cart, [Entry(item, 1)]);
    }
  }

  /** Pressing "Agregar" once for each product of `items`, in order. */
  function AddEach(cart: Cart, items: seq<Product>): Cart
    decreases |items|
  {
    if items == [] then cart else AddEach(AddToCart(cart, items[0]), items[1..])
  }

  /** Σ precio over a sequence of products. */
  function PriceSum(items: seq<Product>): int {
    if items == [] then 0 else items[0].precio + PriceSum(items[1..])
  }

  /** A sequence of products in which each id always comes with the same price. */
  predicate ConsistentPrices(items: seq<Product>) {
    forall i, j :: 0 <= i < |items| && 0 <= j < |items| && items[i].id == items[j].id ==>
      items[i].precio == items[j].precio
  }

  /** After any sequence of adds the badge has grown by the number of adds. */
  lemma {:induction false} AddEachItemCount(cart: Cart, items: seq<Product>)
    requires Valid(cart)
    ensures Valid(AddEach(cart, items))
    ensures ItemCount(AddEach(cart, items)) == ItemCount(cart) + |items|
    decreases |items|
  {
    if items != [] {
      AddToCartValid(cart, items[0]);
      AddToCartItemCount(cart, items[0]);
      AddEachItemCount(AddToCart(cart, items[0]), items[1..]);
    }
  }

  /**
   * After any sequence of adds the total has grown by the sum of the added
   * prices, provided the cart and the products agree on every id's price.
   */
  lemma {:induction false} AddEachTotal(cart: Cart, items: seq<Product>)
    requires Valid(cart) && ConsistentPrices(items)
    requires forall j :: 0 <= j < |items| ==> PriceAgrees(cart, items[j])
    ensures Total(AddEach(cart, items)) == Total(cart) + PriceSum(items)
    decreases |items|
  {
    if items != [] {
      var p := items[0];
      var next := AddToCart(cart, p);
      AddToCartTotal(cart, p);
      AddToCartValid(cart, p);
      forall j | 0 <= j < |items[1..]|
        ensures PriceAgrees(next, items[1..][j])
      {
        var q := items[1..][j];
        assert q == items[j + 1];
        forall i | 0 <= i < |next| && next[i].id == q.id
          ensures next[i].precio == q.precio
        {
          if i < |cart| {
            assert next[i].precio == cart[i].precio && next[i].id == cart[i].id;
          } else {
            assert next[i] == Entry(p, 1);
          }
        }
      }
      AddEachTotal(next, items[1..]);
    }
  }

  /** Starting from the empty cart, the badge counts the adds. */
  lemma AddEachFromEmpty(items: seq<Product>)
    ensures ItemCount(AddEach([], items)) == |items|
  {
    AddEachItemCount([], items);
  }

  // ---------------------------------------------------------------------
  // updateQuantity
  // ---------------------------------------------------------------------

  /** The `map` callback of updateQuantity: a matching entry moves by delta only if it stays positive. */
  function Adjust(e: LineItem, id: int, delta: int): LineItem {
    if e.id == id then
      var q := e.cantidad + delta;
      if q > 0 then e.(cantidad := q) else e
    else e
  }

  /** `.filter(item => item.cantidad > 0)`. */
  function KeepPositive(cart: Cart): (r: Cart)
    ensures |r| <= |cart|
    ensures forall i :: 0 <= i < |r| ==> r[i].cantidad > 0
    ensures forall e :: e in r <==> e in cart && e.cantidad > 0
    ensures r == cart <==> PositiveQuantities(cart)
  {
    if cart == [] then []
    else (if cart[0].cantidad > 0 then [cart[0]] else []) + KeepPositive(cart[1..])
  }

  /** The filter keeps the relative order of what stays: it distributes over concatenation. */
  lemma {:induction false} KeepPositiveAppend(a: Cart, b: Cart)
    ensures KeepPositive(a + b) == KeepPositive(a) + KeepPositive(b)
  {
    if a == [] {
      assert a + b == b;
    } else {
      var head := if a[0].cantidad > 0 then [a[0]] else [];
      assert (a + b)[0] == a[0];
      assert (a + b)[1..] == a[1..] + b;
      calc {
        KeepPositive(a + b);
        head + KeepPositive(a[1..] + b);
        { KeepPositiveAppend(a[1..], b); }
        head + (KeepPositive(a[1..]) + KeepPositive(b));
        (head + KeepPositive(a[1..])) + KeepPositive(b);
        KeepPositive(a) + KeepPositive(b);
      }
    }
  }

  /** The "-" and "+" buttons of the cart screen. */
  function UpdateQuantity(cart: Cart, id: int, delta: int): (r: Cart)
    ensures PositiveQuantities(cart) ==> |r| == |cart|
    ensures PositiveQuantities(cart) ==> forall i :: 0 <= i < |cart| ==>
      && ProductOf(r[i]) == ProductOf(cart[i])
      && r[i].cantidad == (if cart[i].id == id && cart[i].cantidad + delta > 0
                           then cart[i].cantidad + delta else cart[i].cantidad)
  {
    KeepPositive(seq(|cart|, i requires 0 <= i < |cart| => Adjust(cart[i], id, delta)))
  }

  lemma UpdateQuantityValid(cart: Cart, id: int, delta: int)
    requires Valid(cart)
    ensures Valid(UpdateQuantity(cart, id, delta))
  {
  }

  /** An id that is not in the cart, or a move that would not stay positive, leaves the cart as it was. */
  lemma UpdateQuantityNoOp(cart: Cart, id: int, delta: int)
    requires Valid(cart)
    requires !HasId(cart, id) || cart[IndexOf(cart, id)].cantidad + delta <= 0
    ensures UpdateQuantity(cart, id, delta) == cart
  {
  }

  /** "-" on an entry with one unit: the entry stays, still with one unit. */
  lemma DecrementAtOneKeepsEntry(cart: Cart, k: nat)
    requires Valid(cart) && k < |cart| && cart[k].cantidad == 1
    ensures UpdateQuantity(cart, cart[k].id, -1) == cart
  {
  }

  lemma Distribute(p: int, q: int, d: int)
    ensures p * (q + d) == p * q + p * d
  {
  }

  /** In a valid cart, a move that stays positive rewrites exactly the one matching entry. */
  lemma UpdateQuantityPointUpdate(cart: Cart, id: int, delta: int)
    requires Valid(cart) && HasId(cart, id)
    requires cart[IndexOf(cart, id)].cantidad + delta > 0
    ensures var k := IndexOf(cart, id);
      UpdateQuantity(cart, id, delta) == cart[k := cart[k].(cantidad := cart[k].cantidad + delta)]
  {
  }

  /** A move that stays positive shifts the total by price times delta and the badge by delta. */
  lemma UpdateQuantityTotals(cart: Cart, id: int, delta: int)
    requires Valid(cart) && HasId(cart, id)
    requires cart[IndexOf(cart, id)].cantidad + delta > 0
    ensures var k := IndexOf(cart, id);
      && Total(UpdateQuantity(cart, id, delta)) == Total(cart) + cart[k].precio * delta
      && ItemCount(UpdateQuantity(cart, id, delta)) == ItemCount(cart) + delta
  {
    var k := IndexOf(cart, id);
    var e := cart[k].(cantidad := cart[k].cantidad + delta);
    UpdateQuantityPointUpdate(cart, id, delta);
    SumUpdate(cart, k, e, Subtotal);
    SumUpdate(cart, k, e, Quantity);
    Distribute(cart[k].precio, cart[k].cantidad, delta);
  }

  // ---------------------------------------------------------------------
  // removeItem
  // ---------------------------------------------------------------------

  /** The trash button: `cart.filter(item => item.id !== id)`. */
  function RemoveItem(cart: Cart, id: int): (r: Cart)
    ensures |r| <= |cart|
    ensures !HasId(r, id)
    ensures forall e :: e in r <==> e in cart && e.id != id
    ensures !HasId(cart, id) ==> r == cart
  {
    if cart == [] then []
    else (if cart[0].id != id then [cart[0]] else []) + RemoveItem(cart[1..], id)
  }

  /** Removal keeps the relative order of what stays: it distributes over concatenation. */
  lemma {:induction false} RemoveItemAppend(a: Cart, b: Cart, id: int)
    ensures RemoveItem(a + b, id) == RemoveItem(a, id) + RemoveItem(b, id)
  {
    if a == [] {
      assert a + b == b;
    } else {
      assert (a + b)[1..] == a[1..] + b;
      RemoveItemAppend(a[1..], b, id);
    }
  }

  /** In a cart with unique ids, removing a present id deletes exactly its one entry. */
  lemma {:induction false} RemoveItemDeletesOne(cart: Cart, id: int)
    requires UniqueIds(cart) && HasId(cart, id)
    ensures var k := IndexOf(cart, id);
      RemoveItem(cart, id) == cart[..k] + cart[k + 1..]
  {
    var tail := cart[1..];
    var k := IndexOf(cart, id);
    if cart[0].id == id {
      HeadIdNotInTail(cart);
      assert cart[..k] + cart[k + 1..] == tail;
    } else {
      assert tail[k - 1] == cart[k];
      UniqueTail(cart);
      RemoveItemDeletesOne(tail, id);
      DeleteAfterHead(cart, k);
    }
  }

  lemma HeadIdNotInTail(cart: Cart)
    requires UniqueIds(cart) && cart != []
    ensures !HasId(cart[1..], cart[0].id)
  {
    forall i | 0 <= i < |cart| - 1
      ensures cart[1..][i].id != cart[0].id
    {
      assert cart[1..][i] == cart[i + 1];
    }
  }

  lemma UniqueTail(cart: Cart)
    requires UniqueIds(cart) && cart != []
    ensures UniqueIds(cart[1..])
  {
    forall i, j | 0 <= i < j < |cart| - 1
      ensures cart[1..][i].id != cart[1..][j].id
    {
      assert cart[1..][i] == cart[i + 1] && cart[1..][j] == cart[j + 1];
    }
  }

  /** Deleting entry `k > 0` keeps the head and deletes entry `k - 1` of the tail. */
  lemma DeleteAfterHead(cart: Cart, k: nat)
    requires 0 < k < |cart|
    ensures cart[..k] + cart[k + 1..] == [cart[0]] + (cart[1..][..k - 1] + cart[1..][k..])
  {
    assert cart[..k] == [cart[0]] + cart[1..][..k - 1];
    assert cart[k + 1..] == cart[1..][k..];
  }

  /**
   * In a valid cart, removing a present id takes that entry's subtotal and
   * units off the total and the badge.
   */
  lemma RemoveItemTotals(cart: Cart, id: int)
    requires Valid(cart) && HasId(cart, id)
    ensures var k := IndexOf(cart, id);
      && Total(RemoveItem(cart, id)) == Total(cart) - Subtotal(cart[k])
      && ItemCount(RemoveItem(cart, id)) == ItemCount(cart) - cart[k].cantidad
  {
    var k := IndexOf(cart, id);
    RemoveItemDeletesOne(cart, id);
    SumDelete(cart, k, Subtotal);
    SumDelete(cart, k, Quantity);
  }

  /** Deleting one entry keeps a cart valid. */
  lemma DeleteValid(cart: Cart, k: nat)
    requires Valid(cart) && k < |cart|
    ensures Valid(cart[..k] + cart[k + 1..])
  {
    var r := cart[..k] + cart[k + 1..];
    assert forall i :: 0 <= i < |r| ==> r[i] == cart[if i < k then i else i + 1];
  }

  lemma RemoveItemValid(cart: Cart, id: int)
    requires Valid(cart)
    ensures Valid(RemoveItem(cart, id))
  {
    if HasId(cart, id) {
      RemoveItemDeletesOne(cart, id);
      DeleteValid(cart, IndexOf(cart, id));
    }
  }
}
