/** The cafeteria of src/pages/client/ClientCafeteria.tsx: a cart that maps
    product ids to quantities, its total over the fixed product table, and
    the order that empties it into `cybercafe_orders`. Prices are in cents. */
module Cafeteria {
  import opened Records
  import opened Store

  datatype Category = Bebidas | Snacks

  datatype Product = Product(id: string, name: string, priceCents: nat, category: Category)

  const Products: seq<Product> := [
    Product("1", "Coca Cola", 250, Bebidas),
    Product("2", "Agua", 150, Bebidas),
    Product("3", "Red Bull", 350, Bebidas),
    Product("4", "Café", 200, Bebidas),
    Product("5", "Papas Fritas", 200, Snacks),
    Product("6", "Doritos", 250, Snacks),
    Product("7", "Chocolate", 150, Snacks),
    Product("8", "Sandwich", 500, Snacks)
  ]

  type Cart = map<string, int>

  predicate DistinctIds(ps: seq<Product>) {
    forall i, j :: 0 <= i < j < |ps| ==> ps[i].id != ps[j].id
  }

  lemma ProductIdsDistinct()
    ensures DistinctIds(Products)
  {
  }

  /** `products.find(x => x.id === id)?.price || 0`, over any product list. */
  function PriceIn(ps: seq<Product>, id: string): (cents: nat)
    ensures (forall i :: 0 <= i < |ps| ==> ps[i].id != id) ==> cents == 0
    ensures forall i :: 0 <= i < |ps| && ps[i].id == id && (forall j :: 0 <= j < i ==> ps[j].id != id) ==>
      cents == ps[i].priceCents
  {
    if ps == [] then 0 else if ps[0].id == id then ps[0].priceCents else PriceIn(ps[1..], id)
  }

  function PriceOf(id: string): nat {
    PriceIn(Products, id)
  }

  /** `cart[id] || 0`. */
  function Qty(cart: Cart, id: string): int {
    if id in cart then cart[id] else 0
  }

  /** Every quantity in the cart is at least one. */
  predicate CartValid(cart: Cart) {
    forall id :: id in cart ==> cart[id] >= 1
  }

  /** `addToCart`: one more of `id`, an absent entry counting as zero. */
  function AddToCart(cart: Cart, id: string): (r: Cart)
    ensures r.Keys == cart.Keys + {id}
    ensures Qty(r, id) == Qty(cart, id) + 1
    ensures forall k :: k != id ==> Qty(r, k) == Qty(cart, k)
  {
    cart[id := Qty(cart, id) + 1]
  }

  /** `removeFromCart`: one fewer of `id`; the entry disappears when its
      quantity was one, and an absent id changes nothing. */
  function RemoveFromCart(cart: Cart, id: string): (r: Cart)
    ensures id !in cart ==> r == cart
    ensures id in cart && cart[id] > 1 ==> r.Keys == cart.Keys && r[id] == cart[id] - 1
    ensures id in cart && cart[id] <= 1 ==> r.Keys == cart.Keys - {id}
    ensures forall k :: k != id ==> Qty(r, k) == Qty(cart, k)
  {
    if id in cart && cart[id] > 1 then cart[id := cart[id] - 1] else cart - {id}
  }

  /** Both cart operations keep every quantity at least one. */
  lemma CartOpsKeepValid(cart: Cart, id: string)
    requires CartValid(cart)
    ensures CartValid(AddToCart(cart, id))
    ensures CartValid(RemoveFromCart(cart, id))
  {
  }

  /** Removing right after adding gives the original cart back. */
  lemma RemoveUndoesAdd(cart: Cart, id: string)
    requires CartValid(cart)
    ensures RemoveFromCart(AddToCart(cart, id), id) == cart
  {
    var r := RemoveFromCart(AddToCart(cart, id), id);
    assert r.Keys == cart.Keys;
    assert forall k :: k in r ==> r[k] == cart[k];
  }

  /** The source's fold over `Object.entries(cart)`, summing price times
      quantity, written independently of the order of the entries. */
  ghost function EntrySum(ps: seq<Product>, cart: Cart): int
    decreases |cart|
  {
    if cart == map[] then 0
    else
      var id := AnyKey(cart);
      PriceIn(ps, id) * cart[id] + EntrySum(ps, cart - {id})
  }

  /** Some entry of a non-empty cart, no matter which. */
  ghost function AnyKey(cart: Cart): (id: string)
    requires cart != map[]
    ensures id in cart
  {
    var id :| id in cart; id
  }

  /** The fold may take the entries in any order. */
  lemma {:induction false} EntrySumRemove(ps: seq<Product>, cart: Cart, id: string)
    requires id in cart
    ensures EntrySum(ps, cart) == PriceIn(ps, id) * cart[id] + EntrySum(ps, cart - {id})
    decreases |cart|
  {
    var k := AnyKey(cart);
    assert EntrySum(ps, cart) == PriceIn(ps, k) * cart[k] + EntrySum(ps, cart - {k});
    if k != id {
      var rest := cart - {k} - {id};
      assert rest == cart - {id} - {k};
      assert |cart - {k}| < |cart|;
      EntrySumRemove(ps, cart - {k}, id);
      EntrySumRemove(ps, cart - {id}, k);
    }
  }

  /** Price times quantity summed over a product list. */
  function ProductSum(ps: seq<Product>, cart: Cart): int {
    if ps == [] then 0 else ps[0].priceCents * Qty(cart, ps[0].id) + ProductSum(ps[1..], cart)
  }

  /** Two carts that differ only at `id` have totals that differ by that
      product's price times the difference in quantity. */
  lemma {:induction false} ProductSumDiff(ps: seq<Product>, c1: Cart, c2: Cart, id: string)
    requires DistinctIds(ps)
    requires forall k :: k != id ==> Qty(c1, k) == Qty(c2, k)
    ensures ProductSum(ps, c1) - ProductSum(ps, c2) == PriceIn(ps, id) * (Qty(c1, id) - Qty(c2, id))
  {
    if ps != [] {
      ProductSumDiff(ps[1..], c1, c2, id);
      var p := ps[0];
      if p.id == id {
        assert forall i :: 0 <= i < |ps[1..]| ==> ps[1..][i].id != id by {
          forall i | 0 <= i < |ps[1..]| ensures ps[1..][i].id != id {
            assert ps[1..][i] == ps[i + 1];
          }
        }
        assert PriceIn(ps[1..], id) == 0;
      }
      assert p.priceCents * Qty(c1, p.id) - p.priceCents * Qty(c2, p.id)
          == p.priceCents * (Qty(c1, p.id) - Qty(c2, p.id));
    }
  }

  lemma {:induction false} ProductSumEmpty(ps: seq<Product>)
    ensures ProductSum(ps, map[]) == 0
  {
    if ps != [] {
      ProductSumEmpty(ps[1..]);
    }
  }

  /** Over a product list with distinct ids, the sum over the list equals
      the fold over the cart's entries, ids that are not products
      contributing nothing. */
  lemma {:induction false} ProductSumIsEntrySum(ps: seq<Product>, cart: Cart)
    requires DistinctIds(ps)
    ensures ProductSum(ps, cart) == EntrySum(ps, cart)
    decreases |cart|
  {
    if cart == map[] {
      ProductSumEmpty(ps);
    } else {
      var id :| id in cart;
      EntrySumRemove(ps, cart, id);
      ProductSumIsEntrySum(ps, cart - {id});
      ProductSumDiff(ps, cart, cart - {id}, id);
    }
  }

  /** `getTotal`, in cents: computed as a sum over the product table, it is
      the source's fold over the cart's entries, in any order. */
  function Total(cart: Cart): (total: int)
    ensures total == EntrySum(Products, cart)
  {
    ProductIdsDistinct();
    ProductSumIsEntrySum(Products, cart);
    ProductSum(Products, cart)
  }

  /** Adding one item raises the sum by its price (0 for an unknown id). */
  lemma ProductSumAfterAdd(ps: seq<Product>, cart: Cart, id: string)
    requires DistinctIds(ps)
    ensures ProductSum(ps, AddToCart(cart, id)) == ProductSum(ps, cart) + PriceIn(ps, id)
  {
    ProductSumDiff(ps, AddToCart(cart, id), cart, id);
  }

  /** Removing one lowers the sum by the price when the id was in the cart,
      and leaves it alone otherwise. */
  lemma ProductSumAfterRemove(ps: seq<Product>, cart: Cart, id: string)
    requires DistinctIds(ps) && CartValid(cart)
    ensures id in cart ==> ProductSum(ps, RemoveFromCart(cart, id)) == ProductSum(ps, cart) - PriceIn(ps, id)
    ensures id !in cart ==> ProductSum(ps, RemoveFromCart(cart, id)) == ProductSum(ps, cart)
  {
    if id in cart {
      var r := RemoveFromCart(cart, id);
      assert Qty(r, id) == Qty(cart, id) - 1 by {
        if cart[id] <= 1 {
          assert id !in r;
        }
      }
      ProductSumDiff(ps, r, cart, id);
    }
  }

  /** The cart operations move the page's total by exactly one price. */
  lemma TotalAfterCartOps(cart: Cart, id: string)
    requires CartValid(cart)
    ensures Total(AddToCart(cart, id)) == Total(cart) + PriceOf(id)
    ensures id in cart ==> Total(RemoveFromCart(cart, id)) == Total(cart) - PriceOf(id)
    ensures id !in cart ==> Total(RemoveFromCart(cart, id)) == Total(cart)
  {
    ProductIdsDistinct();
    ProductSumAfterAdd(Products, cart, id);
    ProductSumAfterRemove(Products, cart, id);
  }

  /** The cafeteria page: the cart is component state, orders go to the store. */
  class CafeteriaPage {
    const store: LocalStore
    var cart: Cart

    ghost predicate Valid()
      reads this, store
    {
      store.Valid() && CartValid(cart)
    }

    constructor (store: LocalStore)
      requires store.Valid()
      ensures this.store == store && Valid() && cart == map[]
    {
      this.store := store;
      cart := map[];
    }

    method AddItem(id: string)
      requires Valid()
      modifies this
      ensures Valid() && cart == AddToCart(old(cart), id)
    {
      CartOpsKeepValid(cart, id);
      cart := AddToCart(cart, id);
    }

    method RemoveItem(id: string)
      requires Valid()
      modifies this
      ensures Valid() && cart == RemoveFromCart(old(cart), id)
    {
      CartOpsKeepValid(cart, id);
      cart := RemoveFromCart(cart, id);
    }

    /** `handleOrder`: an empty cart is refused and nothing is written;
        otherwise exactly one order with the cart, its total and the date is
        appended, and the cart is emptied. */
    method HandleOrder(date: string) returns (ok: bool)
      requires Valid()
      modifies this, store
      ensures Valid()
      ensures ok <==> old(cart) != map[]
      ensures !ok ==> cart == old(cart) && store.Snapshot() == old(store.Snapshot())
      ensures ok ==> cart == map[]
      ensures ok ==>
        store.Snapshot() == old(store.Snapshot()).(orders := old(store.orders) + [Order(old(cart), Total(old(cart)), date)])
    {
      if |cart.Keys| == 0 {
        assert cart == map[];
        return false;
      }
      store.orders := store.orders + [Order(cart, Total(cart), date)];
      cart := map[];
      ok := true;
    }
  }
}
