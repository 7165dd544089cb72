/** The cart store: a list of `{id, quantity}` items, the `addToCart`
    transition and the item count. Every effective change writes the new
    list to browser storage; the store keeps that last written snapshot. */
module ShoppingCart {
  import opened Options

  datatype CartItem = CartItem(id: int, quantity: int)

  /** `items` is the state the page reads; `stored` is the list last written
      under the storage key, absent until the first write. */
  datatype CartStore = CartStore(items: seq<CartItem>, stored: Option<seq<CartItem>>)

  /** `cartItems.some(item => item.id === productId)`. */
  predicate HasId(items: seq<CartItem>, id: int) {
    exists i | 0 <= i < |items| :: items[i].id == id
  }

  /** How many items carry `id`. */
  function CountId(items: seq<CartItem>, id: int): (n: nat)
    ensures n <= |items|
    ensures n == 0 <==> !HasId(items, id)
  {
    if |items| == 0 then 0
    else
      var k := CountId(items[..|items| - 1], id);
      assert forall i | 0 <= i < |items| - 1 :: items[..|items| - 1][i] == items[i];
      k + (if items[|items| - 1].id == id then 1 else 0)
  }

  /** The `map` of `addToCart`: every item with `id` gains `quantity`. */
  function Merge(items: seq<CartItem>, id: int, quantity: int): (r: seq<CartItem>)
    ensures |r| == |items|
    ensures forall i | 0 <= i < |items| ::
      r[i] == if items[i].id == id then items[i].(quantity := items[i].quantity + quantity) else items[i]
  {
    if |items| == 0 then []
    else
      var rest := Merge(items[..|items| - 1], id, quantity);
      var last := items[|items| - 1];
      rest + [if last.id == id then last.(quantity := last.quantity + quantity) else last]
  }

  /** `addToCart(productId, quantity)`. */
  function AddToCart(store: CartStore, productId: int, quantity: int): (r: CartStore)
    ensures quantity <= 0 ==> r == store
    ensures quantity > 0 ==> r.stored == Some(r.items)
  {
    if quantity <= 0 then store
    else
      var newList :=
        if HasId(store.items, productId) then Merge(store.items, productId, quantity)
        else store.items + [CartItem(productId, quantity)];
      CartStore(newList, Some(newList))
  }

  /** `quantityOfItems`: the sum of the quantities, folded left from 0. */
  function QuantityOfItems(items: seq<CartItem>): int {
    if |items| == 0 then 0
    else QuantityOfItems(items[..|items| - 1]) + items[|items| - 1].quantity
  }

  /** No two items share an id. */
  ghost predicate UniqueIds(items: seq<CartItem>) {
    forall i, j | 0 <= i < j < |items| :: items[i].id != items[j].id
  }

  // ---------------------------------------------------------------------
  // Properties.

  /** An effective add of a present id changes only the items with that id,
      by exactly `quantity`, keeping length and order; of a new id, appends
      one item and keeps the earlier ones. */
  lemma AddToCartMergesOrAppends(store: CartStore, productId: int, quantity: int)
    requires quantity > 0
    ensures var r := AddToCart(store, productId, quantity);
      && (HasId(store.items, productId) ==>
            && |r.items| == |store.items|
            && forall i | 0 <= i < |store.items| ::
                 && r.items[i].id == store.items[i].id
                 && r.items[i].quantity == store.items[i].quantity + (if store.items[i].id == productId then quantity else 0))
      && (!HasId(store.items, productId) ==>
            && |r.items| == |store.items| + 1
            && r.items[..|store.items|] == store.items
            && r.items[|store.items|] == CartItem(productId, quantity))
  {
  }

  /** Unique ids stay unique. */
  lemma AddToCartKeepsIdsUnique(store: CartStore, productId: int, quantity: int)
    requires UniqueIds(store.items)
    ensures UniqueIds(AddToCart(store, productId, quantity).items)
  {
    var r := AddToCart(store, productId, quantity);
    if quantity > 0 && !HasId(store.items, productId) {
      forall i, j | 0 <= i < j < |r.items| ensures r.items[i].id != r.items[j].id {
        if j == |store.items| {
          assert r.items[i] == store.items[i];
        } else {
          assert r.items[i] == store.items[i] && r.items[j] == store.items[j];
        }
      }
    }
  }

  lemma QuantityOfItemsAppend(items: seq<CartItem>, item: CartItem)
    ensures QuantityOfItems(items + [item]) == QuantityOfItems(items) + item.quantity
  {
    assert (items + [item])[..|items|] == items;
  }

  lemma MergeLast(items: seq<CartItem>, id: int, quantity: int)
    requires |items| > 0
    ensures var last := items[|items| - 1];
      Merge(items, id, quantity)
      == Merge(items[..|items| - 1], id, quantity)
         + [if last.id == id then last.(quantity := last.quantity + quantity) else last]
  {
  }

  /** One more matching item adds `q` once more (kept apart so that the
      non-linear step is proved in a small context). */
  lemma Distribute(q: int, k: int)
    ensures q * (k + 1) == q * k + q
  {
  }

  /** Merging adds `quantity` once per item carrying the id. */
  lemma {:induction false} QuantityOfItemsMerge(items: seq<CartItem>, id: int, quantity: int)
    ensures QuantityOfItems(Merge(items, id, quantity)) == QuantityOfItems(items) + quantity * CountId(items, id)
  {
    if |items| > 0 {
      var init := items[..|items| - 1];
      var last := items[|items| - 1];
      QuantityOfItemsMerge(init, id, quantity);
      var newLast := if last.id == id then last.(quantity := last.quantity + quantity) else last;
      MergeLast(items, id, quantity);
      QuantityOfItemsAppend(Merge(init, id, quantity), newLast);
      Distribute(quantity, CountId(init, id));
    }
  }

  /** With unique ids, an id occurs at most once. */
  lemma {:induction false} CountIdUnique(items: seq<CartItem>, id: int)
    requires UniqueIds(items)
    ensures CountId(items, id) <= 1
  {
    if |items| > 0 {
      var init := items[..|items| - 1];
      CountIdUnique(init, id);
    }
  }

  /** An add with a positive quantity raises the item count by exactly that
      quantity when ids are unique; by that quantity once per duplicate
      otherwise. A non-positive quantity changes nothing. */
  lemma AddToCartCount(store: CartStore, productId: int, quantity: int)
    ensures var r := AddToCart(store, productId, quantity);
      && (quantity <= 0 ==> QuantityOfItems(r.items) == QuantityOfItems(store.items))
      && (quantity > 0 && HasId(store.items, productId) ==>
            QuantityOfItems(r.items) == QuantityOfItems(store.items) + quantity * CountId(store.items, productId))
      && (quantity > 0 && UniqueIds(store.items) ==>
            QuantityOfItems(r.items) == QuantityOfItems(store.items) + quantity)
  {
    if quantity > 0 {
      if HasId(store.items, productId) {
        QuantityOfItemsMerge(store.items, productId, quantity);
        if UniqueIds(store.items) {
          CountIdUnique(store.items, productId);
          assert CountId(store.items, productId) == 1;
          assert quantity * 1 == quantity;
        }
      } else {
        QuantityOfItemsAppend(store.items, CartItem(productId, quantity));
      }
    }
  }

  /** The count is the sum of the quantities: 0 for an empty cart, and it
      splits over concatenation. */
  lemma {:induction false} QuantityOfItemsConcat(a: seq<CartItem>, b: seq<CartItem>)
    ensures QuantityOfItems([]) == 0
    ensures QuantityOfItems(a + b) == QuantityOfItems(a) + QuantityOfItems(b)
  {
    if |b| > 0 {
      var init := b[..|b| - 1];
      QuantityOfItemsConcat(a, init);
      assert a + b == (a + init) + [b[|b| - 1]];
      QuantityOfItemsAppend(a + init, b[|b| - 1]);
    } else {
      assert a + b == a;
    }
  }

  /** Once the store and storage agree, they keep agreeing. */
  lemma AddToCartKeepsStorageInSync(store: CartStore, productId: int, quantity: int)
    requires store.stored == Some(store.items)
    ensures AddToCart(store, productId, quantity).stored == Some(AddToCart(store, productId, quantity).items)
  {
  }
}
