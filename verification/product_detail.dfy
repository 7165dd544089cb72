/** The product detail page: looking the product up, the default colour and
    size, the volume price, the quantity selector and the add-to-cart guard. */
module ProductDetail {
  import opened Options
  import opened Catalog

  // ---------------------------------------------------------------------
  // Lookup and default selection.

  /** `Array.prototype.find` by id: the first catalog product with that id. */
  function FindProduct(catalog: seq<Product>, id: int): (r: Option<Product>)
    ensures r.None? <==> forall i | 0 <= i < |catalog| :: catalog[i].id != id
    ensures r.Some? ==> exists i | 0 <= i < |catalog| :: catalog[i] == r.value
                          && r.value.id == id
                          && forall j | 0 <= j < i :: catalog[j].id != id
  {
    if |catalog| == 0 then None
    else if catalog[0].id == id then Some(catalog[0])
    else
      var r := FindProduct(catalog[1..], id);
      assert forall j | 1 <= j < |catalog| :: catalog[j] == catalog[1..][j - 1];
      if r.Some? then
        var i :| 0 <= i < |catalog[1..]| && catalog[1..][i] == r.value && r.value.id == id
                 && forall j | 0 <= j < i :: catalog[1..][j].id != id;
        assert catalog[i + 1] == r.value;
        r
      else r
  }

  /** What the page holds once the product is fetched. */
  datatype DetailState = DetailState(product: Option<Product>, color: string, size: string)

  /** The state the page starts in: nothing found yet, nothing selected. */
  const Initial := DetailState(None, "", "")

  /** `simulateproductFetch`: with a route id, looks up the product with the
      id `parseInt` reads from it (none when it reads no number) and
      preselects the first colour and the first size when there are any. */
  function FetchProduct(st: DetailState, catalog: seq<Product>, routeId: string,
                        parseInt: string -> Option<int>): DetailState
  {
    if routeId == "" then st
    else
      var found := match parseInt(routeId)
                   case None => None
                   case Some(id) => FindProduct(catalog, id);
      DetailState(
        found,
        if found.Some? && |found.value.colors| > 0 then found.value.colors[0] else st.color,
        if found.Some? && |found.value.sizes| > 0 then found.value.sizes[0] else st.size)
  }

  /** From the initial state, the page shows the first product with the
      parsed id, or "not found", and selects its first colour and size, or
      leaves the empty selection. */
  lemma FetchFromInitial(catalog: seq<Product>, routeId: string, parseInt: string -> Option<int>)
    requires routeId != ""
    ensures var st := FetchProduct(Initial, catalog, routeId, parseInt);
      && (parseInt(routeId).None? ==> st == Initial)
      && (parseInt(routeId).Some? ==> st.product == FindProduct(catalog, parseInt(routeId).value))
      && (st.product.Some? ==>
            && st.product.value.id == parseInt(routeId).value
            && st.color == (if |st.product.value.colors| > 0 then st.product.value.colors[0] else "")
            && st.size == (if |st.product.value.sizes| > 0 then st.product.value.sizes[0] else ""))
      && (st.product.None? ==> st.color == "" && st.size == "")
  {
  }

  // ---------------------------------------------------------------------
  // Volume pricing.

  /** The callback of `priceBreaks.map`, run left to right: a break whose
      threshold the quantity reaches replaces the current choice. */
  function ChooseBreak(breaks: seq<PriceBreak>, quantity: int, current: PriceBreak): PriceBreak {
    if |breaks| == 0 then current
    else ChooseBreak(breaks[1..], quantity, if breaks[0].minQty <= quantity then breaks[0] else current)
  }

  /** `productFinalPrice`. The starting choice has threshold 0, and any
      choice whose threshold is not positive yields the base price. */
  function FinalPrice(p: Product, quantity: int): (r: int)
    ensures r == p.basePrice || (p.priceBreaks.Some? && exists i | 0 <= i < |p.priceBreaks.value| :: p.priceBreaks.value[i].price == r)
  {
    match p.priceBreaks
    case None => p.basePrice
    case Some(breaks) =>
      var chosen := ChooseBreak(breaks, quantity, PriceBreak(0, p.basePrice));
      ChosenIsStartOrBreak(breaks, quantity, PriceBreak(0, p.basePrice));
      if chosen.minQty > 0 then chosen.price else p.basePrice
  }

  /** The position of the last break the quantity qualifies for. */
  ghost predicate IsLastQualifying(breaks: seq<PriceBreak>, quantity: int, i: int) {
    && 0 <= i < |breaks|
    && breaks[i].minQty <= quantity
    && forall j | i < j < |breaks| :: breaks[j].minQty > quantity
  }

  lemma {:induction false} ChosenIsStartOrBreak(breaks: seq<PriceBreak>, quantity: int, current: PriceBreak)
    ensures ChooseBreak(breaks, quantity, current) == current
         || exists i | 0 <= i < |breaks| :: breaks[i] == ChooseBreak(breaks, quantity, current)
  {
    if |breaks| > 0 {
      var next := if breaks[0].minQty <= quantity then breaks[0] else current;
      ChosenIsStartOrBreak(breaks[1..], quantity, next);
      var r := ChooseBreak(breaks, quantity, current);
      if r != next {
        var i :| 0 <= i < |breaks[1..]| && breaks[1..][i] == r;
        assert breaks[i + 1] == r;
      }
    }
  }

  /** The scan ends on the last qualifying break, or on its start when no
      break qualifies. */
  lemma {:induction false} ChooseBreakIsLast(breaks: seq<PriceBreak>, quantity: int, current: PriceBreak)
    ensures (forall j | 0 <= j < |breaks| :: breaks[j].minQty > quantity) ==>
              ChooseBreak(breaks, quantity, current) == current
    ensures forall i | IsLastQualifying(breaks, quantity, i) ::
              ChooseBreak(breaks, quantity, current) == breaks[i]
  {
    if |breaks| > 0 {
      var next := if breaks[0].minQty <= quantity then breaks[0] else current;
      ChooseBreakIsLast(breaks[1..], quantity, next);
      forall i | IsLastQualifying(breaks, quantity, i)
        ensures ChooseBreak(breaks, quantity, current) == breaks[i]
      {
        if i > 0 {
          assert IsLastQualifying(breaks[1..], quantity, i - 1);
        } else {
          assert forall j | 0 <= j < |breaks[1..]| :: breaks[1..][j].minQty > quantity;
        }
      }
      if forall j | 0 <= j < |breaks| :: breaks[j].minQty > quantity {
        assert forall j | 0 <= j < |breaks[1..]| :: breaks[1..][j].minQty > quantity;
      }
    }
  }

  /** The price resolved for a quantity: the base price without breaks or
      when no break qualifies; otherwise the price of the last qualifying
      break in list order (not the one with the highest threshold), unless
      its threshold is not positive. */
  lemma FinalPriceIsLastQualifyingBreak(p: Product, quantity: int)
    ensures p.priceBreaks.None? ==> FinalPrice(p, quantity) == p.basePrice
    ensures p.priceBreaks.Some? && (forall j | 0 <= j < |p.priceBreaks.value| :: p.priceBreaks.value[j].minQty > quantity)
            ==> FinalPrice(p, quantity) == p.basePrice
    ensures p.priceBreaks.Some? ==> forall i | IsLastQualifying(p.priceBreaks.value, quantity, i) ::
              FinalPrice(p, quantity)
              == (if p.priceBreaks.value[i].minQty > 0 then p.priceBreaks.value[i].price else p.basePrice)
  {
    if p.priceBreaks.Some? {
      ChooseBreakIsLast(p.priceBreaks.value, quantity, PriceBreak(0, p.basePrice));
    }
  }

  /** Base price 100 with breaks at 10 and 50 units. */
  lemma VolumePriceExample(p: Product)
    requires p.basePrice == 100
    requires p.priceBreaks == Some([PriceBreak(10, 90), PriceBreak(50, 80)])
    ensures FinalPrice(p, 5) == 100
    ensures FinalPrice(p, 10) == 90
    ensures FinalPrice(p, 49) == 90
    ensures FinalPrice(p, 50) == 80
  {
  }

  /** Breaks listed out of threshold order: at 60 units a later, lower
      threshold overrides an earlier, higher one, and a final break at
      threshold 0 restores the base price. */
  lemma ListOrderExample(p: Product)
    requires p.basePrice == 100
    ensures FinalPrice(p.(priceBreaks := Some([PriceBreak(50, 80), PriceBreak(10, 90)])), 60) == 90
    ensures FinalPrice(p.(priceBreaks := Some([PriceBreak(50, 80), PriceBreak(10, 90), PriceBreak(0, 70)])), 60) == 100
  {
  }

  // ---------------------------------------------------------------------
  // Quantity selector and add-to-cart guard.

  /** `handleChangeQuantity`: a requested quantity is taken only when it is
      positive and within stock. */
  function ChangeQuantity(current: int, requested: int, stock: int): (r: int)
    ensures 0 < requested <= stock ==> r == requested
    ensures !(0 < requested <= stock) ==> r == current
  {
    if requested > 0 && requested <= stock then requested else current
  }

  /** The quantity after a series of requests. */
  function ChangeQuantities(current: int, requests: seq<int>, stock: int): int
    decreases |requests|
  {
    if |requests| == 0 then current
    else ChangeQuantities(ChangeQuantity(current, requests[0], stock), requests[1..], stock)
  }

  /** A quantity within 1..stock stays there whatever is requested, and the
      quantity reached is the start or one of the accepted requests. */
  lemma {:induction false} QuantityStaysInStock(current: int, requests: seq<int>, stock: int)
    requires 1 <= current <= stock
    decreases |requests|
    ensures 1 <= ChangeQuantities(current, requests, stock) <= stock
    ensures var r := ChangeQuantities(current, requests, stock);
      r == current || exists i | 0 <= i < |requests| :: requests[i] == r && 0 < r <= stock
  {
    if |requests| > 0 {
      var next := ChangeQuantity(current, requests[0], stock);
      QuantityStaysInStock(next, requests[1..], stock);
      var r := ChangeQuantities(current, requests, stock);
      if r != current && r != next {
        var i :| 0 <= i < |requests[1..]| && requests[1..][i] == r && 0 < r <= stock;
        assert requests[i + 1] == r;
      }
    }
  }

  /** `canAddToCart`. */
  predicate CanAddToCart(p: Product) {
    p.status == Active && p.stock > 0
  }

  /** The guard and the selector agree: an addable product accepts at least
      the quantity 1, and with no stock every request is refused. */
  lemma CanAddMeansSomeQuantity(p: Product, current: int, requested: int)
    ensures CanAddToCart(p) ==> ChangeQuantity(current, 1, p.stock) == 1
    ensures p.stock <= 0 ==> ChangeQuantity(current, requested, p.stock) == current && !CanAddToCart(p)
    ensures CanAddToCart(p) <==> p.status == Active && ChangeQuantity(0, 1, p.stock) == 1
  {
  }
}
