/** The shape of a catalog product, as the list and detail pages read it.
    Prices are integers in the smallest currency unit. */
module Catalog {
  import opened Options

  datatype Status = Active | Pending | Inactive

  /** A volume discount: `price` applies from `minQty` units on. */
  datatype PriceBreak = PriceBreak(minQty: int, price: int)

  /** An absent colour or size list is the empty sequence; `priceBreaks`
      keeps the difference between absent and empty, which the price
      resolver tests. */
  datatype Product = Product(
    id: int,
    name: string,
    sku: string,
    category: string,
    supplier: string,
    basePrice: int,
    stock: int,
    status: Status,
    colors: seq<string>,
    sizes: seq<string>,
    priceBreaks: Option<seq<PriceBreak>>)
}
