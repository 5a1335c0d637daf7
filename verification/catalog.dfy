/** The fixed product catalog (`PRODUCTS`): read-only pricing data per product name. */
module Catalog {

  datatype Product = Product(maxPrice: int, minPrice: int, startPrice: int)

  /** Asking price never below the floor and never above the ceiling. */
  predicate WellPriced(p: Product) {
    p.minPrice <= p.startPrice <= p.maxPrice
  }

  const Products: map<string, Product> := map[
    "Laptop" := Product(1000, 700, 850),
    "Smartphone" := Product(800, 500, 650),
    "Headphones" := Product(300, 150, 200)
  ]

  /** The largest discount any sentiment tier can grant. */
  const MaxDiscount: int := 50

  /** Every catalog entry is well priced. */
  lemma CatalogWellPriced(name: string)
    requires name in Products
    ensures WellPriced(Products[name])
  {
  }

  /** Every catalog entry leaves room for the largest discount above its floor, so the
      discounted price of a catalog product never drops below its minimum price. */
  lemma CatalogDiscountRoom(name: string)
    requires name in Products
    ensures Products[name].startPrice - MaxDiscount >= Products[name].minPrice
  {
  }
}
