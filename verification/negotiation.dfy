/**
 * The three-way decision `negotiate` makes on one offer: accept, reject as too low,
 * or counter with the discounted price. Checks run in the order `negotiate` tests them: accept first,
 * then reject, then counter.
 */
module Negotiation {
  import opened Catalog

  /** The numbers the three response templates embed. */
  datatype Decision =
    | Accept(offer: int, product: string, discount: int)
    | RejectTooLow(offer: int, minPrice: int)
    | Counter(offer: int, product: string, discountedPrice: int, discount: int)

  /** The seller's price once the session discount is applied. */
  function DiscountedPrice(name: string, discount: int): int
    requires name in Products
  {
    Products[name].startPrice - discount
  }

  function Negotiate(offer: int, name: string, discount: int): (r: Decision)
    requires name in Products
    ensures r.offer == offer
    ensures r.Accept? <==> offer >= Products[name].startPrice - discount
    ensures r.RejectTooLow? <==>
      offer < Products[name].startPrice - discount && offer < Products[name].minPrice
    ensures r.Counter? <==>
      Products[name].minPrice <= offer < Products[name].startPrice - discount
    ensures r.Accept? ==> r.product == name && r.discount == discount
    ensures r.RejectTooLow? ==> r.minPrice == Products[name].minPrice
    ensures r.Counter? ==>
      && r.product == name && r.discount == discount
      && r.discountedPrice == Products[name].startPrice - discount
  {
    var discountedPrice := DiscountedPrice(name, discount);
    if offer >= discountedPrice then
      Accept(offer, name, discount)
    else if offer < Products[name].minPrice then
      RejectTooLow(offer, Products[name].minPrice)
    else
      Counter(offer, name, discountedPrice, discount)
  }

  /** How good a decision is for the buyer: reject < counter < accept. */
  function Rank(d: Decision): nat {
    match d
    case RejectTooLow(_, _) => 0
    case Counter(_, _, _, _) => 1
    case Accept(_, _, _) => 2
  }

  /** Raising the offer never makes the outcome worse. */
  lemma MonotoneInOffer(lo: int, hi: int, name: string, discount: int)
    requires name in Products
    requires lo <= hi
    ensures Rank(Negotiate(lo, name, discount)) <= Rank(Negotiate(hi, name, discount))
  {
  }

  /** A larger session discount never makes the outcome worse. */
  lemma MonotoneInDiscount(offer: int, name: string, small: int, large: int)
    requires name in Products
    requires small <= large
    ensures Rank(Negotiate(offer, name, small)) <= Rank(Negotiate(offer, name, large))
  {
  }

  /** With a discount a sentiment tier can grant, a counter-offer lies strictly above the
      buyer's offer, at or above the product's floor and strictly below its asking price;
      and a rejection only happens below the floor. */
  lemma CounterWithinBand(offer: int, name: string, discount: int)
    requires name in Products
    requires 0 < discount <= MaxDiscount
    ensures Negotiate(offer, name, discount).Counter? ==>
      && offer < Negotiate(offer, name, discount).discountedPrice
      && Products[name].minPrice <= Negotiate(offer, name, discount).discountedPrice
      && Negotiate(offer, name, discount).discountedPrice < Products[name].startPrice
    ensures Negotiate(offer, name, discount).RejectTooLow? <==> offer < Products[name].minPrice
  {
    CatalogDiscountRoom(name);
  }

  /** Accept is checked before the floor: with a discount large enough to push the
      discounted price below the floor, an offer under the floor is still accepted. */
  lemma AcceptBeforeFloor()
    ensures Negotiate(120, "Headphones", 100) == Accept(120, "Headphones", 100)
  {
  }

  /** The boundary cases for the Laptop (floor 700, asking 850) with a discount of 40. */
  lemma LaptopBoundaries()
    ensures Negotiate(810, "Laptop", 40) == Accept(810, "Laptop", 40)
    ensures Negotiate(811, "Laptop", 40) == Accept(811, "Laptop", 40)
    ensures Negotiate(809, "Laptop", 40) == Counter(809, "Laptop", 810, 40)
    ensures Negotiate(700, "Laptop", 40) == Counter(700, "Laptop", 810, 40)
    ensures Negotiate(699, "Laptop", 40) == RejectTooLow(699, 700)
  {
  }
}
