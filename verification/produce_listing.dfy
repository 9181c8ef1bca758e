/**
 A produce listing as the trader's listing screen sees it, and the seven
 orderings it can be sorted by.
 */
module ProduceListing {
  import opened Wrappers
  import Text

  /** Listing lifecycle; only `Active` listings are offered to traders. */
  datatype Status = Active | Bidding | Sold | Expired

  datatype Unit = Kg | Quintal | Ton

  /**
   One farmer's batch offered for sale. `harvestDate` is a timestamp in
   milliseconds; `bids` holds the bid identifiers, of which only the count
   matters here.
   */
  datatype Produce = Produce(id: string, name: string, variety: Option<string>,
                             quantity: int, unit: Unit, currentPrice: int,
                             location: string, harvestDate: int, status: Status,
                             verified: bool, bids: seq<string>)

  /** The sort selector: 'newest', 'price_low', 'price_high', 'quantity_high', 'quantity_low', 'location', 'bids'. */
  datatype SortKey = Newest | PriceLow | PriceHigh | QuantityHigh | QuantityLow | Location | Bids

  /**
   `a` may stay ahead of `b`: the comparator selected by `k` returns a value
   `<= 0` for `(a, b)`. Every key other than the six named ones falls to the
   harvest-date comparison, most recent first.
   */
  predicate Before(k: SortKey, a: Produce, b: Produce) {
    match k
    case PriceLow => a.currentPrice <= b.currentPrice
    case PriceHigh => b.currentPrice <= a.currentPrice
    case QuantityHigh => b.quantity <= a.quantity
    case QuantityLow => a.quantity <= b.quantity
    case Location => Text.LexLe(a.location, b.location)
    case Bids => |b.bids| <= |a.bids|
    case Newest => b.harvestDate <= a.harvestDate
  }

  /** `a` and `b` compare equal under `k` (the comparator returns 0). */
  predicate Tied(k: SortKey, a: Produce, b: Produce) {
    Before(k, a, b) && Before(k, b, a)
  }

  /** Every comparator is total: of two listings, one may precede the other. */
  lemma BeforeTotal(k: SortKey, a: Produce, b: Produce)
    ensures Before(k, a, b) || Before(k, b, a)
  {
    if k == Location {
      Text.LexLeTotal(a.location, b.location);
    }
  }

  /** Every comparator is transitive. */
  lemma BeforeTransitive(k: SortKey, a: Produce, b: Produce, c: Produce)
    requires Before(k, a, b) && Before(k, b, c)
    ensures Before(k, a, c)
  {
    if k == Location {
      Text.LexLeTransitive(a.location, b.location, c.location);
    }
  }
}
