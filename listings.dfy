/**
 * A listing record as the scripts read it from the sales data set, and the
 * acceptance filter that three of the four scripts share (each has its own copy:
 * deal_scorer.py, similar_finder.py and price_predictor.py).
 */
module Listings {
  import opened Wrappers
  import opened Numerics

  /** A dictionary entry that may be missing, present as `null`, or present with a value. */
  datatype Field<T> = Absent | Null | Present(value: T)

  /**
   * The fields of a listing the scripts read. Numbers are JSON numbers (over `real`);
   * for them `None` is a key that is missing or `null`, which every reader treats alike.
   * `city` keeps the three cases apart, because `p.get('city', 'Unknown')` does not.
   * Address and URL are only printed and are not modelled.
   */
  datatype Listing = Listing(
    price: Option<real>,
    sqft: Option<real>,
    beds: Option<real>,
    baths: Option<real>,
    yearBuilt: Option<real>,
    lotSize: Option<real>,
    soldDate: Option<string>,
    city: Field<string>)

  /** Python truthiness of an optional number: present, not `null` and not zero. */
  predicate Truthy(x: Option<real>)
  {
    x.Some? && x.value != 0.0
  }

  /** `p.get(key, d) or d`: the value when it is truthy, otherwise the default. */
  function OrDefault(x: Option<real>, d: real): real
  {
    if Truthy(x) then x.value else d
  }

  /** `bool(p.get('soldDate'))`: a non-empty sale date is present. */
  predicate IsSold(l: Listing)
  {
    l.soldDate.Some? && l.soldDate.value != ""
  }

  /** `p.get('city', 'Unknown')`; a `null` city stays Python's `None`. */
  function CityOrUnknown(l: Listing): Option<string>
  {
    match l.city
    case Absent => Some("Unknown")
    case Null => None
    case Present(c) => Some(c)
  }

  /**
   * The shared acceptance test: sqft, beds and price truthy, then neither
   * `sqft <= 0 or price <= 50000 or price > 5000000` nor `sqft > 10000`.
   */
  predicate Accepted(l: Listing)
  {
    Truthy(l.sqft) && Truthy(l.beds) && Truthy(l.price)
    && !(l.sqft.value <= 0.0 || l.price.value <= 50000.0 || l.price.value > 5000000.0)
    && !(l.sqft.value > 10000.0)
  }

  /** The conditions the filter enforces, each stated on its own. */
  lemma AcceptedMeans(l: Listing)
    ensures Accepted(l) <==>
      l.sqft.Some? && l.beds.Some? && l.price.Some? && l.beds.value != 0.0
      && 0.0 < l.sqft.value <= 10000.0
      && 50000.0 < l.price.value <= 5000000.0
  {
  }

  /** Price per square foot, `p['price'] / p['sqft']`, of an accepted listing. */
  function Ppsf(l: Listing): (r: real)
    requires Accepted(l)
    ensures r > 5.0
  {
    var price, sqft := l.price.value, l.sqft.value;
    assert price > 5.0 * sqft by {
      assert 5.0 * sqft <= 50000.0;
    }
    price / sqft
  }
}
