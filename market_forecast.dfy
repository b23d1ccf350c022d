/**
 * The sale filter of `prepare_time_series` in market_forecast.py: the sales
 * that feed the monthly price series. Its price test differs from the shared
 * acceptance filter of the other scripts: 50000 itself is accepted here.
 */
module MarketForecast {
  import opened Wrappers
  import opened Listings
  import opened Dates

  /** One entry of `sales`: the parsed sale date, the price and the city. */
  datatype Sale = Sale(date: Date, price: real, city: Option<string>)

  /** The price test of prepare_time_series: present and non-zero, within [50000, 5000000]. */
  predicate PriceInRange(l: Listing)
  {
    Truthy(l.price) && !(l.price.value < 50000.0 || l.price.value > 5000000.0)
  }

  /** The sale a listing contributes, if any: sold, priced in range, with a date that parses. */
  function SaleOf(l: Listing): (r: Option<Sale>)
    ensures r.Some? <==> IsSold(l) && PriceInRange(l) && ParseDate(l.soldDate).Some?
    ensures r.Some? ==> r.value == Sale(ParseDate(l.soldDate).value, l.price.value, CityOrUnknown(l))
  {
    if !IsSold(l) || !Truthy(l.price) then None
    else if l.price.value < 50000.0 || l.price.value > 5000000.0 then None
    else
      var dt := ParseDate(l.soldDate);
      if dt.Some? then Some(Sale(dt.value, l.price.value, CityOrUnknown(l))) else None
  }

  /** The sales of a list of listings, in input order. */
  function Sales(ps: seq<Listing>): seq<Sale>
  {
    if ps == [] then []
    else
      var last := SaleOf(ps[|ps| - 1]);
      Sales(ps[..|ps| - 1]) + (if last.Some? then [last.value] else [])
  }

  /** Every sale kept has a valid date, a price in [50000, 5000000] and comes from a listing kept. */
  lemma {:induction false} SalesSound(ps: seq<Listing>)
    ensures forall s :: s in Sales(ps) ==>
      ValidDate(s.date) && 50000.0 <= s.price <= 5000000.0
      && exists i :: 0 <= i < |ps| && SaleOf(ps[i]) == Some(s)
  {
    if ps != [] {
      var init := ps[..|ps| - 1];
      SalesSound(init);
      forall s | s in Sales(ps)
        ensures exists i :: 0 <= i < |ps| && SaleOf(ps[i]) == Some(s)
      {
        if s in Sales(init) {
          var i :| 0 <= i < |init| && SaleOf(init[i]) == Some(s);
          assert ps[i] == init[i];
        } else {
          assert SaleOf(ps[|ps| - 1]) == Some(s);
        }
      }
    }
  }

  /** No sale is lost: every listing that passes the filter contributes its sale. */
  lemma {:induction false} SalesComplete(ps: seq<Listing>, i: nat)
    requires i < |ps| && SaleOf(ps[i]).Some?
    ensures SaleOf(ps[i]).value in Sales(ps)
  {
    var init := ps[..|ps| - 1];
    if i < |ps| - 1 {
      assert ps[i] == init[i];
      SalesComplete(init, i);
    }
  }

  /**
   * The loop of `prepare_time_series` (lines 55-71): the sales in input order,
   * or `None` when there is none.
   */
  method PrepareTimeSeries(properties: seq<Listing>) returns (r: Option<seq<Sale>>)
    ensures r == None <==> Sales(properties) == []
    ensures r.Some? ==> r.value == Sales(properties)
  {
    var sales: seq<Sale> := [];
    for i := 0 to |properties|
      invariant sales == Sales(properties[..i])
    {
      var p := properties[i];
      assert properties[..i + 1][..i] == properties[..i];
      if !IsSold(p) || !Truthy(p.price) {
        continue;
      }
      if p.price.value < 50000.0 || p.price.value > 5000000.0 {
        continue;
      }
      var dt := ParseDate(p.soldDate);
      if dt.Some? {
        sales := sales + [Sale(dt.value, p.price.value, CityOrUnknown(p))];
      }
    }
    assert properties[..|properties|] == properties;
    if sales == [] {
      return None;
    }
    return Some(sales);
  }

  /**
   * The bounds differ from the shared acceptance filter: a listing sold for
   * exactly 50000 on a valid date is a sale here yet rejected by `Accepted`.
   */
  lemma LowerBoundInclusive(l: Listing)
    requires l.price == Some(50000.0) && IsSold(l) && ParseDate(l.soldDate).Some?
    ensures SaleOf(l).Some? && !Accepted(l)
  {
  }
}
