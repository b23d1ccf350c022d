/**
 * similar_finder.py: comparable sales by nearest neighbours. Accepted listings
 * become feature vectors; the sold ones form the neighbour model's data; every
 * active listing gets its five nearest sold listings as comps, an estimate from
 * their mean price and mean price per square foot, and a price difference,
 * written into its record in place; the results are split into deals and
 * overpriced listings. The scaler and the neighbour search are library calls:
 * their answers (distances and indices) are inputs here.
 */
module SimilarFinder {
  import opened Wrappers
  import opened Numerics
  import opened Seqs
  import opened Sorting
  import opened Listings

  /** A sold record as `find_similar` copies it, with its rank and rounded distance added. */
  datatype Comp = Comp(listing: Listing, similarityRank: int, similarityDistance: real)

  /**
   * A property record. The input fields never change; `analyze_active_listings`
   * adds six keys to an active record, `None` until written.
   */
  class Property {
    const listing: Listing
    var similarComps: Option<seq<Comp>>
    var estimatedValue: Option<int>
    var suggestedPrice: Option<int>
    var compAvgPpsf: Option<int>
    var priceDiff: Option<real>
    var priceDiffPct: Option<real>

    constructor (l: Listing)
      ensures listing == l && similarComps == None && estimatedValue == None && suggestedPrice == None
      ensures compAvgPpsf == None && priceDiff == None && priceDiffPct == None
    {
      listing := l;
      similarComps, estimatedValue, suggestedPrice := None, None, None;
      compAvgPpsf, priceDiff, priceDiffPct := None, None, None;
    }
  }

  /** An entry of `valid`: the record itself (shared, not copied), its features and `is_sold`. */
  datatype Entry = Entry(property: Property, features: seq<real>, isSold: bool)

  predicate IsAccepted(p: Property)
  {
    Accepted(p.listing)
  }

  /**
   * The five neighbour features, brought to similar magnitudes: thousands of square feet,
   * beds, baths (0 when missing), centuries of the year built (1970 when missing), and
   * the lot size in units of 10000 (0 when missing or zero).
   */
  function Features(l: Listing): seq<real>
    requires Accepted(l)
  {
    [l.sqft.value / 1000.0, l.beds.value, OrDefault(l.baths, 0.0), OrDefault(l.yearBuilt, 1970.0) / 100.0,
     if Truthy(l.lotSize) then l.lotSize.value / 10000.0 else 0.0]
  }

  /** The shape of a feature vector, the defaults it fills in and the scaled size. */
  lemma FeaturesShape(l: Listing)
    requires Accepted(l)
    ensures var f := Features(l);
      |f| == 5 && 0.0 < f[0] <= 10.0 && f[0] * 1000.0 == l.sqft.value && f[1] == l.beds.value
      && f[2] == (if Truthy(l.baths) then l.baths.value else 0.0)
      && f[3] * 100.0 == (if Truthy(l.yearBuilt) then l.yearBuilt.value else 1970.0)
      && (Truthy(l.lotSize) ==> f[4] * 10000.0 == l.lotSize.value)
      && (!Truthy(l.lotSize) ==> f[4] == 0.0)
  {
  }

  function EntryOf(p: Property): Entry
    requires IsAccepted(p)
  {
    Entry(p, Features(p.listing), IsSold(p.listing))
  }

  /** Every entry is the one `prepare_data` builds for its record. */
  predicate Prepared(valid: seq<Entry>)
  {
    forall i :: 0 <= i < |valid| ==> IsAccepted(valid[i].property) && valid[i] == EntryOf(valid[i].property)
  }

  /** `prepare_data` (lines 23-47): one entry per accepted record, in input order. */
  method PrepareData(properties: seq<Property>) returns (valid: seq<Entry>)
    ensures |valid| == |Filter(properties, IsAccepted)|
    ensures forall i :: 0 <= i < |valid| ==>
      IsAccepted(Filter(properties, IsAccepted)[i]) && valid[i] == EntryOf(Filter(properties, IsAccepted)[i])
    ensures Prepared(valid)
  {
    valid := [];
    for i := 0 to |properties|
      invariant |valid| == |Filter(properties[..i], IsAccepted)|
      invariant forall k :: 0 <= k < |valid| ==> valid[k] == EntryOf(Filter(properties[..i], IsAccepted)[k])
    {
      FilterSnoc(properties, i, IsAccepted);
      var p := properties[i];
      var l := p.listing;
      if !(Truthy(l.sqft) && Truthy(l.beds) && Truthy(l.price)) {
        continue;
      }
      if l.sqft.value <= 0.0 || l.price.value <= 50000.0 || l.price.value > 5000000.0 {
        continue;
      }
      if l.sqft.value > 10000.0 {
        continue;
      }
      var features := [l.sqft.value / 1000.0, l.beds.value, OrDefault(l.baths, 0.0),
                       OrDefault(l.yearBuilt, 1970.0) / 100.0,
                       if Truthy(l.lotSize) then l.lotSize.value / 10000.0 else 0.0];
      valid := valid + [Entry(p, features, IsSold(l))];
    }
    assert properties[..|properties|] == properties;
  }

  // ---------------------------------------------------------------------------
  // The sold/active split and the insufficient-data guard

  predicate SoldEntry(e: Entry)
  {
    e.isSold
  }

  predicate ActiveEntry(e: Entry)
  {
    !e.isSold
  }

  /**
   * `sold` (line 52) and `active` (line 86) split `valid`: every entry is in exactly
   * one of them, each keeps the order of `valid`, and `active_count = len(valid) -
   * sold_count` (lines 126-127) is the length of `active`.
   */
  lemma SoldActivePartition(valid: seq<Entry>)
    ensures |Filter(valid, ActiveEntry)| == |valid| - |Filter(valid, SoldEntry)|
    ensures multiset(Filter(valid, SoldEntry)) + multiset(Filter(valid, ActiveEntry)) == multiset(valid)
    ensures forall i :: 0 <= i < |Filter(valid, SoldEntry)| ==> Filter(valid, SoldEntry)[i] !in Filter(valid, ActiveEntry)
  {
    FilterPartition(valid, SoldEntry, ActiveEntry);
  }

  /** The neighbour model: the sold entries it is fitted on and its neighbour count. */
  datatype KnnModel = KnnModel(sold: seq<Entry>, nNeighbors: nat)

  /**
   * `build_knn_model` (lines 49-68), with the fitting left to the library: no
   * model when fewer than ten entries are sold; otherwise the sold entries, and
   * `min(10, len(sold))` neighbours, which is then always ten.
   */
  function BuildKnnModel(valid: seq<Entry>): (r: Option<KnnModel>)
    ensures r.None? <==> |Filter(valid, SoldEntry)| < 10
    ensures r.Some? ==> r.value.sold == Filter(valid, SoldEntry) && r.value.nNeighbors == 10
  {
    var sold := Filter(valid, SoldEntry);
    if |sold| < 10 then None
    else Some(KnnModel(sold, if 10 < |sold| then 10 else |sold|))
  }

  /** The sold entries of prepared entries are accepted listings that have sold. */
  lemma SoldAccepted(valid: seq<Entry>, i: nat)
    requires Prepared(valid) && i < |Filter(valid, SoldEntry)|
    ensures Accepted(Filter(valid, SoldEntry)[i].property.listing)
    ensures IsSold(Filter(valid, SoldEntry)[i].property.listing)
  {
    var e := Filter(valid, SoldEntry)[i];
    var j :| 0 <= j < |valid| && valid[j] == e;
  }

  // ---------------------------------------------------------------------------
  // find_similar (lines 70-82)

  predicate AcceptedAll(sold: seq<Entry>)
  {
    forall i :: 0 <= i < |sold| ==> Accepted(sold[i].property.listing)
  }

  /** Whether every neighbour index names an entry of `sold`. */
  predicate InRange(neighbors: seq<(real, nat)>, sold: seq<Entry>)
  {
    forall i :: 0 <= i < |neighbors| ==> neighbors[i].1 < |sold|
  }

  /**
   * The comps for one row of `kneighbors` (its distances zipped with its
   * indices): copies of the sold listings, ranked 1, 2, ... in result order, each
   * with its distance rounded to three decimals.
   */
  function Similar(sold: seq<Entry>, neighbors: seq<(real, nat)>): (r: seq<Comp>)
    requires InRange(neighbors, sold)
    ensures |r| == |neighbors|
    ensures forall i :: 0 <= i < |r| ==>
      r[i].listing == sold[neighbors[i].1].property.listing
      && r[i].similarityRank == i + 1
      && r[i].similarityDistance == RoundTo(neighbors[i].0, 3)
      && neighbors[i].0 - 0.0005 <= r[i].similarityDistance <= neighbors[i].0 + 0.0005
  {
    seq(|neighbors|, i requires 0 <= i < |neighbors| =>
      Comp(sold[neighbors[i].1].property.listing, i + 1, RoundTo(neighbors[i].0, 3)))
  }

  /** The loop of `find_similar`: it copies, and changes no record. */
  method FindSimilar(sold: seq<Entry>, neighbors: seq<(real, nat)>) returns (similar: seq<Comp>)
    requires InRange(neighbors, sold)
    ensures similar == Similar(sold, neighbors)
  {
    similar := [];
    for i := 0 to |neighbors|
      invariant similar == Similar(sold, neighbors[..i])
    {
      var (dist, idx) := neighbors[i];
      var s := sold[idx].property.listing;
      similar := similar + [Comp(s, i + 1, RoundTo(dist, 3))];
    }
    assert neighbors[..|neighbors|] == neighbors;
  }

  /** The ranks are consecutive from 1, in result order. */
  lemma SimilarRanks(sold: seq<Entry>, neighbors: seq<(real, nat)>)
    requires InRange(neighbors, sold)
    ensures forall i, j :: 0 <= i < j < |neighbors| ==>
      Similar(sold, neighbors)[i].similarityRank < Similar(sold, neighbors)[j].similarityRank
    ensures forall i :: 0 <= i < |neighbors| ==> 1 <= Similar(sold, neighbors)[i].similarityRank <= |neighbors|
  {
  }

  // ---------------------------------------------------------------------------
  // The estimate of analyze_active_listings (lines 96-108)

  predicate CompsAccepted(comps: seq<Comp>)
  {
    forall i :: 0 <= i < |comps| ==> Accepted(comps[i].listing)
  }

  /** The asking prices of the comparables, in order. */
  function CompPrices(comps: seq<Comp>): (r: seq<real>)
    requires CompsAccepted(comps)
    ensures |r| == |comps| && forall i :: 0 <= i < |comps| ==> r[i] == comps[i].listing.price.value
  {
    if comps == [] then [] else [comps[0].listing.price.value] + CompPrices(comps[1..])
  }

  /** The prices per square foot of the comparables, in order. */
  function CompPpsfs(comps: seq<Comp>): (r: seq<real>)
    requires CompsAccepted(comps)
    ensures |r| == |comps| && forall i :: 0 <= i < |comps| ==> r[i] == Ppsf(comps[i].listing)
  {
    if comps == [] then [] else [Ppsf(comps[0].listing)] + CompPpsfs(comps[1..])
  }

  /** The integer estimates and the exact price difference of one active listing. */
  datatype Appraisal = Appraisal(estimatedValue: int, compAvgPpsf: int, suggestedPrice: int, priceDiff: real)

  /** `estimated_value`, `estimated_ppsf`, `suggested_price` and `priceDiff` from the comps. */
  function Appraise(l: Listing, comps: seq<Comp>): Appraisal
    requires Accepted(l) && |comps| > 0 && CompsAccepted(comps)
  {
    var estimatedPpsf := Trunc(Mean(CompPpsfs(comps)));
    var suggested := Trunc(estimatedPpsf as real * l.sqft.value);
    Appraisal(Trunc(Mean(CompPrices(comps))), estimatedPpsf, suggested, l.price.value - suggested as real)
  }

  /**
   * The means of accepted listings keep the estimates in the accepted ranges, the
   * suggested price is the truncated product of the comps' price per square foot
   * and the listing's area, and it is zero only for a listing under 0.2 sqft.
   */
  lemma AppraiseBounds(l: Listing, comps: seq<Comp>)
    requires Accepted(l) && |comps| > 0 && CompsAccepted(comps)
    ensures var a := Appraise(l, comps);
      50000 <= a.estimatedValue <= 5000000
      && a.compAvgPpsf >= 5
      && 0 <= a.suggestedPrice
      && a.suggestedPrice as real <= a.compAvgPpsf as real * l.sqft.value < a.suggestedPrice as real + 1.0
      && (a.suggestedPrice == 0 ==> l.sqft.value < 0.2)
      && a.priceDiff == l.price.value - a.suggestedPrice as real
  {
    var prices, ppsfs := CompPrices(comps), CompPpsfs(comps);
    MeanAbove(prices, 50000.0);
    MeanAtMost(prices, 5000000.0);
    MeanAbove(ppsfs, 5.0);
    var estimatedPpsf := Trunc(Mean(ppsfs));
    if l.sqft.value >= 0.2 {
      assert estimatedPpsf as real * l.sqft.value >= 5.0 * 0.2;
    }
  }

  /**
   * `round((price - suggested_price) / suggested_price * 100, 1)`; `None` is the
   * ZeroDivisionError raised when the suggested price is zero.
   */
  function PriceDiffPct(a: Appraisal): Option<real>
  {
    if a.suggestedPrice == 0 then None
    else Some(RoundTo(a.priceDiff / a.suggestedPrice as real * 100.0, 1))
  }

  /**
   * A listing more than 10% below its comps (after rounding) is priced below
   * 90.05% of the suggested price; one more than 20% above is priced above 119.95% of it.
   */
  lemma PctMeaning(a: Appraisal, price: real)
    requires a.priceDiff == price - a.suggestedPrice as real && a.suggestedPrice >= 0
    ensures PriceDiffPct(a).Some? <==> a.suggestedPrice > 0
    ensures PriceDiffPct(a).Some? && PriceDiffPct(a).value < -10.0 ==> price < 0.9005 * a.suggestedPrice as real
    ensures PriceDiffPct(a).Some? && PriceDiffPct(a).value > 20.0 ==> price > 1.1995 * a.suggestedPrice as real
  {
    if a.suggestedPrice > 0 {
      var s := a.suggestedPrice as real;
      var x := a.priceDiff / s * 100.0;
      var r := PriceDiffPct(a).value;
      assert x - 0.05 <= r <= x + 0.05;
      PercentBounds(a.priceDiff, s, x);
    }
  }

  lemma PercentBounds(diff: real, s: real, x: real)
    requires s > 0.0 && x == diff / s * 100.0
    ensures x < -9.95 ==> diff < -0.0995 * s
    ensures x > 19.95 ==> diff > 0.1995 * s
  {
    assert diff == x * s / 100.0;
  }

  // ---------------------------------------------------------------------------
  // analyze_active_listings (lines 84-112)

  /** What analysing a record writes besides `priceDiffPct`. */
  ghost predicate Appraised(p: Property, a: Appraisal, comps: seq<Comp>)
    reads p
  {
    p.similarComps == Some(comps) && p.estimatedValue == Some(a.estimatedValue)
    && p.suggestedPrice == Some(a.suggestedPrice) && p.compAvgPpsf == Some(a.compAvgPpsf)
    && p.priceDiff == Some(a.priceDiff)
  }

  /** What analysing record `p` with its row of neighbours writes besides `priceDiffPct`. */
  ghost predicate AppraisedBy(p: Property, sold: seq<Entry>, row: seq<(real, nat)>)
    reads p
    requires Accepted(p.listing) && AcceptedAll(sold) && |row| > 0 && InRange(row, sold)
  {
    Appraised(p, Appraise(p.listing, Similar(sold, row)), Similar(sold, row))
  }

  /** Everything analysing record `p` with its row of neighbours writes. */
  ghost predicate AnalysedBy(p: Property, sold: seq<Entry>, row: seq<(real, nat)>)
    reads p
    requires Accepted(p.listing) && AcceptedAll(sold) && |row| > 0 && InRange(row, sold)
  {
    AppraisedBy(p, sold, row) && p.priceDiffPct == PriceDiffPct(Appraise(p.listing, Similar(sold, row)))
  }

  /**
   * The loop body for one active record: comps, the three estimates and the
   * price difference are written; `priceDiffPct` is written unless the suggested
   * price is zero, where the division raises (`ok` is false).
   */
  method AnalyzeListing(p: Property, sold: seq<Entry>, neighbors: seq<(real, nat)>) returns (ok: bool)
    requires Accepted(p.listing) && AcceptedAll(sold)
    requires |neighbors| > 0 && InRange(neighbors, sold)
    modifies p
    ensures AppraisedBy(p, sold, neighbors)
    ensures ok <==> PriceDiffPct(Appraise(p.listing, Similar(sold, neighbors))).Some?
    ensures ok ==> AnalysedBy(p, sold, neighbors)
    ensures !ok ==> p.priceDiffPct == old(p.priceDiffPct)
  {
    var similar := FindSimilar(sold, neighbors);
    var compPrices := CompPrices(similar);
    var compPpsf := CompPpsfs(similar);
    var estimatedValue := Trunc(Mean(compPrices));
    var estimatedPpsf := Trunc(Mean(compPpsf));
    var suggestedPrice := Trunc(estimatedPpsf as real * p.listing.sqft.value);
    ghost var a := Appraise(p.listing, similar);
    assert a == Appraisal(estimatedValue, estimatedPpsf, suggestedPrice, p.listing.price.value - suggestedPrice as real);
    p.similarComps := Some(similar);
    p.estimatedValue := Some(estimatedValue);
    p.suggestedPrice := Some(suggestedPrice);
    p.compAvgPpsf := Some(estimatedPpsf);
    p.priceDiff := Some(p.listing.price.value - suggestedPrice as real);
    if suggestedPrice == 0 {
      return false;
    }
    p.priceDiffPct := Some(RoundTo((p.listing.price.value - suggestedPrice as real) / suggestedPrice as real * 100.0, 1));
    return true;
  }

  /** The records of a list of entries. */
  function Records(s: seq<Entry>): (r: seq<Property>)
    ensures |r| == |s| && forall i :: 0 <= i < |s| ==> r[i] == s[i].property
  {
    seq(|s|, i requires 0 <= i < |s| => s[i].property)
  }

  /** No two entries share a record (the records come from one JSON load). */
  predicate DistinctRecords(s: seq<Entry>)
  {
    forall i, j :: 0 <= i < j < |s| ==> s[i].property != s[j].property
  }

  lemma {:induction false} FilterDistinctRecords(s: seq<Entry>, p: Entry -> bool)
    requires DistinctRecords(s)
    ensures DistinctRecords(Filter(s, p))
  {
    if s != [] {
      FilterDistinctRecords(s[1..], p);
      var rest := Filter(s[1..], p);
      forall k | 0 <= k < |rest|
        ensures rest[k].property != s[0].property
      {
        var j :| 0 <= j < |s[1..]| && s[1..][j] == rest[k];
        assert s[j + 1] == rest[k];
      }
    }
  }

  /** The first index with a zero, or the length when there is none. */
  function FirstZero(s: seq<int>): (k: nat)
    ensures k <= |s| && (forall i :: 0 <= i < k ==> s[i] != 0) && (k < |s| ==> s[k] == 0)
  {
    if s == [] then 0 else if s[0] == 0 then 0 else 1 + FirstZero(s[1..])
  }

  /** Whether every record's listing passes the acceptance filter. */
  predicate RecordsAccepted(recs: seq<Property>)
  {
    forall k :: 0 <= k < |recs| ==> Accepted(recs[k].listing)
  }

  /** Whether there is one non-empty, in-range row of neighbours per record. */
  predicate RowsFit(recs: seq<Property>, sold: seq<Entry>, neighbors: seq<seq<(real, nat)>>)
  {
    |neighbors| == |recs| && forall k :: 0 <= k < |neighbors| ==> |neighbors[k]| > 0 && InRange(neighbors[k], sold)
  }

  /** The appraisal of record `k`, from its row of neighbours. */
  function AppraisalAt(recs: seq<Property>, sold: seq<Entry>, neighbors: seq<seq<(real, nat)>>, k: nat): Appraisal
    requires k < |recs| && RecordsAccepted(recs) && AcceptedAll(sold) && RowsFit(recs, sold, neighbors)
  {
    Appraise(recs[k].listing, Similar(sold, neighbors[k]))
  }

  /** The suggested prices of all records, in order. */
  function Suggestions(recs: seq<Property>, sold: seq<Entry>, neighbors: seq<seq<(real, nat)>>): (r: seq<int>)
    requires RecordsAccepted(recs) && AcceptedAll(sold) && RowsFit(recs, sold, neighbors)
    ensures |r| == |recs| && forall k :: 0 <= k < |r| ==> r[k] == AppraisalAt(recs, sold, neighbors, k).suggestedPrice
  {
    seq(|recs|, k requires 0 <= k < |recs| => AppraisalAt(recs, sold, neighbors, k).suggestedPrice)
  }

  /**
   * The loop of `analyze_active_listings` over the active records. Every record
   * up to the first with a zero suggested price is analysed in full and that one
   * without `priceDiffPct` (the division raises, `None`); later records are
   * untouched. Without a zero, the results are the records in order.
   */
  method AnalyzeRecords(recs: seq<Property>, sold: seq<Entry>, neighbors: seq<seq<(real, nat)>>)
    returns (r: Option<seq<Property>>)
    requires Distinct(recs) && RecordsAccepted(recs) && AcceptedAll(sold) && RowsFit(recs, sold, neighbors)
    modifies recs
    ensures var stop := FirstZero(Suggestions(recs, sold, neighbors));
      (r.Some? <==> stop == |recs|)
      && (r.Some? ==> r.value == recs && PctsWritten(r.value))
      && (forall k :: 0 <= k < |recs| && k < stop ==> AnalysedBy(recs[k], sold, neighbors[k]))
      && (stop < |recs| ==> AppraisedBy(recs[stop], sold, neighbors[stop]))
      && (stop < |recs| ==> recs[stop].priceDiffPct == old(recs[stop].priceDiffPct))
      && (forall k :: stop < k < |recs| ==> unchanged(recs[k]))
  {
    ghost var suggestions := Suggestions(recs, sold, neighbors);
    ghost var stop := FirstZero(suggestions);
    var results := [];
    for i := 0 to |recs|
      invariant i <= stop
      invariant |results| == i && forall k :: 0 <= k < i ==> results[k] == recs[k]
      invariant forall k :: 0 <= k < i ==> AnalysedBy(recs[k], sold, neighbors[k])
      invariant forall k :: 0 <= k < i ==> recs[k].priceDiffPct.Some?
      invariant forall k :: i <= k < |recs| ==> unchanged(recs[k])
    {
      var p := recs[i];
      var ok := AnalyzeListing(p, sold, neighbors[i]);
      assert suggestions[i] == AppraisalAt(recs, sold, neighbors, i).suggestedPrice;
      if !ok {
        assert stop == i;
        return None;
      }
      results := results + [p];
    }
    assert stop == |recs| && results == recs;
    return Some(results);
  }

  /**
   * `analyze_active_listings`, given one row of neighbours per active entry:
   * the active records, analysed as `AnalyzeRecords` says.
   */
  method AnalyzeActiveListings(valid: seq<Entry>, model: KnnModel, neighbors: seq<seq<(real, nat)>>)
    returns (r: Option<seq<Property>>)
    requires Prepared(valid) && DistinctRecords(valid)
    requires AcceptedAll(model.sold)
    requires |neighbors| == |Filter(valid, ActiveEntry)|
    requires forall k :: 0 <= k < |neighbors| ==> |neighbors[k]| > 0 && InRange(neighbors[k], model.sold)
    modifies Records(Filter(valid, ActiveEntry))
    ensures var recs := Records(Filter(valid, ActiveEntry));
      RecordsAccepted(recs) && RowsFit(recs, model.sold, neighbors)
      && var stop := FirstZero(Suggestions(recs, model.sold, neighbors));
      (r.Some? <==> stop == |recs|)
      && (r.Some? ==> r.value == recs && PctsWritten(r.value))
      && (forall k :: 0 <= k < |recs| && k < stop ==> AnalysedBy(recs[k], model.sold, neighbors[k]))
      && (stop < |recs| ==> AppraisedBy(recs[stop], model.sold, neighbors[stop]))
      && (stop < |recs| ==> recs[stop].priceDiffPct == old(recs[stop].priceDiffPct))
      && (forall k :: stop < k < |recs| ==> unchanged(recs[k]))
  {
    var active := Filter(valid, ActiveEntry);
    var recs := Records(active);
    FilterDistinctRecords(valid, ActiveEntry);
    forall k | 0 <= k < |recs|
      ensures Accepted(recs[k].listing)
    {
      var j :| 0 <= j < |valid| && valid[j] == active[k];
    }
    r := AnalyzeRecords(recs, model.sold, neighbors);
  }

  // ---------------------------------------------------------------------------
  // The deal and overpriced lists of main (lines 141-160)

  /** Whether every result carries its `priceDiffPct`, as the lists of main read it. */
  predicate PctsWritten(results: seq<Property>)
    reads results
  {
    forall i :: 0 <= i < |results| ==> results[i].priceDiffPct.Some?
  }

  /** The results, each paired with its own `priceDiffPct`: what the filters and the sort keys read. */
  function Decorated(results: seq<Property>): (d: seq<(Property, real)>)
    reads results
    requires PctsWritten(results)
    ensures |d| == |results| && forall i :: 0 <= i < |d| ==> d[i] == (results[i], results[i].priceDiffPct.value)
  {
    if results == [] then []
    else Decorated(results[..|results| - 1]) + [(results[|results| - 1], results[|results| - 1].priceDiffPct.value)]
  }

  predicate BelowComps(x: (Property, real))
  {
    x.1 < -10.0
  }

  predicate AboveComps(x: (Property, real))
  {
    x.1 > 20.0
  }

  /** `deals`: the results more than 10% below their comps, the lowest percentage first. */
  function Deals(d: seq<(Property, real)>): (r: seq<(Property, real)>)
    ensures multiset(r) == multiset(Filter(d, BelowComps))
    ensures forall i :: 0 <= i < |r| ==> r[i] in d && r[i].1 < -10.0
    ensures forall i, j :: 0 <= i < j < |r| ==> r[i].1 <= r[j].1
  {
    var r := SortByKey(Filter(d, BelowComps));
    forall i | 0 <= i < |r|
      ensures r[i] in d && r[i].1 < -10.0
    {
      assert r[i] in multiset(Filter(d, BelowComps));
    }
    r
  }

  /**
   * `overpriced`: the results more than 20% above their comps, sorted by
   * `-priceDiffPct`, so the highest percentage first; each carries its negated percentage.
   */
  function Overpriced(d: seq<(Property, real)>): (r: seq<(Property, real)>)
    ensures multiset(r) == multiset(Negated(Filter(d, AboveComps)))
    ensures forall i :: 0 <= i < |r| ==> (r[i].0, -r[i].1) in d && -r[i].1 > 20.0
    ensures forall i, j :: 0 <= i < j < |r| ==> -r[i].1 >= -r[j].1
  {
    var above := Filter(d, AboveComps);
    var r := SortByKey(Negated(above));
    PermutedNegatedFrom(above, r);
    FilterMembers(d, AboveComps);
    r
  }

  /** Every deal is a result whose own `priceDiffPct` is below -10 and is the deal's key. */
  lemma DealsOfResults(results: seq<Property>, i: nat)
    requires PctsWritten(results) && i < |Deals(Decorated(results))|
    ensures var x := Deals(Decorated(results))[i];
      x.0 in results && x.0.priceDiffPct == Some(x.1) && x.1 < -10.0
  {
    var d := Decorated(results);
    var x := Deals(d)[i];
    var k :| 0 <= k < |d| && d[k] == x;
  }

  /** Every result whose `priceDiffPct` is below -10 is a deal, with that percentage. */
  lemma DealsComplete(results: seq<Property>, k: nat)
    requires PctsWritten(results) && k < |results| && results[k].priceDiffPct.value < -10.0
    ensures (results[k], results[k].priceDiffPct.value) in Deals(Decorated(results))
  {
    var d := Decorated(results);
    assert BelowComps(d[k]);
    assert d[k] in multiset(Filter(d, BelowComps));
    assert d[k] in multiset(Deals(d));
  }

  /** Every overpriced entry is a result whose own `priceDiffPct` is above 20 and is its negated key. */
  lemma OverpricedOfResults(results: seq<Property>, i: nat)
    requires PctsWritten(results) && i < |Overpriced(Decorated(results))|
    ensures var x := Overpriced(Decorated(results))[i];
      x.0 in results && x.0.priceDiffPct == Some(-x.1) && -x.1 > 20.0
  {
    var d := Decorated(results);
    var x := Overpriced(d)[i];
    var k := OverpricedAt(d, i);
    assert d[k] == (results[k], results[k].priceDiffPct.value);
  }

  /** Overpriced entry `i` is an entry of the decorated list with its key negated. */
  lemma OverpricedAt(d: seq<(Property, real)>, i: nat) returns (k: nat)
    requires i < |Overpriced(d)|
    ensures k < |d| && d[k].0 == Overpriced(d)[i].0 && d[k].1 == -Overpriced(d)[i].1 > 20.0
  {
    var x := Overpriced(d)[i];
    assert (x.0, -x.1) in d;
    k :| 0 <= k < |d| && d[k] == (x.0, -x.1);
  }

  /** Every result whose `priceDiffPct` is above 20 is overpriced, keyed by its negated percentage. */
  lemma OverpricedComplete(results: seq<Property>, k: nat)
    requires PctsWritten(results) && k < |results| && results[k].priceDiffPct.value > 20.0
    ensures (results[k], -results[k].priceDiffPct.value) in Overpriced(Decorated(results))
  {
    var d := Decorated(results);
    assert d[k] == (results[k], results[k].priceDiffPct.value);
    OverpricedHas(d, k);
  }

  /** An entry keyed above 20 is overpriced, with its key negated. */
  lemma OverpricedHas(d: seq<(Property, real)>, k: nat)
    requires k < |d| && d[k].1 > 20.0
    ensures (d[k].0, -d[k].1) in Overpriced(d)
  {
    var above := Filter(d, AboveComps);
    var j :| 0 <= j < |above| && above[j] == d[k];
    assert Negated(above)[j] == (d[k].0, -d[k].1);
    assert Negated(above)[j] in multiset(Negated(above));
    assert Negated(above)[j] in multiset(Overpriced(d));
  }

  /** Every record occurs in at most one decorated entry. */
  predicate OneEntryPerRecord(d: seq<(Property, real)>)
  {
    forall a, b :: 0 <= a < |d| && 0 <= b < |d| && d[a].0 == d[b].0 ==> a == b
  }

  /**
   * No record is both a deal and overpriced when each record has one
   * percentage, and the two lists together hold at most all results.
   */
  lemma DealsOverpricedDisjoint(results: seq<Property>)
    requires Distinct(results) && PctsWritten(results)
    ensures forall i, j :: 0 <= i < |Deals(Decorated(results))| && 0 <= j < |Overpriced(Decorated(results))| ==>
      Deals(Decorated(results))[i].0 != Overpriced(Decorated(results))[j].0
    ensures |Deals(Decorated(results))| + |Overpriced(Decorated(results))| <= |results|
  {
    var d := Decorated(results);
    assert OneEntryPerRecord(d) by {
      forall a, b | 0 <= a < |d| && 0 <= b < |d| && d[a].0 == d[b].0
        ensures a == b
      {
        assert results[a] == results[b];
      }
    }
    DecoratedDisjoint(d);
  }

  /** The same for any decorated list whose records are distinct. */
  lemma DecoratedDisjoint(d: seq<(Property, real)>)
    requires OneEntryPerRecord(d)
    ensures forall i, j :: 0 <= i < |Deals(d)| && 0 <= j < |Overpriced(d)| ==> Deals(d)[i].0 != Overpriced(d)[j].0
    ensures |Deals(d)| + |Overpriced(d)| <= |d|
  {
    DealsOverpricedApart(d);
    FilterDisjoint(d, BelowComps, AboveComps);
    var deals, over := Deals(d), Overpriced(d);
    assert |deals| == |Filter(d, BelowComps)| by {
      assert |multiset(deals)| == |multiset(Filter(d, BelowComps))|;
    }
    assert |over| == |Filter(d, AboveComps)| by {
      assert |multiset(over)| == |multiset(Negated(Filter(d, AboveComps)))|;
    }
  }

  lemma DealsOverpricedApart(d: seq<(Property, real)>)
    requires OneEntryPerRecord(d)
    ensures forall i, j :: 0 <= i < |Deals(d)| && 0 <= j < |Overpriced(d)| ==> Deals(d)[i].0 != Overpriced(d)[j].0
  {
    var deals, over := Deals(d), Overpriced(d);
    forall i, j | 0 <= i < |deals| && 0 <= j < |over|
      ensures deals[i].0 != over[j].0
    {
      assert (over[j].0, -over[j].1) in d && -over[j].1 > 20.0;
      var x, y := deals[i], (over[j].0, -over[j].1);
      assert x in d && x.1 < -10.0;
      var a :| 0 <= a < |d| && d[a] == x;
      var b :| 0 <= b < |d| && d[b] == y;
    }
  }
}
