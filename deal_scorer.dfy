/**
 * deal_scorer.py: the glue around the isolation forest. Valid listings are
 * selected and turned into feature vectors; the forest's decision scores and
 * predictions (inputs here) are rescaled to a 0-100 deal score and written,
 * with the anomaly flag and the integer price per square foot, into each
 * property record in place; the records are tallied per city; and the unsold
 * ones are ranked by deal score.
 */
module DealScorer {
  import opened Wrappers
  import opened Numerics
  import opened Seqs
  import opened Sorting
  import opened Listings

  /**
   * A property record (a dict of the loaded data set). The input fields never
   * change; `calculate_deal_score` adds three keys to it, `None` until written.
   */
  class Property {
    const listing: Listing
    var dealScore: Option<int>
    var isAnomaly: Option<int>
    var pricePerSqft: Option<int>

    constructor (l: Listing)
      ensures listing == l && dealScore == None && isAnomaly == None && pricePerSqft == None
    {
      listing := l;
      dealScore, isAnomaly, pricePerSqft := None, None, None;
    }
  }

  /** An entry of `valid`: the property record itself (shared, not copied), its price per sqft and its features. */
  datatype Entry = Entry(property: Property, ppsf: real, features: seq<real>)

  predicate IsAccepted(p: Property)
  {
    Accepted(p.listing)
  }

  /** The five scaled features: square feet, beds, baths (0 when missing), year built (1970 when missing), price per square foot. */
  function Features(l: Listing): seq<real>
    requires Accepted(l)
  {
    [l.sqft.value, l.beds.value, OrDefault(l.baths, 0.0), OrDefault(l.yearBuilt, 1970.0), Ppsf(l)]
  }

  /** The shape of a feature vector and the defaults it fills in. */
  lemma FeaturesShape(l: Listing)
    requires Accepted(l)
    ensures var f := Features(l);
      |f| == 5 && f[0] == l.sqft.value && f[1] == l.beds.value
      && f[2] == (if Truthy(l.baths) then l.baths.value else 0.0)
      && f[3] == (if Truthy(l.yearBuilt) then l.yearBuilt.value else 1970.0)
      && f[4] == l.price.value / l.sqft.value && f[4] > 0.0
  {
  }

  function EntryOf(p: Property): Entry
    requires IsAccepted(p)
  {
    Entry(p, Ppsf(p.listing), Features(p.listing))
  }

  /**
   * The filter loop of `calculate_deal_score` (lines 29-51): one entry per
   * accepted property, in input order.
   */
  method SelectValid(properties: seq<Property>) returns (valid: seq<Entry>)
    ensures |valid| == |Filter(properties, IsAccepted)|
    ensures forall i :: 0 <= i < |valid| ==>
      IsAccepted(Filter(properties, IsAccepted)[i]) && valid[i] == EntryOf(Filter(properties, IsAccepted)[i])
  {
    valid := [];
    for i := 0 to |properties|
      invariant |valid| == |Filter(properties[..i], IsAccepted)|
      invariant forall k :: 0 <= k < |valid| ==> valid[k] == EntryOf(Filter(properties[..i], IsAccepted)[k])
    {
      FilterSnoc(properties, i, IsAccepted);
      var p := properties[i];
      var l := p.listing;
      if !(Truthy(l.sqft) && Truthy(l.beds) && Truthy(l.price)) {
        continue;
      }
      if l.sqft.value <= 0.0 || l.price.value <= 50000.0 || l.price.value > 5000000.0 {
        continue;
      }
      if l.sqft.value > 10000.0 {
        continue;
      }
      var ppsf := l.price.value / l.sqft.value;
      valid := valid + [Entry(p, ppsf, [l.sqft.value, l.beds.value, OrDefault(l.baths, 0.0), OrDefault(l.yearBuilt, 1970.0), ppsf])];
    }
    assert properties[..|properties|] == properties;
  }

  // ---------------------------------------------------------------------------
  // Score normalisation (lines 76-77), over real numbers

  function MinOf(s: seq<real>): (m: real)
    requires |s| > 0
    ensures m in s && forall i :: 0 <= i < |s| ==> m <= s[i]
  {
    if |s| == 1 then s[0]
    else
      var rest := MinOf(s[1..]);
      if s[0] <= rest then s[0] else rest
  }

  function MaxOf(s: seq<real>): (m: real)
    requires |s| > 0
    ensures m in s && forall i :: 0 <= i < |s| ==> s[i] <= m
  {
    if |s| == 1 then s[0]
    else
      var rest := MaxOf(s[1..]);
      if s[0] >= rest then s[0] else rest
  }

  /** Maps `lo` to 100 and `hi` to 0, linearly: the lowest raw score becomes the best deal score. */
  function Rescale(x: real, lo: real, hi: real): real
    requires lo < hi
  {
    100.0 - (x - lo) / (hi - lo) * 100.0
  }

  /** The rescaling maps [lo, hi] onto [0, 100], lo to 100 and hi to 0, and reverses the order. */
  lemma RescaleProperties(x: real, y: real, lo: real, hi: real)
    requires lo < hi
    ensures lo <= x <= hi ==> 0.0 <= Rescale(x, lo, hi) <= 100.0
    ensures Rescale(lo, lo, hi) == 100.0 && Rescale(hi, lo, hi) == 0.0
    ensures x < y ==> Rescale(x, lo, hi) > Rescale(y, lo, hi)
  {
    var w := hi - lo;
    if lo <= x <= hi {
      UnitRatio(x - lo, w);
    }
    if x < y {
      RatioMonotone(x - lo, y - lo, w);
    }
  }

  lemma UnitRatio(a: real, w: real)
    requires w > 0.0 && 0.0 <= a <= w
    ensures 0.0 <= a / w <= 1.0
  {
    var q := a / w;
    assert q * w == a;
    assert (1.0 - q) * w == w - a;
  }

  lemma RatioMonotone(a: real, b: real, w: real)
    requires w > 0.0 && a < b
    ensures a / w < b / w
  {
    var q := (b - a) / w;
    assert q * w == b - a;
    assert b / w - a / w == q;
  }

  /**
   * `normalized`: every decision score rescaled, inverted, to [0, 100]. The
   * source divides by zero when all scores are equal; callers must avoid that.
   */
  function Normalize(scores: seq<real>): (r: seq<real>)
    requires |scores| > 0 && MinOf(scores) < MaxOf(scores)
    ensures |r| == |scores|
    ensures forall i :: 0 <= i < |r| ==> 0.0 <= r[i] <= 100.0
  {
    var lo, hi := MinOf(scores), MaxOf(scores);
    var r := seq(|scores|, i requires 0 <= i < |scores| => Rescale(scores[i], lo, hi));
    forall i | 0 <= i < |r|
      ensures 0.0 <= r[i] <= 100.0
    {
      RescaleProperties(scores[i], scores[i], lo, hi);
    }
    r
  }

  /**
   * The lowest decision score (the most anomalous record) gets 100, the highest
   * gets 0, and a lower decision score always gets a higher normalised score.
   */
  lemma NormalizeOrder(scores: seq<real>, i: nat, j: nat)
    requires |scores| > 0 && MinOf(scores) < MaxOf(scores)
    requires i < |scores| && j < |scores|
    ensures scores[i] == MinOf(scores) ==> Normalize(scores)[i] == 100.0
    ensures scores[i] == MaxOf(scores) ==> Normalize(scores)[i] == 0.0
    ensures scores[i] < scores[j] ==> Normalize(scores)[i] > Normalize(scores)[j]
  {
    RescaleProperties(scores[i], scores[j], MinOf(scores), MaxOf(scores));
  }

  /** What the tagging loop writes, as in `int(predictions[i] == -1)`. */
  function AnomalyFlag(prediction: int): (flag: int)
    ensures flag == 0 || flag == 1
    ensures flag == 1 <==> prediction == -1
  {
    if prediction == -1 then 1 else 0
  }

  /** The property records of a list of entries. */
  function PropertiesOf(valid: seq<Entry>): set<Property>
  {
    set i | 0 <= i < |valid| :: valid[i].property
  }

  /**
   * The tagging loop (lines 80-83): into the record of entry `i` it writes the
   * truncated normalised score, the anomaly flag and the truncated price per
   * square foot. The records are distinct objects (they come from one JSON load).
   */
  method Tag(valid: seq<Entry>, predictions: seq<int>, scores: seq<real>)
    requires |predictions| == |valid| && |scores| == |valid| && |valid| > 0
    requires MinOf(scores) < MaxOf(scores)
    requires forall i, j :: 0 <= i < j < |valid| ==> valid[i].property != valid[j].property
    modifies PropertiesOf(valid)
    ensures forall i :: 0 <= i < |valid| ==>
      valid[i].property.dealScore == Some(Trunc(Normalize(scores)[i]))
      && valid[i].property.isAnomaly == Some(AnomalyFlag(predictions[i]))
      && valid[i].property.pricePerSqft == Some(Trunc(valid[i].ppsf))
    ensures forall i :: 0 <= i < |valid| ==> 0 <= valid[i].property.dealScore.value <= 100
  {
    var normalized := Normalize(scores);
    for i := 0 to |valid|
      invariant forall k :: 0 <= k < i ==>
        valid[k].property.dealScore == Some(Trunc(normalized[k]))
        && valid[k].property.isAnomaly == Some(AnomalyFlag(predictions[k]))
        && valid[k].property.pricePerSqft == Some(Trunc(valid[k].ppsf))
    {
      var p := valid[i].property;
      p.dealScore := Some(Trunc(normalized[i]));
      p.isAnomaly := Some(if predictions[i] == -1 then 1 else 0);
      p.pricePerSqft := Some(Trunc(valid[i].ppsf));
    }
  }

  /**
   * `calculate_deal_score`: select and featurise, then tag with the forest's
   * outputs for those features (`predictions`, `scores`, one per entry).
   */
  method CalculateDealScore(properties: seq<Property>, predictions: seq<int>, scores: seq<real>)
    returns (valid: seq<Entry>)
    requires Distinct(properties)
    requires |predictions| == |Filter(properties, IsAccepted)| && |scores| == |predictions| && |scores| > 0
    requires MinOf(scores) < MaxOf(scores)
    modifies set i | 0 <= i < |properties| :: properties[i]
    ensures |valid| == |Filter(properties, IsAccepted)|
    ensures forall i :: 0 <= i < |valid| ==>
      valid[i].property == Filter(properties, IsAccepted)[i]
      && valid[i].ppsf == Ppsf(valid[i].property.listing)
      && valid[i].features == Features(valid[i].property.listing)
      && valid[i].property.dealScore == Some(Trunc(Normalize(scores)[i]))
      && 0 <= valid[i].property.dealScore.value <= 100
      && valid[i].property.isAnomaly == Some(AnomalyFlag(predictions[i]))
      && valid[i].property.pricePerSqft == Some(Trunc(valid[i].ppsf))
    ensures forall i :: 0 <= i < |properties| && !IsAccepted(properties[i]) ==> unchanged(properties[i])
  {
    valid := SelectValid(properties);
    FilterDistinct(properties, IsAccepted);
    Tag(valid, predictions, scores);
  }

  /** The integer price per square foot written into an accepted record is at least 5. */
  lemma PricePerSqftBound(e: Entry)
    requires IsAccepted(e.property) && e == EntryOf(e.property)
    ensures e.ppsf > 0.0 && Trunc(e.ppsf) >= 5
  {
  }

  // ---------------------------------------------------------------------------
  // analyze_by_city (lines 87-103)

  /** A key of `cities`: the listing's city, 'Unknown' when missing, Python `None` when null. */
  type CityKey = Option<string>

  /** `avg_ppsf` first collects the samples, then is overwritten with their truncated mean. */
  datatype AvgPpsf = Samples(ppsfs: seq<real>) | Average(value: int)

  datatype CityStats = CityStats(count: nat, deals: nat, avgPpsf: AvgPpsf)

  function CityOf(e: Entry): CityKey
  {
    CityOrUnknown(e.property.listing)
  }

  /** The entry was tagged as an anomaly (a non-zero tag counts as true). */
  predicate Flagged(e: Entry)
    reads e.property
  {
    e.property.isAnomaly.Some? && e.property.isAnomaly.value != 0
  }

  /** The anomaly flags of the entries' records, as they stand now. */
  function FlagsOf(s: seq<Entry>): (r: seq<bool>)
    reads PropertiesOf(s)
    ensures |r| == |s| && forall i :: 0 <= i < |s| ==> r[i] == Flagged(s[i])
  {
    if s == [] then [] else FlagsOf(s[..|s| - 1]) + [Flagged(s[|s| - 1])]
  }

  /** The number of entries from city `c`. */
  function CountIn(s: seq<Entry>, c: CityKey): nat
  {
    if s == [] then 0
    else CountIn(s[..|s| - 1], c) + (if CityOf(s[|s| - 1]) == c then 1 else 0)
  }

  /** The number of entries from city `c` whose flag is set. */
  function DealsIn(s: seq<Entry>, flags: seq<bool>, c: CityKey): nat
    requires |flags| == |s|
  {
    if s == [] then 0
    else DealsIn(s[..|s| - 1], flags[..|s| - 1], c) + (if CityOf(s[|s| - 1]) == c && flags[|s| - 1] then 1 else 0)
  }

  /** The prices per square foot of the entries from city `c`, in order. */
  function PpsfsIn(s: seq<Entry>, c: CityKey): (r: seq<real>)
    ensures |r| == CountIn(s, c)
  {
    if s == [] then []
    else
      var last := s[|s| - 1];
      if CityOf(last) == c then PpsfsIn(s[..|s| - 1], c) + [last.ppsf] else PpsfsIn(s[..|s| - 1], c)
  }

  /** The number of flags set: `deals_found` of the summary. */
  function Anomalies(flags: seq<bool>): nat
  {
    if flags == [] then 0
    else Anomalies(flags[..|flags| - 1]) + (if flags[|flags| - 1] then 1 else 0)
  }

  function CountField(s: CityStats): int { s.count }

  function DealsField(s: CityStats): int { s.deals }

  /** The sum of one field over the keys of `order`. */
  function Total(order: seq<CityKey>, cities: map<CityKey, CityStats>, field: CityStats -> int): int
    requires forall k :: k in order ==> k in cities
  {
    if order == [] then 0
    else Total(order[..|order| - 1], cities, field) + field(cities[order[|order| - 1]])
  }

  /** Changing the value of one key of a list without repetitions changes the total by the difference. */
  lemma {:induction false} TotalUpdate(order: seq<CityKey>, cities: map<CityKey, CityStats>, k: CityKey,
                                       v: CityStats, field: CityStats -> int)
    requires Distinct(order) && k in order
    requires forall c :: c in order ==> c in cities
    ensures Total(order, cities[k := v], field) == Total(order, cities, field) - field(cities[k]) + field(v)
  {
    var init := order[..|order| - 1];
    if order[|order| - 1] == k {
      forall j | 0 <= j < |init|
        ensures init[j] != k
      {
        assert init[j] == order[j];
      }
      TotalFrame(init, cities, cities[k := v], field);
    } else {
      assert k in init by {
        var j :| 0 <= j < |order| && order[j] == k;
        assert j < |order| - 1;
        assert init[j] == k;
      }
      TotalUpdate(init, cities, k, v, field);
    }
  }

  /** The total depends only on the field's values at the keys of `order`. */
  lemma {:induction false} TotalFrame(order: seq<CityKey>, a: map<CityKey, CityStats>, b: map<CityKey, CityStats>,
                                      field: CityStats -> int)
    requires forall c :: c in order ==> c in a && c in b && field(a[c]) == field(b[c])
    ensures Total(order, a, field) == Total(order, b, field)
  {
    if order != [] {
      TotalFrame(order[..|order| - 1], a, b, field);
    }
  }

  /** Appending a new key adds its value. */
  lemma TotalSnoc(order: seq<CityKey>, cities: map<CityKey, CityStats>, k: CityKey, v: CityStats,
                  field: CityStats -> int)
    requires k !in order
    requires forall c :: c in order ==> c in cities
    ensures Total(order + [k], cities[k := v], field) == Total(order, cities, field) + field(v)
  {
    assert (order + [k])[..|order|] == order;
    TotalFrame(order, cities, cities[k := v], field);
  }

  /** A city with a positive count is one that some entry comes from; its deals never exceed its count. */
  lemma {:induction false} CountInPositive(s: seq<Entry>, flags: seq<bool>, c: CityKey)
    requires |flags| == |s|
    ensures CountIn(s, c) >= 1 <==> exists i :: 0 <= i < |s| && CityOf(s[i]) == c
    ensures DealsIn(s, flags, c) <= CountIn(s, c)
  {
    if s != [] {
      var init := s[..|s| - 1];
      CountInPositive(init, flags[..|s| - 1], c);
      if CountIn(init, c) >= 1 {
        var i :| 0 <= i < |init| && CityOf(init[i]) == c;
        assert s[i] == init[i];
      }
      if exists i :: 0 <= i < |s| && CityOf(s[i]) == c {
        var i :| 0 <= i < |s| && CityOf(s[i]) == c;
        if i < |s| - 1 {
          assert init[i] == s[i];
        }
      }
    }
  }

  /** How the per-city functions grow when one entry and its flag are appended. */
  lemma SnocStep(s: seq<Entry>, flags: seq<bool>, e: Entry, f: bool, c: CityKey)
    requires |flags| == |s|
    ensures CountIn(s + [e], c) == CountIn(s, c) + (if CityOf(e) == c then 1 else 0)
    ensures DealsIn(s + [e], flags + [f], c) == DealsIn(s, flags, c) + (if CityOf(e) == c && f then 1 else 0)
    ensures PpsfsIn(s + [e], c) == if CityOf(e) == c then PpsfsIn(s, c) + [e.ppsf] else PpsfsIn(s, c)
    ensures Anomalies(flags + [f]) == Anomalies(flags) + (if f then 1 else 0)
  {
    assert (s + [e])[..|s|] == s;
    assert (flags + [f])[..|s|] == flags;
  }

  /** `order` lists the keys of `cities`, each once. */
  ghost predicate KeyOrder(cities: map<CityKey, CityStats>, order: seq<CityKey>)
  {
    Distinct(order) && forall c :: c in cities <==> c in order
  }

  /** Each city of `s` holds its count, its number of flagged entries and its samples. */
  ghost predicate StatsOf(s: seq<Entry>, flags: seq<bool>, cities: map<CityKey, CityStats>)
    requires |flags| == |s|
  {
    (forall c :: c in cities <==> CountIn(s, c) >= 1)
    && forall c :: c in cities ==>
         cities[c] == CityStats(CountIn(s, c), DealsIn(s, flags, c), Samples(PpsfsIn(s, c)))
  }

  /** What the first loop of `analyze_by_city` has built after the entries `s`. */
  ghost predicate Tallied(s: seq<Entry>, flags: seq<bool>, cities: map<CityKey, CityStats>, order: seq<CityKey>)
    requires |flags| == |s|
  {
    KeyOrder(cities, order) && StatsOf(s, flags, cities)
    && Total(order, cities, CountField) == |s|
    && Total(order, cities, DealsField) == Anomalies(flags)
  }

  /** The statistics of `e`'s city after counting `e`, whose flag is `f`. */
  function Bumped(cities: map<CityKey, CityStats>, e: Entry, f: bool): CityStats
    requires CityOf(e) in cities ==> cities[CityOf(e)].avgPpsf.Samples?
  {
    var before := if CityOf(e) in cities then cities[CityOf(e)] else CityStats(0, 0, Samples([]));
    CityStats(before.count + 1, before.deals + (if f then 1 else 0), Samples(before.avgPpsf.ppsfs + [e.ppsf]))
  }

  lemma StatsStep(s: seq<Entry>, flags: seq<bool>, e: Entry, f: bool, cities: map<CityKey, CityStats>)
    requires |flags| == |s| && StatsOf(s, flags, cities)
    ensures StatsOf(s + [e], flags + [f], cities[CityOf(e) := Bumped(cities, e, f)])
  {
    var city := CityOf(e);
    if city !in cities {
      CountInPositive(s, flags, city);
    }
    forall c
      ensures CountIn(s + [e], c) == CountIn(s, c) + (if CityOf(e) == c then 1 else 0)
      ensures DealsIn(s + [e], flags + [f], c) == DealsIn(s, flags, c) + (if CityOf(e) == c && f then 1 else 0)
      ensures PpsfsIn(s + [e], c) == if CityOf(e) == c then PpsfsIn(s, c) + [e.ppsf] else PpsfsIn(s, c)
    {
      SnocStep(s, flags, e, f, c);
    }
  }

  lemma TotalsStep(s: seq<Entry>, flags: seq<bool>, e: Entry, f: bool,
                   cities: map<CityKey, CityStats>, order: seq<CityKey>)
    requires |flags| == |s| && Tallied(s, flags, cities, order)
    ensures var order' := if CityOf(e) in cities then order else order + [CityOf(e)];
      var cities' := cities[CityOf(e) := Bumped(cities, e, f)];
      KeyOrder(cities', order')
      && Total(order', cities', CountField) == |s| + 1
      && Total(order', cities', DealsField) == Anomalies(flags + [f])
  {
    var city := CityOf(e);
    var stats := Bumped(cities, e, f);
    if city in cities {
      TotalUpdate(order, cities, city, stats, CountField);
      TotalUpdate(order, cities, city, stats, DealsField);
    } else {
      CountInPositive(s, flags, city);
      TotalSnoc(order, cities, city, stats, CountField);
      TotalSnoc(order, cities, city, stats, DealsField);
    }
    SnocStep(s, flags, e, f, city);
  }

  /** One iteration of the first loop keeps `Tallied`. */
  lemma TallyStep(valid: seq<Entry>, flags: seq<bool>, i: nat, cities: map<CityKey, CityStats>, order: seq<CityKey>)
    requires i < |valid| == |flags| && Tallied(valid[..i], flags[..i], cities, order)
    ensures Tallied(valid[..i + 1], flags[..i + 1], cities[CityOf(valid[i]) := Bumped(cities, valid[i], flags[i])],
                    if CityOf(valid[i]) in cities then order else order + [CityOf(valid[i])])
  {
    assert valid[..i + 1] == valid[..i] + [valid[i]];
    assert flags[..i + 1] == flags[..i] + [flags[i]];
    StatsStep(valid[..i], flags[..i], valid[i], flags[i], cities);
    TotalsStep(valid[..i], flags[..i], valid[i], flags[i], cities, order);
  }

  /**
   * The first loop of `analyze_by_city` (lines 89-97): per city, the number of
   * entries, the number flagged, and the list of their prices per square foot.
   * `order` lists the city keys, each once.
   */
  method TallyCities(valid: seq<Entry>) returns (cities: map<CityKey, CityStats>, order: seq<CityKey>)
    requires forall i :: 0 <= i < |valid| ==> valid[i].property.isAnomaly.Some?
    ensures Distinct(order) && forall c :: c in cities <==> c in order
    ensures forall c :: c in cities <==> CountIn(valid, c) >= 1
    ensures forall c :: c in cities ==>
      cities[c] == CityStats(CountIn(valid, c), DealsIn(valid, FlagsOf(valid), c), Samples(PpsfsIn(valid, c)))
    ensures Total(order, cities, CountField) == |valid|
    ensures Total(order, cities, DealsField) == Anomalies(FlagsOf(valid))
  {
    ghost var flags := FlagsOf(valid);
    cities, order := map[], [];
    for i := 0 to |valid|
      invariant Tallied(valid[..i], flags[..i], cities, order)
    {
      var v := valid[i];
      var city := CityOrUnknown(v.property.listing);
      TallyStep(valid, flags, i, cities, order);
      // a new city starts from zero counts and no samples
      var before := CityStats(0, 0, Samples([]));
      if city in cities {
        before := cities[city];
      } else {
        order := order + [city];
      }
      var stats := before.(count := before.count + 1, avgPpsf := Samples(before.avgPpsf.ppsfs + [v.ppsf]));
      if v.property.isAnomaly.value != 0 {
        stats := stats.(deals := stats.deals + 1);
      }
      assert stats == Bumped(cities, v, flags[i]);
      cities := cities[city := stats];
    }
    assert valid[..|valid|] == valid && flags[..|valid|] == flags;
    assert flags == FlagsOf(valid);
  }

  /** The second loop (lines 100-101): each city's samples replaced by their truncated mean. */
  method AverageCities(tallied: map<CityKey, CityStats>, order: seq<CityKey>) returns (cities: map<CityKey, CityStats>)
    requires forall c :: c in tallied <==> c in order
    requires forall c :: c in tallied ==> tallied[c].avgPpsf.Samples? && |tallied[c].avgPpsf.ppsfs| > 0
    ensures forall c :: c in cities <==> c in tallied
    ensures forall c :: c in cities ==>
      cities[c] == tallied[c].(avgPpsf := Average(Trunc(Mean(tallied[c].avgPpsf.ppsfs))))
  {
    cities := tallied;
    for j := 0 to |order|
      invariant forall c :: c in cities <==> c in tallied
      invariant forall c :: c in cities ==>
        cities[c] == if c in order[..j] then tallied[c].(avgPpsf := Average(Trunc(Mean(tallied[c].avgPpsf.ppsfs))))
                     else tallied[c]
    {
      var city := order[j];
      assert order[..j + 1] == order[..j] + [city];
      var stats := cities[city];
      cities := cities[city := stats.(avgPpsf := Average(Trunc(Mean(tallied[city].avgPpsf.ppsfs))))];
    }
    assert order[..|order|] == order;
  }

  /**
   * `analyze_by_city`: per city, the number of entries, the number of those
   * flagged as anomalies, and the truncated mean price per square foot. `order`
   * lists the city keys, each once.
   * Every entry has been tagged already.
   */
  method AnalyzeByCity(valid: seq<Entry>) returns (cities: map<CityKey, CityStats>, order: seq<CityKey>)
    requires forall i :: 0 <= i < |valid| ==> valid[i].property.isAnomaly.Some?
    ensures Distinct(order) && forall c :: c in cities <==> c in order
    ensures forall c :: c in cities <==> exists i :: 0 <= i < |valid| && CityOf(valid[i]) == c
    ensures forall c :: c in cities ==>
      cities[c].count == CountIn(valid, c) >= 1
      && cities[c].deals == DealsIn(valid, FlagsOf(valid), c) <= cities[c].count
      && cities[c].avgPpsf == Average(Trunc(Mean(PpsfsIn(valid, c))))
    ensures Total(order, cities, CountField) == |valid|
    ensures Total(order, cities, DealsField) == Anomalies(FlagsOf(valid))
  {
    ghost var flags := FlagsOf(valid);
    var tallied;
    tallied, order := TallyCities(valid);
    assert FlagsOf(valid) == flags;
    cities := AverageCities(tallied, order);
    assert FlagsOf(valid) == flags;
    forall c
      ensures c in cities <==> exists i :: 0 <= i < |valid| && CityOf(valid[i]) == c
      ensures DealsIn(valid, flags, c) <= CountIn(valid, c)
    {
      CountInPositive(valid, flags, c);
    }
    TotalFrame(order, cities, tallied, CountField);
    TotalFrame(order, cities, tallied, DealsField);
  }

  // ---------------------------------------------------------------------------
  // The top deals of main (lines 117-124)

  /** The entry's listing has no sold date, so it is still for sale. */
  predicate ForSale(e: Entry)
  {
    !IsSold(e.property.listing)
  }

  /** Whether every entry's record carries a deal score. */
  predicate Scored(s: seq<Entry>)
    reads PropertiesOf(s)
  {
    forall i :: 0 <= i < |s| ==> s[i].property.dealScore.Some?
  }

  /** The deal scores of the entries' records, as the sort key reads them. */
  function ScoresOf(s: seq<Entry>): (r: seq<int>)
    reads PropertiesOf(s)
    requires Scored(s)
    ensures |r| == |s| && forall i :: 0 <= i < |s| ==> r[i] == s[i].property.dealScore.value
  {
    if s == [] then [] else ScoresOf(s[..|s| - 1]) + [s[|s| - 1].property.dealScore.value]
  }

  /** Each entry with its sort key `-dealScore`, as CPython computes it once per element. */
  function Decorated(s: seq<Entry>, scores: seq<int>): (d: seq<(Entry, real)>)
    requires |scores| == |s|
    ensures |d| == |s| && forall i :: 0 <= i < |s| ==> d[i] == (s[i], -(scores[i] as real))
  {
    seq(|s|, i requires 0 <= i < |s| => (s[i], -(scores[i] as real)))
  }

  predicate ForSaleKeyed(x: (Entry, real))
  {
    ForSale(x.0)
  }

  /** Dropping the keys after filtering on the entry is filtering the entries. */
  lemma {:induction false} FirstsFilter(d: seq<(Entry, real)>)
    ensures Firsts(Filter(d, ForSaleKeyed)) == Filter(Firsts(d), ForSale)
  {
    if d != [] {
      FirstsFilter(d[1..]);
      var head := if ForSaleKeyed(d[0]) then [d[0]] else [];
      var rest := Filter(d[1..], ForSaleKeyed);
      assert Firsts(d)[1..] == Firsts(d[1..]);
      assert Firsts(head + rest) == Firsts(head) + Firsts(rest) by {
        if head != [] {
          assert (head + rest)[1..] == rest;
        } else {
          assert head + rest == rest;
        }
      }
    }
  }

  /**
   * The unsold entries, each with its sort key (the negated deal score), so
   * highest deal score first.
   * Equal scores keep their order in `valid` (Sorting.SortByKeyStable).
   */
  function RankForSale(valid: seq<Entry>, scores: seq<int>): (r: seq<(Entry, real)>)
    requires |scores| == |valid|
    ensures multiset(r) == multiset(Filter(Decorated(valid, scores), ForSaleKeyed))
    ensures forall i, j :: 0 <= i < j < |r| ==> r[i].1 <= r[j].1
  {
    SortByKey(Filter(Decorated(valid, scores), ForSaleKeyed))
  }

  /** The ranking is a permutation of the unsold entries. */
  lemma RankForSalePermutes(valid: seq<Entry>, scores: seq<int>)
    requires |scores| == |valid|
    ensures multiset(Firsts(RankForSale(valid, scores))) == multiset(Filter(valid, ForSale))
    ensures |RankForSale(valid, scores)| == |Filter(valid, ForSale)|
  {
    var d := Decorated(valid, scores);
    SortByKeyFirsts(Filter(d, ForSaleKeyed));
    FirstsFilter(d);
    assert Firsts(d) == valid;
  }

  /** Each ranked entry is an unsold entry of `valid` with its own negated score as key. */
  lemma RankForSaleKeys(valid: seq<Entry>, scores: seq<int>, i: nat)
    requires |scores| == |valid| && i < |RankForSale(valid, scores)|
    ensures exists j :: 0 <= j < |valid| && ForSale(valid[j]) && RankForSale(valid, scores)[i] == (valid[j], -(scores[j] as real))
  {
    var d := Decorated(valid, scores);
    var x := RankForSale(valid, scores)[i];
    assert x in multiset(RankForSale(valid, scores));
    assert x in Filter(d, ForSaleKeyed);
    var j :| 0 <= j < |d| && d[j] == x;
  }

  /** The first fifteen ranked unsold entries, the ones shown. */
  function TopDeals(valid: seq<Entry>, scores: seq<int>): (r: seq<(Entry, real)>)
    requires |scores| == |valid|
    ensures r <= RankForSale(valid, scores)
    ensures |r| == if |RankForSale(valid, scores)| < 15 then |RankForSale(valid, scores)| else 15
  {
    Take(RankForSale(valid, scores), 15)
  }

  /**
   * At most fifteen unsold entries are shown, highest score first, and no
   * unsold entry left out has a higher deal score than one shown.
   */
  lemma TopDealsBest(valid: seq<Entry>, scores: seq<int>, j: nat)
    requires |scores| == |valid| && j < |valid| && ForSale(valid[j])
    requires (valid[j], -(scores[j] as real)) !in TopDeals(valid, scores)
    ensures |TopDeals(valid, scores)| == 15
    ensures forall i :: 0 <= i < |TopDeals(valid, scores)| ==> scores[j] as real <= -TopDeals(valid, scores)[i].1
  {
    var x := (valid[j], -(scores[j] as real));
    var d := Decorated(valid, scores);
    var ranked := RankForSale(valid, scores);
    var r := TopDeals(valid, scores);
    assert d[j] == x;
    assert x in multiset(ranked);
    var m :| 0 <= m < |ranked| && ranked[m] == x;
    assert m >= |r|;
  }
}
