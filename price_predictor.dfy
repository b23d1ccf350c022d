/**
 * price_predictor.py: the glue around the gradient-boosting regressor. The
 * accepted listings become feature rows, kept in lockstep with their prices
 * and their positions in the input; the regressor's predictions (an input
 * here) are written into copies of the listings, with the error and the
 * percentage error; and the deal list picks the copies by that percentage.
 */
module PricePredictor {
  import opened Numerics
  import opened Seqs
  import opened Sorting
  import opened Listings

  // ---------------------------------------------------------------------------
  // prepare_features (lines 25-51)

  /**
   * The six regression features: square feet, beds, baths (0 when missing), year built
   * (1970 when missing), lot size (0 when missing), and 1 for a sold listing, 0 otherwise.
   */
  function FeatureRow(l: Listing): seq<real>
    requires Accepted(l)
  {
    [l.sqft.value, l.beds.value, OrDefault(l.baths, 0.0), OrDefault(l.yearBuilt, 1970.0),
     OrDefault(l.lotSize, 0.0), if IsSold(l) then 1.0 else 0.0]
  }

  /** The shape of a feature row and the defaults it fills in. */
  lemma FeatureRowShape(l: Listing)
    requires Accepted(l)
    ensures var f := FeatureRow(l);
      |f| == 6 && f[0] == l.sqft.value > 0.0 && f[1] == l.beds.value
      && f[2] == (if Truthy(l.baths) then l.baths.value else 0.0)
      && f[3] == (if Truthy(l.yearBuilt) then l.yearBuilt.value else 1970.0)
      && f[4] == (if Truthy(l.lotSize) then l.lotSize.value else 0.0)
      && (f[5] == 1.0 <==> l.soldDate.Some? && l.soldDate.value != "")
      && (f[5] == 0.0 || f[5] == 1.0)
  {
  }

  /** The positions of the accepted listings, in input order. */
  function AcceptedIndices(ps: seq<Listing>): (r: seq<nat>)
    ensures |r| <= |ps|
    ensures forall k :: 0 <= k < |r| ==> r[k] < |ps| && Accepted(ps[r[k]])
  {
    if ps == [] then []
    else
      var n := |ps| - 1;
      AcceptedIndices(ps[..n]) + (if Accepted(ps[n]) then [n] else [])
  }

  /** The positions are strictly increasing. */
  lemma {:induction false} AcceptedIndicesIncreasing(ps: seq<Listing>)
    ensures forall i, j :: 0 <= i < j < |AcceptedIndices(ps)| ==> AcceptedIndices(ps)[i] < AcceptedIndices(ps)[j]
  {
    if ps != [] {
      var n := |ps| - 1;
      AcceptedIndicesIncreasing(ps[..n]);
    }
  }

  /** Every accepted listing has its position in the list. */
  lemma {:induction false} AcceptedIndicesComplete(ps: seq<Listing>, i: nat)
    requires i < |ps| && Accepted(ps[i])
    ensures i in AcceptedIndices(ps)
  {
    var n := |ps| - 1;
    if i < n {
      assert ps[..n][i] == ps[i];
      AcceptedIndicesComplete(ps[..n], i);
    } else {
      assert AcceptedIndices(ps)[|AcceptedIndices(ps)| - 1] == n;
    }
  }

  /** The positions name exactly the listings the shared filter keeps, in the same order. */
  lemma {:induction false} AcceptedIndicesFilter(ps: seq<Listing>)
    ensures |AcceptedIndices(ps)| == |Filter(ps, Accepted)|
    ensures forall k :: 0 <= k < |AcceptedIndices(ps)| ==> ps[AcceptedIndices(ps)[k]] == Filter(ps, Accepted)[k]
  {
    if ps != [] {
      var n := |ps| - 1;
      AcceptedIndicesFilter(ps[..n]);
      FilterSnoc(ps, n, Accepted);
      assert ps[..n + 1] == ps;
      var init := AcceptedIndices(ps[..n]);
      forall k | 0 <= k < |init|
        ensures ps[init[k]] == ps[..n][init[k]]
      {
      }
    }
  }

  /**
   * The loop of `prepare_features`: `features`, `prices` and `indices` grow in
   * lockstep, one row per accepted listing, each row and price taken from the
   * listing at the matching index.
   */
  method PrepareFeatures(properties: seq<Listing>) returns (features: seq<seq<real>>, prices: seq<real>, indices: seq<nat>)
    ensures indices == AcceptedIndices(properties)
    ensures |features| == |indices| && |prices| == |indices|
    ensures forall k :: 0 <= k < |indices| ==>
      features[k] == FeatureRow(properties[indices[k]]) && prices[k] == properties[indices[k]].price.value
  {
    features, prices, indices := [], [], [];
    for i := 0 to |properties|
      invariant indices == AcceptedIndices(properties[..i])
      invariant |features| == |indices| && |prices| == |indices|
      invariant forall k :: 0 <= k < |indices| ==>
        indices[k] < i && Accepted(properties[indices[k]])
        && features[k] == FeatureRow(properties[indices[k]]) && prices[k] == properties[indices[k]].price.value
    {
      assert properties[..i + 1][..i] == properties[..i];
      var p := properties[i];
      if !(Truthy(p.sqft) && Truthy(p.beds) && Truthy(p.price)) {
        continue;
      }
      if p.sqft.value <= 0.0 || p.price.value <= 50000.0 || p.price.value > 5000000.0 {
        continue;
      }
      if p.sqft.value > 10000.0 {
        continue;
      }
      features := features + [[p.sqft.value, p.beds.value, OrDefault(p.baths, 0.0), OrDefault(p.yearBuilt, 1970.0),
                               OrDefault(p.lotSize, 0.0), if IsSold(p) then 1.0 else 0.0]];
      prices := prices + [p.price.value];
      indices := indices + [i];
    }
    assert properties[..|properties|] == properties;
  }

  /** The prices `prepare_features` returns, by the spec of its loop. */
  function Prices(ps: seq<Listing>): (r: seq<real>)
    ensures |r| == |AcceptedIndices(ps)|
  {
    var idx := AcceptedIndices(ps);
    seq(|idx|, k requires 0 <= k < |idx| => ps[idx[k]].price.value)
  }

  // ---------------------------------------------------------------------------
  // The output records of main (lines 121-128)

  /** An output record: a copy of the listing with the three added keys. */
  datatype Predicted = Predicted(listing: Listing, predictedPrice: int, priceError: int, priceErrorPct: real)

  /**
   * `predictedPrice = int(pred)`, `priceError = int(pred - actual)` and
   * `priceErrorPct = round((pred - actual) / actual * 100, 1)`.
   */
  function Annotation(l: Listing, pred: real, actual: real): Predicted
    requires actual != 0.0
  {
    Predicted(l, Trunc(pred), Trunc(pred - actual), RoundTo((pred - actual) / actual * 100.0, 1))
  }

  /**
   * What the added keys mean: the integer prediction and error are their exact
   * values truncated toward zero, the percentage is within 0.05 of the exact
   * relative error, and a percentage below -20 means a prediction more than
   * 19.95% below the price, one above 20 a prediction more than 19.95% above it.
   */
  lemma AnnotationMeaning(l: Listing, pred: real, actual: real)
    requires actual > 0.0
    ensures var o := Annotation(l, pred, actual);
      o.listing == l
      && (pred >= 0.0 ==> o.predictedPrice as real <= pred < o.predictedPrice as real + 1.0)
      && (pred < 0.0 ==> o.predictedPrice as real - 1.0 < pred <= o.predictedPrice as real)
      && (pred - actual >= 0.0 ==> o.priceError as real <= pred - actual < o.priceError as real + 1.0)
      && (pred - actual < 0.0 ==> o.priceError as real - 1.0 < pred - actual <= o.priceError as real)
      && (pred - actual) / actual * 100.0 - 0.05 <= o.priceErrorPct <= (pred - actual) / actual * 100.0 + 0.05
      && (o.priceErrorPct < -20.0 ==> pred < 0.8005 * actual)
      && (o.priceErrorPct > 20.0 ==> pred > 1.1995 * actual)
  {
    var x := (pred - actual) / actual * 100.0;
    assert RoundTo(x, 1) >= x - 0.05 && RoundTo(x, 1) <= x + 0.05;
    RelativeBounds(pred - actual, actual, x);
  }

  lemma RelativeBounds(diff: real, actual: real, x: real)
    requires actual > 0.0 && x == diff / actual * 100.0
    ensures x < -19.95 ==> diff < -0.1995 * actual
    ensures x > 19.95 ==> diff > 0.1995 * actual
  {
    assert diff == x * actual / 100.0;
  }

  /** Python `zip` of three lists: as long as the shortest. */
  function ZipLength(a: nat, b: nat, c: nat): (n: nat)
    ensures n <= a && n <= b && n <= c && (n == a || n == b || n == c)
  {
    if a <= b && a <= c then a else if b <= c then b else c
  }

  /** The output list as a function of its inputs. */
  function Annotations(properties: seq<Listing>, indices: seq<nat>, predictions: seq<real>, y: seq<real>): (r: seq<Predicted>)
    requires forall k :: 0 <= k < |indices| ==> indices[k] < |properties|
    requires forall k :: 0 <= k < |y| ==> y[k] != 0.0
    ensures |r| == ZipLength(|indices|, |predictions|, |y|)
  {
    var n := ZipLength(|indices|, |predictions|, |y|);
    seq(n, k requires 0 <= k < n => Annotation(properties[indices[k]], predictions[k], y[k]))
  }

  /**
   * The output loop of main: one copy per zipped `(idx, pred, actual)`, the
   * listing at `idx` with the three keys added; `properties` itself is a list
   * of values here, so the copies leave it unchanged.
   */
  method Annotate(properties: seq<Listing>, indices: seq<nat>, predictions: seq<real>, y: seq<real>)
    returns (output: seq<Predicted>)
    requires forall k :: 0 <= k < |indices| ==> indices[k] < |properties|
    requires forall k :: 0 <= k < |y| ==> y[k] != 0.0
    ensures |output| == ZipLength(|indices|, |predictions|, |y|)
    ensures forall k :: 0 <= k < |output| ==>
      output[k] == Annotation(properties[indices[k]], predictions[k], y[k])
  {
    var n := ZipLength(|indices|, |predictions|, |y|);
    output := [];
    for i := 0 to n
      invariant |output| == i
      invariant forall k :: 0 <= k < i ==> output[k] == Annotation(properties[indices[k]], predictions[k], y[k])
    {
      var idx, pred, actual := indices[i], predictions[i], y[i];
      var p := properties[idx];
      output := output + [Predicted(p, Trunc(pred), Trunc(pred - actual), RoundTo((pred - actual) / actual * 100.0, 1))];
    }
  }

  /** Each output record is its listing annotated with its prediction and, as actual value, its positive price. */
  predicate AnnotatedFrom(out: seq<Predicted>, predictions: seq<real>)
  {
    |out| <= |predictions|
    && forall k :: 0 <= k < |out| ==>
      out[k].listing.price.Some? && out[k].listing.price.value > 0.0
      && out[k] == Annotation(out[k].listing, predictions[k], out[k].listing.price.value)
  }

  /**
   * With the lists `prepare_features` returns and one prediction per row, the
   * output holds a copy of every accepted listing, in input order, each with its
   * own price as the actual value.
   */
  lemma OutputRecords(ps: seq<Listing>, predictions: seq<real>)
    requires |predictions| == |AcceptedIndices(ps)|
    ensures forall k :: 0 <= k < |Prices(ps)| ==> Prices(ps)[k] > 50000.0
    ensures var out := Annotations(ps, AcceptedIndices(ps), predictions, Prices(ps));
      |out| == |Filter(ps, Accepted)|
      && (forall k :: 0 <= k < |out| ==> out[k].listing == Filter(ps, Accepted)[k])
      && AnnotatedFrom(out, predictions)
  {
    AcceptedIndicesFilter(ps);
  }

  // ---------------------------------------------------------------------------
  // The deal list of main (lines 137-148)

  /** The output records, each with its `priceErrorPct`, as the deal list pairs them. */
  function Decorate(output: seq<Predicted>): (d: seq<(Predicted, real)>)
    ensures |d| == |output| && forall i :: 0 <= i < |d| ==> d[i] == (output[i], output[i].priceErrorPct)
  {
    seq(|output|, i requires 0 <= i < |output| => (output[i], output[i].priceErrorPct))
  }

  /** A decorated pair is a record of the list with its own percentage. */
  lemma DecorateMember(output: seq<Predicted>, y: (Predicted, real))
    requires y in Decorate(output)
    ensures exists k :: 0 <= k < |output| && output[k] == y.0 && y.1 == y.0.priceErrorPct
  {
    var d := Decorate(output);
    var k :| 0 <= k < |d| && d[k] == y;
    assert output[k] == y.0;
  }

  predicate PctBelow20(x: (Predicted, real))
  {
    x.1 < -20.0
  }

  predicate PctAbove20(x: (Predicted, real))
  {
    x.1 > 20.0
  }

  /** `deals` as written: the records whose percentage error is below -20, lowest first. */
  function DealsAsWritten(output: seq<Predicted>): (r: seq<(Predicted, real)>)
    ensures multiset(r) == multiset(Filter(Decorate(output), PctBelow20))
    ensures forall i :: 0 <= i < |r| ==> r[i] in Decorate(output) && r[i].1 < -20.0
    ensures forall i, j :: 0 <= i < j < |r| ==> r[i].1 <= r[j].1
  {
    var below := Filter(Decorate(output), PctBelow20);
    var r := SortByKey(below);
    FilterMembers(Decorate(output), PctBelow20);
    forall i | 0 <= i < |r|
      ensures r[i] in below
    {
      assert r[i] in multiset(r);
    }
    r
  }

  /**
   * The deal list as written holds listings priced ABOVE their prediction: the
   * prediction of every record on it is more than 19.95% below the price.
   */
  lemma DealsAsWrittenAbovePrediction(out: seq<Predicted>, predictions: seq<real>)
    requires AnnotatedFrom(out, predictions)
    ensures forall i :: 0 <= i < |DealsAsWritten(out)| ==>
      exists k :: 0 <= k < |out| && DealsAsWritten(out)[i].0 == out[k]
        && predictions[k] < 0.8005 * out[k].listing.price.value < out[k].listing.price.value
  {
    var deals := DealsAsWritten(out);
    forall i | 0 <= i < |deals|
      ensures exists k :: (0 <= k < |out| && deals[i].0 == out[k]
        && predictions[k] < 0.8005 * out[k].listing.price.value < out[k].listing.price.value)
    {
      var d := Decorate(out);
      var k :| 0 <= k < |d| && d[k] == deals[i];
      AnnotationMeaning(out[k].listing, predictions[k], out[k].listing.price.value);
    }
  }

  /**
   * A listing at 100000 predicted at 70000 is a "deal" as written, and printed,
   * though priced above its prediction; the corrected list leaves it out.
   */
  lemma DealsAsWrittenExample(l: Listing)
    ensures var o := Annotation(l, 70000.0, 100000.0);
      o.priceErrorPct == -30.0 && DealsAsWritten([o]) == [(o, -30.0)] && o.predictedPrice < 100000
      && ShownDeals([o]) == [(o, -30.0)] && ShownUnderpriced([o]) == []
  {
    var o := Annotation(l, 70000.0, 100000.0);
    assert (70000.0 - 100000.0) / 100000.0 * 100.0 == -30.0;
    assert RoundHalfEven(-300.0) == -300;
    assert Decorate([o]) == [(o, -30.0)];
    assert Filter(Decorate([o]), PctBelow20) == [(o, -30.0)];
  }

  /**
   * `deals` as the heading "Priced 20%+ below prediction" asks for: the records
   * whose prediction exceeds the price by more than 20%, the largest excess
   * first; each carries its negated percentage, the sort key.
   */
  function UnderpricedDeals(output: seq<Predicted>): (r: seq<(Predicted, real)>)
    ensures multiset(r) == multiset(Negated(Filter(Decorate(output), PctAbove20)))
    ensures forall i :: 0 <= i < |r| ==> (r[i].0, -r[i].1) in Decorate(output) && -r[i].1 > 20.0
    ensures forall i, j :: 0 <= i < j < |r| ==> -r[i].1 >= -r[j].1
  {
    var above := Filter(Decorate(output), PctAbove20);
    var r := SortByKey(Negated(above));
    PermutedNegatedFrom(above, r);
    FilterMembers(Decorate(output), PctAbove20);
    r
  }

  /** Every record on the corrected list is priced below its prediction, by more than 19.95% of its price. */
  lemma UnderpricedBelowPrediction(out: seq<Predicted>, predictions: seq<real>, i: nat)
    requires AnnotatedFrom(out, predictions) && i < |UnderpricedDeals(out)|
    ensures exists k :: (0 <= k < |out| && UnderpricedDeals(out)[i].0 == out[k]
      && out[k].listing.price.value < predictions[k] && predictions[k] > 1.1995 * out[k].listing.price.value)
  {
    UnderpricedFrom(out);
    var o := UnderpricedDeals(out)[i].0;
    var k :| 0 <= k < |out| && out[k] == o && out[k].priceErrorPct > 20.0;
    AnnotationMeaning(o.listing, predictions[k], o.listing.price.value);
  }

  /** Every record on the corrected list is a record of the output with a percentage above 20. */
  lemma UnderpricedFrom(out: seq<Predicted>)
    ensures forall i :: 0 <= i < |UnderpricedDeals(out)| ==>
      exists k :: 0 <= k < |out| && out[k] == UnderpricedDeals(out)[i].0 && out[k].priceErrorPct > 20.0
  {
    var deals := UnderpricedDeals(out);
    forall i | 0 <= i < |deals|
      ensures exists k :: 0 <= k < |out| && out[k] == deals[i].0 && out[k].priceErrorPct > 20.0
    {
      var y := (deals[i].0, -deals[i].1);
      DecorateMember(out, y);
    }
  }

  /** `deals[:10]`: the program prints the first ten records of the list as written, or all of them. */
  function ShownDeals(output: seq<Predicted>): (r: seq<(Predicted, real)>)
    ensures r <= DealsAsWritten(output)
    ensures |r| == if |DealsAsWritten(output)| < 10 then |DealsAsWritten(output)| else 10
  {
    Take(DealsAsWritten(output), 10)
  }

  /** The first ten records of the corrected list, or all of them: what line 145 evidently means to print. */
  function ShownUnderpriced(output: seq<Predicted>): (r: seq<(Predicted, real)>)
    ensures r <= UnderpricedDeals(output)
    ensures |r| == if |UnderpricedDeals(output)| < 10 then |UnderpricedDeals(output)| else 10
  {
    Take(UnderpricedDeals(output), 10)
  }
}
