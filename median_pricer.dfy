/**
 * The median of the kept prices and the three price tiers derived from it:
 * fast sale at 90%, market at 100%, patient sale at 110% of the median.
 */
module MedianPricer {
  import opened Wrappers
  import opened Sorting

  datatype PriceRecommendation = PriceRecommendation(fast: real, market: real, patient: real)

  /**
   * The middle element of an odd-length sequence, the mean of the two
   * middle elements of an even-length one. The prices arrive sorted, so the
   * median lies between the smallest and the largest.
   */
  function Median(prices: seq<real>): (m: real)
    requires |prices| > 0
    ensures Sorted(prices) ==> prices[0] <= m <= prices[|prices| - 1]
  {
    var mid := |prices| / 2;
    if |prices| % 2 == 0 then (prices[mid - 1] + prices[mid]) / 2.0 else prices[mid]
  }

  /** How many prices are at most `x`. */
  function CountAtMost(prices: seq<real>, x: real): (n: nat)
    ensures n <= |prices|
  {
    if prices == [] then 0
    else (if prices[0] <= x then 1 else 0) + CountAtMost(prices[1..], x)
  }

  /** How many prices are at least `x`. */
  function CountAtLeast(prices: seq<real>, x: real): (n: nat)
    ensures n <= |prices|
  {
    if prices == [] then 0
    else (if prices[0] >= x then 1 else 0) + CountAtLeast(prices[1..], x)
  }

  lemma {:induction false} CountAtMostPrefix(prices: seq<real>, x: real, k: nat)
    requires k <= |prices|
    requires forall i :: 0 <= i < k ==> prices[i] <= x
    ensures CountAtMost(prices, x) >= k
  {
    if k > 0 {
      CountAtMostPrefix(prices[1..], x, k - 1);
    }
  }

  lemma {:induction false} CountAtLeastSuffix(prices: seq<real>, x: real, k: nat)
    requires k <= |prices|
    requires forall i :: k <= i < |prices| ==> prices[i] >= x
    ensures CountAtLeast(prices, x) >= |prices| - k
  {
    if prices != [] {
      CountAtLeastSuffix(prices[1..], x, if k > 0 then k - 1 else 0);
    }
  }

  /** A value with at least `k` sorted prices below it and all from index `k'` on above it. */
  lemma {:induction false} SplitsAt(prices: seq<real>, m: real, k: nat, k': nat)
    requires Sorted(prices) && 0 < k <= |prices| && k' < |prices|
    requires prices[k - 1] <= m <= prices[k']
    ensures CountAtMost(prices, m) >= k && CountAtLeast(prices, m) >= |prices| - k'
  {
    CountAtMostPrefix(prices, m, k);
    CountAtLeastSuffix(prices, m, k');
  }

  /**
   * `Median` is a median in the statistical sense: at least half of the
   * prices are at most it, and at least half are at least it.
   */
  lemma MedianSplitsPrices(prices: seq<real>)
    requires |prices| > 0 && Sorted(prices)
    ensures 2 * CountAtMost(prices, Median(prices)) >= |prices|
    ensures 2 * CountAtLeast(prices, Median(prices)) >= |prices|
  {
    var n, mid := |prices|, |prices| / 2;
    if n % 2 == 0 {
      SplitsAt(prices, Median(prices), mid, mid);
    } else {
      SplitsAt(prices, Median(prices), mid + 1, mid);
    }
  }

  /**
   * The three tiers for a median: the market price is the median, and the
   * fast and patient prices sit 10% below and 10% above it.
   */
  function TiersOf(median: real): (r: PriceRecommendation)
    ensures r.market == median
    ensures r.market - r.fast == median / 10.0 && r.patient - r.market == median / 10.0
    ensures median > 0.0 ==> 0.0 < r.fast < r.market < r.patient
    ensures median >= 0.0 ==> r.fast <= r.market <= r.patient
  {
    PriceRecommendation(median * 0.9, median, median * 1.1)
  }

  /** The recommendation for sorted prices: none for no prices, else the tiers of their median. */
  function Recommend(prices: seq<real>): (r: Option<PriceRecommendation>)
    ensures r.None? <==> prices == []
    ensures r.Some? && Sorted(prices) ==> prices[0] <= r.value.market <= prices[|prices| - 1]
  {
    if prices == [] then None else Some(TiersOf(Median(prices)))
  }

  /** A single price gives all three tiers from that price alone. */
  lemma SinglePrice(p: real)
    ensures Recommend([p]) == Some(PriceRecommendation(p * 0.9, p, p * 1.1))
  {
  }
}
