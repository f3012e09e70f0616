/**
 * The per-listing pipeline: extract the identifier from the link, fetch the
 * anchor, search for comps with the anchor's title, select and sort them,
 * and derive the recommendation and the export rows. `LinkResult` and
 * `Pricing` are the specification; `PriceLink` and `PriceItem` compute the
 * same outcome the way the program does, sorting arrays in place.
 */
module Pipeline {
  import opened Wrappers
  import opened Search
  import opened ItemId
  import opened Sorting
  import opened CompFilter
  import opened MedianPricer

  /** Fetching the anchor by its legacy identifier; `None` stands for any transport, auth or decoding error. */
  type ItemFetcher = string -> Option<Item>

  /** The keyword search on a title, giving the decoded response body; `None` stands for any error. */
  type KeywordSearch = string -> Option<SearchResponse>

  /** One exported row: the anchor's identifier, then the comp's title, price, condition and URL. */
  datatype CsvRecord = CsvRecord(anchorId: string, title: string, price: real, condition: string, url: string)

  /** What happens to an anchor with a known identifier. */
  datatype PricingOutcome =
    | NoPrice                 // the anchor price is absent, unparseable or not positive: nothing else is done
    | NoQuery                 // the anchor has no title, so no search is made
    | SearchFailed            // the keyword search reported an error
    | NoComps(condition: string)
    | Priced(recommendation: PriceRecommendation, records: seq<CsvRecord>)

  /** What happens to one link. */
  datatype LinkOutcome =
    | NoItemId
    | FetchFailed(itemId: string)
    | Fetched(itemId: string, pricing: PricingOutcome)

  /** The row for one kept comp; absent text fields become empty. */
  function Record(itemId: string, pc: (real, ItemSummary)): (r: CsvRecord)
    ensures r.anchorId == itemId && r.price == pc.0
    ensures pc.1.title == Some(r.title) || (pc.1.title == None && r.title == "")
    ensures pc.1.condition == Some(r.condition) || (pc.1.condition == None && r.condition == "")
    ensures pc.1.itemWebUrl == Some(r.url) || (pc.1.itemWebUrl == None && r.url == "")
  {
    CsvRecord(itemId, pc.1.title.GetOr(""), pc.0, pc.1.condition.GetOr(""), pc.1.itemWebUrl.GetOr(""))
  }

  function Records(itemId: string, pairs: seq<(real, ItemSummary)>): (r: seq<CsvRecord>)
    ensures |r| == |pairs| && forall i :: 0 <= i < |pairs| ==> r[i] == Record(itemId, pairs[i])
  {
    seq(|pairs|, i requires 0 <= i < |pairs| => Record(itemId, pairs[i]))
  }

  /** The price column of the rows. */
  function RecordPrices(records: seq<CsvRecord>): (r: seq<real>)
    ensures |r| == |records| && forall i :: 0 <= i < |records| ==> r[i] == records[i].price
  {
    seq(|records|, i requires 0 <= i < |records| => records[i].price)
  }

  /** The sorted kept prices for `comps`, as the first chain and its sort produce them. */
  function SortedPrices(parse: PriceParser, item: Item, comps: seq<ItemSummary>): (r: seq<real>)
    ensures var anchor := AnchorPrice(parse, item);
      Sorted(r) && multiset(r) == multiset(KeptPrices(parse, comps, AnchorCondition(item), Lower(anchor), Upper(anchor)))
  {
    var anchor := AnchorPrice(parse, item);
    var kept := KeptPrices(parse, comps, AnchorCondition(item), Lower(anchor), Upper(anchor));
    SortedById(kept);
    SortedByKey(kept, Id)
  }

  /** The sorted kept pairs for `comps`, as the second chain and its sort produce them. */
  function SortedComps(parse: PriceParser, item: Item, comps: seq<ItemSummary>): (r: seq<(real, ItemSummary)>)
    ensures var anchor := AnchorPrice(parse, item);
      SortedBy(r, PriceOf) && multiset(r) == multiset(KeptComps(parse, comps, AnchorCondition(item), Lower(anchor), Upper(anchor)))
  {
    var anchor := AnchorPrice(parse, item);
    SortedByKey(KeptComps(parse, comps, AnchorCondition(item), Lower(anchor), Upper(anchor)), PriceOf)
  }

  /** The outcome once the search has returned `comps`. */
  function PricingOf(parse: PriceParser, itemId: string, item: Item, comps: seq<ItemSummary>): PricingOutcome {
    match Recommend(SortedPrices(parse, item, comps))
    case None => NoComps(AnchorCondition(item))
    case Some(recommendation) => Priced(recommendation, Records(itemId, SortedComps(parse, item, comps)))
  }

  /** The outcome for an anchor with identifier `itemId`. */
  function Pricing(parse: PriceParser, search: KeywordSearch, itemId: string, item: Item): PricingOutcome {
    if !(AnchorPrice(parse, item) > 0.0) then NoPrice
    else if item.title.None? then NoQuery
    else match search(item.title.value)
      case None => SearchFailed
      case Some(response) => PricingOf(parse, itemId, item, Summaries(response))
  }

  /** The outcome for one link. */
  function LinkResult(parse: PriceParser, fetch: ItemFetcher, search: KeywordSearch, link: string): LinkOutcome {
    match ExtractItemId(link)
    case None => NoItemId
    case Some(itemId) =>
      match fetch(itemId)
      case None => FetchFailed(itemId)
      case Some(item) => Fetched(itemId, Pricing(parse, search, itemId, item))
  }

  /** A fresh array holding `s`. */
  method ToArray<T>(s: seq<T>) returns (a: array<T>)
    ensures fresh(a) && a[..] == s
  {
    a := new T[|s|](i requires 0 <= i < |s| => s[i]);
  }

  /** The median of the sorted prices, read from the array. */
  method MedianOf(prices: array<real>) returns (median: real)
    requires prices.Length > 0
    ensures median == Median(prices[..])
  {
    var mid := prices.Length / 2;
    median := if prices.Length % 2 == 0 then (prices[mid - 1] + prices[mid]) / 2.0 else prices[mid];
  }

  /** The rows for the sorted pairs, in array order, as the export loop writes them. */
  method RecordsOf(itemId: string, compsSorted: array<(real, ItemSummary)>) returns (records: seq<CsvRecord>)
    ensures records == Records(itemId, compsSorted[..])
  {
    records := [];
    for k := 0 to compsSorted.Length
      invariant records == Records(itemId, compsSorted[..k])
    {
      records := records + [Record(itemId, compsSorted[k])];
    }
    assert compsSorted[..] == compsSorted[..compsSorted.Length];
  }

  /** The selection, sorts, median and rows for the comps the search returned. */
  method PriceComps(parse: PriceParser, itemId: string, item: Item, comps: seq<ItemSummary>) returns (o: PricingOutcome)
    ensures o == PricingOf(parse, itemId, item, comps)
  {
    var anchorPrice := AnchorPrice(parse, item);
    var anchorCondition := AnchorCondition(item);
    var lower, upper := Lower(anchorPrice), Upper(anchorPrice);
    var prices := ToArray(KeptPrices(parse, comps, anchorCondition, lower, upper));
    SortByKey(prices, Id);
    assert prices[..] == SortedPrices(parse, item, comps);
    if prices.Length == 0 {
      return NoComps(anchorCondition);
    }
    var median := MedianOf(prices);
    var compsSorted := ToArray(KeptComps(parse, comps, anchorCondition, lower, upper));
    SortByKey(compsSorted, PriceOf);
    var records := RecordsOf(itemId, compsSorted);
    return Priced(TiersOf(median), records);
  }

  /** The pricing step for a fetched anchor, as the program runs it. */
  method PriceItem(parse: PriceParser, search: KeywordSearch, itemId: string, item: Item) returns (o: PricingOutcome)
    ensures o == Pricing(parse, search, itemId, item)
  {
    var anchorPrice := AnchorPrice(parse, item);
    if !(anchorPrice > 0.0) {
      return NoPrice;
    }
    if item.title.None? {
      return NoQuery;
    }
    var response := search(item.title.value);
    if response.None? {
      return SearchFailed;
    }
    o := PriceComps(parse, itemId, item, Summaries(response.value));
  }

  /** One iteration of the program's loop over links. */
  method PriceLink(parse: PriceParser, fetch: ItemFetcher, search: KeywordSearch, link: string) returns (o: LinkOutcome)
    ensures o == LinkResult(parse, fetch, search, link)
  {
    var itemId := ExtractItemId(link);
    if itemId.None? {
      return NoItemId;
    }
    var fetched := fetch(itemId.value);
    if fetched.None? {
      return FetchFailed(itemId.value);
    }
    var pricing := PriceItem(parse, search, itemId.value, fetched.value);
    return Fetched(itemId.value, pricing);
  }

  /** The loop over all links: each link is handled on its own, in order, whatever happened to the others. */
  method PriceLinks(parse: PriceParser, fetch: ItemFetcher, search: KeywordSearch, links: seq<string>) returns (outcomes: seq<LinkOutcome>)
    ensures |outcomes| == |links|
    ensures forall i :: 0 <= i < |links| ==> outcomes[i] == LinkResult(parse, fetch, search, links[i])
  {
    outcomes := [];
    for i := 0 to |links|
      invariant |outcomes| == i
      invariant forall k :: 0 <= k < i ==> outcomes[k] == LinkResult(parse, fetch, search, links[k])
    {
      var o := PriceLink(parse, fetch, search, links[i]);
      outcomes := outcomes + [o];
    }
  }

  /** The price column of the rows built from some pairs is the price column of those pairs. */
  lemma RecordPricesOfRecords(itemId: string, pairs: seq<(real, ItemSummary)>)
    ensures RecordPrices(Records(itemId, pairs)) == Keys(pairs, PriceOf)
  {
    var rows := Records(itemId, pairs);
    forall i | 0 <= i < |pairs|
      ensures RecordPrices(rows)[i] == Keys(pairs, PriceOf)[i]
    {
      assert rows[i] == Record(itemId, pairs[i]);
    }
  }

  /**
   * The sorted price list holds each price as many times as there are
   * comps admitting it, which fixes the median.
   */
  lemma SortedPricesCount(parse: PriceParser, item: Item, comps: seq<ItemSummary>, p: real)
    ensures var anchor := AnchorPrice(parse, item);
      multiset(SortedPrices(parse, item, comps))[p]
        == AdmittingCount(parse, comps, AnchorCondition(item), Lower(anchor), Upper(anchor), p)
  {
    var anchor := AnchorPrice(parse, item);
    KeptPricesCount(parse, comps, AnchorCondition(item), Lower(anchor), Upper(anchor), p);
  }

  /** The price column of the rows is the sorted kept prices: the two chains and their sorts agree. */
  lemma RowPricesAgree(parse: PriceParser, itemId: string, item: Item, comps: seq<ItemSummary>)
    ensures RecordPrices(Records(itemId, SortedComps(parse, item, comps))) == SortedPrices(parse, item, comps)
  {
    var anchor, condition := AnchorPrice(parse, item), AnchorCondition(item);
    var lower, upper := Lower(anchor), Upper(anchor);
    var keptComps := KeptComps(parse, comps, condition, lower, upper);
    var sortedComps := SortedComps(parse, item, comps);
    RecordPricesOfRecords(itemId, sortedComps);
    KeysOfSorted(keptComps, PriceOf);
    KeptChainsAgree(parse, comps, condition, lower, upper);
  }

  /** Any ascending arrangement of the kept prices is the sorted price list: it does not depend on the sort used. */
  lemma SortedPricesUnique(parse: PriceParser, item: Item, comps: seq<ItemSummary>, s: seq<real>)
    requires var anchor := AnchorPrice(parse, item);
      Sorted(s) && multiset(s) == multiset(KeptPrices(parse, comps, AnchorCondition(item), Lower(anchor), Upper(anchor)))
    ensures s == SortedPrices(parse, item, comps)
  {
    var anchor := AnchorPrice(parse, item);
    SortedById(KeptPrices(parse, comps, AnchorCondition(item), Lower(anchor), Upper(anchor)));
    SortedUnique(s, SortedPrices(parse, item, comps));
  }

  /**
   * Every row carries the anchor's identifier and condition and comes from
   * a comp that has that condition and a parsed price inside the band.
   */
  lemma RowsAdmitted(parse: PriceParser, itemId: string, item: Item, comps: seq<ItemSummary>, i: nat)
    requires i < |SortedComps(parse, item, comps)|
    ensures var anchor, condition := AnchorPrice(parse, item), AnchorCondition(item);
      var row := Records(itemId, SortedComps(parse, item, comps))[i];
      && row.anchorId == itemId
      && row.condition == condition
      && exists c :: c in comps && Admits(parse, c, condition, Lower(anchor), Upper(anchor), row.price)
                  && row == Record(itemId, (row.price, c))
  {
    var anchor, condition := AnchorPrice(parse, item), AnchorCondition(item);
    var lower, upper := Lower(anchor), Upper(anchor);
    var keptComps := KeptComps(parse, comps, condition, lower, upper);
    var pc := SortedComps(parse, item, comps)[i];
    assert pc in multiset(keptComps);
    KeptCompsMembers(parse, comps, condition, lower, upper, pc);
    assert Admits(parse, pc.1, condition, lower, upper, pc.0);
  }

  /** Every row of the report carries the anchor's identifier and condition and comes from an admitted comp. */
  lemma AllRowsAdmitted(parse: PriceParser, itemId: string, item: Item, comps: seq<ItemSummary>)
    ensures var anchor, condition := AnchorPrice(parse, item), AnchorCondition(item);
      var records := Records(itemId, SortedComps(parse, item, comps));
      forall i :: 0 <= i < |records| ==>
           && records[i].anchorId == itemId
           && records[i].condition == condition
           && exists c :: c in comps && Admits(parse, c, condition, Lower(anchor), Upper(anchor), records[i].price)
                       && records[i] == Record(itemId, (records[i].price, c))
  {
    var anchor, condition := AnchorPrice(parse, item), AnchorCondition(item);
    var records := Records(itemId, SortedComps(parse, item, comps));
    forall i | 0 <= i < |records|
      ensures && records[i].anchorId == itemId
              && records[i].condition == condition
              && exists c :: c in comps && Admits(parse, c, condition, Lower(anchor), Upper(anchor), records[i].price)
                          && records[i] == Record(itemId, (records[i].price, c))
    {
      RowsAdmitted(parse, itemId, item, comps, i);
    }
  }

  /**
   * A priced outcome: the price column of the rows is the sorted kept
   * prices, it is sorted and a permutation of the kept prices, the
   * recommendation is the tiers of its median, and every row comes from a
   * comp that has the anchor's condition and a parsed price inside the band.
   */
  lemma PricedOutcome(parse: PriceParser, itemId: string, item: Item, comps: seq<ItemSummary>)
    requires PricingOf(parse, itemId, item, comps).Priced?
    ensures var o := PricingOf(parse, itemId, item, comps);
      var anchor, condition := AnchorPrice(parse, item), AnchorCondition(item);
      var kept := KeptPrices(parse, comps, condition, Lower(anchor), Upper(anchor));
      var prices := RecordPrices(o.records);
      && prices == SortedPrices(parse, item, comps)
      && Sorted(prices) && multiset(prices) == multiset(kept) && prices != []
      && o.recommendation == TiersOf(Median(prices))
      && forall i :: 0 <= i < |o.records| ==>
           && o.records[i].anchorId == itemId
           && o.records[i].condition == condition
           && exists c :: c in comps && Admits(parse, c, condition, Lower(anchor), Upper(anchor), o.records[i].price)
                       && o.records[i] == Record(itemId, (o.records[i].price, c))
  {
    var anchor, condition := AnchorPrice(parse, item), AnchorCondition(item);
    var o := PricingOf(parse, itemId, item, comps);
    assert o.records == Records(itemId, SortedComps(parse, item, comps));
    RowPricesAgree(parse, itemId, item, comps);
    SortedById(KeptPrices(parse, comps, condition, Lower(anchor), Upper(anchor)));
    AllRowsAdmitted(parse, itemId, item, comps);
  }

  /**
   * When the whole step ends priced, the anchor price was positive, so the
   * market price lies inside the band and fast < market < patient.
   */
  lemma PricedTiers(parse: PriceParser, search: KeywordSearch, itemId: string, item: Item)
    requires Pricing(parse, search, itemId, item).Priced?
    ensures var anchor, r := AnchorPrice(parse, item), Pricing(parse, search, itemId, item).recommendation;
      && anchor > 0.0
      && Lower(anchor) <= r.market <= Upper(anchor)
      && 0.0 < r.fast < r.market < r.patient
  {
    var anchor, condition := AnchorPrice(parse, item), AnchorCondition(item);
    var lower, upper := Lower(anchor), Upper(anchor);
    var comps := Summaries(search(item.title.value).value);
    PricedOutcome(parse, itemId, item, comps);
    var prices := SortedPrices(parse, item, comps);
    var kept := KeptPrices(parse, comps, condition, lower, upper);
    assert prices[0] in multiset(kept) && prices[|prices| - 1] in multiset(kept);
    assert InBand(prices[0], lower, upper) && InBand(prices[|prices| - 1], lower, upper);
  }

  /**
   * No comps are reported exactly when no comp has the anchor's condition
   * together with a parsed price inside the band.
   */
  lemma NoCompsExactly(parse: PriceParser, itemId: string, item: Item, comps: seq<ItemSummary>)
    ensures var anchor, condition := AnchorPrice(parse, item), AnchorCondition(item);
      (PricingOf(parse, itemId, item, comps) == NoComps(condition))
      <==> !exists c, p :: c in comps && Admits(parse, c, condition, Lower(anchor), Upper(anchor), p)
  {
    var anchor, condition := AnchorPrice(parse, item), AnchorCondition(item);
    var lower, upper := Lower(anchor), Upper(anchor);
    var kept := KeptPrices(parse, comps, condition, lower, upper);
    assert |SortedPrices(parse, item, comps)| == |kept| by {
      assert multiset(SortedPrices(parse, item, comps)) == multiset(kept);
    }
    if c, p :| c in comps && Admits(parse, c, condition, lower, upper, p) {
      KeptPricesMembers(parse, comps, condition, lower, upper, p);
    }
    if kept != [] {
      KeptPricesMembers(parse, comps, condition, lower, upper, kept[0]);
    }
  }
}
