/**
 * Worked examples of the pricing step. The price texts and the condition
 * are left symbolic: only what the parser makes of each text matters.
 */
module Scenarios {
  import opened Wrappers
  import opened Search
  import opened CompFilter
  import opened Sorting
  import opened MedianPricer
  import opened Pipeline

  function Amount(text: string): Option<ConvertedAmount> {
    Some(ConvertedAmount(Some(text), None))
  }

  function Anchor(price: Option<ConvertedAmount>, condition: string): Item {
    Item(None, Some("Camera body"), Some(condition), price, None)
  }

  function Comp(price: string, condition: string): ItemSummary {
    ItemSummary(None, None, Amount(price), Some(condition), None)
  }

  /** Two elements already in key order are left as they are. */
  lemma SortedPair<T>(x: T, y: T, key: T -> real)
    requires key(x) <= key(y)
    ensures SortedByKey([x, y], key) == [x, y]
  {
    assert [x, y][..1] == [x] && [x][..0] == [];
  }

  /** The prices kept from the four comps of the band example: 69 and 131 fall outside the band. */
  lemma BandKeptPrices(parse: PriceParser, condition: string, c0: ItemSummary, c1: ItemSummary, c2: ItemSummary, c3: ItemSummary)
    requires ConditionMatches(c0, condition) && ParsedPrice(parse, c0.price) == Some(90.0)
    requires ConditionMatches(c1, condition) && ParsedPrice(parse, c1.price) == Some(131.0)
    requires ConditionMatches(c2, condition) && ParsedPrice(parse, c2.price) == Some(69.0)
    requires ConditionMatches(c3, condition) && ParsedPrice(parse, c3.price) == Some(101.0)
    ensures KeptPrices(parse, [c0, c1, c2, c3], condition, 70.0, 130.0) == [90.0, 101.0]
  {
    BandKeptPricesTail(parse, condition, c2, c3);
    var r1: seq<ItemSummary> := [c1, c2, c3];
    assert [c1] + [c2, c3] == r1;
    KeptPricesStep(parse, c1, [c2, c3], condition, 70.0, 130.0);
    KeptPricesStep(parse, c0, r1, condition, 70.0, 130.0);
    assert [c0] + r1 == [c0, c1, c2, c3];
  }

  /** The prices kept from the last two comps of the band example: 69 is below the band. */
  lemma BandKeptPricesTail(parse: PriceParser, condition: string, c2: ItemSummary, c3: ItemSummary)
    requires ConditionMatches(c2, condition) && ParsedPrice(parse, c2.price) == Some(69.0)
    requires ConditionMatches(c3, condition) && ParsedPrice(parse, c3.price) == Some(101.0)
    ensures KeptPrices(parse, [c2, c3], condition, 70.0, 130.0) == [101.0]
  {
    assert [c3] + [] == [c3] && [c2] + [c3] == [c2, c3];
    KeptPricesStep(parse, c3, [], condition, 70.0, 130.0);
    KeptPricesStep(parse, c2, [c3], condition, 70.0, 130.0);
  }

  /** The pairs kept from the four comps of the band example: those of the comps at 90 and at 101. */
  lemma BandKeptComps(parse: PriceParser, condition: string, c0: ItemSummary, c1: ItemSummary, c2: ItemSummary, c3: ItemSummary)
    requires ConditionMatches(c0, condition) && ParsedPrice(parse, c0.price) == Some(90.0)
    requires ConditionMatches(c1, condition) && ParsedPrice(parse, c1.price) == Some(131.0)
    requires ConditionMatches(c2, condition) && ParsedPrice(parse, c2.price) == Some(69.0)
    requires ConditionMatches(c3, condition) && ParsedPrice(parse, c3.price) == Some(101.0)
    ensures KeptComps(parse, [c0, c1, c2, c3], condition, 70.0, 130.0) == [(90.0, c0), (101.0, c3)]
  {
    BandKeptCompsTail(parse, condition, c2, c3);
    var r1: seq<ItemSummary> := [c1, c2, c3];
    assert [c1] + [c2, c3] == r1;
    KeptCompsStep(parse, c1, [c2, c3], condition, 70.0, 130.0);
    KeptCompsStep(parse, c0, r1, condition, 70.0, 130.0);
    assert [c0] + r1 == [c0, c1, c2, c3];
  }

  /** The comps kept from the last two comps of the band example: 69 is below the band. */
  lemma BandKeptCompsTail(parse: PriceParser, condition: string, c2: ItemSummary, c3: ItemSummary)
    requires ConditionMatches(c2, condition) && ParsedPrice(parse, c2.price) == Some(69.0)
    requires ConditionMatches(c3, condition) && ParsedPrice(parse, c3.price) == Some(101.0)
    ensures KeptComps(parse, [c2, c3], condition, 70.0, 130.0) == [(101.0, c3)]
  {
    assert [c3] + [] == [c3] && [c2] + [c3] == [c2, c3];
    KeptCompsStep(parse, c3, [], condition, 70.0, 130.0);
    KeptCompsStep(parse, c2, [c3], condition, 70.0, 130.0);
  }

  /**
   * Anchor at 100 and four comps of its condition at 90, 131, 69 and 101:
   * the band [70, 130] drops 69 and 131, the median of 90 and 101 is 95.5,
   * the tiers are 85.95, 95.5 and 105.05, and the rows are those of the
   * comps at 90 and 101, in that order.
   */
  lemma BandScenario(parse: PriceParser, condition: string, t100: string, t90: string, t131: string, t69: string, t101: string)
    requires parse(t100) == Some(100.0)
    requires parse(t90) == Some(90.0) && parse(t131) == Some(131.0)
    requires parse(t69) == Some(69.0) && parse(t101) == Some(101.0)
    ensures var comps := [Comp(t90, condition), Comp(t131, condition), Comp(t69, condition), Comp(t101, condition)];
      PricingOf(parse, "1001", Anchor(Amount(t100), condition), comps)
        == Priced(PriceRecommendation(85.95, 95.5, 105.05),
                  [Record("1001", (90.0, comps[0])), Record("1001", (101.0, comps[3]))])
  {
    var c0, c1, c2, c3 := Comp(t90, condition), Comp(t131, condition), Comp(t69, condition), Comp(t101, condition);
    var item := Anchor(Amount(t100), condition);
    assert AnchorPrice(parse, item) == 100.0 && AnchorCondition(item) == condition;
    BandSorted(parse, condition, item, c0, c1, c2, c3);
    PairRecommendation(90.0, 101.0);
    assert TiersOf(95.5) == PriceRecommendation(85.95, 95.5, 105.05);
    PairRecords("1001", (90.0, c0), (101.0, c3));
  }

  /** Two sorted prices are priced from their mean. */
  lemma PairRecommendation(x: real, y: real)
    ensures Recommend([x, y]) == Some(TiersOf((x + y) / 2.0))
  {
  }

  /** The rows of two pairs, in their order. */
  lemma PairRecords(itemId: string, a: (real, ItemSummary), b: (real, ItemSummary))
    ensures Records(itemId, [a, b]) == [Record(itemId, a), Record(itemId, b)]
  {
  }

  /** The sorted selections of the band example. */
  lemma BandSorted(parse: PriceParser, condition: string, item: Item, c0: ItemSummary, c1: ItemSummary, c2: ItemSummary, c3: ItemSummary)
    requires AnchorPrice(parse, item) == 100.0 && AnchorCondition(item) == condition
    requires ConditionMatches(c0, condition) && ParsedPrice(parse, c0.price) == Some(90.0)
    requires ConditionMatches(c1, condition) && ParsedPrice(parse, c1.price) == Some(131.0)
    requires ConditionMatches(c2, condition) && ParsedPrice(parse, c2.price) == Some(69.0)
    requires ConditionMatches(c3, condition) && ParsedPrice(parse, c3.price) == Some(101.0)
    ensures SortedPrices(parse, item, [c0, c1, c2, c3]) == [90.0, 101.0]
    ensures SortedComps(parse, item, [c0, c1, c2, c3]) == [(90.0, c0), (101.0, c3)]
  {
    assert Lower(100.0) == 70.0 && Upper(100.0) == 130.0;
    BandKeptPrices(parse, condition, c0, c1, c2, c3);
    BandKeptComps(parse, condition, c0, c1, c2, c3);
    SortedPair(90.0, 101.0, Id);
    SortedPair((90.0, c0), (101.0, c3), PriceOf);
  }

  /** Comps whose condition differs from the anchor's are all dropped, so no comps are reported. */
  lemma NoMatchingCondition(parse: PriceParser, t50: string, t48: string)
    requires parse(t50) == Some(50.0) && parse(t48) == Some(48.0)
    ensures PricingOf(parse, "1001", Anchor(Amount(t50), "NEW"), [Comp(t48, "USED")]) == NoComps("NEW")
  {
    assert MatchingCondition([Comp(t48, "USED")], "NEW") == [];
  }

  /** The prices kept from two copies of one comp at 90 and a comp at 101: the copy is kept twice. */
  lemma DuplicateKept(parse: PriceParser, condition: string, c0: ItemSummary, c1: ItemSummary)
    requires ConditionMatches(c0, condition) && ParsedPrice(parse, c0.price) == Some(90.0)
    requires ConditionMatches(c1, condition) && ParsedPrice(parse, c1.price) == Some(101.0)
    ensures KeptPrices(parse, [c0, c0, c1], condition, 70.0, 130.0) == [90.0, 90.0, 101.0]
  {
    var r1: seq<ItemSummary> := [c1];
    var r0 := [c0] + r1;
    assert r1 == [c1] + [];
    KeptPricesStep(parse, c1, [], condition, 70.0, 130.0);
    KeptPricesStep(parse, c0, r1, condition, 70.0, 130.0);
    KeptPricesStep(parse, c0, r0, condition, 70.0, 130.0);
    assert [c0] + r0 == [c0, c0, c1];
  }

  /**
   * A comp listed twice counts twice: anchor at 100 with comps at 90, 90
   * and 101 has the median 90, not the 95.5 of the distinct prices, so the
   * tiers are 81, 90 and 99.
   */
  lemma DuplicateComps(parse: PriceParser, condition: string, t100: string, t90: string, t101: string)
    requires parse(t100) == Some(100.0) && parse(t90) == Some(90.0) && parse(t101) == Some(101.0)
    ensures var c0 := Comp(t90, condition);
      PricingOf(parse, "1001", Anchor(Amount(t100), condition), [c0, c0, Comp(t101, condition)]).recommendation
        == PriceRecommendation(81.0, 90.0, 99.0)
  {
    var c0, c1 := Comp(t90, condition), Comp(t101, condition);
    var item := Anchor(Amount(t100), condition);
    assert AnchorPrice(parse, item) == 100.0 && AnchorCondition(item) == condition;
    DuplicateSorted(parse, condition, item, c0, c1);
    MiddleOfThree(90.0, 90.0, 101.0);
  }

  /** The sorted prices of the duplicate example. */
  lemma DuplicateSorted(parse: PriceParser, condition: string, item: Item, c0: ItemSummary, c1: ItemSummary)
    requires AnchorPrice(parse, item) == 100.0 && AnchorCondition(item) == condition
    requires ConditionMatches(c0, condition) && ParsedPrice(parse, c0.price) == Some(90.0)
    requires ConditionMatches(c1, condition) && ParsedPrice(parse, c1.price) == Some(101.0)
    ensures SortedPrices(parse, item, [c0, c0, c1]) == [90.0, 90.0, 101.0]
  {
    assert Lower(100.0) == 70.0 && Upper(100.0) == 130.0;
    DuplicateKept(parse, condition, c0, c1);
    SortedPricesUnique(parse, item, [c0, c0, c1], [90.0, 90.0, 101.0]);
  }

  /** Three prices have the middle one as their median. */
  lemma MiddleOfThree(x: real, y: real, z: real)
    ensures Recommend([x, y, z]) == Some(TiersOf(y))
  {
  }

  /** An anchor without a price is not priced, whatever the search returns. */
  lemma AbsentAnchorPrice(parse: PriceParser, search: KeywordSearch, condition: string)
    ensures Pricing(parse, search, "1001", Anchor(None, condition)) == NoPrice
  {
  }

  /** A single comp at 200 gives all three tiers from that price: 180, 200 and 220. */
  lemma SingleComp(parse: PriceParser, condition: string, t180: string, t200: string)
    requires parse(t180) == Some(180.0) && parse(t200) == Some(200.0)
    ensures PricingOf(parse, "1001", Anchor(Amount(t180), condition), [Comp(t200, condition)]).recommendation
         == PriceRecommendation(180.0, 200.0, 220.0)
  {
    var c := Comp(t200, condition);
    var item := Anchor(Amount(t180), condition);
    assert AnchorPrice(parse, item) == 180.0 && AnchorCondition(item) == condition;
    assert Lower(180.0) == 126.0 && Upper(180.0) == 234.0;
    assert [c] + [] == [c];
    KeptPricesStep(parse, c, [], condition, 126.0, 234.0);
    SortedPricesUnique(parse, item, [c], [200.0]);
    SinglePrice(200.0);
  }
}
