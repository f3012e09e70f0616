/**
 * The anchor's price and condition, and the selection of comparable
 * listings: same condition, a price that parses, a price inside the closed
 * band [anchor * 0.7, anchor * 1.3]. The selection is written twice in the
 * program, once keeping only prices and once keeping (price, listing)
 * pairs; both chains are modelled stage by stage.
 */
module CompFilter {
  import opened Wrappers
  import opened Search
  import opened Sorting

  /** Text-to-number conversion of a price (`str::parse::<f64>`), left abstract. */
  type PriceParser = string -> Option<real>

  /** The condition the anchor is given when it has none. */
  const NoCondition: string := "<none>"

  /** The text of an amount's value, when both the amount and its value are present. */
  function PriceText(amount: Option<ConvertedAmount>): (r: Option<string>)
    ensures r.Some? <==> amount.Some? && amount.value.value.Some?
    ensures r.Some? ==> r == amount.value.value
  {
    match amount
    case Some(a) => a.value
    case None => None
  }

  /** An amount's numeric value: absent when the amount, its text, or the parse is missing. */
  function ParsedPrice(parse: PriceParser, amount: Option<ConvertedAmount>): (r: Option<real>)
    ensures PriceText(amount).None? ==> r.None?
    ensures PriceText(amount).Some? ==> r == parse(PriceText(amount).value)
  {
    match PriceText(amount)
    case Some(text) => parse(text)
    case None => None
  }

  /** The anchor price: the parsed value, or 0 when there is none. */
  function AnchorPrice(parse: PriceParser, item: Item): (r: real)
    ensures ParsedPrice(parse, item.price) == Some(r)
         || (ParsedPrice(parse, item.price) == None && r == 0.0)
  {
    ParsedPrice(parse, item.price).GetOr(0.0)
  }

  /** The anchor condition: the item's own, or the placeholder text when it has none. */
  function AnchorCondition(item: Item): (r: string)
    ensures item.condition == Some(r) || (item.condition == None && r == NoCondition)
  {
    item.condition.GetOr(NoCondition)
  }

  /** The lower edge of the price band. */
  function Lower(anchor: real): (r: real)
    ensures anchor > 0.0 ==> 0.0 < r < anchor
  {
    anchor * 0.7
  }

  /** The upper edge of the price band. */
  function Upper(anchor: real): (r: real)
    ensures anchor > 0.0 ==> anchor < r
  {
    anchor * 1.3
  }

  predicate InBand(p: real, lower: real, upper: real) {
    p >= lower && p <= upper
  }

  /** A comp matches only when it has a condition and that text equals the anchor's. */
  predicate ConditionMatches(c: ItemSummary, condition: string) {
    c.condition == Some(condition)
  }

  /** Everything one comp must satisfy for its price `p` to be kept. */
  predicate Admits(parse: PriceParser, c: ItemSummary, condition: string, lower: real, upper: real, p: real) {
    ConditionMatches(c, condition) && ParsedPrice(parse, c.price) == Some(p) && InBand(p, lower, upper)
  }

  /** The price component of a (price, listing) pair: the sort key of the exported rows. */
  function PriceOf(pc: (real, ItemSummary)): real {
    pc.0
  }

  /** Stage 1 of both chains: the comps whose condition matches, in input order. */
  function MatchingCondition(comps: seq<ItemSummary>, condition: string): (r: seq<ItemSummary>)
    ensures |r| <= |comps|
    ensures forall i :: 0 <= i < |r| ==> ConditionMatches(r[i], condition)
  {
    if comps == [] then []
    else
      var rest := MatchingCondition(comps[1..], condition);
      if ConditionMatches(comps[0], condition) then [comps[0]] + rest else rest
  }

  /** Stage 2 of the price chain: the prices that parse, in input order. */
  function ParsedPrices(parse: PriceParser, comps: seq<ItemSummary>): (r: seq<real>)
    ensures |r| <= |comps|
  {
    if comps == [] then []
    else
      var rest := ParsedPrices(parse, comps[1..]);
      match ParsedPrice(parse, comps[0].price)
      case Some(p) => [p] + rest
      case None => rest
  }

  /** Stage 2 of the row chain: each comp whose price parses, paired with that price. */
  function PricedComps(parse: PriceParser, comps: seq<ItemSummary>): (r: seq<(real, ItemSummary)>)
    ensures |r| <= |comps|
    ensures forall i :: 0 <= i < |r| ==> ParsedPrice(parse, r[i].1.price) == Some(r[i].0)
  {
    if comps == [] then []
    else
      var rest := PricedComps(parse, comps[1..]);
      match ParsedPrice(parse, comps[0].price)
      case Some(p) => [(p, comps[0])] + rest
      case None => rest
  }

  /** Stage 3 of the price chain: the prices inside the band, in order. */
  function PricesInBand(prices: seq<real>, lower: real, upper: real): (r: seq<real>)
    ensures |r| <= |prices|
    ensures forall i :: 0 <= i < |r| ==> InBand(r[i], lower, upper)
  {
    if prices == [] then []
    else
      var rest := PricesInBand(prices[1..], lower, upper);
      if InBand(prices[0], lower, upper) then [prices[0]] + rest else rest
  }

  /** Stage 3 of the row chain: the pairs whose price is inside the band, in order. */
  function CompsInBand(pairs: seq<(real, ItemSummary)>, lower: real, upper: real): (r: seq<(real, ItemSummary)>)
    ensures |r| <= |pairs|
    ensures forall i :: 0 <= i < |r| ==> InBand(r[i].0, lower, upper)
  {
    if pairs == [] then []
    else
      var rest := CompsInBand(pairs[1..], lower, upper);
      if InBand(pairs[0].0, lower, upper) then [pairs[0]] + rest else rest
  }

  /** A comp survives the condition stage exactly when it is an input comp with the anchor's condition. */
  lemma {:induction false} MatchingConditionMembers(comps: seq<ItemSummary>, condition: string, c: ItemSummary)
    ensures c in MatchingCondition(comps, condition) <==> c in comps && ConditionMatches(c, condition)
  {
    if comps != [] {
      MatchingConditionMembers(comps[1..], condition, c);
      assert comps == [comps[0]] + comps[1..];
    }
  }

  /** A price is produced by the parse stage exactly when some input comp's price parses to it. */
  lemma {:induction false} ParsedPricesMembers(parse: PriceParser, comps: seq<ItemSummary>, p: real)
    ensures p in ParsedPrices(parse, comps) <==> exists c :: c in comps && ParsedPrice(parse, c.price) == Some(p)
  {
    if comps != [] {
      ParsedPricesMembers(parse, comps[1..], p);
      assert comps == [comps[0]] + comps[1..];
      if c :| c in comps[1..] && ParsedPrice(parse, c.price) == Some(p) {
        assert c in comps;
      }
    }
  }

  /** A pair is produced by the parse stage exactly when its comp is an input comp whose price parses to its price. */
  lemma {:induction false} PricedCompsMembers(parse: PriceParser, comps: seq<ItemSummary>, pc: (real, ItemSummary))
    ensures pc in PricedComps(parse, comps) <==> pc.1 in comps && ParsedPrice(parse, pc.1.price) == Some(pc.0)
  {
    if comps != [] {
      PricedCompsMembers(parse, comps[1..], pc);
      assert comps == [comps[0]] + comps[1..];
    }
  }

  /** A price survives the band stage exactly when it is an input price inside the band. */
  lemma {:induction false} PricesInBandMembers(prices: seq<real>, lower: real, upper: real, p: real)
    ensures p in PricesInBand(prices, lower, upper) <==> p in prices && InBand(p, lower, upper)
  {
    if prices != [] {
      PricesInBandMembers(prices[1..], lower, upper, p);
      assert prices == [prices[0]] + prices[1..];
    }
  }

  /** A pair survives the band stage exactly when it is an input pair whose price is inside the band. */
  lemma {:induction false} CompsInBandMembers(pairs: seq<(real, ItemSummary)>, lower: real, upper: real, pc: (real, ItemSummary))
    ensures pc in CompsInBand(pairs, lower, upper) <==> pc in pairs && InBand(pc.0, lower, upper)
  {
    if pairs != [] {
      CompsInBandMembers(pairs[1..], lower, upper, pc);
      assert pairs == [pairs[0]] + pairs[1..];
    }
  }

  /** The unsorted prices the first chain collects. */
  function KeptPrices(parse: PriceParser, comps: seq<ItemSummary>, condition: string, lower: real, upper: real): (r: seq<real>)
    ensures |r| <= |comps|
    ensures forall i :: 0 <= i < |r| ==> InBand(r[i], lower, upper)
  {
    PricesInBand(ParsedPrices(parse, MatchingCondition(comps, condition)), lower, upper)
  }

  /** The unsorted (price, listing) pairs the second chain collects. */
  function KeptComps(parse: PriceParser, comps: seq<ItemSummary>, condition: string, lower: real, upper: real): (r: seq<(real, ItemSummary)>)
    ensures |r| <= |comps|
    ensures forall i :: 0 <= i < |r| ==> InBand(r[i].0, lower, upper)
  {
    CompsInBand(PricedComps(parse, MatchingCondition(comps, condition)), lower, upper)
  }

  /**
   * Prepending one comp to the comps: its parsed price is kept in front
   * when it admits that price, and nothing is added otherwise.
   */
  lemma KeptPricesStep(parse: PriceParser, c: ItemSummary, rest: seq<ItemSummary>, condition: string, lower: real, upper: real)
    ensures var q := ParsedPrice(parse, c.price);
      KeptPrices(parse, [c] + rest, condition, lower, upper)
        == (if q.Some? && Admits(parse, c, condition, lower, upper, q.value) then [q.value] else [])
           + KeptPrices(parse, rest, condition, lower, upper)
  {
    assert ([c] + rest)[1..] == rest;
  }

  /** The same step for the row chain: the comp's pair is kept in front when it admits its price. */
  lemma KeptCompsStep(parse: PriceParser, c: ItemSummary, rest: seq<ItemSummary>, condition: string, lower: real, upper: real)
    ensures var q := ParsedPrice(parse, c.price);
      KeptComps(parse, [c] + rest, condition, lower, upper)
        == (if q.Some? && Admits(parse, c, condition, lower, upper, q.value) then [(q.value, c)] else [])
           + KeptComps(parse, rest, condition, lower, upper)
  {
    assert ([c] + rest)[1..] == rest;
  }

  /** How many of the comps, counted with repetition, admit the price `p`. */
  function AdmittingCount(parse: PriceParser, comps: seq<ItemSummary>, condition: string, lower: real, upper: real, p: real): (n: nat)
    ensures n <= |comps|
  {
    if comps == [] then 0
    else (if Admits(parse, comps[0], condition, lower, upper, p) then 1 else 0)
         + AdmittingCount(parse, comps[1..], condition, lower, upper, p)
  }

  /**
   * Each price is kept exactly as many times as there are comps admitting
   * it: duplicates are neither merged nor invented, so the median sees them.
   */
  lemma {:induction false} KeptPricesCount(parse: PriceParser, comps: seq<ItemSummary>, condition: string, lower: real, upper: real, p: real)
    ensures multiset(KeptPrices(parse, comps, condition, lower, upper))[p]
         == AdmittingCount(parse, comps, condition, lower, upper, p)
  {
    if comps != [] {
      var c, rest := comps[0], comps[1..];
      assert comps == [c] + rest;
      KeptPricesStep(parse, c, rest, condition, lower, upper);
      KeptPricesCount(parse, rest, condition, lower, upper, p);
    }
  }

  /**
   * A (price, comp) pair is kept as many times as its comp occurs among the
   * comps when that comp admits the price, and never otherwise.
   */
  lemma {:induction false} KeptCompsCount(parse: PriceParser, comps: seq<ItemSummary>, condition: string, lower: real, upper: real, pc: (real, ItemSummary))
    ensures multiset(KeptComps(parse, comps, condition, lower, upper))[pc]
         == if Admits(parse, pc.1, condition, lower, upper, pc.0) then multiset(comps)[pc.1] else 0
  {
    if comps != [] {
      var c, rest := comps[0], comps[1..];
      assert comps == [c] + rest;
      assert multiset(comps) == multiset{c} + multiset(rest);
      KeptCompsStep(parse, c, rest, condition, lower, upper);
      KeptCompsCount(parse, rest, condition, lower, upper, pc);
    }
  }

  /**
   * A price is kept exactly when some comp has the anchor's condition, a
   * price that parses to it, and that price lies inside the band.
   */
  lemma KeptPricesMembers(parse: PriceParser, comps: seq<ItemSummary>, condition: string, lower: real, upper: real, p: real)
    ensures p in KeptPrices(parse, comps, condition, lower, upper)
        <==> exists c :: c in comps && Admits(parse, c, condition, lower, upper, p)
  {
    var matching := MatchingCondition(comps, condition);
    var parsed := ParsedPrices(parse, matching);
    PricesInBandMembers(parsed, lower, upper, p);
    ParsedPricesMembers(parse, matching, p);
    if p in KeptPrices(parse, comps, condition, lower, upper) {
      var c :| c in matching && ParsedPrice(parse, c.price) == Some(p);
      MatchingConditionMembers(comps, condition, c);
      assert Admits(parse, c, condition, lower, upper, p);
    }
    if c :| c in comps && Admits(parse, c, condition, lower, upper, p) {
      MatchingConditionMembers(comps, condition, c);
    }
  }

  /** A pair is kept exactly when its listing is a comp that admits its price. */
  lemma KeptCompsMembers(parse: PriceParser, comps: seq<ItemSummary>, condition: string, lower: real, upper: real, pc: (real, ItemSummary))
    ensures pc in KeptComps(parse, comps, condition, lower, upper)
        <==> pc.1 in comps && Admits(parse, pc.1, condition, lower, upper, pc.0)
  {
    var matching := MatchingCondition(comps, condition);
    CompsInBandMembers(PricedComps(parse, matching), lower, upper, pc);
    PricedCompsMembers(parse, matching, pc);
    MatchingConditionMembers(comps, condition, pc.1);
  }

  /** Filtering on the condition first leaves a sub-multiset of the prices that parse. */
  lemma {:induction false} MatchingParsedSubMultiset(parse: PriceParser, comps: seq<ItemSummary>, condition: string)
    ensures multiset(ParsedPrices(parse, MatchingCondition(comps, condition))) <= multiset(ParsedPrices(parse, comps))
  {
    if comps != [] {
      MatchingParsedSubMultiset(parse, comps[1..], condition);
    }
  }

  /** The band stage only drops prices. */
  lemma {:induction false} PricesInBandSubMultiset(prices: seq<real>, lower: real, upper: real)
    ensures multiset(PricesInBand(prices, lower, upper)) <= multiset(prices)
  {
    if prices != [] {
      PricesInBandSubMultiset(prices[1..], lower, upper);
      assert prices == [prices[0]] + prices[1..];
    }
  }

  /** The kept prices are a sub-multiset of the parsed prices of all the comps: nothing new appears. */
  lemma KeptPricesSubMultiset(parse: PriceParser, comps: seq<ItemSummary>, condition: string, lower: real, upper: real)
    ensures multiset(KeptPrices(parse, comps, condition, lower, upper)) <= multiset(ParsedPrices(parse, comps))
  {
    MatchingParsedSubMultiset(parse, comps, condition);
    PricesInBandSubMultiset(ParsedPrices(parse, MatchingCondition(comps, condition)), lower, upper);
  }

  lemma {:induction false} PricesOfPricedComps(parse: PriceParser, comps: seq<ItemSummary>)
    ensures Keys(PricedComps(parse, comps), PriceOf) == ParsedPrices(parse, comps)
  {
    if comps != [] {
      PricesOfPricedComps(parse, comps[1..]);
      var rest := PricedComps(parse, comps[1..]);
      match ParsedPrice(parse, comps[0].price)
      case Some(p) => KeysCons((p, comps[0]), rest, PriceOf);
      case None =>
    }
  }

  lemma {:induction false} PricesOfCompsInBand(pairs: seq<(real, ItemSummary)>, lower: real, upper: real)
    ensures Keys(CompsInBand(pairs, lower, upper), PriceOf) == PricesInBand(Keys(pairs, PriceOf), lower, upper)
  {
    if pairs != [] {
      PricesOfCompsInBand(pairs[1..], lower, upper);
      KeysCons(pairs[0], pairs[1..], PriceOf);
      assert pairs == [pairs[0]] + pairs[1..];
      if InBand(pairs[0].0, lower, upper) {
        KeysCons(pairs[0], CompsInBand(pairs[1..], lower, upper), PriceOf);
      }
    }
  }

  /** The two chains agree: the price column of the kept pairs is the kept prices, element for element. */
  lemma KeptChainsAgree(parse: PriceParser, comps: seq<ItemSummary>, condition: string, lower: real, upper: real)
    ensures Keys(KeptComps(parse, comps, condition, lower, upper), PriceOf) == KeptPrices(parse, comps, condition, lower, upper)
  {
    var matching := MatchingCondition(comps, condition);
    PricesOfCompsInBand(PricedComps(parse, matching), lower, upper);
    PricesOfPricedComps(parse, matching);
  }

  /** A comp without a condition is never kept, whatever the anchor's condition. */
  lemma AbsentConditionNeverKept(parse: PriceParser, comps: seq<ItemSummary>, condition: string, lower: real, upper: real, pc: (real, ItemSummary))
    requires pc.1.condition == None
    ensures pc !in KeptComps(parse, comps, condition, lower, upper)
  {
    KeptCompsMembers(parse, comps, condition, lower, upper, pc);
  }

  /**
   * An anchor without a condition is compared through the placeholder text,
   * so a comp whose condition is that literal text matches it, while a comp
   * without a condition does not.
   */
  lemma PlaceholderConditionMatches(item: Item, c: ItemSummary)
    requires item.condition == None
    ensures ConditionMatches(c, AnchorCondition(item)) <==> c.condition == Some(NoCondition)
  {
  }
}
