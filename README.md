# ebaypricer pricing core in Dafny

This project models the pricing core of `ebay_pricer`, a command-line tool. It takes eBay listing links and, for each one, does the following:

1. It extracts the legacy item identifier from the link.
2. It fetches that listing, the *anchor*.
3. It searches for comparable listings (*comps*) using the anchor's title.
4. It keeps the comps that have the anchor's condition and whose parsed price lies in the closed band [anchor × 0.7, anchor × 1.3].
5. It sorts the kept prices.
6. It reports three tiers of its median: fast (90 %), market (100 %) and patient (110 %).
7. It writes one export row per kept comp, again in ascending price order.

The tool's two external dependencies become parameters:

- The marketplace calls are the function parameters `ItemFetcher` and `KeywordSearch`. `KeywordSearch` returns the decoded `SearchResponse`. `None` from either stands for any transport, authentication or decoding error.
- Rust's `str::parse::<f64>` is the parameter `PriceParser` (`string -> Option<real>`).

Prices are exact reals.

Modules, one per file:

- `Wrappers`: `Option`.
- `Search`: the records the marketplace returns (`ConvertedAmount`, `Item`, `ItemSummary`, `SearchResponse`), every field optional. `Summaries` reads the comps from a search response; a missing list counts as empty.
- `ItemId`: `extract_item_id`, with `str::find` and the first piece of `split('/' | '?')` written out.
- `CompFilter`: the anchor price and condition defaults, the band, and the two filter chains.
  - The *price chain* collects prices.
  - The *row chain* collects (price, comp) pairs.
  - Each chain is composed of its stages: condition, then parse, then band.
- `Sorting`: the specification of a stable sort by a real key (`SortedByKey`). It is insertion that places an element after those with equal keys, as Rust's stable `sort_by` does. It comes with an in-place array insertion sort, `SortByKey`, that is proved equal to it.
- `MedianPricer`: the median with its even/odd rule, and the three tiers.
- `Pipeline`: one link through the whole step.
  - Specification functions: `LinkResult`, `Pricing` and `PricingOf`.
  - Methods that run it the way the program does: `PriceLinks`, `PriceLink`, `PriceItem` and `PriceComps`. `PriceComps` sorts both arrays in place.
  - Lemmas about the outcome.
- `Scenarios`: worked examples (the band example, a comp listed twice, a condition mismatch, an anchor without a price, a single comp) over symbolic price texts.

Two details of the code are kept as written:

- An anchor without a condition is compared through the placeholder text `"<none>"`. A comp whose condition is literally `"<none>"` therefore matches it (`CompFilter.PlaceholderConditionMatches`).
- When no comp survives, only the condition is reported (`NoComps(condition)`), not the band.

## Model

| member | source | states |
|---|---|---|
| ItemId.FindFrom | src/main.rs:18 | the first index at or after the start where the marker occurs; `None` exactly when it occurs nowhere after it |
| ItemId.FirstPiece | src/main.rs:20-23 | a prefix of the text without '/' or '?', ending at the end of the text or just before a separator |
| ItemId.FirstPieceUnique | src/main.rs:20-23 | that prefix is the only separator-free prefix ending at a separator or the end |
| ItemId.ExtractItemId | src/main.rs:17-29 | no "/itm/" in the link gives `None`; an identifier, when returned, is non-empty and holds no '/' or '?' |
| ItemId.ExtractAtFirstMarker | src/main.rs:18-28 | with the first "/itm/" at k: `None` if and only if the text after it is empty or starts with '/' or '?'; otherwise the identifier is the prefix of that text up to the next separator or the end |
| ItemId.FindExtended | src/main.rs:18 | text after the marker does not change where the marker is found first |
| ItemId.ExtractFromListingUrl | src/main.rs:17-29 | host + "/itm/" + id + tail gives exactly id, for a non-empty separator-free id and a tail that is empty or starts with a separator |
| ItemId.ExtractExample | src/main.rs:17-29 | "www.ebay.com/itm/256012345678?hash=item3b" gives "256012345678" |
| ItemId.ExtractEmptyPiece | src/main.rs:24-28 | "ebay.com/itm/?q=1" gives no identifier |
| Search.Summaries | src/search.rs:73 | the response's summaries when the field is present, and no comps when it is missing |
| CompFilter.PriceText | src/main.rs:75-77 | present exactly when the amount and its value text are both present, and then that text |
| CompFilter.ParsedPrice | src/main.rs:75-78 | absent when there is no price text, otherwise what the parser makes of the text |
| CompFilter.AnchorPrice | src/main.rs:46-51 | the parsed anchor price when the price and its value text are present and parse, else 0 |
| CompFilter.AnchorCondition | src/main.rs:53 | the anchor's condition when present, else the placeholder "<none>" |
| CompFilter.Lower | src/main.rs:60 | for a positive anchor, the lower band edge is positive and below the anchor |
| CompFilter.Upper | src/main.rs:61 | for a positive anchor, the upper band edge is above the anchor |
| CompFilter.MatchingCondition | src/main.rs:68-73 | every comp it keeps has a present condition equal to the anchor's, and it never lengthens the list |
| CompFilter.MatchingConditionMembers | src/main.rs:68-73 | a comp is kept if and only if it is an input comp whose condition is present and equal to the anchor's |
| CompFilter.ParsedPrices | src/main.rs:74-79 | at most one price per comp |
| CompFilter.ParsedPricesMembers | src/main.rs:74-79 | a price is produced if and only if some comp's price value text parses to it |
| CompFilter.PricedComps | src/main.rs:121-127 | every pair carries a comp whose price text parses to the pair's price |
| CompFilter.PricedCompsMembers | src/main.rs:121-127 | a pair is produced if and only if its comp is an input comp whose price parses to the pair's price |
| CompFilter.PricesInBand | src/main.rs:80 | every kept price p satisfies lower <= p <= upper |
| CompFilter.PricesInBandMembers | src/main.rs:80 | a price is kept if and only if it is an input price inside the closed band |
| CompFilter.PricesInBandSubMultiset | src/main.rs:80 | the band stage only drops prices |
| CompFilter.CompsInBand | src/main.rs:128 | every kept pair's price lies inside the closed band |
| CompFilter.CompsInBandMembers | src/main.rs:128 | a pair is kept if and only if it is an input pair whose price is inside the band |
| CompFilter.KeptPrices | src/main.rs:66-81 | the price chain: every kept price lies inside the band and there are at most as many as comps; which prices are kept and how often is stated by `KeptPricesMembers` and `KeptPricesCount` |
| CompFilter.KeptComps | src/main.rs:113-129 | the row chain: every kept pair's price lies inside the band and there are at most as many pairs as comps; `KeptCompsMembers` and `KeptCompsCount` state which pairs are kept and how often |
| CompFilter.KeptPricesStep | src/main.rs:66-81 | one more comp in front adds its parsed price in front of the kept prices when it admits that price, and nothing otherwise |
| CompFilter.KeptCompsStep | src/main.rs:113-129 | one more comp in front adds its (price, comp) pair in front of the kept pairs when it admits that price, and nothing otherwise |
| CompFilter.AdmittingCount | src/main.rs:66-81 | the number of comps, counted with repetition, that admit a price; never more than there are comps |
| CompFilter.KeptPricesCount | src/main.rs:66-81 | each price is kept exactly as many times as there are comps admitting it |
| CompFilter.KeptCompsCount | src/main.rs:113-129 | a pair is kept as many times as its comp occurs when the comp admits the pair's price, and never otherwise |
| CompFilter.KeptPricesMembers | src/main.rs:66-81 | a price is kept if and only if some comp has the anchor's condition, a price text that parses to it, and that price inside the band |
| CompFilter.KeptCompsMembers | src/main.rs:113-129 | a (price, comp) pair is kept if and only if the comp is an input comp with the anchor's condition and a price parsing to that price inside the band |
| CompFilter.MatchingParsedSubMultiset | src/main.rs:66-79 | filtering on the condition before parsing leaves a sub-multiset of all parsed prices |
| CompFilter.KeptPricesSubMultiset | src/main.rs:66-81 | the kept prices are a sub-multiset of the parsed prices of all comps |
| CompFilter.PricesOfPricedComps | src/main.rs:121-127 | the prices of the parsed pairs are the parsed prices, in order |
| CompFilter.PricesOfCompsInBand | src/main.rs:128 | the band stage commutes with taking the prices of the pairs |
| CompFilter.KeptChainsAgree | src/main.rs:113-129 | the price column of the row chain is the price chain, element for element |
| CompFilter.AbsentConditionNeverKept | src/main.rs:116-119 | a comp without a condition is never kept |
| CompFilter.PlaceholderConditionMatches | src/main.rs:53 | for an anchor without a condition, a comp matches if and only if its condition is the text "<none>" |
| Sorting.Insert | src/main.rs:83 | inserting adds exactly that element to the multiset |
| Sorting.InsertSorted | src/main.rs:83 | inserting into a sorted list keeps it sorted |
| Sorting.SortedByKey | src/main.rs:83 | the result is sorted by the key and a permutation of the input |
| Sorting.KeysOfSorted | src/main.rs:131 | sorting pairs by price and then taking the prices gives the same as sorting the prices |
| Sorting.SortedById | src/main.rs:83 | sorting prices by their own value gives an ascending list |
| Sorting.SortedUnique | src/main.rs:83 | two ascending lists with the same multiset are equal |
| Sorting.Swap | src/main.rs:83 | exchanges two array cells and leaves the rest unchanged |
| Sorting.SiftDown | src/main.rs:83 | moving element i down into the sorted prefix makes the prefix the insertion of that element; the rest is unchanged |
| Sorting.SortByKey | src/main.rs:83 | the array ends as `SortedByKey` of its old contents |
| MedianPricer.Median | src/main.rs:85-91 | for a sorted list, the median lies between the smallest and largest price |
| MedianPricer.MedianSplitsPrices | src/main.rs:86-91 | at least half the prices are at most the median and at least half are at least the median |
| MedianPricer.TiersOf | src/main.rs:94-96 | market is the median; fast and patient lie a tenth of it below and above; for a positive median 0 < fast < market < patient; for a non-negative median fast <= market <= patient |
| MedianPricer.Recommend | src/main.rs:85-96 | no recommendation if and only if there are no prices; for sorted prices the market price lies between the smallest and largest |
| MedianPricer.SinglePrice | src/main.rs:85-96 | a single price p gives the tiers p × 0.9, p, p × 1.1 |
| Pipeline.Record | src/main.rs:134-140 | the row carries the anchor id and the pair's price, and the comp's title, condition and URL, each empty when absent |
| Pipeline.SortedPrices | src/main.rs:66-83 | the kept prices after the sort: ascending and a permutation of the kept prices |
| Pipeline.SortedComps | src/main.rs:113-131 | the kept pairs after the sort: ascending by price and a permutation of the kept pairs |
| Pipeline.SortedPricesCount | src/main.rs:66-83 | the sorted prices hold each price exactly as many times as there are comps admitting it |
| Pipeline.RecordPricesOfRecords | src/main.rs:133-142 | the price column of the rows built from some pairs is the price column of those pairs |
| Pipeline.Records | src/main.rs:133-142 | one row per kept pair, in order, built from the anchor id and the comp's fields |
| Pipeline.RecordPrices | src/main.rs:137 | the price column, one entry per row |
| Pipeline.MedianOf | src/main.rs:86-91 | the median read from the sorted array is `Median` of its contents |
| Pipeline.RecordsOf | src/main.rs:133-142 | the export loop's rows are `Records` of the sorted pairs |
| Pipeline.PriceComps | src/main.rs:65-151 | filtering, sorting both arrays in place, the median and the rows give `PricingOf` |
| Pipeline.PriceItem | src/main.rs:59-156 | the outcome for a fetched anchor is `Pricing`: no price stops the step, then no title, then a failed search |
| Pipeline.PriceLink | src/main.rs:41-162 | the outcome for one link is `LinkResult`: no identifier, failed fetch or a pricing outcome |
| Pipeline.PriceLinks | src/main.rs:40-163 | one outcome per link, in order, each independent of the others |
| Pipeline.RowPricesAgree | src/main.rs:113-137 | the price column of the exported rows is exactly the sorted kept prices used for the median |
| Pipeline.SortedPricesUnique | src/main.rs:83 | any ascending arrangement of the kept prices is the sorted price list |
| Pipeline.RowsAdmitted | src/main.rs:133-142 | row i carries the anchor id and the anchor's condition and comes from a comp that admits its price |
| Pipeline.AllRowsAdmitted | src/main.rs:133-142 | every exported row carries the anchor id and condition and comes from an admitted comp |
| Pipeline.PricedOutcome | src/main.rs:85-145 | when priced: the price column is sorted, a non-empty permutation of the kept prices, the recommendation is the tiers of its median, and every row comes from an admitted comp |
| Pipeline.PricedTiers | src/main.rs:59-96 | when priced, the anchor price was positive, the market price lies in the band and 0 < fast < market < patient |
| Pipeline.NoCompsExactly | src/main.rs:146-150 | "no comps" is reported if and only if no comp has the anchor's condition and a parsed price inside the band |
| Scenarios.BandScenario | src/main.rs:59-142 | anchor 100 with comps at 90, 131, 69, 101 gives tiers 85.95, 95.5, 105.05 and rows for the comps at 90 and 101, in that order |
| Scenarios.DuplicateComps | src/main.rs:66-91 | a comp listed twice at 90 with one at 101 counts twice: the median is 90 and the tiers are 81, 90, 99 |
| Scenarios.NoMatchingCondition | src/main.rs:66-81 | comps whose condition differs from the anchor's are all dropped, giving `NoComps` |
| Scenarios.AbsentAnchorPrice | src/main.rs:46-59 | an anchor without a price is not priced, whatever the search returns |
| Scenarios.SingleComp | src/main.rs:85-96 | a single comp at 200 gives tiers 180, 200, 220 |

## Left out

- OAuth token acquisition (src/auth.rs): it is external I/O. Its failure, which panics the whole program, is left out too.
- The HTTP calls, request URLs and JSON decoding (src/search.rs:33-72) are the `ItemFetcher` and `KeywordSearch` parameters. Only the defaulting of a missing `itemSummaries` list (src/search.rs:73) is modelled, as `Search.Summaries`.
- Argument parsing with `clap` and the `tokio` runtime: the links arrive as a sequence.
- Console output (`println!`, `eprintln!`) and `{:.2}` formatting: not modelled. The outcome datatypes record which message would be printed.
- Creating, writing and flushing the CSV file, including its header row: the model produces the rows as values. The panic when the file cannot be created is not modelled.
- `str::parse::<f64>` is an abstract parameter: the model does not fix which texts parse.
- Floating point: prices, 0.7, 1.3, 0.9 and 1.1 are exact reals. NaN, the panic of `partial_cmp(..).unwrap()` on NaN, and rounding are not modelled.
- Sorting.SortByKey: stable by construction, because `SortedByKey` inserts after equal keys. Stability is not stated as a separate lemma; for the price list `SortedUnique` makes it irrelevant.
- Pipeline.PriceComps: the program builds `prices` and `comps_sorted` with iterator chains. The model builds them as the functions `KeptPrices` and `KeptComps` and then sorts them in arrays. The collection itself is not written as a loop.
