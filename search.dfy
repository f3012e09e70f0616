/**
 * The record shapes that the marketplace API returns, as plain values.
 * Every field is optional, because every JSON field may be missing.
 */
module Search {
  import opened Wrappers

  /** A money amount: the numeric value is kept as the text the API sent. */
  datatype ConvertedAmount = ConvertedAmount(value: Option<string>, currency: Option<string>)

  /** The anchor listing, fetched by its legacy item identifier. */
  datatype Item = Item(
    itemId: Option<string>,
    title: Option<string>,
    condition: Option<string>,
    price: Option<ConvertedAmount>,
    itemWebUrl: Option<string>)

  /** One candidate comparable listing returned by a keyword search. */
  datatype ItemSummary = ItemSummary(
    itemId: Option<string>,
    title: Option<string>,
    price: Option<ConvertedAmount>,
    condition: Option<string>,
    itemWebUrl: Option<string>)

  /** The body of a keyword search response. */
  datatype SearchResponse = SearchResponse(itemSummaries: Option<seq<ItemSummary>>)

  /** The comps a response carries: its summaries, or none when the field is missing. */
  function Summaries(response: SearchResponse): (r: seq<ItemSummary>)
    ensures response.itemSummaries.Some? ==> r == response.itemSummaries.value
    ensures response.itemSummaries.None? ==> r == []
  {
    response.itemSummaries.GetOr([])
  }
}
