/** The scraped record and the scraper's result (src/lib/scrapers/types.ts). */
module Records {
  import opened Wrappers

  datatype AuctionResult = Sold | PassedIn | Withdrawn

  datatype Source = Domain | Rea

  /**
   * The JavaScript number held in `price`: absent (`undefined`), `NaN` (what
   * `parseInt` gives for a text without digits) or an integer amount in dollars.
   */
  datatype Price = NoPrice | NotANumber | Amount(value: int) {
    /** JavaScript truthiness: `undefined`, `NaN` and `0` are falsy */
    predicate Truthy() { Amount? && value != 0 }
  }

  /**
   * A `Date`: the calendar day that `toDateString` prints, and the instant in
   * milliseconds. Two dates are the same `Date` when both agree.
   */
  datatype Date = Date(day: string, millis: int)

  datatype RawAuctionData = RawAuctionData(
    address: string,
    suburb: string,
    state: string,
    postcode: string,
    price: Price,
    result: AuctionResult,
    auctionDate: Date,
    source: Source,
    propertyType: string,
    bedrooms: Option<nat>,
    bathrooms: Option<nat>,
    carSpaces: Option<nat>,
    agentName: Option<string>,
    agencyName: Option<string>,
    propertyUrl: Option<string>)

  /** What `scrape()` resolves to; `data` and `error` are optional */
  datatype ScraperResult = ScraperResult(
    success: bool,
    data: Option<seq<RawAuctionData>>,
    error: Option<string>,
    recordCount: int)

  /** `value || undefined` for an optional text: the empty string becomes undefined */
  function NonEmpty(s: Option<string>): (r: Option<string>)
    ensures r.Some? <==> s.Some? && s.value != ""
    ensures r.Some? ==> r == s
  {
    if s.Some? && s.value != "" then s else None
  }
}
