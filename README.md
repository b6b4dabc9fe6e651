# Auction results pipeline — a verified model

This project models the core of a pipeline that collects Australian property
auction results. Three scrapers read them from Domain and one from
realestate.com.au (REA):

- a browser scraper for Domain that walks cities, then suburbs, then result cards;
- a plain-HTTP scraper for Domain that tries JSON in script tags, then elements, then text blocks;
- an "enhanced" browser scraper for Domain that scores competing container strategies;
- a browser scraper for REA that walks states, then suburbs, then result containers.

Each scraper turns what it reads into `RawAuctionData` records. The scraper
service writes the records, in batches of 100, to an auction table keyed by
(address, auction date). It then groups them by suburb, state and day, and
writes one statistics row per group, with its clearance rate, mean price and
median price. Each run is logged.

The trends endpoint groups statistics rows by week and computes overall
figures. The API key check guards the scrape endpoint.

The model is split into modules:

| module | what it holds |
|---|---|
| `Text` | the string and regular-expression primitives, written out as functions |
| `Records` | the record types |
| `Extraction` | the text helpers that several scrapers share |
| `Retry` | `safeOperation` with linear back-off |
| `DomainScraper`, `HttpDomainScraper`, `EnhancedScraper`, `ReaScraper` | one module per scraper |
| `SuburbGrouping`, `Median` | the arithmetic of the statistics |
| `ScraperService` | the service, with an in-memory `Database` class standing for the tables |
| `Trends` | the trends endpoint |
| `Auth` | the API key check |

Several scrapers repeat the same helper. Each such helper is defined once,
and its row below cites every copy.

These parts are parameters of the model, not modelled code:

- **The browser and the network:** a page is the sequence of texts or containers its selectors would return.
- **The clock:** `now` is a parameter.
- **Failures of outside operations:** a parameter gives the outcome of each attempt, and other parameters say which database writes fail.
- **JSON from script tags:** given as an already-parsed `Json` value.
- **The conversion of a JSON object into a record:** a parameter `convert`.
- **The week label of a date:** a parameter `weekOf`.

Prices and means are `real`. A text price of the source is `Price`. `Price` separates three cases:

- an absent price (`undefined`, `NoPrice`);
- `NaN` from `parseInt` of a text without digits (`NotANumber`);
- an amount.

Only a non-zero amount counts as a price where the source tests `a.price`.

The auction table is keyed by (address, auctionDate); `source` is not part of the key (scraper-service.ts:133-136).

## Model

| member | source | states |
|---|---|---|
| Auth.ValidateApiKey | src/lib/auth.ts:3-19 | a request is accepted exactly when the secret is set and non-empty and the header is exactly `Bearer ` followed by the secret |
| Auth.SecretDecides | src/lib/auth.ts:13-18 | with no secret, or an empty one, nothing is accepted; one header is accepted under at most one secret |
| Auth.PrefixIsExact | src/lib/auth.ts:6-8 | a lower-case `bearer ` prefix and a prefix without its space are both refused |
| Records.NonEmpty | src/lib/scrapers/http-domain-scraper.ts:258-260 | `value \|\| undefined`: a value is kept exactly when it is present and non-empty |
| Extraction.ExtractPrice | src/lib/scrapers/domain-scraper.ts:402-405 | empty exactly when no `$` is followed by a digit or comma; otherwise the match at the first such `$`: the `$`, the whole digit-and-comma run after it, and a point with two digits when they follow (also rea-scraper.ts:315-318) |
| Extraction.ClassifyBadge | src/lib/scrapers/rea-scraper.ts:234-240 | sold exactly when the badge contains `sold`; withdrawn exactly when it does not but contains `withdrawn` or `cancelled`; passed in otherwise |
| Extraction.ExtractPostcode | src/lib/scrapers/rea-scraper.ts:288-291 | empty exactly when the text holds no four-digit word; otherwise the first one, four digits (also http-domain-scraper.ts:361-364, enhanced-domain-scraper.ts:435-438) |
| Extraction.ExtractResult | src/lib/scrapers/domain-scraper.ts:407-410 | empty exactly when no result word occurs as a whole word, ignoring case; otherwise the earliest one, lower-cased (also http-domain-scraper.ts:374-377) |
| Extraction.MatchedWordCased | src/lib/scrapers/domain-scraper.ts:412-415 | a matched property type is the slice of the text at the leftmost position where a type word matches, and its lower case is in the list |
| Extraction.ExtractPropertyType | src/lib/scrapers/domain-scraper.ts:412-415 | never empty; its lower case is a known property type; `House` when no type word occurs; otherwise the leftmost type word, as written in the text (also rea-scraper.ts:325-328) |
| Extraction.ExtractCount | src/lib/scrapers/domain-scraper.ts:417-430 | present exactly when a digit run followed by the feature word occurs; its value is that of the first such run (also rea-scraper.ts:330-343) |
| Extraction.ExtractAddressOrFirstLine | src/lib/scrapers/domain-scraper.ts:391-400 | absent exactly when no line has a street suffix and the first line is empty; when some line has one, the first such line, every earlier line lacking one; else the first line (also rea-scraper.ts:304-313) |
| Extraction.ExtractAgentNameByShape | src/lib/scrapers/domain-scraper.ts:432-441 | the first line of the text shaped like two capitalised words, no earlier line having that shape, or absent exactly when no line has it (also rea-scraper.ts:345-354) |
| Extraction.ExtractAgencyNameByKeyword | src/lib/scrapers/domain-scraper.ts:443-452 | the first line of the text holding an agency word, no earlier line holding one, or absent exactly when no line holds one (also rea-scraper.ts:356-365) |
| Extraction.HasAgencyWordIsWordTest | src/lib/scrapers/domain-scraper.ts:447 | the agency test holds exactly when `real estate`, `realty`, `properties`, `property` or `group` occurs as a whole word, ignoring case |
| Extraction.ExtractPropertyUrl | src/lib/scrapers/domain-scraper.ts:454-476 | a `/` property href gains the origin and a property href on the origin is kept; otherwise a site href containing a listing path is kept when it starts with `http` and gains the origin when not; absent otherwise, and always absent without hrefs (also rea-scraper.ts:367-389) |
| Extraction.IndicatorCount | src/lib/scrapers/domain-scraper.ts:380-389 | at most four indicators; a text looks like an auction result exactly when two of the four kinds are present (also rea-scraper.ts:293-302, enhanced-domain-scraper.ts:407-416) |
| Extraction.LooksLikeAuctionResultNeedsTwo | src/lib/scrapers/rea-scraper.ts:293-302 | `LooksLikeAuctionResult` (the same in domain-scraper.ts and enhanced-domain-scraper.ts) holds exactly when two of the price, postcode, result-word and feature-word indicators hold |
| Retry.LinearDelays | src/lib/scrapers/domain-scraper.ts:51 | the n-th wait before a retry is 2000·n milliseconds |
| Retry.FirstStop | src/lib/scrapers/domain-scraper.ts:43-59 | the first attempt that does not fail recoverably, with every earlier attempt failing recoverably |
| Retry.RetryStopsAt | src/lib/scrapers/domain-scraper.ts:46-55 | from the first stopping attempt k, the run returns attempt k's outcome after k+1 calls with the waits between |
| Retry.RetryExhausts | src/lib/scrapers/domain-scraper.ts:58 | when every attempt fails recoverably, the run throws `<name> failed after <n> attempts` after n calls |
| Retry.RetryContract | src/lib/scrapers/domain-scraper.ts:43-59 | either the first stopping attempt's outcome, after k+1 calls and waits 2000…2000·k; or the exhaustion error after max(maxRetries, 0) calls (also enhanced-domain-scraper.ts:13-29, rea-scraper.ts:14-30) |
| Retry.SafeOperation | src/lib/scrapers/domain-scraper.ts:43-59 | the loop produces the run the retry function specifies, with at most maxRetries calls and linear waits |
| Retry.NavigationTimeoutIsRecoverable | src/lib/scrapers/domain-scraper.ts:61-72 | a navigation timeout message counts as recoverable |
| Retry.LackingLettersNotRecoverable | src/lib/scrapers/domain-scraper.ts:61-72 | a message lacking letters that every recoverable pattern needs is not recoverable |
| Retry.SyntaxErrorIsNotRecoverable | src/lib/scrapers/domain-scraper.ts:61-72 | `Unexpected token` and an error without a message are not recoverable |
| Retry.RecoverableIgnoresCase | src/lib/scrapers/domain-scraper.ts:61-72 | `IsRecoverableError`: a message is recoverable exactly when its lower-cased form is, since the patterns are matched against the lower-cased message |
| Retry.AlwaysTimingOut | src/lib/scrapers/domain-scraper.ts:43-59 | an operation that always times out is called 3 times, waits 2000, 4000 and 6000 ms, and ends with the exhaustion error |
| Retry.SyntaxErrorNotRetried | src/lib/scrapers/domain-scraper.ts:53-55 | an unrecoverable error is rethrown after one call and no wait |
| DomainScraper.ConstructUrl | src/lib/scrapers/domain-scraper.ts:21-41 | empty exactly for an empty href; an http(s) href is kept; `//x` becomes `https://x`; `/x` gains the origin; any other href gains the origin and a slash; the result ends with the href |
| DomainScraper.ConstructUrlIdempotent | src/lib/scrapers/domain-scraper.ts:21-41 | building the URL of a built URL changes nothing |
| DomainScraper.SuburbTargets | src/lib/scrapers/domain-scraper.ts:171-187 | every target is a suburb results link; every kept link becomes a target; when every link is kept there is one target per link |
| DomainScraper.SuburbTargetsOfOne | src/lib/scrapers/domain-scraper.ts:171-187 | one link gives its target exactly when it is kept, and nothing otherwise |
| DomainScraper.SuburbTargetsAppend | src/lib/scrapers/domain-scraper.ts:171-187 | the targets of two runs of links are the first run's targets followed by the second's, so page order is kept |
| DomainScraper.SuburbTargetsOnlyKept | src/lib/scrapers/domain-scraper.ts:171-187 | every target is the target of a kept link |
| DomainScraper.SuburbLimit | src/lib/scrapers/domain-scraper.ts:17 | the configured limit when it is positive, 10 otherwise, never zero |
| DomainScraper.ConcatRecords | src/lib/scrapers/domain-scraper.ts:197-206 | every record of every target's page is in the result, and nothing else; one target gives exactly its page's records |
| DomainScraper.ConcatRecordsAppend | src/lib/scrapers/domain-scraper.ts:197-206 | the records of two runs of targets are the first run's records followed by the second's, in order and with every copy |
| DomainScraper.ScrapeCity | src/lib/scrapers/domain-scraper.ts:136-214 | the records of the first `limit` suburb targets, in order, with a 1000 ms wait between consecutive suburbs |
| DomainScraper.PrimaryFrom | src/lib/scrapers/domain-scraper.ts:244-252 | the first position from `from` where the suburb URL pattern matches, no earlier one matching, or absent exactly when it matches nowhere |
| DomainScraper.FallbackFrom | src/lib/scrapers/domain-scraper.ts:253-263 | the first position from `from` where the fallback pattern matches, no earlier one matching, or absent exactly when it matches nowhere |
| DomainScraper.ParseSuburbUrl | src/lib/scrapers/domain-scraper.ts:244-263 | the primary pattern wins when it matches. Otherwise the result is the fallback's match on the last non-empty path part, or the empty location when that part does not match. The result is absent (the source's TypeError) exactly when the primary pattern fails and the URL has no non-empty part. A parsed postcode is four digits |
| DomainScraper.PrimaryParse | src/lib/scrapers/domain-scraper.ts:244-252 | on `/auction-results/<city>/<name>-<code>-<postcode>`, the suburb is the name, the state the upper-cased code, the postcode the digits |
| DomainScraper.FallbackParse | src/lib/scrapers/domain-scraper.ts:253-263 | on a last segment `<name>-<code>-<postcode>`, the suburb is the name with hyphens as spaces |
| DomainScraper.HyphenatedSuburbUrl | src/lib/scrapers/domain-scraper.ts:244-263 | `/auction-results/sydney/mount-kuring-gai-nsw-2080` misses the primary pattern and is read by the fallback as suburb `mount kuring gai`, state NSW, postcode 2080 |
| DomainScraper.ParsePrice | src/lib/scrapers/domain-scraper.ts:325-328 | absent exactly for an empty price or `Undisclosed`; NaN exactly when there is no digit; otherwise the value of the text's digits |
| DomainScraper.PositiveDigitsArePositivePrice | src/lib/scrapers/domain-scraper.ts:325-328 | the price is a positive amount exactly when the text is non-empty and its digits are positive |
| DomainScraper.ClassifyResult | src/lib/scrapers/domain-scraper.ts:331-339 | sold exactly when the result text says sold or the price is positive; withdrawn exactly when not sold and it says withdrawn or cancelled |
| DomainScraper.PositivePriceMeansSold | src/lib/scrapers/domain-scraper.ts:331-333 | a positive price alone makes the result sold |
| DomainScraper.CapitaliseFirst | src/lib/scrapers/domain-scraper.ts:343 | same length; the first letter upper-cased and the others lower-cased |
| DomainScraper.CapitaliseFirstIdempotent | src/lib/scrapers/domain-scraper.ts:343 | capitalising twice is capitalising once |
| DomainScraper.CardToRecord | src/lib/scrapers/domain-scraper.ts:341-361 | a record exactly when 5 < address length < 200, carrying the address, the capitalised suburb, the state, postcode, price, result, date, source Domain and a known property type |
| DomainScraper.CardToRecordFields | src/lib/scrapers/domain-scraper.ts:341-361 | a card's record takes its property type from the card text, its bedroom, bathroom and car counts from the features text (else the card text), its agent and agency from their elements or the text shapes, and its property URL from the hrefs |
| DomainScraper.CardsToRecordsAt | src/lib/scrapers/domain-scraper.ts:295-361 | every record of a suburb page carries that suburb's location, the date and source Domain |
| DomainScraper.ScrapeSuburb | src/lib/scrapers/domain-scraper.ts:216-378 | no records when the URL gives no location; otherwise one record per card that passes the address check, in card order |
| ReaScraper.GetStateCode | src/lib/scrapers/rea-scraper.ts:274-286 | the mapped code for a full state name; otherwise the name upper-cased |
| ReaScraper.StateCodeHasNoLowerCase | src/lib/scrapers/rea-scraper.ts:274-286 | no state code has a lower-case letter |
| ReaScraper.StateCodesOfFullNames | src/lib/scrapers/rea-scraper.ts:275-284 | the eight full state and territory names map to NSW, VIC, QLD, WA, SA, TAS, ACT and NT |
| ReaScraper.StateLinks | src/lib/scrapers/rea-scraper.ts:83-87 | the state links kept are exactly those with an href and a name whose href mentions `auction-results` |
| ReaScraper.StateLinksOfOne | src/lib/scrapers/rea-scraper.ts:83-87 | one link is queued exactly when it has an href and a name and the href mentions `auction-results` (`KeepStateLink`) |
| ReaScraper.StateLinksAppend | src/lib/scrapers/rea-scraper.ts:83-87 | the links of a concatenation are those of each part in turn, so page order and repeated links are kept |
| ReaScraper.RemoveFirstPostcode | src/lib/scrapers/rea-scraper.ts:145 | without a four-digit word the text is unchanged; with one, four characters shorter |
| ReaScraper.RemoveFirstPostcodeCutsLeftmost | src/lib/scrapers/rea-scraper.ts:145 | with a four-digit word, the result is `s[..i] + s[i+4..]` for the leftmost four-digit word `s[i..i+4]` |
| ReaScraper.SuburbEntryOf | src/lib/scrapers/rea-scraper.ts:138-152 | a suburb is kept exactly when it has an href with at least four slashes and a non-empty name once the postcode is removed; its postcode is the text's, else the href's, and is empty or four digits |
| ReaScraper.ParsePrice | src/lib/scrapers/rea-scraper.ts:226-232 | absent exactly for an empty text, one mentioning `Undisclosed` or one with no digit or comma; otherwise, for the first maximal digit-and-comma run, NaN when it holds only commas and else the value of its digits |
| ReaScraper.PriceImpliesSoldOnlyOnDomain | src/lib/scrapers/rea-scraper.ts:234-240 | a positive price makes a Domain result sold, but an REA badge with no result word stays passed in (domain-scraper.ts:333) |
| ReaScraper.ContainerToRecord | src/lib/scrapers/rea-scraper.ts:242-260 | a record exactly when an address is found: the record built from the container with that address, with the suburb, state code, postcode (link's or address's), price, badge result, source REA, date and the container text's property type |
| ReaScraper.BuildRecord | src/lib/scrapers/rea-scraper.ts:242-260 | the record built from an address carries exactly those fields |
| ReaScraper.BuildRecordFields | src/lib/scrapers/rea-scraper.ts:242-260 | the record's bedroom, bathroom and car counts, agent, agency and property URL are those the shared helpers read from the container |
| ReaScraper.RecordsFromPage | src/lib/scrapers/rea-scraper.ts:201-260 | every record of a suburb page has an address and carries that suburb, the state code and source REA |
| ReaScraper.ScrapeSuburb | src/lib/scrapers/rea-scraper.ts:176-272 | the loop yields one record per container that looks like a result and has an address, in page order |
| ReaScraper.StateRecordsOfState | src/lib/scrapers/rea-scraper.ts:120-174 | every record gathered for a state comes from REA, has an address and carries the state's code |
| ReaScraper.ScrapeState | src/lib/scrapers/rea-scraper.ts:120-174 | the records of each kept suburb link's page, link by link, each from REA, with an address and the state's code |
| EnhancedScraper.ContainerScore | src/lib/scrapers/enhanced-domain-scraper.ts:190-197 | a score between -5 and 38; 38 exactly when all five features are present and the length is reasonable; negative exactly when none is and the length is not |
| EnhancedScraper.ScoreContainers | src/lib/scrapers/enhanced-domain-scraper.ts:182-201 | the loop's total is the sum of the container scores, between -5 and 38 per container |
| EnhancedScraper.Leader | src/lib/scrapers/enhanced-domain-scraper.ts:148-166 | the chosen strategy competes with a positive score, beats every earlier one strictly, and is not beaten by a later one; none is chosen when no score is positive |
| EnhancedScraper.GenericContainers | src/lib/scrapers/enhanced-domain-scraper.ts:168-177 | the fallback keeps exactly the elements that look like results and have 51 to 999 characters; one element gives itself exactly when it passes, else nothing |
| EnhancedScraper.GenericContainersAppend | src/lib/scrapers/enhanced-domain-scraper.ts:168-177 | the fallback of a concatenation is that of each part in turn, so document order and every copy are kept |
| EnhancedScraper.FindAuctionContainers | src/lib/scrapers/enhanced-domain-scraper.ts:126-180 | the loop selects the leader's containers, or the generic fallback |
| EnhancedScraper.NoScoreMeansGeneric | src/lib/scrapers/enhanced-domain-scraper.ts:168-177 | when no strategy scores above zero, the generic fallback is used |
| EnhancedScraper.SkippedStrategyChangesNothing | src/lib/scrapers/enhanced-domain-scraper.ts:153-154 | a strategy that found nothing does not change the choice |
| EnhancedScraper.LeaderOfPrefix | src/lib/scrapers/enhanced-domain-scraper.ts:148-166 | later strategies do not change the leader among the earlier ones |
| EnhancedScraper.EarlierWinsTie | src/lib/scrapers/enhanced-domain-scraper.ts:158 | with equal positive scores, the earlier strategy wins |
| EnhancedScraper.ContainerAddress | src/lib/scrapers/enhanced-domain-scraper.ts:238-267 | an address-shaped text: the first address-shaped selector text, else the first address line of the container text |
| EnhancedScraper.ContainerAgent | src/lib/scrapers/enhanced-domain-scraper.ts:333-360 | a name-shaped text; the first name-shaped selector text when there is one; else the first name-shaped line |
| EnhancedScraper.ContainerAgency | src/lib/scrapers/enhanced-domain-scraper.ts:362-389 | an agency-shaped text; the first agency-shaped selector text when there is one; else the first agency line |
| EnhancedScraper.ContentLocation | src/lib/scrapers/enhanced-domain-scraper.ts:308-316 | no suburb, the first state code, and a postcode exactly when the text has one |
| EnhancedScraper.LocationOf | src/lib/scrapers/enhanced-domain-scraper.ts:218 | the location always comes from the URL, since even an empty object is truthy |
| EnhancedScraper.ContentLocationWouldChangeNothing | src/lib/scrapers/enhanced-domain-scraper.ts:218-226 | when the URL gives nothing, the content location would give the same suburb, state and postcode |
| EnhancedScraper.ExtractAuctionData | src/lib/scrapers/enhanced-domain-scraper.ts:203-236 | a record exactly when the text looks like a result and an address is found: the text record of the container text with that address, the URL's location, the agent and agency; its result follows the text's result word and its price is absent exactly when no `$` amount occurs |
| EnhancedScraper.Failure | src/lib/scrapers/enhanced-domain-scraper.ts:116-123 | an unsuccessful result with no data, no records and the error's message or `Unknown error` |
| EnhancedScraper.ExtractAll | src/lib/scrapers/enhanced-domain-scraper.ts:96-106 | the loop keeps each container's record, in order |
| EnhancedScraper.ScrapeUrl | src/lib/scrapers/enhanced-domain-scraper.ts:61-124 | a failed navigation or wait gives that failure; otherwise success with the selected containers' records and their count; at most five waits |
| HttpDomainScraper.FirstAccepted | src/lib/scrapers/http-domain-scraper.ts:330-335 | the loop returns the first line accepted, or none (also 348-353, 408-413, 418-423) |
| HttpDomainScraper.AddressLine | src/lib/scrapers/http-domain-scraper.ts:328-344 | the first address-shaped segment (digit first, 10 to 100 characters), or absent exactly when there is none |
| HttpDomainScraper.LooksLikeAddressExamples | src/lib/scrapers/http-domain-scraper.ts:338-344 | `LooksLikeAddress`: `12 Smith Street` passes; `Smith Street 12` (no leading digit) and `1 Main St` (too short) do not |
| HttpDomainScraper.SuburbLine | src/lib/scrapers/http-domain-scraper.ts:346-354 | the first segment of capitalised words, no earlier segment being one, or absent exactly when there is none |
| HttpDomainScraper.ExtractState | src/lib/scrapers/http-domain-scraper.ts:356-359 | present exactly when a state code occurs as a word; then the first one |
| HttpDomainScraper.AgentLine | src/lib/scrapers/http-domain-scraper.ts:406-414 | the first name-shaped line of the text, no earlier line being one, or absent exactly when there is none |
| HttpDomainScraper.PersonOrAgency | src/lib/scrapers/http-domain-scraper.ts:426-439 | `LooksLikePersonName` and `LooksLikeAgencyName` never both hold, and a `Firstname Lastname` text of 6 to 49 characters satisfies exactly one |
| HttpDomainScraper.AgencyLine | src/lib/scrapers/http-domain-scraper.ts:416-424 | the first agency-shaped line of the text, no earlier line being one, or absent exactly when there is none |
| HttpDomainScraper.AgentIsNeverAgency | src/lib/scrapers/http-domain-scraper.ts:426-439 | no line is both name-shaped and agency-shaped, so agent and agency are different lines |
| HttpDomainScraper.ExtractPriceNumber | src/lib/scrapers/http-domain-scraper.ts:366-372 | absent exactly when no `$` is followed by a digit; otherwise the value of the digits matched at the first such `$` |
| HttpDomainScraper.PriceOfShortAmount | src/lib/scrapers/http-domain-scraper.ts:366-372 | `$` and one to three digits reads as those digits |
| HttpDomainScraper.UnseparatedPriceIsCut | src/lib/scrapers/http-domain-scraper.ts:367 | `$` followed by more than three digits without commas reads as the first three digits only |
| HttpDomainScraper.MapResult | src/lib/scrapers/http-domain-scraper.ts:379-384 | sold exactly when the text says sold; withdrawn exactly when not sold and it says withdrawn or cancelled |
| HttpDomainScraper.MapResultOfExtracted | src/lib/scrapers/http-domain-scraper.ts:262 | an extracted result word maps to sold exactly for `sold`, to withdrawn exactly for `withdrawn` and `cancelled` |
| HttpDomainScraper.CityToState | src/lib/scrapers/http-domain-scraper.ts:300-313 | the mapped code for a capital city, ignoring case; NSW otherwise; always a state code |
| HttpDomainScraper.CityToStateIgnoresCase | src/lib/scrapers/http-domain-scraper.ts:301 | the city's case does not matter |
| HttpDomainScraper.CapitalCities | src/lib/scrapers/http-domain-scraper.ts:302-311 | each of the eight capitals gives its state |
| HttpDomainScraper.ExtractLocationFromUrl | src/lib/scrapers/http-domain-scraper.ts:285-298 | suburb and state come together, the state is the city's; nothing without an `auction-results` segment or with nothing after the first one; otherwise the suburb is the part after the first `auction-results` part with hyphens as spaces; never a postcode |
| HttpDomainScraper.LocationOfResultsUrl | src/lib/scrapers/http-domain-scraper.ts:285-298 | on `…/auction-results/<city>/…` the suburb is the city with hyphens as spaces and the state is its code |
| HttpDomainScraper.LocationOfCityUrl | src/lib/scrapers/http-domain-scraper.ts:285-298 | on `…/auction-results/<city>` the suburb is the city with hyphens as spaces; on `…/auction-results/` it is the empty text, with state `NSW` |
| HttpDomainScraper.SuburbOf | src/lib/scrapers/http-domain-scraper.ts:258 | the URL's suburb, else the first capitalised segment, else `Unknown` |
| HttpDomainScraper.StateOf | src/lib/scrapers/http-domain-scraper.ts:259 | the URL's state, else a state code from the text, else NSW |
| HttpDomainScraper.PostcodeOf | src/lib/scrapers/http-domain-scraper.ts:260 | the text's postcode, else the URL's, else empty |
| HttpDomainScraper.ResultOf | src/lib/scrapers/http-domain-scraper.ts:262 | the result follows the extracted result word |
| HttpDomainScraper.TextRecord | src/lib/scrapers/http-domain-scraper.ts:256-271 | a record with the address, location, result, agent and agency; absent price exactly when no `$` amount occurs, never NaN |
| HttpDomainScraper.TextRecordFields | src/lib/scrapers/http-domain-scraper.ts:256-271 | the price is that of the first `$` amount, the property type that of the text, and the bedroom, bathroom and car counts those of the `<n> bed/bath/car` forms |
| HttpDomainScraper.ExtractAuctionFromText | src/lib/scrapers/http-domain-scraper.ts:250-272 | a record exactly when a segment is address-shaped: the text record with the first such segment as address, the URL's location, the agent and agency lines; suburb and state from the URL or the text, the result from the result word, a price absent exactly when no `$` amount occurs |
| HttpDomainScraper.ResultsPageRecordsTakeTheCity | src/lib/scrapers/http-domain-scraper.ts:256-260 | on a city results page every record takes the city as suburb and the city's state |
| HttpDomainScraper.HttpIndicatorCount | src/lib/scrapers/http-domain-scraper.ts:274-283 | the indicator count with the feature word test replaced by the `<n> bed/bath/car` test |
| HttpDomainScraper.DetectorsAgreeOnFeatures | src/lib/scrapers/http-domain-scraper.ts:274-283 | this detector and the Domain one agree whenever the two feature tests agree; a price and a postcode satisfy both |
| HttpDomainScraper.HttpLooksLikeAuctionResultNeedsTwo | src/lib/scrapers/http-domain-scraper.ts:274-283 | `HttpLooksLikeAuctionResult` holds exactly when two of the price, postcode, result-word and feature-count indicators hold |
| HttpDomainScraper.ExtractAuctionFromElement | src/lib/scrapers/http-domain-scraper.ts:245-248 | an element's record is the record of its text: from Domain, with the date |
| HttpDomainScraper.RecordsFromTexts | src/lib/scrapers/http-domain-scraper.ts:104-130 | at most one record per element, each from Domain with the date |
| HttpDomainScraper.RecordsFromTextsSources | src/lib/scrapers/http-domain-scraper.ts:104-130 | every record is the record of one of the texts; every text with an address-shaped segment gives its record; one text gives exactly its record or nothing |
| HttpDomainScraper.RecordsFromTextsAppend | src/lib/scrapers/http-domain-scraper.ts:104-130 | the records of a concatenation of texts are those of each part in turn |
| HttpDomainScraper.ContentPatternTexts | src/lib/scrapers/http-domain-scraper.ts:132-153 | exactly the text blocks that match a content pattern are kept; one block gives itself or nothing |
| HttpDomainScraper.ContentPatternTextsAppend | src/lib/scrapers/http-domain-scraper.ts:132-153 | the kept blocks of a concatenation are those of each part in turn: document order and repeats are kept |
| HttpDomainScraper.ContentPatternRecords | src/lib/scrapers/http-domain-scraper.ts:132-153 | at most one record per matching block |
| HttpDomainScraper.ContentPatternRecordsFrom | src/lib/scrapers/http-domain-scraper.ts:132-153 | every record comes from a block of 50 to 1000 characters that looks like an auction result |
| HttpDomainScraper.ContentPatternRecordsComplete | src/lib/scrapers/http-domain-scraper.ts:132-153 | every such block with an address-shaped segment gives its record |
| HttpDomainScraper.ContentPatternRecordsAppend | src/lib/scrapers/http-domain-scraper.ts:132-153 | the records of a concatenation of blocks are those of each part in turn |
| HttpDomainScraper.Keys | src/lib/scrapers/http-domain-scraper.ts:191 | the keys of an object, the indices of an array, none otherwise |
| HttpDomainScraper.ArrayNeverLooksLikeAuctionData | src/lib/scrapers/http-domain-scraper.ts:189-198 | an array's index keys never look like auction data |
| HttpDomainScraper.LooksLikeAuctionDataIff | src/lib/scrapers/http-domain-scraper.ts:189-198 | `LooksLikeAuctionData`: an object passes exactly when some key, lower-cased, contains an indicator; a primitive never does |
| HttpDomainScraper.FindAuctionData | src/lib/scrapers/http-domain-scraper.ts:155-187 | the walk appends exactly what the search specification finds |
| HttpDomainScraper.FoundInLooksLike | src/lib/scrapers/http-domain-scraper.ts:165-177 | everything found looks like auction data |
| HttpDomainScraper.RootIsNeverTaken | src/lib/scrapers/http-domain-scraper.ts:159-162 | the top-level object itself is never taken, even when it looks like auction data |
| HttpDomainScraper.TakenWhole | src/lib/scrapers/http-domain-scraper.ts:174-177 | a nested object that looks like auction data is taken whole, not searched |
| HttpDomainScraper.SearchedWithin | src/lib/scrapers/http-domain-scraper.ts:178-180 | a nested object that does not look like auction data is searched |
| HttpDomainScraper.PlainObjectGivesNothing | src/lib/scrapers/http-domain-scraper.ts:162-182 | an object with no nested values gives nothing |
| HttpDomainScraper.ParseJsonData | src/lib/scrapers/http-domain-scraper.ts:155-187 | at most one record per object found; each record is the conversion of a found object, and every non-null conversion of a found object is among the records |
| HttpDomainScraper.Converted | src/lib/scrapers/http-domain-scraper.ts:167-177 | every record is the conversion of one of the objects and every non-null conversion is a record; one object gives its conversion or nothing |
| HttpDomainScraper.ConvertedAppend | src/lib/scrapers/http-domain-scraper.ts:167-177 | the conversions of a concatenation are those of each part in turn, so the records keep the objects' order |
| HttpDomainScraper.KeyPatternValue | src/lib/scrapers/http-domain-scraper.ts:234-243 | absent exactly when no key contains any pattern, ignoring case; otherwise a value whose key matches |
| HttpDomainScraper.FindValueByKeyPattern | src/lib/scrapers/http-domain-scraper.ts:234-243 | the loops return the value the key-pattern specification gives |
| HttpDomainScraper.EarlierPatternWins | src/lib/scrapers/http-domain-scraper.ts:236-241 | the first pattern that matches any key wins, at its first matching key |
| HttpDomainScraper.RemoveDuplicates | src/lib/scrapers/http-domain-scraper.ts:315-325 | the loop keeps the first record of each address-and-suburb key, in order |
| HttpDomainScraper.UniqueKeepsFirstOfEachKey | src/lib/scrapers/http-domain-scraper.ts:315-325 | the kept records are exactly the first occurrences of their keys |
| HttpDomainScraper.UniqueKeepsEveryKey | src/lib/scrapers/http-domain-scraper.ts:315-325 | no key is lost |
| HttpDomainScraper.UniqueHasDistinctKeys | src/lib/scrapers/http-domain-scraper.ts:315-325 | no key is kept twice |
| HttpDomainScraper.UniqueOfDistinct | src/lib/scrapers/http-domain-scraper.ts:315-325 | records with distinct keys are kept as they are |
| HttpDomainScraper.UniqueIdempotent | src/lib/scrapers/http-domain-scraper.ts:315-325 | removing duplicates twice is removing them once |
| HttpDomainScraper.ScriptRecords | src/lib/scrapers/http-domain-scraper.ts:79-102 | no script tags give no records; one script gives the records of its state exactly when it mentions `auction` or `property` and holds a parsed state; every record comes from such a script |
| HttpDomainScraper.ScriptRecordsAppend | src/lib/scrapers/http-domain-scraper.ts:79-102 | the records of a concatenation of scripts are those of each part in turn |
| HttpDomainScraper.StrategyRecordsSources | src/lib/scrapers/http-domain-scraper.ts:40-55 | every record of the three strategies comes from a qualifying script's state, a structured element's text, or a content-pattern block |
| HttpDomainScraper.ScrapeUrl | src/lib/scrapers/http-domain-scraper.ts:7-77 | a failed fetch gives a failure with its message or `Unknown error`; otherwise success with the strategies' records de-duplicated: distinct keys, the same key set, and their count |
| SuburbGrouping.KeyOrder | src/lib/scrapers/scraper-service.ts:161-169 | the group keys in order of first appearance, each once |
| SuburbGrouping.GroupBy | src/lib/scrapers/scraper-service.ts:161-169 | the loop gives exactly the keys in first-appearance order, each mapped to its records in order |
| SuburbGrouping.MembersIff | src/lib/scrapers/scraper-service.ts:163-168 | a record is in a group exactly when it is in the data and has that key |
| SuburbGrouping.GroupSizesSum | src/lib/scrapers/scraper-service.ts:161-169 | the group sizes add up to the number of records |
| SuburbGrouping.CountOf | src/lib/scrapers/scraper-service.ts:177-179 | zero exactly when no auction has that result; one record counts 1 exactly when it has that result |
| SuburbGrouping.CountOfAppend | src/lib/scrapers/scraper-service.ts:177-179 | the count of a concatenation is the sum of the counts, so the count is one per matching record |
| SuburbGrouping.CountsAddUp | src/lib/scrapers/scraper-service.ts:176-179 | sold, passed-in and withdrawn counts add up to the total |
| SuburbGrouping.ClearanceRate | src/lib/scrapers/scraper-service.ts:180 | between 0 and 100; 0 with no auctions; 0 exactly when none sold; 100 exactly when all sold |
| SuburbGrouping.SoldPrices | src/lib/scrapers/scraper-service.ts:182-184 | the non-zero prices of sold auctions: every one is kept, and the list is empty exactly when there is none; one record gives its price exactly when it is sold and priced |
| SuburbGrouping.SoldPricesAppend | src/lib/scrapers/scraper-service.ts:182-184 | the prices of a concatenation are those of each part in turn, so order and repeats are kept |
| SuburbGrouping.AveragePrice | src/lib/scrapers/scraper-service.ts:186-188 | absent exactly when there are no prices; otherwise between the least and greatest price |
| SuburbGrouping.MedianPrice | src/lib/scrapers/scraper-service.ts:190-192 | absent exactly when there are no prices; otherwise between the least and greatest price |
| SuburbGrouping.GroupStats | src/lib/scrapers/scraper-service.ts:174-192 | the group's total; its sold, passed-in and withdrawn counts, which add up; the clearance rate of those counts, within 0..100; the mean and median of the sold prices, absent together exactly when no sale has a price |
| SuburbGrouping.PricesWithinRange | src/lib/scrapers/scraper-service.ts:182-192 | the mean and median lie between the least and greatest sold price |
| SuburbGrouping.PlainNamesReadBack | src/lib/scrapers/scraper-service.ts:164-173 | splitting the text key gives back suburb and state when neither has a hyphen |
| SuburbGrouping.HyphenatedSuburbMisread | src/lib/scrapers/scraper-service.ts:173 | a hyphenated suburb is read back as its part before the first hyphen |
| SuburbGrouping.TextKeysCollide | src/lib/scrapers/scraper-service.ts:164 | two records with different suburbs can share one text key |
| SuburbGrouping.PlainTextKeysAgree | src/lib/scrapers/scraper-service.ts:164 | without hyphens, the text key and the (suburb, state, day) key group the same records |
| SuburbGrouping.StatsAsWritten | src/lib/scrapers/scraper-service.ts:171-192 | one row per distinct text key |
| SuburbGrouping.MountKuringGaiStatsMisfiled | src/lib/scrapers/scraper-service.ts:164-173 | a sale in Mount Kuring-Gai, NSW is filed as suburb `Mount Kuring`, state `Gai` |
| SuburbGrouping.StatsRows | src/lib/scrapers/scraper-service.ts:171-192 | one row per (suburb, state, day) group, in first-appearance order, carrying that suburb, state and day |
| SuburbGrouping.MountKuringGaiStatsFiled | src/lib/scrapers/scraper-service.ts:164-173 | the same sale is filed under Mount Kuring-Gai, NSW |
| SuburbGrouping.RowOf | src/lib/scrapers/scraper-service.ts:172-180 | a group's row carries its key and its size |
| SuburbGrouping.RecordCountedUnderItsNames | src/lib/scrapers/scraper-service.ts:161-192 | each record is in exactly one group, whose row carries the record's own suburb and state |
| SuburbGrouping.KeyOrdersAlign | src/lib/scrapers/scraper-service.ts:161-173 | without hyphens, the text keys and the key triples appear in the same order, the j-th of each coming from one record |
| SuburbGrouping.MembersAlign | src/lib/scrapers/scraper-service.ts:163-168 | without hyphens, a record's text-key group and its key-triple group are the same records |
| SuburbGrouping.PlainStatsAgree | src/lib/scrapers/scraper-service.ts:159-192 | when no suburb or state has a hyphen, the statistics rows as written are the rows filed under each record's own names |
| Median.SortSeq | src/lib/scrapers/scraper-service.ts:229 | a sorted permutation |
| Median.SortedUnique | src/lib/scrapers/scraper-service.ts:229 | two sorted permutations of the same numbers are equal |
| Median.CalculateMedian | src/lib/scrapers/scraper-service.ts:228-237 | sorts the array in place into a permutation of itself and returns the median of the original numbers |
| Median.MedianIgnoresOrder | src/lib/scrapers/scraper-service.ts:228-237 | the median depends only on the numbers, not their order |
| Median.MedianOfOne | src/lib/scrapers/scraper-service.ts:230-236 | the median of one number is that number |
| Median.OddMedianIsAnElement | src/lib/scrapers/scraper-service.ts:235-236 | with an odd count, the median is one of the numbers |
| Median.MedianBetweenMinAndMax | src/lib/scrapers/scraper-service.ts:228-237 | the median lies between the least and greatest number |
| Median.MeanBetweenMinAndMax | src/lib/scrapers/scraper-service.ts:186-188 | the mean lies between the least and greatest number |
| ScraperService.Updated | src/lib/scrapers/scraper-service.ts:138-143 | result and source are replaced; price is replaced unless absent; every other field is kept |
| ScraperService.AuctionUpserted | src/lib/scrapers/scraper-service.ts:131-147 | a refused write changes nothing; otherwise the record's key is present afterwards, a new key stores the record, an existing key is updated with a time, and other keys are untouched |
| ScraperService.UpsertAll | src/lib/scrapers/scraper-service.ts:125-150 | no key is lost, every accepted record's key is present, and keys no record touches are unchanged |
| ScraperService.SameKeyTwiceLeavesOne | src/lib/scrapers/scraper-service.ts:133-137 | two records with one key leave one entry, carrying the later result and source |
| ScraperService.LastWriteWins | src/lib/scrapers/scraper-service.ts:125-150 | the last accepted record with a key decides its stored result and source |
| ScraperService.StatsUpserted | src/lib/scrapers/scraper-service.ts:194-224 | the row's key is present with the new figures, with an update time only when it existed; other keys untouched |
| ScraperService.StatsWritten | src/lib/scrapers/scraper-service.ts:171-225 | no error exactly when no row's write fails; no key is lost |
| ScraperService.AllStatsStored | src/lib/scrapers/scraper-service.ts:171-225 | when no write fails and keys are distinct, every row is stored under its key |
| ScraperService.StatsRowKeysDistinct | src/lib/scrapers/scraper-service.ts:161-173 | the statistics rows have distinct keys |
| ScraperService.EveryGroupStored | src/lib/scrapers/scraper-service.ts:159-226 | when no write fails, every group's row is stored |
| ScraperService.Batch | src/lib/scrapers/scraper-service.ts:126 | a batch has between 1 and 100 records |
| ScraperService.BatchSizes | src/lib/scrapers/scraper-service.ts:123-127 | every batch but the last has exactly 100 records |
| ScraperService.BatchIsNth | src/lib/scrapers/scraper-service.ts:125-126 | the n-th batch starts at record 100·n |
| ScraperService.BatchesPartition | src/lib/scrapers/scraper-service.ts:123-127 | the batches, joined, are the data |
| ScraperService.Database.constructor | src/lib/scrapers/scraper-service.ts:1 | the database client the service writes through; its auction, statistics and log tables start empty |
| ScraperService.Database.UpsertAuction | src/lib/scrapers/scraper-service.ts:131-147 | the auction table becomes its upsert; the other tables are unchanged |
| ScraperService.Database.UpsertStats | src/lib/scrapers/scraper-service.ts:194-224 | the statistics table becomes its upsert unless the write fails; the other tables are unchanged |
| ScraperService.Database.CreateLog | src/lib/scrapers/scraper-service.ts:22-33 | one log entry is appended; the other tables are unchanged |
| ScraperService.ComputeStats | src/lib/scrapers/scraper-service.ts:174-192 | the row is `GroupStats` of the group: its counts, clearance rate and average, with the median computed in place by `CalculateMedian` |
| ScraperService.UpdateSuburbStats | src/lib/scrapers/scraper-service.ts:159-226 | the statistics table and the error are those of writing, in order and stopping at the first failure, one row per (suburb, state, day) group of the records, filed under the group's own names |
| ScraperService.SaveBatch | src/lib/scrapers/scraper-service.ts:128-152 | the batch's records are upserted after the earlier ones |
| ScraperService.SaveAuctionData | src/lib/scrapers/scraper-service.ts:122-157 | every record is upserted in order, then the statistics are written; the log is untouched |
| ScraperService.ErrorText | src/lib/scrapers/scraper-service.ts:56 | an error's message when it has one |
| ScraperService.RunLog | src/lib/scrapers/scraper-service.ts:22-59 | success exactly when the scraper returned data and saving did not fail; a success logs the count, a failure the scraper's or the save's error |
| ScraperService.SuccessMeansSaved | src/lib/scrapers/scraper-service.ts:18-35 | a 'success' log means the run returned data and its statistics were written, and then every record the database did not refuse has its key in the auction table |
| ScraperService.RefusedWritesStillSucceed | src/lib/scrapers/scraper-service.ts:128-150 | when every auction write is refused, the auction table is unchanged and the run still logs 'success' once its statistics are written |
| ScraperService.NothingUpserted | src/lib/scrapers/scraper-service.ts:130-147 | upserting records that are all refused leaves the auction table as it was |
| ScraperService.RunScraper | src/lib/scrapers/scraper-service.ts:14-108 | the auction and statistics tables become those of saving the records when the scraper returned data, and stay as they were otherwise; one log is appended, the run's log for that outcome and statistics error |
| ScraperService.RunAllScrapers | src/lib/scrapers/scraper-service.ts:110-120 | the tables after the Domain run's save and then the REA run's; the logs are the old ones followed by Domain's run log and REA's, each with its own statistics error |
| Trends.WeekOrder | src/app/api/trends/route.ts:86-98 | the weeks in order of first appearance, each once |
| Trends.InWeek | src/app/api/trends/route.ts:86-107 | the rows of a week all have that week |
| Trends.TotalsOf | src/app/api/trends/route.ts:89-106 | a week's totals carry its label, the date of its first row, the sums of its auctions, sales and sold value, and its row count |
| Trends.Summary | src/app/api/trends/route.ts:110-117 | totals kept; no mean exactly when nothing sold; a rate within 0..100 |
| Trends.WeeklyTrends | src/app/api/trends/route.ts:83-118 | one entry per week, in first-appearance order |
| Trends.AddRow | src/app/api/trends/route.ts:86-107 | adding a row keeps the map equal to the weekly totals of the rows seen |
| Trends.AccumulateWeeks | src/app/api/trends/route.ts:86-107 | after the loop every week of the rows is listed once, in first-appearance order, and holds the totals of its rows |
| Trends.AddToWeek | src/app/api/trends/route.ts:100-106 | a row's counts and value are added to its week |
| Trends.GroupTrendsByWeek | src/app/api/trends/route.ts:83-118 | the loops produce the weekly trends |
| Trends.Summarise | src/app/api/trends/route.ts:110-117 | one summary per week, in order |
| Trends.WeeksPartitionTotals | src/app/api/trends/route.ts:86-107 | the week totals add up to the overall total |
| Trends.WeekSumsEqualOverall | src/app/api/trends/route.ts:100-102 | the weeks' auctions and sales add up to the overall figures (also route.ts:129-130) |
| Trends.SoldWithPrice | src/app/api/trends/route.ts:132 | exactly the rows with a mean price and a sale; one row gives itself or nothing |
| Trends.SoldWithPriceAppend | src/app/api/trends/route.ts:132 | the rows kept from a concatenation are those of each part in turn |
| Trends.CalculateOverallStats | src/app/api/trends/route.ts:128-145 | the totals of all rows, a rate within 0..100, no mean exactly when no row has a priced sale |
| Trends.SoldNoMoreThanOffered | src/app/api/trends/route.ts:129-131 | when no row sells more than it offers, neither does the total, and the rate is within 0..100 |
| Trends.OverallAverageWithin | src/app/api/trends/route.ts:132-143 | the overall mean lies within any bounds on the rows' means |
| Trends.WeekMeanCountsUnpricedSales | src/app/api/trends/route.ts:101-116 | a week's mean divides by every sale, priced or not: one priced and one unpriced sale give half the price, while the overall mean gives the price |

## Left out

- Browser automation, fetching, file output and logging are left out. Pages become the texts and containers their selectors return, and the outcome of each attempt is a parameter.
- CSS selectors are left out. Each element is given as the text, or texts, the selector would produce.
- The regular-expression match of `window.__INITIAL_STATE__` and `JSON.parse` are left out. The script data is an already-parsed `Json` value.
- `convertToAuctionData` (http-domain-scraper.ts:200-232) is left out. It is a parameter `convert`, and only its use is modelled.
- `scrape` in domain-scraper.ts:91-134 and rea-scraper.ts:63-118 runs a PQueue over cities or states. Its concurrency and ordering are left out. The per-city and per-state scrapes, and the REA state-link filter, are modelled.
- ScraperService.RunAllScrapers: runs the two scrapers one after the other, whereas the source runs them with `Promise.all`. Interleaving is not modelled.
- ScraperService.SaveBatch: upserts a batch's records in order, whereas the source writes them with `Promise.all`. A failed write is logged and skipped, and this is modelled by `refuses`.
- Prisma is replaced by maps held in the `Database` class. The database-assigned ids and `createdAt` are left out.
- The GET handler of the trends route (route.ts:4-81) is left out. Its period window and query are database I/O; the two pure functions it calls are modelled.
- `getWeekKey` (route.ts:120-126) is a parameter `weekOf`. It is calendar arithmetic on `Date`.
- `new Date()` is the parameter `now`. The source reads the clock once per record, while the model uses one `now` for a whole scrape. So in the model, records of the same address always share the (address, auctionDate) key and collide (ScraperService.SameKeyTwiceLeavesOne); in the source they collide only when created in the same millisecond.
- ReaScraper.GetStateCode: lookups of keys inherited from `Object.prototype` (`constructor`, `__proto__`, `toString`, …) are not modelled. In the source `stateMap[stateName]` finds a truthy inherited member for them (rea-scraper.ts:274-286) and returns it; the model returns the upper-cased name.
- HttpDomainScraper.CityToState: lookups of keys inherited from `Object.prototype` are not modelled either. In the source `cityStateMap[city.toLowerCase()]` returns the inherited member for them (http-domain-scraper.ts:300-313), which is not a state code; the model returns `NSW`, so its `code in StateCodes` holds only for own keys and misses.
- IEEE floating point is modelled as exact `real`.
- Strings are sequences of Unicode scalars. JavaScript's UTF-16 length and non-ASCII case mapping are not modelled.
- Extraction.ExtractPropertyUrl: covers the href rules only. The two-selector lookup that supplies the hrefs is a parameter.
- DomainScraper.CardToRecord: states the property type, counts, agent, agency and property URL of its record in DomainScraper.CardToRecordFields rather than in its own contract.
- ReaScraper.ContainerToRecord: states the counts, agent, agency and property URL of its record in ReaScraper.BuildRecordFields rather than in its own contract.
- ScraperService.UpdateSuburbStats: writes the statistics rows of SuburbGrouping.StatsRows, grouped by each record's own suburb, state and day. The source groups by the text key `suburb-state-day` and reads the names back with `split('-')` (SuburbGrouping.StatsAsWritten). SuburbGrouping.PlainStatsAgree proves the two agree whenever no suburb or state holds a hyphen; where one does, the model writes the intended rows (see Findings).
- ScraperService.SaveAuctionData: its statistics are those of ScraperService.UpdateSuburbStats, with the same departure on hyphenated names.
- ScraperService.RunScraper: its statistics are those of ScraperService.UpdateSuburbStats, with the same departure on hyphenated names.
- Retry.IsRecoverableError: treats an error without a message as not recoverable. The source calls `(error as Error).message?.toLowerCase()`, which throws a TypeError for `throw null` or a message that is not a string; thrown non-Error values are not modelled.
- HttpDomainScraper.Keys: lists an object's keys in their written order, and the walks over `entries` use the same order. JavaScript's `Object.keys` and `Object.entries` (http-domain-scraper.ts:162, 192, 236) put integer-like keys first, in ascending order; that reordering is not modelled.
- Extraction.IndicatorCount: the word tests ignore case on ASCII letters only.
- The scripts, the UI components, the hooks and the other API routes are outside the core.

## Findings

| source | as written | input that shows it | evidently intended | confidence | as-written member | corrected member |
|---|---|---|---|---|---|---|
| src/lib/scrapers/scraper-service.ts:164-173 | the group key is `suburb-state-day` as one string, and suburb and state are read back with `key.split('-')` | a sale in suburb `Mount Kuring-Gai`, state `NSW` | statistics rows filed under the record's own suburb and state | not executed | SuburbGrouping.MountKuringGaiStatsMisfiled | SuburbGrouping.MountKuringGaiStatsFiled |
