/**
 * The container-based Domain scraper of
 * src/lib/scrapers/enhanced-domain-scraper.ts: each CSS strategy's matches
 * are scored, the best strategy's containers (or, failing all, the generic
 * elements that look like results) are turned into records, and the page is
 * reached through the retry wrapper. A container is given as its text and
 * the texts its sub-selectors find; its text helpers are those of
 * http-domain-scraper.ts, which it repeats.
 */
module EnhancedScraper {
  import opened Wrappers
  import opened Text
  import opened Records
  import opened Extraction
  import opened HttpDomainScraper
  import opened Retry

  /**
   * A container element: its text, and for each sub-selector list (address,
   * agent, agency) the text of the first match of every selector that
   * matches something inside it, in selector order.
   */
  datatype Container = Container(
    text: string,
    addressTexts: seq<string>,
    agentTexts: seq<string>,
    agencyTexts: seq<string>)

  /** What one strategy's selector gives: the matched containers, or a thrown selector error */
  datatype Strategy = Matched(containers: seq<Container>) | Failed

  // ----------------------------------------------------------- scoring

  /** The street suffixes of the address clue of `scoreContainers` */
  const ScoreSuffixes: seq<string> := ["street", "st", "road", "rd", "avenue", "ave"]

  /** The length penalty applies below 20 or above 2000 characters */
  predicate BadLength(text: string) { |text| < 20 || |text| > 2000 }

  /**
   * One container's contribution to `scoreContainers`: 10 for a price, 10 for
   * a result word, 5 for a feature count, 5 for a postcode, 8 for a street
   * address, less 5 for a text that is too short or too long.
   */
  function ContainerScore(text: string): (s: int)
    ensures -5 <= s <= 38
    ensures s == 38 <==>
      HasPriceSign(text) && HasWord(Lower(text), IndicatorWords) && HasFeatureCount(text) &&
      HasPostcode(text) && HasStreet(text, ScoreSuffixes) && !BadLength(text)
    ensures s < 0 <==>
      !HasPriceSign(text) && !HasWord(Lower(text), IndicatorWords) && !HasFeatureCount(text) &&
      !HasPostcode(text) && !HasStreet(text, ScoreSuffixes) && BadLength(text)
  {
    (if HasPriceSign(text) then 10 else 0) +
    (if HasWord(Lower(text), IndicatorWords) then 10 else 0) +
    (if HasFeatureCount(text) then 5 else 0) +
    (if HasPostcode(text) then 5 else 0) +
    (if HasStreet(text, ScoreSuffixes) then 8 else 0) -
    (if BadLength(text) then 5 else 0)
  }

  /** The score of a list of containers: the sum of their scores */
  function ScoreSum(cs: seq<Container>): (s: int)
    ensures -5 * |cs| <= s <= 38 * |cs|
  {
    if cs == [] then 0 else ScoreSum(cs[..|cs| - 1]) + ContainerScore(cs[|cs| - 1].text)
  }

  /** `scoreContainers`: the `each` loop adding up the container scores */
  method ScoreContainers(cs: seq<Container>) returns (score: int)
    ensures score == ScoreSum(cs)
    ensures -5 * |cs| <= score <= 38 * |cs|
  {
    score := 0;
    var i := 0;
    while i < |cs|
      invariant 0 <= i <= |cs|
      invariant score == ScoreSum(cs[..i])
    {
      assert cs[..i + 1][..i] == cs[..i];
      score := score + ContainerScore(cs[i].text);
      i := i + 1;
    }
    assert cs[..|cs|] == cs;
  }

  // -------------------------------------------------- strategy selection

  /** A strategy competes when its selector matched at least one container */
  predicate Competes(s: Strategy) { s.Matched? && |s.containers| > 0 }

  /**
   * What a strategy stands at against `maxScore`, which starts at 0 and only
   * a strictly greater score replaces: its score when it competes, else 0.
   */
  function Standing(s: Strategy): int {
    if Competes(s) then ScoreSum(s.containers) else 0
  }

  /**
   * The strategy chosen among the first `n`: the one with the strictly
   * greatest positive standing, the earliest of those on a tie, or none when
   * no standing is positive.
   */
  function Leader(strategies: seq<Strategy>, n: nat): (r: Option<nat>)
    requires n <= |strategies|
    ensures r.Some? ==> r.value < n && Competes(strategies[r.value]) && Standing(strategies[r.value]) > 0
    ensures r.Some? ==> forall j :: 0 <= j < r.value ==> Standing(strategies[j]) < Standing(strategies[r.value])
    ensures r.Some? ==> forall j :: r.value < j < n ==> Standing(strategies[j]) <= Standing(strategies[r.value])
    ensures r.None? ==> forall j :: 0 <= j < n ==> Standing(strategies[j]) <= 0
  {
    if n == 0 then None
    else
      var earlier := Leader(strategies, n - 1);
      var best := if earlier.Some? then Standing(strategies[earlier.value]) else 0;
      if Standing(strategies[n - 1]) > best then Some(n - 1) else earlier
  }

  /** The generic fallback: the elements that look like an auction result, 51 to 999 characters long */
  function GenericContainers(generic: seq<Container>): (r: seq<Container>)
    ensures |r| <= |generic|
    ensures forall k :: 0 <= k < |r| ==> LooksLikeAuctionResult(r[k].text) && 50 < |r[k].text| < 1000
    ensures forall k :: 0 <= k < |r| ==> r[k] in generic
    ensures forall c :: c in generic && LooksLikeAuctionResult(c.text) && 50 < |c.text| < 1000 ==> c in r
    ensures |generic| == 1 ==> r == (if IsGenericResult(generic[0]) then generic else [])
  {
    if generic == [] then []
    else
      var rest := GenericContainers(generic[1..]);
      var c := generic[0];
      if IsGenericResult(c) then [c] + rest else rest
  }

  /** The filter of the generic fallback */
  predicate IsGenericResult(c: Container) {
    LooksLikeAuctionResult(c.text) && 50 < |c.text| < 1000
  }

  /** One more element at the front is kept, at the front, exactly when it passes the filter */
  lemma GenericContainersCons(c: Container, cs: seq<Container>)
    ensures GenericContainers([c] + cs) == (if IsGenericResult(c) then [c] else []) + GenericContainers(cs)
  {
    assert ([c] + cs)[1..] == cs;
  }

  /**
   * The fallback of a concatenation is that of each part in turn: with the
   * one-element case, document order and every copy are kept.
   */
  lemma {:induction false} GenericContainersAppend(a: seq<Container>, b: seq<Container>)
    ensures GenericContainers(a + b) == GenericContainers(a) + GenericContainers(b)
    decreases |a|
  {
    if a == [] {
      assert a + b == b;
    } else {
      var head := if IsGenericResult(a[0]) then [a[0]] else [];
      assert GenericContainers(a + b) == head + GenericContainers(a[1..] + b) by {
        assert a + b == [a[0]] + (a[1..] + b);
        GenericContainersCons(a[0], a[1..] + b);
      }
      assert GenericContainers(a) == head + GenericContainers(a[1..]);
      GenericContainersAppend(a[1..], b);
      ConcatAssociative(head, GenericContainers(a[1..]), GenericContainers(b));
    }
  }

  /** The containers `findAuctionContainers` returns */
  function SelectedContainers(strategies: seq<Strategy>, generic: seq<Container>): seq<Container> {
    match Leader(strategies, |strategies|)
    case Some(b) => strategies[b].containers
    case None => GenericContainers(generic)
  }

  /**
   * `findAuctionContainers`: the loop over the strategies keeping the
   * strictly best score, then the generic fallback when no strategy was kept.
   */
  method FindAuctionContainers(strategies: seq<Strategy>, generic: seq<Container>) returns (best: seq<Container>)
    ensures best == SelectedContainers(strategies, generic)
  {
    best := [];
    var maxScore := 0;
    var i := 0;
    while i < |strategies|
      invariant 0 <= i <= |strategies|
      invariant Leader(strategies, i).None? ==> maxScore == 0 && best == []
      invariant Leader(strategies, i).Some? ==>
        maxScore == Standing(strategies[Leader(strategies, i).value]) &&
        best == strategies[Leader(strategies, i).value].containers && best != []
    {
      var strategy := strategies[i];
      LeaderStep(strategies, i);
      if strategy.Matched? && |strategy.containers| > 0 {
        var score := ScoreContainers(strategy.containers);
        if score > maxScore {
          maxScore := score;
          best := strategy.containers;
        }
      }
      i := i + 1;
    }
    if |best| == 0 {
      best := GenericContainers(generic);
    }
  }

  /** One more strategy takes the lead exactly when it stands above the leader so far, or above 0 */
  lemma LeaderStep(strategies: seq<Strategy>, i: nat)
    requires i < |strategies|
    ensures var lead := Leader(strategies, i);
      Leader(strategies, i + 1) ==
        if Standing(strategies[i]) > (if lead.Some? then Standing(strategies[lead.value]) else 0) then Some(i) else lead
  {
  }

  /** When no strategy scores above 0, the generic elements are taken, as filtered */
  lemma NoScoreMeansGeneric(strategies: seq<Strategy>, generic: seq<Container>)
    requires forall j :: 0 <= j < |strategies| ==> Standing(strategies[j]) <= 0
    ensures SelectedContainers(strategies, generic) == GenericContainers(generic)
  {
  }

  /** A strategy that fails or matches nothing, tried last, leaves the choice as it was */
  lemma {:induction false} SkippedStrategyChangesNothing(strategies: seq<Strategy>, s: Strategy, n: nat)
    requires !Competes(s) && n <= |strategies|
    ensures Leader(strategies + [s], n) == Leader(strategies, n)
    ensures Leader(strategies + [s], |strategies| + 1) == Leader(strategies, |strategies|)
  {
    LeaderOfPrefix(strategies, [s], n);
    LeaderOfPrefix(strategies, [s], |strategies|);
  }

  /** Appending strategies does not change the leader among the first `n` */
  lemma {:induction false} LeaderOfPrefix(strategies: seq<Strategy>, more: seq<Strategy>, n: nat)
    requires n <= |strategies|
    ensures Leader(strategies + more, n) == Leader(strategies, n)
  {
    if n > 0 {
      LeaderOfPrefix(strategies, more, n - 1);
      assert (strategies + more)[n - 1] == strategies[n - 1];
    }
  }

  /** Of two strategies with the same positive score the earlier one is chosen */
  lemma EarlierWinsTie(a: Strategy, b: Strategy)
    requires Competes(a) && Competes(b) && Standing(a) == Standing(b) > 0
    ensures Leader([a, b], 2) == Some(0)
  {
    assert Leader([a, b], 1) == Some(0);
  }

  // -------------------------------------------------------- extraction

  /**
   * `extractAddress` of this scraper: the first sub-selector text that,
   * trimmed, looks like an address; otherwise the text's first segment that does.
   */
  function ContainerAddress(c: Container): (r: Option<string>)
    ensures r.Some? ==> LooksLikeAddress(r.value)
    ensures FirstSatisfying(TrimAll(c.addressTexts), LooksLikeAddress).Some? ==>
      r == FirstSatisfying(TrimAll(c.addressTexts), LooksLikeAddress)
    ensures FirstSatisfying(TrimAll(c.addressTexts), LooksLikeAddress).None? ==> r == AddressLine(c.text)
  {
    match FirstSatisfying(TrimAll(c.addressTexts), LooksLikeAddress)
    case Some(found) => Some(found)
    case None => AddressLine(c.text)
  }

  /** `extractAgentName` of this scraper: a sub-selector text first, then the lines */
  function ContainerAgent(c: Container): (r: Option<string>)
    ensures r.Some? ==> LooksLikePersonName(r.value)
    ensures FirstSatisfying(TrimAll(c.agentTexts), LooksLikePersonName).Some? ==>
      r == FirstSatisfying(TrimAll(c.agentTexts), LooksLikePersonName)
    ensures FirstSatisfying(TrimAll(c.agentTexts), LooksLikePersonName).None? ==> r == AgentLine(c.text)
  {
    match FirstSatisfying(TrimAll(c.agentTexts), LooksLikePersonName)
    case Some(found) => Some(found)
    case None => AgentLine(c.text)
  }

  /** `extractAgencyName` of this scraper: a sub-selector text first, then the lines */
  function ContainerAgency(c: Container): (r: Option<string>)
    ensures r.Some? ==> LooksLikeAgencyName(r.value)
    ensures FirstSatisfying(TrimAll(c.agencyTexts), LooksLikeAgencyName).Some? ==>
      r == FirstSatisfying(TrimAll(c.agencyTexts), LooksLikeAgencyName)
    ensures FirstSatisfying(TrimAll(c.agencyTexts), LooksLikeAgencyName).None? ==> r == AgencyLine(c.text)
  {
    match FirstSatisfying(TrimAll(c.agencyTexts), LooksLikeAgencyName)
    case Some(found) => Some(found)
    case None => AgencyLine(c.text)
  }

  /** `extractLocationFromContent`: the state code and the postcode the text shows */
  function ContentLocation(text: string): (r: LocationInfo)
    ensures r.suburb.None? && r.state == ExtractState(text)
    ensures r.postcode.Some? <==> HasPostcode(text)
  {
    var postcode := ExtractPostcode(text);
    LocationInfo(None, ExtractState(text), if postcode != "" then Some(postcode) else None)
  }

  /**
   * `extractLocationFromUrl(url) || extractLocationFromContent(text)`: the
   * URL's object is returned even when it is `{}`, since every object is truthy.
   */
  function LocationOf(url: string, text: string): (r: LocationInfo)
    ensures r == ExtractLocationFromUrl(url)
  {
    ExtractLocationFromUrl(url)
  }

  /**
   * The content location, were it reached, would make no difference: when the
   * URL gives no location, the suburb, state and postcode fall back to the
   * same text anyway.
   */
  lemma ContentLocationWouldChangeNothing(url: string, text: string)
    requires ExtractLocationFromUrl(url) == LocationInfo(None, None, None)
    ensures SuburbOf(ContentLocation(text), text) == SuburbOf(LocationOf(url, text), text)
    ensures StateOf(ContentLocation(text), text) == StateOf(LocationOf(url, text), text)
    ensures PostcodeOf(ContentLocation(text), text) == PostcodeOf(LocationOf(url, text), text)
  {
    var state := ExtractState(text);
    assert state.Some? ==> state.value in StateCodes;
    if state.Some? {
      StateCodesAreNotEmpty(state.value);
    }
  }

  /**
   * `extractAuctionData`: null unless the text looks like an auction result
   * and an address is found; the location always comes from the URL.
   */
  function ExtractAuctionData(c: Container, url: string, now: Date): (r: Option<RawAuctionData>)
    ensures r.Some? <==> LooksLikeAuctionResult(c.text) && ContainerAddress(c).Some?
    ensures r.Some? ==> r.value.address == ContainerAddress(c).value && LooksLikeAddress(r.value.address)
    ensures r.Some? ==>
      && r.value.suburb == SuburbOf(ExtractLocationFromUrl(url), c.text)
      && r.value.state == StateOf(ExtractLocationFromUrl(url), c.text)
      && r.value.postcode == ExtractPostcode(c.text)
    ensures r.Some? ==> r.value.agentName == ContainerAgent(c) && r.value.agencyName == ContainerAgency(c)
    ensures r.Some? ==> r.value.source == Domain && r.value.auctionDate == now
    ensures r.Some? ==>
      && r.value.result == ResultOf(c.text)
      && (r.value.price == NoPrice <==> forall i :: !DollarDigitAt(c.text, i))
    ensures r.Some? ==> r.value == TextRecord(ContainerAddress(c).value, c.text, LocationOf(url, c.text), ContainerAgent(c), ContainerAgency(c), now)
  {
    if !LooksLikeAuctionResult(c.text) then None
    else
      match ContainerAddress(c)
      case None => None
      case Some(address) =>
        Some(TextRecord(address, c.text, LocationOf(url, c.text), ContainerAgent(c), ContainerAgency(c), now))
  }

  // ---------------------------------------------------------- scrapeUrl

  /** The result of a `scrapeUrl` that caught `error` */
  function Failure(error: Error): (r: ScraperResult)
    ensures !r.success && r.data.None? && r.recordCount == 0
    ensures r.error == Some(if error.message.Some? then error.message.value else "Unknown error")
  {
    ScraperResult(false, None, Some(error.message.GetOr("Unknown error")), 0)
  }

  /** The `forEach` over the chosen containers, pushing each record `extractAuctionData` gives */
  method ExtractAll(containers: seq<Container>, url: string, now: Date) returns (results: seq<RawAuctionData>)
    ensures results == Converted(containers, c => ExtractAuctionData(c, url, now))
  {
    results := [];
    var i := 0;
    while i < |containers|
      invariant 0 <= i <= |containers|
      invariant results == Converted(containers[..i], c => ExtractAuctionData(c, url, now))
    {
      assert containers[..i + 1][..i] == containers[..i];
      var auction := ExtractAuctionData(containers[i], url, now);
      if auction.Some? {
        results := results + [auction.value];
      }
      i := i + 1;
    }
    assert containers[..|containers|] == containers;
  }

  /**
   * `scrapeUrl`: navigate and wait for the content, each through
   * `safeOperation` with its default three attempts, then extract the
   * records of the chosen containers. A navigation or wait that finally
   * throws gives a failed result with its message; `delays` are all the
   * retry waits, navigation's first.
   */
  method ScrapeUrl(navigate: nat -> Outcome<()>, waitForContent: nat -> Outcome<()>,
                   strategies: seq<Strategy>, generic: seq<Container>, url: string, now: Date)
    returns (result: ScraperResult, delays: seq<nat>)
    ensures var nav := RetryFrom(navigate, "Navigate to URL", 3, 0);
      nav.outcome.Threw? ==> result == Failure(nav.outcome.error) && delays == nav.delays
    ensures var nav := RetryFrom(navigate, "Navigate to URL", 3, 0);
      var wait := RetryFrom(waitForContent, "Wait for content", 3, 0);
      nav.outcome.Returned? && wait.outcome.Threw? ==>
        result == Failure(wait.outcome.error) && delays == nav.delays + wait.delays
    ensures var nav := RetryFrom(navigate, "Navigate to URL", 3, 0);
      var wait := RetryFrom(waitForContent, "Wait for content", 3, 0);
      var records := Converted(SelectedContainers(strategies, generic), c => ExtractAuctionData(c, url, now));
      nav.outcome.Returned? && wait.outcome.Returned? ==>
        result == ScraperResult(true, Some(records), None, |records|) && delays == nav.delays + wait.delays
    ensures |delays| <= 5
  {
    RetryContract(navigate, "Navigate to URL", 3);
    RetryContract(waitForContent, "Wait for content", 3);
    var navOutcome, navCalls, navDelays := SafeOperation(navigate, "Navigate to URL", 3);
    if navOutcome.Threw? {
      return Failure(navOutcome.error), navDelays;
    }
    var waitOutcome, waitCalls, waitDelays := SafeOperation(waitForContent, "Wait for content", 3);
    delays := navDelays + waitDelays;
    if waitOutcome.Threw? {
      return Failure(waitOutcome.error), delays;
    }
    var containers := FindAuctionContainers(strategies, generic);
    var results := ExtractAll(containers, url, now);
    result := ScraperResult(true, Some(results), None, |results|);
  }
}
