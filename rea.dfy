/**
 * The pure parts of the Playwright scraper in src/lib/scrapers/rea-scraper.ts:
 * the state-link and suburb-link filters, the state-name map, and the price
 * and result normalisation and emit rule of `scrapeSuburb`. A listing
 * container is given by its text and the `href`s of its links.
 */
module ReaScraper {
  import opened Wrappers
  import opened Text
  import opened Records
  import opened Extraction
  import DomainScraper

  const Origin: string := "https://www.realestate.com.au"

  /** The listing paths a realestate.com.au link must contain to count as a property URL */
  const ReaListingPaths: seq<string> := ["/property/", "/buy/", "/rent/"]

  // ------------------------------------------------------------ state names

  const StateMap: seq<(string, string)> := [
    ("New South Wales", "NSW"), ("Victoria", "VIC"), ("Queensland", "QLD"),
    ("Western Australia", "WA"), ("South Australia", "SA"), ("Tasmania", "TAS"),
    ("Australian Capital Territory", "ACT"), ("Northern Territory", "NT")]

  /**
   * `getStateCode`: the code of a full state or territory name, and any other
   * name upper-cased
   */
  function GetStateCode(stateName: string): (code: string)
    ensures (exists j :: 0 <= j < |StateMap| && StateMap[j].0 == stateName) ==>
      exists j :: 0 <= j < |StateMap| && StateMap[j] == (stateName, code)
    ensures (forall j :: 0 <= j < |StateMap| ==> StateMap[j].0 != stateName) ==> code == Upper(stateName)
  {
    match LookupFrom(StateMap, stateName, 0)
    case Some(code) => code
    case None => Upper(stateName)
  }

  /** A state code taken from the map, or made by upper-casing, has no lower-case letter */
  lemma StateCodeHasNoLowerCase(stateName: string)
    ensures forall k :: 0 <= k < |GetStateCode(stateName)| ==> !IsLowerAscii(GetStateCode(stateName)[k])
  {
    var code := GetStateCode(stateName);
    if exists j :: 0 <= j < |StateMap| && StateMap[j].0 == stateName {
      var j :| 0 <= j < |StateMap| && StateMap[j] == (stateName, code);
      assert StateMap[j].1 in ["NSW", "VIC", "QLD", "WA", "SA", "TAS", "ACT", "NT"];
    }
  }

  /** The eight full names map to their codes */
  lemma StateCodesOfFullNames()
    ensures GetStateCode("New South Wales") == "NSW" && GetStateCode("Victoria") == "VIC"
    ensures GetStateCode("Queensland") == "QLD" && GetStateCode("Western Australia") == "WA"
    ensures GetStateCode("South Australia") == "SA" && GetStateCode("Tasmania") == "TAS"
    ensures GetStateCode("Australian Capital Territory") == "ACT" && GetStateCode("Northern Territory") == "NT"
  {
    StateCodeAt(0);
    StateCodeAt(1);
    StateCodeAt(2);
    StateCodeAt(3);
    StateCodeAt(4);
    StateCodeAt(5);
    StateCodeAt(6);
    StateCodeAt(7);
  }

  /** Entry `j` of the state map is the first with its name */
  lemma StateCodeAt(j: nat)
    requires j < |StateMap|
    ensures GetStateCode(StateMap[j].0) == StateMap[j].1
  {
    forall i | 0 <= i < j ensures StateMap[i].0 != StateMap[j].0 {
      assert |StateMap[i].0| != |StateMap[j].0| || StateMap[i].0[0] != StateMap[j].0[0];
    }
    LookupFirst(StateMap, j, 0);
  }

  // ------------------------------------------------------------- link filters

  /** An anchor of a listing page: its `href` attribute, if any, and its trimmed text */
  datatype Link = Link(href: Option<string>, text: string)

  /** The state-link filter of `scrape`: an href and a name, the href mentioning 'auction-results' */
  predicate KeepStateLink(link: Link) {
    link.href.Some? && link.href.value != "" && link.text != "" && Contains(link.href.value, "auction-results")
  }

  /** The state links `scrape` queues, in page order: exactly the links the filter keeps */
  function StateLinks(links: seq<Link>): (r: seq<Link>)
    ensures |r| <= |links|
    ensures forall l :: l in r <==> l in links && KeepStateLink(l)
  {
    if links == [] then []
    else
      var front := StateLinks(links[..|links| - 1]);
      var last := links[|links| - 1];
      assert links == links[..|links| - 1] + [last];
      if KeepStateLink(last) then front + [last] else front
  }

  /** One link is queued when the filter keeps it */
  lemma StateLinksOfOne(link: Link)
    ensures StateLinks([link]) == if KeepStateLink(link) then [link] else []
  {
    assert [link][..0] == [];
  }

  /**
   * The state links of a concatenation are those of each part in turn: with
   * `StateLinksOfOne` this keeps page order and repeated links.
   */
  lemma {:induction false} StateLinksAppend(a: seq<Link>, b: seq<Link>)
    ensures StateLinks(a + b) == StateLinks(a) + StateLinks(b)
    decreases |b|
  {
    if b == [] {
      assert a + b == a;
    } else {
      var front, last := b[..|b| - 1], b[|b| - 1];
      var tail := (if KeepStateLink(last) then [last] else []);
      assert StateLinks(a + b) == StateLinks(a + front) + tail by {
        assert a + b == (a + front) + [last];
        StateLinksSnoc(a + front, last);
      }
      assert StateLinks(b) == StateLinks(front) + tail;
      StateLinksAppend(a, front);
      ConcatAssociative(StateLinks(a), StateLinks(front), tail);
    }
  }

  /** One more element at the back adds its own part at the back */
  lemma StateLinksSnoc(xs: seq<Link>, x: Link)
    ensures StateLinks(xs + [x]) == StateLinks(xs) + (if KeepStateLink(x) then [x] else [])
  {
    assert (xs + [x])[..|xs|] == xs;
  }

  /** What `scrapeState` keeps of a suburb link */
  datatype SuburbEntry = SuburbEntry(href: string, suburb: string, postcode: string)

  /** `s.replace(/\b\d{4}\b/, '')`: the first four-digit word removed */
  function RemoveFirstPostcode(s: string): (r: string)
    ensures !HasPostcode(s) ==> r == s
    ensures HasPostcode(s) ==> |r| == |s| - 4
  {
    match FindPostcode(s, 0)
    case None => s
    case Some(i) => s[..i] + s[i + 4..]
  }

  /** With a four-digit word, the leftmost one is cut out and the rest is kept in order */
  lemma RemoveFirstPostcodeCutsLeftmost(s: string)
    requires HasPostcode(s)
    ensures exists i :: PostcodeAt(s, i) && (forall j :: 0 <= j < i ==> !PostcodeAt(s, j)) && RemoveFirstPostcode(s) == s[..i] + s[i + 4..]
  {
    var i := FindPostcode(s, 0).value;
    assert PostcodeAt(s, i) && forall j :: 0 <= j < i ==> !PostcodeAt(s, j);
  }

  /**
   * The suburb-link map and filter of `scrapeState`: the suburb is the link
   * text without its first postcode, trimmed; the postcode is the first one of
   * the text, else of the href, else ''; a link is kept when it has an href,
   * a suburb and more than four '/'-separated parts.
   */
  function SuburbEntryOf(link: Link): (r: Option<SuburbEntry>)
    ensures r.Some? <==>
      && link.href.Some? && link.href.value != ""
      && Trim(RemoveFirstPostcode(link.text)) != ""
      && CountWhere(link.href.value, IsSlash) >= 4
    ensures r.Some? ==> r.value.href == link.href.value && r.value.suburb == Trim(RemoveFirstPostcode(link.text))
    ensures r.Some? ==> r.value.postcode == "" || (|r.value.postcode| == 4 && AllDigits(r.value.postcode))
    ensures r.Some? && HasPostcode(link.text) ==> r.value.postcode == ExtractPostcode(link.text)
    ensures r.Some? && !HasPostcode(link.text) ==> r.value.postcode == ExtractPostcode(link.href.value)
  {
    var suburb := Trim(RemoveFirstPostcode(link.text));
    if link.href.None? || link.href.value == "" || suburb == "" || |SplitOn(link.href.value, IsSlash)| <= 4 then None
    else
      var fromText := ExtractPostcode(link.text);
      var postcode := if fromText != "" then fromText else ExtractPostcode(link.href.value);
      Some(SuburbEntry(link.href.value, suburb, postcode))
  }

  // ------------------------------------------------------ price and result

  /**
   * The `price` of an REA record: undefined for an empty price text, one that
   * mentions 'Undisclosed', or one with no digit or comma; otherwise `parseInt`
   * of the first run of digits and commas with the commas removed — NaN when
   * that run is commas only.
   */
  function ParsePrice(priceText: string): (p: Price)
    ensures priceText == "" || Contains(priceText, "Undisclosed") ==> p == NoPrice
    ensures (forall k :: 0 <= k < |priceText| ==> !IsDigitOrComma(priceText[k])) ==> p == NoPrice
    ensures p.Amount? ==>
      exists i, j ::
        && 0 <= i < j <= |priceText|
        && (forall k :: 0 <= k < i ==> !IsDigitOrComma(priceText[k]))
        && (forall k :: i <= k < j ==> IsDigitOrComma(priceText[k]))
        && (j == |priceText| || !IsDigitOrComma(priceText[j]))
        && p.value == DigitsValue(RemoveCommas(priceText[i..j]))
    ensures p != NoPrice <==>
      priceText != "" && !Contains(priceText, "Undisclosed") && exists k :: 0 <= k < |priceText| && IsDigitOrComma(priceText[k])
    ensures p != NoPrice ==>
      exists i, j ::
        && 0 <= i < j <= |priceText|
        && (forall k :: 0 <= k < i ==> !IsDigitOrComma(priceText[k]))
        && (forall k :: i <= k < j ==> IsDigitOrComma(priceText[k]))
        && (j == |priceText| || !IsDigitOrComma(priceText[j]))
        && p == (if RemoveCommas(priceText[i..j]) == "" then NotANumber else Amount(DigitsValue(RemoveCommas(priceText[i..j]))))
  {
    if priceText == "" || Contains(priceText, "Undisclosed") then NoPrice
    else match FirstWhere(priceText, IsDigitOrComma)
      case None => NoPrice
      case Some(i) =>
        var j := RunEnd(priceText, i, IsDigitOrComma);
        var digits := RemoveCommas(priceText[i..j]);
        if digits == "" then NotANumber else Amount(DigitsValue(digits))
  }

  /**
   * Where the two scrapers part: a listing with a positive price and no
   * result word is 'sold' for the Domain scraper and 'passed_in' for REA.
   */
  lemma PriceImpliesSoldOnlyOnDomain(priceText: string)
    requires DomainScraper.ParsePrice(priceText).Amount? && DomainScraper.ParsePrice(priceText).value > 0
    ensures DomainScraper.ClassifyResult("", priceText) == Sold
    ensures ClassifyBadge(ExtractResult("")) == PassedIn
  {
    assert !Contains(Lower(""), "sold");
    assert ExtractResult("") == "" by {
      assert !HasWord(Lower(""), ResultWords) by {
        assert forall i :: !AnyWordAt(Lower(""), ResultWords, i);
      }
    }
  }

  // ------------------------------------------------------------ records

  /** A container of a suburb page: its text and the `href`s of its first property and site links */
  datatype Container = Container(text: string, propertyHref: Option<string>, siteHref: Option<string>)

  /**
   * One container of `scrapeSuburb` through to a record: emitted whenever an
   * address is found; the postcode of the suburb link, else the address's own.
   */
  function ContainerToRecord(c: Container, suburbName: string, stateName: string, postcode: string, now: Date)
    : (r: Option<RawAuctionData>)
    ensures r.Some? <==> ExtractAddressOrFirstLine(c.text).Some?
    ensures r.Some? ==>
      && r.value.address == ExtractAddressOrFirstLine(c.text).value
      && r.value.suburb == suburbName
      && r.value.state == GetStateCode(stateName)
      && r.value.postcode == (if postcode != "" then postcode else ExtractPostcode(r.value.address))
      && r.value.price == ParsePrice(ExtractPrice(c.text))
      && r.value.result == ClassifyBadge(ExtractResult(c.text))
      && r.value.source == Rea && r.value.auctionDate == now
      && Lower(r.value.propertyType) in PropertyTypes
    ensures r.Some? ==> r.value == BuildRecord(ExtractAddressOrFirstLine(c.text).value, c, suburbName, stateName, postcode, now)
    ensures r.Some? ==> r.value.propertyType == ExtractPropertyType(c.text)
  {
    match ExtractAddressOrFirstLine(c.text)
    case None => None
    case Some(address) => Some(BuildRecord(address, c, suburbName, stateName, postcode, now))
  }

  function BuildRecord(address: string, c: Container, suburbName: string, stateName: string, postcode: string, now: Date)
    : (x: RawAuctionData)
    ensures x.address == address && x.suburb == suburbName && x.state == GetStateCode(stateName)
    ensures x.postcode == (if postcode != "" then postcode else ExtractPostcode(address))
    ensures x.price == ParsePrice(ExtractPrice(c.text)) && x.result == ClassifyBadge(ExtractResult(c.text))
    ensures x.source == Rea && x.auctionDate == now && x.propertyType == ExtractPropertyType(c.text)
  {
    RawAuctionData(
      address := address,
      suburb := suburbName,
      state := GetStateCode(stateName),
      postcode := if postcode != "" then postcode else ExtractPostcode(address),
      price := ParsePrice(ExtractPrice(c.text)),
      result := ClassifyBadge(ExtractResult(c.text)),
      auctionDate := now,
      source := Rea,
      propertyType := ExtractPropertyType(c.text),
      bedrooms := ExtractCount(c.text, "bed"),
      bathrooms := ExtractCount(c.text, "bath"),
      carSpaces := ExtractCount(c.text, "car"),
      agentName := NonEmpty(ExtractAgentNameByShape(c.text)),
      agencyName := NonEmpty(ExtractAgencyNameByKeyword(c.text)),
      propertyUrl := NonEmpty(ExtractPropertyUrl(Origin, ReaListingPaths, c.propertyHref, c.siteHref)))
  }

  /**
   * The remaining fields of a container's record: the counts, the agent and
   * the agency of the container's whole text, and its property link
   */
  lemma BuildRecordFields(address: string, c: Container, suburbName: string, stateName: string, postcode: string, now: Date)
    ensures var x := BuildRecord(address, c, suburbName, stateName, postcode, now);
      && x.bedrooms == ExtractCount(c.text, "bed")
      && x.bathrooms == ExtractCount(c.text, "bath")
      && x.carSpaces == ExtractCount(c.text, "car")
      && x.agentName == NonEmpty(ExtractAgentNameByShape(c.text))
      && x.agencyName == NonEmpty(ExtractAgencyNameByKeyword(c.text))
      && x.propertyUrl == NonEmpty(ExtractPropertyUrl(Origin, ReaListingPaths, c.propertyHref, c.siteHref))
  {
  }

  /** The record of one container of a suburb page, for one that looks like an auction result */
  function PageRecord(c: Container, suburbName: string, stateName: string, postcode: string, now: Date): (r: Option<RawAuctionData>)
    ensures r.Some? ==> FromPage(r.value, suburbName, stateName)
  {
    if LooksLikeAuctionResult(c.text) then ContainerToRecord(c, suburbName, stateName, postcode, now) else None
  }

  function OptionToSeq<T>(o: Option<T>): (s: seq<T>)
    ensures |s| <= 1
    ensures forall k :: 0 <= k < |s| ==> o == Some(s[k])
  {
    if o.Some? then [o.value] else []
  }

  /** The values that `f` gives the containers, in order, where it gives one */
  function Gather(cs: seq<Container>, f: Container -> Option<RawAuctionData>): (r: seq<RawAuctionData>)
    ensures |r| <= |cs|
  {
    if cs == [] then [] else Gather(cs[..|cs| - 1], f) + OptionToSeq(f(cs[|cs| - 1]))
  }

  /** The records of the containers that look like auction results, in page order */
  function ContainerRecords(cs: seq<Container>, suburbName: string, stateName: string, postcode: string, now: Date)
    : (r: seq<RawAuctionData>)
    ensures |r| <= |cs|
  {
    Gather(cs, c => PageRecord(c, suburbName, stateName, postcode, now))
  }

  /** A record that passes the emit rule has an address and the suburb, state and source of its page */
  predicate FromPage(x: RawAuctionData, suburbName: string, stateName: string) {
    x.address != "" && x.suburb == suburbName && x.state == GetStateCode(stateName) && x.source == Rea
  }

  /** What holds of every value `f` gives holds of every value gathered */
  lemma {:induction false} GatherFromPage(cs: seq<Container>, f: Container -> Option<RawAuctionData>, suburbName: string, stateName: string)
    requires forall c :: f(c).Some? ==> FromPage(f(c).value, suburbName, stateName)
    ensures forall k :: 0 <= k < |Gather(cs, f)| ==> FromPage(Gather(cs, f)[k], suburbName, stateName)
  {
    if cs != [] {
      GatherFromPage(cs[..|cs| - 1], f, suburbName, stateName);
      var front := Gather(cs[..|cs| - 1], f);
      var tail := OptionToSeq(f(cs[|cs| - 1]));
      assert forall k :: 0 <= k < |front + tail| ==>
        (front + tail)[k] == (if k < |front| then front[k] else tail[k - |front|]);
    }
  }

  /** Every record of a suburb page has an address and carries the suburb and state it was reached from */
  lemma RecordsFromPage(cs: seq<Container>, suburbName: string, stateName: string, postcode: string, now: Date)
    ensures var r := ContainerRecords(cs, suburbName, stateName, postcode, now);
      forall k :: 0 <= k < |r| ==> FromPage(r[k], suburbName, stateName)
  {
    GatherFromPage(cs, c => PageRecord(c, suburbName, stateName, postcode, now), suburbName, stateName);
  }

  /**
   * `scrapeSuburb` after the page has loaded: the elements whose text looks
   * like an auction result are kept, and each with an address is pushed.
   */
  method ScrapeSuburb(cs: seq<Container>, suburbName: string, stateName: string, postcode: string, now: Date)
    returns (results: seq<RawAuctionData>)
    ensures results == ContainerRecords(cs, suburbName, stateName, postcode, now)
  {
    results := [];
    var i := 0;
    while i < |cs|
      invariant 0 <= i <= |cs|
      invariant results == ContainerRecords(cs[..i], suburbName, stateName, postcode, now)
    {
      assert cs[..i + 1][..i] == cs[..i];
      if LooksLikeAuctionResult(cs[i].text) {
        var record := ContainerToRecord(cs[i], suburbName, stateName, postcode, now);
        if record.Some? {
          results := results + [record.value];
        }
      }
      i := i + 1;
    }
    assert cs[..i] == cs;
  }

  /** The records one link of a state page leads to: none when `scrapeState` drops the link */
  function LinkRecords(link: Link, stateName: string, suburbPage: string -> seq<Container>, now: Date)
    : seq<RawAuctionData>
  {
    match SuburbEntryOf(link)
    case None => []
    case Some(e) => ContainerRecords(suburbPage(e.href), e.suburb, stateName, e.postcode, now)
  }

  /** The records of the suburb pages of the links `scrapeState` keeps, link by link */
  function StateRecords(links: seq<Link>, stateName: string, suburbPage: string -> seq<Container>, now: Date)
    : seq<RawAuctionData>
  {
    if links == [] then []
    else StateRecords(links[..|links| - 1], stateName, suburbPage, now) + LinkRecords(links[|links| - 1], stateName, suburbPage, now)
  }

  /** A record from REA with an address, filed under the code of `stateName` */
  predicate FromState(x: RawAuctionData, stateName: string) {
    x.address != "" && x.state == GetStateCode(stateName) && x.source == Rea
  }

  /** Every one of the records is from the state */
  predicate AllFromState(r: seq<RawAuctionData>, stateName: string) {
    forall k :: 0 <= k < |r| ==> FromState(r[k], stateName)
  }

  /** Records from a state, joined, are still from that state */
  lemma JoinFromState(a: seq<RawAuctionData>, b: seq<RawAuctionData>, stateName: string)
    requires AllFromState(a, stateName) && AllFromState(b, stateName)
    ensures AllFromState(a + b, stateName)
  {
    forall k | |a| <= k < |a + b|
      ensures FromState((a + b)[k], stateName)
    {
      assert (a + b)[k] == b[k - |a|];
    }
  }

  /** The records one link leads to are from the state */
  lemma LinkFromState(link: Link, stateName: string, suburbPage: string -> seq<Container>, now: Date)
    ensures AllFromState(LinkRecords(link, stateName, suburbPage, now), stateName)
  {
    match SuburbEntryOf(link)
    case None =>
    case Some(e) =>
      RecordsFromPage(suburbPage(e.href), e.suburb, stateName, e.postcode, now);
  }

  /** Every record of a state comes from REA, has an address and carries the state's code */
  lemma {:induction false} StateRecordsOfState(links: seq<Link>, stateName: string, suburbPage: string -> seq<Container>, now: Date)
    ensures AllFromState(StateRecords(links, stateName, suburbPage, now), stateName)
  {
    if links != [] {
      var init := links[..|links| - 1];
      StateRecordsOfState(init, stateName, suburbPage, now);
      LinkFromState(links[|links| - 1], stateName, suburbPage, now);
      JoinFromState(StateRecords(init, stateName, suburbPage, now),
        LinkRecords(links[|links| - 1], stateName, suburbPage, now), stateName);
    }
  }

  /**
   * `scrapeState`: each suburb link that passes the filter is scraped in
   * turn, and its records are appended; every record carries the code of the
   * state.
   */
  method ScrapeState(links: seq<Link>, stateName: string, suburbPage: string -> seq<Container>, now: Date)
    returns (results: seq<RawAuctionData>)
    ensures results == StateRecords(links, stateName, suburbPage, now)
    ensures AllFromState(results, stateName)
  {
    results := [];
    var i := 0;
    while i < |links|
      invariant 0 <= i <= |links|
      invariant results == StateRecords(links[..i], stateName, suburbPage, now)
    {
      assert links[..i + 1][..i] == links[..i];
      var entry := SuburbEntryOf(links[i]);
      if entry.Some? {
        var suburbResults := ScrapeSuburb(suburbPage(entry.value.href), entry.value.suburb, stateName, entry.value.postcode, now);
        results := results + suburbResults;
      }
      i := i + 1;
    }
    assert links[..i] == links;
    StateRecordsOfState(links, stateName, suburbPage, now);
  }
}
