/**
 * The pure helpers of the fetch-based Domain scraper in
 * src/lib/scrapers/http-domain-scraper.ts, which enhanced-domain-scraper.ts
 * repeats word for word: the address, suburb, state, name and price
 * extractors, the result and city maps, the location read from a URL, the
 * record built from a text, the walk over embedded JSON state with its
 * key-pattern lookup, and the de-duplication of the results of `scrapeUrl`.
 */
module HttpDomainScraper {
  import opened Wrappers
  import opened Text
  import opened Records
  import opened Extraction

  // --------------------------------------------------------- text segments

  /** `text.split(/\n|,/).map(line => line.trim())` */
  function Segments(text: string): (r: seq<string>)
    ensures |r| >= 1
  {
    TrimAll(SplitOn(text, IsNewlineOrComma))
  }

  /**
   * The `for (const line of lines) { if (accept(line)) return line; }
   * return null` loop that `extractAddress`, `extractSuburb`,
   * `extractAgentName` and `extractAgencyName` share: the first accepted line.
   */
  method FirstAccepted(lines: seq<string>, accept: string -> bool) returns (found: Option<string>)
    ensures found == FirstSatisfying(lines, accept)
  {
    var i := 0;
    while i < |lines|
      invariant 0 <= i <= |lines|
      invariant forall j :: 0 <= j < i ==> !accept(lines[j])
    {
      if accept(lines[i]) {
        return Some(lines[i]);
      }
      i := i + 1;
    }
    return None;
  }

  // -------------------------------------------------------------- addresses

  /** The street suffixes of `looksLikeAddress`: those of the Domain scraper and way, crescent, cres */
  const AddressSuffixes: seq<string> := StreetSuffixes + ["way", "crescent", "cres"]

  /**
   * `looksLikeAddress`: starts with a digit, has a street suffix as a whole
   * word in any letter case, and is longer than 10 and shorter than 100.
   */
  predicate LooksLikeAddress(text: string) {
    && |text| > 0 && IsDigit(text[0])
    && HasWord(Lower(text), AddressSuffixes)
    && 10 < |text| < 100
  }

  /** A numbered street passes; a text not starting with a digit, or of ten characters or fewer, does not */
  lemma LooksLikeAddressExamples()
    ensures LooksLikeAddress("12 Smith Street")
    ensures !LooksLikeAddress("Smith Street 12")
    ensures !LooksLikeAddress("1 Main St")
  {
    var s := Lower("12 Smith Street");
    assert s[9..15] == "street";
    assert WordAt(s, AddressSuffixes[0], 9);
    assert AnyWordAt(s, AddressSuffixes, 9);
  }

  /** `extractAddress`: the first trimmed newline- or comma-separated segment that looks like an address */
  function AddressLine(text: string): (r: Option<string>)
    ensures r.Some? ==> LooksLikeAddress(r.value) && 10 < |r.value| < 100 && IsDigit(r.value[0])
    ensures r.Some? ==>
      exists j :: 0 <= j < |Segments(text)| && Segments(text)[j] == r.value &&
        forall i :: 0 <= i < j ==> !LooksLikeAddress(Segments(text)[i])
    ensures r.None? <==> forall j :: 0 <= j < |Segments(text)| ==> !LooksLikeAddress(Segments(text)[j])
  {
    FirstSatisfying(Segments(text), LooksLikeAddress)
  }

  // ---------------------------------------------------- suburbs and states

  predicate IsBlank(c: char) { c == ' ' }

  /** `/^[A-Z][a-z]+(?: [A-Z][a-z]+)*$/`: capitalised words joined by single spaces */
  predicate IsCapitalisedWords(s: string) {
    var words := SplitOn(s, IsBlank);
    forall k :: 0 <= k < |words| ==> IsCapitalisedWord(words[k])
  }

  /** `extractSuburb`: the first segment made of capitalised words */
  function SuburbLine(text: string): (r: Option<string>)
    ensures r.Some? ==> IsCapitalisedWords(r.value) && r.value != ""
    ensures r.Some? ==> r.value in Segments(text)
    ensures r.Some? ==>
      exists j :: 0 <= j < |Segments(text)| && Segments(text)[j] == r.value &&
        forall i :: 0 <= i < j ==> !IsCapitalisedWords(Segments(text)[i])
    ensures r.None? ==> forall j :: 0 <= j < |Segments(text)| ==> !IsCapitalisedWords(Segments(text)[j])
  {
    EmptyIsNotCapitalised();
    FirstSatisfying(Segments(text), IsCapitalisedWords)
  }

  lemma EmptyIsNotCapitalised()
    ensures !IsCapitalisedWords("")
  {
    assert SplitOn("", IsBlank)[0] == "";
  }

  const StateCodes: seq<string> := ["NSW", "VIC", "QLD", "WA", "SA", "TAS", "ACT", "NT"]

  /** `extractState`: the leftmost state code standing as a whole word, in capitals */
  function ExtractState(text: string): (r: Option<string>)
    ensures r.Some? <==> HasWord(text, StateCodes)
    ensures r.Some? ==> r.value in StateCodes
    ensures r.Some? ==> exists i :: WordAt(text, r.value, i) && forall j :: 0 <= j < i ==> !AnyWordAt(text, StateCodes, j)
  {
    FindWordFindsAny(text, StateCodes);
    match FindWord(text, StateCodes, 0)
    case None => None
    case Some(found) => Some(StateCodes[found.1])
  }

  // ---------------------------------------------------------------- names

  /** The agency keywords of `looksLikePersonName` and `looksLikeAgencyName` */
  const AgencyKeywords: seq<string> := AgencyWords + ["ltd", "pty"]

  /** `looksLikePersonName`: 'Firstname Lastname', 6 to 49 characters, no agency keyword */
  predicate LooksLikePersonName(text: string) {
    IsTwoCapitalisedWords(text) && 5 < |text| < 50 && !HasWord(Lower(text), AgencyKeywords)
  }

  /** `looksLikeAgencyName`: an agency keyword as a whole word, 6 to 99 characters */
  predicate LooksLikeAgencyName(text: string) {
    HasWord(Lower(text), AgencyKeywords) && 5 < |text| < 100
  }

  /**
   * The two name tests never both pass, and a 'Firstname Lastname' line of 6
   * to 49 characters passes exactly one of them: the agency keywords decide.
   */
  lemma PersonOrAgency(text: string)
    ensures !(LooksLikePersonName(text) && LooksLikeAgencyName(text))
    ensures IsTwoCapitalisedWords(text) && 5 < |text| < 50 ==> (LooksLikePersonName(text) <==> !LooksLikeAgencyName(text))
  {
  }

  /** `extractAgentName`: the first trimmed line that looks like a person's name */
  function AgentLine(text: string): (r: Option<string>)
    ensures r.Some? ==> LooksLikePersonName(r.value) && r.value in Lines(text)
    ensures r.Some? ==>
      exists j :: 0 <= j < |Lines(text)| && Lines(text)[j] == r.value &&
        forall i :: 0 <= i < j ==> !LooksLikePersonName(Lines(text)[i])
    ensures r.None? ==> forall j :: 0 <= j < |Lines(text)| ==> !LooksLikePersonName(Lines(text)[j])
  {
    FirstSatisfying(Lines(text), LooksLikePersonName)
  }

  /** `extractAgencyName`: the first trimmed line that looks like an agency */
  function AgencyLine(text: string): (r: Option<string>)
    ensures r.Some? ==> LooksLikeAgencyName(r.value) && r.value in Lines(text)
    ensures r.Some? ==>
      exists j :: 0 <= j < |Lines(text)| && Lines(text)[j] == r.value &&
        forall i :: 0 <= i < j ==> !LooksLikeAgencyName(Lines(text)[i])
    ensures r.None? ==> forall j :: 0 <= j < |Lines(text)| ==> !LooksLikeAgencyName(Lines(text)[j])
  {
    FirstSatisfying(Lines(text), LooksLikeAgencyName)
  }

  /** No text is both a person's name and an agency, so the agent and the agency of a text are different lines */
  lemma AgentIsNeverAgency(text: string)
    ensures !(LooksLikePersonName(text) && LooksLikeAgencyName(text))
    ensures AgentLine(text).Some? && AgencyLine(text).Some? ==> AgentLine(text).value != AgencyLine(text).value
  {
  }

  // ---------------------------------------------------------------- prices

  /** `\$\d` starts at `i` */
  predicate DollarDigitAt(s: string, i: int) {
    0 <= i && i + 1 < |s| && s[i] == '$' && IsDigit(s[i + 1])
  }

  function FindDollarDigit(s: string, from: nat): (r: Option<nat>)
    ensures r.Some? ==> from <= r.value && DollarDigitAt(s, r.value)
    ensures r.Some? ==> forall j :: from <= j < r.value ==> !DollarDigitAt(s, j)
    ensures r.None? ==> forall j :: from <= j ==> !DollarDigitAt(s, j)
    decreases |s| - from
  {
    if from + 1 >= |s| then None
    else if DollarDigitAt(s, from) then Some(from)
    else FindDollarDigit(s, from + 1)
  }

  /** End of `\d{1,3}` from `p`: the digits there, three at most */
  function LeadEnd(s: string, p: nat): (e: nat)
    requires p < |s| && IsDigit(s[p])
    ensures p < e <= p + 3 && e <= |s|
    ensures forall k :: p <= k < e ==> IsDigit(s[k])
    ensures e < p + 3 ==> e == |s| || !IsDigit(s[e])
  {
    var run := RunEnd(s, p, IsDigit);
    if run - p > 3 then p + 3 else run
  }

  /** `,\d{3}` starts at `q` */
  predicate GroupAt(s: string, q: nat) {
    q + 4 <= |s| && s[q] == ',' && AllDigits(s[q + 1..q + 4])
  }

  /** End of `(?:,\d{3})*` from `q`: as many comma groups as follow */
  function GroupsEnd(s: string, q: nat): (e: nat)
    requires q <= |s|
    ensures q <= e <= |s| && !GroupAt(s, e)
    ensures forall k :: q <= k < e ==> IsDigitOrComma(s[k])
    decreases |s| - q
  {
    if GroupAt(s, q) then
      assert forall k :: q + 1 <= k < q + 4 ==> IsDigit(s[k]) by {
        forall k | q + 1 <= k < q + 4 ensures IsDigit(s[k]) {
          assert s[q + 1..q + 4][k - q - 1] == s[k];
        }
      }
      GroupsEnd(s, q + 4)
    else q
  }

  /** The digits of the amount that `$` at `i` introduces, the commas dropped (`parseInt` stops at the '.') */
  function PriceDigits(s: string, i: nat): (d: string)
    requires DollarDigitAt(s, i)
    ensures AllDigits(d) && d != ""
  {
    var g := GroupsEnd(s, LeadEnd(s, i + 1));
    var amount := s[i + 1..g];
    assert forall k :: 0 <= k < |amount| ==> IsDigit(amount[k]) || amount[k] == ',' by {
      forall k | 0 <= k < |amount| ensures IsDigit(amount[k]) || amount[k] == ',' {
        assert amount[k] == s[i + 1 + k];
      }
    }
    assert amount[0] != ',';
    var d := RemoveCommas(amount);
    assert d != "" by {
      assert amount == [amount[0]] + amount[1..];
      assert RemoveCommas(amount) == [amount[0]] + RemoveCommas(amount[1..]);
    }
    d
  }

  /**
   * `extractPriceNumber`: `parseInt` of the amount of the leftmost match of
   * `/\$(\d{1,3}(?:,\d{3})*(?:\.\d{2})?)/` with the commas removed, undefined
   * when no '$' is followed by a digit.
   */
  function ExtractPriceNumber(text: string): (r: Option<nat>)
    ensures r.None? <==> forall i :: !DollarDigitAt(text, i)
    ensures r.Some? ==>
      exists i :: DollarDigitAt(text, i) && (forall j :: 0 <= j < i ==> !DollarDigitAt(text, j)) &&
        r.value == DigitsValue(PriceDigits(text, i))
  {
    match FindDollarDigit(text, 0)
    case None => None
    case Some(i) => Some(DigitsValue(PriceDigits(text, i)))
  }

  /** The price of a record: `extractPriceNumber`'s number, or undefined */
  function PriceOf(n: Option<nat>): (p: Price)
    ensures p == NoPrice <==> n.None?
    ensures n.Some? ==> p == Amount(n.value)
  {
    if n.Some? then Amount(n.value) else NoPrice
  }

  /** Up to three digits after the '$', ended by anything but a digit or a group, are the amount */
  lemma PriceOfShortAmount(d: string, rest: string)
    requires 1 <= |d| <= 3 && AllDigits(d)
    requires rest == [] || (!IsDigit(rest[0]) && rest[0] != ',')
    ensures ExtractPriceNumber("$" + d + rest) == Some(DigitsValue(d))
  {
    var s := "$" + d + rest;
    assert DollarDigitAt(s, 0) by { assert s[1] == d[0]; }
    assert FindDollarDigit(s, 0) == Some(0);
    var lead := LeadEnd(s, 1);
    assert forall k :: 1 <= k <= |d| ==> s[k] == d[k - 1];
    assert lead == |d| + 1 by {
      assert RunEnd(s, 1, IsDigit) == |d| + 1 by {
        assert |d| + 1 == |s| || !IsDigit(s[|d| + 1]);
        assert forall k :: 1 <= k < |d| + 1 ==> IsDigit(s[k]);
        RunEndAt(s, 1, |d| + 1, IsDigit);
      }
    }
    assert !GroupAt(s, lead) by {
      if lead < |s| { assert s[lead] == rest[0]; }
    }
    assert s[1..lead] == d;
    RemoveCommasKeepsDigits(d);
  }

  /** Without thousands separators only the first three digits are read: '$1250000' is 125 */
  lemma UnseparatedPriceIsCut(d: string)
    requires |d| > 3 && AllDigits(d)
    ensures ExtractPriceNumber("$" + d) == Some(DigitsValue(d[..3]))
  {
    var s := "$" + d;
    assert DollarDigitAt(s, 0) by { assert s[1] == d[0]; }
    assert FindDollarDigit(s, 0) == Some(0);
    assert forall k :: 1 <= k <= |d| ==> s[k] == d[k - 1];
    assert RunEnd(s, 1, IsDigit) == |s| by {
      RunEndAt(s, 1, |s|, IsDigit);
    }
    assert LeadEnd(s, 1) == 4;
    assert !GroupAt(s, 4) by { assert s[4] == d[3]; }
    assert s[1..4] == d[..3];
    RemoveCommasKeepsDigits(d[..3]);
  }

  lemma RemoveCommasKeepsDigits(d: string)
    requires AllDigits(d)
    ensures RemoveCommas(d) == d
  {
  }

  // -------------------------------------------------------------- results

  /** `mapResult`: 'sold' beats 'withdrawn' and 'cancelled', which beat the default 'passed_in' */
  function MapResult(result: string): (r: AuctionResult)
    ensures r == Sold <==> Contains(Lower(result), "sold")
    ensures r == Withdrawn <==>
      !Contains(Lower(result), "sold") && (Contains(Lower(result), "withdrawn") || Contains(Lower(result), "cancelled"))
  {
    ClassifyBadge(Lower(result))
  }

  // ---------------------------------------------------------- cities, URLs

  const CityStates: seq<(string, string)> := [
    ("sydney", "NSW"), ("melbourne", "VIC"), ("brisbane", "QLD"), ("perth", "WA"),
    ("adelaide", "SA"), ("canberra", "ACT"), ("hobart", "TAS"), ("darwin", "NT")]

  /** `cityToState`: the code of a capital city, compared lower-cased, and 'NSW' for any other name */
  function CityToState(city: string): (code: string)
    ensures (exists j :: 0 <= j < |CityStates| && CityStates[j].0 == Lower(city)) ==>
      exists j :: 0 <= j < |CityStates| && CityStates[j] == (Lower(city), code)
    ensures (forall j :: 0 <= j < |CityStates| ==> CityStates[j].0 != Lower(city)) ==> code == "NSW"
    ensures code in StateCodes
  {
    match LookupFrom(CityStates, Lower(city), 0)
    case Some(code) =>
      assert code in ["NSW", "VIC", "QLD", "WA", "SA", "ACT", "TAS", "NT"];
      code
    case None => "NSW"
  }

  /** The letter case of the city does not matter */
  lemma CityToStateIgnoresCase(city: string)
    ensures CityToState(Lower(city)) == CityToState(city)
  {
    LowerIdempotent(city);
  }

  /** The eight capitals, written in any letter case */
  lemma CapitalCities(city: string)
    ensures Lower(city) == "sydney" ==> CityToState(city) == "NSW"
    ensures Lower(city) == "melbourne" ==> CityToState(city) == "VIC"
    ensures Lower(city) == "brisbane" ==> CityToState(city) == "QLD"
    ensures Lower(city) == "perth" ==> CityToState(city) == "WA"
    ensures Lower(city) == "adelaide" ==> CityToState(city) == "SA"
    ensures Lower(city) == "canberra" ==> CityToState(city) == "ACT"
    ensures Lower(city) == "hobart" ==> CityToState(city) == "TAS"
    ensures Lower(city) == "darwin" ==> CityToState(city) == "NT"
  {
  }

  /**
   * The location object `{ suburb?, state?, postcode? }` that
   * `extractLocationFromUrl` and `extractLocationFromContent` return.
   */
  datatype LocationInfo = LocationInfo(suburb: Option<string>, state: Option<string>, postcode: Option<string>)

  const ResultsSegment: string := "auction-results"

  predicate IsResultsSegment(part: string) { part == ResultsSegment }

  /** `parts[k]` is the first 'auction-results' part */
  predicate FirstResultsSegment(parts: seq<string>, k: int) {
    0 <= k < |parts| && IsResultsSegment(parts[k]) && forall j :: 0 <= j < k ==> !IsResultsSegment(parts[j])
  }

  /** A part follows the first 'auction-results' part, and `city` is it with spaces for hyphens */
  ghost predicate CityAfterResults(parts: seq<string>, city: string) {
    exists k :: FirstResultsSegment(parts, k) && k + 1 < |parts| && city == HyphensToSpaces(parts[k + 1])
  }

  /**
   * `extractLocationFromUrl`: the '/'-separated part after the first
   * 'auction-results' part, its hyphens turned into spaces, with the state of
   * that city; `{}` when there is no such part.
   */
  function ExtractLocationFromUrl(url: string): (r: LocationInfo)
    ensures r.suburb.Some? <==> r.state.Some?
    ensures r.postcode.None?
    ensures r.suburb.Some? ==> r.state == Some(CityToState(r.suburb.value))
    ensures (forall k :: 0 <= k < |SplitOn(url, IsSlash)| ==> !IsResultsSegment(SplitOn(url, IsSlash)[k])) ==>
      r == LocationInfo(None, None, None)
    ensures r.suburb.Some? ==> CityAfterResults(SplitOn(url, IsSlash), r.suburb.value)
    ensures forall k :: FirstResultsSegment(SplitOn(url, IsSlash), k) && k + 1 < |SplitOn(url, IsSlash)| ==>
      r.suburb == Some(HyphensToSpaces(SplitOn(url, IsSlash)[k + 1]))
    ensures forall k :: FirstResultsSegment(SplitOn(url, IsSlash), k) && k + 1 == |SplitOn(url, IsSlash)| ==>
      r == LocationInfo(None, None, None)
  {
    var parts := SplitOn(url, IsSlash);
    match FirstWhere(parts, IsResultsSegment)
    case None => LocationInfo(None, None, None)
    case Some(k) =>
      if k + 1 < |parts| then
        var city := HyphensToSpaces(parts[k + 1]);
        assert FirstResultsSegment(parts, k);
        LocationInfo(Some(city), Some(CityToState(city)), None)
      else LocationInfo(None, None, None)
  }

  /** The URL of a city's results page; `rest` is what follows the city's part */
  function ResultsUrl(prefix: string, city: string, rest: string): string {
    prefix + ("/" + (ResultsSegment + ("/" + (city + ("/" + rest)))))
  }

  lemma ResultsSegmentIsOnePart()
    ensures SplitOn(ResultsSegment, IsSlash) == [ResultsSegment]
  {
    assert forall i :: 0 <= i < |ResultsSegment| ==> !IsSlash(ResultsSegment[i]);
    SplitOnWhole(ResultsSegment, IsSlash);
  }

  /** The parts of a results page URL: those of the prefix, 'auction-results', the city, those of the rest */
  lemma ResultsUrlParts(prefix: string, city: string, rest: string)
    requires forall k :: 0 <= k < |SplitOn(prefix, IsSlash)| ==> !IsResultsSegment(SplitOn(prefix, IsSlash)[k])
    requires forall i :: 0 <= i < |city| ==> city[i] != '/'
    ensures var parts := SplitOn(ResultsUrl(prefix, city, rest), IsSlash);
      && FirstWhere(parts, IsResultsSegment) == Some(|SplitOn(prefix, IsSlash)|)
      && |SplitOn(prefix, IsSlash)| + 1 < |parts|
      && parts[|SplitOn(prefix, IsSlash)| + 1] == city
  {
    var url := ResultsUrl(prefix, city, rest);
    var front := SplitOn(prefix, IsSlash);
    var back := [ResultsSegment] + ([city] + SplitOn(rest, IsSlash));
    assert SplitOn(url, IsSlash) == front + back by {
      SplitOnThree(prefix, ResultsSegment, city, rest, '/', IsSlash);
      ResultsSegmentIsOnePart();
      SplitOnWhole(city, IsSlash);
    }
    assert FirstWhere(front + back, IsResultsSegment) == Some(|front|) by {
      FirstWhereBehind(front, back, IsResultsSegment);
      assert FirstWhere(back, IsResultsSegment) == Some(0);
    }
    assert (front + back)[|front| + 1] == city;
  }

  /**
   * A results page URL `<prefix>/auction-results/<city>/<rest>` gives the city
   * with spaces for hyphens and its state, when no earlier part is 'auction-results'.
   */
  lemma LocationOfResultsUrl(prefix: string, city: string, rest: string)
    requires forall k :: 0 <= k < |SplitOn(prefix, IsSlash)| ==> !IsResultsSegment(SplitOn(prefix, IsSlash)[k])
    requires forall i :: 0 <= i < |city| ==> city[i] != '/'
    ensures ExtractLocationFromUrl(ResultsUrl(prefix, city, rest)) ==
      LocationInfo(Some(HyphensToSpaces(city)), Some(CityToState(HyphensToSpaces(city))), None)
  {
    ResultsUrlParts(prefix, city, rest);
  }

  /**
   * A URL ending in `/auction-results/<city>` gives that city and its state;
   * with nothing after the last '/', the city is '' and the state 'NSW'.
   */
  lemma LocationOfCityUrl(prefix: string, city: string)
    requires forall k :: 0 <= k < |SplitOn(prefix, IsSlash)| ==> !IsResultsSegment(SplitOn(prefix, IsSlash)[k])
    requires forall i :: 0 <= i < |city| ==> city[i] != '/'
    ensures ExtractLocationFromUrl(prefix + ("/" + (ResultsSegment + ("/" + city)))) ==
      LocationInfo(Some(HyphensToSpaces(city)), Some(CityToState(HyphensToSpaces(city))), None)
    ensures city == "" ==>
      ExtractLocationFromUrl(prefix + ("/" + (ResultsSegment + ("/" + city)))) == LocationInfo(Some(""), Some("NSW"), None)
  {
    var url := prefix + ("/" + (ResultsSegment + ("/" + city)));
    var front := SplitOn(prefix, IsSlash);
    var back := [ResultsSegment] + [city];
    assert SplitOn(url, IsSlash) == front + back by {
      SplitOnSeparator(prefix, '/', ResultsSegment + ("/" + city), IsSlash);
      SplitOnSeparator(ResultsSegment, '/', city, IsSlash);
      ResultsSegmentIsOnePart();
      SplitOnWhole(city, IsSlash);
    }
    assert FirstWhere(front + back, IsResultsSegment) == Some(|front|) by {
      FirstWhereBehind(front, back, IsResultsSegment);
      assert FirstWhere(back, IsResultsSegment) == Some(0);
    }
    assert (front + back)[|front| + 1] == city;
    if city == "" {
      assert HyphensToSpaces(city) == "";
      assert forall j :: 0 <= j < |CityStates| ==> CityStates[j].0 != Lower("");
    }
  }

  /** What `mapResult` makes of each word `extractResult` can return */
  lemma MapResultOfResultWords()
    ensures MapResult("sold") == Sold
    ensures MapResult("passed") == PassedIn
    ensures MapResult("withdrawn") == Withdrawn
    ensures MapResult("cancelled") == Withdrawn
    ensures MapResult("") == PassedIn
  {
    MapResultSold();
    MapResultPassed();
    MapResultWithdrawn();
    MapResultCancelled();
  }

  lemma MapResultSold()
    ensures MapResult("sold") == Sold
  {
    LowerWithoutCapitals("sold");
    ContainsWitness("sold", "sold", 0);
  }

  lemma MapResultPassed()
    ensures MapResult("passed") == PassedIn
  {
    LowerWithoutCapitals("passed");
    AbsentLetterRulesOut("passed", "sold", 'o');
    AbsentLetterRulesOut("passed", "withdrawn", 'w');
    AbsentLetterRulesOut("passed", "cancelled", 'c');
  }

  lemma MapResultWithdrawn()
    ensures MapResult("withdrawn") == Withdrawn
  {
    LowerWithoutCapitals("withdrawn");
    ContainsWitness("withdrawn", "withdrawn", 0);
    AbsentLetterRulesOut("withdrawn", "sold", 's');
  }

  lemma MapResultCancelled()
    ensures MapResult("cancelled") == Withdrawn
  {
    LowerWithoutCapitals("cancelled");
    ContainsWitness("cancelled", "cancelled", 0);
    AbsentLetterRulesOut("cancelled", "sold", 's');
  }

  /** `mapResult` of a word `extractResult` returned */
  lemma MapResultOfExtracted(w: string)
    requires w == "" || w in ResultWords
    ensures MapResult(w) == Sold <==> w == "sold"
    ensures MapResult(w) == Withdrawn <==> w in ["withdrawn", "cancelled"]
  {
    MapResultOfResultWords();
  }

  /** A pattern holding a character the text lacks is not contained in it */
  lemma AbsentLetterRulesOut(s: string, p: string, c: char)
    requires c in p && c !in s
    ensures !Contains(s, p)
  {
    ContainsIff(s, p);
    var k :| 0 <= k < |p| && p[k] == c;
    forall i | 0 <= i <= |s| - |p| ensures !OccursAt(s, p, i) {
      assert s[i + k] in s;
    }
  }

  // -------------------------------------------------- records from a text

  /** `a || b || fallback` over optional texts, where '' and undefined are falsy */
  function OrElse(a: Option<string>, b: Option<string>, fallback: string): string {
    if NonEmpty(a).Some? then a.value else if NonEmpty(b).Some? then b.value else fallback
  }

  /** `locationInfo.suburb || extractSuburb(text) || 'Unknown'` */
  function SuburbOf(loc: LocationInfo, text: string): (r: string)
    ensures r != ""
    ensures NonEmpty(loc.suburb).Some? ==> r == loc.suburb.value
    ensures NonEmpty(loc.suburb).None? && SuburbLine(text).Some? ==> r == SuburbLine(text).value && IsCapitalisedWords(r)
    ensures NonEmpty(loc.suburb).None? && SuburbLine(text).None? ==> r == "Unknown"
  {
    OrElse(loc.suburb, SuburbLine(text), "Unknown")
  }

  /** `locationInfo.state || extractState(text) || 'NSW'` */
  function StateOf(loc: LocationInfo, text: string): (r: string)
    ensures r != ""
    ensures NonEmpty(loc.state).Some? ==> r == loc.state.value
    ensures NonEmpty(loc.state).None? ==> r in StateCodes
    ensures NonEmpty(loc.state).None? && !HasWord(text, StateCodes) ==> r == "NSW"
  {
    var state := ExtractState(text);
    assert state.Some? ==> state.value in StateCodes && state.value != "";
    OrElse(loc.state, state, "NSW")
  }

  /** `extractPostcode(text) || locationInfo.postcode || ''`: the text's postcode comes first */
  function PostcodeOf(loc: LocationInfo, text: string): (r: string)
    ensures HasPostcode(text) ==> r == ExtractPostcode(text) && |r| == 4 && AllDigits(r)
    ensures !HasPostcode(text) && NonEmpty(loc.postcode).Some? ==> r == loc.postcode.value
    ensures !HasPostcode(text) && NonEmpty(loc.postcode).None? ==> r == ""
  {
    OrElse(Some(ExtractPostcode(text)), loc.postcode, "")
  }

  /** `mapResult(extractResult(text))`: the leftmost result word decides, and none means passed in */
  function ResultOf(text: string): (r: AuctionResult)
    ensures r == Sold <==> ExtractResult(text) == "sold"
    ensures r == Withdrawn <==> ExtractResult(text) in ["withdrawn", "cancelled"]
    ensures r == PassedIn <==> ExtractResult(text) in ["passed", ""]
  {
    var word := ExtractResult(text);
    MapResultOfExtracted(word);
    MapResult(word)
  }

  /**
   * The record literal of `extractAuctionFromText`, once its address is
   * found, given the location object and the agent and agency names (which
   * enhanced-domain-scraper.ts finds differently); `now` is `new Date()`.
   */
  function TextRecord(address: string, text: string, loc: LocationInfo,
                      agentName: Option<string>, agencyName: Option<string>, now: Date): (r: RawAuctionData)
    ensures r.address == address && r.auctionDate == now && r.source == Domain && r.propertyUrl.None?
    ensures r.suburb != "" && r.state != "" && r.propertyType != ""
    ensures r.suburb == SuburbOf(loc, text) && r.state == StateOf(loc, text) && r.postcode == PostcodeOf(loc, text)
    ensures r.price == NoPrice <==> forall i :: !DollarDigitAt(text, i)
    ensures !r.price.NotANumber?
    ensures r.result == ResultOf(text)
    ensures r.agentName == agentName && r.agencyName == agencyName
  {
    RawAuctionData(
      address := address,
      suburb := SuburbOf(loc, text),
      state := StateOf(loc, text),
      postcode := PostcodeOf(loc, text),
      price := PriceOf(ExtractPriceNumber(text)),
      result := ResultOf(text),
      auctionDate := now,
      source := Domain,
      propertyType := ExtractPropertyType(text),
      bedrooms := ExtractCount(text, "bed"),
      bathrooms := ExtractCount(text, "bath"),
      carSpaces := ExtractCount(text, "car"),
      agentName := agentName,
      agencyName := agencyName,
      propertyUrl := None)
  }

  /**
   * The fields of a text's record that its extractors give: the price of the
   * first dollar amount, the property type ('House' when none is named) and the
   * bedroom, bathroom and car space counts
   */
  lemma TextRecordFields(address: string, text: string, loc: LocationInfo,
                         agentName: Option<string>, agencyName: Option<string>, now: Date)
    ensures var r := TextRecord(address, text, loc, agentName, agencyName, now);
      && r.price == PriceOf(ExtractPriceNumber(text))
      && r.propertyType == ExtractPropertyType(text)
      && r.bedrooms == ExtractCount(text, "bed")
      && r.bathrooms == ExtractCount(text, "bath")
      && r.carSpaces == ExtractCount(text, "car")
  {
  }

  /**
   * `extractAuctionFromText`: null when no segment looks like an address,
   * otherwise the record of that address with the location of the page URL.
   */
  function ExtractAuctionFromText(text: string, url: string, now: Date): (r: Option<RawAuctionData>)
    ensures r.None? <==> forall j :: 0 <= j < |Segments(text)| ==> !LooksLikeAddress(Segments(text)[j])
    ensures r.Some? ==> LooksLikeAddress(r.value.address) && r.value.address in Segments(text)
    ensures r.Some? ==> r.value.postcode == ExtractPostcode(text)
    ensures r.Some? ==> r.value.agentName == AgentLine(text) && r.value.agencyName == AgencyLine(text)
    ensures r.Some? && ExtractLocationFromUrl(url).suburb.None? ==>
      r.value.suburb == (if SuburbLine(text).Some? then SuburbLine(text).value else "Unknown")
    ensures r.Some? ==> r.value.address == AddressLine(text).value
    ensures r.Some? ==>
      && r.value.suburb == SuburbOf(ExtractLocationFromUrl(url), text)
      && r.value.state == StateOf(ExtractLocationFromUrl(url), text)
      && r.value.result == ResultOf(text)
      && (r.value.price == NoPrice <==> forall i :: !DollarDigitAt(text, i))
    ensures r.Some? ==> r.value == TextRecord(AddressLine(text).value, text, ExtractLocationFromUrl(url), AgentLine(text), AgencyLine(text), now)
  {
    match AddressLine(text)
    case None => None
    case Some(address) =>
      Some(TextRecord(address, text, ExtractLocationFromUrl(url), AgentLine(text), AgencyLine(text), now))
  }

  /**
   * On a city's results page every record is filed under the city, not its
   * own suburb, and under the city's state, whatever the text says.
   */
  lemma ResultsPageRecordsTakeTheCity(prefix: string, city: string, rest: string, text: string, now: Date)
    requires forall k :: 0 <= k < |SplitOn(prefix, IsSlash)| ==> !IsResultsSegment(SplitOn(prefix, IsSlash)[k])
    requires forall i :: 0 <= i < |city| ==> city[i] != '/'
    requires city != ""
    requires AddressLine(text).Some?
    ensures var r := ExtractAuctionFromText(text, ResultsUrl(prefix, city, rest), now);
      r.Some? && r.value.suburb == HyphensToSpaces(city) && r.value.state == CityToState(HyphensToSpaces(city))
  {
    var url := ResultsUrl(prefix, city, rest);
    var name := HyphensToSpaces(city);
    LocationOfResultsUrl(prefix, city, rest);
    var loc := ExtractLocationFromUrl(url);
    assert |name| == |city|;
    assert NonEmpty(loc.suburb) == Some(name);
    var code := CityToState(name);
    StateCodesAreNotEmpty(code);
    assert NonEmpty(loc.state) == Some(code);
    var r := TextRecord(AddressLine(text).value, text, loc, AgentLine(text), AgencyLine(text), now);
    assert ExtractAuctionFromText(text, url, now) == Some(r);
  }

  lemma StateCodesAreNotEmpty(code: string)
    requires code in StateCodes
    ensures code != ""
  {
  }

  /** `\d+\s*(bed|bath|car)` of the HTTP copy: a number before the word, which may go on */
  predicate HasFeatureCount(text: string) {
    HasCount(text, "bed") || HasCount(text, "bath") || HasCount(text, "car")
  }

  /**
   * How many of the four indicators of the HTTP copy of
   * `looksLikeAuctionResult` the text shows; its feature indicator is a
   * count, unlike the whole feature word of the other copies.
   */
  function HttpIndicatorCount(text: string): (n: nat)
    ensures n <= 4
    ensures n == IndicatorCount(text) - (if HasWord(Lower(text), FeatureWords) then 1 else 0)
                                     + (if HasFeatureCount(text) then 1 else 0)
  {
    (if HasPriceSign(text) then 1 else 0) +
    (if HasPostcode(text) then 1 else 0) +
    (if HasWord(Lower(text), IndicatorWords) then 1 else 0) +
    (if HasFeatureCount(text) then 1 else 0)
  }

  /** `looksLikeAuctionResult` of http-domain-scraper.ts: two of its four indicators */
  predicate HttpLooksLikeAuctionResult(text: string) {
    HttpIndicatorCount(text) >= 2
  }

  /** Exactly the texts with two of the four indicators pass; one indicator alone never does */
  lemma HttpLooksLikeAuctionResultNeedsTwo(text: string)
    ensures HttpLooksLikeAuctionResult(text) <==>
      (HasPriceSign(text) && HasPostcode(text)) ||
      (HasPriceSign(text) && HasWord(Lower(text), IndicatorWords)) ||
      (HasPriceSign(text) && HasFeatureCount(text)) ||
      (HasPostcode(text) && HasWord(Lower(text), IndicatorWords)) ||
      (HasPostcode(text) && HasFeatureCount(text)) ||
      (HasWord(Lower(text), IndicatorWords) && HasFeatureCount(text))
  {
  }

  /** The two detectors agree whenever the feature indicators agree, and a price with a postcode passes both */
  lemma DetectorsAgreeOnFeatures(text: string)
    ensures HasWord(Lower(text), FeatureWords) == HasFeatureCount(text) ==>
      (HttpLooksLikeAuctionResult(text) <==> LooksLikeAuctionResult(text))
    ensures HasPriceSign(text) && HasPostcode(text) ==>
      HttpLooksLikeAuctionResult(text) && LooksLikeAuctionResult(text)
  {
  }

  /** The texts `extractFromContentPatterns` converts: 50 to 1000 characters that look like an auction result */
  predicate IsContentPattern(text: string) {
    50 <= |text| <= 1000 && HttpLooksLikeAuctionResult(text)
  }

  /** `extractAuctionFromElement`: the record of an element's text */
  function ExtractAuctionFromElement(elementText: string, url: string, now: Date): (r: Option<RawAuctionData>)
    ensures r.Some? ==> r.value.source == Domain && r.value.auctionDate == now
    ensures r == ExtractAuctionFromText(elementText, url, now)
  {
    ExtractAuctionFromText(elementText, url, now)
  }

  /**
   * `extractFromStructuredElements`: what `extractAuctionFromElement` gives
   * for each element text, in order, the nulls dropped.
   */
  function RecordsFromTexts(texts: seq<string>, url: string, now: Date): (r: seq<RawAuctionData>)
    ensures |r| <= |texts|
    ensures forall k :: 0 <= k < |r| ==> r[k].source == Domain && r[k].auctionDate == now
  {
    Converted(texts, text => ExtractAuctionFromElement(text, url, now))
  }

  /** The element texts `extractFromContentPatterns` passes on, in order */
  function ContentPatternTexts(texts: seq<string>): (r: seq<string>)
    ensures |r| <= |texts|
    ensures forall k :: 0 <= k < |r| ==> IsContentPattern(r[k]) && r[k] in texts
    ensures forall j :: 0 <= j < |texts| && IsContentPattern(texts[j]) ==> texts[j] in r
    ensures |texts| == 1 ==> r == (if IsContentPattern(texts[0]) then texts else [])
  {
    if texts == [] then []
    else
      var rest := ContentPatternTexts(texts[1..]);
      assert forall j :: 1 <= j < |texts| ==> texts[j] == texts[1..][j - 1];
      if IsContentPattern(texts[0]) then [texts[0]] + rest else rest
  }

  /**
   * The content-pattern texts of a concatenation are those of each part in
   * turn: with the one-text case, the filter keeps document order and repeats.
   */
  lemma {:induction false} ContentPatternTextsAppend(a: seq<string>, b: seq<string>)
    ensures ContentPatternTexts(a + b) == ContentPatternTexts(a) + ContentPatternTexts(b)
    decreases |a|
  {
    if a == [] {
      assert a + b == b;
    } else {
      var head := (if IsContentPattern(a[0]) then [a[0]] else []);
      assert ContentPatternTexts(a + b) == head + ContentPatternTexts(a[1..] + b) by {
        assert a + b == [a[0]] + (a[1..] + b);
        ContentPatternTextsCons(a[0], a[1..] + b);
      }
      assert ContentPatternTexts(a) == head + ContentPatternTexts(a[1..]);
      ContentPatternTextsAppend(a[1..], b);
      ConcatAssociative(head, ContentPatternTexts(a[1..]), ContentPatternTexts(b));
    }
  }

  /** One more text at the front adds its own part at the front */
  lemma ContentPatternTextsCons(x: string, xs: seq<string>)
    ensures ContentPatternTexts([x] + xs) == (if IsContentPattern(x) then [x] else []) + ContentPatternTexts(xs)
  {
    assert ([x] + xs)[1..] == xs;
  }

  /**
   * Every record is the record of one of the texts, every text with an
   * address-shaped segment gives its record, and one text gives exactly its
   * record or nothing.
   */
  lemma RecordsFromTextsSources(texts: seq<string>, url: string, now: Date)
    ensures forall k :: 0 <= k < |RecordsFromTexts(texts, url, now)| ==>
      exists j :: 0 <= j < |texts| && ExtractAuctionFromText(texts[j], url, now) == Some(RecordsFromTexts(texts, url, now)[k])
    ensures forall j :: 0 <= j < |texts| && ExtractAuctionFromText(texts[j], url, now).Some? ==>
      ExtractAuctionFromText(texts[j], url, now).value in RecordsFromTexts(texts, url, now)
    ensures |texts| == 1 ==>
      RecordsFromTexts(texts, url, now) ==
        (if ExtractAuctionFromText(texts[0], url, now).Some? then [ExtractAuctionFromText(texts[0], url, now).value] else [])
  {
    var r := RecordsFromTexts(texts, url, now);
    forall k | 0 <= k < |r|
      ensures exists j :: 0 <= j < |texts| && ExtractAuctionFromText(texts[j], url, now) == Some(r[k])
    {
      var j :| 0 <= j < |texts| && ExtractAuctionFromElement(texts[j], url, now) == Some(r[k]);
    }
  }

  /** The records of a concatenation of texts are those of each part in turn */
  lemma RecordsFromTextsAppend(a: seq<string>, b: seq<string>, url: string, now: Date)
    ensures RecordsFromTexts(a + b, url, now) == RecordsFromTexts(a, url, now) + RecordsFromTexts(b, url, now)
  {
    ConvertedAppend(a, b, text => ExtractAuctionFromElement(text, url, now));
  }

  /** `extractFromContentPatterns`: the records of the content-pattern texts */
  function ContentPatternRecords(texts: seq<string>, url: string, now: Date): (r: seq<RawAuctionData>)
    ensures |r| <= |ContentPatternTexts(texts)|
  {
    RecordsFromTexts(ContentPatternTexts(texts), url, now)
  }

  /** Every content-pattern record comes from a content-pattern text with an address-shaped segment */
  lemma ContentPatternRecordsFrom(texts: seq<string>, url: string, now: Date)
    ensures forall k :: 0 <= k < |ContentPatternRecords(texts, url, now)| ==>
      RecordOfPattern(texts, url, now, ContentPatternRecords(texts, url, now)[k])
  {
    var kept := ContentPatternTexts(texts);
    var r := RecordsFromTexts(kept, url, now);
    RecordsFromTextsSources(kept, url, now);
    forall k | 0 <= k < |r|
      ensures RecordOfPattern(texts, url, now, r[k])
    {
      var i :| 0 <= i < |kept| && ExtractAuctionFromText(kept[i], url, now) == Some(r[k]);
      assert kept[i] in texts && IsContentPattern(kept[i]);
    }
  }

  /** Every content-pattern text with an address-shaped segment gives its record */
  lemma ContentPatternRecordsComplete(texts: seq<string>, url: string, now: Date)
    ensures forall j :: 0 <= j < |texts| && IsContentPattern(texts[j]) && ExtractAuctionFromText(texts[j], url, now).Some? ==>
      ExtractAuctionFromText(texts[j], url, now).value in ContentPatternRecords(texts, url, now)
  {
    var kept := ContentPatternTexts(texts);
    forall j | 0 <= j < |texts| && IsContentPattern(texts[j]) && ExtractAuctionFromText(texts[j], url, now).Some?
      ensures ExtractAuctionFromText(texts[j], url, now).value in RecordsFromTexts(kept, url, now)
    {
      assert texts[j] in kept;
      ConvertedKeeps(kept, texts[j], text => ExtractAuctionFromElement(text, url, now));
    }
  }

  /** The content-pattern records of a concatenation are those of each part in turn */
  lemma ContentPatternRecordsAppend(a: seq<string>, b: seq<string>, url: string, now: Date)
    ensures ContentPatternRecords(a + b, url, now) == ContentPatternRecords(a, url, now) + ContentPatternRecords(b, url, now)
  {
    ContentPatternTextsAppend(a, b);
    RecordsFromTextsAppend(ContentPatternTexts(a), ContentPatternTexts(b), url, now);
  }

  // ------------------------------------------------------- embedded JSON

  /** A parsed JSON value (`JSON.parse` of the embedded state); numbers are kept as integers */
  datatype Json =
    | JNull
    | JBool(b: bool)
    | JNumber(n: int)
    | JString(s: string)
    | JArray(items: seq<Json>)
    | JObject(entries: seq<(string, Json)>)

  /** `typeof v === 'object'`: objects, arrays and null */
  predicate IsObjectLike(v: Json) { v.JNull? || v.JArray? || v.JObject? }

  /** `Object.keys(v)`: the keys of an object, the indices of an array, nothing for anything else */
  function Keys(v: Json): (keys: seq<string>)
    ensures v.JObject? ==> |keys| == |v.entries| && forall i :: 0 <= i < |keys| ==> keys[i] == v.entries[i].0
    ensures v.JArray? ==> |keys| == |v.items| && forall i :: 0 <= i < |keys| ==> keys[i] == NatToString(i)
    ensures !v.JObject? && !v.JArray? ==> keys == []
  {
    match v
    case JObject(entries) => seq(|entries|, i requires 0 <= i < |entries| => entries[i].0)
    case JArray(items) => seq(|items|, i requires 0 <= i < |items| => NatToString(i))
    case _ => []
  }

  const AuctionIndicators: seq<string> := ["address", "price", "result", "suburb", "sold", "property"]

  /** A key that, lower-cased, contains one of the indicators */
  predicate HasIndicator(key: string) {
    exists k :: 0 <= k < |AuctionIndicators| && Contains(Lower(key), AuctionIndicators[k])
  }

  /** Some of the keys has an indicator, as `keys.some(…)` finds it */
  predicate AnyHasIndicator(keys: seq<string>)
    decreases |keys|
  {
    keys != [] && (HasIndicator(keys[0]) || AnyHasIndicator(keys[1..]))
  }

  lemma {:induction false} AnyHasIndicatorExists(keys: seq<string>)
    ensures AnyHasIndicator(keys) <==> exists e :: 0 <= e < |keys| && HasIndicator(keys[e])
    decreases |keys|
  {
    if keys != [] {
      AnyHasIndicatorExists(keys[1..]);
      assert forall e :: 1 <= e < |keys| ==> keys[e] == keys[1..][e - 1];
    }
  }

  /** `looksLikeAuctionData`: some key, lower-cased, contains one of the indicators */
  predicate LooksLikeAuctionData(v: Json) {
    AnyHasIndicator(Keys(v))
  }

  /**
   * An object looks like auction data exactly when one of its keys, lower-cased,
   * contains an indicator; a string, number, boolean or null never does.
   */
  lemma LooksLikeAuctionDataIff(v: Json)
    ensures v.JObject? ==>
      (LooksLikeAuctionData(v) <==> exists i :: 0 <= i < |v.entries| && HasIndicator(v.entries[i].0))
    ensures !v.JObject? && !v.JArray? ==> !LooksLikeAuctionData(v)
  {
    AnyHasIndicatorExists(Keys(v));
  }

  /** The keys of an array are digits, which contain no indicator: an array never looks like auction data */
  lemma ArrayNeverLooksLikeAuctionData(items: seq<Json>)
    ensures !LooksLikeAuctionData(JArray(items))
  {
    var v := JArray(items);
    AnyHasIndicatorExists(Keys(v));
    forall e | 0 <= e < |Keys(v)| ensures !HasIndicator(Keys(v)[e]) {
      assert AllDigits(Keys(v)[e]);
      forall k | 0 <= k < |AuctionIndicators| ensures !Contains(Lower(Keys(v)[e]), AuctionIndicators[k]) {
        NoIndicatorInDigits(Lower(Keys(v)[e]), AuctionIndicators[k]);
      }
    }
  }

  /** A text of digits contains no pattern that starts with a letter */
  lemma NoIndicatorInDigits(key: string, w: string)
    requires AllDigits(key)
    requires |w| > 0 && 'a' <= w[0] <= 'z'
    ensures !Contains(key, w)
  {
    ContainsIff(key, w);
    forall i | 0 <= i <= |key| - |w|
      ensures !OccursAt(key, w, i)
    {
      assert key[i..i + |w|][0] == key[i];
      assert IsDigit(key[i]);
    }
  }

  ghost predicate AllLookLike(r: seq<Json>) { forall k :: 0 <= k < |r| ==> LooksLikeAuctionData(r[k]) }

  /**
   * The objects `findAuctionData` pushes for `v` (each would go through
   * `convertToAuctionData`): nothing unless `v` is an object or array, else
   * what its entry values give, in entry order. The value `v` itself is never tested.
   */
  function FoundIn(v: Json): seq<Json>
    decreases v, 1, 0
  {
    match v
    case JObject(entries) => FoundInValues(v, |entries|)
    case JArray(items) => FoundInValues(v, |items|)
    case _ => []
  }

  /** What the first `n` entry values of an object or array give */
  function FoundInValues(v: Json, n: nat): seq<Json>
    requires v.JObject? || v.JArray?
    requires n <= if v.JObject? then |v.entries| else |v.items|
    decreases v, 0, n
  {
    if n == 0 then []
    else
      match v
      case JObject(entries) => FoundInValues(v, n - 1) + FromEntryValue(entries[n - 1].1)
      case JArray(items) => FoundInValues(v, n - 1) + FromEntryValue(items[n - 1])
  }

  /**
   * One entry value: an array has each item treated in turn; an object (or
   * null) that looks like auction data is taken whole, otherwise searched.
   */
  function FromEntryValue(value: Json): seq<Json>
    decreases value, 2, 0
  {
    match value
    case JArray(items) => FromArrayItems(value, |items|)
    case JObject(_) => if LooksLikeAuctionData(value) then [value] else FoundIn(value)
    case JNull => if LooksLikeAuctionData(value) then [value] else FoundIn(value)
    case _ => []
  }

  /** The first `n` items of an array value */
  function FromArrayItems(value: Json, n: nat): seq<Json>
    requires value.JArray? && n <= |value.items|
    decreases value, 0, n
  {
    if n == 0 then [] else FromArrayItems(value, n - 1) + FromArrayItem(value.items[n - 1])
  }

  /** One array item: taken whole when it is an object that looks like auction data, otherwise searched */
  function FromArrayItem(item: Json): seq<Json>
    decreases item, 3, 0
  {
    if IsObjectLike(item) && LooksLikeAuctionData(item) then [item] else FoundIn(item)
  }

  /**
   * `findAuctionData`, the recursive closure of `parseJsonData`: it walks the
   * entries of `obj` and pushes onto `found` what they give.
   */
  method FindAuctionData(obj: Json, found: seq<Json>) returns (out: seq<Json>)
    ensures out == found + FoundIn(obj)
    decreases obj, 1, 0
  {
    match obj
    case JObject(entries) => out := VisitObjectEntries(obj, found);
    case JArray(items) => out := VisitArrayEntries(obj, found);
    case _ => out := found;
  }

  /** The entry loop of `findAuctionData` over an object */
  method VisitObjectEntries(obj: Json, found: seq<Json>) returns (out: seq<Json>)
    requires obj.JObject?
    ensures out == found + FoundInValues(obj, |obj.entries|)
    decreases obj, 0, 0
  {
    out := found;
    var i := 0;
    while i < |obj.entries|
      invariant 0 <= i <= |obj.entries|
      invariant out == found + FoundInValues(obj, i)
    {
      ghost var before := FoundInValues(obj, i);
      out := VisitEntryValue(obj.entries[i].1, out);
      ConcatAssociative(found, before, FromEntryValue(obj.entries[i].1));
      assert FoundInValues(obj, i + 1) == before + FromEntryValue(obj.entries[i].1);
      i := i + 1;
    }
  }

  /** The entry loop of `findAuctionData` over an array, whose entries are its items */
  method VisitArrayEntries(obj: Json, found: seq<Json>) returns (out: seq<Json>)
    requires obj.JArray?
    ensures out == found + FoundInValues(obj, |obj.items|)
    decreases obj, 0, 0
  {
    out := found;
    var i := 0;
    while i < |obj.items|
      invariant 0 <= i <= |obj.items|
      invariant out == found + FoundInValues(obj, i)
    {
      ghost var before := FoundInValues(obj, i);
      out := VisitEntryValue(obj.items[i], out);
      ConcatAssociative(found, before, FromEntryValue(obj.items[i]));
      assert FoundInValues(obj, i + 1) == before + FromEntryValue(obj.items[i]);
      i := i + 1;
    }
  }

  /** The body of the entry loop of `findAuctionData`, for one entry value */
  method VisitEntryValue(value: Json, found: seq<Json>) returns (out: seq<Json>)
    ensures out == found + FromEntryValue(value)
    decreases value, 2, 0
  {
    match value
    case JArray(items) =>
      out := VisitArrayItems(value, found);
    case JObject(_) =>
      if LooksLikeAuctionData(value) {
        out := found + [value];
      } else {
        out := FindAuctionData(value, found);
      }
    case JNull =>
      out := found;
    case _ =>
      out := found;
  }

  /** The `forEach` over an array value */
  method VisitArrayItems(value: Json, found: seq<Json>) returns (out: seq<Json>)
    requires value.JArray?
    ensures out == found + FromArrayItems(value, |value.items|)
    decreases value, 0, 2
  {
    out := found;
    var j := 0;
    while j < |value.items|
      invariant 0 <= j <= |value.items|
      invariant out == found + FromArrayItems(value, j)
    {
      out := VisitNextItem(value, j, found, out);
      j := j + 1;
    }
  }

  /** One turn of the `forEach`: item `j` visited after the ones before it */
  method VisitNextItem(value: Json, j: nat, found: seq<Json>, sofar: seq<Json>) returns (out: seq<Json>)
    requires value.JArray? && j < |value.items|
    requires sofar == found + FromArrayItems(value, j)
    ensures out == found + FromArrayItems(value, j + 1)
    decreases value, 0, 1
  {
    out := VisitArrayItem(value.items[j], sofar);
    ConcatAssociative(found, FromArrayItems(value, j), FromArrayItem(value.items[j]));
  }

  /** The body of the `forEach` over an array value, for one item */
  method VisitArrayItem(item: Json, found: seq<Json>) returns (out: seq<Json>)
    ensures out == found + FromArrayItem(item)
    decreases item, 3, 0
  {
    if IsObjectLike(item) && LooksLikeAuctionData(item) {
      out := found + [item];
    } else {
      out := FindAuctionData(item, found);
    }
  }

  /** An object whose values are all plain is never itself converted, whatever its keys */
  lemma {:induction false} PlainObjectGivesNothing(entries: seq<(string, Json)>, n: nat)
    requires n <= |entries|
    requires forall i :: 0 <= i < |entries| ==> !IsObjectLike(entries[i].1)
    ensures FoundInValues(JObject(entries), n) == []
  {
    if n > 0 {
      PlainObjectGivesNothing(entries, n - 1);
      var value := entries[n - 1].1;
      assert !IsObjectLike(value);
      assert FromEntryValue(value) == [];
      assert FoundInValues(JObject(entries), n) == FoundInValues(JObject(entries), n - 1) + FromEntryValue(value);
    }
  }

  lemma AllLookLikeConcat(a: seq<Json>, b: seq<Json>)
    requires AllLookLike(a) && AllLookLike(b)
    ensures AllLookLike(a + b)
  {
    forall k | 0 <= k < |a + b| ensures LooksLikeAuctionData((a + b)[k]) {
      if k >= |a| {
        assert (a + b)[k] == b[k - |a|];
      }
    }
  }

  /** Everything the walk of `v` pushes looks like auction data */
  lemma {:induction false} FoundInLooksLike(v: Json)
    ensures AllLookLike(FoundIn(v))
    decreases v, 1, 0
  {
    match v
    case JObject(entries) => FoundInValuesLooksLike(v, |entries|);
    case JArray(items) => FoundInValuesLooksLike(v, |items|);
    case _ =>
  }

  /** Everything the first `n` entry values push looks like auction data */
  lemma {:induction false} FoundInValuesLooksLike(v: Json, n: nat)
    requires v.JObject? || v.JArray?
    requires n <= if v.JObject? then |v.entries| else |v.items|
    ensures AllLookLike(FoundInValues(v, n))
    decreases v, 0, n
  {
    if n > 0 {
      FoundInValuesLooksLike(v, n - 1);
      LastValueLooksLike(v, n);
    }
  }

  /** What the `n`-th entry value pushes looks like auction data, and so does all the first `n` push */
  lemma {:induction false} LastValueLooksLike(v: Json, n: nat)
    requires v.JObject? || v.JArray?
    requires 0 < n <= if v.JObject? then |v.entries| else |v.items|
    requires AllLookLike(FoundInValues(v, n - 1))
    ensures AllLookLike(FoundInValues(v, n))
    decreases v, 0, n - 1, 1
  {
    match v
    case JObject(entries) =>
      var value := entries[n - 1].1;
      assert entries[n - 1] in entries;
      FromEntryValueLooksLike(value);
      AllLookLikeConcat(FoundInValues(v, n - 1), FromEntryValue(value));
    case JArray(items) =>
      var value := items[n - 1];
      assert value in items;
      FromEntryValueLooksLike(value);
      AllLookLikeConcat(FoundInValues(v, n - 1), FromEntryValue(value));
  }

  /** Everything one entry value pushes looks like auction data */
  lemma {:induction false} FromEntryValueLooksLike(value: Json)
    ensures AllLookLike(FromEntryValue(value))
    decreases value, 2, 0
  {
    match value
    case JArray(items) => FromArrayItemsLooksLike(value, |items|);
    case JObject(_) => if !LooksLikeAuctionData(value) { FoundInLooksLike(value); }
    case JNull => if !LooksLikeAuctionData(value) { FoundInLooksLike(value); }
    case _ =>
  }

  /** Everything the first `n` items of an array value push looks like auction data */
  lemma {:induction false} FromArrayItemsLooksLike(value: Json, n: nat)
    requires value.JArray? && n <= |value.items|
    ensures AllLookLike(FromArrayItems(value, n))
    decreases value, 0, n
  {
    if n > 0 {
      var item := value.items[n - 1];
      var front := FromArrayItems(value, n - 1);
      var taken := FromArrayItem(item);
      FromArrayItemsLooksLike(value, n - 1);
      FromArrayItemLooksLike(item);
      assert AllLookLike(front) && AllLookLike(taken);
      AllLookLikeConcat(front, taken);
      assert FromArrayItems(value, n) == front + taken;
    }
  }

  /** Everything one array item pushes looks like auction data */
  lemma {:induction false} FromArrayItemLooksLike(item: Json)
    ensures AllLookLike(FromArrayItem(item))
    decreases item, 3, 0
  {
    if !(IsObjectLike(item) && LooksLikeAuctionData(item)) {
      FoundInLooksLike(item);
    }
  }

  /** The root is not tested: an address record at the top of the state yields nothing */
  lemma RootIsNeverTaken(address: string)
    ensures LooksLikeAuctionData(JObject([("address", JString(address))]))
    ensures FoundIn(JObject([("address", JString(address))])) == []
  {
    var v := JObject([("address", JString(address))]);
    LowerWithoutCapitals("address");
    ContainsWitness(Lower(Keys(v)[0]), AuctionIndicators[0], 0);
    assert HasIndicator(Keys(v)[0]);
    PlainObjectGivesNothing([("address", JString(address))], 1);
  }

  /** A value that looks like auction data is taken whole, and nothing inside it is searched */
  lemma TakenWhole(key: string, value: Json)
    requires value.JObject? && LooksLikeAuctionData(value)
    ensures FoundIn(JObject([(key, value)])) == [value]
  {
    var v := JObject([(key, value)]);
    assert FoundInValues(v, 1) == FoundInValues(v, 0) + FromEntryValue(value);
  }

  /** A nested object that does not look like auction data is searched in its turn */
  lemma SearchedWithin(key: string, value: Json)
    requires value.JObject? && !LooksLikeAuctionData(value)
    ensures FoundIn(JObject([(key, value)])) == FoundIn(value)
  {
    var v := JObject([(key, value)]);
    assert FoundInValues(v, 1) == FoundInValues(v, 0) + FromEntryValue(value);
  }

  /**
   * `parseJsonData`: what `convertToAuctionData` makes of each object the walk
   * finds, the nulls dropped; `convert` stands for `convertToAuctionData`.
   */
  function ParseJsonData(data: Json, convert: Json -> Option<RawAuctionData>): (r: seq<RawAuctionData>)
    ensures |r| <= |FoundIn(data)|
    ensures forall k :: 0 <= k < |r| ==> exists j :: 0 <= j < |FoundIn(data)| && convert(FoundIn(data)[j]) == Some(r[k])
    ensures forall j :: 0 <= j < |FoundIn(data)| && convert(FoundIn(data)[j]).Some? ==> convert(FoundIn(data)[j]).value in r
  {
    Converted(FoundIn(data), convert)
  }

  /** What `convert` gives for each of `objs`, in order, the nulls dropped */
  function Converted<A>(objs: seq<A>, convert: A -> Option<RawAuctionData>): (r: seq<RawAuctionData>)
    ensures |r| <= |objs|
    ensures forall k :: 0 <= k < |r| ==> exists j :: 0 <= j < |objs| && convert(objs[j]) == Some(r[k])
    ensures forall j :: 0 <= j < |objs| && convert(objs[j]).Some? ==> convert(objs[j]).value in r
    ensures |objs| == 1 ==> r == (if convert(objs[0]).Some? then [convert(objs[0]).value] else [])
  {
    if objs == [] then []
    else
      var front := Converted(objs[..|objs| - 1], convert);
      var last := convert(objs[|objs| - 1]);
      var r := front + (if last.Some? then [last.value] else []);
      assert forall k :: 0 <= k < |front| ==> r[k] == front[k];
      assert forall j :: 0 <= j < |objs| - 1 ==> objs[..|objs| - 1][j] == objs[j];
      r
  }

  /** An object of the list whose conversion is not null has that conversion among the results */
  lemma ConvertedKeeps<A>(objs: seq<A>, x: A, convert: A -> Option<RawAuctionData>)
    requires x in objs && convert(x).Some?
    ensures convert(x).value in Converted(objs, convert)
  {
  }

  /**
   * The conversions of a concatenation are those of each part in turn; with
   * the one-object case, every non-null conversion appears once, in order.
   */
  lemma {:induction false} ConvertedAppend<A>(a: seq<A>, b: seq<A>, convert: A -> Option<RawAuctionData>)
    ensures Converted(a + b, convert) == Converted(a, convert) + Converted(b, convert)
    decreases |b|
  {
    if b == [] {
      assert a + b == a;
    } else {
      var front, last := b[..|b| - 1], b[|b| - 1];
      var tail := (if convert(last).Some? then [convert(last).value] else []);
      assert Converted(a + b, convert) == Converted(a + front, convert) + tail by {
        assert a + b == (a + front) + [last];
        ConvertedSnoc(a + front, last, convert);
      }
      assert Converted(b, convert) == Converted(front, convert) + tail;
      ConvertedAppend(a, front, convert);
      ConcatAssociative(Converted(a, convert), Converted(front, convert), tail);
    }
  }

  /** One more object at the back adds its own conversion at the back */
  lemma ConvertedSnoc<A>(xs: seq<A>, x: A, convert: A -> Option<RawAuctionData>)
    ensures Converted(xs + [x], convert) == Converted(xs, convert) + (if convert(x).Some? then [convert(x).value] else [])
  {
    assert (xs + [x])[..|xs|] == xs;
  }

  // ------------------------------------------------------ key patterns

  /** `key.toLowerCase().includes(pattern.toLowerCase())` */
  predicate KeyMatches(key: string, pattern: string) { Contains(Lower(key), Lower(pattern)) }

  /** Index of the first entry, from index `e` on, whose key matches `pattern` */
  function FirstKeyFrom<V>(entries: seq<(string, V)>, pattern: string, e: nat): (r: Option<nat>)
    requires e <= |entries|
    ensures r.Some? ==> e <= r.value < |entries| && KeyMatches(entries[r.value].0, pattern)
    ensures r.Some? ==> forall i :: e <= i < r.value ==> !KeyMatches(entries[i].0, pattern)
    ensures r.None? ==> forall i :: e <= i < |entries| ==> !KeyMatches(entries[i].0, pattern)
    decreases |entries| - e
  {
    if e == |entries| then None
    else if KeyMatches(entries[e].0, pattern) then Some(e)
    else FirstKeyFrom(entries, pattern, e + 1)
  }

  /**
   * The indices `(p, e)` at which `findValueByKeyPattern` returns, trying the
   * patterns from index `i` on: `p` is the first pattern that some key
   * matches, `e` the first entry whose key matches it.
   */
  function KeyPatternMatch<V>(entries: seq<(string, V)>, patterns: seq<string>, i: nat): (r: Option<(nat, nat)>)
    requires i <= |patterns|
    ensures r.Some? ==> i <= r.value.0 < |patterns| && FirstKeyFrom(entries, patterns[r.value.0], 0) == Some(r.value.1)
    ensures r.Some? ==> forall q :: i <= q < r.value.0 ==> FirstKeyFrom(entries, patterns[q], 0).None?
    ensures r.None? ==> forall q :: i <= q < |patterns| ==> FirstKeyFrom(entries, patterns[q], 0).None?
    decreases |patterns| - i
  {
    if i == |patterns| then None
    else
      match FirstKeyFrom(entries, patterns[i], 0)
      case Some(e) => Some((i, e))
      case None => KeyPatternMatch(entries, patterns, i + 1)
  }

  /**
   * `findValueByKeyPattern`: the patterns in priority order; the first one
   * that some key contains, case-insensitively, gives the value of the first
   * such entry; null when no pattern matches a key.
   */
  function KeyPatternValue<V>(entries: seq<(string, V)>, patterns: seq<string>): (r: Option<V>)
    ensures r.None? <==> forall p, e :: 0 <= p < |patterns| && 0 <= e < |entries| ==> !KeyMatches(entries[e].0, patterns[p])
    ensures r.Some? ==> exists p, e :: 0 <= p < |patterns| && 0 <= e < |entries| && KeyMatches(entries[e].0, patterns[p]) && r.value == entries[e].1
  {
    match KeyPatternMatch(entries, patterns, 0)
    case None => None
    case Some(pe) => Some(entries[pe.1].1)
  }

  /** The nested loops of `findValueByKeyPattern`, returning as soon as a key matches */
  method FindValueByKeyPattern<V>(entries: seq<(string, V)>, patterns: seq<string>) returns (r: Option<V>)
    ensures r == KeyPatternValue(entries, patterns)
  {
    var p := 0;
    while p < |patterns|
      invariant 0 <= p <= |patterns|
      invariant KeyPatternMatch(entries, patterns, 0) == KeyPatternMatch(entries, patterns, p)
    {
      var e := 0;
      while e < |entries|
        invariant 0 <= e <= |entries|
        invariant forall i :: 0 <= i < e ==> !KeyMatches(entries[i].0, patterns[p])
      {
        if KeyMatches(entries[e].0, patterns[p]) {
          assert FirstKeyFrom(entries, patterns[p], 0) == Some(e);
          return Some(entries[e].1);
        }
        e := e + 1;
      }
      p := p + 1;
    }
    return None;
  }

  /** The search from pattern `i` stops at the first pattern `p` at or after `i` that some key matches */
  lemma {:induction false} KeyPatternMatchStopsAt<V>(entries: seq<(string, V)>, patterns: seq<string>, i: nat, p: nat)
    requires i <= p < |patterns| && FirstKeyFrom(entries, patterns[p], 0).Some?
    requires forall q :: i <= q < p ==> FirstKeyFrom(entries, patterns[q], 0).None?
    ensures KeyPatternMatch(entries, patterns, i) == Some((p, FirstKeyFrom(entries, patterns[p], 0).value))
    decreases p - i
  {
    if i < p {
      KeyPatternMatchStopsAt(entries, patterns, i + 1, p);
    }
  }

  /**
   * An earlier pattern wins over a later one whatever the order of the
   * entries, and within a pattern the first matching entry wins
   */
  lemma EarlierPatternWins<V>(entries: seq<(string, V)>, patterns: seq<string>, p: nat, e: nat)
    requires p < |patterns| && e < |entries| && KeyMatches(entries[e].0, patterns[p])
    requires forall q, i :: 0 <= q < p && 0 <= i < |entries| ==> !KeyMatches(entries[i].0, patterns[q])
    requires forall i :: 0 <= i < e ==> !KeyMatches(entries[i].0, patterns[p])
    ensures KeyPatternValue(entries, patterns) == Some(entries[e].1)
  {
    assert FirstKeyFrom(entries, patterns[p], 0) == Some(e);
    KeyPatternMatchStopsAt(entries, patterns, 0, p);
  }

  // ------------------------------------------------------ de-duplication

  /** The key of `removeDuplicates`: `${address}-${suburb}` */
  function DedupKey(a: RawAuctionData): string { a.address + "-" + a.suburb }

  /** The keys of a list of records */
  function KeysOf(xs: seq<RawAuctionData>): set<string>
  {
    if xs == [] then {} else KeysOf(xs[..|xs| - 1]) + {DedupKey(xs[|xs| - 1])}
  }

  lemma {:induction false} KeysOfIff(xs: seq<RawAuctionData>, key: string)
    ensures key in KeysOf(xs) <==> exists i :: 0 <= i < |xs| && DedupKey(xs[i]) == key
  {
    if xs != [] {
      var front := xs[..|xs| - 1];
      KeysOfIff(front, key);
      assert forall i :: 0 <= i < |front| ==> front[i] == xs[i];
    }
  }

  lemma {:induction false} KeysOfAppend(xs: seq<RawAuctionData>, ys: seq<RawAuctionData>)
    ensures KeysOf(xs + ys) == KeysOf(xs) + KeysOf(ys)
    decreases |ys|
  {
    if ys == [] {
      assert xs + ys == xs;
    } else {
      var front := ys[..|ys| - 1];
      assert (xs + ys)[..|xs + ys| - 1] == xs + front;
      assert (xs + ys)[|xs + ys| - 1] == ys[|ys| - 1];
      KeysOfAppend(xs, front);
    }
  }

  /**
   * What `removeDuplicates` keeps of `xs`: the records in order, each unless
   * an earlier record has its key.
   */
  function Unique(xs: seq<RawAuctionData>): seq<RawAuctionData>
  {
    if xs == [] then []
    else
      var front := xs[..|xs| - 1];
      var last := xs[|xs| - 1];
      Unique(front) + (if DedupKey(last) in KeysOf(front) then [] else [last])
  }

  /** `removeDuplicates`: the `filter` over the results with a `seen` set of keys */
  method RemoveDuplicates(results: seq<RawAuctionData>) returns (unique: seq<RawAuctionData>)
    ensures unique == Unique(results)
  {
    var seen: set<string> := {};
    unique := [];
    var i := 0;
    while i < |results|
      invariant 0 <= i <= |results|
      invariant seen == KeysOf(results[..i])
      invariant unique == Unique(results[..i])
    {
      var key := DedupKey(results[i]);
      assert results[..i + 1][..i] == results[..i];
      if key !in seen {
        unique := unique + [results[i]];
        seen := seen + {key};
      }
      i := i + 1;
    }
    assert results[..|results|] == results;
  }

  /** No record before index `j` has the key of `xs[j]` */
  predicate FirstOfKey(xs: seq<RawAuctionData>, j: nat)
    requires j < |xs|
  {
    forall i :: 0 <= i < j ==> DedupKey(xs[i]) != DedupKey(xs[j])
  }

  /** The records among the first `n` that are the first of their key, in order */
  function FirstOccurrences(xs: seq<RawAuctionData>, n: nat): seq<RawAuctionData>
    requires n <= |xs|
  {
    if n == 0 then [] else FirstOccurrences(xs, n - 1) + (if FirstOfKey(xs, n - 1) then [xs[n - 1]] else [])
  }

  /** The output is the input filtered to the first record of each key: a subsequence keeping the first of every key */
  lemma {:induction false} UniqueKeepsFirstOfEachKey(xs: seq<RawAuctionData>, n: nat)
    requires n <= |xs|
    ensures Unique(xs[..n]) == FirstOccurrences(xs, n)
  {
    if n > 0 {
      var front := xs[..n][..n - 1];
      assert front == xs[..n - 1];
      UniqueKeepsFirstOfEachKey(xs, n - 1);
      KeysOfIff(front, DedupKey(xs[n - 1]));
    }
  }

  /** No two records of a list share a key */
  predicate DistinctKeys(ys: seq<RawAuctionData>) {
    forall i, j :: 0 <= i < j < |ys| ==> DedupKey(ys[i]) != DedupKey(ys[j])
  }

  /** Every key of the input appears in the output, and no other */
  lemma {:induction false} UniqueKeepsEveryKey(xs: seq<RawAuctionData>)
    ensures KeysOf(Unique(xs)) == KeysOf(xs)
  {
    if xs != [] {
      var front := xs[..|xs| - 1];
      var last := xs[|xs| - 1];
      UniqueKeepsEveryKey(front);
      var tail := if DedupKey(last) in KeysOf(front) then [] else [last];
      KeysOfAppend(Unique(front), tail);
      assert KeysOf([last]) == {DedupKey(last)} by { assert [last][..0] == []; }
    }
  }

  /** No key repeats in the output */
  lemma {:induction false} UniqueHasDistinctKeys(xs: seq<RawAuctionData>)
    ensures DistinctKeys(Unique(xs))
  {
    if xs != [] {
      var front := xs[..|xs| - 1];
      var last := xs[|xs| - 1];
      UniqueHasDistinctKeys(front);
      UniqueKeepsEveryKey(front);
      if DedupKey(last) !in KeysOf(front) {
        var u := Unique(front);
        forall i | 0 <= i < |u| ensures DedupKey(u[i]) != DedupKey(last) {
          KeysOfIff(u, DedupKey(u[i]));
        }
        assert forall i :: 0 <= i < |u| ==> (u + [last])[i] == u[i];
      }
    }
  }

  /** A list without repeated keys is left as it is */
  lemma {:induction false} UniqueOfDistinct(ys: seq<RawAuctionData>)
    requires DistinctKeys(ys)
    ensures Unique(ys) == ys
  {
    if ys != [] {
      var front := ys[..|ys| - 1];
      assert DistinctKeys(front) by {
        assert forall i :: 0 <= i < |front| ==> front[i] == ys[i];
      }
      UniqueOfDistinct(front);
      KeysOfIff(front, DedupKey(ys[|ys| - 1]));
      assert ys == front + [ys[|ys| - 1]];
    }
  }

  /** Removing duplicates twice is removing them once */
  lemma UniqueIdempotent(xs: seq<RawAuctionData>)
    ensures Unique(Unique(xs)) == Unique(xs)
  {
    UniqueHasDistinctKeys(xs);
    UniqueOfDistinct(Unique(xs));
  }

  // ----------------------------------------------------------- scrapeUrl

  /** A `<script>` of the page: its text, and the state object parsed from it, if any */
  datatype ScriptTag = ScriptTag(content: string, state: Option<Json>)

  /**
   * The fetched page as the strategies see it: its scripts, the texts of the
   * elements the structured selectors match (selector by selector), and the
   * text of every element; or the error `fetch` or a non-OK status threw.
   */
  datatype Page =
    | Fetched(scripts: seq<ScriptTag>, structured: seq<string>, elements: seq<string>)
    | FetchFailed(message: Option<string>)

  /** A script that mentions 'auction' or 'property' and holds a parsed `window.__INITIAL_STATE__` object */
  predicate IsStateScript(script: ScriptTag) {
    (Contains(script.content, "auction") || Contains(script.content, "property")) && script.state.Some?
  }

  /** `extractFromScriptTags`: the records of the state of every script that mentions 'auction' or 'property' */
  function ScriptRecords(scripts: seq<ScriptTag>, convert: Json -> Option<RawAuctionData>): (r: seq<RawAuctionData>)
    ensures scripts == [] ==> r == []
    ensures |scripts| == 1 ==>
      r == (if IsStateScript(scripts[0]) then ParseJsonData(scripts[0].state.value, convert) else [])
    ensures forall x :: x in r ==>
      exists j :: 0 <= j < |scripts| && IsStateScript(scripts[j]) && x in ParseJsonData(scripts[j].state.value, convert)
  {
    if scripts == [] then []
    else
      var script := scripts[0];
      var these := if IsStateScript(script) then ParseJsonData(script.state.value, convert) else [];
      var rest := ScriptRecords(scripts[1..], convert);
      assert forall j :: 1 <= j < |scripts| ==> scripts[j] == scripts[1..][j - 1];
      these + rest
  }

  /** One more script at the front adds its own records at the front */
  lemma ScriptRecordsCons(x: ScriptTag, xs: seq<ScriptTag>, convert: Json -> Option<RawAuctionData>)
    ensures ScriptRecords([x] + xs, convert) ==
      (if IsStateScript(x) then ParseJsonData(x.state.value, convert) else []) + ScriptRecords(xs, convert)
  {
    assert ([x] + xs)[1..] == xs;
  }

  /** The records of a concatenation of scripts are those of each part in turn */
  lemma {:induction false} ScriptRecordsAppend(a: seq<ScriptTag>, b: seq<ScriptTag>, convert: Json -> Option<RawAuctionData>)
    ensures ScriptRecords(a + b, convert) == ScriptRecords(a, convert) + ScriptRecords(b, convert)
    decreases |a|
  {
    if a == [] {
      assert a + b == b;
    } else {
      var head := (if IsStateScript(a[0]) then ParseJsonData(a[0].state.value, convert) else []);
      assert ScriptRecords(a + b, convert) == head + ScriptRecords(a[1..] + b, convert) by {
        assert a + b == [a[0]] + (a[1..] + b);
        ScriptRecordsCons(a[0], a[1..] + b, convert);
      }
      assert ScriptRecords(a, convert) == head + ScriptRecords(a[1..], convert);
      ScriptRecordsAppend(a[1..], b, convert);
      ConcatAssociative(head, ScriptRecords(a[1..], convert), ScriptRecords(b, convert));
    }
  }

  /** The records of the three strategies, one after the other */
  function StrategyRecords(page: Page, url: string, now: Date, convert: Json -> Option<RawAuctionData>): seq<RawAuctionData>
    requires page.Fetched?
  {
    ScriptRecords(page.scripts, convert) + RecordsFromTexts(page.structured, url, now) +
      ContentPatternRecords(page.elements, url, now)
  }

  /** `x` is the state record of a script that mentions 'auction' or 'property' */
  ghost predicate RecordOfScript(scripts: seq<ScriptTag>, convert: Json -> Option<RawAuctionData>, x: RawAuctionData) {
    exists j :: 0 <= j < |scripts| && IsStateScript(scripts[j]) && x in ParseJsonData(scripts[j].state.value, convert)
  }

  /** `x` is the record of one of the texts */
  ghost predicate RecordOfText(texts: seq<string>, url: string, now: Date, x: RawAuctionData) {
    exists j :: 0 <= j < |texts| && ExtractAuctionFromText(texts[j], url, now) == Some(x)
  }

  /** `x` is the record of one of the texts that match a content pattern */
  ghost predicate RecordOfPattern(texts: seq<string>, url: string, now: Date, x: RawAuctionData) {
    exists t :: t in texts && IsContentPattern(t) && ExtractAuctionFromText(t, url, now) == Some(x)
  }

  /**
   * Every record the strategies give comes from the state of a script that
   * mentions 'auction' or 'property', from a structured element's text, or
   * from a content-pattern text.
   */
  lemma StrategyRecordsSources(page: Page, url: string, now: Date, convert: Json -> Option<RawAuctionData>)
    requires page.Fetched?
    ensures forall x :: x in StrategyRecords(page, url, now, convert) ==>
      RecordOfScript(page.scripts, convert, x) || RecordOfText(page.structured, url, now, x) || RecordOfPattern(page.elements, url, now, x)
  {
    forall x | x in StrategyRecords(page, url, now, convert)
      ensures RecordOfScript(page.scripts, convert, x) || RecordOfText(page.structured, url, now, x) || RecordOfPattern(page.elements, url, now, x)
    {
      StrategyRecordSource(page, url, now, convert, x);
    }
  }

  lemma StrategyRecordSource(page: Page, url: string, now: Date, convert: Json -> Option<RawAuctionData>, x: RawAuctionData)
    requires page.Fetched? && x in StrategyRecords(page, url, now, convert)
    ensures RecordOfScript(page.scripts, convert, x) || RecordOfText(page.structured, url, now, x) || RecordOfPattern(page.elements, url, now, x)
  {
    var scripts := ScriptRecords(page.scripts, convert);
    var structured := RecordsFromTexts(page.structured, url, now);
    var content := ContentPatternRecords(page.elements, url, now);
    assert x in scripts || x in structured || x in content;
    if x in scripts {
      assert RecordOfScript(page.scripts, convert, x);
    } else if x in structured {
      var k :| 0 <= k < |structured| && structured[k] == x;
      RecordsFromTextsSources(page.structured, url, now);
      assert RecordOfText(page.structured, url, now, x);
    } else {
      var k :| 0 <= k < |content| && content[k] == x;
      ContentPatternRecordsFrom(page.elements, url, now);
      assert RecordOfPattern(page.elements, url, now, x);
    }
  }

  /**
   * `scrapeUrl`: the strategies' records with the duplicates removed, or a
   * failure carrying the error's message ('Unknown error' for a thrown
   * non-Error) and no data.
   */
  method ScrapeUrl(page: Page, url: string, now: Date, convert: Json -> Option<RawAuctionData>) returns (result: ScraperResult)
    ensures page.FetchFailed? ==>
      result == ScraperResult(false, None, Some(page.message.GetOr("Unknown error")), 0)
    ensures page.Fetched? ==>
      && result.success && result.error.None?
      && result.data == Some(Unique(StrategyRecords(page, url, now, convert)))
      && result.recordCount == |result.data.value|
      && DistinctKeys(result.data.value)
      && KeysOf(result.data.value) == KeysOf(StrategyRecords(page, url, now, convert))
  {
    if page.FetchFailed? {
      return ScraperResult(false, None, Some(page.message.GetOr("Unknown error")), 0);
    }
    var results := StrategyRecords(page, url, now, convert);
    var unique := RemoveDuplicates(results);
    UniqueHasDistinctKeys(results);
    UniqueKeepsEveryKey(results);
    result := ScraperResult(true, Some(unique), None, |unique|);
  }
}
