/**
 * Field extractors that are written identically in several scraper classes
 * (domain-scraper.ts, http-domain-scraper.ts, enhanced-domain-scraper.ts and
 * rea-scraper.ts): each regular expression becomes a hand-written predicate,
 * and each `match` a leftmost search.
 */
module Extraction {
  import opened Wrappers
  import opened Text
  import opened Records

  const ResultWords: seq<string> := ["sold", "passed", "withdrawn", "cancelled"]
  const IndicatorWords: seq<string> := ["sold", "passed", "withdrawn"]
  const FeatureWords: seq<string> := ["bed", "bath", "car"]
  const PropertyTypes: seq<string> := ["house", "apartment", "unit", "townhouse", "villa", "duplex"]
  const StreetSuffixes: seq<string> :=
    ["street", "st", "road", "rd", "avenue", "ave", "drive", "dr", "lane", "ln", "court", "ct", "place", "pl"]
  const AgencyWords: seq<string> := ["real estate", "realty", "properties", "property", "group"]

  predicate IsDigitOrComma(c: char) { IsDigit(c) || c == ',' }

  // ---------------------------------------------------------------- prices

  /** `\$[\d,]` starts at `i` */
  predicate PriceSignAt(s: string, i: int) {
    0 <= i < |s| - 1 && s[i] == '$' && IsDigitOrComma(s[i + 1])
  }

  /** `/\$[\d,]+/.test(s)` */
  predicate HasPriceSign(s: string) {
    exists i :: 0 <= i < |s| && PriceSignAt(s, i)
  }

  function FindPriceSign(s: string, from: nat): (r: Option<nat>)
    ensures r.Some? ==> from <= r.value && PriceSignAt(s, r.value)
    ensures r.Some? ==> forall j :: from <= j < r.value ==> !PriceSignAt(s, j)
    ensures r.None? ==> forall j :: from <= j < |s| ==> !PriceSignAt(s, j)
    decreases |s| - from
  {
    if from >= |s| then None
    else if PriceSignAt(s, from) then Some(from)
    else FindPriceSign(s, from + 1)
  }

  /** `\.\d{2}` matches at `q` */
  predicate DecimalsAt(s: string, q: int) {
    0 <= q && q + 3 <= |s| && s[q] == '.' && IsDigit(s[q + 1]) && IsDigit(s[q + 2])
  }

  /**
   * `extractPrice`: the whole text of the leftmost match of
   * `/\$([\d,]+(?:\.\d{2})?)/`, or '' when there is none. The match runs from
   * the leftmost sign over the whole run of digits and commas after it (it ends
   * at `q`), and takes two decimals too when `.dd` follows that run.
   */
  function ExtractPrice(s: string): (r: string)
    ensures r == "" <==> !HasPriceSign(s)
    ensures r != "" ==> |r| >= 2 && r[0] == '$' && IsDigitOrComma(r[1])
    ensures r != "" ==> exists i :: PriceSignAt(s, i) && (forall j :: 0 <= j < i ==> !PriceSignAt(s, j)) && StartsWith(s[i..], r)
    ensures r != "" ==> exists i, q ::
      && 0 <= i && PriceSignAt(s, i) && (forall j :: 0 <= j < i ==> !PriceSignAt(s, j))
      && i + 1 < q <= |s| && (forall k :: i + 1 <= k < q ==> IsDigitOrComma(s[k])) && (q == |s| || !IsDigitOrComma(s[q]))
      && r == (if DecimalsAt(s, q) then s[i..q + 3] else s[i..q])
  {
    match FindPriceSign(s, 0)
    case None => ""
    case Some(i) =>
      var q := RunEnd(s, i + 1, IsDigitOrComma);
      var r := if DecimalsAt(s, q) then s[i..q + 3] else s[i..q];
      assert s[i..][..|r|] == r;
      assert i + 1 < q;
      r
  }

  // ---------------------------------------------------------------- results

  /**
   * The three-way result of a badge text, as rea-scraper.ts decides it and as
   * `mapResult` decides it on the lower-cased text: 'sold' iff the badge
   * mentions 'sold'; otherwise 'withdrawn' iff it mentions 'withdrawn' or
   * 'cancelled'; otherwise 'passed_in'.
   */
  function ClassifyBadge(badge: string): (r: AuctionResult)
    ensures r == Sold <==> Contains(badge, "sold")
    ensures r == Withdrawn <==> !Contains(badge, "sold") && (Contains(badge, "withdrawn") || Contains(badge, "cancelled"))
    ensures r == PassedIn <==> !Contains(badge, "sold") && !Contains(badge, "withdrawn") && !Contains(badge, "cancelled")
  {
    if Contains(badge, "sold") then Sold
    else if Contains(badge, "withdrawn") || Contains(badge, "cancelled") then Withdrawn
    else PassedIn
  }

  // ------------------------------------------------------------- postcodes

  /** `\b\d{4}\b` matches at `i` */
  predicate PostcodeAt(s: string, i: int) {
    && 0 <= i && i + 4 <= |s| && AllDigits(s[i..i + 4])
    && (i == 0 || !IsWordChar(s[i - 1]))
    && (i + 4 == |s| || !IsWordChar(s[i + 4]))
  }

  /** `/\b\d{4}\b/.test(s)` */
  predicate HasPostcode(s: string) {
    exists i :: 0 <= i < |s| && PostcodeAt(s, i)
  }

  function FindPostcode(s: string, from: nat): (r: Option<nat>)
    ensures r.Some? ==> from <= r.value && PostcodeAt(s, r.value)
    ensures r.Some? ==> forall j :: from <= j < r.value ==> !PostcodeAt(s, j)
    ensures r.None? ==> forall j :: from <= j < |s| ==> !PostcodeAt(s, j)
    decreases |s| - from
  {
    if from >= |s| then None
    else if PostcodeAt(s, from) then Some(from)
    else FindPostcode(s, from + 1)
  }

  /** `extractPostcode`: the leftmost four-digit word, or '' */
  function ExtractPostcode(s: string): (r: string)
    ensures r == "" <==> !HasPostcode(s)
    ensures r != "" ==> |r| == 4 && AllDigits(r)
    ensures r != "" ==> exists i :: PostcodeAt(s, i) && (forall j :: 0 <= j < i ==> !PostcodeAt(s, j)) && r == s[i..i + 4]
  {
    match FindPostcode(s, 0)
    case None => ""
    case Some(i) => s[i..i + 4]
  }

  // ------------------------------------------------------- keyword matches

  /**
   * `extractResult`: the leftmost of sold/passed/withdrawn/cancelled as a whole
   * word in any letter case, lower-cased, or '' when none occurs.
   */
  function ExtractResult(s: string): (r: string)
    ensures r == "" <==> !HasWord(Lower(s), ResultWords)
    ensures r != "" ==> r in ResultWords
    ensures r != "" ==> exists i :: WordAt(Lower(s), r, i) && forall j :: 0 <= j < i ==> !AnyWordAt(Lower(s), ResultWords, j)
  {
    FindWordFindsAny(Lower(s), ResultWords);
    match FindWord(Lower(s), ResultWords, 0)
    case None => ""
    case Some(found) => ResultWords[found.1]
  }

  /**
   * The leftmost of `words` as a whole word of the lower-cased text, in the
   * case the text itself has it.
   */
  function MatchedWord(s: string, words: seq<string>): Option<string> {
    match FindWord(Lower(s), words, 0)
    case None => None
    case Some(found) => Some(s[found.0..found.0 + |words[found.1]|])
  }

  /** There is a matched word iff the lower-cased text has one of `words` as a whole word */
  lemma MatchedWordExists(s: string, words: seq<string>)
    ensures MatchedWord(s, words).Some? <==> HasWord(Lower(s), words)
  {
    FindWordFindsAny(Lower(s), words);
  }

  /**
   * A matched word is one of `words` in some letter case, where the text has
   * it, and no word of `words` starts further left.
   */
  lemma MatchedWordCased(s: string, words: seq<string>)
    requires MatchedWord(s, words).Some?
    ensures Lower(MatchedWord(s, words).value) in words
    ensures var r := MatchedWord(s, words).value;
      exists i ::
        && 0 <= i && i + |r| <= |s| && r == s[i..i + |r|] && WordAt(Lower(s), Lower(r), i)
        && forall j :: 0 <= j < i ==> !AnyWordAt(Lower(s), words, j)
  {
    var f := FindWord(Lower(s), words, 0);
    var i, m := f.value.0, f.value.1;
    var r := s[i..i + |words[m]|];
    assert MatchedWord(s, words) == Some(r);
    WordSliceLowers(s, words, i, m);
    CasedWordAt(s, words, r, i);
  }

  /**
   * `extractPropertyType`: the leftmost of house/apartment/unit/townhouse/villa/duplex
   * as a whole word in any letter case, in the case the text has it, else 'House'.
   */
  function ExtractPropertyType(s: string): (r: string)
    ensures r != ""
    ensures Lower(r) in PropertyTypes
    ensures !HasWord(Lower(s), PropertyTypes) ==> r == "House"
    ensures HasWord(Lower(s), PropertyTypes) ==> exists i ::
      && 0 <= i && i + |r| <= |s| && r == s[i..i + |r|] && WordAt(Lower(s), Lower(r), i)
      && forall j :: 0 <= j < i ==> !AnyWordAt(Lower(s), PropertyTypes, j)
  {
    LowerHouse();
    MatchedWordExists(s, PropertyTypes);
    match MatchedWord(s, PropertyTypes)
    case None => "House"
    case Some(r) =>
      MatchedWordCased(s, PropertyTypes);
      r
  }

  lemma CasedWordAt(s: string, words: seq<string>, r: string, i: nat)
    requires i + |r| <= |s| && r == s[i..i + |r|] && WordAt(Lower(s), Lower(r), i)
    requires forall j :: 0 <= j < i ==> !AnyWordAt(Lower(s), words, j)
    ensures exists j ::
      && 0 <= j && j + |r| <= |s| && r == s[j..j + |r|] && WordAt(Lower(s), Lower(r), j)
      && forall k :: 0 <= k < j ==> !AnyWordAt(Lower(s), words, k)
  {
  }

  /** Where the lower-cased text has a word, the text itself has that word in some letter case */
  lemma WordSliceLowers(s: string, words: seq<string>, i: nat, m: nat)
    requires m < |words| && WordAt(Lower(s), words[m], i)
    ensures i + |words[m]| <= |s| && Lower(s[i..i + |words[m]|]) == words[m]
    ensures WordAt(Lower(s), Lower(s[i..i + |words[m]|]), i)
  {
    LowerSlice(s, i, i + |words[m]|);
  }

  lemma LowerHouse()
    ensures Lower("House") in PropertyTypes && "" !in PropertyTypes
  {
    var h := Lower("House");
    assert h[0] == 'h';
    assert h == PropertyTypes[0];
    assert forall m :: 0 <= m < |PropertyTypes| ==> |PropertyTypes[m]| > 0;
  }

  /**
   * `(\d+)\s*w` matches at `p`, case-insensitively: the digit run from `p`, the
   * white space after it, then `w`.
   */
  predicate CountAt(s: string, w: string, p: nat) {
    p < |s| && IsDigit(s[p]) && OccursAt(Lower(s), w, RunEnd(s, RunEnd(s, p, IsDigit), IsSpace))
  }

  /** `/\d+\s*w/i.test(s)` */
  predicate HasCount(s: string, w: string) {
    exists p: nat :: p < |s| && CountAt(s, w, p)
  }

  function FindCount(s: string, w: string, from: nat): (r: Option<nat>)
    ensures r.Some? ==> from <= r.value && CountAt(s, w, r.value)
    ensures r.Some? ==> forall p: nat :: from <= p < r.value ==> !CountAt(s, w, p)
    ensures r.None? ==> forall p: nat :: from <= p < |s| ==> !CountAt(s, w, p)
    decreases |s| - from
  {
    if from >= |s| then None
    else if CountAt(s, w, from) then Some(from)
    else
      var r := FindCount(s, w, from + 1);
      assert r.Some? ==> forall p: nat :: from <= p < r.value ==> !CountAt(s, w, p) by {
        if r.Some? {
          forall p: nat | from <= p < r.value ensures !CountAt(s, w, p) {
            if p != from {
              assert from + 1 <= p;
            }
          }
        }
      }
      r
  }

  /**
   * `extractBedrooms` (w = "bed"), `extractBathrooms` ("bath") and
   * `extractCarSpaces` ("car"): `parseInt` of the digits of the leftmost
   * match of `/(\d+)\s*w/i`, undefined when there is none.
   */
  function ExtractCount(s: string, w: string): (r: Option<nat>)
    ensures r.Some? <==> HasCount(s, w)
    ensures r.Some? ==> exists p: nat ::
      && CountAt(s, w, p)
      && (forall q: nat :: q < p ==> !CountAt(s, w, q))
      && r.value == DigitsValue(s[p..RunEnd(s, p, IsDigit)])
  {
    match FindCount(s, w, 0)
    case None => None
    case Some(p) =>
      var e := RunEnd(s, p, IsDigit);
      assert AllDigits(s[p..e]);
      Some(DigitsValue(s[p..e]))
  }

  // ------------------------------------------------------------- addresses

  /** Some digit stands before index `k` with no line terminator in between */
  predicate DigitEarlierOnLine(s: string, k: int)
    decreases k
  {
    0 < k <= |s| && (IsDigit(s[k - 1]) || (!IsLineTerminator(s[k - 1]) && DigitEarlierOnLine(s, k - 1)))
  }

  /** `/\d+.*\b(suffix0|suffix1|…)\b/i.test(s)` */
  predicate HasStreet(s: string, suffixes: seq<string>) {
    exists k :: 0 <= k <= |s| && DigitEarlierOnLine(s, k) && AnyWordAt(Lower(s), suffixes, k)
  }

  /** The lines of a text, trimmed: `text.split('\n').map(line => line.trim())` */
  function Lines(s: string): (r: seq<string>)
    ensures |r| >= 1
  {
    TrimAll(SplitOn(s, IsNewline))
  }

  /** The street test of `extractAddress` in domain-scraper.ts and rea-scraper.ts */
  predicate IsStreetLine(line: string) { HasStreet(line, StreetSuffixes) }

  /**
   * `extractAddress` of the Domain and REA scrapers: the first trimmed line that
   * looks like a number followed by a street suffix, otherwise the first
   * trimmed line, and null when that line is empty.
   */
  function ExtractAddressOrFirstLine(s: string): (r: Option<string>)
    ensures r.None? <==> (forall k :: 0 <= k < |Lines(s)| ==> !IsStreetLine(Lines(s)[k])) && Lines(s)[0] == ""
    ensures r.Some? ==> r.value != ""
    ensures (exists k :: 0 <= k < |Lines(s)| && IsStreetLine(Lines(s)[k])) ==> r == FirstSatisfying(Lines(s), IsStreetLine)
    ensures (exists k :: 0 <= k < |Lines(s)| && IsStreetLine(Lines(s)[k])) ==>
      r.Some? && exists j :: 0 <= j < |Lines(s)| && Lines(s)[j] == r.value && IsStreetLine(r.value) && forall i :: 0 <= i < j ==> !IsStreetLine(Lines(s)[i])
    ensures (forall k :: 0 <= k < |Lines(s)| ==> !IsStreetLine(Lines(s)[k])) ==> r == NonEmptyText(Lines(s)[0])
  {
    var lines := Lines(s);
    match FirstSatisfying(lines, IsStreetLine)
    case Some(line) =>
      StreetLineNotEmpty(line);
      Some(line)
    case None => NonEmptyText(lines[0])
  }

  /** A street line has at least a digit and a suffix */
  lemma StreetLineNotEmpty(line: string)
    requires IsStreetLine(line)
    ensures line != ""
  {
    var k :| 0 <= k <= |line| && DigitEarlierOnLine(line, k) && AnyWordAt(Lower(line), StreetSuffixes, k);
  }

  /** `text || null` */
  function NonEmptyText(s: string): (r: Option<string>)
    ensures r.Some? <==> s != ""
    ensures r.Some? ==> r.value == s
  {
    if s == "" then None else Some(s)
  }

  // ------------------------------------------------------- names, agencies

  /** `[A-Z][a-z]+` */
  predicate IsCapitalisedWord(w: string) {
    |w| >= 2 && IsUpperAscii(w[0]) && forall i :: 1 <= i < |w| ==> IsLowerAscii(w[i])
  }

  /** `/^[A-Z][a-z]+ [A-Z][a-z]+$/.test(s)` */
  predicate IsTwoCapitalisedWords(s: string) {
    exists k :: 0 < k < |s| && s[k] == ' ' && IsCapitalisedWord(s[..k]) && IsCapitalisedWord(s[k + 1..])
  }

  /** `extractAgentName` of the Domain and REA scrapers: the first trimmed line shaped 'Firstname Lastname' */
  function ExtractAgentNameByShape(s: string): (r: Option<string>)
    ensures r.Some? ==> IsTwoCapitalisedWords(r.value) && r.value in Lines(s)
    ensures r.Some? ==> exists j :: 0 <= j < |Lines(s)| && Lines(s)[j] == r.value && forall i :: 0 <= i < j ==> !IsTwoCapitalisedWords(Lines(s)[i])
    ensures r.None? ==> forall k :: 0 <= k < |Lines(s)| ==> !IsTwoCapitalisedWords(Lines(s)[k])
  {
    FirstSatisfying(Lines(s), IsTwoCapitalisedWords)
  }

  /** The agency test of the Domain and REA scrapers: a whole agency keyword, any letter case */
  predicate HasAgencyWord(line: string) { FindWord(Lower(line), AgencyWords, 0).Some? }

  /** The agency test is `/\b(real estate|realty|properties|property|group)\b/i` */
  lemma HasAgencyWordIsWordTest(line: string)
    ensures HasAgencyWord(line) <==> HasWord(Lower(line), AgencyWords)
  {
    FindWordFindsAny(Lower(line), AgencyWords);
  }

  /** `extractAgencyName` of the Domain and REA scrapers: the first trimmed line with an agency keyword */
  function ExtractAgencyNameByKeyword(s: string): (r: Option<string>)
    ensures r.Some? ==> HasAgencyWord(r.value) && r.value in Lines(s)
    ensures r.Some? ==> exists j :: 0 <= j < |Lines(s)| && Lines(s)[j] == r.value && forall i :: 0 <= i < j ==> !HasAgencyWord(Lines(s)[i])
    ensures r.None? ==> forall k :: 0 <= k < |Lines(s)| ==> !HasAgencyWord(Lines(s)[k])
  {
    FirstSatisfying(Lines(s), HasAgencyWord)
  }

  // --------------------------------------------------------- property links

  /**
   * `extractPropertyUrl` of the Domain and REA scrapers, for the site at
   * `origin`: a '/…' property link gains the origin and a link already on the
   * origin is kept; otherwise a link to the site is kept when it contains one
   * of the listing paths, gaining the origin unless it starts with 'http'.
   * `propertyHref` and `siteHref` are the `href`s of the first property link
   * and of the first link to the site, when the card has them.
   */
  function ExtractPropertyUrl(origin: string, listingPaths: seq<string>, propertyHref: Option<string>, siteHref: Option<string>): (r: Option<string>)
    requires StartsWith(origin, "http")
    ensures r.Some? ==> StartsWith(r.value, "http")
    ensures r.Some? ==> (propertyHref.Some? && EndsWith(r.value, propertyHref.value)) || (siteHref.Some? && EndsWith(r.value, siteHref.value))
    ensures r.Some? && !(propertyHref.Some? && (StartsWith(propertyHref.value, "/") || StartsWith(propertyHref.value, origin))) ==>
      siteHref.Some? && exists k :: 0 <= k < |listingPaths| && Contains(siteHref.value, listingPaths[k])
    ensures propertyHref.None? && siteHref.None? ==> r.None?
    ensures propertyHref.Some? && StartsWith(propertyHref.value, "/") ==> r == Some(origin + propertyHref.value)
    ensures propertyHref.Some? && !StartsWith(propertyHref.value, "/") && StartsWith(propertyHref.value, origin) ==> r == Some(propertyHref.value)
    ensures !(propertyHref.Some? && (StartsWith(propertyHref.value, "/") || StartsWith(propertyHref.value, origin))) ==>
      if siteHref.Some? && exists k :: 0 <= k < |listingPaths| && Contains(siteHref.value, listingPaths[k]) then
        r == Some(if StartsWith(siteHref.value, "http") then siteHref.value else origin + siteHref.value)
      else r.None?
  {
    if propertyHref.Some? && StartsWith(propertyHref.value, "/") then
      StartsWithAppend(origin, propertyHref.value, "http");
      Some(origin + propertyHref.value)
    else if propertyHref.Some? && StartsWith(propertyHref.value, origin) then
      assert propertyHref.value[..4] == origin[..4];
      Some(propertyHref.value)
    else if siteHref.Some? && exists k :: 0 <= k < |listingPaths| && Contains(siteHref.value, listingPaths[k]) then
      if StartsWith(siteHref.value, "http") then Some(siteHref.value)
      else
        StartsWithAppend(origin, siteHref.value, "http");
        Some(origin + siteHref.value)
    else None
  }

  // ------------------------------------------------------ auction detector

  /**
   * How many of the four indicators of `looksLikeAuctionResult` the text
   * shows: a price, a postcode, a result word, a feature word.
   */
  function IndicatorCount(s: string): (n: nat)
    ensures n <= 4
  {
    (if HasPriceSign(s) then 1 else 0) +
    (if HasPostcode(s) then 1 else 0) +
    (if HasWord(Lower(s), IndicatorWords) then 1 else 0) +
    (if HasWord(Lower(s), FeatureWords) then 1 else 0)
  }

  /** `looksLikeAuctionResult` of domain-scraper.ts, rea-scraper.ts and enhanced-domain-scraper.ts */
  predicate LooksLikeAuctionResult(s: string) {
    IndicatorCount(s) >= 2
  }

  /** Exactly the texts with two of the four indicators pass; one indicator alone never does */
  lemma LooksLikeAuctionResultNeedsTwo(s: string)
    ensures LooksLikeAuctionResult(s) <==>
      (HasPriceSign(s) && HasPostcode(s)) ||
      (HasPriceSign(s) && HasWord(Lower(s), IndicatorWords)) ||
      (HasPriceSign(s) && HasWord(Lower(s), FeatureWords)) ||
      (HasPostcode(s) && HasWord(Lower(s), IndicatorWords)) ||
      (HasPostcode(s) && HasWord(Lower(s), FeatureWords)) ||
      (HasWord(Lower(s), IndicatorWords) && HasWord(Lower(s), FeatureWords))
  {
  }
}
