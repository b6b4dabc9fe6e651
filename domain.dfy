/**
 * The pure parts of the Playwright scraper in src/lib/scrapers/domain-scraper.ts:
 * link completion, the suburb-link filter and the per-city loop of `scrapeCity`,
 * the suburb parse of the page URL, the price and result normalisation and the
 * emit filter of `scrapeSuburb`. A listing card is given as the texts its
 * selectors would find; the browser itself is not modelled.
 */
module DomainScraper {
  import opened Wrappers
  import opened Text
  import opened Records
  import opened Extraction

  const Origin: string := "https://www.domain.com.au"

  /** The listing paths a domain.com.au link must contain to count as a property URL */
  const DomainListingPaths: seq<string> := ["/property/", "/sale/", "/rent/"]

  predicate IsAbsolute(url: string) {
    StartsWith(url, "http://") || StartsWith(url, "https://")
  }

  // ------------------------------------------------------------ links

  /**
   * `constructUrl`: '' stays '', an http(s) link is kept, '//x' gains the
   * scheme, '/x' the origin, and any other link the origin and a slash.
   */
  function ConstructUrl(href: string): (url: string)
    ensures url == "" <==> href == ""
    ensures IsAbsolute(href) ==> url == href
    ensures href != "" ==> IsAbsolute(url)
    ensures |href| <= |url| && url[|url| - |href|..] == href
    ensures StartsWith(href, "//") ==> url == "https:" + href
    ensures StartsWith(href, "/") && !StartsWith(href, "//") ==> url == Origin + href
    ensures href != "" && !IsAbsolute(href) && !StartsWith(href, "/") ==> url == Origin + "/" + href
  {
    if href == "" then ""
    else if IsAbsolute(href) then
      assert href[0] == href[..7][0] == 'h';
      href
    else if StartsWith(href, "//") then
      assert ("https:" + href)[..8] == "https:" + href[..2];
      "https:" + href
    else if StartsWith(href, "/") then
      StartsWithAppend(Origin, href, "https://");
      Origin + href
    else
      StartsWithAppend(Origin + "/", href, "https://");
      Origin + "/" + href
  }

  /** Completing a link twice changes nothing more */
  lemma ConstructUrlIdempotent(href: string)
    ensures ConstructUrl(ConstructUrl(href)) == ConstructUrl(href)
  {
  }

  // ------------------------------------------------ suburb links of a city

  /** An anchor of a city page: its `href` attribute, if any, and its text */
  datatype SuburbLink = SuburbLink(href: Option<string>, text: string)

  /** What `scrapeCity` keeps of a suburb link */
  datatype SuburbTarget = SuburbTarget(url: string, suburbName: string)

  const StateMarkers: seq<string> := ["-nsw-", "-vic-", "-qld-", "-sa-", "-wa-", "-act-", "-tas-", "-nt-"]

  /** The link filter of `scrapeCity`: an auction-results link naming a state code */
  predicate IsSuburbHref(href: string) {
    Contains(href, "/auction-results/") && exists k :: 0 <= k < |StateMarkers| && Contains(href, StateMarkers[k])
  }

  predicate KeepsLink(link: SuburbLink) {
    link.href.Some? && link.href.value != "" && IsSuburbHref(link.href.value)
  }

  function Target(link: SuburbLink): SuburbTarget
    requires link.href.Some?
  {
    SuburbTarget(link.href.value, Trim(link.text))
  }

  /**
   * The `filter` and `map` of suburb links in `scrapeCity`, in page order: one
   * link gives its target exactly when it is kept (SuburbTargetsOfOne), and the
   * targets of a page are those of its first part followed by those of the
   * rest (SuburbTargetsAppend).
   */
  function SuburbTargets(links: seq<SuburbLink>): (r: seq<SuburbTarget>)
    ensures |r| <= |links|
    ensures forall k :: 0 <= k < |r| ==> IsSuburbHref(r[k].url)
    ensures forall k :: 0 <= k < |links| && KeepsLink(links[k]) ==> Target(links[k]) in r
    ensures (forall k :: 0 <= k < |links| ==> KeepsLink(links[k])) ==> |r| == |links|
  {
    if links == [] then []
    else
      var rest := SuburbTargets(links[1..]);
      assert forall k :: 1 <= k < |links| ==> links[k] == links[1..][k - 1];
      if KeepsLink(links[0]) then [Target(links[0])] + rest else rest
  }

  /** A single link gives its target when the filter keeps it, and nothing otherwise */
  lemma SuburbTargetsOfOne(link: SuburbLink)
    ensures SuburbTargets([link]) == if KeepsLink(link) then [Target(link)] else []
  {
    assert [link][1..] == [];
  }

  /** Filtering keeps the page order: the targets of two runs of links, one after the other */
  lemma {:induction false} SuburbTargetsAppend(a: seq<SuburbLink>, b: seq<SuburbLink>)
    ensures SuburbTargets(a + b) == SuburbTargets(a) + SuburbTargets(b)
  {
    if a == [] {
      assert a + b == b;
    } else {
      var rest := a[1..];
      assert a + b == [a[0]] + (rest + b);
      assert a == [a[0]] + rest;
      calc {
        SuburbTargets(a + b);
        { SuburbTargetsCons(a[0], rest + b); }
        SuburbTargets([a[0]]) + SuburbTargets(rest + b);
        { SuburbTargetsAppend(rest, b); }
        SuburbTargets([a[0]]) + (SuburbTargets(rest) + SuburbTargets(b));
        (SuburbTargets([a[0]]) + SuburbTargets(rest)) + SuburbTargets(b);
        { SuburbTargetsCons(a[0], rest); }
        SuburbTargets(a) + SuburbTargets(b);
      }
    }
  }

  lemma SuburbTargetsCons(link: SuburbLink, rest: seq<SuburbLink>)
    ensures SuburbTargets([link] + rest) == SuburbTargets([link]) + SuburbTargets(rest)
  {
    assert ([link] + rest)[1..] == rest;
    assert [link][1..] == [];
  }

  /** Every target comes from a kept link */
  lemma {:induction false} SuburbTargetsOnlyKept(links: seq<SuburbLink>)
    ensures forall t :: t in SuburbTargets(links) ==> exists k :: 0 <= k < |links| && KeepsLink(links[k]) && Target(links[k]) == t
  {
    if links != [] {
      SuburbTargetsOnlyKept(links[1..]);
      forall t | t in SuburbTargets(links)
        ensures exists k :: 0 <= k < |links| && KeepsLink(links[k]) && Target(links[k]) == t
      {
        if KeepsLink(links[0]) && t == Target(links[0]) {
        } else {
          assert t in SuburbTargets(links[1..]);
          var k :| 0 <= k < |links[1..]| && KeepsLink(links[1..][k]) && Target(links[1..][k]) == t;
          assert links[k + 1] == links[1..][k];
        }
      }
    }
  }

  /** `config.maxSuburbsPerCity || 10` */
  function SuburbLimit(maxSuburbsPerCity: nat): (n: nat)
    ensures n > 0
    ensures maxSuburbsPerCity > 0 ==> n == maxSuburbsPerCity
  {
    if maxSuburbsPerCity == 0 then 10 else maxSuburbsPerCity
  }

  /**
   * The records of several suburb pages, concatenated in order: one page gives
   * its own records, and the records of two runs of pages are those of the
   * first followed by those of the second (ConcatRecordsAppend).
   */
  function ConcatRecords(targets: seq<SuburbTarget>, scrapeSuburb: string -> seq<RawAuctionData>): (r: seq<RawAuctionData>)
    ensures forall k :: 0 <= k < |targets| ==> forall x :: x in scrapeSuburb(targets[k].url) ==> x in r
    ensures forall x :: x in r ==> exists k :: 0 <= k < |targets| && x in scrapeSuburb(targets[k].url)
    ensures |targets| == 1 ==> r == scrapeSuburb(targets[0].url)
  {
    if targets == [] then []
    else
      var front := targets[..|targets| - 1];
      var r := ConcatRecords(front, scrapeSuburb) + scrapeSuburb(targets[|targets| - 1].url);
      assert forall k :: 0 <= k < |front| ==> front[k] == targets[k];
      r
  }

  lemma {:induction false} ConcatRecordsAppend(a: seq<SuburbTarget>, b: seq<SuburbTarget>, scrapeSuburb: string -> seq<RawAuctionData>)
    ensures ConcatRecords(a + b, scrapeSuburb) == ConcatRecords(a, scrapeSuburb) + ConcatRecords(b, scrapeSuburb)
    decreases |b|
  {
    if b == [] {
      assert a + b == a;
    } else {
      var front := b[..|b| - 1];
      assert (a + b)[..|a + b| - 1] == a + front;
      assert (a + b)[|a + b| - 1] == b[|b| - 1];
      ConcatRecordsAppend(a, front, scrapeSuburb);
    }
  }

  /**
   * The suburb loop of `scrapeCity`: the first `maxSuburbsPerCity` (default 10)
   * suburb links are scraped one after another, their records appended in order,
   * with a wait of 1000 ms between two suburbs. Each suburb page's records are
   * given by `scrapeSuburb`.
   */
  method ScrapeCity(links: seq<SuburbLink>, maxSuburbsPerCity: nat, scrapeSuburb: string -> seq<RawAuctionData>)
    returns (results: seq<RawAuctionData>, delays: seq<nat>)
    ensures var all := SuburbTargets(links);
      var targets := all[..if |all| < SuburbLimit(maxSuburbsPerCity) then |all| else SuburbLimit(maxSuburbsPerCity)];
      && results == ConcatRecords(targets, scrapeSuburb)
      && |delays| == (if |targets| == 0 then 0 else |targets| - 1)
      && forall k :: 0 <= k < |delays| ==> delays[k] == 1000
  {
    var suburbData := SuburbTargets(links);
    var limit := SuburbLimit(maxSuburbsPerCity);
    var suburbsToProcess := suburbData[..if |suburbData| < limit then |suburbData| else limit];
    results := [];
    delays := [];
    var i := 0;
    while i < |suburbsToProcess|
      invariant 0 <= i <= |suburbsToProcess|
      invariant results == ConcatRecords(suburbsToProcess[..i], scrapeSuburb)
      invariant |delays| == (if i == 0 then 0 else i - 1) || (|delays| == i && i < |suburbsToProcess|)
      invariant i < |suburbsToProcess| ==> |delays| == i
      invariant forall k :: 0 <= k < |delays| ==> delays[k] == 1000
    {
      assert suburbsToProcess[..i + 1][..i] == suburbsToProcess[..i];
      results := results + scrapeSuburb(suburbsToProcess[i].url);
      if i < |suburbsToProcess| - 1 {
        delays := delays + [1000];
      }
      i := i + 1;
    }
    assert suburbsToProcess[..i] == suburbsToProcess;
  }

  // ------------------------------------------------- suburb from the URL

  /** Suburb, state and postcode as parsed from a suburb page's URL */
  datatype Location = Location(suburb: string, state: string, postcode: string)

  const NoLocation: Location := Location("", "", "")

  const ResultsPath: string := "/auction-results/"

  predicate NotSlash(c: char) { c != '/' }

  predicate NotHyphen(c: char) { c != '-' }

  predicate NotLineTerminator(c: char) { !IsLineTerminator(c) }

  predicate IsAsciiLetter(c: char) { IsLowerAscii(c) || IsUpperAscii(c) }

  /**
   * How many letters `([a-z]{2,3})` takes after the hyphen at `h`: three when
   * a third letter follows, since the greedy quantifier tries three first and
   * two letters followed by a letter cannot be followed by '-'.
   */
  function CodeLength(s: string, h: nat, letter: char -> bool): (n: nat)
    ensures n == 2 || n == 3
  {
    if h + 3 < |s| && letter(s[h + 3]) then 3 else 2
  }

  /** `-([a-z]{2,3})-([0-9]{4})` matches at `h` (a state code and a postcode) */
  predicate CodeTailAt(s: string, h: nat, letter: char -> bool) {
    var n := CodeLength(s, h, letter);
    && h + n + 6 <= |s|
    && s[h] == '-'
    && (forall k :: h + 1 <= k <= h + n ==> letter(s[k]))
    && s[h + n + 1] == '-'
    && AllDigits(s[h + n + 2..h + n + 6])
  }

  /** The state code and postcode of a tail that matches at `h` */
  function TailLocation(s: string, h: nat, letter: char -> bool, suburb: string): (loc: Location)
    requires forall c :: letter(c) ==> IsAsciiLetter(c)
    requires CodeTailAt(s, h, letter)
    ensures |loc.postcode| == 4 && AllDigits(loc.postcode)
    ensures 2 <= |loc.state| <= 3
    ensures forall k :: 0 <= k < |loc.state| ==> IsUpperAscii(loc.state[k])
    ensures loc.suburb == suburb
  {
    var n := CodeLength(s, h, letter);
    var code := s[h + 1..h + 1 + n];
    assert forall k :: 0 <= k < n ==> IsAsciiLetter(code[k]);
    Location(suburb, Upper(code), s[h + n + 2..h + n + 6])
  }

  /**
   * `/\/auction-results\/([^/]+)\/([^-]+)-([a-z]{2,3})-([0-9]{4})/` tried at
   * index `p`: a city segment, then a suburb that ends at the first hyphen, then
   * the tail. Neither group can give back characters, since what follows each
   * is the very character it excludes.
   */
  function PrimaryAt(s: string, p: nat): (r: Option<Location>)
    ensures r.Some? ==> |r.value.postcode| == 4 && AllDigits(r.value.postcode)
    ensures r.Some? ==> forall k :: 0 <= k < |r.value.suburb| ==> r.value.suburb[k] != '-'
  {
    if !OccursAt(s, ResultsPath, p) then None
    else
      var a := p + |ResultsPath|;
      var c := RunEnd(s, a, NotSlash);
      if c == a || c == |s| then None
      else
        var h := RunEnd(s, c + 1, NotHyphen);
        if h == c + 1 || !CodeTailAt(s, h, IsLowerAscii) then None
        else Some(TailLocation(s, h, IsLowerAscii, s[c + 1..h]))
  }

  /** The leftmost match of the primary pattern at or after `from` */
  function PrimaryFrom(s: string, from: nat): (r: Option<Location>)
    ensures r.Some? ==> exists p :: from <= p <= |s| && PrimaryAt(s, p) == r && forall q :: from <= q < p ==> PrimaryAt(s, q).None?
    ensures r.None? ==> forall p :: from <= p <= |s| ==> PrimaryAt(s, p).None?
    decreases |s| - from
  {
    if from > |s| then None
    else if PrimaryAt(s, from).Some? then PrimaryAt(s, from)
    else PrimaryFrom(s, from + 1)
  }

  /** The largest `h` in `(p, top]` where a case-insensitive tail matches: the greedy `(.+)` */
  function LastTail(s: string, p: nat, top: nat): (r: Option<nat>)
    ensures r.Some? ==> p < r.value <= top && CodeTailAt(s, r.value, IsAsciiLetter)
    ensures r.Some? ==> forall h :: r.value < h <= top ==> !CodeTailAt(s, h, IsAsciiLetter)
    ensures r.None? ==> forall h :: p < h <= top ==> !CodeTailAt(s, h, IsAsciiLetter)
    decreases top
  {
    if top <= p then None
    else if CodeTailAt(s, top, IsAsciiLetter) then Some(top)
    else LastTail(s, p, top - 1)
  }

  /**
   * `/(.+)-([a-z]{2,3})-([0-9]{4})/i` tried at index `p`: the suburb runs to the
   * last hyphen on the same line that starts a tail.
   */
  function FallbackAt(s: string, p: nat): (r: Option<Location>)
    ensures r.Some? ==> |r.value.postcode| == 4 && AllDigits(r.value.postcode)
    ensures r.Some? ==> forall k :: 0 <= k < |r.value.state| ==> IsUpperAscii(r.value.state[k])
    ensures r.Some? ==> forall k :: 0 <= k < |r.value.suburb| ==> r.value.suburb[k] != '-'
  {
    if p >= |s| then None
    else
      match LastTail(s, p, RunEnd(s, p, NotLineTerminator))
      case None => None
      case Some(h) => Some(TailLocation(s, h, IsAsciiLetter, HyphensToSpaces(s[p..h])))
  }

  function FallbackFrom(s: string, from: nat): (r: Option<Location>)
    ensures r.Some? ==> exists p :: from <= p < |s| && FallbackAt(s, p) == r && forall q :: from <= q < p ==> FallbackAt(s, q).None?
    ensures r.None? ==> forall p :: from <= p < |s| ==> FallbackAt(s, p).None?
    decreases |s| - from
  {
    if from >= |s| then None
    else if FallbackAt(s, from).Some? then FallbackAt(s, from)
    else FallbackFrom(s, from + 1)
  }

  predicate NonEmptyString(s: string) { s != "" }

  /** The last non-empty '/'-separated part of a URL, as `split('/').filter(p => p)` leaves it */
  function LastPart(url: string): (r: Option<string>)
    ensures r.Some? ==> r.value != "" && forall k :: 0 <= k < |r.value| ==> r.value[k] != '/'
    ensures r.None? <==> forall k :: 0 <= k < |url| ==> url[k] == '/'
  {
    var parts := SplitOn(url, IsSlash);
    SplitOnPieces(url, IsSlash);
    match LastWhere(parts, NonEmptyString)
    case None => None
    case Some(p) =>
      assert !(forall k :: 0 <= k < |url| ==> url[k] == '/') by {
        var j :| 0 <= j < |parts| && parts[j] == p;
        assert parts[j][0] in url && !IsSlash(parts[j][0]);
      }
      Some(p)
  }

  /** The last element that satisfies `p` */
  function LastWhere<T>(xs: seq<T>, p: T -> bool): (r: Option<T>)
    ensures r.Some? ==> r.value in xs && p(r.value)
    ensures r.None? ==> forall k :: 0 <= k < |xs| ==> !p(xs[k])
  {
    if xs == [] then None
    else if p(xs[|xs| - 1]) then Some(xs[|xs| - 1])
    else
      var r := LastWhere(xs[..|xs| - 1], p);
      assert forall k :: 0 <= k < |xs| - 1 ==> xs[k] == xs[..|xs| - 1][k];
      r
  }

  /**
   * The location parse of `scrapeSuburb`: the primary pattern anywhere in the
   * URL; failing that, the case-insensitive fallback on the last non-empty
   * '/'-part (no location when that does not match either). `None` is the
   * TypeError thrown when the URL has no non-empty part at all, which ends the
   * suburb with no records.
   */
  function ParseSuburbUrl(url: string): (r: Option<Location>)
    ensures r.None? <==> PrimaryFrom(url, 0).None? && forall k :: 0 <= k < |url| ==> url[k] == '/'
    ensures r.Some? && r.value != NoLocation ==>
      && |r.value.postcode| == 4 && AllDigits(r.value.postcode)
      && (forall k :: 0 <= k < |r.value.suburb| ==> r.value.suburb[k] != '-')
    ensures PrimaryFrom(url, 0).Some? ==> r == PrimaryFrom(url, 0)
    ensures PrimaryFrom(url, 0).None? && LastPart(url).Some? ==> r == Some(FallbackFrom(LastPart(url).value, 0).GetOr(NoLocation))
  {
    match PrimaryFrom(url, 0)
    case Some(loc) => Some(loc)
    case None =>
      match LastPart(url)
      case None => None
      case Some(last) => Some(FallbackFrom(last, 0).GetOr(NoLocation))
  }

  predicate NoneOf(s: string, c: char) { forall k :: 0 <= k < |s| ==> s[k] != c }

  /** A suburb page path: '/auction-results/<city>/<name>-<code>-<postcode>' and whatever follows */
  function SuburbPath(city: string, name: string, code: string, postcode: string, rest: string): string {
    ResultsPath + city + "/" + name + "-" + code + "-" + postcode + rest
  }

  /** Where the results path, the city and the slash after it lie in a suburb page path */
  lemma PathCityLayout(city: string, name: string, code: string, postcode: string, rest: string)
    requires |postcode| == 4
    ensures var s := SuburbPath(city, name, code, postcode, rest);
      |s| == |ResultsPath| + |city| + |name| + |code| + |postcode| + |rest| + 3
    ensures OccursAt(SuburbPath(city, name, code, postcode, rest), ResultsPath, 0)
    ensures var s := SuburbPath(city, name, code, postcode, rest);
      forall k :: |ResultsPath| <= k < |ResultsPath| + |city| ==> s[k] == city[k - |ResultsPath|]
    ensures var s := SuburbPath(city, name, code, postcode, rest);
      s[|ResultsPath| + |city|] == '/'
  {
    var p1 := ResultsPath + city;
    var p3 := p1 + "/" + name;
    var p5 := p3 + "-" + code;
    var p7 := p5 + "-" + postcode;
    var s := p7 + rest;
    assert s == SuburbPath(city, name, code, postcode, rest);
    assert s[..|p7|] == p7;
    assert p7[..|p5|] == p5;
    assert p5[..|p3|] == p3;
    assert p3[..|p1|] == p1;
    assert s[..|ResultsPath|] == ResultsPath;
  }

  /** Where the name and the hyphen after it lie in a suburb page path */
  lemma PathNameLayout(city: string, name: string, code: string, postcode: string, rest: string)
    ensures var s := SuburbPath(city, name, code, postcode, rest); var c := |ResultsPath| + |city|;
      forall k :: c + 1 <= k < c + 1 + |name| ==> s[k] == name[k - c - 1]
    ensures var s := SuburbPath(city, name, code, postcode, rest); var c := |ResultsPath| + |city|;
      s[c + 1..c + 1 + |name|] == name && s[c + 1 + |name|] == '-'
  {
    var p1 := ResultsPath + city;
    var p3 := p1 + "/" + name;
    var p5 := p3 + "-" + code;
    var p7 := p5 + "-" + postcode;
    var s := p7 + rest;
    assert s == SuburbPath(city, name, code, postcode, rest);
    assert s[..|p7|] == p7;
    assert p7[..|p5|] == p5;
    assert p5[..|p3|] == p3;
    assert p3[..|p1|] == p1;
    assert s[|p1| + 1..|p3|] == name;
  }

  /** Where the state code, the hyphen after it and the postcode lie in a suburb page path */
  lemma PathTailLayout(city: string, name: string, code: string, postcode: string, rest: string)
    requires |postcode| == 4
    ensures var s := SuburbPath(city, name, code, postcode, rest); var h := |ResultsPath| + |city| + 1 + |name|;
      && h + |code| + 6 <= |s| && s[h] == '-' && s[h + |code| + 1] == '-'
      && s[h + 1..h + 1 + |code|] == code && s[h + |code| + 2..h + |code| + 6] == postcode
  {
    var p1 := ResultsPath + city;
    var p3 := p1 + "/" + name;
    var p5 := p3 + "-" + code;
    var p7 := p5 + "-" + postcode;
    var s := p7 + rest;
    assert s == SuburbPath(city, name, code, postcode, rest);
    assert s[..|p7|] == p7;
    assert p7[..|p5|] == p5;
    assert p5[..|p3|] == p3;
    assert p3[..|p1|] == p1;
    assert s[|p3| + 1..|p5|] == code;
    assert s[|p5| + 1..|p7|] == postcode;
  }

  /** A hyphen, a code of two or three letters, a hyphen and four digits at `h`: the tail matches there */
  lemma TailAt(s: string, h: nat, letter: char -> bool, code: string, postcode: string, suburb: string)
    requires forall c :: letter(c) ==> IsAsciiLetter(c)
    requires (|code| == 2 || |code| == 3) && forall k :: 0 <= k < |code| ==> letter(code[k])
    requires |postcode| == 4 && AllDigits(postcode)
    requires h + |code| + 6 <= |s| && s[h] == '-' && s[h + |code| + 1] == '-'
    requires s[h + 1..h + 1 + |code|] == code && s[h + |code| + 2..h + |code| + 6] == postcode
    ensures CodeTailAt(s, h, letter)
    ensures TailLocation(s, h, letter, suburb) == Location(suburb, Upper(code), postcode)
  {
    var n := |code|;
    forall k | h + 1 <= k <= h + n ensures letter(s[k]) {
      assert s[k] == s[h + 1..h + 1 + n][k - h - 1];
    }
    if n == 2 {
      assert !letter(s[h + 3]);
    } else {
      assert s[h + 3] == code[2];
    }
    assert CodeLength(s, h, letter) == n;
  }

  /** The city of a suburb page path runs up to the slash after it */
  lemma CityRun(city: string, name: string, code: string, postcode: string, rest: string)
    requires NoneOf(city, '/') && |postcode| == 4
    ensures OccursAt(SuburbPath(city, name, code, postcode, rest), ResultsPath, 0)
    ensures |ResultsPath| + |city| < |SuburbPath(city, name, code, postcode, rest)|
    ensures RunEnd(SuburbPath(city, name, code, postcode, rest), |ResultsPath|, NotSlash) == |ResultsPath| + |city|
  {
    PathCityLayout(city, name, code, postcode, rest);
    RunEndAt(SuburbPath(city, name, code, postcode, rest), |ResultsPath|, |ResultsPath| + |city|, NotSlash);
  }

  /** A hyphen-free name of a suburb page path runs up to the hyphen after it */
  lemma NameRun(city: string, name: string, code: string, postcode: string, rest: string)
    requires NoneOf(name, '-') && |postcode| == 4
    ensures var c := |ResultsPath| + |city|;
      RunEnd(SuburbPath(city, name, code, postcode, rest), c + 1, NotHyphen) == c + 1 + |name|
    ensures var c := |ResultsPath| + |city|;
      SuburbPath(city, name, code, postcode, rest)[c + 1..c + 1 + |name|] == name
  {
    PathCityLayout(city, name, code, postcode, rest);
    PathNameLayout(city, name, code, postcode, rest);
    var c := |ResultsPath| + |city|;
    RunEndAt(SuburbPath(city, name, code, postcode, rest), c + 1, c + 1 + |name|, NotHyphen);
  }

  /** The tail of a suburb page path matches after its name */
  lemma PathTail(city: string, name: string, code: string, postcode: string, rest: string)
    requires (|code| == 2 || |code| == 3) && forall k :: 0 <= k < |code| ==> IsLowerAscii(code[k])
    requires |postcode| == 4 && AllDigits(postcode)
    ensures var s := SuburbPath(city, name, code, postcode, rest); var h := |ResultsPath| + |city| + 1 + |name|;
      && CodeTailAt(s, h, IsLowerAscii)
      && TailLocation(s, h, IsLowerAscii, name) == Location(name, Upper(code), postcode)
  {
    PathTailLayout(city, name, code, postcode, rest);
    TailAt(SuburbPath(city, name, code, postcode, rest), |ResultsPath| + |city| + 1 + |name|, IsLowerAscii, code, postcode, name);
  }

  /** The primary pattern matches a suburb page path at its start */
  lemma PrimaryAtPath(city: string, name: string, code: string, postcode: string, rest: string)
    requires city != "" && NoneOf(city, '/')
    requires name != "" && NoneOf(name, '-')
    requires (|code| == 2 || |code| == 3) && forall k :: 0 <= k < |code| ==> IsLowerAscii(code[k])
    requires |postcode| == 4 && AllDigits(postcode)
    ensures PrimaryAt(SuburbPath(city, name, code, postcode, rest), 0) == Some(Location(name, Upper(code), postcode))
  {
    var c := |ResultsPath| + |city|;
    CityRun(city, name, code, postcode, rest);
    NameRun(city, name, code, postcode, rest);
    PathTail(city, name, code, postcode, rest);
    PrimaryMatch(SuburbPath(city, name, code, postcode, rest), c, c + 1 + |name|, name, Location(name, Upper(code), postcode));
  }

  /** The primary pattern matches at the start of `s` when each of its parts does */
  lemma PrimaryMatch(s: string, c: nat, h: nat, suburb: string, loc: Location)
    requires OccursAt(s, ResultsPath, 0)
    requires RunEnd(s, |ResultsPath|, NotSlash) == c && |ResultsPath| < c < |s|
    requires RunEnd(s, c + 1, NotHyphen) == h && c + 1 < h && s[c + 1..h] == suburb
    requires CodeTailAt(s, h, IsLowerAscii) && TailLocation(s, h, IsLowerAscii, suburb) == loc
    ensures PrimaryAt(s, 0) == Some(loc)
  {
  }

  /**
   * A path '/auction-results/<city>/<name>-<code>-<postcode>…' with a
   * hyphen-free name parses to that name, the code upper-cased and the postcode
   */
  lemma PrimaryParse(city: string, name: string, code: string, postcode: string, rest: string)
    requires city != "" && NoneOf(city, '/')
    requires name != "" && NoneOf(name, '-')
    requires (|code| == 2 || |code| == 3) && forall k :: 0 <= k < |code| ==> IsLowerAscii(code[k])
    requires |postcode| == 4 && AllDigits(postcode)
    ensures ParseSuburbUrl(SuburbPath(city, name, code, postcode, rest)) == Some(Location(name, Upper(code), postcode))
  {
    var s := SuburbPath(city, name, code, postcode, rest);
    PrimaryAtPath(city, name, code, postcode, rest);
    assert PrimaryFrom(s, 0) == PrimaryAt(s, 0);
  }

  /** A last URL part '<name>-<code>-<postcode>' */
  function LastSegment(name: string, code: string, postcode: string): string {
    name + "-" + code + "-" + postcode
  }

  lemma LastSegmentLayout(name: string, code: string, postcode: string)
    requires |postcode| == 4
    ensures |LastSegment(name, code, postcode)| == |name| + |code| + 6
    ensures var s := LastSegment(name, code, postcode);
      s[..|name|] == name && s[|name|] == '-' && s[|name| + 1..|name| + 1 + |code|] == code
    ensures var s := LastSegment(name, code, postcode);
      forall k :: |name| + 1 <= k < |name| + 1 + |code| ==> s[k] == code[k - |name| - 1]
    ensures var s := LastSegment(name, code, postcode);
      s[|name| + |code| + 1] == '-' && s[|name| + |code| + 2..] == postcode
    ensures var s := LastSegment(name, code, postcode);
      forall k :: 0 <= k < |name| ==> s[k] == name[k]
    ensures var s := LastSegment(name, code, postcode);
      forall k :: |name| + |code| + 2 <= k < |s| ==> s[k] == postcode[k - |name| - |code| - 2]
  {
    var p1 := name + "-";
    var p2 := p1 + code;
    var p3 := p2 + "-";
    var s := p3 + postcode;
    assert s == LastSegment(name, code, postcode);
    assert s[..|p3|] == p3;
    assert p3[..|p2|] == p2;
    assert p2[..|p1|] == p1;
  }

  /** The greedy `(.+)` stops at `h` when the tail matches there and at no later index up to `top` */
  lemma {:induction false} LastTailAt(s: string, p: nat, top: nat, h: nat)
    requires p < h <= top && CodeTailAt(s, h, IsAsciiLetter)
    requires forall j :: h < j <= top ==> !CodeTailAt(s, j, IsAsciiLetter)
    ensures LastTail(s, p, top) == Some(h)
    decreases top
  {
    if top != h {
      LastTailAt(s, p, top - 1, h);
    }
  }

  /** In '<name>-<code>-<postcode>', no tail matches after the hyphen that ends the name */
  lemma NoLaterTail(name: string, code: string, postcode: string, j: nat)
    requires (|code| == 2 || |code| == 3) && forall k :: 0 <= k < |code| ==> IsAsciiLetter(code[k])
    requires |postcode| == 4 && AllDigits(postcode)
    requires |name| < j <= |LastSegment(name, code, postcode)|
    ensures !CodeTailAt(LastSegment(name, code, postcode), j, IsAsciiLetter)
  {
    var s := LastSegment(name, code, postcode);
    LastSegmentLayout(name, code, postcode);
    if j + 8 <= |s| {
      assert j == |name| + 1;
      assert s[j] == code[0];
    }
  }

  /** The whole of '<name>-<code>-<postcode>' is one line */
  lemma SegmentIsOneLine(name: string, code: string, postcode: string)
    requires forall k :: 0 <= k < |name| ==> !IsLineTerminator(name[k])
    requires forall k :: 0 <= k < |code| ==> IsAsciiLetter(code[k])
    requires |postcode| == 4 && AllDigits(postcode)
    ensures RunEnd(LastSegment(name, code, postcode), 0, NotLineTerminator) == |LastSegment(name, code, postcode)|
  {
    var s := LastSegment(name, code, postcode);
    LastSegmentLayout(name, code, postcode);
    forall k | 0 <= k < |s| ensures NotLineTerminator(s[k]) {
      if k < |name| {
      } else if |name| < k < |name| + 1 + |code| {
        assert s[k] == code[k - |name| - 1];
      } else if |name| + |code| + 2 <= k {
        assert s[k] == postcode[k - |name| - |code| - 2];
      }
    }
    RunEndAt(s, 0, |s|, NotLineTerminator);
  }

  /**
   * The fallback on a last part '<name>-<code>-<postcode>' names the suburb by
   * everything before the last tail, hyphens turned into spaces: a hyphenated
   * name such as 'wagga-wagga' comes out whole
   */
  lemma FallbackParse(name: string, code: string, postcode: string)
    requires name != "" && forall k :: 0 <= k < |name| ==> !IsLineTerminator(name[k])
    requires (|code| == 2 || |code| == 3) && forall k :: 0 <= k < |code| ==> IsAsciiLetter(code[k])
    requires |postcode| == 4 && AllDigits(postcode)
    ensures FallbackFrom(LastSegment(name, code, postcode), 0) == Some(Location(HyphensToSpaces(name), Upper(code), postcode))
  {
    var s := LastSegment(name, code, postcode);
    LastSegmentLayout(name, code, postcode);
    var h := |name|;
    SegmentIsOneLine(name, code, postcode);
    TailAt(s, h, IsAsciiLetter, code, postcode, HyphensToSpaces(name));
    forall j | h < j <= |s| ensures !CodeTailAt(s, j, IsAsciiLetter) {
      NoLaterTail(name, code, postcode, j);
    }
    LastTailAt(s, 0, |s|, h);
    assert s[0..h] == name;
    assert FallbackAt(s, 0) == Some(Location(HyphensToSpaces(name), Upper(code), postcode));
  }

  /**
   * The results page of Mount Kuring-Gai, '/auction-results/sydney/' (`a`) and
   * 'mount-kuring-gai-nsw-2080' (`t`): where its slashes and hyphens lie
   */
  lemma KuringGaiLayout(a: string, t: string)
    requires a == "/auction-results/sydney/" && t == "mount-kuring-gai-nsw-2080"
    ensures |a| == 24 && |t| == 25
    ensures forall k :: 0 <= k < |a| && a[k] == '/' ==> k == 0 || k == 16 || k == 23
    ensures forall k :: 0 <= k < |t| ==> t[k] != '/'
    ensures forall k :: 0 <= k < 5 ==> t[k] != '-'
    ensures t[5] == '-' && t[8] == 'r' && t[9] == 'i'
    ensures a[..17] == ResultsPath && a[17] == 's'
  {
  }

  /** The results path occurs only at the start of the page path */
  lemma KuringGaiResultsPathOnce(a: string, t: string)
    requires a == "/auction-results/sydney/" && t == "mount-kuring-gai-nsw-2080"
    ensures forall p :: 0 < p <= |a + t| ==> !OccursAt(a + t, ResultsPath, p)
  {
    var s := a + t;
    KuringGaiLayout(a, t);
    forall p | 0 < p <= |s| ensures !OccursAt(s, ResultsPath, p) {
      if p + 17 <= |s| {
        if p < |a| {
          assert s[p] == a[p] && s[p + 1] == (a + t)[p + 1];
        } else {
          assert s[p] == t[p - |a|];
        }
        assert s[p..p + 17][0] == s[p];
      }
    }
  }

  /** At the start, the suburb group stops at 'mount' and '-kur' followed by 'i' is no state code */
  lemma KuringGaiPrimaryAtStart(a: string, t: string)
    requires a == "/auction-results/sydney/" && t == "mount-kuring-gai-nsw-2080"
    ensures PrimaryAt(a + t, 0).None?
  {
    var s := a + t;
    KuringGaiLayout(a, t);
    assert forall k :: 0 <= k < |a| ==> s[k] == a[k];
    assert forall k :: |a| <= k < |s| ==> s[k] == t[k - |a|];
    assert OccursAt(s, ResultsPath, 0) by { assert s[..17] == a[..17]; }
    RunEndAt(s, 17, 23, NotSlash);
    RunEndAt(s, 24, 29, NotHyphen);
    assert CodeLength(s, 29, IsLowerAscii) == 3 by { assert s[32] == t[8]; }
    assert s[33] == t[9];
  }

  lemma KuringGaiNoPrimary(a: string, t: string)
    requires a == "/auction-results/sydney/" && t == "mount-kuring-gai-nsw-2080"
    ensures PrimaryFrom(a + t, 0).None?
  {
    KuringGaiResultsPathOnce(a, t);
    KuringGaiPrimaryAtStart(a, t);
    forall p | 0 <= p <= |a + t| ensures PrimaryAt(a + t, p).None? {
    }
  }

  lemma KuringGaiLastPart(a: string, t: string)
    requires a == "/auction-results/sydney/" && t == "mount-kuring-gai-nsw-2080"
    ensures LastPart(a + t) == Some(t)
  {
    KuringGaiLayout(a, t);
    SplitOnLastPiece(a, t, IsSlash);
  }

  lemma KuringGaiSegment(t: string)
    requires t == "mount-kuring-gai-nsw-2080"
    ensures t == LastSegment("mount-kuring-gai", "nsw", "2080")
  {
  }

  lemma KuringGaiNames()
    ensures HyphensToSpaces("mount-kuring-gai") == "mount kuring gai"
    ensures Upper("nsw") == "NSW"
  {
  }

  lemma KuringGaiFallback(t: string)
    requires t == "mount-kuring-gai-nsw-2080"
    ensures FallbackFrom(t, 0) == Some(Location("mount kuring gai", "NSW", "2080"))
  {
    var name, code, postcode := "mount-kuring-gai", "nsw", "2080";
    KuringGaiSegment(t);
    assert forall k :: 0 <= k < |code| ==> IsAsciiLetter(code[k]);
    assert AllDigits(postcode);
    FallbackParse(name, code, postcode);
    KuringGaiNames();
  }

  /**
   * A hyphenated suburb name defeats the primary pattern, whose suburb stops at
   * the first hyphen, and the fallback on the last part then names the suburb
   * whole, hyphens as spaces, with the state code upper-cased
   */
  lemma HyphenatedSuburbUrl()
    ensures ParseSuburbUrl("/auction-results/sydney/" + "mount-kuring-gai-nsw-2080") == Some(Location("mount kuring gai", "NSW", "2080"))
  {
    var a, t := "/auction-results/sydney/", "mount-kuring-gai-nsw-2080";
    KuringGaiNoPrimary(a, t);
    KuringGaiLastPart(a, t);
    KuringGaiFallback(t);
  }
  // ------------------------------------------------ price and result

  /**
   * The `price` of a Domain record: undefined for an empty or 'Undisclosed'
   * price text, otherwise `parseInt` of all its digits, NaN when it has none.
   */
  function ParsePrice(priceText: string): (p: Price)
    ensures p == NoPrice <==> priceText == "" || priceText == "Undisclosed"
    ensures p == NotANumber <==> p != NoPrice && forall k :: 0 <= k < |priceText| ==> !IsDigit(priceText[k])
    ensures p.Amount? ==> p.value == DigitsValue(KeepDigits(priceText))
  {
    if priceText == "" || priceText == "Undisclosed" then NoPrice
    else match ParseDigits(KeepDigits(priceText))
      case None => NotANumber
      case Some(n) => Amount(n)
  }

  /** `parseInt(priceText.replace(/[^0-9]/g, '')) > 0` (false for NaN) */
  predicate DigitsPositive(priceText: string) {
    var digits := KeepDigits(priceText);
    digits != "" && DigitsValue(digits) > 0
  }

  lemma UndisclosedHasNoDigits()
    ensures KeepDigits("Undisclosed") == ""
  {
    var u := "Undisclosed";
    assert forall k :: 0 <= k < |u| ==> !IsDigit(u[k]);
  }

  /** A non-empty price text with positive digits is exactly a positive price */
  lemma PositiveDigitsArePositivePrice(priceText: string)
    ensures (priceText != "" && DigitsPositive(priceText)) <==>
      (ParsePrice(priceText).Amount? && ParsePrice(priceText).value > 0)
  {
    UndisclosedHasNoDigits();
  }

  /**
   * The result of a Domain record: 'sold' when the result text mentions
   * 'sold' or the price is a positive amount; otherwise 'withdrawn' when it
   * mentions 'withdrawn' or 'cancelled'; otherwise 'passed_in'.
   */
  function ClassifyResult(resultText: string, priceText: string): (r: AuctionResult)
    ensures r == Sold <==>
      Contains(Lower(resultText), "sold") || (ParsePrice(priceText).Amount? && ParsePrice(priceText).value > 0)
    ensures r == Withdrawn <==>
      r != Sold && (Contains(Lower(resultText), "withdrawn") || Contains(Lower(resultText), "cancelled"))
  {
    PositiveDigitsArePositivePrice(priceText);
    var lower := Lower(resultText);
    if Contains(lower, "sold") || (priceText != "" && DigitsPositive(priceText)) then Sold
    else if Contains(lower, "withdrawn") || Contains(lower, "cancelled") then Withdrawn
    else PassedIn
  }

  /** Any positive price makes a Domain listing 'sold', whatever its result text says */
  lemma PositivePriceMeansSold(resultText: string, priceText: string)
    requires ParsePrice(priceText).Amount? && ParsePrice(priceText).value > 0
    ensures ClassifyResult(resultText, priceText) == Sold
  {
  }

  // --------------------------------------------------- the emit filter

  /** `s.charAt(0).toUpperCase() + s.slice(1).toLowerCase()` */
  function CapitaliseFirst(s: string): (r: string)
    ensures |r| == |s|
    ensures |s| > 0 ==> r[0] == UpperChar(s[0])
    ensures forall k :: 1 <= k < |s| ==> r[k] == LowerChar(s[k])
  {
    if s == "" then "" else [UpperChar(s[0])] + Lower(s[1..])
  }

  lemma LowerCharIdempotent(c: char)
    ensures LowerChar(LowerChar(c)) == LowerChar(c)
  {
  }

  /** Cleaning a suburb name twice changes nothing more */
  lemma {:induction false} CapitaliseFirstIdempotent(s: string)
    ensures CapitaliseFirst(CapitaliseFirst(s)) == CapitaliseFirst(s)
  {
    var once := CapitaliseFirst(s);
    var twice := CapitaliseFirst(once);
    forall k | 1 <= k < |s|
      ensures twice[k] == once[k]
    {
      LowerCharIdempotent(s[k]);
    }
  }

  /**
   * A listing card of a suburb page: its whole text, and the text of the first
   * element each selector finds (`None` when it finds none). `featuresText` is
   * the text of all feature elements; `propertyHref` and `domainHref` are the
   * `href`s of the first property link and of the first domain.com.au link.
   */
  datatype Card = Card(
    text: string,
    addressElement: Option<string>,
    priceElement: Option<string>,
    resultElement: Option<string>,
    featuresText: Option<string>,
    agentElement: Option<string>,
    agencyElement: Option<string>,
    propertyHref: Option<string>,
    domainHref: Option<string>)

  /** The element's trimmed text when the selector found one, else the extractor's answer */
  function ElementOr(element: Option<string>, fallback: string): string {
    match element
    case Some(t) => Trim(t)
    case None => fallback
  }

  function CardAddress(card: Card): string {
    ElementOr(card.addressElement, ExtractAddressOrFirstLine(card.text).GetOr(""))
  }

  function CardPriceText(card: Card): string {
    ElementOr(card.priceElement, ExtractPrice(card.text))
  }

  function CardResultText(card: Card): string {
    ElementOr(card.resultElement, ExtractResult(card.text))
  }

  function OptionalElementOr(element: Option<string>, fallback: Option<string>): Option<string> {
    match element
    case Some(t) => Some(Trim(t))
    case None => fallback
  }

  /**
   * One card of `scrapeSuburb` through to a record: emitted only when its
   * address is longer than 5 and shorter than 200 characters, with the
   * suburb name cleaned, the state upper-cased and the date of the scrape.
   */
  function CardToRecord(card: Card, loc: Location, now: Date): (r: Option<RawAuctionData>)
    ensures r.Some? <==> 5 < |CardAddress(card)| < 200
    ensures r.Some? ==>
      && r.value.address == CardAddress(card)
      && r.value.suburb == CapitaliseFirst(loc.suburb)
      && r.value.state == Upper(loc.state)
      && r.value.postcode == loc.postcode
      && r.value.price == ParsePrice(CardPriceText(card))
      && r.value.result == ClassifyResult(CardResultText(card), CardPriceText(card))
      && r.value.auctionDate == now
      && r.value.source == Domain
      && Lower(r.value.propertyType) in PropertyTypes
  {
    var address := CardAddress(card);
    if !(5 < |address| < 200) then None
    else
      var priceText := CardPriceText(card);
      var detailsText := card.featuresText.GetOr(card.text);
      Some(RawAuctionData(
        address := address,
        suburb := CapitaliseFirst(loc.suburb),
        state := Upper(loc.state),
        postcode := loc.postcode,
        price := ParsePrice(priceText),
        result := ClassifyResult(CardResultText(card), priceText),
        auctionDate := now,
        source := Domain,
        propertyType := ExtractPropertyType(card.text),
        bedrooms := ExtractCount(detailsText, "bed"),
        bathrooms := ExtractCount(detailsText, "bath"),
        carSpaces := ExtractCount(detailsText, "car"),
        agentName := NonEmpty(OptionalElementOr(card.agentElement, ExtractAgentNameByShape(card.text))),
        agencyName := NonEmpty(OptionalElementOr(card.agencyElement, ExtractAgencyNameByKeyword(card.text))),
        propertyUrl := NonEmpty(ExtractPropertyUrl(Origin, DomainListingPaths, card.propertyHref, card.domainHref))))
  }

  /**
   * The remaining fields of an emitted card's record: the property type of the
   * whole text ('House' when it names none), the counts of the features text
   * (the whole text when the card has no features element), the agent and
   * agency of their elements or of the text, and the card's property link
   */
  lemma CardToRecordFields(card: Card, loc: Location, now: Date)
    requires CardToRecord(card, loc, now).Some?
    ensures var x := CardToRecord(card, loc, now).value;
      && x.propertyType == ExtractPropertyType(card.text)
      && x.bedrooms == ExtractCount(card.featuresText.GetOr(card.text), "bed")
      && x.bathrooms == ExtractCount(card.featuresText.GetOr(card.text), "bath")
      && x.carSpaces == ExtractCount(card.featuresText.GetOr(card.text), "car")
      && x.agentName == NonEmpty(OptionalElementOr(card.agentElement, ExtractAgentNameByShape(card.text)))
      && x.agencyName == NonEmpty(OptionalElementOr(card.agencyElement, ExtractAgencyNameByKeyword(card.text)))
      && x.propertyUrl == NonEmpty(ExtractPropertyUrl(Origin, DomainListingPaths, card.propertyHref, card.domainHref))
  {
  }

  /** The records of a run of cards, in card order */
  function CardsToRecords(cards: seq<Card>, loc: Location, now: Date): (r: seq<RawAuctionData>)
    ensures |r| <= |cards|
  {
    if cards == [] then []
    else
      CardsToRecords(cards[..|cards| - 1], loc, now) + CardRecords(cards[|cards| - 1], loc, now)
  }

  /** A Domain record of a suburb page at `loc`, scraped at `now` */
  predicate RecordAt(x: RawAuctionData, loc: Location, now: Date) {
    && 5 < |x.address| < 200
    && x.suburb == CapitaliseFirst(loc.suburb) && x.state == Upper(loc.state)
    && x.postcode == loc.postcode && x.source == Domain && x.auctionDate == now
  }

  /** Every record of a run of cards carries the page's location and the date of the scrape */
  lemma {:induction false} CardsToRecordsAt(cards: seq<Card>, loc: Location, now: Date)
    ensures forall k :: 0 <= k < |CardsToRecords(cards, loc, now)| ==> RecordAt(CardsToRecords(cards, loc, now)[k], loc, now)
  {
    if cards != [] {
      var front := cards[..|cards| - 1];
      CardsToRecordsAt(front, loc, now);
      var added := CardRecords(cards[|cards| - 1], loc, now);
      assert CardsToRecords(cards, loc, now) == CardsToRecords(front, loc, now) + added;
      AllRecordsAt(CardsToRecords(front, loc, now), added, loc, now);
    }
  }

  /** The record of one card, if it has one, as a list */
  function CardRecords(card: Card, loc: Location, now: Date): (r: seq<RawAuctionData>)
    ensures |r| <= 1
    ensures forall k :: 0 <= k < |r| ==> RecordAt(r[k], loc, now)
  {
    var last := CardToRecord(card, loc, now);
    if last.Some? then [last.value] else []
  }

  lemma AllRecordsAt(a: seq<RawAuctionData>, b: seq<RawAuctionData>, loc: Location, now: Date)
    requires forall k :: 0 <= k < |a| ==> RecordAt(a[k], loc, now)
    requires forall k :: 0 <= k < |b| ==> RecordAt(b[k], loc, now)
    ensures forall k :: 0 <= k < |a + b| ==> RecordAt((a + b)[k], loc, now)
  {
    forall k | 0 <= k < |a + b| ensures RecordAt((a + b)[k], loc, now) {
      if k >= |a| {
        assert (a + b)[k] == b[k - |a|];
      }
    }
  }

  /**
   * `scrapeSuburb` after the page has loaded: the location is parsed from the
   * URL as given, and each card that passes the emit filter is pushed in order.
   */
  method ScrapeSuburb(suburbUrl: string, cards: seq<Card>, now: Date) returns (results: seq<RawAuctionData>)
    ensures ParseSuburbUrl(suburbUrl).None? ==> results == []
    ensures ParseSuburbUrl(suburbUrl).Some? ==> results == CardsToRecords(cards, ParseSuburbUrl(suburbUrl).value, now)
  {
    results := [];
    var loc := ParseSuburbUrl(suburbUrl);
    if loc.None? {
      return;
    }
    var i := 0;
    while i < |cards|
      invariant 0 <= i <= |cards|
      invariant results == CardsToRecords(cards[..i], loc.value, now)
    {
      var record := CardToRecord(cards[i], loc.value, now);
      CardsToRecordsStep(cards, i, loc.value, now);
      if record.Some? {
        results := results + [record.value];
      }
      i := i + 1;
    }
    assert cards[..i] == cards;
  }

  /** One more card adds its record, if it has one, to the records of the cards before it */
  lemma CardsToRecordsStep(cards: seq<Card>, i: nat, loc: Location, now: Date)
    requires i < |cards|
    ensures var record := CardToRecord(cards[i], loc, now);
      CardsToRecords(cards[..i + 1], loc, now) ==
        CardsToRecords(cards[..i], loc, now) + (if record.Some? then [record.value] else [])
  {
    assert cards[..i + 1][..i] == cards[..i];
  }
}
