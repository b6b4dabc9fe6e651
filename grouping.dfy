/**
 * The grouping and the statistics of `updateSuburbStats` in
 * src/lib/scrapers/scraper-service.ts: records are grouped by suburb, state
 * and calendar day, and each group gets its counts, clearance rate, mean and
 * median sold price.
 */
module SuburbGrouping {
  import opened Wrappers
  import opened Text
  import opened Records
  import opened Median

  // ------------------------------------------------------------------ groups

  /** The distinct keys of the records, in order of first appearance */
  function KeyOrder<K(==)>(data: seq<RawAuctionData>, key: RawAuctionData -> K): (ks: seq<K>)
    ensures forall i, j :: 0 <= i < j < |ks| ==> ks[i] != ks[j]
    ensures |ks| <= |data|
  {
    if data == [] then []
    else
      var front := KeyOrder(data[..|data| - 1], key);
      var last := data[|data| - 1];
      if key(last) in front then front else front + [key(last)]
  }

  /** The key of every record is listed */
  lemma {:induction false} KeyOrderCovers<K>(data: seq<RawAuctionData>, key: RawAuctionData -> K, i: nat)
    requires i < |data|
    ensures key(data[i]) in KeyOrder(data, key)
  {
    var front := data[..|data| - 1];
    if i < |front| {
      assert front[i] == data[i];
      KeyOrderCovers(front, key, i);
    }
  }

  /** The records whose key is `k`, in their order */
  function Members<K(==)>(data: seq<RawAuctionData>, key: RawAuctionData -> K, k: K): (g: seq<RawAuctionData>)
    ensures |g| <= |data|
    ensures forall j :: 0 <= j < |g| ==> key(g[j]) == k
  {
    if data == [] then []
    else
      var front := data[..|data| - 1];
      var last := data[|data| - 1];
      assert data == front + [last];
      Members(front, key, k) + (if key(last) == k then [last] else [])
  }

  /** `keys` and `groups` hold the keys of `data` and the group of each */
  ghost predicate Grouped<K(!new)>(keys: seq<K>, groups: map<K, seq<RawAuctionData>>, data: seq<RawAuctionData>,
                                  key: RawAuctionData -> K) {
    && keys == KeyOrder(data, key)
    && (forall k :: k in groups <==> k in keys)
    && (forall k :: k in groups ==> groups[k] == Members(data, key, k))
  }

  /** `Map.prototype.set` / `push` grouping, as `updateSuburbStats` fills `suburbGroups` */
  method GroupBy<K(==, !new)>(data: seq<RawAuctionData>, key: RawAuctionData -> K)
      returns (keys: seq<K>, groups: map<K, seq<RawAuctionData>>)
    ensures keys == KeyOrder(data, key)
    ensures forall k :: k in groups <==> k in keys
    ensures forall k :: k in groups ==> groups[k] == Members(data, key, k)
  {
    keys := [];
    groups := map[];
    var i := 0;
    while i < |data|
      invariant 0 <= i <= |data|
      invariant Grouped(keys, groups, data[..i], key)
    {
      keys, groups := AddRecord(keys, groups, data[i], key, data[..i]);
      assert data[..i + 1] == data[..i] + [data[i]];
      i := i + 1;
    }
    assert data[..i] == data;
  }

  /** One record of the grouping loop: its key's group is created if new, then the record is pushed */
  method AddRecord<K(==, !new)>(keys: seq<K>, groups: map<K, seq<RawAuctionData>>, x: RawAuctionData,
                          key: RawAuctionData -> K, ghost data: seq<RawAuctionData>)
      returns (keys': seq<K>, groups': map<K, seq<RawAuctionData>>)
    requires Grouped(keys, groups, data, key)
    ensures Grouped(keys', groups', data + [x], key)
  {
    var k := key(x);
    KeyOrderStep(data, x, key);
    keys', groups' := keys, groups;
    if k !in groups' {
      NoMembersOutsideKeyOrder(data, key, k);
      keys' := keys' + [k];
      groups' := groups'[k := []];
    }
    MembersStep(data, x, key, k);
    ghost var earlier := groups';
    groups' := groups'[k := groups'[k] + [x]];
    forall k' | k' in groups' ensures groups'[k'] == Members(data + [x], key, k') {
      if k' != k {
        MembersStep(data, x, key, k');
        assert groups'[k'] == earlier[k'] == groups[k'];
      }
    }
  }

  /** A record is in the group of `k` exactly when it is among the records and has key `k` */
  lemma {:induction false} MembersIff<K>(data: seq<RawAuctionData>, key: RawAuctionData -> K, k: K, a: RawAuctionData)
    ensures a in Members(data, key, k) <==> a in data && key(a) == k
  {
    if data != [] {
      var front := data[..|data| - 1];
      var last := data[|data| - 1];
      assert data == front + [last];
      MembersIff(front, key, k, a);
    }
  }

  /** One more record: its key is listed if new */
  lemma KeyOrderStep<K>(data: seq<RawAuctionData>, x: RawAuctionData, key: RawAuctionData -> K)
    ensures KeyOrder(data + [x], key) ==
      if key(x) in KeyOrder(data, key) then KeyOrder(data, key) else KeyOrder(data, key) + [key(x)]
  {
    assert (data + [x])[..|data|] == data;
  }

  /** One more record joins the end of the group of its key, and leaves the other groups alone */
  lemma MembersStep<K>(data: seq<RawAuctionData>, x: RawAuctionData, key: RawAuctionData -> K, k: K)
    ensures Members(data + [x], key, k) == Members(data, key, k) + (if key(x) == k then [x] else [])
  {
    assert (data + [x])[..|data|] == data;
  }

  /** The number of records in the groups of the keys `ks` */
  function GroupSizes<K(==)>(data: seq<RawAuctionData>, key: RawAuctionData -> K, ks: seq<K>): nat {
    if ks == [] then 0
    else GroupSizes(data, key, ks[..|ks| - 1]) + |Members(data, key, ks[|ks| - 1])|
  }

  /** One more record adds one to the size of the group of its key, if that is counted */
  lemma {:induction false} GroupSizesStep<K>(data: seq<RawAuctionData>, x: RawAuctionData, key: RawAuctionData -> K, ks: seq<K>)
    requires forall i, j :: 0 <= i < j < |ks| ==> ks[i] != ks[j]
    ensures GroupSizes(data + [x], key, ks) == GroupSizes(data, key, ks) + (if key(x) in ks then 1 else 0)
  {
    if ks != [] {
      var front := ks[..|ks| - 1];
      var k := ks[|ks| - 1];
      assert ks == front + [k];
      GroupSizesStep(data, x, key, front);
      MembersStep(data, x, key, k);
      assert key(x) in ks <==> key(x) in front || key(x) == k;
    }
  }

  /** A key that no record has has an empty group */
  lemma {:induction false} NoMembersOutsideKeyOrder<K>(data: seq<RawAuctionData>, key: RawAuctionData -> K, k: K)
    requires k !in KeyOrder(data, key)
    ensures Members(data, key, k) == []
  {
    if data != [] {
      var front := data[..|data| - 1];
      var last := data[|data| - 1];
      assert data == front + [last];
      assert key(last) in KeyOrder(data, key);
      NoMembersOutsideKeyOrder(front, key, k);
    }
  }

  /** Every listed key has a non-empty group */
  lemma KeyOrderHasMembers<K>(data: seq<RawAuctionData>, key: RawAuctionData -> K)
    ensures forall k :: k in KeyOrder(data, key) ==> |Members(data, key, k)| > 0
  {
    forall k | k in KeyOrder(data, key) ensures |Members(data, key, k)| > 0 {
      KeyOrderMember(data, key, k);
    }
  }

  lemma {:induction false} KeyOrderMember<K>(data: seq<RawAuctionData>, key: RawAuctionData -> K, k: K)
    requires k in KeyOrder(data, key)
    ensures |Members(data, key, k)| > 0
  {
    var front := data[..|data| - 1];
    var last := data[|data| - 1];
    assert data == front + [last];
    if key(last) != k {
      KeyOrderMember(front, key, k);
    }
  }

  /** The groups partition the records: their sizes add up to the number of records */
  lemma {:induction false} GroupSizesSum<K>(data: seq<RawAuctionData>, key: RawAuctionData -> K)
    ensures GroupSizes(data, key, KeyOrder(data, key)) == |data|
  {
    if data != [] {
      var front := data[..|data| - 1];
      var last := data[|data| - 1];
      assert data == front + [last];
      var ks := KeyOrder(front, key);
      GroupSizesSum(front, key);
      GroupSizesStep(front, last, key, ks);
      if key(last) !in ks {
        NoMembersOutsideKeyOrder(front, key, key(last));
        assert KeyOrder(data, key) == ks + [key(last)];
        assert (ks + [key(last)])[..|ks|] == ks;
      }
    }
  }

  // -------------------------------------------------------------- statistics

  /** `auctions.filter((a) => a.result === r).length` */
  function CountOf(auctions: seq<RawAuctionData>, r: AuctionResult): (n: nat)
    ensures n <= |auctions|
    ensures n == 0 <==> forall a :: a in auctions ==> a.result != r
    ensures |auctions| == 1 ==> n == (if auctions[0].result == r then 1 else 0)
  {
    if auctions == [] then 0
    else
      var front := auctions[..|auctions| - 1];
      assert auctions == front + [auctions[|auctions| - 1]];
      CountOf(front, r) + (if auctions[|auctions| - 1].result == r then 1 else 0)
  }

  /**
   * The count of a concatenation is the sum of the parts' counts; with the
   * one-record case this makes the count one per matching record.
   */
  lemma {:induction false} CountOfAppend(a: seq<RawAuctionData>, b: seq<RawAuctionData>, r: AuctionResult)
    ensures CountOf(a + b, r) == CountOf(a, r) + CountOf(b, r)
    decreases |b|
  {
    if b == [] {
      assert a + b == a;
    } else {
      var front, last := b[..|b| - 1], b[|b| - 1];
      assert CountOf(a + b, r) == CountOf(a + front, r) + (if last.result == r then 1 else 0) by {
        assert (a + b)[..|a + b| - 1] == a + front;
        assert (a + b)[|a + b| - 1] == last;
      }
      assert CountOf(b, r) == CountOf(front, r) + (if last.result == r then 1 else 0);
      CountOfAppend(a, front, r);
    }
  }

  /** Every record is sold, passed in or withdrawn, so the three counts add up */
  lemma {:induction false} CountsAddUp(auctions: seq<RawAuctionData>)
    ensures CountOf(auctions, Sold) + CountOf(auctions, PassedIn) + CountOf(auctions, Withdrawn) == |auctions|
  {
    if auctions != [] {
      CountsAddUp(auctions[..|auctions| - 1]);
    }
  }

  /** `totalAuctions > 0 ? (soldCount / totalAuctions) * 100 : 0` */
  function ClearanceRate(total: nat, sold: nat): (rate: real)
    ensures total == 0 ==> rate == 0.0
    ensures sold <= total ==> 0.0 <= rate <= 100.0
    ensures total > 0 ==> (rate == 0.0 <==> sold == 0)
    ensures total > 0 ==> (rate == 100.0 <==> sold == total)
  {
    if total > 0 then sold as real / total as real * 100.0 else 0.0
  }

  /** The prices of the sold records whose price is truthy: `filter(sold && price).map(price)` */
  function SoldPrices(auctions: seq<RawAuctionData>): (prices: seq<int>)
    ensures |prices| <= CountOf(auctions, Sold)
    ensures forall p :: p in prices ==> p != 0
    ensures prices == [] <==> forall a :: a in auctions ==> !(a.result == Sold && a.price.Truthy())
    ensures forall a :: a in auctions && a.result == Sold && a.price.Truthy() ==> a.price.value in prices
    ensures |auctions| == 1 ==>
      prices == (if auctions[0].result == Sold && auctions[0].price.Truthy() then [auctions[0].price.value] else [])
  {
    if auctions == [] then []
    else
      var front := auctions[..|auctions| - 1];
      var last := auctions[|auctions| - 1];
      assert auctions == front + [last];
      SoldPrices(front) + (if last.result == Sold && last.price.Truthy() then [last.price.value] else [])
  }

  /**
   * The prices of a concatenation are those of each part in turn; with the
   * one-record case this fixes the result as the prices of the sold, priced
   * records in their order, one per record.
   */
  lemma {:induction false} SoldPricesAppend(a: seq<RawAuctionData>, b: seq<RawAuctionData>)
    ensures SoldPrices(a + b) == SoldPrices(a) + SoldPrices(b)
    decreases |b|
  {
    if b == [] {
      assert a + b == a;
    } else {
      var front, last := b[..|b| - 1], b[|b| - 1];
      var tail := if last.result == Sold && last.price.Truthy() then [last.price.value] else [];
      assert SoldPrices(a + b) == SoldPrices(a + front) + tail by {
        assert a + b == (a + front) + [last];
        SoldPricesSnoc(a + front, last);
      }
      assert SoldPrices(b) == SoldPrices(front) + tail;
      SoldPricesAppend(a, front);
      ConcatAssociative(SoldPrices(a), SoldPrices(front), tail);
    }
  }

  /** One more element at the back adds its own part at the back */
  lemma SoldPricesSnoc(xs: seq<RawAuctionData>, x: RawAuctionData)
    ensures SoldPrices(xs + [x]) == SoldPrices(xs) + (if x.result == Sold && x.price.Truthy() then [x.price.value] else [])
  {
    assert (xs + [x])[..|xs|] == xs;
  }

  /** The figures `updateSuburbStats` writes for one group */
  datatype SuburbStats = SuburbStats(
    suburb: string,
    state: string,
    date: Date,
    totalAuctions: nat,
    soldCount: nat,
    passedInCount: nat,
    withdrawnCount: nat,
    clearanceRate: real,
    averagePrice: Option<real>,
    medianPrice: Option<real>)

  /** The mean of the prices, `null` when there is none */
  function AveragePrice(prices: seq<int>): (r: Option<real>)
    ensures r.None? <==> prices == []
    ensures r.Some? ==> Min(prices) as real <= r.value <= Max(prices) as real
  {
    if |prices| > 0 then MeanBetweenMinAndMax(prices); Some(Mean(prices)) else None
  }

  /** The median of the prices, `null` when there is none */
  function MedianPrice(prices: seq<int>): (r: Option<real>)
    ensures r.None? <==> prices == []
    ensures r.Some? ==> Min(prices) as real <= r.value <= Max(prices) as real
  {
    if |prices| > 0 then MedianBetweenMinAndMax(prices); Some(MedianOf(prices)) else None
  }

  /** The statistics of one non-empty group, filed under `suburb` and `state` */
  function GroupStats(suburb: string, state: string, auctions: seq<RawAuctionData>): (s: SuburbStats)
    requires |auctions| > 0
    ensures s.suburb == suburb && s.state == state && s.date == auctions[0].auctionDate
    ensures s.totalAuctions == |auctions|
    ensures s.soldCount + s.passedInCount + s.withdrawnCount == s.totalAuctions
    ensures 0.0 <= s.clearanceRate <= 100.0
    ensures s.averagePrice.None? <==> s.medianPrice.None?
    ensures s.averagePrice.None? <==> forall a :: a in auctions ==> !(a.result == Sold && a.price.Truthy())
    ensures s.soldCount == CountOf(auctions, Sold) && s.passedInCount == CountOf(auctions, PassedIn)
    ensures s.withdrawnCount == CountOf(auctions, Withdrawn)
    ensures s.clearanceRate == ClearanceRate(s.totalAuctions, s.soldCount)
    ensures s.averagePrice == AveragePrice(SoldPrices(auctions)) && s.medianPrice == MedianPrice(SoldPrices(auctions))
  {
    CountsAddUp(auctions);
    var prices := SoldPrices(auctions);
    var sold := CountOf(auctions, Sold);
    SuburbStats(suburb, state, auctions[0].auctionDate, |auctions|, sold,
      CountOf(auctions, PassedIn), CountOf(auctions, Withdrawn),
      ClearanceRate(|auctions|, sold), AveragePrice(prices), MedianPrice(prices))
  }

  /** The mean and the median price lie between the least and greatest sold price */
  lemma PricesWithinRange(suburb: string, state: string, auctions: seq<RawAuctionData>)
    requires |auctions| > 0
    ensures var s := GroupStats(suburb, state, auctions);
      var prices := SoldPrices(auctions);
      s.averagePrice.Some? ==>
        && Min(prices) as real <= s.averagePrice.value <= Max(prices) as real
        && Min(prices) as real <= s.medianPrice.value <= Max(prices) as real
  {
  }

  // ------------------------------------------------------------ group keys

  /**
   * The key of a group as `updateSuburbStats` builds it:
   * suburb, state and the `toDateString` of the date, joined by hyphens.
   */
  function TextKey(a: RawAuctionData): string {
    a.suburb + ("-" + (a.state + ("-" + a.auctionDate.day)))
  }

  /** `const [suburb, state] = key.split('-')`: the first two pieces of the key */
  function SplitKey(key: string): (string, string) {
    var pieces := SplitOn(key, IsHyphen);
    (pieces[0], if |pieces| > 1 then pieces[1] else "")
  }

  /** Names without a hyphen are read back from the key as they were */
  lemma PlainNamesReadBack(a: RawAuctionData)
    requires forall i :: 0 <= i < |a.suburb| ==> a.suburb[i] != '-'
    requires forall i :: 0 <= i < |a.state| ==> a.state[i] != '-'
    ensures SplitKey(TextKey(a)) == (a.suburb, a.state)
  {
    SplitOnSeparator(a.suburb, '-', a.state + ("-" + a.auctionDate.day), IsHyphen);
    SplitOnSeparator(a.state, '-', a.auctionDate.day, IsHyphen);
    SplitOnWhole(a.suburb, IsHyphen);
    SplitOnWhole(a.state, IsHyphen);
  }

  /**
   * A suburb with a hyphen is read back from the key as its part before the
   * first hyphen, which is not the suburb.
   */
  lemma HyphenatedSuburbMisread(a: RawAuctionData, before: string, after: string)
    requires a.suburb == before + ("-" + after)
    requires forall i :: 0 <= i < |before| ==> before[i] != '-'
    ensures SplitKey(TextKey(a)).0 == before != a.suburb
  {
    assert TextKey(a) == before + ("-" + (after + ("-" + (a.state + ("-" + a.auctionDate.day)))));
    SplitOnSeparator(before, '-', after + ("-" + (a.state + ("-" + a.auctionDate.day))), IsHyphen);
    SplitOnWhole(before, IsHyphen);
    assert |before| < |a.suburb|;
  }

  /** "Mount Kuring-Gai", NSW is read back as suburb "Mount Kuring" in state "Gai" */
  lemma MountKuringGaiMisread(a: RawAuctionData)
    requires a.suburb == "Mount Kuring-Gai" && a.state == "NSW"
    ensures SplitKey(TextKey(a)) == ("Mount Kuring", "Gai")
  {
    var before, after := "Mount Kuring", "Gai";
    assert '-' !in before && '-' !in after && '-' !in a.state;
    assert a.suburb == before + ("-" + after);
    OneHyphenSuburbReadBack(a, before, after);
  }

  /** A suburb with one hyphen is read back as its first half, in a state named by its second half */
  lemma OneHyphenSuburbReadBack(a: RawAuctionData, before: string, after: string)
    requires a.suburb == before + ("-" + after)
    requires '-' !in before && '-' !in after && '-' !in a.state
    ensures SplitKey(TextKey(a)) == (before, after)
  {
    NoHyphenIsOnePiece(before);
    NoHyphenIsOnePiece(after);
    NoHyphenIsOnePiece(a.state);
    var day := a.auctionDate.day;
    assert TextKey(a) == before + ("-" + (after + ("-" + (a.state + ("-" + day)))));
    SplitOnThree(before, after, a.state, day, '-', IsHyphen);
  }

  lemma NoHyphenIsOnePiece(s: string)
    requires '-' !in s
    ensures SplitOn(s, IsHyphen) == [s]
  {
    forall i | 0 <= i < |s| ensures !IsHyphen(s[i]) {
      assert s[i] in s;
    }
    SplitOnWhole(s, IsHyphen);
  }

  /** Two different suburb and state pairs can share one key */
  lemma TextKeysCollide(a: RawAuctionData, b: RawAuctionData, x: string, y: string, z: string)
    requires a.suburb == x + ("-" + y) && a.state == z
    requires b.suburb == x && b.state == y + ("-" + z)
    requires a.auctionDate.day == b.auctionDate.day
    ensures TextKey(a) == TextKey(b)
    ensures a.suburb != b.suburb
  {
    assert |a.suburb| > |b.suburb|;
    assert TextKey(a) == x + ("-" + (y + ("-" + (z + ("-" + a.auctionDate.day)))));
  }

  /** The key used here: suburb, state and calendar day kept apart */
  function GroupKey(a: RawAuctionData): (string, string, string) {
    (a.suburb, a.state, a.auctionDate.day)
  }

  /** Distinct records have the same `TextKey` only if they share a `GroupKey`, for names without hyphens */
  lemma PlainTextKeysAgree(a: RawAuctionData, b: RawAuctionData)
    requires forall i :: 0 <= i < |a.suburb| ==> a.suburb[i] != '-'
    requires forall i :: 0 <= i < |a.state| ==> a.state[i] != '-'
    requires forall i :: 0 <= i < |b.suburb| ==> b.suburb[i] != '-'
    requires forall i :: 0 <= i < |b.state| ==> b.state[i] != '-'
    ensures TextKey(a) == TextKey(b) ==> GroupKey(a) == GroupKey(b)
    ensures GroupKey(a) == GroupKey(b) ==> TextKey(a) == TextKey(b)
  {
    if TextKey(a) == TextKey(b) {
      PlainNamesReadBack(a);
      PlainNamesReadBack(b);
      var n := |a.suburb| + 1 + |a.state| + 1;
      assert TextKey(a)[n..] == a.auctionDate.day;
      assert TextKey(b)[n..] == b.auctionDate.day;
    }
  }

  /** The statistics of the groups as written: each group is filed under the names read back from its text key */
  function StatsAsWritten(data: seq<RawAuctionData>): (rows: seq<SuburbStats>)
    ensures |rows| == |KeyOrder(data, TextKey)|
  {
    var keys := KeyOrder(data, TextKey);
    KeyOrderHasMembers(data, TextKey);
    seq(|keys|, j requires 0 <= j < |keys| =>
      GroupStats(SplitKey(keys[j]).0, SplitKey(keys[j]).1, Members(data, TextKey, keys[j])))
  }

  /** A record of Mount Kuring-Gai, NSW is counted under "Mount Kuring", "Gai" as written */
  lemma MountKuringGaiStatsMisfiled(a: RawAuctionData)
    requires a.suburb == "Mount Kuring-Gai" && a.state == "NSW"
    ensures |StatsAsWritten([a])| == 1
    ensures StatsAsWritten([a])[0].suburb == "Mount Kuring"
    ensures StatsAsWritten([a])[0].state == "Gai"
  {
    MountKuringGaiMisread(a);
    assert [a][..0] == [];
    assert KeyOrder([a], TextKey) == [TextKey(a)];
  }

  /** The statistics of the groups, each filed under its own suburb and state */
  function StatsRows(data: seq<RawAuctionData>): (rows: seq<SuburbStats>)
    ensures |rows| == |KeyOrder(data, GroupKey)|
    ensures forall j :: 0 <= j < |rows| ==>
      rows[j].suburb == KeyOrder(data, GroupKey)[j].0 && rows[j].state == KeyOrder(data, GroupKey)[j].1
    ensures forall j :: 0 <= j < |rows| ==> rows[j].date.day == KeyOrder(data, GroupKey)[j].2
  {
    var keys := KeyOrder(data, GroupKey);
    KeyOrderHasMembers(data, GroupKey);
    seq(|keys|, j requires 0 <= j < |keys| => RowOf(data, keys[j]))
  }

  /** The one record of Mount Kuring-Gai, NSW is counted under its own names */
  lemma MountKuringGaiStatsFiled(a: RawAuctionData)
    requires a.suburb == "Mount Kuring-Gai" && a.state == "NSW"
    ensures |StatsRows([a])| == 1
    ensures StatsRows([a])[0].suburb == "Mount Kuring-Gai"
    ensures StatsRows([a])[0].state == "NSW"
  {
    assert [a][..0] == [];
    assert KeyOrder([a], GroupKey) == [GroupKey(a)];
  }

  /** The statistics of the group of key `k`, under the key's suburb and state */
  function RowOf(data: seq<RawAuctionData>, k: (string, string, string)): (row: SuburbStats)
    requires |Members(data, GroupKey, k)| > 0
    ensures row.suburb == k.0 && row.state == k.1 && row.date.day == k.2
    ensures row.totalAuctions == |Members(data, GroupKey, k)|
  {
    assert GroupKey(Members(data, GroupKey, k)[0]) == k;
    GroupStats(k.0, k.1, Members(data, GroupKey, k))
  }

  /** Every record is counted in the row of its own suburb and state, and in no other row */
  lemma RecordCountedUnderItsNames(data: seq<RawAuctionData>, i: nat)
    requires i < |data|
    ensures var keys := KeyOrder(data, GroupKey);
      && (forall k :: k in keys ==> |Members(data, GroupKey, k)| > 0)
      && GroupKey(data[i]) in keys
      && (forall j :: 0 <= j < |keys| && keys[j] == GroupKey(data[i]) ==>
            && StatsRows(data)[j].suburb == data[i].suburb
            && StatsRows(data)[j].state == data[i].state
            && data[i] in Members(data, GroupKey, keys[j]))
      && (forall j :: 0 <= j < |keys| && keys[j] != GroupKey(data[i]) ==>
            data[i] !in Members(data, GroupKey, keys[j]))
  {
    var keys := KeyOrder(data, GroupKey);
    KeyOrderHasMembers(data, GroupKey);
    KeyOrderCovers(data, GroupKey, i);
    assert data[i] in data;
    forall j | 0 <= j < |keys|
      ensures data[i] in Members(data, GroupKey, keys[j]) <==> keys[j] == GroupKey(data[i])
    {
      MembersIff(data, GroupKey, keys[j], data[i]);
    }
  }

  // ------------------------------------- the two groupings on plain names

  /** A record whose suburb and state have no hyphen */
  predicate PlainRecord(a: RawAuctionData) {
    && (forall i :: 0 <= i < |a.suburb| ==> a.suburb[i] != '-')
    && (forall i :: 0 <= i < |a.state| ==> a.state[i] != '-')
  }

  /** A key is listed exactly when some record has it */
  lemma {:induction false} KeyOrderIff<K>(data: seq<RawAuctionData>, key: RawAuctionData -> K, k: K)
    ensures k in KeyOrder(data, key) <==> exists a :: a in data && key(a) == k
  {
    if data != [] {
      var front := data[..|data| - 1];
      var last := data[|data| - 1];
      assert data == front + [last];
      KeyOrderIff(front, key, k);
      if exists a :: a in data && key(a) == k {
        var a :| a in data && key(a) == k;
        assert a in front || a == last;
      }
    }
  }

  /**
   * On plain names the text keys and the key triples list the same groups in
   * the same order: the j-th of each is the key of one and the same record.
   */
  lemma {:induction false} KeyOrdersAlign(data: seq<RawAuctionData>)
    requires forall a :: a in data ==> PlainRecord(a)
    ensures |KeyOrder(data, TextKey)| == |KeyOrder(data, GroupKey)|
    ensures forall j :: 0 <= j < |KeyOrder(data, TextKey)| ==>
      KeysOfOneRecord(data, KeyOrder(data, TextKey)[j], KeyOrder(data, GroupKey)[j])
  {
    if data != [] {
      var front := data[..|data| - 1];
      var x := data[|data| - 1];
      assert data == front + [x];
      assert PlainRecord(x) && forall a :: a in front ==> PlainRecord(a) by {
        assert x in data && forall a :: a in front ==> a in data;
      }
      KeyOrdersAlign(front);
      SameNewKey(front, x);
      KeyOrderStep(front, x, TextKey);
      KeyOrderStep(front, x, GroupKey);
      AlignedOneMore(front, x, data, KeyOrder(front, TextKey), KeyOrder(front, GroupKey),
                     KeyOrder(data, TextKey), KeyOrder(data, GroupKey));
    }
  }

  /** Some record of `data` has text key `t` and key triple `g` */
  predicate KeysOfOneRecord(data: seq<RawAuctionData>, t: string, g: (string, string, string)) {
    exists a :: a in data && t == TextKey(a) && g == GroupKey(a)
  }

  /** Aligned key orders stay aligned when both gain the keys of one more record, or neither does */
  lemma AlignedOneMore(front: seq<RawAuctionData>, x: RawAuctionData, data: seq<RawAuctionData>,
                       kt: seq<string>, kg: seq<(string, string, string)>,
                       kt': seq<string>, kg': seq<(string, string, string)>)
    requires data == front + [x] && |kt| == |kg|
    requires forall j :: 0 <= j < |kt| ==> KeysOfOneRecord(front, kt[j], kg[j])
    requires (kt' == kt && kg' == kg) || (kt' == kt + [TextKey(x)] && kg' == kg + [GroupKey(x)])
    ensures |kt'| == |kg'|
    ensures forall j :: 0 <= j < |kt'| ==> KeysOfOneRecord(data, kt'[j], kg'[j])
  {
    forall j | 0 <= j < |kt'| ensures KeysOfOneRecord(data, kt'[j], kg'[j]) {
      if j < |kt| {
        assert kt'[j] == kt[j] && kg'[j] == kg[j];
        assert KeysOfOneRecord(front, kt[j], kg[j]);
        var a :| a in front && kt[j] == TextKey(a) && kg[j] == GroupKey(a);
        assert a in data;
      } else {
        assert x in data && kt'[j] == TextKey(x) && kg'[j] == GroupKey(x);
      }
    }
  }

  /** On plain names a record's text key is new exactly when its key triple is */
  lemma SameNewKey(front: seq<RawAuctionData>, x: RawAuctionData)
    requires PlainRecord(x) && forall a :: a in front ==> PlainRecord(a)
    ensures TextKey(x) in KeyOrder(front, TextKey) <==> GroupKey(x) in KeyOrder(front, GroupKey)
  {
    KeyOrderIff(front, TextKey, TextKey(x));
    KeyOrderIff(front, GroupKey, GroupKey(x));
    forall a | a in front ensures TextKey(a) == TextKey(x) <==> GroupKey(a) == GroupKey(x) {
      PlainTextKeysAgree(a, x);
    }
  }

  /** On plain names a record's text-key group and its key-triple group are the same records */
  lemma {:induction false} MembersAlign(data: seq<RawAuctionData>, a: RawAuctionData)
    requires PlainRecord(a) && forall b :: b in data ==> PlainRecord(b)
    ensures Members(data, TextKey, TextKey(a)) == Members(data, GroupKey, GroupKey(a))
  {
    if data != [] {
      var front := data[..|data| - 1];
      var x := data[|data| - 1];
      assert data == front + [x];
      assert x in data && forall b :: b in front ==> b in data;
      MembersAlign(front, a);
      PlainTextKeysAgree(x, a);
    }
  }

  /**
   * Where no suburb or state has a hyphen, the statistics as written and the
   * statistics filed under each record's own names are the same rows.
   */
  lemma PlainStatsAgree(data: seq<RawAuctionData>)
    requires forall a :: a in data ==> PlainRecord(a)
    ensures StatsAsWritten(data) == StatsRows(data)
  {
    var written, rows := StatsAsWritten(data), StatsRows(data);
    KeyOrdersAlign(data);
    forall j | 0 <= j < |written| ensures written[j] == rows[j] {
      assert KeysOfOneRecord(data, KeyOrder(data, TextKey)[j], KeyOrder(data, GroupKey)[j]);
      var a :| a in data && KeyOrder(data, TextKey)[j] == TextKey(a) && KeyOrder(data, GroupKey)[j] == GroupKey(a);
      PlainNamesReadBack(a);
      MembersAlign(data, a);
    }
  }
}
