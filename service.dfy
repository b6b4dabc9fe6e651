/**
 * `ScraperService` of src/lib/scrapers/scraper-service.ts: a scrape's records
 * are upserted into the database in batches of 100, the suburb statistics are
 * recomputed from them, and every run leaves one scrape log.
 *
 * The database is an in-memory `Database` object with one map per table.
 * Whether the database refuses a record, or a statistics row, is given by
 * the functions `refuses` and `fails`.
 */
module ScraperService {
  import opened Wrappers
  import opened Records
  import opened Retry
  import opened Median
  import opened SuburbGrouping

  // ------------------------------------------------------------------ tables

  /** The unique key of the auction table: address and auction date, without the source */
  type AuctionKey = (string, Date)

  /** The unique key of the statistics table: suburb, state and date */
  type StatsKey = (string, string, Date)

  /** A stored auction; `updatedAt` is set when an update touches it */
  datatype StoredAuction = StoredAuction(record: RawAuctionData, updatedAt: Option<Date>)

  datatype StoredStats = StoredStats(stats: SuburbStats, updatedAt: Option<Date>)

  datatype Status = Success | Failed

  datatype ScrapeLog = ScrapeLog(
    source: Source,
    status: Status,
    startTime: Date,
    endTime: Date,
    recordCount: Option<int>,
    errorLog: Option<string>)

  function AuctionKeyOf(a: RawAuctionData): AuctionKey {
    (a.address, a.auctionDate)
  }

  function StatsKeyOf(s: SuburbStats): StatsKey {
    (s.suburb, s.state, s.date)
  }

  /**
   * The `update` half of the auction upsert: price, result and source are
   * taken from the new record and every other field stays. An absent price
   * (`undefined`) leaves the stored price.
   */
  function Updated(stored: RawAuctionData, a: RawAuctionData): (r: RawAuctionData)
    ensures r.result == a.result && r.source == a.source
    ensures a.price != NoPrice ==> r.price == a.price
    ensures a.price == NoPrice ==> r.price == stored.price
    ensures r.(price := stored.price, result := stored.result, source := stored.source) == stored
  {
    stored.(price := if a.price == NoPrice then stored.price else a.price, result := a.result, source := a.source)
  }

  /** The auction table after upserting `a`; a record the database refuses leaves it as it was */
  function AuctionUpserted(m: map<AuctionKey, StoredAuction>, a: RawAuctionData, now: Date,
                           refuses: RawAuctionData -> bool): (r: map<AuctionKey, StoredAuction>)
    ensures refuses(a) ==> r == m
    ensures !refuses(a) ==> r.Keys == m.Keys + {AuctionKeyOf(a)}
    ensures forall k :: k in m && k != AuctionKeyOf(a) ==> k in r && r[k] == m[k]
    ensures !refuses(a) && AuctionKeyOf(a) !in m ==> r[AuctionKeyOf(a)] == StoredAuction(a, None)
    ensures !refuses(a) && AuctionKeyOf(a) in m ==>
      r[AuctionKeyOf(a)] == StoredAuction(Updated(m[AuctionKeyOf(a)].record, a), Some(now))
  {
    var key := AuctionKeyOf(a);
    if refuses(a) then m
    else if key in m then m[key := StoredAuction(Updated(m[key].record, a), Some(now))]
    else m[key := StoredAuction(a, None)]
  }

  /** The auction table after upserting the records one after the other */
  function UpsertAll(m: map<AuctionKey, StoredAuction>, xs: seq<RawAuctionData>, now: Date,
                     refuses: RawAuctionData -> bool): (r: map<AuctionKey, StoredAuction>)
    ensures m.Keys <= r.Keys
    ensures forall i :: 0 <= i < |xs| && !refuses(xs[i]) ==> AuctionKeyOf(xs[i]) in r
    ensures forall k :: k in m && (forall i :: 0 <= i < |xs| ==> AuctionKeyOf(xs[i]) != k || refuses(xs[i])) ==>
      r[k] == m[k]
  {
    if xs == [] then m
    else
      var front := xs[..|xs| - 1];
      assert forall i :: 0 <= i < |front| ==> front[i] == xs[i];
      AuctionUpserted(UpsertAll(m, front, now, refuses), xs[|xs| - 1], now, refuses)
  }

  /** One more record is upserted into the table the earlier ones left */
  lemma UpsertAllStep(m: map<AuctionKey, StoredAuction>, xs: seq<RawAuctionData>, a: RawAuctionData, now: Date,
                      refuses: RawAuctionData -> bool)
    ensures UpsertAll(m, xs + [a], now, refuses) == AuctionUpserted(UpsertAll(m, xs, now, refuses), a, now, refuses)
  {
    assert (xs + [a])[..|xs|] == xs;
  }

  /** Upserting two records with the same address and date leaves one row, holding the later outcome */
  lemma SameKeyTwiceLeavesOne(m: map<AuctionKey, StoredAuction>, a: RawAuctionData, b: RawAuctionData,
                              t1: Date, t2: Date, refuses: RawAuctionData -> bool)
    requires AuctionKeyOf(a) == AuctionKeyOf(b) && !refuses(a) && !refuses(b)
    ensures var r := AuctionUpserted(AuctionUpserted(m, a, t1, refuses), b, t2, refuses);
      && r.Keys == m.Keys + {AuctionKeyOf(a)}
      && |r.Keys| == |m.Keys| + (if AuctionKeyOf(a) in m then 0 else 1)
      && r[AuctionKeyOf(a)].record.result == b.result
      && r[AuctionKeyOf(a)].record.source == b.source
      && r[AuctionKeyOf(a)].updatedAt == Some(t2)
  {
    var key := AuctionKeyOf(a);
    if key in m {
      assert m.Keys + {key} == m.Keys;
    } else {
      assert |m.Keys + {key}| == |m.Keys| + 1;
    }
  }

  /**
   * The row of a record that no later record of the same address and date
   * overrides holds that record's result and source.
   */
  lemma {:induction false} LastWriteWins(m: map<AuctionKey, StoredAuction>, xs: seq<RawAuctionData>, now: Date,
                                         refuses: RawAuctionData -> bool, i: nat)
    requires i < |xs| && !refuses(xs[i])
    requires forall j :: i < j < |xs| ==> AuctionKeyOf(xs[j]) != AuctionKeyOf(xs[i]) || refuses(xs[j])
    ensures AuctionKeyOf(xs[i]) in UpsertAll(m, xs, now, refuses)
    ensures UpsertAll(m, xs, now, refuses)[AuctionKeyOf(xs[i])].record.result == xs[i].result
    ensures UpsertAll(m, xs, now, refuses)[AuctionKeyOf(xs[i])].record.source == xs[i].source
  {
    var front := xs[..|xs| - 1];
    if i < |xs| - 1 {
      assert front[i] == xs[i];
      assert forall j :: i < j < |front| ==> front[j] == xs[j];
      LastWriteWins(m, front, now, refuses, i);
    }
  }

  /** The statistics table after upserting one row: every figure is replaced */
  function StatsUpserted(m: map<StatsKey, StoredStats>, s: SuburbStats, now: Date): (r: map<StatsKey, StoredStats>)
    ensures r.Keys == m.Keys + {StatsKeyOf(s)}
    ensures r[StatsKeyOf(s)].stats == s
    ensures r[StatsKeyOf(s)].updatedAt == (if StatsKeyOf(s) in m then Some(now) else None)
    ensures forall k :: k in m && k != StatsKeyOf(s) ==> r[k] == m[k]
  {
    var key := StatsKeyOf(s);
    m[key := StoredStats(s, if key in m then Some(now) else None)]
  }

  /**
   * The statistics table after writing the rows in order, and the error of the
   * first write that fails; the rows after it are not written.
   */
  function StatsWritten(m: map<StatsKey, StoredStats>, rows: seq<SuburbStats>, now: Date,
                        fails: StatsKey -> Option<Error>): (r: (map<StatsKey, StoredStats>, Option<Error>))
    ensures r.1.None? <==> forall j :: 0 <= j < |rows| ==> fails(StatsKeyOf(rows[j])).None?
    ensures m.Keys <= r.0.Keys
  {
    if rows == [] then (m, None)
    else
      var front := rows[..|rows| - 1];
      var last := rows[|rows| - 1];
      assert forall j :: 0 <= j < |front| ==> front[j] == rows[j];
      var before := StatsWritten(m, front, now, fails);
      if before.1.Some? then before
      else match fails(StatsKeyOf(last))
        case Some(e) => (before.0, Some(e))
        case None => (StatsUpserted(before.0, last, now), None)
  }

  /** Writing one more row after rows that were all written */
  lemma StatsWrittenStep(m: map<StatsKey, StoredStats>, rows: seq<SuburbStats>, j: nat, now: Date,
                         fails: StatsKey -> Option<Error>)
    requires j < |rows| && StatsWritten(m, rows[..j], now, fails).1.None?
    ensures var before := StatsWritten(m, rows[..j], now, fails).0;
      StatsWritten(m, rows[..j + 1], now, fails) ==
        if fails(StatsKeyOf(rows[j])).Some? then (before, fails(StatsKeyOf(rows[j])))
        else (StatsUpserted(before, rows[j], now), None)
  {
    assert rows[..j + 1][..j] == rows[..j];
  }

  /** Once a write has failed, later rows change nothing */
  lemma {:induction false} StatsWrittenStops(m: map<StatsKey, StoredStats>, rows: seq<SuburbStats>, n: nat, now: Date,
                                             fails: StatsKey -> Option<Error>)
    requires n <= |rows| && StatsWritten(m, rows[..n], now, fails).1.Some?
    ensures StatsWritten(m, rows, now, fails) == StatsWritten(m, rows[..n], now, fails)
    decreases |rows| - n
  {
    if n < |rows| {
      assert rows[..|rows| - 1][..n] == rows[..n];
      StatsWrittenStops(m, rows[..|rows| - 1], n, now, fails);
    } else {
      assert rows[..n] == rows;
    }
  }

  /** The loop of `updateSuburbStats` ends after the last row or at the first failure, having written all it will */
  lemma StatsWrittenDone(m: map<StatsKey, StoredStats>, rows: seq<SuburbStats>, n: nat, now: Date,
                         fails: StatsKey -> Option<Error>)
    requires n <= |rows| && (n < |rows| ==> StatsWritten(m, rows[..n], now, fails).1.Some?)
    ensures StatsWritten(m, rows, now, fails) == StatsWritten(m, rows[..n], now, fails)
  {
    if n < |rows| {
      StatsWrittenStops(m, rows, n, now, fails);
    } else {
      assert rows[..n] == rows;
    }
  }

  /** When no write fails, every row is stored under its key, given that the keys are distinct */
  lemma {:induction false} AllStatsStored(m: map<StatsKey, StoredStats>, rows: seq<SuburbStats>, now: Date,
                                          fails: StatsKey -> Option<Error>)
    requires forall j :: 0 <= j < |rows| ==> fails(StatsKeyOf(rows[j])).None?
    requires forall i, j :: 0 <= i < j < |rows| ==> StatsKeyOf(rows[i]) != StatsKeyOf(rows[j])
    ensures forall j :: 0 <= j < |rows| ==>
      StatsKeyOf(rows[j]) in StatsWritten(m, rows, now, fails).0 &&
      StatsWritten(m, rows, now, fails).0[StatsKeyOf(rows[j])].stats == rows[j]
  {
    if rows != [] {
      var front := rows[..|rows| - 1];
      assert forall j :: 0 <= j < |front| ==> front[j] == rows[j];
      AllStatsStored(m, front, now, fails);
    }
  }

  /** The rows of different groups have different keys in the statistics table */
  lemma StatsRowKeysDistinct(data: seq<RawAuctionData>)
    ensures var rows := StatsRows(data);
      forall i, j :: 0 <= i < j < |rows| ==> StatsKeyOf(rows[i]) != StatsKeyOf(rows[j])
  {
    var rows := StatsRows(data);
    var keys := KeyOrder(data, GroupKey);
    forall i, j | 0 <= i < j < |rows| ensures StatsKeyOf(rows[i]) != StatsKeyOf(rows[j]) {
      assert keys[i] != keys[j];
    }
  }

  /** With no failing write, the statistics of every group of the records are stored */
  lemma EveryGroupStored(m: map<StatsKey, StoredStats>, data: seq<RawAuctionData>, now: Date,
                         fails: StatsKey -> Option<Error>)
    requires forall k :: fails(k).None?
    ensures var rows := StatsRows(data);
      forall j :: 0 <= j < |rows| ==>
        StatsKeyOf(rows[j]) in StatsWritten(m, rows, now, fails).0 &&
        StatsWritten(m, rows, now, fails).0[StatsKeyOf(rows[j])].stats == rows[j]
  {
    StatsRowKeysDistinct(data);
    AllStatsStored(m, StatsRows(data), now, fails);
  }

  // ----------------------------------------------------------------- batches

  const BatchSize: nat := 100

  /** `data.slice(i, i + batchSize)` */
  function Batch(data: seq<RawAuctionData>, i: nat): (b: seq<RawAuctionData>)
    requires i < |data|
    ensures 0 < |b| <= BatchSize
  {
    data[i..if i + BatchSize <= |data| then i + BatchSize else |data|]
  }

  /** The batches from index `i` on, as the loop of `saveAuctionData` cuts them */
  function Batches(data: seq<RawAuctionData>, i: nat): seq<seq<RawAuctionData>>
    decreases |data| - i
  {
    if i >= |data| then []
    else [Batch(data, i)] + Batches(data, i + BatchSize)
  }

  /** Every batch holds one to 100 records, and every batch but the last holds 100 */
  lemma {:induction false} BatchSizes(data: seq<RawAuctionData>, i: nat)
    ensures var bs := Batches(data, i);
      && (forall j :: 0 <= j < |bs| ==> 0 < |bs[j]| <= BatchSize)
      && (forall j :: 0 <= j < |bs| - 1 ==> |bs[j]| == BatchSize)
    decreases |data| - i
  {
    if i < |data| {
      BatchSizes(data, i + BatchSize);
      var bs := Batches(data, i);
      assert forall j :: 1 <= j < |bs| ==> bs[j] == Batches(data, i + BatchSize)[j - 1];
    }
  }

  /** The `n`-th batch from index `i` starts at `i + 100 * n` */
  lemma {:induction false} BatchIsNth(data: seq<RawAuctionData>, i: nat, n: nat)
    requires i + BatchSize * n < |data|
    ensures n < |Batches(data, i)| && Batches(data, i)[n] == Batch(data, i + BatchSize * n)
    decreases n
  {
    if n > 0 {
      BatchIsNth(data, i + BatchSize, n - 1);
    }
  }

  function Flatten(bs: seq<seq<RawAuctionData>>): seq<RawAuctionData> {
    if bs == [] then [] else Flatten(bs[..|bs| - 1]) + bs[|bs| - 1]
  }

  lemma {:induction false} FlattenPrepend(b: seq<RawAuctionData>, bs: seq<seq<RawAuctionData>>)
    ensures Flatten([b] + bs) == b + Flatten(bs)
  {
    if bs != [] {
      assert ([b] + bs)[..|bs|] == [b] + bs[..|bs| - 1];
      FlattenPrepend(b, bs[..|bs| - 1]);
    } else {
      assert ([b] + bs)[..0] == [];
    }
  }

  /** The batches, in order, are the records from index `i` on */
  lemma {:induction false} BatchesPartition(data: seq<RawAuctionData>, i: nat)
    requires i <= |data|
    ensures Flatten(Batches(data, i)) == data[i..]
    decreases |data| - i
  {
    if i < |data| {
      var next := if i + BatchSize <= |data| then i + BatchSize else |data|;
      BatchesPartition(data, next);
      assert Batches(data, next) == Batches(data, i + BatchSize);
      FlattenPrepend(Batch(data, i), Batches(data, i + BatchSize));
      assert data[i..] == data[i..next] + data[next..];
    }
  }

  // ---------------------------------------------------------------- database

  class Database {
    var auctions: map<AuctionKey, StoredAuction>
    var suburbStats: map<StatsKey, StoredStats>
    var scrapeLogs: seq<ScrapeLog>

    constructor ()
      ensures auctions == map[] && suburbStats == map[] && scrapeLogs == []
    {
      auctions := map[];
      suburbStats := map[];
      scrapeLogs := [];
    }

    /** `prisma.auction.upsert` inside its `try`: a refused record is logged and skipped */
    method UpsertAuction(a: RawAuctionData, now: Date, refuses: RawAuctionData -> bool)
      modifies this
      ensures auctions == AuctionUpserted(old(auctions), a, now, refuses)
      ensures suburbStats == old(suburbStats) && scrapeLogs == old(scrapeLogs)
    {
      auctions := AuctionUpserted(auctions, a, now, refuses);
    }

    /** `prisma.suburbStats.upsert`, which may throw */
    method UpsertStats(s: SuburbStats, now: Date, fails: StatsKey -> Option<Error>) returns (error: Option<Error>)
      modifies this
      ensures error == fails(StatsKeyOf(s))
      ensures suburbStats == if error.Some? then old(suburbStats) else StatsUpserted(old(suburbStats), s, now)
      ensures auctions == old(auctions) && scrapeLogs == old(scrapeLogs)
    {
      error := fails(StatsKeyOf(s));
      if error.None? {
        suburbStats := StatsUpserted(suburbStats, s, now);
      }
    }

    /** `prisma.scrapeLog.create` */
    method CreateLog(log: ScrapeLog)
      modifies this
      ensures scrapeLogs == old(scrapeLogs) + [log]
      ensures auctions == old(auctions) && suburbStats == old(suburbStats)
    {
      scrapeLogs := scrapeLogs + [log];
    }
  }

  // ------------------------------------------------------------------ saving

  /** The statistics of one group, with the median taken by `calculateMedian` */
  method ComputeStats(suburb: string, state: string, auctions: seq<RawAuctionData>) returns (s: SuburbStats)
    requires |auctions| > 0
    ensures s == GroupStats(suburb, state, auctions)
  {
    var prices := SoldPrices(auctions);
    var median: Option<real> := None;
    if |prices| > 0 {
      var numbers := new int[|prices|](k requires 0 <= k < |prices| => prices[k]);
      assert numbers[..] == prices;
      var m := CalculateMedian(numbers);
      median := Some(m);
    }
    var sold := CountOf(auctions, Sold);
    s := SuburbStats(suburb, state, auctions[0].auctionDate, |auctions|, sold,
      CountOf(auctions, PassedIn), CountOf(auctions, Withdrawn),
      ClearanceRate(|auctions|, sold), AveragePrice(prices), median);
  }

  /**
   * `updateSuburbStats`: the records are grouped by suburb, state and day and
   * one statistics row is upserted per group, in order, until a write fails.
   */
  method UpdateSuburbStats(db: Database, data: seq<RawAuctionData>, now: Date, fails: StatsKey -> Option<Error>)
      returns (error: Option<Error>)
    modifies db
    ensures (db.suburbStats, error) == StatsWritten(old(db.suburbStats), StatsRows(data), now, fails)
    ensures db.auctions == old(db.auctions) && db.scrapeLogs == old(db.scrapeLogs)
  {
    ghost var m := db.suburbStats;
    var keys, groups := GroupBy(data, GroupKey);
    ghost var rows := StatsRows(data);
    assert |rows| == |keys|;
    error := None;
    var j := 0;
    while j < |keys| && error.None?
      invariant 0 <= j <= |keys|
      invariant (db.suburbStats, error) == StatsWritten(m, rows[..j], now, fails)
      invariant db.auctions == old(db.auctions) && db.scrapeLogs == old(db.scrapeLogs)
    {
      var k := keys[j];
      error := WriteGroupStats(db, data, k, groups[k], now, fails, m, rows, j);
      j := j + 1;
    }
    StatsWrittenDone(m, rows, j, now, fails);
  }

  /** One key of the loop of `updateSuburbStats`: the statistics of its group, computed and upserted */
  method WriteGroupStats(db: Database, data: seq<RawAuctionData>, k: (string, string, string), group: seq<RawAuctionData>,
                         now: Date, fails: StatsKey -> Option<Error>,
                         ghost m: map<StatsKey, StoredStats>, ghost rows: seq<SuburbStats>, ghost j: nat)
      returns (error: Option<Error>)
    requires rows == StatsRows(data) && j < |rows| && k == KeyOrder(data, GroupKey)[j]
    requires group == Members(data, GroupKey, k)
    requires StatsWritten(m, rows[..j], now, fails) == (db.suburbStats, None)
    modifies db
    ensures (db.suburbStats, error) == StatsWritten(m, rows[..j + 1], now, fails)
    ensures db.auctions == old(db.auctions) && db.scrapeLogs == old(db.scrapeLogs)
  {
    KeyOrderHasMembers(data, GroupKey);
    var s := ComputeStats(k.0, k.1, group);
    assert s == rows[j];
    StatsWrittenStep(m, rows, j, now, fails);
    error := db.UpsertStats(s, now, fails);
  }

  /** One batch of `saveAuctionData`: its records are upserted in order */
  method SaveBatch(db: Database, batch: seq<RawAuctionData>, now: Date, refuses: RawAuctionData -> bool,
                   ghost m: map<AuctionKey, StoredAuction>, ghost before: seq<RawAuctionData>)
    requires db.auctions == UpsertAll(m, before, now, refuses)
    modifies db
    ensures db.auctions == UpsertAll(m, before + batch, now, refuses)
    ensures db.suburbStats == old(db.suburbStats) && db.scrapeLogs == old(db.scrapeLogs)
  {
    var j := 0;
    assert before + batch[..0] == before;
    while j < |batch|
      invariant 0 <= j <= |batch|
      invariant db.auctions == UpsertAll(m, before + batch[..j], now, refuses)
      invariant db.suburbStats == old(db.suburbStats) && db.scrapeLogs == old(db.scrapeLogs)
    {
      db.UpsertAuction(batch[j], now, refuses);
      UpsertAllStep(m, before + batch[..j], batch[j], now, refuses);
      assert before + batch[..j + 1] == (before + batch[..j]) + [batch[j]];
      j := j + 1;
    }
    assert batch[..j] == batch;
  }

  /**
   * `saveAuctionData`: the records are upserted batch by batch, in order,
   * then the statistics are updated; the error is that of the statistics.
   */
  method SaveAuctionData(db: Database, data: seq<RawAuctionData>, now: Date,
                         refuses: RawAuctionData -> bool, fails: StatsKey -> Option<Error>)
      returns (error: Option<Error>)
    modifies db
    ensures db.auctions == UpsertAll(old(db.auctions), data, now, refuses)
    ensures (db.suburbStats, error) == StatsWritten(old(db.suburbStats), StatsRows(data), now, fails)
    ensures db.scrapeLogs == old(db.scrapeLogs)
  {
    ghost var m := db.auctions;
    var i := 0;
    ghost var n := 0;
    while i < |data|
      invariant i == BatchSize * n
      invariant db.auctions == UpsertAll(m, data[..if i <= |data| then i else |data|], now, refuses)
      invariant db.suburbStats == old(db.suburbStats) && db.scrapeLogs == old(db.scrapeLogs)
      decreases |data| - i
    {
      var _ := SaveNextBatch(db, data, i, n, now, refuses, m);
      i := i + BatchSize;
      n := n + 1;
    }
    assert data[..|data|] == data;
    error := UpdateSuburbStats(db, data, now, fails);
  }

  /** Batch `n` of `saveAuctionData`, the one that starts at record `i`, saved after the ones before it */
  method SaveNextBatch(db: Database, data: seq<RawAuctionData>, i: nat, ghost n: nat, now: Date,
                       refuses: RawAuctionData -> bool, ghost m: map<AuctionKey, StoredAuction>)
      returns (end: nat)
    requires i == BatchSize * n && i < |data|
    requires db.auctions == UpsertAll(m, data[..i], now, refuses)
    modifies db
    ensures end == if i + BatchSize <= |data| then i + BatchSize else |data|
    ensures db.auctions == UpsertAll(m, data[..end], now, refuses)
    ensures db.suburbStats == old(db.suburbStats) && db.scrapeLogs == old(db.scrapeLogs)
  {
    end := if i + BatchSize <= |data| then i + BatchSize else |data|;
    var batch := data[i..end];
    BatchIsNth(data, 0, n);
    assert batch == Batches(data, 0)[n];
    SaveBatch(db, batch, now, refuses, m, data[..i]);
    assert data[..i] + batch == data[..end];
  }

  // ----------------------------------------------------------------- running

  /** A scraper run saves its records when `result.success && result.data` */
  predicate Saves(outcome: Outcome<ScraperResult>) {
    outcome.Returned? && outcome.value.success && outcome.value.data.Some?
  }

  /** `error instanceof Error ? error.message : 'Unknown error'` */
  function ErrorText(e: Error): (text: string)
    ensures e.message.Some? ==> text == e.message.value
  {
    e.message.GetOr("Unknown error")
  }

  /**
   * The log a run writes: 'success' with the record count when the records
   * were saved without error, 'failed' with the error text otherwise.
   */
  function RunLog(source: Source, outcome: Outcome<ScraperResult>, saveError: Option<Error>,
                  start: Date, end: Date): (log: ScrapeLog)
    ensures log.source == source && log.startTime == start && log.endTime == end
    ensures log.status == Success <==> Saves(outcome) && saveError.None?
    ensures log.status == Success ==> log.recordCount == Some(outcome.value.recordCount) && log.errorLog.None?
    ensures log.status == Failed ==> log.recordCount.None?
    ensures outcome.Returned? && !Saves(outcome) ==> log.errorLog == outcome.value.error
    ensures outcome.Threw? ==> log.errorLog == Some(ErrorText(outcome.error))
    ensures Saves(outcome) && saveError.Some? ==> log.errorLog == Some(ErrorText(saveError.value))
  {
    match outcome
    case Threw(e) => ScrapeLog(source, Failed, start, end, None, Some(ErrorText(e)))
    case Returned(result) =>
      if result.success && result.data.Some? then
        match saveError
        case None => ScrapeLog(source, Success, start, end, Some(result.recordCount), None)
        case Some(e) => ScrapeLog(source, Failed, start, end, None, Some(ErrorText(e)))
      else ScrapeLog(source, Failed, start, end, None, result.error)
  }

  /** The auction table after a run: its records are upserted when it saves them */
  function AuctionsAfterRun(m: map<AuctionKey, StoredAuction>, outcome: Outcome<ScraperResult>, now: Date,
                            refuses: RawAuctionData -> bool): map<AuctionKey, StoredAuction> {
    if Saves(outcome) then UpsertAll(m, outcome.value.data.value, now, refuses) else m
  }

  /** The statistics table after a run, and the error of its statistics */
  function StatsAfterRun(m: map<StatsKey, StoredStats>, outcome: Outcome<ScraperResult>, now: Date,
                         fails: StatsKey -> Option<Error>): (map<StatsKey, StoredStats>, Option<Error>) {
    if Saves(outcome) then StatsWritten(m, StatsRows(outcome.value.data.value), now, fails) else (m, None)
  }

  /**
   * A log is 'success' only if the run saved its records without a statistics
   * error, and then every record the database did not refuse is in the auction table.
   */
  lemma SuccessMeansSaved(source: Source, outcome: Outcome<ScraperResult>, saveError: Option<Error>,
                          start: Date, end: Date, m: map<AuctionKey, StoredAuction>, now: Date,
                          refuses: RawAuctionData -> bool)
    requires RunLog(source, outcome, saveError, start, end).status == Success
    ensures Saves(outcome) && saveError.None?
    ensures var data := outcome.value.data.value;
      forall i :: 0 <= i < |data| && !refuses(data[i]) ==> AuctionKeyOf(data[i]) in AuctionsAfterRun(m, outcome, now, refuses)
  {
  }

  /**
   * A refused auction write is only logged to the console: a run whose every
   * record is refused leaves the auction table as it was and still logs
   * 'success' when its statistics are written.
   */
  lemma {:induction false} RefusedWritesStillSucceed(source: Source, outcome: Outcome<ScraperResult>,
                                                     m: map<AuctionKey, StoredAuction>, stats: map<StatsKey, StoredStats>,
                                                     now: Date, fails: StatsKey -> Option<Error>, start: Date, end: Date)
    requires Saves(outcome) && forall k :: fails(k).None?
    ensures AuctionsAfterRun(m, outcome, now, a => true) == m
    ensures RunLog(source, outcome, StatsAfterRun(stats, outcome, now, fails).1, start, end).status == Success
  {
    NothingUpserted(m, outcome.value.data.value, now);
  }

  /** Upserting records that are all refused changes nothing */
  lemma {:induction false} NothingUpserted(m: map<AuctionKey, StoredAuction>, xs: seq<RawAuctionData>, now: Date)
    ensures UpsertAll(m, xs, now, a => true) == m
  {
    if xs != [] {
      NothingUpserted(m, xs[..|xs| - 1], now);
    }
  }

  /**
   * `runDomainScraper` and `runREAScraper`, which differ only in the source
   * they log: the scraper's outcome is given, the records are saved when the
   * result succeeded with data, and one log is written.
   */
  method RunScraper(db: Database, source: Source, outcome: Outcome<ScraperResult>,
                    refuses: RawAuctionData -> bool, fails: StatsKey -> Option<Error>,
                    start: Date, end: Date, now: Date)
    modifies db
    ensures Saves(outcome) ==>
      var data := outcome.value.data.value;
      var written := StatsWritten(old(db.suburbStats), StatsRows(data), now, fails);
      && db.auctions == UpsertAll(old(db.auctions), data, now, refuses)
      && db.suburbStats == written.0
      && db.scrapeLogs == old(db.scrapeLogs) + [RunLog(source, outcome, written.1, start, end)]
    ensures !Saves(outcome) ==>
      && db.auctions == old(db.auctions) && db.suburbStats == old(db.suburbStats)
      && db.scrapeLogs == old(db.scrapeLogs) + [RunLog(source, outcome, None, start, end)]
    ensures db.auctions == AuctionsAfterRun(old(db.auctions), outcome, now, refuses)
    ensures var after := StatsAfterRun(old(db.suburbStats), outcome, now, fails);
      db.suburbStats == after.0 && db.scrapeLogs == old(db.scrapeLogs) + [RunLog(source, outcome, after.1, start, end)]
    ensures LogAppended(old(db.scrapeLogs), db.scrapeLogs, source)
  {
    var log: ScrapeLog;
    match outcome {
      case Threw(e) =>
        log := ScrapeLog(source, Failed, start, end, None, Some(ErrorText(e)));
      case Returned(result) =>
        if result.success && result.data.Some? {
          var error := SaveAuctionData(db, result.data.value, now, refuses, fails);
          if error.Some? {
            log := ScrapeLog(source, Failed, start, end, None, Some(ErrorText(error.value)));
          } else {
            log := ScrapeLog(source, Success, start, end, Some(result.recordCount), None);
          }
        } else {
          log := ScrapeLog(source, Failed, start, end, None, result.error);
        }
    }
    db.CreateLog(log);
  }

  /** `after` is `before` with one more log, written for `source` */
  predicate LogAppended(before: seq<ScrapeLog>, after: seq<ScrapeLog>, source: Source) {
    |after| == |before| + 1 && after[..|before|] == before && after[|before|].source == source
  }

  /**
   * `runAllScrapers`: the Domain run, then the REA run, each saving its records
   * on the tables the one before left and writing its own log.
   */
  method RunAllScrapers(db: Database, domain: Outcome<ScraperResult>, rea: Outcome<ScraperResult>,
                        refuses: RawAuctionData -> bool, fails: StatsKey -> Option<Error>,
                        domainStart: Date, domainEnd: Date, reaStart: Date, reaEnd: Date, now: Date)
    modifies db
    ensures var afterDomain := AuctionsAfterRun(old(db.auctions), domain, now, refuses);
      db.auctions == AuctionsAfterRun(afterDomain, rea, now, refuses)
    ensures var afterDomain := StatsAfterRun(old(db.suburbStats), domain, now, fails);
      var afterRea := StatsAfterRun(afterDomain.0, rea, now, fails);
      && db.suburbStats == afterRea.0
      && db.scrapeLogs == old(db.scrapeLogs) + [RunLog(Domain, domain, afterDomain.1, domainStart, domainEnd),
                                                RunLog(Rea, rea, afterRea.1, reaStart, reaEnd)]
    ensures |db.scrapeLogs| == |old(db.scrapeLogs)| + 2
    ensures db.scrapeLogs[|old(db.scrapeLogs)|].source == Domain
    ensures db.scrapeLogs[|old(db.scrapeLogs)| + 1].source == Rea
  {
    ghost var logs := db.scrapeLogs;
    RunScraper(db, Domain, domain, refuses, fails, domainStart, domainEnd, now);
    ghost var domainLog := db.scrapeLogs[|logs|];
    RunScraper(db, Rea, rea, refuses, fails, reaStart, reaEnd, now);
    assert db.scrapeLogs == logs + [domainLog] + [db.scrapeLogs[|logs| + 1]];
  }
}
