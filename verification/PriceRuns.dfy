/**
 The price table over whole runs: budgeted ingestion, forced re-reads that put pruned bars back,
 and pruning of the whole table, in any order, against the same ingestion without pruning.
 */
module PriceRuns {
  import opened Options
  import opened PriceWindows
  import opened BarPruning
  import opened Backfill
  import opened Ingestion

  datatype Event =
    | Ingest(start: int, budget: nat, request: Request)
    | PruneTable(listings: map<string, Option<int>>, today: int)

  /** The store after a run; `pruning` tells whether its prunings are carried out. */
  function Table(events: seq<Event>, pruning: bool): Store {
    if events == [] then Store(map[], [])
    else
      var s := Table(events[..|events| - 1], pruning);
      match events[|events| - 1]
      case Ingest(start, budget, q) => Ingested(s, start, budget, q)
      case PruneTable(listings, today) =>
        if pruning then s.(bars := KeepRows(s.bars, TableKeeper(listings, today))) else s
  }

  // ------------------------------------------------------------- what the exchange publishes

  /** A fetch gives the day's one file, or fails. */
  ghost predicate ReadsFiles(q: Request, files: int -> Fetched) {
    forall d: int :: q.fetch(d) == Failure || q.fetch(d) == files(d)
  }

  ghost predicate Dated(files: int -> Fetched) {
    forall d: int :: files(d).File? ==> OnDay(files(d).rows, d)
  }

  ghost predicate FromFiles(events: seq<Event>, files: int -> Fetched) {
    Dated(files) && forall e | e in events && e.Ingest? :: ReadsFiles(e.request, files)
  }

  /** The row is the one its day's file has for its security. */
  ghost predicate Published(r: PriceRow, files: int -> Fetched) {
    files(r.date).File? && FirstOf(files(r.date).rows, r.isin) == Some(r)
  }

  ghost predicate AllPublished(bars: seq<PriceRow>, files: int -> Fetched) {
    forall r | r in bars :: Published(r, files)
  }

  // ------------------------------------------------------------- the two tables side by side

  /** No pruning of the run deletes this day of a security listed on `listing`. */
  ghost predicate Spared(d: int, listing: int, events: seq<Event>) {
    forall e | e in events && e.PruneTable? :: KeepTradeDate(d, Some(listing), e.today)
  }

  /** Every pruning knows the listing day of the security. */
  ghost predicate ListedOn(events: seq<Event>, isin: string, listing: int) {
    forall e | e in events && e.PruneTable? :: ListingOf(e.listings, isin) == Some(listing)
  }

  ghost predicate Within(a: seq<PriceRow>, b: seq<PriceRow>) {
    forall r | r in a :: r in b
  }

  ghost predicate HasSpared(a: seq<PriceRow>, b: seq<PriceRow>, isin: string, listing: int, events: seq<Event>) {
    forall r | r in b && r.isin == isin && Spared(r.date, listing, events) :: r in a
  }

  /** The pruned table a holds rows of the full table b only, and every spared row of the security. */
  ghost predicate Follows(a: Store, b: Store, files: int -> Fetched, isin: string, listing: int, events: seq<Event>) {
    && a.days == b.days && OneBarPerDay(a.bars) && OneBarPerDay(b.bars)
    && AllPublished(a.bars, files) && AllPublished(b.bars, files)
    && Within(a.bars, b.bars) && HasSpared(a.bars, b.bars, isin, listing, events)
  }

  /** One day's file stored in both tables. */
  lemma StoredRow(a: seq<PriceRow>, b: seq<PriceRow>, files: int -> Fetched, isins: set<string>, day: int, r: PriceRow)
    requires Dated(files) && files(day).File? && Within(a, b) && AllPublished(b, files)
    ensures var rows := files(day).rows;
      && (r in Stored(a, rows, isins) ==> r in Stored(b, rows, isins))
      && (r in Stored(b, rows, isins) ==> r in b || r in Stored(a, rows, isins))
      && (r in Stored(b, rows, isins) ==> Published(r, files))
  {
    hide Stored, FirstOf;
    var rows := files(day).rows;
    StoredIff(a, rows, isins, day, r);
    StoredIff(b, rows, isins, day, r);
    if r.isin in IsinsOn(b, day) && FirstOf(rows, r.isin) == Some(r) {
      var x :| x in b && x.date == day && x.isin == r.isin;
      assert Published(x, files);
    }
    if FirstOf(rows, r.isin) == Some(r) {
      assert r in rows && r.date == day;
    }
  }

  lemma DayFollows(a: Store, b: Store, files: int -> Fetched, isin: string, listing: int, events: seq<Event>, q: Request, day: int)
    requires Follows(a, b, files, isin, listing, events) && Dated(files) && ReadsFiles(q, files)
    ensures Follows(Recorded(a, day, q.fetch(day), q.isins), Recorded(b, day, q.fetch(day), q.isins), files, isin, listing, events)
  {
    hide Stored, Spared, Published, OneBarPerDay;
    if q.fetch(day).File? {
      var rows := files(day).rows;
      assert OnDay(rows, day);
      StoredUnique(a.bars, rows, q.isins, day);
      StoredUnique(b.bars, rows, q.isins, day);
      forall r ensures (r in Stored(a.bars, rows, q.isins) ==> r in Stored(b.bars, rows, q.isins))
          && (r in Stored(b.bars, rows, q.isins) ==> r in b.bars || r in Stored(a.bars, rows, q.isins))
          && (r in Stored(b.bars, rows, q.isins) ==> Published(r, files)) {
        StoredRow(a.bars, b.bars, files, q.isins, day, r);
      }
      StoredGrows(a.bars, rows, q.isins, day);
    }
  }

  lemma StoredGrows(bars: seq<PriceRow>, rows: seq<PriceRow>, isins: set<string>, day: int)
    requires OnDay(rows, day)
    ensures Within(bars, Stored(bars, rows, isins))
  {
    hide Stored;
    forall r | r in bars ensures r in Stored(bars, rows, isins) {
      StoredIff(bars, rows, isins, day, r);
    }
  }

  lemma {:induction false} IngestFollows(a: Store, b: Store, files: int -> Fetched, isin: string, listing: int, events: seq<Event>,
      day: int, budget: nat, q: Request)
    requires Follows(a, b, files, isin, listing, events) && Dated(files) && ReadsFiles(q, files)
    ensures Follows(Ingested(a, day, budget, q), Ingested(b, day, budget, q), files, isin, listing, events)
    decreases q.end - day + 1
  {
    assert a.days == b.days;
    hide Business, Follows, Recorded, Dated, ReadsFiles;
    if day <= q.end {
      if !Business(day) || SkipDay(Prior(a, day), q.retry, q.force) {
        IngestFollows(a, b, files, isin, listing, events, day + 1, budget, q);
      } else if budget > 0 {
        DayFollows(a, b, files, isin, listing, events, q, day);
        IngestFollows(Recorded(a, day, q.fetch(day), q.isins), Recorded(b, day, q.fetch(day), q.isins),
          files, isin, listing, events, day + 1, budget - 1, q);
      }
    }
  }

  lemma {:induction false} KeptUnique(rows: seq<PriceRow>, keep: PriceRow -> bool)
    requires OneBarPerDay(rows)
    ensures OneBarPerDay(KeepRows(rows, keep))
  {
    if rows != [] {
      var rest := KeepRows(rows[1..], keep);
      KeptUnique(rows[1..], keep);
      forall j | 0 <= j < |rest| ensures rows[0].isin != rest[j].isin || rows[0].date != rest[j].date {
        assert rest[j] in rest;
      }
    }
  }

  lemma PruneFollows(a: Store, b: Store, files: int -> Fetched, isin: string, listing: int, events: seq<Event>, e: Event)
    requires Follows(a, b, files, isin, listing, events) && e.PruneTable? && ListingOf(e.listings, isin) == Some(listing)
    ensures Follows(a.(bars := KeepRows(a.bars, TableKeeper(e.listings, e.today))), b, files, isin, listing, events + [e])
  {
    hide KeepTradeDate, OneBarPerDay, Published;
    KeptUnique(a.bars, TableKeeper(e.listings, e.today));
    forall r | r in b.bars && r.isin == isin && Spared(r.date, listing, events + [e])
      ensures r in KeepRows(a.bars, TableKeeper(e.listings, e.today))
    {
      assert e in events + [e] && forall x | x in events :: x in events + [e];
    }
  }

  lemma SparedMore(a: Store, b: Store, files: int -> Fetched, isin: string, listing: int, events: seq<Event>, e: Event)
    requires Follows(a, b, files, isin, listing, events)
    ensures Follows(a, b, files, isin, listing, events + [e])
  {
    hide KeepTradeDate, OneBarPerDay, Published;
    forall r | r in b.bars && r.isin == isin && Spared(r.date, listing, events + [e]) ensures r in a.bars {
      assert forall x | x in events :: x in events + [e];
    }
  }

  /** The table is a part of the never-pruned one that holds every spared row, over any run. */
  lemma {:induction false} RunFollows(events: seq<Event>, files: int -> Fetched, isin: string, listing: int)
    requires FromFiles(events, files) && ListedOn(events, isin, listing)
    ensures Follows(Table(events, true), Table(events, false), files, isin, listing, events)
  {
    hide Follows, ReadsFiles, Dated, Ingested;
    if events == [] {
      NothingFollows(files, isin, listing);
    } else {
      var past, e := events[..|events| - 1], events[|events| - 1];
      assert past + [e] == events && e in events && forall x | x in past :: x in events;
      RunFollows(past, files, isin, listing);
      var a, b := Table(past, true), Table(past, false);
      match e
      case Ingest(start, budget, q) =>
        IngestFollows(a, b, files, isin, listing, past, start, budget, q);
        SparedMore(Ingested(a, start, budget, q), Ingested(b, start, budget, q), files, isin, listing, past, e);
      case PruneTable(_, _) => PruneFollows(a, b, files, isin, listing, past, e);
    }
  }

  lemma NothingFollows(files: int -> Fetched, isin: string, listing: int)
    ensures Follows(Store(map[], []), Store(map[], []), files, isin, listing, [])
  {
  }

  // ------------------------------------------------------------- the series of one security

  function BarOf(r: PriceRow): Bar
    requires r.close.Some?
  {
    Bar(r.date * DAY, r.open, r.close.value)
  }

  lemma {:induction false} ByDateHas(rows: seq<PriceRow>, isin: string)
    ensures forall r :: r in ByDate(rows, isin) <==> r in rows && r.isin == isin
  {
    if rows != [] {
      ByDateHas(rows[1..], isin);
    }
  }

  lemma {:induction false} ToBarsHas(rows: seq<PriceRow>, b: Bar)
    ensures b in ToBars(rows) <==> exists r :: r in rows && r.close.Some? && BarOf(r) == b
  {
    if rows != [] {
      ToBarsHas(rows[1..], b);
      assert rows == [rows[0]] + rows[1..];
    }
  }

  lemma SeriesHas(rows: seq<PriceRow>, isin: string, b: Bar)
    ensures b in BarsForIsin(rows, isin) <==> exists r :: r in rows && r.isin == isin && r.close.Some? && BarOf(r) == b
  {
    hide ByDate, ToBars;
    ByDateHas(rows, isin);
    ToBarsHas(ByDate(rows, isin), b);
  }

  ghost predicate Strict(rows: seq<PriceRow>) {
    forall i, j | 0 <= i < j < |rows| :: rows[i].date < rows[j].date
  }

  lemma {:induction false} InsertStrict(r: PriceRow, rows: seq<PriceRow>)
    requires Strict(rows) && forall q | q in rows :: q.date != r.date
    ensures Strict(InsertByDate(r, rows))
  {
    if rows != [] && r.date > rows[0].date {
      InsertStrict(r, rows[1..]);
      var tail := InsertByDate(r, rows[1..]);
      forall j | 0 <= j < |tail| ensures rows[0].date < tail[j].date {
        assert tail[j] in tail;
      }
    } else if rows != [] {
      assert rows[0] in rows;
    }
  }

  lemma {:induction false} ByDateStrict(rows: seq<PriceRow>, isin: string)
    requires OneBarPerDay(rows)
    ensures Strict(ByDate(rows, isin))
  {
    if rows != [] {
      ByDateStrict(rows[1..], isin);
      ByDateHas(rows[1..], isin);
      if rows[0].isin == isin {
        forall q | q in ByDate(rows[1..], isin) ensures q.date != rows[0].date {
          var j :| 0 <= j < |rows[1..]| && rows[1..][j] == q;
          assert rows[j + 1] == q;
        }
        InsertStrict(rows[0], ByDate(rows[1..], isin));
      }
    }
  }

  lemma {:induction false} ToBarsSorted(rows: seq<PriceRow>)
    requires Strict(rows)
    ensures Sorted(ToBars(rows)) && forall b | b in ToBars(rows) :: b.ts == DayOf(b) * DAY
  {
    if rows != [] {
      ToBarsSorted(rows[1..]);
      var rest := ToBars(rows[1..]);
      if rows[0].close.Some? {
        forall j | 0 <= j < |rest| ensures rows[0].date * DAY < rest[j].ts {
          assert rest[j] in rest;
          ToBarsHas(rows[1..], rest[j]);
        }
        assert DayOf(BarOf(rows[0])) == rows[0].date;
      }
    }
  }

  lemma SeriesDaily(rows: seq<PriceRow>, isin: string)
    requires OneBarPerDay(rows)
    ensures Daily(BarsForIsin(rows, isin))
  {
    ByDateStrict(rows, isin);
    ToBarsSorted(ByDate(rows, isin));
  }

  lemma HeadOut(a: seq<Bar>)
    requires Sorted(a) && a != []
    ensures forall x :: x in a[1..] <==> x in a && x != a[0]
  {
    forall x | x in a && x != a[0] ensures x in a[1..] {
      var j :| 0 <= j < |a| && a[j] == x;
      assert a[1..][j - 1] == x;
    }
  }

  lemma HasMember(a: seq<Bar>)
    ensures a == [] || exists x :: x in a
  {
    if a != [] {
      assert a[0] in a;
    }
  }

  lemma {:induction false} SameMembers(a: seq<Bar>, b: seq<Bar>)
    requires Sorted(a) && Sorted(b) && forall x :: x in a <==> x in b
    ensures a == b
  {
    HasMember(a);
    HasMember(b);
    if a != [] && b != [] {
      assert a[0] in b && b[0] in a;
      assert a[0] == b[0];
      HeadOut(a);
      HeadOut(b);
      SameMembers(a[1..], b[1..]);
    }
  }

  /** A part of a series, in order, is the series filtered by membership. */
  lemma PartFiltered(a: seq<Bar>, b: seq<Bar>)
    requires Sorted(a) && Sorted(b) && forall x | x in a :: x in b
    ensures a == Filter(b, (x: Bar) => x in a)
  {
    FilterSorted(b, (x: Bar) => x in a);
    SameMembers(a, Filter(b, (x: Bar) => x in a));
  }

  // ------------------------------------------------------------- returns over whole runs

  /** At every pruning of the run the newest bar of the series is recent. */
  ghost predicate StaysRecent(series: seq<Bar>, events: seq<Event>) {
    series != [] ==> forall e | e in events && e.PruneTable? :: DayOf(series[|series| - 1]) >= e.today - RECENT_KEEP_DAYS
  }

  lemma SparedSeries(a: seq<PriceRow>, b: seq<PriceRow>, isin: string, listing: int, events: seq<Event>, x: Bar)
    requires HasSpared(a, b, isin, listing, events) && x in BarsForIsin(b, isin) && Spared(DayOf(x), listing, events)
    ensures x in BarsForIsin(a, isin)
  {
    hide BarsForIsin, Spared;
    SeriesHas(b, isin, x);
    var r :| r in b && r.isin == isin && r.close.Some? && BarOf(r) == x;
    assert DayOf(x) == r.date;
    SeriesHas(a, isin, x);
  }

  lemma PartOf(a: seq<PriceRow>, b: seq<PriceRow>, isin: string)
    requires Within(a, b)
    ensures forall x | x in BarsForIsin(a, isin) :: x in BarsForIsin(b, isin)
  {
    hide BarsForIsin;
    forall x | x in BarsForIsin(a, isin) ensures x in BarsForIsin(b, isin) {
      SeriesHas(a, isin, x);
      SeriesHas(b, isin, x);
    }
  }

  lemma NearSpared(d: int, listing: int, events: seq<Event>)
    requires NearWindow(d, listing)
    ensures Spared(d, listing, events)
  {
  }

  lemma RecentSpared(series: seq<Bar>, listing: int, events: seq<Event>)
    requires series != [] && StaysRecent(series, events)
    ensures Spared(DayOf(series[|series| - 1]), listing, events)
  {
    hide NearWindow;
  }

  /**
   Over any run of ingestion, failed fetches, forced re-reads and prunings, a security whose full
   series starts on its listing day and has no gaps, and whose newest bar is recent at each
   pruning, gets from the pruned table the returns it would get from the table never pruned.
   */
  lemma TableRunKeepsReturns(events: seq<Event>, files: int -> Fetched, isin: string, listing: int, issue: Option<real>, splits: seq<Split>)
    requires FromFiles(events, files) && ListedOn(events, isin, listing)
    requires var full := BarsForIsin(Table(events, false).bars, isin);
      full != [] && DayOf(full[0]) == listing && NoGaps(full, listing) && StaysRecent(full, events)
    ensures Returns(BarsForIsin(Table(events, true).bars, isin), listing * DAY, issue, splits)
         == Returns(BarsForIsin(Table(events, false).bars, isin), listing * DAY, issue, splits)
  {
    RunFollows(events, files, isin, listing);
    hide Table, FromFiles, BarsForIsin, ReadsOf, NearWindow, Spared, NoGaps, StaysRecent, OneBarPerDay, Sorted, AllPublished;
    var a, b := Table(events, true).bars, Table(events, false).bars;
    var part, full := BarsForIsin(a, isin), BarsForIsin(b, isin);
    SeriesDaily(a, isin);
    SeriesDaily(b, isin);
    PartOf(a, b, isin);
    PartFiltered(part, full);
    forall x | x in full && NearWindow(DayOf(x), listing) ensures x in part {
      NearSpared(DayOf(x), listing, events);
      SparedSeries(a, b, isin, listing, events, x);
    }
    RecentSpared(full, listing, events);
    SparedSeries(a, b, isin, listing, events, full[|full| - 1]);
    HealthySurvives(full, listing, (x: Bar) => x in part);
  }
}
