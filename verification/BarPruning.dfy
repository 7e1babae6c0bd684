/**
 nse_bhavcopy.py's pruning of the daily price table, and what it does to the returns
 computed from it. Days are day numbers; a bar's timestamp is its day at 00:00 UTC.
 */
module BarPruning {
  import opened Options
  import opened PriceWindows

  const LISTING_KEEP_DAYS := 21
  const WINDOW_TARGET_DAYS: seq<int> := [30, 90, 182, 365, 730]
  const WINDOW_SLACK_DAYS := 12
  const RECENT_KEEP_DAYS := 20

  /** The days a return window of a listing can read. */
  predicate NearWindow(d: int, listing: int) {
    || listing <= d <= listing + LISTING_KEEP_DAYS
    || exists w :: w in WINDOW_TARGET_DAYS && listing + w - WINDOW_SLACK_DAYS <= d <= listing + w
  }

  /** nse_bhavcopy.keep_trade_date */
  predicate KeepTradeDate(d: int, listing: Option<int>, today: int) {
    d >= today - RECENT_KEEP_DAYS || (listing.Some? && NearWindow(d, listing.value))
  }

  /** The days kept of a listed security: the newest 20, the three weeks from its listing, and the 12
      days up to the end of each of the five windows. */
  lemma KeptDays(d: int, listing: int, today: int)
    ensures KeepTradeDate(d, Some(listing), today)
      <==> d >= today - 20 || listing <= d <= listing + 21
           || listing + 18 <= d <= listing + 30 || listing + 78 <= d <= listing + 90 || listing + 170 <= d <= listing + 182
           || listing + 353 <= d <= listing + 365 || listing + 718 <= d <= listing + 730
  {
    TargetDays();
    forall w | w in WINDOW_TARGET_DAYS ensures w == 30 || w == 90 || w == 182 || w == 365 || w == 730 {
    }
  }

  lemma TargetDays()
    ensures 30 in WINDOW_TARGET_DAYS && 90 in WINDOW_TARGET_DAYS && 182 in WINDOW_TARGET_DAYS
    ensures 365 in WINDOW_TARGET_DAYS && 730 in WINDOW_TARGET_DAYS
  {
    var w := WINDOW_TARGET_DAYS;
    assert w[0] == 30 && w[1] == 90 && w[2] == 182 && w[3] == 365 && w[4] == 730;
  }

  function DayOf(b: Bar): int {
    b.ts / DAY
  }

  ghost predicate Daily(bars: seq<Bar>) {
    Sorted(bars) && forall b :: b in bars ==> b.ts == DayOf(b) * DAY
  }

  /** The bars a predicate keeps, in order. */
  function Filter(bars: seq<Bar>, keep: Bar -> bool): (r: seq<Bar>)
    ensures forall b :: b in r <==> b in bars && keep(b)
  {
    if bars == [] then []
    else if keep(bars[0]) then [bars[0]] + Filter(bars[1..], keep)
    else Filter(bars[1..], keep)
  }

  function Keeper(listing: Option<int>, today: int): Bar -> bool {
    (b: Bar) => KeepTradeDate(DayOf(b), listing, today)
  }

  function Prune(bars: seq<Bar>, listing: Option<int>, today: int): seq<Bar> {
    Filter(bars, Keeper(listing, today))
  }

  // ------------------------------------------------------------- filtering a series

  lemma {:induction false} FilterSorted(bars: seq<Bar>, keep: Bar -> bool)
    requires Sorted(bars)
    ensures Sorted(Filter(bars, keep))
  {
    if bars != [] {
      FilterSorted(bars[1..], keep);
      var rest := Filter(bars[1..], keep);
      forall j | 0 <= j < |rest| ensures bars[0].ts < rest[j].ts {
        assert rest[j] in rest;
      }
    }
  }

  lemma {:induction false} FilterAppend(a: seq<Bar>, b: seq<Bar>, keep: Bar -> bool)
    ensures Filter(a + b, keep) == Filter(a, keep) + Filter(b, keep)
  {
    if a == [] {
      assert a + b == b;
    } else {
      assert (a + b)[1..] == a[1..] + b;
      FilterAppend(a[1..], b, keep);
    }
  }

  lemma {:induction false} FilterAgrees(bars: seq<Bar>, p: Bar -> bool, q: Bar -> bool)
    requires forall b :: b in bars ==> p(b) == q(b)
    ensures Filter(bars, p) == Filter(bars, q)
  {
    if bars != [] {
      FilterAgrees(bars[1..], p, q);
    }
  }

  lemma {:induction false} FilterTwice(bars: seq<Bar>, p: Bar -> bool, q: Bar -> bool)
    ensures Filter(Filter(bars, p), q) == Filter(bars, b => p(b) && q(b))
  {
    if bars != [] {
      FilterTwice(bars[1..], p, q);
      if p(bars[0]) {
        assert Filter(bars, p)[1..] == Filter(bars[1..], p);
      }
    }
  }

  lemma FilterFirst(bars: seq<Bar>, keep: Bar -> bool)
    requires bars != [] && keep(bars[0])
    ensures Filter(bars, keep) != [] && Filter(bars, keep)[0] == bars[0]
  {
  }

  lemma {:induction false} FilterLast(bars: seq<Bar>, keep: Bar -> bool)
    requires bars != [] && keep(bars[|bars| - 1])
    ensures var r := Filter(bars, keep); r != [] && r[|r| - 1] == bars[|bars| - 1]
  {
    var n := |bars| - 1;
    assert bars == bars[..n] + [bars[n]];
    FilterAppend(bars[..n], [bars[n]], keep);
  }

  lemma {:induction false} OnOrAfterIs(bars: seq<Bar>, t: int, b: Bar)
    requires Sorted(bars) && b in bars && b.ts >= t
    requires forall q :: q in bars ==> q.ts >= b.ts || q.ts < t
    ensures OnOrAfter(bars, t) == Some(b)
  {
    if bars[0].ts < t {
      OnOrAfterIs(bars[1..], t, b);
    } else {
      var k :| 0 <= k < |bars| && bars[k] == b;
      assert bars[0] in bars;
    }
  }

  lemma {:induction false} OnOrAfterFirst(bars: seq<Bar>, t: int)
    requires Sorted(bars) && OnOrAfter(bars, t).Some?
    ensures forall q :: q in bars ==> q.ts >= OnOrAfter(bars, t).value.ts || q.ts < t
  {
    if bars[0].ts < t {
      OnOrAfterFirst(bars[1..], t);
    }
    forall q | q in bars ensures q.ts >= OnOrAfter(bars, t).value.ts || q.ts < t {
      var k :| 0 <= k < |bars| && bars[k] == q;
      if k > 0 {
        assert q in bars[1..] && bars[0].ts < q.ts;
      }
    }
  }

  // ------------------------------------------------- exactly when a report survives

  /** Every bar the report reads is kept. */
  ghost predicate ReadsKept(r: Reads, keep: Bar -> bool) {
    keep(r.session) && keep(r.latest) && forall w :: w in r.windows ==> keep(r.windows[w])
  }

  /**
   Deleting a whole history from before the listing week can leave a pre-listing bar in
   front, which windowed_returns then takes for the listing session.
   */
  ghost predicate Promotes(bars: seq<Bar>, listing: int, keep: Bar -> bool) {
    var early := listing - FIRST_BAR_TOLERANCE_DAYS * DAY;
    var kept := Filter(bars, keep);
    bars != [] && bars[0].ts < early && kept != [] && early <= kept[0].ts < listing
  }

  lemma GovernsFilter(bars: seq<Bar>, keep: Bar -> bool, sessionTs: int, w: Window, b: Bar)
    requires bars != [] && keep(bars[|bars| - 1]) && Filter(bars, keep) != []
    requires Filter(bars, keep)[|Filter(bars, keep)| - 1] == bars[|bars| - 1]
    requires Governs(bars, sessionTs, w, b) && keep(b)
    ensures Governs(Filter(bars, keep), sessionTs, w, b)
  {
  }

  lemma WindowSurvives(bars: seq<Bar>, keep: Bar -> bool, session: Bar, w: Window)
    requires Sorted(bars) && session in bars && keep(session) && keep(bars[|bars| - 1])
    requires WindowBar(bars, session.ts, w).Some? ==> keep(WindowBar(bars, session.ts, w).value)
    ensures Filter(bars, keep) != []
    ensures WindowBar(Filter(bars, keep), session.ts, w) == WindowBar(bars, session.ts, w)
  {
    hide WindowBar, Governs, Filter, Sorted;
    var kept := Filter(bars, keep);
    FilterSorted(bars, keep);
    FilterLast(bars, keep);
    match WindowBar(bars, session.ts, w)
    case Some(b) =>
      WindowExact(bars, session.ts, w, b);
      GovernsFilter(bars, keep, session.ts, w, b);
      WindowExact(kept, session.ts, w, b);
    case None =>
      forall b ensures WindowBar(kept, session.ts, w) != Some(b) {
        NoWindowBar(bars, session, w);
        NothingGoverns(bars, keep, session, w, b);
        WindowExact(kept, session.ts, w, b);
      }
  }

  lemma NothingGoverns(bars: seq<Bar>, keep: Bar -> bool, session: Bar, w: Window, b: Bar)
    requires bars != [] && Filter(bars, keep) != []
    requires Filter(bars, keep)[|Filter(bars, keep)| - 1] == bars[|bars| - 1]
    requires session.ts + w.days * DAY > bars[|bars| - 1].ts
          || forall q :: q in bars ==> q.ts <= session.ts || q.ts > session.ts + w.days * DAY
    ensures !Governs(Filter(bars, keep), session.ts, w, b)
  {
  }

  /** Without a window bar, either the window has not elapsed or the series has no bar in it. */
  lemma NoWindowBar(bars: seq<Bar>, session: Bar, w: Window)
    requires Sorted(bars) && session in bars && WindowBar(bars, session.ts, w).None?
    ensures session.ts + w.days * DAY > bars[|bars| - 1].ts
         || forall q :: q in bars ==> q.ts <= session.ts || q.ts > session.ts + w.days * DAY
  {
    UpToLast(bars, session.ts + w.days * DAY);
  }

  lemma SessionSurvives(bars: seq<Bar>, listing: int, keep: Bar -> bool)
    requires Sorted(bars) && !Promotes(bars, listing, keep)
    requires ListingBar(bars, listing).Some? ==> keep(ListingBar(bars, listing).value)
    ensures ListingBar(Filter(bars, keep), listing) == ListingBar(bars, listing)
  {
    var kept := Filter(bars, keep);
    FilterSorted(bars, keep);
    if kept != [] {
      assert kept[0] in kept;
      var k :| 0 <= k < |bars| && bars[k] == kept[0];
      assert bars[0].ts <= kept[0].ts;
      if OnOrAfter(bars, listing).Some? {
        OnOrAfterFirst(bars, listing);
        if keep(OnOrAfter(bars, listing).value) {
          OnOrAfterIs(kept, listing, OnOrAfter(bars, listing).value);
        }
      }
      if ListingBar(bars, listing) == Some(bars[0]) {
        FilterFirst(bars, keep);
      } else if ListingBar(bars, listing).Some? {
        var session := ListingBar(bars, listing).value;
        assert session in kept;
        var i :| 0 <= i < |kept| && kept[i] == session;
        assert kept[0].ts <= session.ts;
      }
    }
  }

  lemma SurvivesIfKept(bars: seq<Bar>, listing: int, keep: Bar -> bool)
    requires Sorted(bars) && !Promotes(bars, listing, keep)
    requires ReadsOf(bars, listing).Some? ==> ReadsKept(ReadsOf(bars, listing).value, keep)
    ensures ReadsOf(Filter(bars, keep), listing) == ReadsOf(bars, listing)
  {
    hide Filter, Promotes, ListingBar, WindowBar, Sorted;
    SessionSurvives(bars, listing, keep);
    if ReadsOf(bars, listing).Some? {
      ReadsAreBars(bars, listing);
      var r := ReadsOf(bars, listing).value;
      FilterLast(bars, keep);
      WindowsSurvive(bars, keep, r);
    }
  }

  lemma WindowsSurvive(bars: seq<Bar>, keep: Bar -> bool, r: Reads)
    requires Sorted(bars) && r.session in bars && r.latest == bars[|bars| - 1] && ReadsKept(r, keep)
    requires r.windows == WindowBars(bars, r.session.ts)
    ensures Filter(bars, keep) != [] && WindowBars(Filter(bars, keep), r.session.ts) == r.windows
  {
    hide Filter, WindowBar, Sorted;
    var kept := Filter(bars, keep);
    FilterLast(bars, keep);
    forall w | w in WINDOWS ensures WindowBar(kept, r.session.ts, w) == WindowBar(bars, r.session.ts, w) {
      if WindowBar(bars, r.session.ts, w).Some? {
        assert w in r.windows;
      }
      WindowSurvives(bars, keep, r.session, w);
    }
    assert WindowBars(kept, r.session.ts) == WindowBars(bars, r.session.ts);
  }

  /**
   Pruning leaves the bars read by the report unchanged if and only if it keeps each of
   them and brings no pre-listing bar to the front.
   */
  lemma SurvivesIff(bars: seq<Bar>, listing: int, keep: Bar -> bool)
    requires Sorted(bars)
    ensures ReadsOf(Filter(bars, keep), listing) == ReadsOf(bars, listing)
       <==> (!Promotes(bars, listing, keep)
             && (ReadsOf(bars, listing).Some? ==> ReadsKept(ReadsOf(bars, listing).value, keep)))
  {
    hide WindowBars;
    var kept := Filter(bars, keep);
    if ReadsOf(kept, listing) == ReadsOf(bars, listing) {
      if ReadsOf(bars, listing).Some? {
        ReadsAreBars(kept, listing);
      }
    } else if !Promotes(bars, listing, keep) {
      if ReadsOf(bars, listing).Some? ==> ReadsKept(ReadsOf(bars, listing).value, keep) {
        SurvivesIfKept(bars, listing, keep);
        assert false;
      }
    }
  }

  lemma ReadsAreBars(bars: seq<Bar>, listing: int)
    requires ReadsOf(bars, listing).Some?
    ensures var r := ReadsOf(bars, listing).value;
      r.session in bars && r.latest in bars && forall w :: w in r.windows ==> r.windows[w] in bars
  {
  }

  // ------------------------------------------------------- repeated pruning and ingest

  /** Pruning on a later day includes every earlier pruning. */
  lemma PruneComposes(bars: seq<Bar>, listing: Option<int>, t1: int, t2: int)
    requires t1 <= t2
    ensures Prune(Prune(bars, listing, t1), listing, t2) == Prune(bars, listing, t2)
  {
    var p, q := Keeper(listing, t1), Keeper(listing, t2);
    FilterTwice(bars, p, q);
    FilterAgrees(bars, b => p(b) && q(b), q);
  }

  /** Each long window the series has reached has a bar in the slack before its target. */
  ghost predicate NoGaps(bars: seq<Bar>, listing: int) {
    bars != [] ==>
      forall w :: w in WINDOWS && w.days > LISTING_KEEP_DAYS && listing + w.days <= DayOf(bars[|bars| - 1])
        ==> exists b :: b in bars && listing + w.days - WINDOW_SLACK_DAYS <= DayOf(b) <= listing + w.days
  }

  lemma WindowBarIsNear(bars: seq<Bar>, listing: int, w: Window)
    requires Daily(bars) && bars != [] && NoGaps(bars, listing) && w in WINDOWS
    requires WindowBar(bars, listing * DAY, w).Some?
    ensures NearWindow(DayOf(WindowBar(bars, listing * DAY, w).value), listing)
  {
    hide WindowBar, Sorted;
    var b := WindowBar(bars, listing * DAY, w).value;
    WindowExact(bars, listing * DAY, w, b);
    assert listing < DayOf(b) <= listing + w.days <= DayOf(bars[|bars| - 1]);
    if w.days > LISTING_KEEP_DAYS {
      var q :| q in bars && listing + w.days - WINDOW_SLACK_DAYS <= DayOf(q) <= listing + w.days;
      assert q.ts <= b.ts;
      LongWindow(w);
    }
  }

  lemma LongWindow(w: Window)
    requires w in WINDOWS && w.days > LISTING_KEEP_DAYS
    ensures w.days in WINDOW_TARGET_DAYS
  {
  }

  lemma HealthyReads(bars: seq<Bar>, listing: int)
    requires Daily(bars) && bars != [] && DayOf(bars[0]) == listing && NoGaps(bars, listing)
    ensures ReadsOf(bars, listing * DAY).Some?
    ensures var r := ReadsOf(bars, listing * DAY).value;
      && r.latest == bars[|bars| - 1]
      && r.session in bars && NearWindow(DayOf(r.session), listing)
      && forall w :: w in r.windows ==> r.windows[w] in bars && NearWindow(DayOf(r.windows[w]), listing)
  {
    hide NearWindow, WindowBar, DayOf, ListingBar, Governs;
    SessionOnDay(bars, listing);
    var r := ReadsOf(bars, listing * DAY).value;
    forall w | w in r.windows ensures r.windows[w] in bars && NearWindow(DayOf(r.windows[w]), listing) {
      WindowBarIsNear(bars, listing, w);
      ReadsAreBars(bars, listing * DAY);
    }
  }

  /** A healthy series read through any predicate that keeps the windows' days and the newest bar. */
  lemma HealthySurvives(bars: seq<Bar>, listing: int, keep: Bar -> bool)
    requires Daily(bars) && bars != [] && DayOf(bars[0]) == listing && NoGaps(bars, listing)
    requires keep(bars[|bars| - 1])
    requires forall b :: b in bars && NearWindow(DayOf(b), listing) ==> keep(b)
    ensures ReadsOf(Filter(bars, keep), listing * DAY) == ReadsOf(bars, listing * DAY)
  {
    hide Promotes, NearWindow, DayOf, ReadsOf, NoGaps, Filter, Sorted;
    SessionOnDay(bars, listing);
    NothingPromoted(bars, listing * DAY, keep);
    HealthyReads(bars, listing);
    SurvivesIff(bars, listing * DAY, keep);
  }

  lemma NothingPromoted(bars: seq<Bar>, listing: int, keep: Bar -> bool)
    requires bars != [] && bars[0].ts >= listing
    ensures !Promotes(bars, listing, keep)
  {
  }

  lemma SessionOnDay(bars: seq<Bar>, listing: int)
    requires Daily(bars) && bars != [] && DayOf(bars[0]) == listing
    ensures bars[0].ts == listing * DAY && ListingBar(bars, listing * DAY) == Some(bars[0])
    ensures NearWindow(DayOf(bars[0]), listing)
  {
    assert bars[0] in bars;
  }

  /** The rule keeps the newest bar and the bar of every window reported. */
  predicate KeepsReads(bars: seq<Bar>, listing: int, today: int)
    requires bars != []
  {
    && KeepTradeDate(DayOf(bars[|bars| - 1]), Some(listing), today)
    && forall w | w in WINDOWS ::
         var b := WindowBar(bars, listing * DAY, w);
         b.Some? ==> KeepTradeDate(DayOf(b.value), Some(listing), today)
  }

  /** For a series that starts on the listing day: one pruning leaves what the report reads as it
      was if and only if the rule keeps the newest bar and every window bar. */
  lemma PruneSurvivesIff(bars: seq<Bar>, listing: int, today: int)
    requires Daily(bars) && bars != [] && DayOf(bars[0]) == listing
    ensures ReadsOf(Prune(bars, Some(listing), today), listing * DAY) == ReadsOf(bars, listing * DAY)
      <==> KeepsReads(bars, listing, today)
  {
    hide Promotes, NearWindow, DayOf, WindowBar, ListingBar, Filter, Sorted;
    SessionOnDay(bars, listing);
    NothingPromoted(bars, listing * DAY, Keeper(Some(listing), today));
    SurvivesIff(bars, listing * DAY, Keeper(Some(listing), today));
    ReadsListed(bars, listing);
  }

  lemma ReadsListed(bars: seq<Bar>, listing: int)
    requires bars != [] && ListingBar(bars, listing * DAY) == Some(bars[0]) && bars[0].ts == listing * DAY
    ensures var r := ReadsOf(bars, listing * DAY);
      && r.Some? && r.value.session == bars[0] && r.value.latest == bars[|bars| - 1]
      && (forall w :: w in r.value.windows <==> w in WINDOWS && WindowBar(bars, listing * DAY, w).Some?)
      && forall w | w in r.value.windows :: r.value.windows[w] == WindowBar(bars, listing * DAY, w).value
  {
    hide ListingBar, WindowBar;
  }

  /** Such a pruning changes no return, whatever the issue price and the splits. */
  lemma PruneKeepsReturns(bars: seq<Bar>, listing: int, today: int, issue: Option<real>, splits: seq<Split>)
    requires Daily(bars) && bars != [] && DayOf(bars[0]) == listing && KeepsReads(bars, listing, today)
    ensures Returns(Prune(bars, Some(listing), today), listing * DAY, issue, splits)
         == Returns(bars, listing * DAY, issue, splits)
  {
    hide KeepsReads, ReadsOf, Prune;
    PruneSurvivesIff(bars, listing, today);
  }

  lemma {:induction false} FilterHead(bars: seq<Bar>, keep: Bar -> bool)
    requires Sorted(bars) && Filter(bars, keep) != []
    ensures var k := Filter(bars, keep)[0];
      k in bars && keep(k) && forall b | b in bars && b.ts < k.ts :: !keep(b)
  {
    var k := Filter(bars, keep)[0];
    assert k in Filter(bars, keep);
    if keep(bars[0]) {
      forall b | b in bars ensures b.ts >= k.ts {
        var j :| 0 <= j < |bars| && bars[j] == b;
      }
    } else {
      FilterHead(bars[1..], keep);
      assert bars == [bars[0]] + bars[1..];
    }
  }

  lemma OneStamp(bars: seq<Bar>, a: Bar, b: Bar)
    requires Sorted(bars) && a in bars && b in bars && a.ts == b.ts
    ensures a == b
  {
  }

  /** Before the listing day the rule keeps recent days only. */
  lemma KeptEarly(d: int, listing: int, today: int)
    requires d < listing
    ensures KeepTradeDate(d, Some(listing), today) <==> d >= today - RECENT_KEEP_DAYS
  {
  }

  /** The series starts before the listing week, and its first recent bar lies in that week. */
  predicate RecentInListingWeek(bars: seq<Bar>, listing: int, today: int) {
    var early, recent := listing - FIRST_BAR_TOLERANCE_DAYS, OnOrAfter(bars, (today - RECENT_KEEP_DAYS) * DAY);
    bars != [] && DayOf(bars[0]) < early && recent.Some? && early <= DayOf(recent.value) < listing
  }

  lemma Stamps(b: Bar, d: int)
    requires b.ts == DayOf(b) * DAY
    ensures (b.ts >= d * DAY <==> DayOf(b) >= d) && (b.ts < d * DAY <==> DayOf(b) < d)
  {
  }

  lemma EarlyKept(bars: seq<Bar>, b: Bar, listing: int, today: int)
    requires Daily(bars) && b in bars && DayOf(b) < listing
    ensures Keeper(Some(listing), today)(b) <==> b.ts >= (today - RECENT_KEEP_DAYS) * DAY
  {
    KeptEarly(DayOf(b), listing, today);
    Stamps(b, today - RECENT_KEEP_DAYS);
  }

  /** Pruning brings a pre-listing bar to the front exactly in that case. */
  lemma PromotesIff(bars: seq<Bar>, listing: int, today: int)
    requires Daily(bars)
    ensures Promotes(bars, listing * DAY, Keeper(Some(listing), today)) <==> RecentInListingWeek(bars, listing, today)
  {
    var keep, since := Keeper(Some(listing), today), (today - RECENT_KEEP_DAYS) * DAY;
    var kept, recent := Filter(bars, keep), OnOrAfter(bars, since);
    if Promotes(bars, listing * DAY, keep) {
      PromotedIsRecent(bars, listing, today);
    }
    if RecentInListingWeek(bars, listing, today) {
      RecentIsPromoted(bars, listing, today);
    }
  }

  lemma PromotedIsRecent(bars: seq<Bar>, listing: int, today: int)
    requires Daily(bars) && Promotes(bars, listing * DAY, Keeper(Some(listing), today))
    ensures RecentInListingWeek(bars, listing, today)
  {
    var keep, since := Keeper(Some(listing), today), (today - RECENT_KEEP_DAYS) * DAY;
    var k := Filter(bars, keep)[0];
    FilterHead(bars, keep);
    assert bars[0] in bars;
    Stamps(k, listing);
    Stamps(k, listing - FIRST_BAR_TOLERANCE_DAYS);
    Stamps(bars[0], listing - FIRST_BAR_TOLERANCE_DAYS);
    EarlyKept(bars, k, listing, today);
    forall q | q in bars ensures q.ts >= k.ts || q.ts < since {
      if q.ts < k.ts {
        Stamps(q, listing);
        EarlyKept(bars, q, listing, today);
      }
    }
    OnOrAfterIs(bars, since, k);
  }

  lemma RecentIsPromoted(bars: seq<Bar>, listing: int, today: int)
    requires Daily(bars) && RecentInListingWeek(bars, listing, today)
    ensures Promotes(bars, listing * DAY, Keeper(Some(listing), today))
  {
    var keep, since := Keeper(Some(listing), today), (today - RECENT_KEEP_DAYS) * DAY;
    var q := OnOrAfter(bars, since).value;
    OnOrAfterFirst(bars, since);
    EarlyKept(bars, q, listing, today);
    assert q in Filter(bars, keep);
    FilterHead(bars, keep);
    var k := Filter(bars, keep)[0];
    FilterSorted(bars, keep);
    assert k.ts <= q.ts;
    Stamps(k, listing);
    Stamps(q, listing);
    EarlyKept(bars, k, listing, today);
    OneStamp(bars, k, q);
    assert bars[0] in bars;
    Stamps(k, listing - FIRST_BAR_TOLERANCE_DAYS);
    Stamps(bars[0], listing - FIRST_BAR_TOLERANCE_DAYS);
  }

  /** For any daily series: one pruning leaves what the report reads as it was if and only if the
      rule keeps each bar read and the first recent bar does not take the session's place. */
  lemma PruneReadsIff(bars: seq<Bar>, listing: int, today: int)
    requires Daily(bars)
    ensures ReadsOf(Prune(bars, Some(listing), today), listing * DAY) == ReadsOf(bars, listing * DAY)
       <==> (!RecentInListingWeek(bars, listing, today)
             && (ReadsOf(bars, listing * DAY).Some? ==>
                   ReadsKept(ReadsOf(bars, listing * DAY).value, Keeper(Some(listing), today))))
  {
    hide Promotes, ReadsOf, ReadsKept, RecentInListingWeek, Filter;
    PromotesIff(bars, listing, today);
    SurvivesIff(bars, listing * DAY, Keeper(Some(listing), today));
  }

  datatype Event = NewBar(bar: Bar) | PruneAt(today: int)

  /** The series as if it were never pruned. */
  function Full(events: seq<Event>): seq<Bar> {
    if events == [] then []
    else
      var n := |events| - 1;
      match events[n]
      case NewBar(b) => Full(events[..n]) + [b]
      case PruneAt(_) => Full(events[..n])
  }

  /** The stored series. */
  function Store(events: seq<Event>, listing: int): seq<Bar> {
    if events == [] then []
    else
      var n := |events| - 1;
      match events[n]
      case NewBar(b) => Store(events[..n], listing) + [b]
      case PruneAt(t) => Prune(Store(events[..n], listing), Some(listing), t)
  }

  /** The last pruning day, with the newest bar it saw. */
  datatype Mark = Never | Mark(newest: int, today: int)

  function MarkOf(events: seq<Event>): Mark {
    if events == [] then Never
    else
      var n := |events| - 1;
      match events[n]
      case NewBar(_) => MarkOf(events[..n])
      case PruneAt(t) =>
        var full := Full(events[..n]);
        if full == [] then Never else Mark(full[|full| - 1].ts, t)
  }

  /**
   Bars arrive in date order from the listing day on; pruning days do not go back, and the
   newest bar is recent enough at each of them.
   */
  ghost predicate Orderly(events: seq<Event>, listing: int) {
    events == [] ||
      var n := |events| - 1;
      var full := Full(events[..n]);
      && Orderly(events[..n], listing)
      && match events[n]
         case NewBar(b) =>
           && b.ts == DayOf(b) * DAY
           && (if full == [] then DayOf(b) == listing else full[|full| - 1].ts < b.ts)
         case PruneAt(t) =>
           && (MarkOf(events[..n]).Mark? ==> MarkOf(events[..n]).today <= t)
           && (full != [] ==> DayOf(full[|full| - 1]) >= t - RECENT_KEEP_DAYS)
  }

  function KeptSince(m: Mark, listing: int): Bar -> bool {
    (b: Bar) => m.Never? || b.ts > m.newest || KeepTradeDate(DayOf(b), Some(listing), m.today)
  }

  lemma DailyAppend(bars: seq<Bar>, b: Bar)
    requires Daily(bars) && b.ts == DayOf(b) * DAY && (bars != [] ==> bars[|bars| - 1].ts < b.ts)
    ensures Daily(bars + [b])
  {
    hide DayOf;
    var all := bars + [b];
    forall i, j | 0 <= i < j < |all| ensures all[i].ts < all[j].ts {
      if j == |bars| && i < |bars| - 1 {
        assert bars[i].ts < bars[|bars| - 1].ts;
      }
    }
  }

  lemma {:induction false} FullIsDaily(events: seq<Event>, listing: int)
    requires Orderly(events, listing)
    ensures Daily(Full(events))
    ensures Full(events) != [] ==> DayOf(Full(events)[0]) == listing
    ensures MarkOf(events).Mark? ==>
      Full(events) != [] && MarkOf(events).newest <= Full(events)[|Full(events)| - 1].ts
  {
    if events != [] {
      var n := |events| - 1;
      FullIsDaily(events[..n], listing);
      if events[n].NewBar? {
        DailyAppend(Full(events[..n]), events[n].bar);
      }
    }
  }

  /** After any orderly run the store is the full series, filtered by the last pruning only. */
  lemma {:induction false} StoreIsFiltered(events: seq<Event>, listing: int)
    requires Orderly(events, listing)
    ensures Store(events, listing) == Filter(Full(events), KeptSince(MarkOf(events), listing))
  {
    if events != [] {
      var n := |events| - 1;
      var full, m := Full(events[..n]), MarkOf(events[..n]);
      var k := KeptSince(m, listing);
      StoreIsFiltered(events[..n], listing);
      FullIsDaily(events[..n], listing);
      match events[n]
      case NewBar(b) =>
        FilterAppend(full, [b], k);
        assert k(b);
        assert Filter([b], k) == [b] + Filter([], k);
      case PruneAt(t) =>
        PruneFiltered(full, m, listing, t);
        assert full == [] ==> Filter(full, KeptSince(MarkOf(events), listing)) == [];
    }
  }

  /** Pruning a filtered series replaces the old filter by the new one. */
  lemma PruneFiltered(full: seq<Bar>, m: Mark, listing: int, t: int)
    requires Sorted(full) && (m.Mark? ==> m.today <= t)
    ensures full != [] ==>
      Prune(Filter(full, KeptSince(m, listing)), Some(listing), t)
      == Filter(full, KeptSince(Mark(full[|full| - 1].ts, t), listing))
  {
    if full != [] {
      var k, q, next := KeptSince(m, listing), Keeper(Some(listing), t), KeptSince(Mark(full[|full| - 1].ts, t), listing);
      FilterTwice(full, k, q);
      forall b | b in full ensures (k(b) && q(b)) == next(b) {
        var i :| 0 <= i < |full| && full[i] == b;
        assert b.ts <= full[|full| - 1].ts;
      }
      FilterAgrees(full, b => k(b) && q(b), next);
    }
  }

  lemma {:induction false} NewestKept(events: seq<Event>, listing: int)
    requires Orderly(events, listing) && Full(events) != []
    ensures KeptSince(MarkOf(events), listing)(Full(events)[|Full(events)| - 1])
  {
    var n := |events| - 1;
    FullIsDaily(events[..n], listing);
    if events[n].NewBar? && Full(events[..n]) != [] {
      assert MarkOf(events) == MarkOf(events[..n]);
    }
  }

  /** Over every orderly run of ingest and pruning, returns from the store equal returns from the full series. */
  lemma RunKeepsReturns(events: seq<Event>, listing: int, issue: Option<real>, splits: seq<Split>)
    requires Orderly(events, listing) && NoGaps(Full(events), listing)
    ensures Returns(Store(events, listing), listing * DAY, issue, splits)
         == Returns(Full(events), listing * DAY, issue, splits)
  {
    StoreIsFiltered(events, listing);
    FullIsDaily(events, listing);
    if Full(events) != [] {
      NewestKept(events, listing);
      HealthySurvives(Full(events), listing, KeptSince(MarkOf(events), listing));
    }
  }

  // ---------------------------------------------------------- when pruning does lose

  /** A series that stopped trading: its newest bar is deleted, and the latest price goes back to the listing. */
  lemma StaleSeriesLosesLatest()
    ensures var bars := [Bar(0, None, 10.0), Bar(100 * DAY, None, 20.0)];
      var before, after := Returns(bars, 0, None, []), Returns(Prune(bars, Some(0), 200), 0, None, []);
      before.Some? && after.Some? && before.value.latestClose == 20.0 && after.value.latestClose == 10.0
  {
    var a, b := Bar(0, None, 10.0), Bar(100 * DAY, None, 20.0);
    assert DayOf(a) == 0 && DayOf(b) == 100;
    assert !KeepTradeDate(100, Some(0), 200);
    assert [a, b][1..] == [b] && [b][1..] == [];
    var k := Keeper(Some(0), 200);
    assert k(a) && !k(b);
    assert Filter([b], k) == [] && Filter([a, b], k) == [a] + Filter([a, b][1..], k);
    assert Prune([a, b], Some(0), 200) == [a];
    assert ListingBar([a, b], 0) == Some(a) == ListingBar([a], 0);
  }

  /** A first session before the stated date: pruning deletes it, and a later bar becomes the listing session. */
  lemma EarlySessionIsLost()
    ensures var bars := [Bar(8 * DAY, None, 10.0), Bar(10 * DAY, None, 20.0)];
      var before, after := Returns(bars, 10 * DAY, None, []), Returns(Prune(bars, Some(10), 100), 10 * DAY, None, []);
      before.Some? && after.Some? && before.value.sessionTs == 8 * DAY && after.value.sessionTs == 10 * DAY
  {
    var a, b := Bar(8 * DAY, None, 10.0), Bar(10 * DAY, None, 20.0);
    assert DayOf(a) == 8 && DayOf(b) == 10;
    assert !KeepTradeDate(8, Some(10), 100) && KeepTradeDate(10, Some(10), 100);
    assert [a, b][1..] == [b] && [b][1..] == [];
    var k := Keeper(Some(10), 100);
    assert !k(a) && k(b);
    assert Filter([b], k) == [b] && Filter([a, b], k) == Filter([a, b][1..], k);
    assert Prune([a, b], Some(10), 100) == [b];
    assert ListingBar([a, b], 10 * DAY) == Some(a) && ListingBar([b], 10 * DAY) == Some(b);
  }

  // ------------------------------------------------------------------- the price table

  datatype PriceRow = PriceRow(isin: string, date: int, open: Option<real>, close: Option<real>)

  function ListingOf(listings: map<string, Option<int>>, isin: string): Option<int> {
    if isin in listings then listings[isin] else None
  }

  predicate KeepRow(r: PriceRow, listings: map<string, Option<int>>, today: int) {
    KeepTradeDate(r.date, ListingOf(listings, r.isin), today)
  }

  function KeepRows(rows: seq<PriceRow>, keep: PriceRow -> bool): (k: seq<PriceRow>)
    ensures |k| <= |rows| && forall r :: r in k <==> r in rows && keep(r)
  {
    if rows == [] then []
    else if keep(rows[0]) then [rows[0]] + KeepRows(rows[1..], keep)
    else KeepRows(rows[1..], keep)
  }

  function InsertByDate(r: PriceRow, rows: seq<PriceRow>): (s: seq<PriceRow>)
    ensures forall q :: q in s <==> q == r || q in rows
  {
    if rows == [] || r.date <= rows[0].date then [r] + rows else [rows[0]] + InsertByDate(r, rows[1..])
  }

  /** The rows of one security, ordered by date. */
  function ByDate(rows: seq<PriceRow>, isin: string): (s: seq<PriceRow>)
    ensures forall q :: q in s ==> q.isin == isin
  {
    if rows == [] then []
    else if rows[0].isin == isin then InsertByDate(rows[0], ByDate(rows[1..], isin))
    else ByDate(rows[1..], isin)
  }

  /** Rows without a close are dropped, never invented. */
  function ToBars(rows: seq<PriceRow>): seq<Bar> {
    if rows == [] then []
    else if rows[0].close.None? then ToBars(rows[1..])
    else [Bar(rows[0].date * DAY, rows[0].open, rows[0].close.value)] + ToBars(rows[1..])
  }

  /** nse_bhavcopy.bars_for_isin */
  function BarsForIsin(rows: seq<PriceRow>, isin: string): seq<Bar> {
    ToBars(ByDate(rows, isin))
  }

  class PriceTable {
    var rows: seq<PriceRow>

    /** nse_bhavcopy.prune_bars: security by security, delete what no window can read. */
    method PruneBars(listings: map<string, Option<int>>, today: int) returns (deleted: nat)
      modifies this
      ensures rows == KeepRows(old(rows), TableKeeper(listings, today))
      ensures deleted == |old(rows)| - |rows|
    {
      ghost var all, done := rows, {};
      var isins := set r | r in rows :: r.isin;
      deleted := 0;
      KeepAll(rows, PartKeeper({}, listings, today));
      while isins != {}
        invariant forall r :: r in all ==> r.isin in done + isins
        invariant rows == KeepRows(all, PartKeeper(done, listings, today))
        invariant deleted == |all| - |rows|
        decreases isins
      {
        var isin :| isin in isins;
        var kept := KeepRows(rows, PartKeeper({isin}, listings, today));
        KeepParts(all, done, isin, listings, today);
        deleted := deleted + (|rows| - |kept|);
        rows := kept;
        isins, done := isins - {isin}, done + {isin};
      }
      KeepAgrees(all, PartKeeper(done, listings, today), TableKeeper(listings, today));
    }
  }

  function TableKeeper(listings: map<string, Option<int>>, today: int): PriceRow -> bool {
    (r: PriceRow) => KeepRow(r, listings, today)
  }

  /** Keeps every row of the securities not yet processed. */
  function PartKeeper(done: set<string>, listings: map<string, Option<int>>, today: int): PriceRow -> bool {
    (r: PriceRow) => r.isin !in done || KeepRow(r, listings, today)
  }

  lemma KeepParts(all: seq<PriceRow>, done: set<string>, isin: string, listings: map<string, Option<int>>, today: int)
    ensures KeepRows(KeepRows(all, PartKeeper(done, listings, today)), PartKeeper({isin}, listings, today))
         == KeepRows(all, PartKeeper(done + {isin}, listings, today))
  {
    var p, q := PartKeeper(done, listings, today), PartKeeper({isin}, listings, today);
    KeepTwice(all, p, q);
    KeepAgrees(all, r => p(r) && q(r), PartKeeper(done + {isin}, listings, today));
  }

  lemma {:induction false} KeepAll(rows: seq<PriceRow>, keep: PriceRow -> bool)
    requires forall r :: r in rows ==> keep(r)
    ensures KeepRows(rows, keep) == rows
  {
    if rows != [] {
      KeepAll(rows[1..], keep);
    }
  }

  lemma {:induction false} KeepAgrees(rows: seq<PriceRow>, p: PriceRow -> bool, q: PriceRow -> bool)
    requires forall r :: r in rows ==> p(r) == q(r)
    ensures KeepRows(rows, p) == KeepRows(rows, q)
  {
    if rows != [] {
      KeepAgrees(rows[1..], p, q);
    }
  }

  lemma {:induction false} KeepTwice(rows: seq<PriceRow>, p: PriceRow -> bool, q: PriceRow -> bool)
    ensures KeepRows(KeepRows(rows, p), q) == KeepRows(rows, r => p(r) && q(r))
  {
    if rows != [] {
      KeepTwice(rows[1..], p, q);
      if p(rows[0]) {
        assert KeepRows(rows, p)[1..] == KeepRows(rows[1..], p);
      }
    }
  }

  ghost predicate DateOrdered(rows: seq<PriceRow>) {
    forall i, j :: 0 <= i < j < |rows| ==> rows[i].date <= rows[j].date
  }

  lemma {:induction false} InsertOrdered(r: PriceRow, rows: seq<PriceRow>)
    requires DateOrdered(rows)
    ensures DateOrdered(InsertByDate(r, rows))
  {
    if rows != [] && r.date > rows[0].date {
      InsertOrdered(r, rows[1..]);
      var tail := InsertByDate(r, rows[1..]);
      forall j | 0 <= j < |tail| ensures rows[0].date <= tail[j].date {
        assert tail[j] in tail;
      }
    }
  }

  lemma {:induction false} ByDateOrdered(rows: seq<PriceRow>, isin: string)
    ensures DateOrdered(ByDate(rows, isin))
  {
    if rows != [] {
      ByDateOrdered(rows[1..], isin);
      InsertOrdered(rows[0], ByDate(rows[1..], isin));
    }
  }

  lemma {:induction false} KeepInserted(r: PriceRow, rows: seq<PriceRow>, keep: PriceRow -> bool)
    requires DateOrdered(rows)
    ensures KeepRows(InsertByDate(r, rows), keep)
         == if keep(r) then InsertByDate(r, KeepRows(rows, keep)) else KeepRows(rows, keep)
  {
    var s, kept := InsertByDate(r, rows), KeepRows(rows, keep);
    if rows == [] || r.date <= rows[0].date {
      assert s[1..] == rows;
      if kept != [] {
        assert kept[0] in rows;
      }
    } else {
      assert s[1..] == InsertByDate(r, rows[1..]);
      KeepInserted(r, rows[1..], keep);
      if keep(rows[0]) {
        assert kept[1..] == KeepRows(rows[1..], keep);
      }
    }
  }

  lemma {:induction false} KeepThenOrder(rows: seq<PriceRow>, isin: string, keep: PriceRow -> bool)
    ensures ByDate(KeepRows(rows, keep), isin) == KeepRows(ByDate(rows, isin), keep)
  {
    if rows != [] {
      KeepThenOrder(rows[1..], isin, keep);
      ByDateOrdered(rows[1..], isin);
      KeepInserted(rows[0], ByDate(rows[1..], isin), keep);
      if keep(rows[0]) {
        assert KeepRows(rows, keep)[1..] == KeepRows(rows[1..], keep);
      }
    }
  }

  lemma {:induction false} KeepThenBars(rows: seq<PriceRow>, listings: map<string, Option<int>>, isin: string, today: int)
    requires forall r :: r in rows ==> r.isin == isin
    ensures ToBars(KeepRows(rows, TableKeeper(listings, today)))
         == Prune(ToBars(rows), ListingOf(listings, isin), today)
  {
    if rows != [] {
      var keep := TableKeeper(listings, today);
      KeepThenBars(rows[1..], listings, isin, today);
      if keep(rows[0]) {
        assert KeepRows(rows, keep)[1..] == KeepRows(rows[1..], keep);
      }
      if rows[0].close.Some? {
        assert ToBars(rows)[1..] == ToBars(rows[1..]);
        assert DayOf(ToBars(rows)[0]) == rows[0].date;
      }
    }
  }

  /** The table-wide deletion is the per-series pruning of every security. */
  lemma TablePrunesSeries(rows: seq<PriceRow>, listings: map<string, Option<int>>, isin: string, today: int)
    ensures BarsForIsin(KeepRows(rows, TableKeeper(listings, today)), isin)
         == Prune(BarsForIsin(rows, isin), ListingOf(listings, isin), today)
  {
    KeepThenOrder(rows, isin, TableKeeper(listings, today));
    KeepThenBars(ByDate(rows, isin), listings, isin, today);
  }
}
