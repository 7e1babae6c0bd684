/**
 Which return each stored figure of an outcome holds: the window's length in days, and the price
 and close it is measured between.
 */
module GradedFigures {
  import opened Options
  import opened PriceWindows
  import opened ReportedReturns
  import opened Grading

  /** b is the newest bar in (session, session + days], and the series reaches that far. */
  ghost predicate Closes(bars: seq<Bar>, sessionTs: int, days: nat, b: Bar)
    requires bars != []
  {
    && b in bars && sessionTs < b.ts <= sessionTs + days * 86400 <= bars[|bars| - 1].ts
    && forall q | q in bars :: q.ts <= b.ts || q.ts > sessionTs + days * 86400
  }

  /** The figure holds the rounded return over that many days, and is absent exactly when the series
      has no such bar. */
  ghost predicate Holds(figure: Option<real>, bars: seq<Bar>, r: Report, base: real, days: nat, round: real -> real)
    requires bars != []
  {
    && (figure.Some? <==> exists b :: Closes(bars, r.sessionTs, days, b))
    && forall b | Closes(bars, r.sessionTs, days, b) && figure.Some? ::
         exists v :: figure.value == round(v) && Measures(v, base, b.close)
  }

  lemma OneWindow(bars: seq<Bar>, r: Report, base: real, w: Window, out: Outside)
    requires bars != [] && w in WINDOWS
    requires forall w :: w in r.windows <==> w in WINDOWS && exists b :: Governs(bars, r.sessionTs, w, b)
    requires forall w, b | w in r.windows && Governs(bars, r.sessionTs, w, b) :: Measures(r.windows[w], base, b.close)
    ensures Holds(Rounded(Find(r.windows, w), out), bars, r, base, w.days, out.round)
  {
    hide Measures;
    forall b ensures Closes(bars, r.sessionTs, w.days, b) <==> Governs(bars, r.sessionTs, w, b) {
    }
    hide Governs, Closes;
    var figure := Rounded(Find(r.windows, w), out);
    forall b | Closes(bars, r.sessionTs, w.days, b) && figure.Some?
      ensures exists v :: figure.value == out.round(v) && Measures(v, base, b.close)
    {
      assert figure.value == out.round(r.windows[w]) && Measures(r.windows[w], base, b.close);
    }
  }

  /** The window figures of a graded outcome are the returns over 7, 30, 182, 365 and 730 days, from
      the base price to the close that ends the window. */
  lemma FiguresByDays(x: Issue, h: History, out: Outside)
    requires x.listingDay.Some? && h.bars != [] && Sorted(h.bars) && ReportFor(x, h).Some?
    ensures var r := ReportFor(x, h).value;
      var f := FiguresOf(x, r, out);
      ListingBar(h.bars, x.listingDay.value * DAY).Some? && (
        var base := BasePrice(r, x.price, h.splits, ListingBar(h.bars, x.listingDay.value * DAY).value.close);
        && Holds(f.r7, h.bars, r, base, 7, out.round) && Holds(f.r30, h.bars, r, base, 30, out.round)
        && Holds(f.r6m, h.bars, r, base, 182, out.round) && Holds(f.r12m, h.bars, r, base, 365, out.round)
        && Holds(f.r24m, h.bars, r, base, 730, out.round))
  {
    WindowReturnsMeasure(h.bars, x.listingDay.value * DAY, x.price, h.splits);
    var r := ReportFor(x, h).value;
    var base := BasePrice(r, x.price, h.splits, ListingBar(h.bars, x.listingDay.value * DAY).value.close);
    assert WINDOWS[0].days == 7 && WINDOWS[2].days == 30 && WINDOWS[4].days == 182 && WINDOWS[5].days == 365 && WINDOWS[6].days == 730;
    hide Holds, Governs, Measures, Returns, ListingBar, BasePrice, Against, Rounded;
    OneWindow(h.bars, r, base, WINDOWS[0], out);
    OneWindow(h.bars, r, base, WINDOWS[2], out);
    OneWindow(h.bars, r, base, WINDOWS[4], out);
    OneWindow(h.bars, r, base, WINDOWS[5], out);
    OneWindow(h.bars, r, base, WINDOWS[6], out);
  }

  /** The listing figures: from the issue price to the session's open, and to its close unless the
      report gives a listing return of its own. */
  lemma ListingFigures(x: Issue, r: Report, out: Outside)
    ensures var f := FiguresOf(x, r, out);
      var priced := x.price.Some? && x.price.value != 0.0;
      && (f.listingOpen.Some? <==> priced && r.listingOpen.Some? && r.listingOpen.value != 0.0)
      && (f.listingOpen.Some? ==> exists v :: f.listingOpen.value == out.round(v) && Measures(v, x.price.value, r.listingOpen.value))
      && (r.listingReturn.Some? ==> f.listingClose == Some(out.round(r.listingReturn.value)))
      && (r.listingReturn.None? ==> (f.listingClose.Some? <==> priced && r.listingClose.Some? && r.listingClose.value != 0.0))
      && (r.listingReturn.None? && f.listingClose.Some? ==>
            exists v :: f.listingClose.value == out.round(v) && Measures(v, x.price.value, r.listingClose.value))
  {
    hide Measures, Pct;
    if x.price.Some? && x.price.value != 0.0 {
      if r.listingOpen.Some? {
        Percent(r.listingOpen.value, x.price.value);
      }
      if r.listingClose.Some? {
        Percent(r.listingClose.value, x.price.value);
      }
    }
  }

  /** The benchmark figure: the twelve-month return less what the benchmark made from its first bar on
      or after the listing to its last within 365 days. */
  lemma BenchmarkDifference(bench: seq<Bar>, listing: int, r12m: Option<real>, start: Bar, end: Bar)
    requires bench != [] && OnOrAfter(bench, listing) == Some(start) && UpTo(bench, listing + 365 * 86400) == Some(end)
    requires start.close != 0.0
    ensures var rel := BenchmarkRelative(bench, listing, r12m);
      && (rel.Some? <==> r12m.Some? && end.ts > start.ts)
      && (rel.Some? ==> Measures(r12m.value - rel.value, start.close, end.close))
  {
    hide Measures, Pct;
    Percent(end.close, start.close);
  }

  // ------------------------------------------------------------- the category of a snapshot

  /** Everything a return needs is known: a symbol, and a price above zero. */
  ghost predicate Identified(x: Issue) {
    x.symbol != "" && x.price.Some? && x.price.value > 0.0
  }

  /** Listed on a known day before today. */
  ghost predicate Traded(x: Issue, today: int) {
    x.status == Listed && x.listingDay.Some? && x.listingDay.value < today
  }

  /** Listing today or on a later known day. */
  ghost predicate ListsLater(x: Issue, today: int) {
    x.listingDay.Some? && x.listingDay.value >= today
  }

  /** An outcome holds a figure. */
  ghost predicate Measured(o: Option<Outcome>) {
    o.Some? && (
      var f := o.value.figures;
      f.listingOpen.Some? || f.listingClose.Some? || f.r7.Some? || f.r30.Some? || f.r6m.Some? || f.r12m.Some? || f.r24m.Some?)
  }

  ghost predicate TakenOff(x: Issue) {
    x.status == Withdrawn || x.status == NotIpo
  }

  /** Exactly when a snapshot is in each of the seven categories. */
  lemma CategoryIff(x: Issue, o: Option<Outcome>, today: int)
    ensures var c := Classify(x, o, today);
      && (c == InvalidForwardRecord <==> TakenOff(x))
      && (c == Graded <==> !TakenOff(x) && Measured(o))
      && (c == Pending <==> Traded(x, today) && Identified(x) && !Measured(o) && (o.None? || o.value.mark != MarkedBlocked))
      && (c == BlockedMarketData <==> Traded(x, today) && Identified(x) && !Measured(o) && o.Some? && o.value.mark == MarkedBlocked)
      && (c == BlockedOfferPrice <==> Traded(x, today) && !Measured(o) && x.symbol != "" && !Identified(x))
      && (c == BlockedIdentity <==> !Measured(o) && x.status == Listed && (x.listingDay.None? || (Traded(x, today) && x.symbol == "")))
      && (c == NotYetEligible <==> !Measured(o) && !TakenOff(x) && (x.status != Listed || ListsLater(x, today)))
  {
  }

  /** A pass grades a snapshot exactly when its issue has traded, is identified and has no figure, and
      either was not blocked or was blocked at least 14 days ago, or on no known day. */
  lemma GradedNowIff(s: Snap, issues: map<nat, Issue>, outcomes: map<nat, Outcome>, today: int)
    requires s.ipo in issues
    ensures var x, o := issues[s.ipo], Find(outcomes, s.id);
      Due(EntryOf(s, issues, outcomes, today), outcomes, today)
      <==> Traded(x, today) && Identified(x) && !Measured(o)
           && (o.None? || o.value.mark != MarkedBlocked || o.value.gradedDay.None? || today >= o.value.gradedDay.value + 14)
  {
    CategoryIff(issues[s.ipo], Find(outcomes, s.id), today);
    hide Classify, Traded, Identified, Measured;
  }

  /** Every outcome a pass writes carries the pass's day, and says whether it was graded: with the
      source of its series, or blocked, with a note and no figure left. */
  lemma Stamped(o: Option<Outcome>, ipo: nat, x: Issue, out: Outside)
    ensures var now, h := Attached(o, ipo, x, out), out.histories(ipo);
      && now.gradedDay == Some(out.when)
      && (Usable(ReportFor(x, h)) ==>
            now.mark == MarkedGraded && now.note == "" && now.source == (if h.url == "" then "Yahoo Finance fallback" else h.url))
      && (!Usable(ReportFor(x, h)) ==>
            now.mark == MarkedBlocked && now.note != "" && !Measured(Some(now)) && now.benchmark == None
            && now.source == if o.Some? then o.value.source else "")
  {
    hide Usable, ReportFor, FiguresOf, BenchmarkRelative, Rounded;
    NoteGiven(x, out.histories(ipo));
    hide BlockNote;
  }

  lemma NoteGiven(x: Issue, h: History)
    ensures BlockNote(x, h) != ""
  {
    hide ReportFor;
  }
}
