/**
 market.windowed_returns: the listing return and the forward window returns read off
 a daily price series. Timestamps are seconds; a price of None or 0.0 is absent.
 */
module PriceWindows {
  import opened Options
  import opened Reals

  const DAY: int := 86400
  const FIRST_BAR_TOLERANCE_DAYS := 4
  const LISTING_SESSION_DAYS := 14
  const IMPLAUSIBLE_LISTING_RETURN_PCT := 2000.0

  datatype Bar = Bar(ts: int, open: Option<real>, close: real)

  datatype Split = Split(ts: int, factor: real)

  datatype Window = Window(name: string, days: nat)

  const WINDOWS: seq<Window> := [
    Window("return_7d_pct", 7), Window("return_1m_pct", 30), Window("return_30d_pct", 30),
    Window("return_90d_pct", 90), Window("return_6m_pct", 182), Window("return_12m_pct", 365),
    Window("return_24m_pct", 730)]

  datatype Basis = IssuePrice | ListingClose

  /** The output dictionary; an absent key is None, or missing from `windows`. */
  datatype Report = Report(
    sessionTs: int,
    listingClose: Option<real>,
    listingOpen: Option<real>,
    basis: Basis,
    splitFactor: Option<real>,
    suppressed: bool,
    listingReturn: Option<real>,
    listingOpenReturn: Option<real>,
    listingDayReturn: Option<real>,
    windows: map<Window, real>,
    latestClose: real,
    latestTs: int,
    sinceListing: Option<real>)

  function Truthy(v: Option<real>): Option<real> {
    if v.Some? && v.value != 0.0 then v else None
  }

  function Pct(v: real, base: real): real
    requires base != 0.0
  {
    (v / base - 1.0) * 100.0
  }

  ghost predicate Sorted(bars: seq<Bar>) {
    forall i, j :: 0 <= i < j < |bars| ==> bars[i].ts < bars[j].ts
  }

  // ------------------------------------------------------------------ bar helpers

  function OnOrAfter(bars: seq<Bar>, t: int): (r: Option<Bar>)
    ensures r.Some? ==> r.value in bars && r.value.ts >= t
    ensures r.None? ==> forall b :: b in bars ==> b.ts < t
  {
    if bars == [] then None
    else if bars[0].ts >= t then Some(bars[0])
    else OnOrAfter(bars[1..], t)
  }

  /** The last bar before the first one later than t. */
  function UpTo(bars: seq<Bar>, t: int): (r: Option<Bar>)
    ensures r.Some? ==> r.value in bars && r.value.ts <= t
  {
    if bars == [] || bars[0].ts > t then None
    else
      var later := UpTo(bars[1..], t);
      if later.Some? then later else Some(bars[0])
  }

  /** market.bar_on_or_after */
  method BarOnOrAfter(bars: seq<Bar>, t: int) returns (r: Option<Bar>)
    ensures r == OnOrAfter(bars, t)
  {
    for i := 0 to |bars|
      invariant OnOrAfter(bars, t) == OnOrAfter(bars[i..], t)
    {
      if bars[i].ts >= t {
        return Some(bars[i]);
      }
      assert bars[i..][1..] == bars[i + 1..];
    }
    return None;
  }

  /** market.bar_nearest_before_or_on */
  method BarNearestBeforeOrOn(bars: seq<Bar>, t: int) returns (best: Option<Bar>)
    ensures best == UpTo(bars, t)
  {
    best := None;
    for i := 0 to |bars|
      invariant UpTo(bars, t) == (var later := UpTo(bars[i..], t); if later.Some? then later else best)
    {
      if bars[i].ts > t {
        break;
      }
      best := Some(bars[i]);
      assert bars[i..][1..] == bars[i + 1..];
    }
  }

  function FactorAfter(splits: seq<Split>, t: int): real {
    if splits == [] then 1.0
    else
      var n := |splits| - 1;
      if splits[n].ts > t then Times(FactorAfter(splits[..n], t), splits[n].factor) else FactorAfter(splits[..n], t)
  }

  function Adjusted(issue: Option<real>, t: int, splits: seq<Split>): (r: Option<real>)
    ensures Truthy(r).Some? ==> Truthy(issue).Some?
  {
    if Truthy(issue).None? then issue else Some(Times(issue.value, FactorAfter(splits, t)))
  }

  /** market.split_adjusted_issue_price */
  method SplitAdjustedIssuePrice(issue: Option<real>, t: int, splits: seq<Split>) returns (r: Option<real>)
    ensures r == Adjusted(issue, t, splits)
  {
    hide Times;
    if Truthy(issue).None? {
      return issue;
    }
    var factor := 1.0;
    for i := 0 to |splits|
      invariant factor == FactorAfter(splits[..i], t)
    {
      assert splits[..i + 1][..i] == splits[..i];
      if splits[i].ts > t {
        factor := Times(factor, splits[i].factor);
      }
    }
    assert splits[..|splits|] == splits;
    r := Some(Times(issue.value, factor));
  }

  // ------------------------------------------------------- the bars a report reads

  /** The listing session: the first bar when it is close enough, else the first bar on or after the date. */
  function ListingBar(bars: seq<Bar>, listing: int): Option<Bar> {
    if bars == [] then None
    else
      var bar :=
        if listing - FIRST_BAR_TOLERANCE_DAYS * DAY <= bars[0].ts <= listing + LISTING_SESSION_DAYS * DAY
        then Some(bars[0]) else OnOrAfter(bars, listing);
      if bar.None? || bar.value.ts - listing > LISTING_SESSION_DAYS * DAY then None else bar
  }

  /** The bar a window return is read from, once the window has elapsed. */
  function WindowBar(bars: seq<Bar>, sessionTs: int, w: Window): Option<Bar>
    requires bars != []
  {
    var target := sessionTs + w.days * DAY;
    if target > bars[|bars| - 1].ts then None
    else
      var b := UpTo(bars, target);
      if b.Some? && b.value.ts > sessionTs then b else None
  }

  datatype Reads = Reads(session: Bar, windows: map<Window, Bar>, latest: Bar)

  function WindowBars(bars: seq<Bar>, sessionTs: int): (m: map<Window, Bar>)
    requires bars != []
    ensures forall w :: w in m <==> w in WINDOWS && WindowBar(bars, sessionTs, w).Some?
    ensures forall w :: w in m ==> m[w] == WindowBar(bars, sessionTs, w).value
  {
    map w | w in WINDOWS && WindowBar(bars, sessionTs, w).Some? :: WindowBar(bars, sessionTs, w).value
  }

  /** Every bar that windowed_returns looks at the price of. */
  function ReadsOf(bars: seq<Bar>, listing: int): Option<Reads> {
    var session := ListingBar(bars, listing);
    if session.None? then None
    else Some(Reads(session.value, WindowBars(bars, session.value.ts), bars[|bars| - 1]))
  }

  function ReturnsOver(windows: map<Window, Bar>, base: real): map<Window, real>
    requires base != 0.0
  {
    map w | w in windows :: Pct(windows[w].close, base)
  }

  /** The report as a function of the bars it reads. */
  function ReportOn(r: Reads, issue: Option<real>, splits: seq<Split>): Option<Report> {
    var close, open := Truthy(Some(r.session.close)), Truthy(r.session.open);
    var adjusted := Truthy(Adjusted(issue, r.session.ts, splits));
    if adjusted.None? && close.None? then None
    else
      var implausible := adjusted.Some? && close.Some? &&
        (var lr := Pct(close.value, adjusted.value);
         lr > IMPLAUSIBLE_LISTING_RETURN_PCT || -lr > IMPLAUSIBLE_LISTING_RETURN_PCT);
      var price := if implausible then None else adjusted;
      var base := if price.Some? then price.value else close.value;
      Some(Report(
        r.session.ts, close, open,
        if Truthy(issue).None? || implausible then ListingClose else IssuePrice,
        if adjusted.Some? && adjusted != issue then Some(adjusted.value / issue.value) else None,
        implausible,
        if price.Some? && close.Some? then Some(Pct(close.value, price.value)) else None,
        if price.Some? && open.Some? then Some(Pct(open.value, price.value)) else None,
        if open.Some? && close.Some? then Some(Pct(close.value, open.value)) else None,
        ReturnsOver(r.windows, base),
        r.latest.close, r.latest.ts,
        if r.latest.close != 0.0 then Some(Pct(r.latest.close, base)) else None))
  }

  function Returns(bars: seq<Bar>, listing: int, issue: Option<real>, splits: seq<Split>): Option<Report> {
    var r := ReadsOf(bars, listing);
    if r.None? then None else ReportOn(r.value, issue, splits)
  }

  /** market.windowed_returns */
  method WindowedReturns(bars: seq<Bar>, listing: int, issue: Option<real>, splits: seq<Split>)
    returns (out: Option<Report>)
    ensures out == Returns(bars, listing, issue, splits)
  {
    hide Pct, Adjusted, OnOrAfter, WindowBar;
    if bars == [] {
      return None;
    }
    var first := bars[0];
    var found := None;
    if listing - FIRST_BAR_TOLERANCE_DAYS * DAY <= first.ts <= listing + LISTING_SESSION_DAYS * DAY {
      found := Some(first);
    } else {
      found := BarOnOrAfter(bars, listing);
    }
    if found.None? || found.value.ts - listing > LISTING_SESSION_DAYS * DAY {
      return None;
    }
    var session := found.value;
    var close, open := Truthy(Some(session.close)), Truthy(session.open);
    var basis := if Truthy(issue).Some? then IssuePrice else ListingClose;
    var adjusted := SplitAdjustedIssuePrice(issue, session.ts, splits);
    var price := Truthy(adjusted);
    var splitFactor := None;
    if price.Some? && adjusted != issue {
      splitFactor := Some(price.value / issue.value);
    }
    if price.None? && close.None? {
      return None;
    }
    var base := if price.Some? then price.value else close.value;
    var suppressed, listingReturn := false, None;
    if price.Some? && close.Some? {
      var lr := Pct(close.value, price.value);
      if lr > IMPLAUSIBLE_LISTING_RETURN_PCT || -lr > IMPLAUSIBLE_LISTING_RETURN_PCT {
        suppressed, basis, base, price := true, ListingClose, close.value, None;
      } else {
        listingReturn := Some(lr);
      }
    }
    var openReturn := None;
    if price.Some? && open.Some? {
      openReturn := Some(Pct(open.value, price.value));
    }
    var dayReturn := None;
    if open.Some? && close.Some? {
      dayReturn := Some(Pct(close.value, open.value));
    }
    var windows := WindowReturns(bars, session.ts, base);
    var latest := bars[|bars| - 1];
    out := Some(Report(session.ts, close, open, basis, splitFactor, suppressed, listingReturn, openReturn, dayReturn,
                       windows, latest.close, latest.ts,
                       if latest.close != 0.0 then Some(Pct(latest.close, base)) else None));
  }

  lemma WindowRead(bars: seq<Bar>, sessionTs: int, w: Window)
    requires bars != []
    ensures var target, b := sessionTs + w.days * DAY, UpTo(bars, sessionTs + w.days * DAY);
      WindowBar(bars, sessionTs, w)
        == if target <= bars[|bars| - 1].ts && b.Some? && b.value.ts > sessionTs then b else None
  {
    hide UpTo;
  }

  /** The loop over the seven windows. */
  method WindowReturns(bars: seq<Bar>, sessionTs: int, base: real) returns (out: map<Window, real>)
    requires bars != [] && base != 0.0
    ensures out == ReturnsOver(WindowBars(bars, sessionTs), base)
  {
    hide Pct, UpTo, WindowBar;
    out := map[];
    for i := 0 to |WINDOWS|
      invariant forall w :: w in out <==> w in WINDOWS[..i] && WindowBar(bars, sessionTs, w).Some?
      invariant forall w :: w in out ==> out[w] == Pct(WindowBar(bars, sessionTs, w).value.close, base)
    {
      var w := WINDOWS[i];
      assert WINDOWS[..i + 1] == WINDOWS[..i] + [w];
      WindowRead(bars, sessionTs, w);
      var target := sessionTs + w.days * DAY;
      if target > bars[|bars| - 1].ts {
        continue;
      }
      var b := BarNearestBeforeOrOn(bars, target);
      if b.Some? && b.value.ts > sessionTs {
        out := out[w := Pct(b.value.close, base)];
      }
    }
    assert WINDOWS[..|WINDOWS|] == WINDOWS;
  }

  // -------------------------------------------------------- what a window reads

  lemma {:induction false} UpToIs(bars: seq<Bar>, t: int, b: Bar)
    requires Sorted(bars) && b in bars && b.ts <= t
    requires forall q :: q in bars ==> q.ts <= b.ts || q.ts > t
    ensures UpTo(bars, t) == Some(b)
  {
    if b == bars[0] {
      if |bars| > 1 {
        assert bars[1] in bars;
      }
      assert UpTo(bars[1..], t).None?;
    } else {
      UpToIs(bars[1..], t, b);
      assert bars[0].ts < b.ts;
    }
  }

  lemma {:induction false} UpToLast(bars: seq<Bar>, t: int)
    requires Sorted(bars)
    ensures UpTo(bars, t).None? ==> forall q :: q in bars ==> q.ts > t
    ensures UpTo(bars, t).Some? ==> forall q :: q in bars ==> q.ts <= UpTo(bars, t).value.ts || q.ts > t
  {
    if bars != [] {
      UpToLast(bars[1..], t);
      assert forall q :: q in bars ==> q == bars[0] || q in bars[1..];
    }
  }

  /** The bar a window must be read from: the newest in (session, target], once the series reaches the target. */
  ghost predicate Governs(bars: seq<Bar>, sessionTs: int, w: Window, b: Bar)
    requires bars != []
  {
    && b in bars
    && sessionTs < b.ts <= sessionTs + w.days * DAY <= bars[|bars| - 1].ts
    && forall q :: q in bars ==> q.ts <= b.ts || q.ts > sessionTs + w.days * DAY
  }

  /** No look-ahead and nothing missed: a window is reported exactly from its governing bar. */
  lemma WindowExact(bars: seq<Bar>, sessionTs: int, w: Window, b: Bar)
    requires Sorted(bars) && bars != []
    ensures WindowBar(bars, sessionTs, w) == Some(b) <==> Governs(bars, sessionTs, w, b)
  {
    var target := sessionTs + w.days * DAY;
    UpToLast(bars, target);
    if Governs(bars, sessionTs, w, b) {
      UpToIs(bars, target, b);
    }
  }

  // -------------------------------------------------------------------- finality

  lemma SortedTail(bars: seq<Bar>, more: seq<Bar>)
    requires Sorted(bars + more) && bars != []
    ensures Sorted(bars)
    ensures forall q :: q in more ==> q.ts > bars[|bars| - 1].ts
    ensures (bars + more)[|bars + more| - 1].ts >= bars[|bars| - 1].ts
  {
    var all, n := bars + more, |bars|;
    assert forall i :: 0 <= i < n ==> all[i] == bars[i];
    forall q | q in more ensures q.ts > bars[n - 1].ts {
      var k :| 0 <= k < |more| && more[k] == q;
      assert all[n + k] == q && all[n - 1] == bars[n - 1];
    }
  }

  lemma {:induction false} OnOrAfterAppend(bars: seq<Bar>, more: seq<Bar>, t: int)
    ensures OnOrAfter(bars, t).Some? ==> OnOrAfter(bars + more, t) == OnOrAfter(bars, t)
  {
    if bars != [] {
      assert (bars + more)[1..] == bars[1..] + more;
      OnOrAfterAppend(bars[1..], more, t);
    }
  }

  lemma WindowBarAppend(bars: seq<Bar>, more: seq<Bar>, sessionTs: int, w: Window)
    requires Sorted(bars + more) && bars != []
    requires WindowBar(bars, sessionTs, w).Some?
    ensures WindowBar(bars + more, sessionTs, w) == WindowBar(bars, sessionTs, w)
  {
    SortedTail(bars, more);
    var b := WindowBar(bars, sessionTs, w).value;
    WindowExact(bars, sessionTs, w, b);
    assert Governs(bars + more, sessionTs, w, b);
    WindowExact(bars + more, sessionTs, w, b);
  }

  /** Everything in a report except the fields about the newest bar. */
  ghost predicate Settled(before: Report, after: Report) {
    && after.(windows := before.windows, latestClose := before.latestClose, latestTs := before.latestTs,
             sinceListing := before.sinceListing) == before
    && forall w :: w in before.windows ==> w in after.windows && after.windows[w] == before.windows[w]
  }

  lemma ReportExtends(r: Reads, q: Reads, issue: Option<real>, splits: seq<Split>)
    requires q.session == r.session && ReportOn(r, issue, splits).Some?
    requires forall w :: w in r.windows ==> w in q.windows && q.windows[w] == r.windows[w]
    ensures ReportOn(q, issue, splits).Some?
    ensures Settled(ReportOn(r, issue, splits).value, ReportOn(q, issue, splits).value)
  {
    hide Pct, Adjusted;
  }

  /** A reported return is final: later bars only add windows and move the latest price. */
  lemma ReturnsAreFinal(bars: seq<Bar>, more: seq<Bar>, listing: int, issue: Option<real>, splits: seq<Split>)
    requires Sorted(bars + more)
    requires Returns(bars, listing, issue, splits).Some?
    ensures Returns(bars + more, listing, issue, splits).Some?
    ensures Settled(Returns(bars, listing, issue, splits).value, Returns(bars + more, listing, issue, splits).value)
  {
    hide ReportOn, Settled, WindowBar;
    var r := ReadsOf(bars, listing).value;
    OnOrAfterAppend(bars, more, listing);
    assert ListingBar(bars + more, listing) == Some(r.session);
    var q := ReadsOf(bars + more, listing).value;
    forall w | w in r.windows ensures w in q.windows && q.windows[w] == r.windows[w] {
      WindowBarAppend(bars, more, r.session.ts, w);
    }
    ReportExtends(r, q, issue, splits);
  }
}
