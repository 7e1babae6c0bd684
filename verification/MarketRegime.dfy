/**
 market_regime.regime_at: the index return and volatility before a listing, and the
 observation written for it. `log` and `sqrt` are parameters.
 */
module MarketRegime {
  import opened Options
  import opened Reals
  import opened PriceWindows
  import opened PointInTime

  const LOOKBACK_DAYS := 60
  const VOL_WINDOW := 20
  const MAX_STALENESS_DAYS := 7

  datatype Maths = Maths(log: real -> real, sqrt: real -> real)

  datatype Regime = Regime(return60: real, vol20: real, asOfDay: int)

  /** Bars with a close, strictly before the listing day. */
  function Prior(bars: seq<Bar>, cutoff: int): (r: seq<Bar>)
    ensures forall b :: b in r <==> b in bars && b.close != 0.0 && b.ts < cutoff
  {
    if bars == [] then []
    else (if bars[0].close != 0.0 && bars[0].ts < cutoff then [bars[0]] else []) + Prior(bars[1..], cutoff)
  }

  function LogReturns(m: Maths, window: seq<Bar>): (r: seq<real>)
    requires forall b | b in window :: b.close != 0.0
    ensures |r| == if |window| == 0 then 0 else |window| - 1
  {
    if |window| < 2 then []
    else [m.log(window[1].close / window[0].close)] + LogReturns(m, window[1..])
  }

  function Volatility(m: Maths, rets: seq<real>): real
    requires |rets| == VOL_WINDOW
  {
    var mean := Sum(rets) / (VOL_WINDOW as real);
    m.sqrt(Sum(SquaredDeviations(rets, mean)) / ((VOL_WINDOW - 1) as real)) * m.sqrt(252.0) * 100.0
  }

  /** The first bar within the tolerance after the start of the lookback. */
  function BaseBar(prior: seq<Bar>): Option<Bar>
    requires prior != []
  {
    var last := prior[|prior| - 1];
    var start := last.ts - LOOKBACK_DAYS * DAY;
    var base := OnOrAfter(prior, start);
    if base.None? || base.value.ts - start > MAX_STALENESS_DAYS * DAY || base.value == last then None else base
  }

  function RegimeAt(m: Maths, bars: seq<Bar>, listingDay: Option<int>): Option<Regime> {
    if listingDay.None? then None
    else
      var cutoff := listingDay.value * DAY;
      var prior := Prior(bars, cutoff);
      if |prior| < VOL_WINDOW + 1 then None
      else
        var last := prior[|prior| - 1];
        var base := BaseBar(prior);
        if cutoff - last.ts > MAX_STALENESS_DAYS * DAY || base.None? then None
        else
          assert last in prior && base.value in prior;
          var window := prior[|prior| - (VOL_WINDOW + 1)..];
          assert forall b | b in window :: b in prior;
          Some(Regime(Pct(last.close, base.value.close), Volatility(m, LogReturns(m, window)), last.ts / DAY))
  }

  /** What refresh writes for a listing. */
  function Written(value: real, r: Regime): Observation {
    Observation(Some(value), MarketIndexClose, Some(r.asOfDay), Some(r.asOfDay))
  }

  /** Series that differ only in bars on or after the listing day. */
  ghost predicate SameBefore(a: seq<Bar>, b: seq<Bar>, cutoff: int)
    decreases |a| + |b|
  {
    if a == [] then forall x | x in b :: x.ts >= cutoff
    else
      || (a[0].ts >= cutoff && SameBefore(a[1..], b, cutoff))
      || (b != [] && b[0].ts >= cutoff && SameBefore(a, b[1..], cutoff))
      || (b != [] && a[0] == b[0] && SameBefore(a[1..], b[1..], cutoff))
  }

  lemma {:induction false} NothingPrior(b: seq<Bar>, cutoff: int)
    requires forall x | x in b :: x.ts >= cutoff
    ensures Prior(b, cutoff) == []
  {
    if b != [] {
      NothingPrior(b[1..], cutoff);
    }
  }

  lemma {:induction false} PriorSame(a: seq<Bar>, b: seq<Bar>, cutoff: int)
    requires SameBefore(a, b, cutoff)
    ensures Prior(a, cutoff) == Prior(b, cutoff)
    decreases |a| + |b|
  {
    if a == [] {
      NothingPrior(b, cutoff);
    } else if a[0].ts >= cutoff && SameBefore(a[1..], b, cutoff) {
      PriorSame(a[1..], b, cutoff);
    } else if b != [] && b[0].ts >= cutoff && SameBefore(a, b[1..], cutoff) {
      PriorSame(a, b[1..], cutoff);
    } else {
      PriorSame(a[1..], b[1..], cutoff);
    }
  }

  /** The regime of a listing does not depend on any index bar of its listing day or later. */
  lemma RegimeIgnoresTheFuture(m: Maths, a: seq<Bar>, b: seq<Bar>, listingDay: int)
    requires SameBefore(a, b, listingDay * DAY)
    ensures RegimeAt(m, a, Some(listingDay)) == RegimeAt(m, b, Some(listingDay))
  {
    hide Prior, SameBefore, BaseBar, Volatility, LogReturns, Pct;
    PriorSame(a, b, listingDay * DAY);
  }

  /** What is written was known before the listing day, at most a week before it, and production
      features dated that day admit it. */
  lemma RegimeIsKnown(m: Maths, bars: seq<Bar>, listingDay: int, value: real)
    requires RegimeAt(m, bars, Some(listingDay)).Some?
    ensures var r := RegimeAt(m, bars, Some(listingDay)).value;
      && listingDay - MAX_STALENESS_DAYS <= r.asOfDay < listingDay
      && Admissible(Written(value, r), listingDay, Production)
      && !FromTheFuture(Written(value, r), listingDay)
  {
    hide Volatility, LogReturns, Pct, Prior, BaseBar;
    var prior := Prior(bars, listingDay * DAY);
    var last := prior[|prior| - 1];
    assert last in prior;
  }

  /** On a time-sorted series the return spans 53 to 60 days and ends at the last close before listing. */
  lemma ReturnSpan(m: Maths, bars: seq<Bar>, listingDay: int)
    requires RegimeAt(m, bars, Some(listingDay)).Some? && Sorted(bars)
    ensures exists base, last ::
      && base in bars && last in bars && base.close != 0.0
      && (LOOKBACK_DAYS - MAX_STALENESS_DAYS) * DAY <= last.ts - base.ts <= LOOKBACK_DAYS * DAY
      && (forall b | b in bars && b.close != 0.0 && b.ts < listingDay * DAY :: b.ts <= last.ts)
      && last.ts < listingDay * DAY
      && RegimeAt(m, bars, Some(listingDay)).value.return60 == Pct(last.close, base.close)
  {
    hide Volatility, LogReturns, Pct, Prior;
    var prior := Prior(bars, listingDay * DAY);
    var last, base := prior[|prior| - 1], BaseBar(prior).value;
    assert last in prior && base in prior;
    PriorSorted(bars, listingDay * DAY);
    forall b | b in bars && b.close != 0.0 && b.ts < listingDay * DAY ensures b.ts <= last.ts {
      var i :| 0 <= i < |prior| && prior[i] == b;
    }
  }

  lemma {:induction false} PriorSorted(bars: seq<Bar>, cutoff: int)
    requires Sorted(bars)
    ensures Sorted(Prior(bars, cutoff))
  {
    if bars != [] {
      PriorSorted(bars[1..], cutoff);
      var rest := Prior(bars[1..], cutoff);
      forall i | 0 <= i < |rest| ensures bars[0].ts < rest[i].ts {
        assert rest[i] in rest;
        var j :| 0 <= j < |bars[1..]| && bars[1..][j] == rest[i];
        assert bars[j + 1] == rest[i];
      }
    }
  }
}
