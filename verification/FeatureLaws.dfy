/**
 What a feature row holds, said of the observations and listings it is read from, and what the
 market regime written for a listing measures.
 */
module FeatureLaws {
  import opened Options
  import opened Reals
  import opened PriceWindows
  import opened PointInTime
  import opened MarketRegime
  import opened ReportedReturns

  // ------------------------------------------------------------- the trailing count

  lemma {:induction false} CountSnoc(listings: seq<int>, d: int, asOf: int)
    ensures TrailingIpoCount(listings + [d], asOf)
      == TrailingIpoCount(listings, asOf) + if asOf - 90 <= d < asOf then 1 else 0
  {
    if listings == [] {
      assert listings + [d] == [d] && [d][1..] == [];
    } else {
      assert (listings + [d])[1..] == listings[1..] + [d];
      CountSnoc(listings[1..], d, asOf);
    }
  }

  /** The listings counted are those of the 90 days before the date. */
  lemma {:induction false} CountsNinetyDays(listings: seq<int>, asOf: int)
    ensures TrailingIpoCount(listings, asOf) == |set i | 0 <= i < |listings| && asOf - 90 <= listings[i] < asOf|
  {
    var all := set i | 0 <= i < |listings| && asOf - 90 <= listings[i] < asOf;
    if listings == [] {
      assert all == {};
    } else {
      var n := |listings| - 1;
      var past := listings[..n];
      var rest := set i | 0 <= i < |past| && asOf - 90 <= past[i] < asOf;
      CountsNinetyDays(past, asOf);
      CountSnoc(past, listings[n], asOf);
      assert listings == past + [listings[n]];
      assert all == if asOf - 90 <= listings[n] < asOf then rest + {n} else rest;
    }
  }

  // ------------------------------------------------------------- the newest admissible value

  /** Day a is later than day b; no day is earlier than any. */
  predicate LaterDay(a: Option<int>, b: Option<int>) {
    a.Some? && (b.None? || b.value < a.value)
  }

  /** What production admits: a value, by a point-in-time rule, available by the date. */
  lemma ProductionAdmits(o: Observation, asOf: int)
    ensures Admissible(o, asOf, Production)
      <==> o.value.Some? && (o.rule == ProspectusFiling || o.rule == NseLiveFeed || o.rule == MarketIndexClose)
           && o.availableAt.Some? && o.availableAt.value <= asOf
  {
  }

  /** The value read is that of an admissible observation with the latest period end, and among those
      the latest availability. */
  lemma NewestIsRead(obs: seq<Observation>, asOf: int, ds: Dataset)
    ensures LatestAvailable(obs, asOf, ds).None? <==> forall o | o in obs :: !Admissible(o, asOf, ds)
    ensures LatestAvailable(obs, asOf, ds).Some? ==>
      exists o :: o in obs && Admissible(o, asOf, ds) && LatestAvailable(obs, asOf, ds) == o.value
        && forall q | q in obs && Admissible(q, asOf, ds) ::
             !LaterDay(q.periodEnd, o.periodEnd)
             && (q.periodEnd == o.periodEnd ==> !LaterDay(q.availableAt, o.availableAt))
  {
    hide PointInTimeRule, ResearchOnlyRule, DatedBy;
    var ok := Admitted(obs, asOf, ds);
    if ok != [] {
      var o := Latest(ok);
      forall q | q in obs && Admissible(q, asOf, ds)
        ensures !LaterDay(q.periodEnd, o.periodEnd) && (q.periodEnd == o.periodEnd ==> !LaterDay(q.availableAt, o.availableAt))
      {
        assert q in ok && !KeyLess(o, q);
      }
    } else {
      forall o | o in obs ensures !Admissible(o, asOf, ds) {
        assert o !in ok;
      }
    }
  }

  // ------------------------------------------------------------- ratios, multiplied out

  lemma Percentage(a: Option<real>, b: Option<real>, shift: real)
    ensures var v := PointInTime.Scaled(Ratio(a, b), shift);
      && (v.Some? <==> a.Some? && b.Some? && b.value != 0.0)
      && (v.Some? ==> b.value * v.value == 100.0 * (a.value + shift * b.value))
  {
    if a.Some? && b.Some? && b.value != 0.0 {
      var q := a.value / b.value;
      assert q * b.value == a.value;
      assert b.value * ((q + shift) * 100.0) == 100.0 * (q * b.value + shift * b.value);
    }
  }

  /** Putting a value under another name changes nothing about this one. */
  lemma PutOther(m: map<string, real>, name: string, v: Option<real>, key: string)
    requires name != "" && key != "" && name[0] != key[0]
    ensures (key in Put(m, name, v) <==> key in m) && (key in m ==> Put(m, name, v)[key] == m[key])
  {
  }

  lemma PutHere(m: map<string, real>, name: string, v: Option<real>)
    requires name !in m
    ensures (name in Put(m, name, v) <==> v.Some?) && (v.Some? ==> Put(m, name, v)[name] == v.value)
  {
  }

  /** The features that come before the ratios. */
  function Plain(log: real -> real, ipo: Ipo, d: Dated): map<string, real> {
    var m := map["is_sme" := if ipo.sme then 1.0 else 0.0, "is_spac" := if ipo.spac then 1.0 else 0.0,
                 "ipo_count_90d" := d.ipoCount as real];
    var m := Put(m, "log_issue_size", LogOf(log, ipo.issueSize));
    var m := Put(m, "log_offer_price", LogOf(log, ipo.finalPrice));
    var m := Put(m, "fresh_issue_pct", ipo.freshPct);
    var m := Put(m, "ofs_pct", ipo.ofsPct);
    var m := Put(m, "log_shares_offered", LogOf(log, ipo.sharesOffered));
    Put(m, "log_revenue", LogOf(log, d.rev))
  }

  lemma PlainNames(log: real -> real, ipo: Ipo, d: Dated)
    ensures forall k | k in Plain(log, ipo, d) :: k != "" && k[0] in {'i', 'l', 'f', 'o'}
  {
    hide LogOf;
  }

  lemma InTurn(log: real -> real, ipo: Ipo, d: Dated)
    ensures var g, n, c := PointInTime.Scaled(Ratio(d.rev, d.revPrev), -1.0), PointInTime.Scaled(Ratio(d.ni, d.rev), 0.0), PointInTime.Scaled(Ratio(d.cfo, d.rev), 0.0);
      var m := Put(Put(Put(Plain(log, ipo, d), "revenue_growth_pct", g), "net_margin_pct", n), "cfo_margin_pct", c);
      Assemble(log, ipo, d) == Put(Put(m, "market_return_60d_pct", d.return60), "market_vol_20d_pct", d.vol20)
  {
    hide LogOf, Ratio, PointInTime.Scaled, Put;
  }

  lemma Found(log: real -> real, ipo: Ipo, d: Dated)
    ensures var m := Assemble(log, ipo, d);
      var g, n, c := PointInTime.Scaled(Ratio(d.rev, d.revPrev), -1.0), PointInTime.Scaled(Ratio(d.ni, d.rev), 0.0), PointInTime.Scaled(Ratio(d.cfo, d.rev), 0.0);
      && ("revenue_growth_pct" in m <==> g.Some?) && (g.Some? ==> m["revenue_growth_pct"] == g.value)
      && ("net_margin_pct" in m <==> n.Some?) && (n.Some? ==> m["net_margin_pct"] == n.value)
      && ("cfo_margin_pct" in m <==> c.Some?) && (c.Some? ==> m["cfo_margin_pct"] == c.value)
  {
    InTurn(log, ipo, d);
    PlainNames(log, ipo, d);
    hide Assemble, Plain, Put, LogOf, Ratio, PointInTime.Scaled;
    var g, n, c := PointInTime.Scaled(Ratio(d.rev, d.revPrev), -1.0), PointInTime.Scaled(Ratio(d.ni, d.rev), 0.0), PointInTime.Scaled(Ratio(d.cfo, d.rev), 0.0);
    var growth, net, cash := "revenue_growth_pct", "net_margin_pct", "cfo_margin_pct";
    assert growth[0] == 'r' && net[0] == 'n' && cash[0] == 'c';
    var m0 := Plain(log, ipo, d);
    var m1 := Put(m0, growth, g);
    var m2 := Put(m1, net, n);
    var m3 := Put(m2, cash, c);
    var m4 := Put(m3, "market_return_60d_pct", d.return60);
    assert growth !in m0 && net !in m0 && cash !in m0;
    PutHere(m0, growth, g);
    PutOther(m0, growth, g, net);
    PutOther(m0, growth, g, cash);
    PutHere(m1, net, n);
    PutOther(m1, net, n, growth);
    PutOther(m1, net, n, cash);
    PutHere(m2, cash, c);
    PutOther(m2, cash, c, growth);
    PutOther(m2, cash, c, net);
    PutOther(m3, "market_return_60d_pct", d.return60, growth);
    PutOther(m3, "market_return_60d_pct", d.return60, net);
    PutOther(m3, "market_return_60d_pct", d.return60, cash);
    PutOther(m4, "market_vol_20d_pct", d.vol20, growth);
    PutOther(m4, "market_vol_20d_pct", d.vol20, net);
    PutOther(m4, "market_vol_20d_pct", d.vol20, cash);
  }

  /** The revenue and margin features of a row, from the newest admissible figures: growth is from
      the previous revenue, the margins are of the revenue. */
  lemma RatioFeatures(log: real -> real, ipo: Ipo, d: Dated)
    ensures var m := Assemble(log, ipo, d);
      var growth, net, cash := "revenue_growth_pct", "net_margin_pct", "cfo_margin_pct";
      && (growth in m <==> d.rev.Some? && d.revPrev.Some? && d.revPrev.value != 0.0)
      && (growth in m ==> d.revPrev.value * (100.0 + m[growth]) == 100.0 * d.rev.value)
      && (net in m <==> d.ni.Some? && d.rev.Some? && d.rev.value != 0.0)
      && (net in m ==> d.rev.value * m[net] == 100.0 * d.ni.value)
      && (cash in m <==> d.cfo.Some? && d.rev.Some? && d.rev.value != 0.0)
      && (cash in m ==> d.rev.value * m[cash] == 100.0 * d.cfo.value)
  {
    hide Assemble, Ratio, PointInTime.Scaled;
    Found(log, ipo, d);
    Percentage(d.rev, d.revPrev, -1.0);
    Percentage(d.ni, d.rev, 0.0);
    Percentage(d.cfo, d.rev, 0.0);
  }

  // ------------------------------------------------------------- the market regime

  /** The return written for a listing is measured from a base bar to the last close before it, and
      the volatility is the root of 252 times the sample variance of the last 20 log returns, in
      percent. */
  lemma RegimeMeasures(m: Maths, bars: seq<Bar>, listingDay: Option<int>)
    requires RegimeAt(m, bars, listingDay).Some?
    ensures var r, prior := RegimeAt(m, bars, listingDay).value, Prior(bars, listingDay.value * 86400);
      |prior| >= 21 && (
        var last := prior[|prior| - 1];
        && (exists base :: base in prior && Measures(r.return60, base.close, last.close)
              && BaseBar(prior) == Some(base))
        && (forall b | b in prior[|prior| - 21..] :: b.close != 0.0)
        && (var rets := LogReturns(m, prior[|prior| - 21..]);
            && |rets| == 20
            && (var v := Sum(SquaredDeviations(rets, Sum(rets) / 20.0)) / 19.0;
                m.sqrt(v) * m.sqrt(v) == v && m.sqrt(252.0) * m.sqrt(252.0) == 252.0 ==>
                  r.vol20 * r.vol20 == 2520000.0 * v)))
  {
    hide LogReturns, Measures, Pct, Prior, SquaredDeviations, Sum, OnOrAfter;
    var prior := Prior(bars, listingDay.value * 86400);
    var base := BaseBar(prior).value;
    assert base in prior && base.close != 0.0;
    hide BaseBar;
    Percent(prior[|prior| - 1].close, base.close);
    var rets := LogReturns(m, prior[|prior| - 21..]);
    var v := Sum(SquaredDeviations(rets, Sum(rets) / 20.0)) / 19.0;
    SquareOf(m.sqrt(v), m.sqrt(252.0), v);
  }

  lemma SquareOf(a: real, b: real, v: real)
    ensures a * a == v && b * b == 252.0 ==> (a * b * 100.0) * (a * b * 100.0) == 2520000.0 * v
  {
    assert (a * b * 100.0) * (a * b * 100.0) == (a * a) * (b * b) * 10000.0;
  }

  /** last is the last close before the listing and within a week of it; base is the first close from
      60 days before last on, within a week of that and not last itself. */
  ghost predicate Spans(bars: seq<Bar>, listingDay: int, last: Bar, base: Bar) {
    && ClosedBefore(bars, listingDay, last) && ClosedBefore(bars, listingDay, base) && base != last
    && listingDay * 86400 - 7 * 86400 <= last.ts
    && (forall q | ClosedBefore(bars, listingDay, q) :: q.ts <= last.ts)
    && last.ts - 60 * 86400 <= base.ts <= last.ts - 53 * 86400
    && forall q | ClosedBefore(bars, listingDay, q) :: q.ts >= base.ts || q.ts < last.ts - 60 * 86400
  }

  ghost predicate ClosedBefore(bars: seq<Bar>, listingDay: int, b: Bar) {
    b in bars && b.close != 0.0 && b.ts < listingDay * 86400
  }

  lemma {:induction false} PriorAscends(bars: seq<Bar>, cutoff: int)
    requires PriceWindows.Sorted(bars)
    ensures PriceWindows.Sorted(Prior(bars, cutoff))
  {
    if bars != [] {
      PriorAscends(bars[1..], cutoff);
      var rest := Prior(bars[1..], cutoff);
      forall j | 0 <= j < |rest| ensures bars[0].ts < rest[j].ts {
        assert rest[j] in rest;
      }
    }
  }

  lemma BaseIs(prior: seq<Bar>, b: Bar)
    requires prior != [] && PriceWindows.Sorted(prior)
    ensures var last := prior[|prior| - 1];
      BaseBar(prior) == Some(b)
      <==> b in prior && b != last && last.ts - 60 * 86400 <= b.ts <= last.ts - 53 * 86400
           && forall q | q in prior :: q.ts >= b.ts || q.ts < last.ts - 60 * 86400
  {
    FirstFrom(prior, prior[|prior| - 1].ts - 60 * 86400, b);
    hide OnOrAfter;
  }

  /** A regime is written exactly when 21 closes precede the listing and the two ends of its return
      exist, and it is measured between them. */
  lemma RegimeIff(m: Maths, bars: seq<Bar>, listingDay: int)
    requires PriceWindows.Sorted(bars)
    ensures var r := RegimeAt(m, bars, Some(listingDay));
      && (r.Some? <==> |Prior(bars, listingDay * 86400)| >= 21 && exists last, base :: Spans(bars, listingDay, last, base))
      && forall last, base | r.Some? && Spans(bars, listingDay, last, base) ::
           Measures(r.value.return60, base.close, last.close) && r.value.asOfDay == last.ts / 86400
  {
    var prior, r := Prior(bars, listingDay * 86400), RegimeAt(m, bars, Some(listingDay));
    RegimeForm(m, bars, listingDay);
    hide RegimeAt, Measures, Prior, BaseBar;
    if |prior| >= 21 {
      forall last, base ensures Spans(bars, listingDay, last, base) <==> EndsOf(prior, listingDay, last, base) {
        SpansIff(bars, listingDay, last, base);
      }
      hide Spans;
      if BaseBar(prior).Some? && listingDay * 86400 - 7 * 86400 <= prior[|prior| - 1].ts {
        assert EndsOf(prior, listingDay, prior[|prior| - 1], BaseBar(prior).value);
      }
    }
  }

  ghost predicate EndsOf(prior: seq<Bar>, listingDay: int, last: Bar, base: Bar)
    requires prior != []
  {
    last == prior[|prior| - 1] && listingDay * 86400 - 7 * 86400 <= last.ts && BaseBar(prior) == Some(base)
  }

  lemma RegimeForm(m: Maths, bars: seq<Bar>, listingDay: int)
    ensures var prior, r := Prior(bars, listingDay * 86400), RegimeAt(m, bars, Some(listingDay));
      && (r.Some? <==> |prior| >= 21 && listingDay * 86400 - 7 * 86400 <= prior[|prior| - 1].ts && BaseBar(prior).Some?)
      && (r.Some? ==> r.value.asOfDay == prior[|prior| - 1].ts / 86400
                      && Measures(r.value.return60, BaseBar(prior).value.close, prior[|prior| - 1].close))
  {
    hide Volatility, LogReturns, Pct, Prior, Measures;
    var prior := Prior(bars, listingDay * 86400);
    if |prior| >= 21 && BaseBar(prior).Some? {
      assert BaseBar(prior).value in prior;
      hide BaseBar;
      Percent(prior[|prior| - 1].close, BaseBar(prior).value.close);
    }
  }

  lemma SpansIff(bars: seq<Bar>, listingDay: int, last: Bar, base: Bar)
    requires PriceWindows.Sorted(bars) && Prior(bars, listingDay * 86400) != []
    ensures Spans(bars, listingDay, last, base) <==> EndsOf(Prior(bars, listingDay * 86400), listingDay, last, base)
  {
    var prior := Prior(bars, listingDay * 86400);
    PriorAscends(bars, listingDay * 86400);
    assert forall b :: b in prior <==> ClosedBefore(bars, listingDay, b);
    hide Spans, EndsOf, Prior, ClosedBefore, PriceWindows.Sorted;
    SpansOf(bars, listingDay, prior, last, base);
  }

  lemma SpansOf(bars: seq<Bar>, listingDay: int, prior: seq<Bar>, last: Bar, base: Bar)
    requires prior != [] && PriceWindows.Sorted(prior) && forall b :: b in prior <==> ClosedBefore(bars, listingDay, b)
    ensures Spans(bars, listingDay, last, base) <==> EndsOf(prior, listingDay, last, base)
  {
    hide ClosedBefore, BaseBar, PriceWindows.Sorted;
    LastOf(bars, listingDay, prior, last);
    if last == prior[|prior| - 1] {
      BaseIs(prior, base);
    }
  }

  lemma LastOf(bars: seq<Bar>, listingDay: int, prior: seq<Bar>, last: Bar)
    requires prior != [] && PriceWindows.Sorted(prior) && forall b :: b in prior <==> ClosedBefore(bars, listingDay, b)
    ensures ClosedBefore(bars, listingDay, last) && (forall q | ClosedBefore(bars, listingDay, q) :: q.ts <= last.ts)
      <==> last == prior[|prior| - 1]
  {
    hide ClosedBefore;
    var end := prior[|prior| - 1];
    assert end in prior;
    if ClosedBefore(bars, listingDay, last) && forall q | ClosedBefore(bars, listingDay, q) :: q.ts <= last.ts {
      var i :| 0 <= i < |prior| && prior[i] == last;
      assert end.ts <= last.ts;
    }
  }
}
