/**
 What number each return of a report is, multiplied out: the base price times one plus the return
 is the close the window is read from.
 */
module ReportedReturns {
  import opened Options
  import opened Reals
  import opened PriceWindows

  // ------------------------------------------------------------- the base price

  function Later(splits: seq<Split>, t: int): seq<Split> {
    if splits == [] then [] else (if splits[0].ts > t then [splits[0]] else []) + Later(splits[1..], t)
  }

  function Product(splits: seq<Split>): real {
    if splits == [] then 1.0 else splits[0].factor * Product(splits[1..])
  }

  function Part(s: Split, t: int): real {
    if s.ts > t then s.factor else 1.0
  }

  lemma FactorNext(splits: seq<Split>, t: int)
    requires splits != []
    ensures var n := |splits| - 1;
      FactorAfter(splits, t) == Times(FactorAfter(splits[..n], t), Part(splits[n], t))
  {
    hide Times;
    ByOne(FactorAfter(splits[..|splits| - 1], t));
  }

  lemma ByOne(x: real)
    ensures Times(x, 1.0) == x == Times(1.0, x)
  {
  }

  lemma {:induction false} FactorCons(s: Split, splits: seq<Split>, t: int)
    ensures FactorAfter([s] + splits, t) == Times(Part(s, t), FactorAfter(splits, t))
  {
    hide Times, FactorAfter, Part;
    FactorNext([s] + splits, t);
    if splits == [] {
      assert [s] + splits == [s] && [s][..0] == [];
      NoFactor(t);
      ByOne(Part(s, t));
    } else {
      var n := |splits| - 1;
      assert ([s] + splits)[..n + 1] == [s] + splits[..n];
      FactorCons(s, splits[..n], t);
      FactorNext(splits, t);
      TimesFacts(0.0, Part(s, t), FactorAfter(splits[..n], t), Part(splits[n], t), 0.0);
    }
  }

  /** The split factor of a session is the product of the factors of the splits after it. */
  lemma {:induction false} FactorIsProduct(splits: seq<Split>, t: int)
    ensures FactorAfter(splits, t) == Product(Later(splits, t))
  {
    hide FactorAfter, Times;
    if splits == [] {
      NoFactor(t);
    } else {
      var rest := Later(splits[1..], t);
      assert splits == [splits[0]] + splits[1..];
      FactorCons(splits[0], splits[1..], t);
      FactorIsProduct(splits[1..], t);
      if splits[0].ts > t {
        assert Later(splits, t) == [splits[0]] + rest && Later(splits, t)[1..] == rest;
        hide Later, Product;
        ProductHead(splits[0], rest);
      } else {
        assert Later(splits, t) == rest;
        ByOne(Product(rest));
      }
    }
  }

  lemma ProductHead(s: Split, rest: seq<Split>)
    ensures Product([s] + rest) == Times(s.factor, Product(rest))
  {
    assert ([s] + rest)[1..] == rest;
  }

  lemma NoFactor(t: int)
    ensures FactorAfter([], t) == 1.0
  {
  }

  /** The issue price in the shares of the session; zero when there is none. */
  function IssueIn(issue: Option<real>, splits: seq<Split>, sessionTs: int): real {
    if issue.None? then 0.0 else issue.value * Product(Later(splits, sessionTs))
  }

  lemma AdjustedIs(issue: Option<real>, splits: seq<Split>, t: int)
    ensures var p := IssueIn(issue, splits, t);
      Truthy(Adjusted(issue, t, splits)) == if p == 0.0 then None else Some(p)
  {
    FactorIsProduct(splits, t);
    var f := Product(Later(splits, t));
    hide FactorAfter, Product, Later;
    if issue.Some? {
      Scaled(issue.value, f);
    }
  }

  lemma Scaled(p: real, f: real)
    ensures Times(p, f) == p * f && (p == 0.0 ==> p * f == 0.0)
  {
  }

  // ------------------------------------------------------------- percentages

  /** From base, v percent on is close. */
  ghost predicate Measures(v: real, base: real, close: real) {
    base * (100.0 + v) == 100.0 * close
  }

  lemma Percent(v: real, base: real)
    requires base != 0.0
    ensures Measures(Pct(v, base), base, v)
    ensures base > 0.0 ==> (Pct(v, base) > 2000.0 <==> v > 21.0 * base) && (-Pct(v, base) > 2000.0 <==> v < -19.0 * base)
  {
    var q := v / base;
    assert q * base == v;
    assert Pct(v, base) == (q - 1.0) * 100.0;
    assert base * (100.0 + (q - 1.0) * 100.0) == 100.0 * (q * base);
    if base > 0.0 {
      Compare(q, 21.0, base);
      Compare(q, -19.0, base);
    }
  }

  lemma Compare(q: real, k: real, base: real)
    requires base > 0.0
    ensures q > k <==> q * base > k * base
    ensures q < k <==> q * base < k * base
  {
    if q > k {
      assert (q - k) * base > 0.0;
    } else if q < k {
      assert (k - q) * base > 0.0;
    }
  }

  // ------------------------------------------------------------- the report

  /** The price the returns are measured from: the issue price, or the session's close when there
      is none or the listing return is suppressed. */
  function BasePrice(r: Report, issue: Option<real>, splits: seq<Split>, close: real): real {
    var p := IssueIn(issue, splits, r.sessionTs);
    if p != 0.0 && !r.suppressed then p else close
  }

  /** The report's numbers as percentages of the prices they are measured from. */
  lemma ReportShape(s: Reads, issue: Option<real>, splits: seq<Split>)
    requires ReportOn(s, issue, splits).Some?
    ensures var r, c, o := ReportOn(s, issue, splits).value, s.session.close, s.session.open;
      var p := IssueIn(issue, splits, s.session.ts);
      var base := BasePrice(r, issue, splits, c);
      && r.sessionTs == s.session.ts && r.latestClose == s.latest.close && r.latestTs == s.latest.ts && base != 0.0
      && (r.suppressed <==> p != 0.0 && c != 0.0 && (Pct(c, p) > 2000.0 || -Pct(c, p) > 2000.0))
      && r.listingReturn == (if p != 0.0 && c != 0.0 && !r.suppressed then Some(Pct(c, p)) else None)
      && r.listingOpenReturn
           == (if p != 0.0 && !r.suppressed && o.Some? && o.value != 0.0 then Some(Pct(o.value, p)) else None)
      && r.listingDayReturn == (if c != 0.0 && o.Some? && o.value != 0.0 then Some(Pct(c, o.value)) else None)
      && r.sinceListing == (if s.latest.close != 0.0 then Some(Pct(s.latest.close, base)) else None)
      && r.windows.Keys == s.windows.Keys && forall w | w in s.windows :: r.windows[w] == Pct(s.windows[w].close, base)
  {
    hide Adjusted, Pct, IssueIn;
    AdjustedIs(issue, splits, s.session.ts);
  }

  /** The returns of the session itself. */
  lemma SessionReturns(s: Reads, issue: Option<real>, splits: seq<Split>)
    requires ReportOn(s, issue, splits).Some?
    ensures var r, c, o := ReportOn(s, issue, splits).value, s.session.close, s.session.open;
      var p := IssueIn(issue, splits, s.session.ts);
      && (p == 0.0 ==> !r.suppressed)
      && (p > 0.0 ==> (r.suppressed <==> c != 0.0 && (c > 21.0 * p || c < -19.0 * p)))
      && (r.listingReturn.Some? <==> p != 0.0 && c != 0.0 && !r.suppressed)
      && (r.listingReturn.Some? ==> Measures(r.listingReturn.value, p, c))
      && (r.listingOpenReturn.Some? <==> p != 0.0 && !r.suppressed && o.Some? && o.value != 0.0)
      && (r.listingOpenReturn.Some? ==> Measures(r.listingOpenReturn.value, p, o.value))
      && (r.listingDayReturn.Some? <==> c != 0.0 && o.Some? && o.value != 0.0)
      && (r.listingDayReturn.Some? ==> Measures(r.listingDayReturn.value, o.value, c))
  {
    ReportShape(s, issue, splits);
    hide ReportOn, Pct, IssueIn, BasePrice, Measures;
    var c, o, p := s.session.close, s.session.open, IssueIn(issue, splits, s.session.ts);
    if p != 0.0 {
      Percent(c, p);
      if o.Some? {
        Percent(o.value, p);
      }
    }
    if o.Some? && o.value != 0.0 {
      Percent(c, o.value);
    }
  }

  /** The returns over windows and since listing. */
  lemma LaterReturns(s: Reads, issue: Option<real>, splits: seq<Split>)
    requires ReportOn(s, issue, splits).Some?
    ensures var r := ReportOn(s, issue, splits).value;
      var base := BasePrice(r, issue, splits, s.session.close);
      && (r.sinceListing.Some? <==> s.latest.close != 0.0)
      && (r.sinceListing.Some? ==> Measures(r.sinceListing.value, base, s.latest.close))
      && r.windows.Keys == s.windows.Keys
      && forall w | w in s.windows :: Measures(r.windows[w], base, s.windows[w].close)
  {
    ReportShape(s, issue, splits);
    hide ReportOn, Pct, IssueIn, BasePrice, Measures;
    var r := ReportOn(s, issue, splits).value;
    var base := BasePrice(r, issue, splits, s.session.close);
    Percent(s.latest.close, base);
    forall w | w in s.windows ensures Measures(r.windows[w], base, s.windows[w].close) {
      Percent(s.windows[w].close, base);
    }
  }

  /**
   Every window return of a report, and no other, is measured from the base price to the close of
   the window's governing bar: the newest in (session, session + days], once the series is that long.
   */
  lemma WindowReturnsMeasure(bars: seq<Bar>, listing: int, issue: Option<real>, splits: seq<Split>)
    requires Sorted(bars) && Returns(bars, listing, issue, splits).Some?
    ensures var r := Returns(bars, listing, issue, splits).value;
      bars != [] && ListingBar(bars, listing).Some? && (
        var session := ListingBar(bars, listing).value;
        && r.sessionTs == session.ts
        && (forall w :: w in r.windows <==> w in WINDOWS && exists b :: Governs(bars, session.ts, w, b))
        && forall w, b | w in r.windows && Governs(bars, session.ts, w, b) ::
             Measures(r.windows[w], BasePrice(r, issue, splits, session.close), b.close))
  {
    var s := ReadsOf(bars, listing).value;
    LaterReturns(s, issue, splits);
    ReportShape(s, issue, splits);
    hide ReportOn, Measures, BasePrice, ListingBar, WindowBar, Governs;
    var r := Returns(bars, listing, issue, splits).value;
    forall w ensures w in r.windows <==> w in WINDOWS && exists b :: Governs(bars, s.session.ts, w, b) {
      GovernedIff(bars, s.session.ts, w);
    }
    forall w, b | w in r.windows && Governs(bars, s.session.ts, w, b)
      ensures Measures(r.windows[w], BasePrice(r, issue, splits, s.session.close), b.close)
    {
      WindowExact(bars, s.session.ts, w, b);
    }
  }

  lemma GovernedIff(bars: seq<Bar>, sessionTs: int, w: Window)
    requires Sorted(bars) && bars != []
    ensures WindowBar(bars, sessionTs, w).Some? <==> exists b :: Governs(bars, sessionTs, w, b)
  {
    hide WindowBar, Governs;
    if WindowBar(bars, sessionTs, w).Some? {
      WindowExact(bars, sessionTs, w, WindowBar(bars, sessionTs, w).value);
    }
    if b :| Governs(bars, sessionTs, w, b) {
      WindowExact(bars, sessionTs, w, b);
    }
  }

  /** The listing, opening, day and since-listing returns of a report, likewise. */
  lemma ListingReturnsMeasure(bars: seq<Bar>, listing: int, issue: Option<real>, splits: seq<Split>)
    requires Returns(bars, listing, issue, splits).Some?
    ensures var r := Returns(bars, listing, issue, splits).value;
      bars != [] && ListingBar(bars, listing).Some? && (
        var session, latest := ListingBar(bars, listing).value, bars[|bars| - 1];
        var p, c, o := IssueIn(issue, splits, session.ts), session.close, session.open;
        && (p > 0.0 ==> (r.suppressed <==> c != 0.0 && (c > 21.0 * p || c < -19.0 * p)))
        && (r.listingReturn.Some? <==> p != 0.0 && c != 0.0 && !r.suppressed)
        && (r.listingReturn.Some? ==> Measures(r.listingReturn.value, p, c))
        && (r.listingOpenReturn.Some? ==> o.Some? && Measures(r.listingOpenReturn.value, p, o.value))
        && (r.listingDayReturn.Some? ==> o.Some? && Measures(r.listingDayReturn.value, o.value, c))
        && (r.sinceListing.Some? <==> latest.close != 0.0)
        && (r.sinceListing.Some? ==> Measures(r.sinceListing.value, BasePrice(r, issue, splits, c), latest.close)))
  {
    var s := ReadsOf(bars, listing).value;
    SessionReturns(s, issue, splits);
    LaterReturns(s, issue, splits);
    hide ReportOn, Measures, BasePrice, ListingBar, WindowBars, IssueIn;
  }

  // ------------------------------------------------------------- the listing session

  /** The first bar lies from four days before the listing to 14 days after it. */
  ghost predicate StartsNear(bars: seq<Bar>, listing: int)
    requires bars != []
  {
    listing - 4 * 86400 <= bars[0].ts <= listing + 14 * 86400
  }

  /** The listing session is the first bar when the series starts near the listing; otherwise it is the
      first bar on or after the listing, if that is within 14 days. */
  lemma SessionIs(bars: seq<Bar>, listing: int, b: Bar)
    requires bars != [] && Sorted(bars)
    ensures ListingBar(bars, listing) == Some(b)
      <==> b in bars && (if StartsNear(bars, listing) then b == bars[0]
                         else listing <= b.ts <= listing + 14 * 86400 && forall q | q in bars :: q.ts >= b.ts || q.ts < listing)
  {
    if !StartsNear(bars, listing) {
      FirstFrom(bars, listing, b);
    }
  }

  lemma {:induction false} FirstFrom(bars: seq<Bar>, t: int, b: Bar)
    requires Sorted(bars)
    ensures OnOrAfter(bars, t) == Some(b) <==> b in bars && t <= b.ts && forall q | q in bars :: q.ts >= b.ts || q.ts < t
  {
    if bars != [] {
      assert bars == [bars[0]] + bars[1..];
      if bars[0].ts >= t {
        forall q | q in bars ensures q == bars[0] || q.ts > bars[0].ts {
        }
      } else {
        FirstFrom(bars[1..], t, b);
      }
    }
  }
}
