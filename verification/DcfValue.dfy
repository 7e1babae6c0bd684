/**
 What the projection of dcf.py is worth, in closed form: a business that grows for ever at one
 rate and margin, a projection of one year, and equity as enterprise value and net cash.
 */
module DcfValue {
  import opened Options
  import opened Reals
  import opened ReverseDcf

  // ------------------------------------------------------------- the path of margins

  /** The margins lie on a line: y of n years at the end margin, the rest at the start margin. */
  lemma MarginOnLine(a: Assumptions, y: nat)
    requires a.years > 0
    ensures Margin(a, y) * a.years as real == a.marginStart * (a.years as real - y as real) + a.marginEnd * y as real
  {
    var n := a.years as real;
    var t := y as real / n;
    assert t * n == y as real;
    Line(a.marginStart, a.marginEnd, t, n);
  }

  lemma Line(s: real, e: real, t: real, n: real)
    ensures (s + (e - s) * t) * n == s * (n - t * n) + e * (t * n)
  {
    assert (e - s) * t * n == e * (t * n) - s * (t * n);
  }

  /** What a unit of revenue yields at margin m, after depreciation, tax and capital expenditure. */
  function Yield(a: Assumptions, m: real): real {
    m * 0.82 * (1.0 - a.taxRate) - a.capexPct
  }

  lemma FlowIsYield(revenue0: real, a: Assumptions, y: nat, m: real)
    requires a.years > 0 && Margin(a, y) == m
    ensures YearFlow(revenue0, a, y) == Times(Revenue(revenue0, a.revenueCagr, y), Yield(a, m))
  {
    assert UnitFlow(a, m) == Yield(a, m);
    hide Revenue, Times, Margin, UnitFlow, Yield;
    CashFlowIsUnits(Revenue(revenue0, a.revenueCagr, y), m, a);
  }

  // ------------------------------------------------------------- growth for ever

  /** The value of a flow that starts next period, grows at k - 1 and is discounted at k + d - 1,
      does not depend on how many periods are counted out. */
  lemma OnePeriod(f: real, k: real, d: real, p: real)
    requires d != 0.0 && p != 0.0 && d + k != 0.0
    ensures Times(p, d + k) != 0.0
    ensures Over(Times(f, k), Times(p, d + k)) + Over(Over(Times(Times(f, k), k), d), Times(p, d + k))
      == Over(Over(Times(f, k), d), p)
  {
    TimesZero(p, d + k);
    var q, v := d + k, Over(Over(Times(f, k), d), p);
    assert v * p == f * k / d;
    assert v * p * d == f * k;
    assert v * d * p == f * k by {
      assert v * p * d == v * d * p;
    }
    PerPeriod(f * k, v * d, p, q);
    assert Over(Times(f, k), Times(p, q)) == v * d / q;
    NextPeriod(Times(f, k), k, d, v, p, q);
    assert Over(Over(Times(Times(f, k), k), d), Times(p, q)) == v * k / q;
    hide Over, Times;
    Together(v, d, k, q);
  }

  lemma PerPeriod(x: real, y: real, p: real, q: real)
    requires p != 0.0 && q != 0.0 && p * q != 0.0 && y * p == x
    ensures x / (p * q) == y / q
  {
    assert y / q * q == y;
    assert y / q * (p * q) == x;
    QuotientIs(x, p * q, y / q);
  }

  lemma NextPeriod(x: real, k: real, d: real, v: real, p: real, q: real)
    requires p != 0.0 && q != 0.0 && p * q != 0.0 && d != 0.0 && v * p * d == x
    ensures Over(Over(Times(x, k), d), Times(p, q)) == v * k / q
  {
    assert v * k * p * d == x * k by {
      assert v * p * d * k == v * k * p * d;
    }
    QuotientIs(x * k, d, v * k * p);
    PerPeriod(v * k * p, v * k, p, q);
    assert Over(Times(x, k), d) == v * k * p && Times(p, q) == p * q;
    OverIs(v * k * p, p * q, v * k / q);
  }

  lemma OverIs(x: real, n: real, r: real)
    requires n != 0.0 && x / n == r
    ensures Over(x, n) == r
  {
  }

  lemma Together(v: real, d: real, k: real, q: real)
    requires q != 0.0 && q == d + k
    ensures v * d / q + v * k / q == v
  {
    assert v * d + v * k == v * q;
    QuotientIs(v * q, q, v);
    assert v * d / q + v * k / q == (v * d + v * k) / q;
  }

  lemma QuotientIs(x: real, n: real, r: real)
    requires n != 0.0 && r * n == x
    ensures x / n == r
  {
  }

  lemma {:induction false} CountedOut(revenue0: real, a: Assumptions, m: real, n: nat)
    requires Usable(a) && a.wacc > a.terminalGrowth && a.revenueCagr == a.terminalGrowth
    requires forall y :: Margin(a, y) == m
    ensures PresentValue(revenue0, a, n)
        + Over(Over(Times(YearFlow(revenue0, a, n), 1.0 + a.terminalGrowth), a.wacc - a.terminalGrowth), Power(1.0 + a.wacc, n))
      == Over(Times(YearFlow(revenue0, a, 0), 1.0 + a.terminalGrowth), a.wacc - a.terminalGrowth)
  {
    var g, w := a.terminalGrowth, a.wacc;
    hide Times, Over, YearFlow, Margin;
    if n == 0 {
      OverOne(Over(Times(YearFlow(revenue0, a, 0), 1.0 + g), w - g));
    } else {
      CountedOut(revenue0, a, m, n - 1);
      NextFlow(revenue0, a, m, n - 1);
      OnePeriod(YearFlow(revenue0, a, n - 1), 1.0 + g, w - g, Power(1.0 + w, n - 1));
    }
  }

  lemma OverOne(x: real)
    ensures Power(1.0, 0) == 1.0 && Over(x, 1.0) == x
  {
  }

  lemma NextFlow(revenue0: real, a: Assumptions, m: real, y: nat)
    requires a.years > 0 && Margin(a, y) == m == Margin(a, y + 1)
    ensures YearFlow(revenue0, a, y + 1) == Times(YearFlow(revenue0, a, y), 1.0 + a.revenueCagr)
  {
    FlowIsYield(revenue0, a, y, m);
    FlowIsYield(revenue0, a, y + 1, m);
    var r, u, k := Revenue(revenue0, a.revenueCagr, y), Yield(a, m), 1.0 + a.revenueCagr;
    assert Revenue(revenue0, a.revenueCagr, y + 1) == Times(r, k);
    hide YearFlow, Revenue, Margin, Yield, Times;
    TimesFacts(r, r, k, u, 0.0);
    TimesFacts(k, r, u, k, 0.0);
    TimesFacts(k, 0.0, u, 0.0, 0.0);
  }

  /**
   A business whose revenue grows for ever at the terminal growth g, at one margin m, is worth its
   next year's flow over wacc - g, however many years are projected.
   */
  lemma Perpetuity(revenue0: real, a: Assumptions)
    requires Usable(a) && a.wacc > a.terminalGrowth
    requires a.marginStart == a.marginEnd && a.revenueCagr == a.terminalGrowth
    ensures Ev(revenue0, a) * (a.wacc - a.terminalGrowth)
      == revenue0 * (1.0 + a.terminalGrowth) * (a.marginStart * 0.82 * (1.0 - a.taxRate) - a.capexPct)
  {
    hide Ev, Yield;
    PerpetuityValue(revenue0, a);
    YieldIs(a, a.marginStart);
    NowWorth(revenue0, Yield(a, a.marginStart), 1.0 + a.terminalGrowth, a.wacc - a.terminalGrowth);
  }

  lemma YieldIs(a: Assumptions, m: real)
    ensures Yield(a, m) == m * 0.82 * (1.0 - a.taxRate) - a.capexPct
  {
  }

  lemma PerpetuityValue(revenue0: real, a: Assumptions)
    requires Usable(a) && a.wacc > a.terminalGrowth
    requires a.marginStart == a.marginEnd && a.revenueCagr == a.terminalGrowth
    ensures Ev(revenue0, a)
      == Over(Times(Times(revenue0, Yield(a, a.marginStart)), 1.0 + a.terminalGrowth), a.wacc - a.terminalGrowth)
  {
    var m := a.marginStart;
    forall y ensures Margin(a, y) == m {
      FlatMargin(a, y);
    }
    CountedOut(revenue0, a, m, a.years);
    FlowIsYield(revenue0, a, 0, m);
    assert Revenue(revenue0, a.revenueCagr, 0) == revenue0;
    hide PresentValue, YearFlow, Over, Times, Power, Revenue, Margin, Yield;
  }

  lemma FlatMargin(a: Assumptions, y: nat)
    requires a.years > 0 && a.marginStart == a.marginEnd
    ensures Margin(a, y) == a.marginStart
  {
    assert 0.0 * (y as real / a.years as real) == 0.0;
  }

  lemma NowWorth(r: real, u: real, k: real, d: real)
    requires d != 0.0
    ensures Over(Times(Times(r, u), k), d) * d == r * k * u
  {
    assert r * u * k == r * k * u;
    assert r * u * k / d * d == r * u * k;
  }

  // ------------------------------------------------------------- one year

  /** Projected for one year only, the value is that year's flow with its own perpetuity. */
  lemma OneYear(revenue0: real, a: Assumptions)
    requires Usable(a) && a.wacc > a.terminalGrowth && a.years == 1
    ensures Ev(revenue0, a) * (a.wacc - a.terminalGrowth)
      == revenue0 * (1.0 + a.revenueCagr) * (a.marginEnd * 0.82 * (1.0 - a.taxRate) - a.capexPct)
  {
    var f, d, q := YearFlow(revenue0, a, 1), a.wacc - a.terminalGrowth, 1.0 + a.wacc;
    assert Margin(a, 1) == a.marginEnd;
    FlowIsYield(revenue0, a, 1, a.marginEnd);
    assert Revenue(revenue0, a.revenueCagr, 1) == Times(revenue0, 1.0 + a.revenueCagr);
    assert Power(q, 1) == Times(1.0, q) == q;
    assert PresentValue(revenue0, a, 1) == Over(f, q);
    assert Ev(revenue0, a) == Over(f, q) + Over(Over(Times(f, 1.0 + a.terminalGrowth), d), q);
    hide Ev, PresentValue, YearFlow, Power, Margin, Revenue;
    YearWorth(f, 1.0 + a.terminalGrowth, d, q);
  }

  lemma YearWorth(f: real, k: real, d: real, q: real)
    requires d != 0.0 && q != 0.0 && q == d + k
    ensures (Over(f, q) + Over(Over(Times(f, k), d), q)) * d == f
  {
    var x, y := f / q, f * k / d / q;
    assert x * q == f;
    assert f * k / d * d == f * k;
    assert y * q == f * k / d;
    assert y * q * d == f * k;
    assert (x * d + y * d) * q == f * d + f * k;
    assert (x * d + y * d - f) * q == 0.0;
  }

  // ------------------------------------------------------------- what equity holders get

  function Or0(v: Option<real>): real {
    match v
    case Some(x) => x
    case None => 0.0
  }

  /** Enterprise value of the solver's projection at growth g, plus cash, less debt. */
  function EquityValue(ipo: Ipo, marginEnd: real, wacc: real, terminalGrowth: real, g: real): real
    requires Solvable(ipo, wacc, terminalGrowth)
  {
    Ev(ipo.revenue.value, Scenario(ipo, marginEnd, wacc, terminalGrowth, g)) + Or0(ipo.cash) - Or0(ipo.debt)
  }

  lemma EquityIs(ipo: Ipo, equity: real, marginEnd: real, wacc: real, terminalGrowth: real, g: real)
    requires Solvable(ipo, wacc, terminalGrowth)
    ensures Value(ipo, marginEnd, wacc, terminalGrowth, g) - (equity - NetCash(ipo))
      == EquityValue(ipo, marginEnd, wacc, terminalGrowth, g) - equity
  {
    hide Ev, Scenario;
  }

  /** The rate the solver reports for an equity value lies between one worth less and one worth at
      least as much to equity holders, 3.3 / 2^60 apart. */
  lemma AnswerEquity(ipo: Ipo, equity: real, marginEnd: real, wacc: real, terminalGrowth: real)
    requires Solvable(ipo, wacc, terminalGrowth)
    requires EquityValue(ipo, marginEnd, wacc, terminalGrowth, -0.3) < equity
          <= EquityValue(ipo, marginEnd, wacc, terminalGrowth, 3.0)
    ensures var r := ImpliedCagr(ipo, equity, marginEnd, wacc, terminalGrowth);
      exists lo, hi :: lo < r < hi && -0.3 <= lo && hi <= 3.0 && hi - lo == 3.3 / Pow2(60)
        && EquityValue(ipo, marginEnd, wacc, terminalGrowth, lo) < equity
        && equity <= EquityValue(ipo, marginEnd, wacc, terminalGrowth, hi)
  {
    hide Value, EquityValue, Pow2, FinalBracket, ImpliedCagr;
    EquityIs(ipo, equity, marginEnd, wacc, terminalGrowth, -0.3);
    EquityIs(ipo, equity, marginEnd, wacc, terminalGrowth, 3.0);
    BracketKept(ipo, equity, marginEnd, wacc, terminalGrowth);
    var (lo, hi) := FinalBracket(ipo, equity, marginEnd, wacc, terminalGrowth);
    EquityIs(ipo, equity, marginEnd, wacc, terminalGrowth, lo);
    EquityIs(ipo, equity, marginEnd, wacc, terminalGrowth, hi);
  }

  /** For the rate at which equity holders get exactly `equity`, on a paying path: the answer is
      within 3.3 / 2^61 of it if and only if it lies in [-0.3, 3.0]. */
  lemma AnswerForEquityIff(ipo: Ipo, equity: real, marginEnd: real, wacc: real, terminalGrowth: real, g: real)
    requires Solvable(ipo, wacc, terminalGrowth) && g > -1.0
    requires Paying(Scenario(ipo, marginEnd, wacc, terminalGrowth, 0.0))
    requires EquityValue(ipo, marginEnd, wacc, terminalGrowth, g) == equity
    ensures var r := ImpliedCagr(ipo, equity, marginEnd, wacc, terminalGrowth);
      r - 3.3 / Pow2(61) <= g <= r + 3.3 / Pow2(61) <==> -0.3 <= g <= 3.0
  {
    hide Value, EquityValue, Pow2, ImpliedCagr, Scenario, UnitFlow;
    EquityIs(ipo, equity, marginEnd, wacc, terminalGrowth, g);
    SolvesForGrowthIff(ipo, equity, marginEnd, wacc, terminalGrowth, g);
  }

  /** The solver's own projection of a business with margin m, held to the end, at the terminal
      growth: tax at 25%, capital expenditure at 6% of revenue. */
  lemma ScenarioPerpetuity(ipo: Ipo, m: real, wacc: real, g: real)
    requires Solvable(ipo, wacc, g) && ipo.ebitda == Some(m * ipo.revenue.value) && -0.5 <= m <= 0.6
    ensures Value(ipo, m, wacc, g, g) * (wacc - g) == ipo.revenue.value * (1.0 + g) * (m * 0.82 * 0.75 - 0.06)
  {
    var a := Scenario(ipo, m, wacc, g, g);
    assert BaseMargin(ipo) == Some(m) by {
      MarginIs(m, ipo.revenue.value);
    }
    assert a == Assumptions(g, m, m, wacc, g, 0.25, 0.06, 5);
    hide Ev;
    Perpetuity(ipo.revenue.value, a);
    assert m * 0.82 * (1.0 - 0.25) == m * 0.82 * 0.75;
  }

  lemma MarginIs(m: real, revenue: real)
    requires revenue != 0.0
    ensures m * revenue / revenue == m
  {
  }
}
