/**
 The cash-flow projection and the growth bisection of dcf.py, over exact reals.
 */
module ReverseDcf {
  import opened Options
  import opened Reals

  datatype Assumptions = Assumptions(
    revenueCagr: real,
    marginStart: real,
    marginEnd: real,
    wacc: real,
    terminalGrowth: real,
    taxRate: real,
    capexPct: real,
    years: nat)

  const EBIT_SHARE := 0.82
  const TAX_RATE := 0.25
  const CAPEX_PCT := 0.06
  const YEARS := 5
  const LOWEST_CAGR := -0.3
  const HIGHEST_CAGR := 3.0
  const BISECTIONS := 60

  /** What the source demands of its callers: a year to project and no division by zero. */
  predicate Usable(a: Assumptions) {
    a.years > 0 && a.wacc != -1.0
  }

  // --------------------------------------------------------------------- projection

  function Power(b: real, n: nat): (p: real)
    ensures b != 0.0 ==> p != 0.0
    ensures b > 0.0 ==> p > 0.0
  {
    if n == 0 then 1.0
    else
      TimesZero(Power(b, n - 1), b);
      TimesSigns(Power(b, n - 1), b);
      Times(Power(b, n - 1), b)
  }

  function Revenue(revenue0: real, growth: real, y: nat): real {
    if y == 0 then revenue0 else Times(Revenue(revenue0, growth, y - 1), 1.0 + growth)
  }

  /** The margin of year y, on the line from the start (year 0) to the end margin. */
  function Margin(a: Assumptions, y: nat): real
    requires a.years > 0
  {
    a.marginStart + (a.marginEnd - a.marginStart) * (y as real / a.years as real)
  }

  /** Free cash flow on a revenue: margin, depreciation drag, tax and capital expenditure. */
  function CashFlow(rev: real, margin: real, taxRate: real, capexPct: real): real {
    Times(rev, margin) * EBIT_SHARE * (1.0 - taxRate) - Times(rev, capexPct)
  }

  function YearFlow(revenue0: real, a: Assumptions, y: nat): real
    requires a.years > 0
  {
    CashFlow(Revenue(revenue0, a.revenueCagr, y), Margin(a, y), a.taxRate, a.capexPct)
  }

  function PresentValue(revenue0: real, a: Assumptions, y: nat): real
    requires Usable(a)
  {
    if y == 0 then 0.0
    else PresentValue(revenue0, a, y - 1) + Over(YearFlow(revenue0, a, y), Power(1.0 + a.wacc, y))
  }

  /** The discounted value of everything after the last projected flow. */
  function Terminal(flow: real, a: Assumptions): real
    requires Usable(a) && a.wacc > a.terminalGrowth
  {
    Over(Over(Times(flow, 1.0 + a.terminalGrowth), a.wacc - a.terminalGrowth), Power(1.0 + a.wacc, a.years))
  }

  /** The enterprise value: discounted flows and the discounted terminal value. */
  function Ev(revenue0: real, a: Assumptions): real
    requires Usable(a) && a.wacc > a.terminalGrowth
  {
    PresentValue(revenue0, a, a.years) + Terminal(YearFlow(revenue0, a, a.years), a)
  }

  /** dcf._project_equity_value */
  method ProjectEquityValue(revenue0: Option<real>, a: Assumptions) returns (ev: Option<real>)
    requires Usable(a)
    ensures ev.Some? <==> revenue0.Some? && revenue0.value > 0.0 && a.wacc > a.terminalGrowth
    ensures ev.Some? ==> ev.value == Ev(revenue0.value, a)
  {
    if revenue0.None? || revenue0.value <= 0.0 || a.wacc <= a.terminalGrowth {
      return None;
    }
    hide CashFlow, Margin, Over, Times;
    var fcfs: seq<real> := [];
    var rev := revenue0.value;
    for y := 1 to a.years + 1
      invariant rev == Revenue(revenue0.value, a.revenueCagr, y - 1)
      invariant |fcfs| == y - 1
      invariant forall i :: 0 <= i < |fcfs| ==> fcfs[i] == YearFlow(revenue0.value, a, i + 1)
    {
      rev := Times(rev, 1.0 + a.revenueCagr);
      fcfs := fcfs + [CashFlow(rev, Margin(a, y), a.taxRate, a.capexPct)];
    }
    var pv := 0.0;
    for i := 0 to |fcfs|
      invariant pv == PresentValue(revenue0.value, a, i)
    {
      pv := pv + Over(fcfs[i], Power(1.0 + a.wacc, i + 1));
    }
    var terminalFcf := Times(fcfs[|fcfs| - 1], 1.0 + a.terminalGrowth);
    var terminalValue := Over(terminalFcf, a.wacc - a.terminalGrowth);
    ev := Some(pv + Over(terminalValue, Power(1.0 + a.wacc, a.years)));
  }

  // ------------------------------------------------------------------- monotonicity

  /** What one unit of revenue yields at a margin. */
  function UnitFlow(a: Assumptions, margin: real): real {
    margin * EBIT_SHARE * (1.0 - a.taxRate) - a.capexPct
  }

  lemma CashFlowIsUnits(rev: real, margin: real, a: Assumptions)
    ensures CashFlow(rev, margin, a.taxRate, a.capexPct) == Times(rev, UnitFlow(a, margin))
  {
    var m := margin * EBIT_SHARE * (1.0 - a.taxRate);
    assert rev * margin * EBIT_SHARE * (1.0 - a.taxRate) == rev * m;
    assert rev * m - rev * a.capexPct == rev * (m - a.capexPct);
  }

  lemma {:induction false} RevenueGrows(revenue0: real, g: real, h: real, y: nat)
    requires revenue0 > 0.0 && -1.0 < g < h
    ensures 0.0 < Revenue(revenue0, g, y) <= Revenue(revenue0, h, y)
    ensures y > 0 ==> Revenue(revenue0, g, y) < Revenue(revenue0, h, y)
  {
    hide Times;
    if y > 0 {
      RevenueGrows(revenue0, g, h, y - 1);
      var r, s := Revenue(revenue0, g, y - 1), Revenue(revenue0, h, y - 1);
      TimesOrders(r, s, 1.0 + g);
      TimesFacts(s, 0.0, 1.0 + g, 0.0, 0.0);
      TimesFacts(s, 0.0, 1.0 + h, 0.0, 0.0);
      TimesOrders(1.0 + g, 1.0 + h, s);
      TimesSigns(r, 1.0 + g);
    }
  }

  /** Between two margins that pay, every margin of the path pays. */
  lemma PathPays(a: Assumptions, y: nat)
    requires a.years > 0 && y <= a.years
    requires UnitFlow(a, a.marginStart) > 0.0 && UnitFlow(a, a.marginEnd) > 0.0
    ensures UnitFlow(a, Margin(a, y)) > 0.0
  {
    var t := y as real / a.years as real;
    Fraction(y, a.years);
    UnitFlowOnPath(a, t);
    Blend(UnitFlow(a, a.marginStart), UnitFlow(a, a.marginEnd), t);
  }

  lemma PathLoses(a: Assumptions, y: nat)
    requires a.years > 0 && y <= a.years
    requires UnitFlow(a, a.marginStart) <= 0.0 && UnitFlow(a, a.marginEnd) <= 0.0
    ensures UnitFlow(a, Margin(a, y)) <= 0.0
  {
    var t := y as real / a.years as real;
    Fraction(y, a.years);
    UnitFlowOnPath(a, t);
    BlendLoses(UnitFlow(a, a.marginStart), UnitFlow(a, a.marginEnd), t);
  }

  lemma BlendLoses(u: real, v: real, t: real)
    requires u <= 0.0 && v <= 0.0 && 0.0 <= t <= 1.0
    ensures (1.0 - t) * u + t * v <= 0.0
  {
    assert (1.0 - t) * u <= 0.0;
    assert t * v <= 0.0;
  }

  lemma Fraction(y: nat, n: nat)
    requires n > 0 && y <= n
    ensures 0.0 <= y as real / n as real <= 1.0
  {
  }

  lemma UnitFlowOnPath(a: Assumptions, t: real)
    ensures UnitFlow(a, a.marginStart + (a.marginEnd - a.marginStart) * t)
         == (1.0 - t) * UnitFlow(a, a.marginStart) + t * UnitFlow(a, a.marginEnd)
  {
    var s, e, k := a.marginStart, a.marginEnd, EBIT_SHARE * (1.0 - a.taxRate);
    var m := s + (e - s) * t;
    assert m == (1.0 - t) * s + t * e;
    assert UnitFlow(a, m) == m * k - a.capexPct;
    assert m * k == (1.0 - t) * (s * k) + t * (e * k);
    assert UnitFlow(a, s) == s * k - a.capexPct && UnitFlow(a, e) == e * k - a.capexPct;
    assert (1.0 - t) * (s * k - a.capexPct) == (1.0 - t) * (s * k) - (1.0 - t) * a.capexPct;
    assert t * (e * k - a.capexPct) == t * (e * k) - t * a.capexPct;
  }

  lemma Blend(u: real, v: real, t: real)
    requires u > 0.0 && v > 0.0 && 0.0 <= t <= 1.0
    ensures (1.0 - t) * u + t * v > 0.0
  {
    if t == 0.0 {
    } else {
      assert t * v > 0.0;
      assert (1.0 - t) * u >= 0.0;
    }
  }

  /** Sane rates, and a cash margin that pays at both ends of the path. */
  ghost predicate Paying(a: Assumptions) {
    && a.years > 0 && a.wacc > a.terminalGrowth >= -1.0
    && UnitFlow(a, a.marginStart) > 0.0 && UnitFlow(a, a.marginEnd) > 0.0
  }

  lemma YearFlowGrows(revenue0: real, a: Assumptions, g: real, h: real, y: nat)
    requires Paying(a) && revenue0 > 0.0 && -1.0 < g < h && 0 < y <= a.years
    ensures YearFlow(revenue0, a.(revenueCagr := g), y) < YearFlow(revenue0, a.(revenueCagr := h), y)
  {
    hide Times, UnitFlow, CashFlow;
    var r, s, m := Revenue(revenue0, g, y), Revenue(revenue0, h, y), Margin(a, y);
    assert Margin(a.(revenueCagr := g), y) == m == Margin(a.(revenueCagr := h), y);
    hide Margin, Revenue;
    RevenueGrows(revenue0, g, h, y);
    PathPays(a, y);
    CashFlowIsUnits(r, m, a);
    CashFlowIsUnits(s, m, a);
    TimesOrders(r, s, UnitFlow(a, m));
  }

  lemma {:induction false} PresentValueGrows(revenue0: real, a: Assumptions, g: real, h: real, y: nat)
    requires Paying(a) && revenue0 > 0.0 && -1.0 < g < h && y <= a.years
    ensures var l, m := PresentValue(revenue0, a.(revenueCagr := g), y), PresentValue(revenue0, a.(revenueCagr := h), y);
      l <= m && (y > 0 ==> l < m)
  {
    hide YearFlow, UnitFlow, Power, Over;
    if y > 0 {
      PresentValueGrows(revenue0, a, g, h, y - 1);
      YearFlowGrows(revenue0, a, g, h, y);
      OverOrders(YearFlow(revenue0, a.(revenueCagr := g), y), YearFlow(revenue0, a.(revenueCagr := h), y),
                    Power(1.0 + a.wacc, y));
    }
  }

  lemma TerminalGrows(x: real, y: real, a: Assumptions)
    requires a.years > 0 && a.wacc > a.terminalGrowth >= -1.0
    ensures x <= y ==> Terminal(x, a) <= Terminal(y, a)
    ensures x <= 0.0 ==> Terminal(x, a) <= 0.0
  {
    hide Times, Over, Power;
    var k, d, p := 1.0 + a.terminalGrowth, a.wacc - a.terminalGrowth, Power(1.0 + a.wacc, a.years);
    TimesOrders(x, y, k);
    TimesOrders(x, 0.0, k);
    TimesZero(0.0, k);
    OverOrders(Times(x, k), Times(y, k), d);
    OverOrders(Times(x, k), 0.0, d);
    OverOrders(Over(Times(x, k), d), Over(Times(y, k), d), p);
    OverOrders(Over(Times(x, k), d), 0.0, p);
  }

  /** Faster growth is worth strictly more. */
  lemma EvIncreasing(revenue0: real, a: Assumptions, g: real, h: real)
    requires Paying(a) && revenue0 > 0.0 && -1.0 < g < h
    ensures Ev(revenue0, a.(revenueCagr := g)) < Ev(revenue0, a.(revenueCagr := h))
  {
    hide YearFlow, UnitFlow, Power, PresentValue, Terminal;
    PresentValueGrows(revenue0, a, g, h, a.years);
    YearFlowGrows(revenue0, a, g, h, a.years);
    var x, y := YearFlow(revenue0, a.(revenueCagr := g), a.years), YearFlow(revenue0, a.(revenueCagr := h), a.years);
    TerminalGrows(x, y, a);
    SameTerminal(x, a, g);
    SameTerminal(y, a, h);
  }

  lemma SameTerminal(x: real, a: Assumptions, g: real)
    requires Usable(a) && a.wacc > a.terminalGrowth
    ensures Terminal(x, a.(revenueCagr := g)) == Terminal(x, a)
  {
    hide Times, Over, Power;
  }

  // ---------------------------------------------------------------------- bisection

  function Pow2(n: nat): (p: real)
    ensures p >= 1.0
  {
    if n == 0 then 1.0 else 2.0 * Pow2(n - 1)
  }

  /** The bracket after k halvings: up where the value is still below the target, down elsewhere. */
  function Bisect(below: real -> bool, lo: real, hi: real, k: nat): (real, real)
    decreases k
  {
    if k == 0 then (lo, hi)
    else
      var mid := (lo + hi) / 2.0;
      if below(mid) then Bisect(below, mid, hi, k - 1) else Bisect(below, lo, mid, k - 1)
  }

  lemma {:induction false} BisectBracket(below: real -> bool, lo: real, hi: real, k: nat)
    requires lo < hi
    ensures var (l, h) := Bisect(below, lo, hi, k);
      && lo <= l < h <= hi && h - l == (hi - lo) / Pow2(k)
      && (below(lo) ==> below(l)) && (!below(hi) ==> !below(h))
    decreases k
  {
    if k > 0 {
      var mid := (lo + hi) / 2.0;
      if below(mid) {
        BisectBracket(below, mid, hi, k - 1);
      } else {
        BisectBracket(below, lo, mid, k - 1);
      }
      Halved(hi - lo, Pow2(k - 1));
    }
  }

  lemma Halved(w: real, p: real)
    requires p > 0.0
    ensures (w / 2.0) / p == w / (2.0 * p)
  {
  }

  /** A bisection that never (always) moves up ends at the lower (upper) end. */
  lemma {:induction false} BisectSaturates(below: real -> bool, lo: real, hi: real, k: nat)
    requires lo < hi
    ensures (forall x :: lo < x < hi ==> !below(x)) ==> Bisect(below, lo, hi, k).0 == lo
    ensures (forall x :: lo < x < hi ==> below(x)) ==> Bisect(below, lo, hi, k).1 == hi
    decreases k
  {
    if k > 0 {
      var mid := (lo + hi) / 2.0;
      if below(mid) {
        BisectSaturates(below, mid, hi, k - 1);
      } else {
        BisectSaturates(below, lo, mid, k - 1);
      }
    }
  }

  datatype Ipo = Ipo(revenue: Option<real>, ebitda: Option<real>, cash: Option<real>, debt: Option<real>)

  function OrZero(v: Option<real>): real {
    if v.Some? then v.value else 0.0
  }

  /** dcf._base_margin */
  function BaseMargin(ipo: Ipo): (m: Option<real>)
    ensures m.Some? ==> -0.5 <= m.value <= 0.6
  {
    if ipo.ebitda.Some? && OrZero(ipo.revenue) != 0.0 then
      var m := ipo.ebitda.value / ipo.revenue.value;
      Some(if m < -0.5 then -0.5 else if m > 0.6 then 0.6 else m)
    else None
  }

  /** The projection the solver varies; an absent or zero base margin falls back to the end margin. */
  function Scenario(ipo: Ipo, marginEnd: real, wacc: real, terminalGrowth: real, growth: real): (a: Assumptions)
    ensures a.years > 0 && a.revenueCagr == growth && a.wacc == wacc && a.terminalGrowth == terminalGrowth
  {
    var m := BaseMargin(ipo);
    Assumptions(growth, if OrZero(m) != 0.0 then m.value else marginEnd, marginEnd, wacc, terminalGrowth,
                TAX_RATE, CAPEX_PCT, YEARS)
  }

  function NetCash(ipo: Ipo): real {
    OrZero(ipo.cash) - OrZero(ipo.debt)
  }

  predicate Solvable(ipo: Ipo, wacc: real, terminalGrowth: real) {
    ipo.revenue.Some? && ipo.revenue.value > 0.0 && wacc > terminalGrowth && wacc != -1.0
  }

  function Value(ipo: Ipo, marginEnd: real, wacc: real, terminalGrowth: real, growth: real): real
    requires Solvable(ipo, wacc, terminalGrowth)
  {
    Ev(ipo.revenue.value, Scenario(ipo, marginEnd, wacc, terminalGrowth, growth))
  }

  function Below(ipo: Ipo, target: real, marginEnd: real, wacc: real, terminalGrowth: real): real -> bool
    requires Solvable(ipo, wacc, terminalGrowth)
  {
    g => Value(ipo, marginEnd, wacc, terminalGrowth, g) < target
  }

  function FinalBracket(ipo: Ipo, equity: real, marginEnd: real, wacc: real, terminalGrowth: real): (real, real)
    requires Solvable(ipo, wacc, terminalGrowth)
  {
    Bisect(Below(ipo, equity - NetCash(ipo), marginEnd, wacc, terminalGrowth), LOWEST_CAGR, HIGHEST_CAGR, BISECTIONS)
  }

  function ImpliedCagr(ipo: Ipo, equity: real, marginEnd: real, wacc: real, terminalGrowth: real): real
    requires Solvable(ipo, wacc, terminalGrowth)
  {
    var (lo, hi) := FinalBracket(ipo, equity, marginEnd, wacc, terminalGrowth);
    (lo + hi) / 2.0
  }

  /** dcf._solve_implied_cagr */
  method SolveImpliedCagr(ipo: Ipo, equity: real, marginEnd: real, wacc: real, terminalGrowth: real)
    returns (r: Option<real>)
    requires wacc != -1.0
    ensures r.Some? <==> Solvable(ipo, wacc, terminalGrowth)
    ensures r.Some? ==> r.value == ImpliedCagr(ipo, equity, marginEnd, wacc, terminalGrowth)
  {
    hide Ev, Scenario;
    if ipo.revenue.None? || ipo.revenue.value <= 0.0 {
      return None;
    }
    var lo, hi := LOWEST_CAGR, HIGHEST_CAGR;
    var target := equity - NetCash(ipo);
    for i := 0 to BISECTIONS
      invariant i > 0 ==> wacc > terminalGrowth
      invariant wacc > terminalGrowth ==>
        Bisect(Below(ipo, target, marginEnd, wacc, terminalGrowth), lo, hi, BISECTIONS - i)
        == FinalBracket(ipo, equity, marginEnd, wacc, terminalGrowth)
    {
      var mid := (lo + hi) / 2.0;
      var ev := ProjectEquityValue(ipo.revenue, Scenario(ipo, marginEnd, wacc, terminalGrowth, mid));
      if ev.None? {
        return None;
      }
      if ev.value < target {
        lo := mid;
      } else {
        hi := mid;
      }
    }
    r := Some((lo + hi) / 2.0);
  }

  // -------------------------------------------------------------------- the solver's answer

  lemma BracketWidth(w: real)
    requires w == (HIGHEST_CAGR - LOWEST_CAGR) / Pow2(BISECTIONS)
    ensures w / 2.0 == 3.3 / Pow2(BISECTIONS + 1)
  {
    Halved(3.3, Pow2(BISECTIONS));
    var p := Pow2(BISECTIONS);
    assert Pow2(BISECTIONS + 1) == 2.0 * p;
    assert 3.3 / p / 2.0 == 3.3 / (2.0 * p);
  }

  /** The loop keeps the target inside a bracket that ends 3.3 / 2^60 wide, on any margin path. */
  lemma BracketKept(ipo: Ipo, equity: real, marginEnd: real, wacc: real, terminalGrowth: real)
    requires Solvable(ipo, wacc, terminalGrowth)
    requires Value(ipo, marginEnd, wacc, terminalGrowth, LOWEST_CAGR) < equity - NetCash(ipo)
          <= Value(ipo, marginEnd, wacc, terminalGrowth, HIGHEST_CAGR)
    ensures var (lo, hi) := FinalBracket(ipo, equity, marginEnd, wacc, terminalGrowth);
      && Value(ipo, marginEnd, wacc, terminalGrowth, lo) < equity - NetCash(ipo)
           <= Value(ipo, marginEnd, wacc, terminalGrowth, hi)
      && LOWEST_CAGR <= lo < hi <= HIGHEST_CAGR && hi - lo == 3.3 / Pow2(60)
      && lo < ImpliedCagr(ipo, equity, marginEnd, wacc, terminalGrowth) < hi
  {
    hide Ev, Scenario, Pow2, Bisect;
    BisectBracket(Below(ipo, equity - NetCash(ipo), marginEnd, wacc, terminalGrowth), LOWEST_CAGR, HIGHEST_CAGR, BISECTIONS);
  }

  /** On a paying path every rate 3.3 / 2^61 below the answer is worth less than the target, and
      every rate as far above it is worth at least the target. */
  lemma AnswerSeparates(ipo: Ipo, equity: real, marginEnd: real, wacc: real, terminalGrowth: real, g: real)
    requires Solvable(ipo, wacc, terminalGrowth)
    requires Paying(Scenario(ipo, marginEnd, wacc, terminalGrowth, 0.0)) && g > -1.0
    requires Value(ipo, marginEnd, wacc, terminalGrowth, LOWEST_CAGR) < equity - NetCash(ipo)
          <= Value(ipo, marginEnd, wacc, terminalGrowth, HIGHEST_CAGR)
    ensures var r := ImpliedCagr(ipo, equity, marginEnd, wacc, terminalGrowth);
      && (g <= r - 3.3 / Pow2(61) ==> Value(ipo, marginEnd, wacc, terminalGrowth, g) < equity - NetCash(ipo))
      && (g >= r + 3.3 / Pow2(61) ==> Value(ipo, marginEnd, wacc, terminalGrowth, g) >= equity - NetCash(ipo))
  {
    hide Ev, Scenario, Pow2, Bisect, UnitFlow, Value;
    BracketKept(ipo, equity, marginEnd, wacc, terminalGrowth);
    var (lo, hi) := FinalBracket(ipo, equity, marginEnd, wacc, terminalGrowth);
    BracketWidth(hi - lo);
    ValueOrders(ipo, marginEnd, wacc, terminalGrowth, lo, g);
    ValueOrders(ipo, marginEnd, wacc, terminalGrowth, g, hi);
    ValueOrders(ipo, marginEnd, wacc, terminalGrowth, g, lo);
    ValueOrders(ipo, marginEnd, wacc, terminalGrowth, hi, g);
  }

  /** Values are ordered as the growth rates are. */
  lemma ValueOrders(ipo: Ipo, marginEnd: real, wacc: real, terminalGrowth: real, g: real, h: real)
    requires Solvable(ipo, wacc, terminalGrowth) && g > -1.0 && h > -1.0
    requires Paying(Scenario(ipo, marginEnd, wacc, terminalGrowth, 0.0))
    ensures Value(ipo, marginEnd, wacc, terminalGrowth, g) < Value(ipo, marginEnd, wacc, terminalGrowth, h) <==> g < h
  {
    hide Ev, UnitFlow;
    var a := Scenario(ipo, marginEnd, wacc, terminalGrowth, 0.0);
    assert Scenario(ipo, marginEnd, wacc, terminalGrowth, g) == a.(revenueCagr := g);
    assert Scenario(ipo, marginEnd, wacc, terminalGrowth, h) == a.(revenueCagr := h);
    if g < h {
      EvIncreasing(ipo.revenue.value, a, g, h);
    } else if h < g {
      EvIncreasing(ipo.revenue.value, a, h, g);
    }
  }

  /** Outside the bracket the answer does not fail: it is half a bracket from the nearer end. */
  lemma SaturatesOutside(ipo: Ipo, equity: real, marginEnd: real, wacc: real, terminalGrowth: real)
    requires Solvable(ipo, wacc, terminalGrowth)
    requires Paying(Scenario(ipo, marginEnd, wacc, terminalGrowth, 0.0))
    ensures equity - NetCash(ipo) <= Value(ipo, marginEnd, wacc, terminalGrowth, LOWEST_CAGR)
      ==> ImpliedCagr(ipo, equity, marginEnd, wacc, terminalGrowth) == LOWEST_CAGR + 3.3 / Pow2(61)
    ensures equity - NetCash(ipo) > Value(ipo, marginEnd, wacc, terminalGrowth, HIGHEST_CAGR)
      ==> ImpliedCagr(ipo, equity, marginEnd, wacc, terminalGrowth) == HIGHEST_CAGR - 3.3 / Pow2(61)
  {
    hide Ev, Scenario, Pow2, Bisect, UnitFlow;
    var target := equity - NetCash(ipo);
    var below := Below(ipo, target, marginEnd, wacc, terminalGrowth);
    BisectBracket(below, LOWEST_CAGR, HIGHEST_CAGR, BISECTIONS);
    BisectSaturates(below, LOWEST_CAGR, HIGHEST_CAGR, BISECTIONS);
    var (lo, hi) := FinalBracket(ipo, equity, marginEnd, wacc, terminalGrowth);
    BracketWidth(hi - lo);
    if target <= Value(ipo, marginEnd, wacc, terminalGrowth, LOWEST_CAGR) {
      forall x | LOWEST_CAGR < x < HIGHEST_CAGR ensures !below(x) {
        ValueOrders(ipo, marginEnd, wacc, terminalGrowth, LOWEST_CAGR, x);
      }
    }
    if target > Value(ipo, marginEnd, wacc, terminalGrowth, HIGHEST_CAGR) {
      forall x | LOWEST_CAGR < x < HIGHEST_CAGR ensures below(x) {
        ValueOrders(ipo, marginEnd, wacc, terminalGrowth, x, HIGHEST_CAGR);
      }
    }
  }

  lemma InsideBracket(ipo: Ipo, equity: real, marginEnd: real, wacc: real, terminalGrowth: real, g: real)
    requires Solvable(ipo, wacc, terminalGrowth)
    requires Paying(Scenario(ipo, marginEnd, wacc, terminalGrowth, 0.0)) && LOWEST_CAGR < g <= HIGHEST_CAGR
    requires Value(ipo, marginEnd, wacc, terminalGrowth, g) == equity - NetCash(ipo)
    ensures var r := ImpliedCagr(ipo, equity, marginEnd, wacc, terminalGrowth);
      r - 3.3 / Pow2(61) <= g <= r + 3.3 / Pow2(61)
  {
    hide Ev, Scenario, Pow2, Bisect, UnitFlow, Value, ImpliedCagr;
    ValueOrders(ipo, marginEnd, wacc, terminalGrowth, LOWEST_CAGR, g);
    ValueOrders(ipo, marginEnd, wacc, terminalGrowth, HIGHEST_CAGR, g);
    var (lo, hi) := FinalBracket(ipo, equity, marginEnd, wacc, terminalGrowth);
    assert ImpliedCagr(ipo, equity, marginEnd, wacc, terminalGrowth) == (lo + hi) / 2.0 by {
      AnswerIsMiddle(ipo, equity, marginEnd, wacc, terminalGrowth);
    }
    BracketKept(ipo, equity, marginEnd, wacc, terminalGrowth);
    BracketWidth(hi - lo);
    ValueOrders(ipo, marginEnd, wacc, terminalGrowth, lo, g);
    ValueOrders(ipo, marginEnd, wacc, terminalGrowth, hi, g);
  }

  lemma AnswerIsMiddle(ipo: Ipo, equity: real, marginEnd: real, wacc: real, terminalGrowth: real)
    requires Solvable(ipo, wacc, terminalGrowth)
    ensures var (lo, hi) := FinalBracket(ipo, equity, marginEnd, wacc, terminalGrowth);
      ImpliedCagr(ipo, equity, marginEnd, wacc, terminalGrowth) == (lo + hi) / 2.0
  {
  }

  /**
   On a paying path, for the rate that is worth the target: the answer is within 3.3 / 2^61 of it
   if and only if it lies in the bracket, ends included; and no other rate is worth the target.
   */
  lemma SolvesForGrowthIff(ipo: Ipo, equity: real, marginEnd: real, wacc: real, terminalGrowth: real, g: real)
    requires Solvable(ipo, wacc, terminalGrowth) && g > -1.0
    requires Paying(Scenario(ipo, marginEnd, wacc, terminalGrowth, 0.0))
    requires Value(ipo, marginEnd, wacc, terminalGrowth, g) == equity - NetCash(ipo)
    ensures var r := ImpliedCagr(ipo, equity, marginEnd, wacc, terminalGrowth);
      r - 3.3 / Pow2(61) <= g <= r + 3.3 / Pow2(61) <==> LOWEST_CAGR <= g <= HIGHEST_CAGR
    ensures forall q | q > -1.0 && Value(ipo, marginEnd, wacc, terminalGrowth, q) == equity - NetCash(ipo) :: q == g
  {
    hide Ev, Scenario, Pow2, Bisect, UnitFlow, Value, ImpliedCagr;
    if LOWEST_CAGR < g <= HIGHEST_CAGR {
      InsideBracket(ipo, equity, marginEnd, wacc, terminalGrowth, g);
    } else {
      ValueOrders(ipo, marginEnd, wacc, terminalGrowth, LOWEST_CAGR, g);
      ValueOrders(ipo, marginEnd, wacc, terminalGrowth, HIGHEST_CAGR, g);
      SaturatesOutside(ipo, equity, marginEnd, wacc, terminalGrowth);
      PowPositive(61);
    }
    forall q | q > -1.0 && Value(ipo, marginEnd, wacc, terminalGrowth, q) == equity - NetCash(ipo) ensures q == g {
      ValueOrders(ipo, marginEnd, wacc, terminalGrowth, q, g);
      ValueOrders(ipo, marginEnd, wacc, terminalGrowth, g, q);
    }
  }

  lemma PowPositive(n: nat)
    ensures 3.3 / Pow2(n) > 0.0
  {
    hide Pow2;
  }

  lemma {:induction false} LossValue(revenue0: real, a: Assumptions, y: nat)
    requires a.years > 0 && a.wacc > -1.0 && revenue0 > 0.0 && a.revenueCagr > -1.0 && y <= a.years
    requires UnitFlow(a, a.marginStart) <= 0.0 && UnitFlow(a, a.marginEnd) <= 0.0
    ensures YearFlow(revenue0, a, y) <= 0.0 && PresentValue(revenue0, a, y) <= 0.0
  {
    hide Times, Over, CashFlow, Margin, Power, UnitFlow;
    var r := Revenue(revenue0, a.revenueCagr, y);
    RevenueGrows(revenue0, a.revenueCagr, a.revenueCagr + 1.0, y);
    PathLoses(a, y);
    CashFlowIsUnits(r, Margin(a, y), a);
    var u := UnitFlow(a, Margin(a, y));
    TimesFacts(r, 0.0, u, 0.0, 0.0);
    TimesOrders(u, 0.0, r);
    TimesZero(0.0, r);
    if y > 0 {
      LossValue(revenue0, a, y - 1);
      OverOrders(YearFlow(revenue0, a, y), 0.0, Power(1.0 + a.wacc, y));
    }
  }

  /**
   A margin path that never pays cannot justify any positive price, yet the solver answers:
   it reports the highest growth it considers, whatever the price is.
   */
  lemma LossMakerGetsHighestGrowth(ipo: Ipo, equity: real, marginEnd: real, wacc: real, terminalGrowth: real)
    requires Solvable(ipo, wacc, terminalGrowth) && terminalGrowth >= -1.0
    requires var a := Scenario(ipo, marginEnd, wacc, terminalGrowth, 0.0);
      UnitFlow(a, a.marginStart) <= 0.0 && UnitFlow(a, a.marginEnd) <= 0.0
    requires equity - NetCash(ipo) > 0.0
    ensures ImpliedCagr(ipo, equity, marginEnd, wacc, terminalGrowth) == HIGHEST_CAGR - 3.3 / Pow2(61)
  {
    hide Pow2, Bisect, UnitFlow, YearFlow, PresentValue, Power, Terminal;
    var below := Below(ipo, equity - NetCash(ipo), marginEnd, wacc, terminalGrowth);
    BisectBracket(below, LOWEST_CAGR, HIGHEST_CAGR, BISECTIONS);
    BisectSaturates(below, LOWEST_CAGR, HIGHEST_CAGR, BISECTIONS);
    var (lo, hi) := FinalBracket(ipo, equity, marginEnd, wacc, terminalGrowth);
    BracketWidth(hi - lo);
    forall x | LOWEST_CAGR < x < HIGHEST_CAGR ensures below(x) {
      var a := Scenario(ipo, marginEnd, wacc, terminalGrowth, x);
      SameUnits(Scenario(ipo, marginEnd, wacc, terminalGrowth, 0.0), x);
      LossValue(ipo.revenue.value, a, a.years);
      TerminalGrows(YearFlow(ipo.revenue.value, a, a.years), 0.0, a);
    }
  }

  lemma SameUnits(a: Assumptions, g: real)
    ensures forall m :: UnitFlow(a.(revenueCagr := g), m) == UnitFlow(a, m)
  {
  }
}
