/**
 Point-in-time features of model_eval.py: which observations a prediction dated
 `asOf` may read. Dates are day numbers; an empty date string is None.
 */
module PointInTime {
  import opened Options

  datatype Rule =
    | ProspectusFiling | NseLiveFeed | MarketIndexClose
    | XbrlPostIpoComparative | FirstPeriodicReport
    | OtherRule(name: string)

  datatype Dataset = Production | ResearchPostIpoComparatives

  datatype Observation = Observation(
    value: Option<real>,
    rule: Rule,
    periodEnd: Option<int>,
    availableAt: Option<int>)

  predicate PointInTimeRule(r: Rule) {
    r == ProspectusFiling || r == NseLiveFeed || r == MarketIndexClose
  }

  predicate ResearchOnlyRule(r: Rule) {
    r == XbrlPostIpoComparative || r == FirstPeriodicReport
  }

  predicate DatedBy(d: Option<int>, asOf: int) {
    d.Some? && d.value <= asOf
  }

  /** model_eval._admissible; an unknown rule fails closed. */
  predicate Admissible(o: Observation, asOf: int, ds: Dataset) {
    o.value.Some? &&
    if PointInTimeRule(o.rule) then DatedBy(o.availableAt, asOf)
    else ds == ResearchPostIpoComparatives && ResearchOnlyRule(o.rule) && DatedBy(o.periodEnd, asOf)
  }

  function Admitted(obs: seq<Observation>, asOf: int, ds: Dataset): (ok: seq<Observation>)
    ensures forall o :: o in ok <==> o in obs && Admissible(o, asOf, ds)
  {
    if obs == [] then []
    else if Admissible(obs[0], asOf, ds) then [obs[0]] + Admitted(obs[1..], asOf, ds)
    else Admitted(obs[1..], asOf, ds)
  }

  predicate DateLess(a: Option<int>, b: Option<int>) {
    b.Some? && (a.None? || a.value < b.value)
  }

  /** The order of the key (period_end, available_at or ""). */
  predicate KeyLess(a: Observation, b: Observation) {
    DateLess(a.periodEnd, b.periodEnd) || (a.periodEnd == b.periodEnd && DateLess(a.availableAt, b.availableAt))
  }

  /** The first observation with the greatest key. */
  function Latest(ok: seq<Observation>): (o: Observation)
    requires ok != []
    ensures o in ok && forall q :: q in ok ==> !KeyLess(o, q)
  {
    if |ok| == 1 then ok[0]
    else
      var o := Latest(ok[1..]);
      assert forall q :: q in ok ==> q == ok[0] || q in ok[1..];
      if KeyLess(ok[0], o) then o else ok[0]
  }

  /** model_eval._latest_available */
  function LatestAvailable(obs: seq<Observation>, asOf: int, ds: Dataset): Option<real> {
    var ok := Admitted(obs, asOf, ds);
    if ok == [] then None else Latest(ok).value
  }

  datatype Ipo = Ipo(
    issueSize: Option<real>, finalPrice: Option<real>, freshPct: Option<real>, ofsPct: Option<real>,
    sme: bool, spac: bool, sharesOffered: Option<real>)

  type Book = map<string, seq<Observation>>

  function Get(fin: Book, name: string): seq<Observation> {
    if name in fin then fin[name] else []
  }

  function LogOf(log: real -> real, v: Option<real>): Option<real> {
    if v.Some? && v.value > 0.0 then Some(log(v.value)) else None
  }

  function Ratio(a: Option<real>, b: Option<real>): Option<real> {
    if a.Some? && b.Some? && b.value != 0.0 then Some(a.value / b.value) else None
  }

  function Scaled(v: Option<real>, shift: real): Option<real> {
    if v.Some? then Some((v.value + shift) * 100.0) else None
  }

  function Put(m: map<string, real>, name: string, v: Option<real>): map<string, real> {
    if v.Some? then m[name := v.value] else m
  }

  /** market_regime.trailing_ipo_count: listings in the 90 days strictly before asOf. */
  function TrailingIpoCount(listings: seq<int>, asOf: int): nat {
    if listings == [] then 0
    else (if asOf - 90 <= listings[0] < asOf then 1 else 0) + TrailingIpoCount(listings[1..], asOf)
  }

  /** What a feature row takes from dated sources. */
  datatype Dated = Dated(rev: Option<real>, revPrev: Option<real>, ni: Option<real>, cfo: Option<real>,
                         return60: Option<real>, vol20: Option<real>, ipoCount: nat)

  function DatedInputs(fin: Book, listings: seq<int>, asOf: int, ds: Dataset): Dated {
    Dated(LatestAvailable(Get(fin, "revenue_m"), asOf, ds), LatestAvailable(Get(fin, "revenue_prev_m"), asOf, ds),
          LatestAvailable(Get(fin, "net_income_m"), asOf, ds), LatestAvailable(Get(fin, "cfo_m"), asOf, ds),
          LatestAvailable(Get(fin, "market_return_60d_pct"), asOf, ds),
          LatestAvailable(Get(fin, "market_vol_20d_pct"), asOf, ds), TrailingIpoCount(listings, asOf))
  }

  function Assemble(log: real -> real, ipo: Ipo, d: Dated): map<string, real> {
    var m := map["is_sme" := if ipo.sme then 1.0 else 0.0, "is_spac" := if ipo.spac then 1.0 else 0.0,
                 "ipo_count_90d" := d.ipoCount as real];
    var m := Put(m, "log_issue_size", LogOf(log, ipo.issueSize));
    var m := Put(m, "log_offer_price", LogOf(log, ipo.finalPrice));
    var m := Put(m, "fresh_issue_pct", ipo.freshPct);
    var m := Put(m, "ofs_pct", ipo.ofsPct);
    var m := Put(m, "log_shares_offered", LogOf(log, ipo.sharesOffered));
    var m := Put(m, "log_revenue", LogOf(log, d.rev));
    var m := Put(m, "revenue_growth_pct", Scaled(Ratio(d.rev, d.revPrev), -1.0));
    var m := Put(m, "net_margin_pct", Scaled(Ratio(d.ni, d.rev), 0.0));
    var m := Put(m, "cfo_margin_pct", Scaled(Ratio(d.cfo, d.rev), 0.0));
    var m := Put(m, "market_return_60d_pct", d.return60);
    Put(m, "market_vol_20d_pct", d.vol20)
  }

  /** model_eval.features_for with the listing count that build_rows adds. */
  function FeaturesFor(log: real -> real, ipo: Ipo, fin: Book, listings: seq<int>, asOf: int, ds: Dataset)
    : map<string, real>
  {
    Assemble(log, ipo, DatedInputs(fin, listings, asOf, ds))
  }

  // ------------------------------------------------------------- no later knowledge

  /** Published after the prediction date, or by a rule that is not point-in-time. */
  predicate FromTheFuture(o: Observation, asOf: int) {
    !PointInTimeRule(o.rule) || o.availableAt.None? || o.availableAt.value > asOf
  }

  /** `a` is `b` with any number of future observations mixed in anywhere. */
  ghost predicate Padded(a: seq<Observation>, b: seq<Observation>, asOf: int)
    decreases |a| + |b|
  {
    if a == [] then b == []
    else
      || (b != [] && a[0] == b[0] && Padded(a[1..], b[1..], asOf))
      || (FromTheFuture(a[0], asOf) && Padded(a[1..], b, asOf))
  }

  lemma {:induction false} PaddedAdmitted(a: seq<Observation>, b: seq<Observation>, asOf: int)
    requires Padded(a, b, asOf)
    ensures Admitted(a, asOf, Production) == Admitted(b, asOf, Production)
    decreases |a| + |b|
  {
    if a != [] {
      if b != [] && a[0] == b[0] && Padded(a[1..], b[1..], asOf) {
        PaddedAdmitted(a[1..], b[1..], asOf);
      } else {
        PaddedAdmitted(a[1..], b, asOf);
      }
    }
  }

  /** Listing days that differ only by listings on or after the prediction date. */
  ghost predicate PaddedListings(a: seq<int>, b: seq<int>, asOf: int)
    decreases |a| + |b|
  {
    if a == [] then b == []
    else
      || (b != [] && a[0] == b[0] && PaddedListings(a[1..], b[1..], asOf))
      || (a[0] >= asOf && PaddedListings(a[1..], b, asOf))
  }

  lemma {:induction false} PaddedCount(a: seq<int>, b: seq<int>, asOf: int)
    requires PaddedListings(a, b, asOf)
    ensures TrailingIpoCount(a, asOf) == TrailingIpoCount(b, asOf)
    decreases |a| + |b|
  {
    if a != [] {
      if b != [] && a[0] == b[0] && PaddedListings(a[1..], b[1..], asOf) {
        PaddedCount(a[1..], b[1..], asOf);
      } else {
        PaddedCount(a[1..], b, asOf);
      }
    }
  }

  /** Production features do not see anything published after, or listed on or after, the listing date. */
  lemma ProductionIgnoresTheFuture(log: real -> real, ipo: Ipo, a: Book, b: Book,
                                   la: seq<int>, lb: seq<int>, asOf: int)
    requires forall name :: Padded(Get(a, name), Get(b, name), asOf)
    requires PaddedListings(la, lb, asOf)
    ensures FeaturesFor(log, ipo, a, la, asOf, Production) == FeaturesFor(log, ipo, b, lb, asOf, Production)
  {
    hide PaddedListings, Assemble, DatedInputs;
    PaddedCount(la, lb, asOf);
    SameInputs(a, b, la, lb, asOf);
  }

  lemma SameInputs(a: Book, b: Book, la: seq<int>, lb: seq<int>, asOf: int)
    requires forall name :: Padded(Get(a, name), Get(b, name), asOf)
    requires TrailingIpoCount(la, asOf) == TrailingIpoCount(lb, asOf)
    ensures DatedInputs(a, la, asOf, Production) == DatedInputs(b, lb, asOf, Production)
  {
    hide Padded, TrailingIpoCount, Get, LatestAvailable;
    SameLatest(a, b, "revenue_m", asOf);
    SameLatest(a, b, "revenue_prev_m", asOf);
    SameLatest(a, b, "net_income_m", asOf);
    SameLatest(a, b, "cfo_m", asOf);
    SameLatest(a, b, "market_return_60d_pct", asOf);
    SameLatest(a, b, "market_vol_20d_pct", asOf);
  }

  lemma SameLatest(a: Book, b: Book, name: string, asOf: int)
    requires Padded(Get(a, name), Get(b, name), asOf)
    ensures LatestAvailable(Get(a, name), asOf, Production) == LatestAvailable(Get(b, name), asOf, Production)
  {
    hide Padded, Admitted, Get;
    PaddedAdmitted(Get(a, name), Get(b, name), asOf);
  }

  /** The research dataset does read such values: a comparative filed after listing about an earlier period. */
  lemma ResearchReadsComparatives(v: real, period: int, filed: int, asOf: int)
    requires period <= asOf < filed
    ensures var o := Observation(Some(v), XbrlPostIpoComparative, Some(period), Some(filed));
      && FromTheFuture(o, asOf)
      && LatestAvailable([o], asOf, Production) == None
      && LatestAvailable([o], asOf, ResearchPostIpoComparatives) == Some(v)
  {
    var o := Observation(Some(v), XbrlPostIpoComparative, Some(period), Some(filed));
    assert [o][1..] == [];
    assert Admitted([o], asOf, Production) == [];
    assert Admitted([o], asOf, ResearchPostIpoComparatives) == [o];
  }
}
