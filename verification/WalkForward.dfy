/**
 The walk-forward evaluation of model_eval.py: for every listing year a model is
 fitted on earlier rows only. The square root and the exponential are parameters.
 */
module WalkForward {
  import opened Options
  import opened Reals
  import opened RankAuc
  import opened LinearSolve
  import opened Logistic

  datatype Target = Listing | TwelveMonth | TwelveMonthRelative

  /** A dataset row. A missing feature or label is absent from its map. */
  datatype Row = Row(
    ipoId: int,
    year: int,
    features: map<string, real>,
    labels: map<Target, Label>,
    listingProb: Option<real>,
    longProb: Option<real>)

  /** What the numerics are run with: exp, sqrt, the feature list and the training minimum. */
  datatype Setup = Setup(exp: Exp, sqrt: real -> real, names: seq<string>, minTrain: nat)

  const L2 := 1.0
  const ITERS := 25

  function Heuristic(r: Row, t: Target): Option<real> {
    if t == Listing then r.listingProb else r.longProb
  }

  // -------------------------------------------------------------- row selection

  function Usable(rows: seq<Row>, t: Target): (u: seq<Row>)
    ensures forall r :: r in u ==> t in r.labels
  {
    if rows == [] then []
    else if t in rows[0].labels then [rows[0]] + Usable(rows[1..], t)
    else Usable(rows[1..], t)
  }

  function Before(rows: seq<Row>, yr: int): (u: seq<Row>)
    ensures forall r :: r in u ==> r in rows && r.year < yr
  {
    if rows == [] then []
    else if rows[0].year < yr then [rows[0]] + Before(rows[1..], yr)
    else Before(rows[1..], yr)
  }

  function At(rows: seq<Row>, yr: int): (u: seq<Row>)
    ensures forall r :: r in u ==> r in rows && r.year == yr
  {
    if rows == [] then []
    else if rows[0].year == yr then [rows[0]] + At(rows[1..], yr)
    else At(rows[1..], yr)
  }

  function InsertYear(yr: int, years: seq<int>): (r: seq<int>)
    ensures forall y :: y in r <==> y == yr || y in years
  {
    if years == [] || yr < years[0] then [yr] + years
    else if yr == years[0] then years
    else [years[0]] + InsertYear(yr, years[1..])
  }

  /** The distinct years of the rows, ascending. */
  function Years(rows: seq<Row>): (years: seq<int>)
    ensures forall y :: y in years <==> exists i :: 0 <= i < |rows| && rows[i].year == y
  {
    if rows == [] then [] else InsertYear(rows[0].year, Years(rows[1..]))
  }

  function LabelsOf(rows: seq<Row>, t: Target): (ys: seq<Label>)
    requires forall r :: r in rows ==> t in r.labels
    ensures |ys| == |rows| && forall i :: 0 <= i < |rows| ==> ys[i] == rows[i].labels[t]
  {
    seq(|rows|, i requires 0 <= i < |rows| => rows[i].labels[t])
  }

  function FeaturesOf(rows: seq<Row>): (fs: seq<map<string, real>>)
    ensures |fs| == |rows| && forall i :: 0 <= i < |rows| ==> fs[i] == rows[i].features
  {
    seq(|rows|, i requires 0 <= i < |rows| => rows[i].features)
  }

  // ------------------------------------------------------------- standardisation

  type Features = map<string, real>

  function Values(fs: seq<Features>, n: string): seq<real> {
    if fs == [] then []
    else if n in fs[0] then [fs[0][n]] + Values(fs[1..], n)
    else Values(fs[1..], n)
  }

  function Mean(v: seq<real>): real
    requires v != []
  {
    Sum(v) / |v| as real
  }

  function Deviation(sqrt: real -> real, v: seq<real>): (sd: real)
    requires v != []
    ensures sd != 0.0
  {
    var s := sqrt(Sum(SquaredDeviations(v, Mean(v))) / |v| as real);
    if s == 0.0 then 1.0 else s
  }

  /** Constant or mostly absent columns carry no information. */
  predicate Informative(train: seq<Features>, n: string) {
    var v := Values(train, n);
    |v| >= 5 && exists i :: 0 <= i < |v| && v[i] != v[0]
  }

  function Columns(train: seq<Features>, names: seq<string>): (cols: seq<string>)
    ensures forall n :: n in cols ==> Values(train, n) != []
  {
    if names == [] then []
    else
      var rest := Columns(train, names[..|names| - 1]);
      var n := names[|names| - 1];
      if Informative(train, n) then rest + [n] else rest
  }

  /** Columns that some row of the training or the test set lacks. */
  function Missing(train: seq<Features>, test: seq<Features>, cols: seq<string>): seq<string> {
    if cols == [] then []
    else
      var rest := Missing(train, test, cols[1..]);
      if exists f :: f in train + test && cols[0] !in f then [cols[0]] + rest else rest
  }

  function EncodeColumns(sqrt: real -> real, train: seq<Features>, cols: seq<string>, f: Features): (x: Vec)
    requires forall n :: n in cols ==> Values(train, n) != []
    ensures |x| == |cols|
  {
    if cols == [] then []
    else
      var n, v := cols[0], Values(train, cols[0]);
      [if n in f then (f[n] - Mean(v)) / Deviation(sqrt, v) else 0.0] + EncodeColumns(sqrt, train, cols[1..], f)
  }

  function EncodeMissing(missing: seq<string>, f: Features): (x: Vec)
    ensures |x| == |missing|
  {
    if missing == [] then []
    else [if missing[0] in f then 0.0 else 1.0] + EncodeMissing(missing[1..], f)
  }

  function Encode(sqrt: real -> real, train: seq<Features>, cols: seq<string>, missing: seq<string>, f: Features): (x: Vec)
    requires forall n :: n in cols ==> Values(train, n) != []
    ensures |x| == 1 + |cols| + |missing| && x[0] == 1.0
  {
    [1.0] + EncodeColumns(sqrt, train, cols, f) + EncodeMissing(missing, f)
  }

  function EncodeAll(sqrt: real -> real, train: seq<Features>, cols: seq<string>, missing: seq<string>,
                     fs: seq<Features>): (x: Matrix)
    requires forall n :: n in cols ==> Values(train, n) != []
    ensures |x| == |fs| && Design(x, 1 + |cols| + |missing|)
    ensures forall i :: 0 <= i < |fs| ==> x[i] == Encode(sqrt, train, cols, missing, fs[i])
  {
    seq(|fs|, i requires 0 <= i < |fs| => Encode(sqrt, train, cols, missing, fs[i]))
  }

  /** The number of columns fitted, the missing-flags among them. */
  function DesignColumns(train: seq<Features>, test: seq<Features>, names: seq<string>): nat {
    var cols := Columns(train, names);
    |cols| + |Missing(train, test, cols)|
  }

  /** model_eval._standardize: statistics from the training rows, missing-flags from both sets. */
  method Standardize(sqrt: real -> real, train: seq<Features>, test: seq<Features>, names: seq<string>)
    returns (xtr: Matrix, xte: Matrix, design: nat)
    ensures var cols := Columns(train, names); var missing := Missing(train, test, cols);
      xtr == EncodeAll(sqrt, train, cols, missing, train) && xte == EncodeAll(sqrt, train, cols, missing, test)
    ensures design == DesignColumns(train, test, names)
  {
    var cols := [];
    for i := 0 to |names|
      invariant cols == Columns(train, names[..i])
    {
      assert names[..i + 1][..i] == names[..i];
      if Informative(train, names[i]) {
        cols := cols + [names[i]];
      }
    }
    assert names[..|names|] == names;
    var missing := Missing(train, test, cols);
    xtr := EncodeAll(sqrt, train, cols, missing, train);
    xte := EncodeAll(sqrt, train, cols, missing, test);
    design := |cols| + |missing|;
  }

  // ------------------------------------------------------------------- one fold

  function Predict(exp: Exp, w: Vec, x: Matrix): (p: seq<real>)
    requires Positive(exp) && Design(x, |w|)
    ensures |p| == |x| && forall i :: 0 <= i < |x| ==> p[i] == 100.0 * Sigmoid(exp, Dot(w, x[i]))
  {
    seq(|x|, i requires 0 <= i < |x| => 100.0 * Sigmoid(exp, Dot(w, x[i])))
  }

  /** Out-of-sample predictions: a function of the labelled training rows and the test features. */
  function Predictions(s: Setup, train: seq<Features>, ys: seq<Label>, test: seq<Features>): (p: seq<real>)
    requires Positive(s.exp) && |train| == |ys|
    ensures |p| == |test|
  {
    var cols := Columns(train, s.names);
    var missing := Missing(train, test, cols);
    var xtr := EncodeAll(s.sqrt, train, cols, missing, train);
    var w := FitFrom(s.exp, xtr, ys, L2, Zeros(1 + |cols| + |missing|), ITERS);
    Predict(s.exp, w, EncodeAll(s.sqrt, train, cols, missing, test))
  }

  function LabelTotal(ys: seq<Label>): (n: int)
    ensures 0 <= n <= |ys|
  {
    if ys == [] then 0 else ys[0] + LabelTotal(ys[1..])
  }

  function BaseRate(ys: seq<Label>): real
    requires ys != []
  {
    LabelTotal(ys) as real / |ys| as real * 100.0
  }

  function Zip(scores: seq<real>, ys: seq<Label>): (pairs: seq<Pair>)
    requires |scores| == |ys|
    ensures |pairs| == |ys|
    ensures forall i :: 0 <= i < |ys| ==> pairs[i] == Pair(scores[i], ys[i])
  {
    seq(|ys|, i requires 0 <= i < |ys| => Pair(scores[i], ys[i]))
  }

  function Repeat(v: real, n: nat): (s: seq<real>)
    ensures |s| == n && forall i :: 0 <= i < n ==> s[i] == v
  {
    seq(n, _ => v)
  }

  function HeuristicPairs(test: seq<Row>, t: Target): seq<Pair>
    requires forall r :: r in test ==> t in r.labels
  {
    if test == [] then []
    else
      var rest := HeuristicPairs(test[1..], t);
      match Heuristic(test[0], t)
      case None => rest
      case Some(h) => [Pair(h, test[0].labels[t])] + rest
  }

  /** The mean squared distance of the predicted percentages from the labels. */
  function Brier(pairs: seq<Pair>): real
    requires pairs != []
  {
    SquaredErrors(pairs) / |pairs| as real
  }

  function SquaredErrors(pairs: seq<Pair>): (e: real)
  {
    if pairs == [] then 0.0
    else Square2(pairs[0].score / 100.0 - pairs[0].y as real) + SquaredErrors(pairs[1..])
  }

  /** What a scored fold reports of itself. */
  datatype Figures = Figures(basePct: real, auc: Option<real>, brier: real, design: nat)

  datatype Fold = Fold(year: int, nTrain: nat, nTest: nat, figures: Option<Figures>)

  datatype Result = Result(
    folds: seq<Fold>,
    model: seq<Pair>,
    baseRate: seq<Pair>,
    constant: seq<Pair>,
    heuristic: seq<Pair>)

  const EMPTY := Result([], [], [], [], [])

  function Join(a: Result, b: Result): Result {
    Result(a.folds + b.folds, a.model + b.model, a.baseRate + b.baseRate,
           a.constant + b.constant, a.heuristic + b.heuristic)
  }

  /** A fold is scored when it has test rows and enough training rows of both classes. */
  predicate Scored(s: Setup, train: seq<Row>, test: seq<Row>, t: Target)
    requires forall r :: r in train ==> t in r.labels
  {
    |train| >= s.minTrain && test != [] && exists r, q :: r in train && q in train && r.labels[t] != q.labels[t]
  }

  function FoldFor(s: Setup, train: seq<Row>, test: seq<Row>, t: Target, yr: int): Result
    requires Positive(s.exp)
    requires forall r :: r in train + test ==> t in r.labels
  {
    if !Scored(s, train, test, t) then
      EMPTY.(folds := [Fold(yr, |train|, |test|, None)])
    else
      var ys, labels := LabelsOf(train, t), LabelsOf(test, t);
      var pairs := Zip(Predictions(s, FeaturesOf(train), ys, FeaturesOf(test)), labels);
      var figures := Figures(BaseRate(ys), Auc(pairs), Brier(pairs), DesignColumns(FeaturesOf(train), FeaturesOf(test), s.names));
      Result([Fold(yr, |train|, |test|, Some(figures))], pairs,
             Zip(Repeat(BaseRate(ys), |test|), labels), Zip(Repeat(50.0, |test|), labels),
             HeuristicPairs(test, t))
  }

  function YearFold(s: Setup, usable: seq<Row>, t: Target, yr: int): Result
    requires Positive(s.exp) && forall r :: r in usable ==> t in r.labels
  {
    FoldFor(s, Before(usable, yr), At(usable, yr), t, yr)
  }

  function RunYears(s: Setup, usable: seq<Row>, t: Target, years: seq<int>): Result
    requires Positive(s.exp) && forall r :: r in usable ==> t in r.labels
  {
    if years == [] then EMPTY
    else Join(RunYears(s, usable, t, years[..|years| - 1]), YearFold(s, usable, t, years[|years| - 1]))
  }

  function Evaluation(s: Setup, rows: seq<Row>, t: Target): Result
    requires Positive(s.exp)
  {
    RunYears(s, Usable(rows, t), t, Years(Usable(rows, t)))
  }

  /** model_eval.walk_forward */
  method WalkForward(s: Setup, rows: seq<Row>, t: Target) returns (res: Result)
    requires Positive(s.exp)
    ensures res == Evaluation(s, rows, t)
  {
    hide FoldFor, Positive, Usable, Years, Before, At;
    var usable := Usable(rows, t);
    var years := Years(usable);
    res := EMPTY;
    for k := 0 to |years|
      invariant res == RunYears(s, usable, t, years[..k])
    {
      assert years[..k + 1][..k] == years[..k];
      var yr := years[k];
      var fold := RunFold(s, Before(usable, yr), At(usable, yr), t, yr);
      res := Join(res, fold);
    }
    assert years[..|years|] == years;
  }

  /** The body of the year loop. */
  method RunFold(s: Setup, train: seq<Row>, test: seq<Row>, t: Target, yr: int) returns (res: Result)
    requires Positive(s.exp)
    requires forall r :: r in train + test ==> t in r.labels
    ensures res == FoldFor(s, train, test, t, yr)
  {
    hide FitFrom, Auc, Encode, Columns, Missing, Values, EncodeAll, Predict, Informative, BaseRate, Brier, DesignColumns;
    var ys := LabelsOf(train, t);
    if !Scored(s, train, test, t) {
      return EMPTY.(folds := [Fold(yr, |train|, |test|, None)]);
    }
    var xtr, xte, design := Standardize(s.sqrt, FeaturesOf(train), FeaturesOf(test), s.names);
    var w := FitLogistic(s.exp, xtr, ys, L2, ITERS);
    var labels := LabelsOf(test, t);
    var pairs := Zip(Predict(s.exp, w, xte), labels);
    var auc := PairwiseAuc(pairs);
    var figures := Figures(BaseRate(ys), auc, Brier(pairs), design);
    res := Result([Fold(yr, |train|, |test|, Some(figures))], pairs,
                  Zip(Repeat(BaseRate(ys), |test|), labels), Zip(Repeat(50.0, |test|), labels),
                  HeuristicPairs(test, t));
  }

  // ------------------------------------------------- nothing later reaches a fold

  function UpTo(rows: seq<Row>, yr: int): (u: seq<Row>)
    ensures forall r :: r in u ==> r in rows && r.year <= yr
  {
    if rows == [] then []
    else if rows[0].year <= yr then [rows[0]] + UpTo(rows[1..], yr)
    else UpTo(rows[1..], yr)
  }

  lemma {:induction false} UsableUpTo(rows: seq<Row>, t: Target, yr: int)
    ensures Usable(UpTo(rows, yr), t) == UpTo(Usable(rows, t), yr)
  {
    if rows != [] {
      UsableUpTo(rows[1..], t, yr);
      if rows[0].year <= yr {
        assert UpTo(rows, yr)[1..] == UpTo(rows[1..], yr);
      }
      if t in rows[0].labels {
        assert Usable(rows, t)[1..] == Usable(rows[1..], t);
      }
    }
  }

  lemma {:induction false} SplitUpTo(rows: seq<Row>, yr: int, last: int)
    requires yr <= last
    ensures Before(UpTo(rows, last), yr) == Before(rows, yr)
    ensures At(UpTo(rows, last), yr) == At(rows, yr)
  {
    if rows != [] {
      SplitUpTo(rows[1..], yr, last);
      if rows[0].year <= last {
        assert UpTo(rows, last)[1..] == UpTo(rows[1..], last);
      }
    }
  }

  ghost predicate AscendingYears(years: seq<int>) {
    forall i, j :: 0 <= i < j < |years| ==> years[i] < years[j]
  }

  lemma {:induction false} InsertAscends(yr: int, years: seq<int>)
    requires AscendingYears(years)
    ensures AscendingYears(InsertYear(yr, years))
  {
    if years != [] && yr > years[0] {
      InsertAscends(yr, years[1..]);
      var tail := InsertYear(yr, years[1..]);
      forall j | 0 <= j < |tail| ensures years[0] < tail[j] {
        assert tail[j] in tail;
      }
    }
  }

  lemma {:induction false} YearsAscend(rows: seq<Row>)
    ensures AscendingYears(Years(rows))
  {
    if rows != [] {
      YearsAscend(rows[1..]);
      InsertAscends(rows[0].year, Years(rows[1..]));
    }
  }

  /** The years of an ascending list up to yr are a prefix of it. */
  function PrefixUpTo(years: seq<int>, yr: int): (p: seq<int>)
    ensures p <= years
    ensures forall i :: 0 <= i < |p| ==> p[i] <= yr
    ensures |p| < |years| ==> years[|p|] > yr
  {
    if years == [] || years[0] > yr then [] else [years[0]] + PrefixUpTo(years[1..], yr)
  }

  lemma {:induction false} InsertUpTo(y: int, years: seq<int>, yr: int)
    requires AscendingYears(years)
    ensures PrefixUpTo(InsertYear(y, years), yr)
         == if y <= yr then InsertYear(y, PrefixUpTo(years, yr)) else PrefixUpTo(years, yr)
  {
    if years != [] && y > years[0] {
      assert AscendingYears(years[1..]);
      hide AscendingYears;
      InsertUpTo(y, years[1..], yr);
      var later := InsertYear(y, years[1..]);
      assert InsertYear(y, years) == [years[0]] + later && ([years[0]] + later)[1..] == later;
      if years[0] <= yr {
        var kept := PrefixUpTo(years[1..], yr);
        assert PrefixUpTo(years, yr) == [years[0]] + kept && ([years[0]] + kept)[1..] == kept;
      }
    } else if years == [] || y < years[0] {
      InsertFirst(y, years, yr);
    }
  }

  lemma InsertFirst(y: int, years: seq<int>, yr: int)
    requires years == [] || y < years[0]
    ensures PrefixUpTo(InsertYear(y, years), yr)
         == if y <= yr then InsertYear(y, PrefixUpTo(years, yr)) else PrefixUpTo(years, yr)
  {
    assert InsertYear(y, years) == [y] + years && ([y] + years)[1..] == years;
  }

  lemma {:induction false} YearsUpTo(rows: seq<Row>, yr: int)
    ensures Years(UpTo(rows, yr)) == PrefixUpTo(Years(rows), yr)
  {
    if rows != [] {
      YearsUpTo(rows[1..], yr);
      YearsAscend(rows[1..]);
      InsertUpTo(rows[0].year, Years(rows[1..]), yr);
      if rows[0].year <= yr {
        assert UpTo(rows, yr)[1..] == UpTo(rows[1..], yr);
      }
    }
  }

  ghost predicate IsPrefix(a: Result, b: Result) {
    a.folds <= b.folds && a.model <= b.model && a.baseRate <= b.baseRate
    && a.constant <= b.constant && a.heuristic <= b.heuristic
  }

  /** b continues a with folds of the given years only. */
  ghost predicate Continues(a: Result, b: Result, years: seq<int>) {
    IsPrefix(a, b) && forall i :: |a.folds| <= i < |b.folds| ==> b.folds[i].year in years
  }

  lemma JoinContinues(a: Result, b: Result, c: Result, years: seq<int>, yr: int)
    requires Continues(a, b, years) && |c.folds| == 1 && c.folds[0].year == yr
    ensures Continues(a, Join(b, c), years + [yr])
  {
  }

  /** Running more years only appends. */
  lemma {:induction false} MoreYears(s: Setup, usable: seq<Row>, t: Target, years: seq<int>, k: nat)
    requires Positive(s.exp) && (forall r :: r in usable ==> t in r.labels) && k <= |years|
    ensures Continues(RunYears(s, usable, t, years[..k]), RunYears(s, usable, t, years), years[k..])
  {
    hide YearFold, Positive;
    if k == |years| {
      assert years[..k] == years;
    } else {
      hide Continues, Join;
      var n := |years| - 1;
      MoreYears(s, usable, t, years[..n], k);
      assert years[..n][..k] == years[..k] && years[k..] == years[..n][k..] + [years[n]];
      FoldYear(s, usable, t, years[n]);
      JoinContinues(RunYears(s, usable, t, years[..k]), RunYears(s, usable, t, years[..n]),
                    YearFold(s, usable, t, years[n]), years[..n][k..], years[n]);
    }
  }

  lemma FoldYear(s: Setup, usable: seq<Row>, t: Target, yr: int)
    requires Positive(s.exp) && forall r :: r in usable ==> t in r.labels
    ensures var f := YearFold(s, usable, t, yr).folds; |f| == 1 && f[0].year == yr
  {
    hide Predictions, Zip, Auc, LabelsOf, FeaturesOf, HeuristicPairs;
  }

  lemma {:induction false} SameYears(s: Setup, usable: seq<Row>, t: Target, last: int, years: seq<int>)
    requires Positive(s.exp) && forall r :: r in usable ==> t in r.labels
    requires forall i :: 0 <= i < |years| ==> years[i] <= last
    ensures RunYears(s, UpTo(usable, last), t, years) == RunYears(s, usable, t, years)
  {
    hide FoldFor, Positive, UpTo;
    if years != [] {
      var n := |years| - 1;
      SameYears(s, usable, t, last, years[..n]);
      SplitUpTo(usable, years[n], last);
    }
  }

  /**
   Everything reported for the years up to `last` is what the rows of those years alone
   produce: adding, removing or editing later rows can only append to the lists.
   */
  lemma LaterRowsOnlyAppend(s: Setup, rows: seq<Row>, t: Target, last: int)
    requires Positive(s.exp)
    ensures var past, all := Evaluation(s, UpTo(rows, last), t), Evaluation(s, rows, t);
      && IsPrefix(past, all)
      && (forall i :: |past.folds| <= i < |all.folds| ==> all.folds[i].year > last)
  {
    hide RunYears, Positive, UpTo, PrefixUpTo, IsPrefix;
    var usable := Usable(rows, t);
    var years := Years(usable);
    var early := PrefixUpTo(years, last);
    UsableUpTo(rows, t, last);
    YearsUpTo(usable, last);
    YearsAscend(usable);
    SameYears(s, usable, t, last, early);
    MoreYears(s, usable, t, years, |early|);
    assert early == years[..|early|];
    forall y | y in years[|early|..] ensures y > last {
      var j :| |early| <= j < |years| && years[j] == y;
      assert years[|early|] > last;
    }
  }

  // --------------------------------------------- labels of a fold do not reach its scores

  /** The same row, except for its labels if it is of year yr or later. */
  ghost predicate RelabelledRow(a: Row, b: Row, t: Target, yr: int) {
    && b == a.(labels := b.labels)
    && (a.year < yr ==> a == b)
    && (t in a.labels <==> t in b.labels)
  }

  ghost predicate Relabelled(a: seq<Row>, b: seq<Row>, t: Target, yr: int) {
    |a| == |b| && forall i :: 0 <= i < |a| ==> RelabelledRow(a[i], b[i], t, yr)
  }

  lemma RelabelledCons(a: Row, b: Row, x: seq<Row>, y: seq<Row>, t: Target, yr: int)
    requires RelabelledRow(a, b, t, yr) && Relabelled(x, y, t, yr)
    ensures Relabelled([a] + x, [b] + y, t, yr)
  {
    hide RelabelledRow;
  }

  lemma {:induction false} RelabelledUsable(a: seq<Row>, b: seq<Row>, t: Target, yr: int)
    requires Relabelled(a, b, t, yr)
    ensures Relabelled(Usable(a, t), Usable(b, t), t, yr)
  {
    if a != [] {
      assert Relabelled(a[1..], b[1..], t, yr) && RelabelledRow(a[0], b[0], t, yr);
      hide Relabelled;
      RelabelledUsable(a[1..], b[1..], t, yr);
      if t in a[0].labels {
        RelabelledCons(a[0], b[0], Usable(a[1..], t), Usable(b[1..], t), t, yr);
      }
    }
  }

  lemma FeaturesCons(r: Row, rows: seq<Row>)
    ensures FeaturesOf([r] + rows) == [r.features] + FeaturesOf(rows)
  {
  }

  lemma {:induction false} RelabelledSplit(a: seq<Row>, b: seq<Row>, t: Target, yr: int)
    requires Relabelled(a, b, t, yr)
    ensures Before(a, yr) == Before(b, yr)
    ensures FeaturesOf(At(a, yr)) == FeaturesOf(At(b, yr))
  {
    hide FeaturesOf;
    if a != [] {
      assert Relabelled(a[1..], b[1..], t, yr);
      RelabelledSplit(a[1..], b[1..], t, yr);
      assert RelabelledRow(a[0], b[0], t, yr);
      hide Relabelled;
      FeaturesCons(a[0], At(a[1..], yr));
      FeaturesCons(b[0], At(b[1..], yr));
    }
  }

  /** Flipping any labels of year yr or later changes no prediction and no base rate of fold yr. */
  lemma LabelsDoNotLeak(s: Setup, a: seq<Row>, b: seq<Row>, t: Target, yr: int)
    requires Positive(s.exp) && Relabelled(a, b, t, yr)
    ensures var x, y := YearFold(s, Usable(a, t), t, yr), YearFold(s, Usable(b, t), t, yr);
      && AllScores(x.model) == AllScores(y.model)
      && AllScores(x.baseRate) == AllScores(y.baseRate)
      && x.folds[0].figures.Some? == y.folds[0].figures.Some? && x.folds[0].nTrain == y.folds[0].nTrain
      && (x.folds[0].figures.Some? ==>
            var f, g := x.folds[0].figures.value, y.folds[0].figures.value;
            f.basePct == g.basePct && f.design == g.design)
  {
    hide Predictions, Auc, HeuristicPairs, BaseRate, Before, At, Usable, Positive, Scored;
    RelabelledUsable(a, b, t, yr);
    RelabelledSplit(Usable(a, t), Usable(b, t), t, yr);
    var train := Before(Usable(a, t), yr);
    var p, q := At(Usable(a, t), yr), At(Usable(b, t), yr);
    SameScored(s, train, p, q, t);
    if Scored(s, train, p, t) {
      var ys := LabelsOf(train, t);
      SomeLabels(s, train, p, t);
      var scores := Predictions(s, FeaturesOf(train), ys, FeaturesOf(p));
      ZipScores(scores, LabelsOf(p, t));
      ZipScores(scores, LabelsOf(q, t));
      ZipScores(Repeat(BaseRate(ys), |p|), LabelsOf(p, t));
      ZipScores(Repeat(BaseRate(ys), |q|), LabelsOf(q, t));
    }
  }

  lemma SameScored(s: Setup, train: seq<Row>, p: seq<Row>, q: seq<Row>, t: Target)
    requires (forall r :: r in train ==> t in r.labels) && FeaturesOf(p) == FeaturesOf(q)
    ensures |p| == |q| && (Scored(s, train, p, t) <==> Scored(s, train, q, t))
  {
    assert |FeaturesOf(p)| == |FeaturesOf(q)|;
  }

  lemma SomeLabels(s: Setup, train: seq<Row>, test: seq<Row>, t: Target)
    requires (forall r :: r in train ==> t in r.labels) && Scored(s, train, test, t)
    ensures LabelsOf(train, t) != []
  {
  }

  lemma {:induction false} ZipScores(scores: seq<real>, ys: seq<Label>)
    requires |scores| == |ys|
    ensures AllScores(Zip(scores, ys)) == scores
  {
    if ys != [] {
      assert Zip(scores, ys)[1..] == Zip(scores[1..], ys[1..]);
      ZipScores(scores[1..], ys[1..]);
    }
  }

  // ------------------------------------------------------- baselines on the same rows

  /** Pair lists that carry the same labels in the same order. */
  ghost predicate SameLabels(a: seq<Pair>, b: seq<Pair>) {
    |a| == |b| && forall i :: 0 <= i < |a| ==> a[i].y == b[i].y
  }

  /** Model, base rate and constant pairs carry the same labels in the same order. */
  ghost predicate Aligned(x: Result) {
    && SameLabels(x.model, x.baseRate) && SameLabels(x.model, x.constant)
    && forall i :: 0 <= i < |x.constant| ==> x.constant[i].score == 50.0
  }

  lemma FoldAligned(s: Setup, train: seq<Row>, test: seq<Row>, t: Target, yr: int)
    requires Positive(s.exp) && forall r :: r in train + test ==> t in r.labels
    ensures var x := FoldFor(s, train, test, t, yr);
      Aligned(x) && |x.folds| == 1 && |x.model| == if x.folds[0].figures.Some? then |test| else 0
  {
    hide Predictions, Auc, HeuristicPairs, BaseRate, Positive;
  }

  lemma JoinAligned(a: Result, b: Result)
    requires Aligned(a) && Aligned(b)
    ensures Aligned(Join(a, b))
  {
    SameLabelsJoin(a.model, a.baseRate, b.model, b.baseRate);
    SameLabelsJoin(a.model, a.constant, b.model, b.constant);
  }

  lemma SameLabelsJoin(a: seq<Pair>, b: seq<Pair>, c: seq<Pair>, d: seq<Pair>)
    requires SameLabels(a, b) && SameLabels(c, d)
    ensures SameLabels(a + c, b + d)
  {
  }

  /** Model, base rate and constant are always compared on identical test rows. */
  lemma {:induction false} BaselinesAligned(s: Setup, usable: seq<Row>, t: Target, years: seq<int>)
    requires Positive(s.exp) && forall r :: r in usable ==> t in r.labels
    ensures Aligned(RunYears(s, usable, t, years)) && |RunYears(s, usable, t, years).folds| == |years|
  {
    hide FoldFor, Positive;
    if years != [] {
      var n := |years| - 1;
      BaselinesAligned(s, usable, t, years[..n]);
      FoldAligned(s, Before(usable, years[n]), At(usable, years[n]), t, years[n]);
      hide Aligned;
      JoinAligned(RunYears(s, usable, t, years[..n]), YearFold(s, usable, t, years[n]));
    }
  }
}
