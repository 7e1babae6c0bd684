/**
 What a walk-forward evaluation reports of itself, said of the rows read: which years are folds,
 how many rows train and test each, which rows those are, and when a fold is scored.
 */
module Folds {
  import opened Options
  import opened Reals
  import opened RankAuc
  import opened LinearSolve
  import opened Logistic
  import opened WalkForward
  import opened NewtonSteps
  import opened LogisticFit
  import opened Standardized

  function Count(rows: seq<Row>, p: Row -> bool): nat {
    if rows == [] then 0 else (if p(rows[0]) then 1 else 0) + Count(rows[1..], p)
  }

  /** Labelled for the target, in a year before yr. */
  function Earlier(t: Target, yr: int): Row -> bool {
    (r: Row) => t in r.labels && r.year < yr
  }

  /** Labelled for the target, in the year yr. */
  function InYear(t: Target, yr: int): Row -> bool {
    (r: Row) => t in r.labels && r.year == yr
  }

  // ------------------------------------------------------------- the rows of a fold

  function Train(rows: seq<Row>, t: Target, yr: int): seq<Row> {
    Before(Usable(rows, t), yr)
  }

  function Test(rows: seq<Row>, t: Target, yr: int): seq<Row> {
    At(Usable(rows, t), yr)
  }

  lemma {:induction false} FoldSizes(rows: seq<Row>, t: Target, yr: int)
    ensures |Train(rows, t, yr)| == Count(rows, Earlier(t, yr)) && |Test(rows, t, yr)| == Count(rows, InYear(t, yr))
  {
    if rows != [] {
      FoldSizes(rows[1..], t, yr);
      UsableHead(rows, t, yr);
    }
  }

  lemma UsableHead(rows: seq<Row>, t: Target, yr: int)
    requires rows != []
    ensures var r := rows[0];
      && Train(rows, t, yr) == (if t in r.labels && r.year < yr then [r] else []) + Train(rows[1..], t, yr)
      && Test(rows, t, yr) == (if t in r.labels && r.year == yr then [r] else []) + Test(rows[1..], t, yr)
  {
    if t in rows[0].labels {
      assert Usable(rows, t)[1..] == Usable(rows[1..], t);
    }
  }

  /** The fit gets every labelled row of an earlier year, as often as it was read, and no other; the
      test rows are those of the year. */
  lemma {:induction false} FoldRows(rows: seq<Row>, t: Target, yr: int, r: Row)
    ensures multiset(Train(rows, t, yr))[r] == if t in r.labels && r.year < yr then multiset(rows)[r] else 0
    ensures multiset(Test(rows, t, yr))[r] == if t in r.labels && r.year == yr then multiset(rows)[r] else 0
  {
    if rows != [] {
      FoldRows(rows[1..], t, yr, r);
      UsableHead(rows, t, yr);
      assert rows == [rows[0]] + rows[1..];
    }
  }

  // ------------------------------------------------------------- the folds of a run

  /** What a fold says of the rows read. */
  ghost predicate FoldOf(s: Setup, rows: seq<Row>, t: Target, f: Fold) {
    && f.nTrain == Count(rows, Earlier(t, f.year)) && f.nTest == Count(rows, InYear(t, f.year))
    && (f.figures.Some? <==> f.nTrain >= s.minTrain && BothLabels(rows, t, f.year))
  }

  /** Two labelled rows of earlier years differ in their label. */
  ghost predicate BothLabels(rows: seq<Row>, t: Target, yr: int) {
    exists r, q :: r in rows && q in rows && Earlier(t, yr)(r) && Earlier(t, yr)(q) && r.labels[t] != q.labels[t]
  }

  lemma {:induction false} RunFolds(s: Setup, usable: seq<Row>, t: Target, years: seq<int>)
    requires Positive(s.exp) && forall r :: r in usable ==> t in r.labels
    ensures var folds := RunYears(s, usable, t, years).folds;
      |folds| == |years| && forall i | 0 <= i < |years| :: folds[i].year == years[i] && [folds[i]] == YearFold(s, usable, t, years[i]).folds
  {
    hide FoldFor, Positive;
    if years != [] {
      var n := |years| - 1;
      RunFolds(s, usable, t, years[..n]);
      OneFold(s, usable, t, years[n]);
    }
  }

  lemma OneFold(s: Setup, usable: seq<Row>, t: Target, yr: int)
    requires Positive(s.exp) && forall r :: r in usable ==> t in r.labels
    ensures var folds := YearFold(s, usable, t, yr).folds;
      && |folds| == 1 && folds[0].year == yr
      && folds[0].nTrain == |Before(usable, yr)| && folds[0].nTest == |At(usable, yr)|
      && (folds[0].figures.Some? <==> Scored(s, Before(usable, yr), At(usable, yr), t))
  {
    hide Predictions, Auc, Brier, BaseRate, HeuristicPairs, DesignColumns, Positive;
  }

  lemma ScoredIff(s: Setup, rows: seq<Row>, t: Target, yr: int)
    requires exists r :: r in rows && t in r.labels && r.year == yr
    ensures Scored(s, Train(rows, t, yr), Test(rows, t, yr), t)
      <==> |Train(rows, t, yr)| >= s.minTrain && BothLabels(rows, t, yr)
  {
    hide Before, At, Usable;
    var train, test := Train(rows, t, yr), Test(rows, t, yr);
    forall r ensures (r in train <==> r in rows && Earlier(t, yr)(r)) && (r in test <==> r in rows && InYear(t, yr)(r)) {
      FoldRows(rows, t, yr, r);
      assert r in train <==> multiset(train)[r] > 0;
      assert r in test <==> multiset(test)[r] > 0;
      assert r in rows <==> multiset(rows)[r] > 0;
    }
    hide Train, Test;
  }

  lemma YearsOfRows(rows: seq<Row>, t: Target, yr: int)
    ensures yr in Years(Usable(rows, t)) <==> exists r :: r in rows && t in r.labels && r.year == yr
  {
    var usable := Usable(rows, t);
    if yr in Years(usable) {
      var i :| 0 <= i < |usable| && usable[i].year == yr;
      UsableOnly(rows, t, usable[i]);
    }
    if r :| r in rows && t in r.labels && r.year == yr {
      UsableOnly(rows, t, r);
      var i :| 0 <= i < |usable| && usable[i] == r;
      assert usable[i].year == yr;
    }
  }

  lemma {:induction false} UsableOnly(rows: seq<Row>, t: Target, r: Row)
    ensures r in Usable(rows, t) <==> r in rows && t in r.labels
  {
    if rows != [] {
      UsableOnly(rows[1..], t, r);
      assert rows == [rows[0]] + rows[1..];
    }
  }

  ghost predicate IsFold(folds: seq<Fold>, yr: int) {
    exists i :: 0 <= i < |folds| && folds[i].year == yr
  }

  ghost predicate IsYear(rows: seq<Row>, t: Target, yr: int) {
    exists r :: r in rows && t in r.labels && r.year == yr
  }

  /** One fold for each year of a labelled row, ascending. */
  ghost predicate FoldsByYear(rows: seq<Row>, t: Target, folds: seq<Fold>) {
    && (forall i, j | 0 <= i < j < |folds| :: folds[i].year < folds[j].year)
    && forall yr :: IsFold(folds, yr) <==> IsYear(rows, t, yr)
  }

  lemma FoldAt(s: Setup, rows: seq<Row>, t: Target, yr: int)
    requires Positive(s.exp) && IsYear(rows, t, yr)
    ensures var folds := YearFold(s, Usable(rows, t), t, yr).folds;
      |folds| == 1 && folds[0].year == yr && FoldOf(s, rows, t, folds[0])
  {
    hide YearFold, Scored, BothLabels, Positive, Usable, Before, At, Count;
    OneFold(s, Usable(rows, t), t, yr);
    FoldSizes(rows, t, yr);
    ScoredIff(s, rows, t, yr);
  }

  lemma YearsMatch(rows: seq<Row>, t: Target, folds: seq<Fold>, years: seq<int>)
    requires years == Years(Usable(rows, t)) && |folds| == |years| && forall i | 0 <= i < |years| :: folds[i].year == years[i]
    ensures FoldsByYear(rows, t, folds)
  {
    hide Usable, Years, IsYear;
    YearsAscend(Usable(rows, t));
    forall yr ensures IsFold(folds, yr) <==> IsYear(rows, t, yr) {
      assert yr in years <==> IsYear(rows, t, yr) by {
        YearIs(rows, t, yr);
      }
      if yr in years {
        var i :| 0 <= i < |years| && years[i] == yr;
        assert folds[i].year == yr;
      }
    }
  }

  lemma YearIs(rows: seq<Row>, t: Target, yr: int)
    ensures yr in Years(Usable(rows, t)) <==> IsYear(rows, t, yr)
  {
    hide Usable, Years;
    YearsOfRows(rows, t, yr);
  }

  /**
   The folds of an evaluation are the years of the labelled rows, once each and ascending. A fold
   trains on as many rows as are labelled in earlier years and tests on those of its own, and is
   scored exactly when the first number reaches the minimum and both labels occur among them.
   */
  lemma FoldsAre(s: Setup, rows: seq<Row>, t: Target)
    requires Positive(s.exp)
    ensures var folds := Evaluation(s, rows, t).folds;
      FoldsByYear(rows, t, folds) && forall i | 0 <= i < |folds| :: FoldOf(s, rows, t, folds[i])
  {
    hide YearFold, RunYears, Usable, Years, Positive, FoldOf, FoldsByYear, IsYear;
    var usable := Usable(rows, t);
    var years, folds := Years(usable), Evaluation(s, rows, t).folds;
    RunFolds(s, usable, t, years);
    YearsMatch(rows, t, folds, years);
    forall i | 0 <= i < |folds| ensures FoldOf(s, rows, t, folds[i]) {
      assert years[i] in years && [folds[i]] == YearFold(s, usable, t, years[i]).folds;
      YearIs(rows, t, years[i]);
      FoldAt(s, rows, t, years[i]);
      assert [folds[i]][0] == folds[i];
    }
  }

  // ------------------------------------------------------------- training rows are earlier test rows

  function Tested(folds: seq<Fold>): nat {
    if folds == [] then 0 else Tested(folds[..|folds| - 1]) + folds[|folds| - 1].nTest
  }

  /** Between consecutive fold years no labelled row lies. */
  lemma {:induction false} CountSplit(rows: seq<Row>, t: Target, lo: int, hi: int)
    requires lo < hi && forall r | r in rows && t in r.labels :: !(lo < r.year < hi)
    ensures Count(rows, Earlier(t, hi)) == Count(rows, Earlier(t, lo)) + Count(rows, InYear(t, lo))
  {
    if rows != [] {
      assert rows[0] in rows && forall r | r in rows[1..] :: r in rows;
      CountSplit(rows[1..], t, lo, hi);
    }
  }

  lemma {:induction false} CountNone(rows: seq<Row>, t: Target, yr: int)
    requires forall r | r in rows && t in r.labels :: r.year >= yr
    ensures Count(rows, Earlier(t, yr)) == 0
  {
    if rows != [] {
      assert rows[0] in rows && forall r | r in rows[1..] :: r in rows;
      CountNone(rows[1..], t, yr);
    }
  }

  /** A fold trains on as many rows as all earlier folds test on. */
  lemma {:induction false} TrainsOnEarlierTests(s: Setup, rows: seq<Row>, t: Target, i: nat)
    requires Positive(s.exp) && i < |Evaluation(s, rows, t).folds|
    ensures var folds := Evaluation(s, rows, t).folds;
      folds[i].nTrain == Tested(folds[..i])
  {
    hide Evaluation, Positive, FoldOf, FoldsByYear, Count;
    var folds := Evaluation(s, rows, t).folds;
    FoldsAre(s, rows, t);
    TrainSize(s, rows, t, folds, i);
    if i == 0 {
      FirstYear(rows, t, folds);
      CountNone(rows, t, folds[0].year);
    } else {
      TrainsOnEarlierTests(s, rows, t, i - 1);
      TrainSize(s, rows, t, folds, i - 1);
      assert folds[..i][..i - 1] == folds[..i - 1];
      NoYearBetween(rows, t, folds, i);
      CountSplit(rows, t, folds[i - 1].year, folds[i].year);
    }
  }

  lemma TrainSize(s: Setup, rows: seq<Row>, t: Target, folds: seq<Fold>, i: nat)
    requires i < |folds| && FoldOf(s, rows, t, folds[i])
    ensures folds[i].nTrain == Count(rows, Earlier(t, folds[i].year)) && folds[i].nTest == Count(rows, InYear(t, folds[i].year))
  {
    hide Count, BothLabels;
  }

  lemma FirstYear(rows: seq<Row>, t: Target, folds: seq<Fold>)
    requires FoldsByYear(rows, t, folds) && folds != []
    ensures forall r | r in rows && t in r.labels :: r.year >= folds[0].year
  {
    forall r | r in rows && t in r.labels ensures r.year >= folds[0].year {
      assert IsYear(rows, t, r.year);
      var k :| 0 <= k < |folds| && folds[k].year == r.year;
    }
  }

  lemma NoYearBetween(rows: seq<Row>, t: Target, folds: seq<Fold>, i: nat)
    requires FoldsByYear(rows, t, folds) && 0 < i < |folds|
    ensures folds[i - 1].year < folds[i].year
    ensures forall r | r in rows && t in r.labels :: !(folds[i - 1].year < r.year < folds[i].year)
  {
    forall r | r in rows && t in r.labels ensures !(folds[i - 1].year < r.year < folds[i].year) {
      assert IsYear(rows, t, r.year);
      var k :| 0 <= k < |folds| && folds[k].year == r.year;
    }
  }

  // ------------------------------------------------------------- the figures of a fold

  lemma {:induction false} LabelsCounted(train: seq<Row>, t: Target)
    requires forall r :: r in train ==> t in r.labels
    ensures LabelTotal(LabelsOf(train, t)) == Count(train, (r: Row) => t in r.labels && r.labels[t] == 1)
  {
    if train != [] {
      LabelsCounted(train[1..], t);
      assert LabelsOf(train, t)[1..] == LabelsOf(train[1..], t);
    }
  }

  /** The squared distance of a predicted percentage from 0 or 100. */
  function Miss(p: Pair): real {
    (p.score - 100.0 * p.y as real) * (p.score - 100.0 * p.y as real)
  }

  function Misses(pairs: seq<Pair>): real {
    if pairs == [] then 0.0 else Misses(pairs[..|pairs| - 1]) + Miss(pairs[|pairs| - 1])
  }

  lemma {:induction false} MissesCons(p: Pair, rest: seq<Pair>)
    ensures Misses([p] + rest) == Miss(p) + Misses(rest)
  {
    hide Miss;
    if rest == [] {
      assert [p] + rest == [p] && [p][..0] == [];
      assert Misses([p][..0]) == 0.0;
    } else {
      var n := |rest| - 1;
      assert ([p] + rest)[..n + 1] == [p] + rest[..n];
      MissesCons(p, rest[..n]);
    }
  }

  lemma {:induction false} SquaredAsMisses(pairs: seq<Pair>)
    ensures SquaredErrors(pairs) * 10000.0 == Misses(pairs)
  {
    hide Miss, Misses, Square2;
    if pairs == [] {
      NoMisses();
    } else {
      var p := pairs[0];
      SquaredAsMisses(pairs[1..]);
      assert pairs == [p] + pairs[1..];
      MissesCons(p, pairs[1..]);
      Hundredths(p);
    }
  }

  lemma NoMisses()
    ensures SquaredErrors([]) == 0.0 == Misses([])
  {
  }

  lemma Hundredths(p: Pair)
    ensures Square2(p.score / 100.0 - p.y as real) * 10000.0 == Miss(p)
  {
    var e := p.score / 100.0 - p.y as real;
    assert e * 100.0 == p.score - 100.0 * p.y as real;
    assert e * e * 10000.0 == (e * 100.0) * (e * 100.0);
  }

  /** A scored fold's base percentage, Brier score and AUC, multiplied out: of the training labels,
      of the distances of the predictions from the test labels, and of the pairs of test rows. */
  lemma FiguresAre(s: Setup, rows: seq<Row>, t: Target, yr: int)
    requires Positive(s.exp) && YearFold(s, Usable(rows, t), t, yr).folds[0].figures.Some?
    ensures var fold := YearFold(s, Usable(rows, t), t, yr);
      var f, train, test := fold.folds[0].figures.value, Train(rows, t, yr), Test(rows, t, yr);
      && f.basePct * |train| as real == 100.0 * Count(train, (r: Row) => t in r.labels && r.labels[t] == 1) as real
      && f.brier * 10000.0 * |test| as real == Misses(fold.model)
      && f.auc == Auc(fold.model)
      && |fold.model| == |test| && (forall i | 0 <= i < |test| :: t in test[i].labels && fold.model[i].y == test[i].labels[t])
  {
    hide BaseRate, Brier, Misses, Count, Train, Test, YearFold, Auc, Usable, Positive;
    var fold, train, test := YearFold(s, Usable(rows, t), t, yr), Train(rows, t, yr), Test(rows, t, yr);
    FoldParts(s, rows, t, yr);
    BaseMultiplied(train, t);
    BrierMultiplied(fold.model);
  }

  lemma FoldParts(s: Setup, rows: seq<Row>, t: Target, yr: int)
    requires Positive(s.exp) && YearFold(s, Usable(rows, t), t, yr).folds[0].figures.Some?
    ensures var fold := YearFold(s, Usable(rows, t), t, yr);
      var f, train, test := fold.folds[0].figures.value, Train(rows, t, yr), Test(rows, t, yr);
      && train != [] && (forall r :: r in train ==> t in r.labels) && f.basePct == BaseRate(LabelsOf(train, t))
      && fold.model != [] && f.brier == Brier(fold.model) && f.auc == Auc(fold.model)
      && |fold.model| == |test| && (forall i | 0 <= i < |test| :: t in test[i].labels && fold.model[i].y == test[i].labels[t])
  {
    hide Predictions, Auc, Brier, BaseRate, HeuristicPairs, DesignColumns, Positive, Before, At, Usable;
  }

  lemma BaseMultiplied(train: seq<Row>, t: Target)
    requires train != [] && forall r :: r in train ==> t in r.labels
    ensures BaseRate(LabelsOf(train, t)) * |train| as real
      == 100.0 * Count(train, (r: Row) => t in r.labels && r.labels[t] == 1) as real
  {
    hide LabelTotal, Count;
    LabelsCounted(train, t);
    Multiplied(LabelTotal(LabelsOf(train, t)) as real, |train| as real);
  }

  lemma BrierMultiplied(pairs: seq<Pair>)
    requires pairs != []
    ensures Brier(pairs) * 10000.0 * |pairs| as real == Misses(pairs)
  {
    hide SquaredErrors, Misses;
    SquaredAsMisses(pairs);
    Multiplied(SquaredErrors(pairs), |pairs| as real);
  }

  lemma Multiplied(a: real, n: real)
    requires n > 0.0
    ensures a / n * n == a && a / n * 100.0 * n == 100.0 * a && a / n * 10000.0 * n == a * 10000.0
  {
  }

  // ------------------------------------------------------------- the predictions of a fold

  /** The design of a fold: its training rows and its test rows, encoded by training statistics. */
  ghost predicate Designed(s: Setup, rows: seq<Row>, t: Target, yr: int, x: Matrix, xt: Matrix) {
    var train, test := FeaturesOf(Train(rows, t, yr)), FeaturesOf(Test(rows, t, yr));
    var cols := Columns(train, s.names);
    var missing := Missing(train, test, cols);
    x == EncodeAll(s.sqrt, train, cols, missing, train) && xt == EncodeAll(s.sqrt, train, cols, missing, test)
  }

  lemma ModelScores(s: Setup, rows: seq<Row>, t: Target, yr: int, x: Matrix, xt: Matrix, d: nat)
    requires Positive(s.exp) && Scored(s, Train(rows, t, yr), Test(rows, t, yr), t)
    requires Designed(s, rows, t, yr, x, xt) && Design(x, d) && d > 0
    ensures var train, test := Train(rows, t, yr), Test(rows, t, yr);
      var w := FitFrom(s.exp, x, LabelsOf(train, t), 1.0, Zeros(d), 25);
      var model := YearFold(s, Usable(rows, t), t, yr).model;
      |model| == |xt| && Design(xt, d) && forall i | 0 <= i < |xt| :: model[i].score == Predict(s.exp, w, xt)[i]
  {
    hide FitFrom, Predict, Columns, Missing, Encode, Auc, Brier, BaseRate, HeuristicPairs, DesignColumns, Positive, Before, At, Usable;
    assert Train(rows, t, yr) != [];
    assert |x[0]| == d;
  }

  /**
   A scored fold's model: the weights that end the path of Newton updates from zero on its own
   training rows, of at most 25 steps and with penalty 1, give every test row its percentage.
   */
  lemma FoldPredicts(s: Setup, rows: seq<Row>, t: Target, yr: int, x: Matrix, xt: Matrix, d: nat, top: real, q: real,
                     ws: seq<Vec>, i: nat)
    requires Positive(s.exp) && Scored(s, Train(rows, t, yr), Test(rows, t, yr), t)
    requires Designed(s, rows, t, yr, x, xt) && |x| == |Train(rows, t, yr)| && EnoughData(s.exp, top, x, d, 1.0, q)
    requires Path(s.exp, x, LabelsOf(Train(rows, t, yr), t), 1.0, Zeros(d), 25, ws) && i < |xt|
    ensures var p := YearFold(s, Usable(rows, t), t, yr).model;
      var z := Dot(ws[|ws| - 1], xt[i]);
      |p| == |xt| && (-30.0 <= z <= 30.0 ==> 0.0 < p[i].score < 100.0 && p[i].score * s.exp(-z) == 100.0 - p[i].score)
  {
    hide Scored, Designed, EnoughData, YearFold, Before, At, Usable, Predict, FitFrom, Positive, Dot, Updates, Settled, LabelsOf;
    var y := LabelsOf(Train(rows, t, yr), t);
    assert Design(x, d) && d > 0 by {
      DataShape(s.exp, top, x, d, q);
    }
    FitReturnsIff(s.exp, top, x, y, 1.0, q, d, 25, ws[|ws| - 1]);
    ModelScores(s, rows, t, yr, x, xt, d);
    if -30.0 <= Dot(ws[|ws| - 1], xt[i]) <= 30.0 {
      PredictionOdds(s.exp, ws[|ws| - 1], xt, i);
    }
  }

  lemma DataShape(exp: Exp, top: real, x: Matrix, d: nat, q: real)
    requires EnoughData(exp, top, x, d, 1.0, q)
    ensures Design(x, d) && d > 0 && x != []
  {
  }

  // ------------------------------------------------------------- the heuristic baseline

  /** The probability the heuristic gave for the target: its listing figure for the listing, its
      long-term figure for either twelve-month target. */
  function Given(r: Row, t: Target): Option<real> {
    match t
    case Listing => r.listingProb
    case TwelveMonth => r.longProb
    case TwelveMonthRelative => r.longProb
  }

  /** The test rows that carry such a probability. */
  function Rated(test: seq<Row>, t: Target): (u: seq<Row>)
    ensures forall r | r in u :: r in test && Given(r, t).Some?
  {
    if test == [] then [] else (if Given(test[0], t).Some? then [test[0]] else []) + Rated(test[1..], t)
  }

  /** The heuristic is compared on the rated test rows of the fold, in order, with their labels. */
  lemma {:induction false} HeuristicAre(test: seq<Row>, t: Target)
    requires forall r | r in test :: t in r.labels
    ensures var pairs, rated := HeuristicPairs(test, t), Rated(test, t);
      |pairs| == |rated| && forall i | 0 <= i < |rated| :: pairs[i] == Pair(Given(rated[i], t).value, rated[i].labels[t])
  {
    if test != [] {
      HeuristicAre(test[1..], t);
      HeuristicHead(test, t);
      hide HeuristicPairs, Rated, Heuristic, Given;
      var pairs, rated := HeuristicPairs(test, t), Rated(test, t);
      if pairs != HeuristicPairs(test[1..], t) {
        forall i | 1 <= i < |rated| ensures rated[i] == Rated(test[1..], t)[i - 1] && pairs[i] == HeuristicPairs(test[1..], t)[i - 1] {
        }
      }
    }
  }

  lemma HeuristicHead(test: seq<Row>, t: Target)
    requires test != [] && forall r | r in test :: t in r.labels
    ensures var pairs, rated := HeuristicPairs(test[1..], t), Rated(test[1..], t);
      && (Given(test[0], t).Some? ==>
            HeuristicPairs(test, t) == [Pair(Given(test[0], t).value, test[0].labels[t])] + pairs && Rated(test, t) == [test[0]] + rated)
      && (Given(test[0], t).None? ==> HeuristicPairs(test, t) == pairs && Rated(test, t) == rated)
  {
  }
}
