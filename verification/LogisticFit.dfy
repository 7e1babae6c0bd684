/**
 What the logistic fit returns, said without its recursion: the sequence of weights it passes
 through, the moments its gradient compares, and the first step on an intercept alone.
 */
module LogisticFit {
  import opened LinearSolve
  import opened Logistic
  import opened NewtonSteps
  import opened Reals
  import opened RankAuc

  // ------------------------------------------------------------- the sequence of weights

  /** What was taken away between two weight vectors. */
  function Taken(v: Vec, next: Vec): (r: Vec)
    requires |v| == |next|
    ensures |r| == |v| && forall j :: 0 <= j < |v| ==> r[j] == v[j] - next[j]
  {
    seq(|v|, j requires 0 <= j < |v| => v[j] - next[j])
  }

  /** One update: what it takes away solves the Newton system at v. */
  ghost predicate Updates(exp: Exp, x: Matrix, y: seq<Label>, l2: real, v: Vec, next: Vec)
    requires Positive(exp) && Design(x, |v|) && |x| == |y|
  {
    |next| == |v| && Solves(Hessian(exp, x, v, l2), PenalisedGradient(exp, x, y, v, l2), Taken(v, next))
  }

  /** Every weight moved by less than 1e-6. */
  ghost predicate Settled(v: Vec, next: Vec) {
    |v| == |next| && forall j :: 0 <= j < |v| ==> -0.000001 < v[j] - next[j] < 0.000001
  }

  /** ws starts at w, makes one update after another, and stops after k of them or after the first
      that settles. */
  ghost predicate Path(exp: Exp, x: Matrix, y: seq<Label>, l2: real, w: Vec, k: nat, ws: seq<Vec>)
    requires Positive(exp) && Design(x, |w|) && |x| == |y|
  {
    && 0 < |ws| <= k + 1 && ws[0] == w
    && (forall i :: 0 <= i < |ws| ==> |ws[i]| == |w|)
    && (forall i :: 0 <= i < |ws| - 1 ==> Updates(exp, x, y, l2, ws[i], ws[i + 1]))
    && (forall i :: 0 <= i < |ws| - 2 ==> !Settled(ws[i], ws[i + 1]))
    && (|ws| == k + 1 || (|ws| > 1 && Settled(ws[|ws| - 2], ws[|ws| - 1])))
  }

  lemma {:induction false} MaxAttained(v: Vec, bound: real)
    requires bound > 0.0
    ensures MaxAbs(v) < bound <==> forall j :: 0 <= j < |v| ==> -bound < v[j] < bound
  {
    if v != [] {
      MaxAttained(v[1..], bound);
      assert forall j :: 1 <= j < |v| ==> v[j] == v[1..][j - 1];
    }
  }

  /** The fit's next weights, and whether it stops there. */
  lemma OneUpdate(exp: Exp, top: real, x: Matrix, y: seq<Label>, l2: real, q: real, v: Vec, next: Vec)
    requires EnoughData(exp, top, x, |v|, l2, q) && |x| == |y| && |next| == |v|
    ensures var step := NewtonStep(exp, x, y, v, l2);
      && (Updates(exp, x, y, l2, v, next) <==> next == Combine(1.0, v, step))
      && (next == Combine(1.0, v, step) ==> (MaxAbs(step) < STEP_TOLERANCE <==> Settled(v, next)))
  {
    hide Hessian, PenalisedGradient, Solves, NewtonStep, MaxAbs, Moderate, Bounded;
    var step := NewtonStep(exp, x, y, v, l2);
    StepExact(exp, top, x, y, v, l2, q);
    var taken := Taken(v, next);
    assert Solves(Hessian(exp, x, v, l2), PenalisedGradient(exp, x, y, v, l2), taken) <==> taken == step;
    assert taken == step ==> next == Combine(1.0, v, step) by {
      SubtractsTaken(v, next, step);
    }
    SubtractsTaken(v, next, step);
    MaxAttained(step, 0.000001);
  }

  lemma SubtractsTaken(v: Vec, next: Vec, step: Vec)
    requires |v| == |next| == |step|
    ensures Taken(v, next) == step <==> next == Combine(1.0, v, step)
  {
    if Taken(v, next) == step {
      forall j | 0 <= j < |v| ensures next[j] == Combine(1.0, v, step)[j] {
        assert Taken(v, next)[j] == step[j];
      }
    }
    if next == Combine(1.0, v, step) {
      forall j | 0 <= j < |v| ensures Taken(v, next)[j] == step[j] {
        assert next[j] == v[j] - Times(1.0, step[j]);
      }
    }
  }

  lemma PathStep(exp: Exp, x: Matrix, y: seq<Label>, l2: real, w: Vec, k: nat, ws: seq<Vec>)
    requires Positive(exp) && Design(x, |w|) && |x| == |y| && |ws| > 1 && ws[0] == w && |ws[1]| == |w| && k > 0
    ensures Path(exp, x, y, l2, w, k, ws)
      <==> (Updates(exp, x, y, l2, w, ws[1])
            && (if Settled(w, ws[1]) then |ws| == 2 else Path(exp, x, y, l2, ws[1], k - 1, ws[1..])))
  {
    hide Updates, Settled;
    var rest := ws[1..];
    assert forall i :: 0 <= i < |rest| ==> rest[i] == ws[i + 1];
    if Path(exp, x, y, l2, w, k, ws) {
      if !Settled(w, ws[1]) {
        TailPath(exp, x, y, l2, w, k, ws);
      } else {
        SettledEnds(exp, x, y, l2, w, k, ws);
      }
    }
    if Updates(exp, x, y, l2, w, ws[1]) && (if Settled(w, ws[1]) then |ws| == 2 else Path(exp, x, y, l2, ws[1], k - 1, rest)) {
      WholePath(exp, x, y, l2, w, k, ws);
    }
  }

  lemma SettledEnds(exp: Exp, x: Matrix, y: seq<Label>, l2: real, w: Vec, k: nat, ws: seq<Vec>)
    requires Positive(exp) && Design(x, |w|) && |x| == |y| && Path(exp, x, y, l2, w, k, ws) && |ws| > 1
    requires Settled(ws[0], ws[1])
    ensures |ws| == 2
  {
    hide Updates, Settled;
  }

  lemma TailPath(exp: Exp, x: Matrix, y: seq<Label>, l2: real, w: Vec, k: nat, ws: seq<Vec>)
    requires Positive(exp) && Design(x, |w|) && |x| == |y| && |ws| > 1 && |ws[1]| == |w| && k > 0
    requires Path(exp, x, y, l2, w, k, ws) && !Settled(w, ws[1])
    ensures Path(exp, x, y, l2, ws[1], k - 1, ws[1..])
  {
    hide Updates, Settled;
    var rest := ws[1..];
    forall i | 0 <= i < |rest| - 1 ensures Updates(exp, x, y, l2, rest[i], rest[i + 1]) {
      assert Updates(exp, x, y, l2, ws[i + 1], ws[i + 2]);
    }
    forall i | 0 <= i < |rest| - 2 ensures !Settled(rest[i], rest[i + 1]) {
      assert !Settled(ws[i + 1], ws[i + 2]);
    }
  }

  lemma WholePath(exp: Exp, x: Matrix, y: seq<Label>, l2: real, w: Vec, k: nat, ws: seq<Vec>)
    requires Positive(exp) && Design(x, |w|) && |x| == |y| && |ws| > 1 && ws[0] == w && |ws[1]| == |w| && k > 0
    requires Updates(exp, x, y, l2, w, ws[1])
    requires if Settled(w, ws[1]) then |ws| == 2 else Path(exp, x, y, l2, ws[1], k - 1, ws[1..])
    ensures Path(exp, x, y, l2, w, k, ws)
  {
    hide Updates, Settled;
    var rest := ws[1..];
    forall i | 0 <= i < |ws| ensures |ws[i]| == |w| {
      assert i > 1 ==> ws[i] == rest[i - 1];
    }
    forall i | 0 <= i < |ws| - 1 ensures Updates(exp, x, y, l2, ws[i], ws[i + 1]) {
      assert i > 0 ==> ws[i] == rest[i - 1] && ws[i + 1] == rest[i];
    }
    forall i | 0 <= i < |ws| - 2 ensures !Settled(ws[i], ws[i + 1]) {
      assert i > 0 ==> ws[i] == rest[i - 1] && ws[i + 1] == rest[i];
    }
    if !Settled(w, ws[1]) && |rest| > 1 {
      assert rest[|rest| - 2] == ws[|ws| - 2] && rest[|rest| - 1] == ws[|ws| - 1];
    }
  }

  /** The fit ends where a path of updates ends, and nowhere else. */
  lemma {:induction false} FitEnds(exp: Exp, top: real, x: Matrix, y: seq<Label>, l2: real, q: real, w: Vec, k: nat) returns (ws: seq<Vec>)
    requires EnoughData(exp, top, x, |w|, l2, q) && |x| == |y|
    ensures Path(exp, x, y, l2, w, k, ws) && ws[|ws| - 1] == FitFrom(exp, x, y, l2, w, k)
    ensures forall vs :: Path(exp, x, y, l2, w, k, vs) ==> vs == ws
    decreases k
  {
    hide NewtonStep, MaxAbs, Moderate, Bounded, Updates, Settled, Path;
    if k == 0 {
      ws := [w];
      OnePath(exp, x, y, l2, w);
    } else {
      var step := NewtonStep(exp, x, y, w, l2);
      var next := Combine(1.0, w, step);
      OneUpdate(exp, top, x, y, l2, q, w, next);
      if MaxAbs(step) < STEP_TOLERANCE {
        ws := [w, next];
      } else {
        var rest := FitEnds(exp, top, x, y, l2, q, next, k - 1);
        PathShape(exp, x, y, l2, next, k - 1, rest);
        ws := [w] + rest;
        assert ws[1..] == rest;
      }
      PathStep(exp, x, y, l2, w, k, ws);
      forall vs | Path(exp, x, y, l2, w, k, vs) ensures vs == ws {
        PathLong(exp, x, y, l2, w, k, vs);
        OneUpdate(exp, top, x, y, l2, q, w, vs[1]);
        PathStep(exp, x, y, l2, w, k, vs);
        assert vs == [w] + vs[1..];
        if Settled(w, next) {
          assert vs == [w, next];
        }
      }
    }
  }

  lemma OnePath(exp: Exp, x: Matrix, y: seq<Label>, l2: real, w: Vec)
    requires Positive(exp) && Design(x, |w|) && |x| == |y|
    ensures forall vs :: Path(exp, x, y, l2, w, 0, vs) <==> vs == [w]
  {
    forall vs | Path(exp, x, y, l2, w, 0, vs) ensures vs == [w] {
    }
  }

  lemma PathShape(exp: Exp, x: Matrix, y: seq<Label>, l2: real, w: Vec, k: nat, vs: seq<Vec>)
    requires Positive(exp) && Design(x, |w|) && |x| == |y| && Path(exp, x, y, l2, w, k, vs)
    ensures 0 < |vs| && vs[0] == w
  {
  }

  lemma PathLong(exp: Exp, x: Matrix, y: seq<Label>, l2: real, w: Vec, k: nat, vs: seq<Vec>)
    requires Positive(exp) && Design(x, |w|) && |x| == |y| && Path(exp, x, y, l2, w, k, vs) && k > 0
    ensures |vs| > 1 && vs[0] == w && |vs[1]| == |w|
  {
  }

  /**
   The weights that fit_logistic returns, under EnoughData: they are r if and only if r ends a
   sequence that starts at zero, whose every difference solves the Newton system at its first
   vector, and that stops after `iters` differences or after the first one below 1e-6.
   */
  lemma FitReturnsIff(exp: Exp, top: real, x: Matrix, y: seq<Label>, l2: real, q: real, d: nat, iters: nat, r: Vec)
    requires EnoughData(exp, top, x, d, l2, q) && |x| == |y|
    ensures r == FitFrom(exp, x, y, l2, Zeros(d), iters)
      <==> exists ws :: Path(exp, x, y, l2, Zeros(d), iters, ws) && r == ws[|ws| - 1]
  {
    hide Path, Moderate, Bounded, FitFrom;
    var ws := FitEnds(exp, top, x, y, l2, q, Zeros(d), iters);
  }

  // ------------------------------------------------------------- the probabilities

  /** The predicted probability p of a row with score z is to 1 - p as exp(z) is to 1, and the
      row's weight in the curvature is the slope e / (1 + e)^2, for e = exp(-z). */
  lemma Odds(exp: Exp, z: real)
    requires Positive(exp) && -30.0 <= z <= 30.0
    ensures var p, e := Sigmoid(exp, z), exp(-z);
      p * e == 1.0 - p && Weight(p) * ((1.0 + e) * (1.0 + e)) == e
  {
    var e := exp(-z);
    assert e > 0.0;
    var p := Sigmoid(exp, z);
    assert p * (1.0 + e) == 1.0;
    assert p * e == 1.0 - p;
    Slope(p, e);
  }

  lemma Slope(p: real, e: real)
    requires 0.0 < p < 1.0 && e > 0.0 && p * (1.0 + e) == 1.0 && p * e == 1.0 - p
    ensures Weight(p) * ((1.0 + e) * (1.0 + e)) == e
  {
    assert p * (p * e) * ((1.0 + e) * (1.0 + e)) == (p * (1.0 + e)) * (p * (1.0 + e)) * e;
  }

  // ------------------------------------------------------------- the gradient's moments

  /** Column j weighted by one value for each row. */
  function Moment(x: Matrix, values: seq<real>, j: nat): real
    requires |x| == |values| && forall i :: 0 <= i < |x| ==> j < |x[i]|
  {
    if x == [] then 0.0
    else
      var n := |x| - 1;
      Moment(x[..n], values[..n], j) + Times(values[n], x[n][j])
  }

  function Probabilities(exp: Exp, x: Matrix, w: Vec): (p: seq<real>)
    requires Positive(exp) && Design(x, |w|)
    ensures |p| == |x|
  {
    seq(|x|, i requires 0 <= i < |x| => Sigmoid(exp, Dot(w, x[i])))
  }

  function AsReals(y: seq<Label>): (r: seq<real>)
    ensures |r| == |y|
  {
    seq(|y|, i requires 0 <= i < |y| => y[i] as real)
  }

  lemma {:induction false} GradientMoments(exp: Exp, x: Matrix, y: seq<Label>, w: Vec, m: nat, j: nat)
    requires Positive(exp) && Design(x, |w|) && m <= |x| == |y| && j < |w|
    ensures Gradient(exp, x, y, w, m)[j]
      == Moment(x[..m], Probabilities(exp, x, w)[..m], j) - Moment(x[..m], AsReals(y)[..m], j)
  {
    hide Dot, Sigmoid, Times, Moment, Gradient, Probabilities;
    var p, t := Probabilities(exp, x, w), AsReals(y);
    if m == 0 {
      NothingMoved(exp, x, y, w, j);
    } else {
      var n := m - 1;
      GradientMoments(exp, x, y, w, n, j);
      GradientNext(exp, x, y, w, n);
      MomentNext(x, p, n, j);
      MomentNext(x, t, n, j);
      TimesFacts(p[n], 0.0, t[n], x[n][j], 0.0);
      assert p[n] == Sigmoid(exp, Dot(w, x[n])) by {
        ProbabilityAt(exp, x, w, n);
      }
    }
  }

  lemma NothingMoved(exp: Exp, x: Matrix, y: seq<Label>, w: Vec, j: nat)
    requires Positive(exp) && Design(x, |w|) && |x| == |y| && j < |w|
    ensures Gradient(exp, x, y, w, 0)[j] == 0.0
    ensures Moment(x[..0], Probabilities(exp, x, w)[..0], j) == 0.0 == Moment(x[..0], AsReals(y)[..0], j)
  {
  }

  lemma ProbabilityAt(exp: Exp, x: Matrix, w: Vec, i: nat)
    requires Positive(exp) && Design(x, |w|) && i < |x|
    ensures Probabilities(exp, x, w)[i] == Sigmoid(exp, Dot(w, x[i]))
  {
  }

  lemma MomentNext(x: Matrix, values: seq<real>, n: nat, j: nat)
    requires n < |x| == |values| && forall i :: 0 <= i < |x| ==> j < |x[i]|
    ensures Moment(x[..n + 1], values[..n + 1], j) == Moment(x[..n], values[..n], j) + Times(values[n], x[n][j])
  {
    assert x[..n + 1][..n] == x[..n] && values[..n + 1][..n] == values[..n];
  }

  /** Column j of the gradient is the moment of the predicted probabilities less that of the labels,
      plus the penalty on all but the intercept. */
  lemma GradientIsMoments(exp: Exp, x: Matrix, y: seq<Label>, w: Vec, l2: real, j: nat)
    requires Positive(exp) && Design(x, |w|) && |x| == |y| && j < |w|
    ensures PenalisedGradient(exp, x, y, w, l2)[j]
      == Moment(x, Probabilities(exp, x, w), j) - Moment(x, AsReals(y), j) + (if j > 0 then l2 * w[j] else 0.0)
  {
    hide Gradient;
    GradientMoments(exp, x, y, w, |x|, j);
    assert x[..|x|] == x && Probabilities(exp, x, w)[..|x|] == Probabilities(exp, x, w) && AsReals(y)[..|x|] == AsReals(y);
  }

  function Sum01(values: seq<real>): real {
    if values == [] then 0.0 else Sum01(values[..|values| - 1]) + values[|values| - 1]
  }

  lemma {:induction false} ConstantMoment(x: Matrix, values: seq<real>)
    requires |x| == |values| && forall i :: 0 <= i < |x| ==> |x[i]| > 0 && x[i][0] == 1.0
    ensures Moment(x, values, 0) == Sum01(values)
  {
    if x != [] {
      ConstantMoment(x[..|x| - 1], values[..|x| - 1]);
      UnitTimes(values[|x| - 1]);
    }
  }

  lemma UnitTimes(v: real)
    ensures Times(v, 1.0) == v
  {
  }

  /** Weights that no step moves are calibrated: the predicted probabilities add up to the number of
      labels that are 1. */
  lemma StationaryCalibrated(exp: Exp, x: Matrix, y: seq<Label>, w: Vec, l2: real)
    requires Positive(exp) && Design(x, |w|) && |x| == |y|
    requires Solves(Hessian(exp, x, w, l2), PenalisedGradient(exp, x, y, w, l2), Zeros(|w|))
    ensures Sum01(Probabilities(exp, x, w)) == Sum01(AsReals(y))
  {
    hide Hessian, PenalisedGradient, Dot, Moment, Sum01;
    var g, h := PenalisedGradient(exp, x, y, w, l2), Hessian(exp, x, w, l2);
    DotZero(h[0], Zeros(|w|));
    assert g[0] == 0.0;
    GradientIsMoments(exp, x, y, w, l2, 0);
    ConstantMoment(x, Probabilities(exp, x, w));
    ConstantMoment(x, AsReals(y));
  }

  // ------------------------------------------------------------- the first step on an intercept

  /** A system of one unknown: an entry smaller than 1e-12 either way is read as 1e-12. */
  lemma OneByOne(h: real, g: real)
    ensures Solution([[h]], [g]) == [g / (if -0.000000000001 < h < 0.000000000001 then 0.000000000001 else h)]
  {
    var a, b := [[h]], [g];
    var m := Augment(a, b);
    assert m[0] == [h, g];
    assert Reduce(m, 1, 0) == m && Swap(m, 0, 0) == m;
    var k := Clamp(m, 1, 0);
    assert Reduce(m, 1, 1) == Eliminate(k, 1, 0) == [k[0]];
    assert k[0][1] == g;
  }

  function Positives(y: seq<Label>): nat {
    if y == [] then 0 else Positives(y[..|y| - 1]) + if y[|y| - 1] == 1 then 1 else 0
  }

  lemma {:induction false} InterceptSums(exp: Exp, x: Matrix, y: seq<Label>, m: nat)
    requires Positive(exp) && Design(x, 1) && m <= |x| == |y| && exp(0.0) == 1.0
    ensures Gradient(exp, x, y, Zeros(1), m) == [m as real / 2.0 - Positives(y[..m]) as real]
    ensures CurvatureRow(exp, x, Zeros(1), 0, m) == [m as real / 4.0]
  {
    if m > 0 {
      InterceptSums(exp, x, y, m - 1);
      var z := Dot(Zeros(1), x[m - 1]);
      assert z == 0.0 by {
        DotZero(Zeros(1), x[m - 1]);
      }
      assert Sigmoid(exp, z) == 0.5 && Weight(0.5) == 0.25;
      assert y[..m][..m - 1] == y[..m - 1];
      hide Dot, Sigmoid, Weight;
      InterceptNext(exp, x, y, m);
    }
  }

  lemma InterceptNext(exp: Exp, x: Matrix, y: seq<Label>, m: nat)
    requires Positive(exp) && Design(x, 1) && 0 < m <= |x| == |y|
    requires Sigmoid(exp, Dot(Zeros(1), x[m - 1])) == 0.5 && Weight(0.5) == 0.25
    requires Gradient(exp, x, y, Zeros(1), m - 1) == [(m - 1) as real / 2.0 - Positives(y[..m - 1]) as real]
    requires CurvatureRow(exp, x, Zeros(1), 0, m - 1) == [(m - 1) as real / 4.0]
    ensures Gradient(exp, x, y, Zeros(1), m) == [m as real / 2.0 - Positives(y[..m]) as real]
    ensures CurvatureRow(exp, x, Zeros(1), 0, m) == [m as real / 4.0]
  {
    hide Dot, Sigmoid, Weight;
    assert y[..m][..m - 1] == y[..m - 1];
    assert x[m - 1][0] == 1.0;
  }

  /** From zero weights, one update on an intercept alone goes to 4 k / n - 2 for k labels of n that
      are 1: above zero exactly when they are more than half. */
  lemma InterceptFirstStep(exp: Exp, x: Matrix, y: seq<Label>, l2: real)
    requires Positive(exp) && Design(x, 1) && |x| == |y| && x != [] && exp(0.0) == 1.0
    ensures var n, k := |x| as real, Positives(y) as real;
      var r := FitFrom(exp, x, y, l2, Zeros(1), 1);
      && r == [4.0 * k / n - 2.0]
      && (r[0] > 0.0 <==> 2 * Positives(y) > |y|)
  {
    hide Gradient, CurvatureRow, Solution;
    InterceptSums(exp, x, y, |x|);
    assert y[..|y|] == y;
    var n, k := |x| as real, Positives(y) as real;
    var w := Zeros(1);
    assert PenalisedGradient(exp, x, y, w, l2) == [n / 2.0 - k];
    assert Hessian(exp, x, w, l2) == [[n / 4.0]];
    OneByOne(n / 4.0, n / 2.0 - k);
    var step := NewtonStep(exp, x, y, w, l2);
    assert step == [(n / 2.0 - k) / (n / 4.0)];
    hide NewtonStep, MaxAbs;
    var next := Combine(1.0, w, step);
    assert next == [0.0 - (n / 2.0 - k) / (n / 4.0)];
    assert FitFrom(exp, x, y, l2, w, 1) == next by {
      OneIteration(exp, x, y, l2, w);
    }
    FirstValue(n, k);
  }

  lemma OneIteration(exp: Exp, x: Matrix, y: seq<Label>, l2: real, w: Vec)
    requires Positive(exp) && Design(x, |w|) && |x| == |y|
    ensures FitFrom(exp, x, y, l2, w, 1) == Combine(1.0, w, NewtonStep(exp, x, y, w, l2))
  {
    hide NewtonStep, MaxAbs;
    var next := Combine(1.0, w, NewtonStep(exp, x, y, w, l2));
    assert FitFrom(exp, x, y, l2, next, 0) == next;
  }

  lemma FirstValue(n: real, k: real)
    requires n > 0.0
    ensures 0.0 - (n / 2.0 - k) / (n / 4.0) == 4.0 * k / n - 2.0
    ensures 4.0 * k / n - 2.0 > 0.0 <==> 2.0 * k > n
  {
    var r := 4.0 * k / n - 2.0;
    assert r * n == 4.0 * k - 2.0 * n;
    assert (n / 2.0 - k) / (n / 4.0) * (n / 4.0) == n / 2.0 - k;
    assert (n / 2.0 - k) / (n / 4.0) * n == 2.0 * n - 4.0 * k;
    Cancelled(0.0 - (n / 2.0 - k) / (n / 4.0), r, n);
  }

  lemma Cancelled(a: real, b: real, n: real)
    requires n > 0.0 && a * n == b * n
    ensures a == b
  {
    assert (a - b) * n == 0.0;
  }
}
