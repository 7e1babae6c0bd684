/**
 The ridge-penalised logistic fit of model_eval.py: the gradient and Hessian its
 nested loops accumulate, and the Newton step built on the Gauss-Jordan solver.
 The exponential is a parameter; all that is used of it is that it is positive.
 */
module Logistic {
  import opened LinearSolve
  import opened Reals
  import opened RankAuc

  type Exp = real -> real

  ghost predicate Positive(exp: Exp) {
    forall t :: exp(t) > 0.0
  }

  /** The design: rows of one width, column 0 all ones. */
  ghost predicate Design(x: Matrix, d: nat) {
    d > 0 && forall i :: 0 <= i < |x| ==> |x[i]| == d && x[i][0] == 1.0
  }

  function Clip(z: real): real {
    if z < -30.0 then -30.0 else if z > 30.0 then 30.0 else z
  }

  function Sigmoid(exp: Exp, z: real): (p: real)
    requires Positive(exp)
    ensures 0.0 < p < 1.0
  {
    var e := exp(-Clip(z));
    assert e > 0.0;
    1.0 / (1.0 + e)
  }

  function Weight(p: real): (s: real)
    requires 0.0 < p < 1.0
    ensures s > 0.0
  {
    TimesSigns(p, 1.0 - p);
    Times(p, 1.0 - p)
  }

  // ------------------------------------------------- gradient and Hessian, by samples

  /** Column j of the gradient over the first m samples, before the penalty. */
  function Gradient(exp: Exp, x: Matrix, y: seq<Label>, w: Vec, m: nat): (g: Vec)
    requires Positive(exp) && Design(x, |w|) && m <= |x| == |y|
    ensures |g| == |w|
  {
    if m == 0 then Zeros(|w|)
    else
      Plus(Gradient(exp, x, y, w, m - 1), Sigmoid(exp, Dot(w, x[m - 1])) - y[m - 1] as real, x[m - 1])
  }

  /** Row j of the Hessian over the first m samples, before the penalty. */
  function CurvatureRow(exp: Exp, x: Matrix, w: Vec, j: nat, m: nat): (r: Vec)
    requires Positive(exp) && Design(x, |w|) && m <= |x| && j < |w|
    ensures |r| == |w|
  {
    if m == 0 then Zeros(|w|)
    else
      var s := Weight(Sigmoid(exp, Dot(w, x[m - 1])));
      Plus(CurvatureRow(exp, x, w, j, m - 1), Times(s, x[m - 1][j]), x[m - 1])
  }

  function Curvature(exp: Exp, x: Matrix, w: Vec, m: nat): (h: Matrix)
    requires Positive(exp) && Design(x, |w|) && m <= |x|
    ensures Square(h, |w|) && forall j :: 0 <= j < |w| ==> h[j] == CurvatureRow(exp, x, w, j, m)
  {
    seq(|w|, j requires 0 <= j < |w| => CurvatureRow(exp, x, w, j, m))
  }

  function PenalisedGradient(exp: Exp, x: Matrix, y: seq<Label>, w: Vec, l2: real): (g: Vec)
    requires Positive(exp) && Design(x, |w|) && |x| == |y|
    ensures |g| == |w|
  {
    var g := Gradient(exp, x, y, w, |x|);
    seq(|w|, j requires 0 <= j < |w| => if j == 0 then g[j] else g[j] + Times(l2, w[j]))
  }

  function HessianRow(exp: Exp, x: Matrix, w: Vec, l2: real, j: nat): (r: Vec)
    requires Positive(exp) && Design(x, |w|) && j < |w|
    ensures |r| == |w|
  {
    var r := CurvatureRow(exp, x, w, j, |x|);
    if j == 0 then r else r[j := r[j] + l2]
  }

  function Hessian(exp: Exp, x: Matrix, w: Vec, l2: real): (h: Matrix)
    requires Positive(exp) && Design(x, |w|)
    ensures Square(h, |w|)
  {
    seq(|w|, j requires 0 <= j < |w| => HessianRow(exp, x, w, l2, j))
  }

  // --------------------------------------------------------------- the nested loops

  /** row[k] += t * xi[k] for every k. */
  method AddScaled(row0: Vec, t: real, xi: Vec) returns (row: Vec)
    requires |row0| == |xi|
    ensures row == Plus(row0, t, xi)
  {
    row := row0;
    for k := 0 to |xi|
      invariant |row| == |xi|
      invariant forall i :: 0 <= i < k ==> row[i] == Plus(row0, t, xi)[i]
      invariant forall i :: k <= i < |xi| ==> row[i] == row0[i]
    {
      row := row[k := row[k] + Times(t, xi[k])];
    }
  }

  /** One sample of the accumulation: g[j] += r * xi[j]; h[j][k] += s * xi[j] * xi[k]. */
  method AddSample(g0: Vec, h0: Matrix, xi: Vec, r: real, s: real) returns (g: Vec, h: Matrix)
    requires |g0| == |xi| && Square(h0, |xi|)
    ensures g == Plus(g0, r, xi)
    ensures Square(h, |xi|) && forall j :: 0 <= j < |xi| ==> h[j] == Plus(h0[j], Times(s, xi[j]), xi)
  {
    hide Times;
    g, h := g0, h0;
    var d := |xi|;
    for j := 0 to d
      invariant |g| == d && Square(h, d)
      invariant forall i :: 0 <= i < j ==> g[i] == Plus(g0, r, xi)[i]
      invariant forall i :: j <= i < d ==> g[i] == g0[i] && h[i] == h0[i]
      invariant forall i :: 0 <= i < j ==> h[i] == Plus(h0[i], Times(s, xi[i]), xi)
    {
      g := g[j := g[j] + Times(r, xi[j])];
      var row := AddScaled(h[j], Times(s, xi[j]), xi);
      h := h[j := row];
    }
  }

  /** The ridge: every entry but the intercept's is penalised. */
  method AddPenalty(g0: Vec, h0: Matrix, w: Vec, l2: real) returns (g: Vec, h: Matrix)
    requires |g0| == |w| && Square(h0, |w|) && w != []
    ensures |g| == |w| && g[0] == g0[0] && forall j :: 1 <= j < |w| ==> g[j] == g0[j] + Times(l2, w[j])
    ensures Square(h, |w|) && h[0] == h0[0]
    ensures forall j :: 1 <= j < |w| ==> h[j] == h0[j][j := h0[j][j] + l2]
  {
    var d := |w|;
    g, h := g0, h0;
    for j := 1 to d
      invariant |g| == d && Square(h, d) && g[0] == g0[0] && h[0] == h0[0]
      invariant forall i :: 1 <= i < j ==> g[i] == g0[i] + Times(l2, w[i])
      invariant forall i :: 1 <= i < j ==> h[i] == h0[i][i := h0[i][i] + l2]
      invariant forall i :: j <= i < d ==> g[i] == g0[i] && h[i] == h0[i]
    {
      g := g[j := g[j] + Times(l2, w[j])];
      h := h[j := h[j][j := h[j][j] + l2]];
    }
  }

  /** g and h hold the sums over the first m samples. */
  ghost predicate Accumulated(exp: Exp, x: Matrix, y: seq<Label>, w: Vec, g: Vec, h: Matrix, m: nat)
    requires Positive(exp) && Design(x, |w|) && m <= |x| == |y|
  {
    && g == Gradient(exp, x, y, w, m)
    && Square(h, |w|)
    && forall j :: 0 <= j < |w| ==> h[j] == CurvatureRow(exp, x, w, j, m)
  }

  lemma AccumulatedNext(exp: Exp, x: Matrix, y: seq<Label>, w: Vec, g0: Vec, h0: Matrix, g: Vec, h: Matrix, m: nat)
    requires Positive(exp) && Design(x, |w|) && m < |x| == |y|
    requires Accumulated(exp, x, y, w, g0, h0, m) && Square(h, |w|)
    requires g == Plus(g0, Sigmoid(exp, Dot(w, x[m])) - y[m] as real, x[m])
    requires var s := Weight(Sigmoid(exp, Dot(w, x[m])));
      forall j :: 0 <= j < |w| ==> h[j] == Plus(h0[j], Times(s, x[m][j]), x[m])
    ensures Accumulated(exp, x, y, w, g, h, m + 1)
  {
    hide Dot, Sigmoid, Weight, Times, Plus, Gradient, CurvatureRow, Positive;
    GradientNext(exp, x, y, w, m);
    forall j | 0 <= j < |w| ensures h[j] == CurvatureRow(exp, x, w, j, m + 1) {
      CurvatureNext(exp, x, w, j, m);
    }
  }

  lemma GradientNext(exp: Exp, x: Matrix, y: seq<Label>, w: Vec, m: nat)
    requires Positive(exp) && Design(x, |w|) && m < |x| == |y|
    ensures Gradient(exp, x, y, w, m + 1)
         == Plus(Gradient(exp, x, y, w, m), Sigmoid(exp, Dot(w, x[m])) - y[m] as real, x[m])
  {
    hide Dot, Sigmoid, Plus;
  }

  lemma CurvatureNext(exp: Exp, x: Matrix, w: Vec, j: nat, m: nat)
    requires Positive(exp) && Design(x, |w|) && m < |x| && j < |w|
    ensures CurvatureRow(exp, x, w, j, m + 1)
         == Plus(CurvatureRow(exp, x, w, j, m), Times(Weight(Sigmoid(exp, Dot(w, x[m]))), x[m][j]), x[m])
  {
    hide Dot, Sigmoid, Weight, Times, Plus;
  }

  function ZeroMatrix(d: nat): (h: Matrix)
    ensures Square(h, d) && forall j :: 0 <= j < d ==> h[j] == Zeros(d)
  {
    seq(d, _ => Zeros(d))
  }

  /** The loop over the samples. */
  method AccumulateSamples(exp: Exp, x: Matrix, y: seq<Label>, w: Vec) returns (g: Vec, h: Matrix)
    requires Positive(exp) && Design(x, |w|) && |x| == |y|
    ensures Accumulated(exp, x, y, w, g, h, |x|)
  {
    g, h := Zeros(|w|), ZeroMatrix(|w|);
    assert Accumulated(exp, x, y, w, g, h, 0);
    hide *;
    for i := 0 to |x|
      invariant Accumulated(exp, x, y, w, g, h, i)
    {
      assert |g| == |w| && Square(h, |w|) && |x[i]| == |w| by {
        AccumulatedShape(exp, x, y, w, g, h, i);
      }
      var p := Sigmoid(exp, Dot(w, x[i]));
      var g1, h1 := AddSample(g, h, x[i], p - y[i] as real, Weight(p));
      AccumulatedNext(exp, x, y, w, g, h, g1, h1, i);
      g, h := g1, h1;
    }
  }

  lemma AccumulatedShape(exp: Exp, x: Matrix, y: seq<Label>, w: Vec, g: Vec, h: Matrix, m: nat)
    requires Positive(exp) && Design(x, |w|) && m < |x| == |y| && Accumulated(exp, x, y, w, g, h, m)
    ensures |g| == |w| && Square(h, |w|) && |x[m]| == |w|
  {
  }

  /** The body of one fit_logistic iteration up to the solve. */
  method Accumulate(exp: Exp, x: Matrix, y: seq<Label>, w: Vec, l2: real) returns (g: Vec, h: Matrix)
    requires Positive(exp) && Design(x, |w|) && |x| == |y|
    ensures g == PenalisedGradient(exp, x, y, w, l2)
    ensures h == Hessian(exp, x, w, l2)
  {
    hide Gradient, CurvatureRow, Times;
    g, h := AccumulateSamples(exp, x, y, w);
    g, h := AddPenalty(g, h, w, l2);
    assert h == Hessian(exp, x, w, l2);
  }

  // --------------------------------------------------------- symmetric positive definite

  lemma {:induction false} CurvatureSymmetric(exp: Exp, x: Matrix, w: Vec, j: nat, k: nat, m: nat)
    requires Positive(exp) && Design(x, |w|) && m <= |x| && j < |w| && k < |w|
    ensures CurvatureRow(exp, x, w, j, m)[k] == CurvatureRow(exp, x, w, k, m)[j]
  {
    if m > 0 {
      CurvatureSymmetric(exp, x, w, j, k, m - 1);
      var s, a := Weight(Sigmoid(exp, Dot(w, x[m - 1]))), x[m - 1];
      TimesFacts(a[j], s, a[j], a[k], 0.0);
      TimesFacts(a[k], s, a[k], a[j], 0.0);
      TimesFacts(a[j], s, a[k], a[k], 0.0);
    }
  }

  lemma HessianSymmetric(exp: Exp, x: Matrix, w: Vec, l2: real, j: nat, k: nat)
    requires Positive(exp) && Design(x, |w|) && j < |w| && k < |w|
    ensures Hessian(exp, x, w, l2)[j][k] == Hessian(exp, x, w, l2)[k][j]
  {
    hide CurvatureRow;
    CurvatureSymmetric(exp, x, w, j, k, |x|);
  }

  /** The curvature along v: a weighted sum of squared projections. */
  function Energy(exp: Exp, x: Matrix, w: Vec, v: Vec, m: nat): (e: real)
    requires Positive(exp) && Design(x, |w|) && m <= |x| && |v| == |w|
    ensures e >= 0.0
  {
    if m == 0 then 0.0
    else
      var t := Dot(x[m - 1], v);
      TimesSigns(Weight(Sigmoid(exp, Dot(w, x[m - 1]))), Square2(t));
      TimesZero(Weight(Sigmoid(exp, Dot(w, x[m - 1]))), Square2(t));
      Energy(exp, x, w, v, m - 1) + Times(Weight(Sigmoid(exp, Dot(w, x[m - 1]))), Square2(t))
  }

  function Square2(t: real): (r: real)
    ensures r >= 0.0 && (r == 0.0 <==> t == 0.0)
  {
    TimesSigns(t, t);
    TimesZero(t, t);
    Times(t, t)
  }

  function Apply(h: Matrix, v: Vec): (r: Vec)
    requires Square(h, |v|)
    ensures |r| == |v| && forall j :: 0 <= j < |v| ==> r[j] == Dot(h[j], v)
  {
    seq(|v|, j requires 0 <= j < |v| => Dot(h[j], v))
  }

  lemma {:induction false} CurvatureEnergy(exp: Exp, x: Matrix, w: Vec, v: Vec, m: nat)
    requires Positive(exp) && Design(x, |w|) && m <= |x| && |v| == |w|
    ensures Dot(Apply(Curvature(exp, x, w, m), v), v) == Energy(exp, x, w, v, m)
  {
    hide Dot, Sigmoid, Weight, Times;
    var hv := Apply(Curvature(exp, x, w, m), v);
    if m == 0 {
      forall j | 0 <= j < |w| ensures hv[j] == 0.0 {
        DotZero(Zeros(|w|), v);
      }
      DotZero(hv, v);
    } else {
      var s, t := Weight(Sigmoid(exp, Dot(w, x[m - 1]))), Dot(x[m - 1], v);
      var before := Apply(Curvature(exp, x, w, m - 1), v);
      forall j | 0 <= j < |w| ensures hv[j] == before[j] + Times(Times(s, t), x[m - 1][j]) {
        RankOneRow(CurvatureRow(exp, x, w, j, m - 1), x[m - 1], s, j, v);
      }
      CurvatureEnergy(exp, x, w, v, m - 1);
      hide *;
      RankOneEnergy(before, hv, x[m - 1], s, v);
      EnergyStep(exp, x, w, v, m);
    }
  }

  lemma EnergyStep(exp: Exp, x: Matrix, w: Vec, v: Vec, m: nat)
    requires Positive(exp) && Design(x, |w|) && 0 < m <= |x| && |v| == |w|
    ensures Energy(exp, x, w, v, m)
         == Energy(exp, x, w, v, m - 1) + Times(Weight(Sigmoid(exp, Dot(w, x[m - 1]))), Square2(Dot(x[m - 1], v)))
  {
    hide Dot, Sigmoid, Weight, Square2;
  }

  /** A row gains s * a[j] * a, so its product with v gains s * (a . v) * a[j]. */
  lemma RankOneRow(row: Vec, a: Vec, s: real, j: nat, v: Vec)
    requires j < |row| == |a| == |v|
    ensures Dot(Plus(row, Times(s, a[j]), a), v) == Dot(row, v) + Times(Times(s, Dot(a, v)), a[j])
  {
    hide Dot, Times;
    var t := Dot(a, v);
    DotPlus(row, Times(s, a[j]), a, v);
    TimesFacts(t, s, a[j], t, 0.0);
    TimesFacts(a[j], s, t, a[j], 0.0);
    TimesFacts(t, s, a[j], a[j], 0.0);
  }

  lemma RankOneEnergy(before: Vec, after: Vec, a: Vec, s: real, v: Vec)
    requires |before| == |after| == |a| == |v|
    requires forall j :: 0 <= j < |v| ==> after[j] == before[j] + Times(Times(s, Dot(a, v)), a[j])
    ensures Dot(after, v) == Dot(before, v) + Times(s, Square2(Dot(a, v)))
  {
    hide Dot, Times;
    var t := Dot(a, v);
    TimesFacts(t, s, t, t, 0.0);
    assert after == Plus(before, Times(s, t), a);
    DotPlus(before, Times(s, t), a, v);
  }

  /** v' H v is the energy of v plus l2 times the squares of all but the intercept. */
  lemma HessianEnergy(exp: Exp, x: Matrix, w: Vec, l2: real, v: Vec)
    requires Positive(exp) && Design(x, |w|) && |v| == |w|
    ensures Dot(Apply(Hessian(exp, x, w, l2), v), v) == Energy(exp, x, w, v, |x|) + Times(l2, Dot(v[1..], v[1..]))
  {
    forall j | 0 <= j < |w|
      ensures Apply(Hessian(exp, x, w, l2), v)[j]
           == Apply(Curvature(exp, x, w, |x|), v)[j] + (if j == 0 then 0.0 else Times(l2, v[j]))
    {
      HessianRowApplied(exp, x, w, l2, v, j);
    }
    CurvatureEnergy(exp, x, w, v, |x|);
    hide *;
    RidgeEnergy(Apply(Curvature(exp, x, w, |x|), v), Apply(Hessian(exp, x, w, l2), v), l2, v);
  }

  lemma HessianRowApplied(exp: Exp, x: Matrix, w: Vec, l2: real, v: Vec, j: nat)
    requires Positive(exp) && Design(x, |w|) && |v| == |w| && j < |w|
    ensures Apply(Hessian(exp, x, w, l2), v)[j]
         == Apply(Curvature(exp, x, w, |x|), v)[j] + (if j == 0 then 0.0 else Times(l2, v[j]))
  {
    hide CurvatureRow, Dot, Times;
    RaiseEntry(CurvatureRow(exp, x, w, j, |x|), j, l2, v);
  }

  lemma RidgeEnergy(before: Vec, after: Vec, l2: real, v: Vec)
    requires |before| == |after| == |v| > 0
    requires forall j :: 0 <= j < |v| ==> after[j] == before[j] + (if j == 0 then 0.0 else Times(l2, v[j]))
    ensures Dot(after, v) == Dot(before, v) + Times(l2, Dot(v[1..], v[1..]))
  {
    hide Dot, Times;
    DotHead(after, v);
    DotHead(before, v);
    assert after[1..] == Plus(before[1..], l2, v[1..]);
    DotPlus(before[1..], l2, v[1..], v[1..]);
  }

  lemma {:induction false} SelfDot(v: Vec)
    ensures Dot(v, v) >= 0.0
    ensures Dot(v, v) == 0.0 ==> forall j :: 0 <= j < |v| ==> v[j] == 0.0
  {
    if v != [] {
      hide Times;
      assert Square2(v[0]) == Times(v[0], v[0]);
      SelfDot(v[1..]);
      assert forall j :: 1 <= j < |v| ==> v[j] == v[1..][j - 1];
    }
  }

  /** Positive definite, whatever the weights and the (non-empty) design. */
  lemma HessianPositiveDefinite(exp: Exp, x: Matrix, w: Vec, l2: real, v: Vec)
    requires Positive(exp) && Design(x, |w|) && x != [] && l2 > 0.0 && |v| == |w|
    requires exists j :: 0 <= j < |v| && v[j] != 0.0
    ensures Dot(Apply(Hessian(exp, x, w, l2), v), v) > 0.0
  {
    hide Dot, Sigmoid, Weight, Energy, Hessian, Square2, Times;
    HessianEnergy(exp, x, w, l2, v);
    SelfDot(v[1..]);
    if Dot(v[1..], v[1..]) == 0.0 {
      TimesZero(l2, 0.0);
      assert forall j :: 1 <= j < |v| ==> v[j] == v[1..][j - 1] == 0.0;
      InterceptOnly(x[|x| - 1], v);
      EnergyStep(exp, x, w, v, |x|);
      TimesSigns(Weight(Sigmoid(exp, Dot(w, x[|x| - 1]))), Square2(v[0]));
    } else {
      TimesSigns(l2, Dot(v[1..], v[1..]));
    }
  }

  lemma InterceptOnly(a: Vec, v: Vec)
    requires |a| == |v| > 0 && a[0] == 1.0 && forall j :: 1 <= j < |v| ==> v[j] == 0.0
    ensures Dot(a, v) == v[0]
  {
    DotZero(a[1..], v[1..]);
  }

  // --------------------------------------------------------------------- Newton step

  lemma HessianInjective(exp: Exp, x: Matrix, w: Vec, l2: real)
    requires Positive(exp) && Design(x, |w|) && x != [] && l2 > 0.0
    ensures Injective(Hessian(exp, x, w, l2), |w|)
  {
    hide Hessian, Dot;
    var h := Hessian(exp, x, w, l2);
    forall v: Vec | |v| == |w| && forall i :: 0 <= i < |w| ==> Dot(h[i], v) == 0.0
      ensures forall j :: 0 <= j < |w| ==> v[j] == 0.0
    {
      DotZero(Apply(h, v), v);
      if exists j :: 0 <= j < |v| && v[j] != 0.0 {
        HessianPositiveDefinite(exp, x, w, l2, v);
        assert false;
      }
    }
  }

  /** Every Newton system of the fit has exactly one solution. */
  lemma NewtonSystemSolvable(exp: Exp, x: Matrix, y: seq<Label>, w: Vec, l2: real) returns (step: Vec)
    requires Positive(exp) && Design(x, |w|) && |x| == |y| && x != [] && l2 > 0.0
    ensures var g, h := PenalisedGradient(exp, x, y, w, l2), Hessian(exp, x, w, l2);
      Solves(h, g, step) && forall t :: Solves(h, g, t) ==> t == step
  {
    HessianInjective(exp, x, w, l2);
    step := InjectiveSolvable(Hessian(exp, x, w, l2), PenalisedGradient(exp, x, y, w, l2));
  }

  function NewtonStep(exp: Exp, x: Matrix, y: seq<Label>, w: Vec, l2: real): (step: Vec)
    requires Positive(exp) && Design(x, |w|) && |x| == |y|
    ensures |step| == |w|
  {
    Solution(Hessian(exp, x, w, l2), PenalisedGradient(exp, x, y, w, l2))
  }

  /** Subtracting an unclamped step goes downhill: it has a positive product with the gradient. */
  lemma NewtonStepDescends(exp: Exp, x: Matrix, y: seq<Label>, w: Vec, l2: real)
    requires Positive(exp) && Design(x, |w|) && |x| == |y| && x != [] && l2 > 0.0
    requires forall c :: 0 <= c < |w| ==>
      !Clamped(Hessian(exp, x, w, l2), PenalisedGradient(exp, x, y, w, l2), c)
    requires exists j :: 0 <= j < |w| && PenalisedGradient(exp, x, y, w, l2)[j] != 0.0
    ensures Dot(PenalisedGradient(exp, x, y, w, l2), NewtonStep(exp, x, y, w, l2)) > 0.0
  {
    hide Dot, Hessian, PenalisedGradient, Solution;
    var g, h, step := PenalisedGradient(exp, x, y, w, l2), Hessian(exp, x, w, l2), NewtonStep(exp, x, y, w, l2);
    UnclampedUnique(h, g, step);
    assert Apply(h, step) == g;
    if forall j :: 0 <= j < |w| ==> step[j] == 0.0 {
      var j :| 0 <= j < |w| && g[j] != 0.0;
      DotZero(h[j], step);
      assert false;
    }
    HessianPositiveDefinite(exp, x, w, l2, step);
  }

  function MaxAbs(v: Vec): (r: real)
    ensures r >= 0.0 && forall j :: 0 <= j < |v| ==> Abs(v[j]) <= r
  {
    if v == [] then 0.0
    else
      var r := MaxAbs(v[1..]);
      assert forall j :: 1 <= j < |v| ==> v[j] == v[1..][j - 1];
      if Abs(v[0]) > r then Abs(v[0]) else r
  }

  const STEP_TOLERANCE := 0.000001

  /** The weights after at most k more Newton updates, stopping after a negligible one. */
  function FitFrom(exp: Exp, x: Matrix, y: seq<Label>, l2: real, w: Vec, k: nat): (r: Vec)
    requires Positive(exp) && Design(x, |w|) && |x| == |y|
    ensures |r| == |w|
    decreases k
  {
    if k == 0 then w
    else
      var step := NewtonStep(exp, x, y, w, l2);
      var next := Combine(1.0, w, step);
      if MaxAbs(step) < STEP_TOLERANCE then next else FitFrom(exp, x, y, l2, next, k - 1)
  }

  /** model_eval.fit_logistic */
  method FitLogistic(exp: Exp, x: Matrix, y: seq<Label>, l2: real, iters: nat) returns (w: Vec)
    requires x != [] && Positive(exp) && Design(x, |x[0]|) && |x| == |y|
    ensures w == FitFrom(exp, x, y, l2, Zeros(|x[0]|), iters)
  {
    hide Hessian, PenalisedGradient, Solution, Combine, MaxAbs;
    var d := |x[0]|;
    w := Zeros(d);
    for i := 0 to iters
      invariant |w| == d
      invariant FitFrom(exp, x, y, l2, w, iters - i) == FitFrom(exp, x, y, l2, Zeros(d), iters)
    {
      var g, h := Accumulate(exp, x, y, w, l2);
      var step := Solve(h, g);
      w := Combine(1.0, w, step);
      if MaxAbs(step) < STEP_TOLERANCE {
        break;
      }
    }
  }
}
