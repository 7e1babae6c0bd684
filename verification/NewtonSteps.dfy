/**
 When every Newton step of the logistic fit is exact: a pivot of the Gauss-Jordan elimination is
 never smaller than the least curvature of the matrix over its size, so a curvature matrix that
 is bounded below by enough is never clamped.
 */
module NewtonSteps {
  import opened LinearSolve
  import opened Logistic
  import opened Reals
  import opened RankAuc

  /** v' a v is at least mu times the squared length of v. */
  ghost predicate Coercive(a: Matrix, mu: real)
    requires Square(a, |a|)
  {
    forall v: Vec | |v| == |a| :: Dot(Apply(a, v), v) >= Times(mu, Dot(v, v))
  }

  // ------------------------------------------------------------- a vector that shows the pivot

  /** Zero but for the columns up to c, and 1 at c: it meets the first c reduced rows. */
  function Probe(r: Matrix, n: nat, c: nat): (z: Vec)
    requires Shape(r, n) && c < n && Diagonal(r, n, c)
    ensures |z| == n
  {
    seq(n, j requires 0 <= j < n => if j < c then -(r[j][c] / r[j][j]) else if j == c then 1.0 else 0.0)
  }

  lemma DotOne(a: Vec, z: Vec, c: nat)
    requires |a| == |z| && c < |a|
    requires forall j :: 0 <= j < |a| && j != c ==> a[j] == 0.0 || z[j] == 0.0
    ensures Dot(a, z) == Times(a[c], z[c])
  {
    hide Dot;
    DotUpdate(a, c, 0.0, z);
    DotZero(a[c := 0.0], z);
  }

  lemma ProbeRow(r: Matrix, n: nat, c: nat, i: nat)
    requires Shape(r, n) && c < n && Diagonal(r, n, c) && i < n
    ensures Dot(r[i], Probe(r, n, c) + [0.0]) == if i < c then 0.0 else r[i][c]
  {
    hide Dot;
    var z := Probe(r, n, c) + [0.0];
    if i < c {
      DotTwo(r[i], z, i, c);
      Undone(r[i][i], r[i][c]);
    } else {
      DotOne(r[i], z, c);
    }
  }

  lemma Undone(p: real, q: real)
    requires p != 0.0
    ensures Times(p, -(q / p)) + Times(q, 1.0) == 0.0
  {
  }

  /** What the probe leaves of each row. */
  function Leftover(r: Matrix, n: nat, c: nat): (d: Vec)
    requires Shape(r, n) && c < n
    ensures |d| == n && forall i :: 0 <= i < c ==> d[i] == 0.0
  {
    seq(n, i requires 0 <= i < n => if i < c then 0.0 else -r[i][c])
  }

  lemma ProbeZero(r: Matrix, n: nat, c: nat)
    requires Shape(r, n) && c < n && Diagonal(r, n, c)
    ensures Zero(r, n, Probe(r, n, c) + [0.0], Leftover(r, n, c))
  {
    hide Dot;
    forall i | 0 <= i < n ensures Dot(r[i], Probe(r, n, c) + [0.0]) + Leftover(r, n, c)[i] == 0.0 {
      ProbeRow(r, n, c, i);
    }
  }

  /** The size of the pivot chosen in column c. */
  function PivotSize(a: Matrix, c: nat): (p: real)
    requires Square(a, |a|) && c < |a|
    ensures p >= 0.0
    ensures ClampsColumn(a, c) <==> p < TINY
  {
    Abs(ChosenPivot(Augment(a, Zeros(|a|)), |a|, c))
  }

  function ProbeOf(a: Matrix, c: nat): (z: Vec)
    requires Square(a, |a|) && c < |a|
    ensures |z| == |a| && z[c] == 1.0
  {
    var m := Augment(a, Zeros(|a|));
    ReduceDiagonal(m, |a|, c);
    Probe(Reduce(m, |a|, c), |a|, c)
  }

  /** With the columns before c unclamped, no row of the matrix takes the probe beyond the pivot. */
  lemma ProbeBound(a: Matrix, c: nat, k: nat)
    requires Square(a, |a|) && c < |a| && k < |a|
    requires forall j | 0 <= j < c :: !ClampsColumn(a, j)
    ensures Abs(Dot(a[k], ProbeOf(a, c))) <= PivotSize(a, c)
  {
    hide Dot, Reduce, Order, Shift, Pivot, Probe, Zero, Augment, ClampedPivot;
    var n := |a|;
    var m := Augment(a, Zeros(n));
    var r := Reduce(m, n, c);
    ReduceDiagonal(m, n, c);
    var z, d := Probe(r, n, c), Leftover(r, n, c);
    ProbeZero(r, n, c);
    ReduceKeeps(m, n, c, z + [0.0], d);
    OrderCovers(m, n, c, k);
    var i :| 0 <= i < n && Order(m, n, c)[i] == k;
    assert i < c ==> !ClampsColumn(a, i) && Shift(m, n, i) == 0.0;
    RowOfPerturbed(a, c, i, z, d);
  }

  lemma RowOfPerturbed(a: Matrix, c: nat, i: nat, z: Vec, d: Vec)
    requires Square(a, |a|) && c <= |a| && i < |a| && |z| == |d| == |a|
    requires var m := Augment(a, Zeros(|a|));
      Zero(Perturbed(m, |a|, c), |a|, z + [0.0], d) && (i < c ==> Shift(m, |a|, i) == 0.0)
    ensures Dot(a[Order(Augment(a, Zeros(|a|)), |a|, c)[i]], z) == -d[i]
  {
    hide Dot, Reduce, Order, Shift;
    var n := |a|;
    var m := Augment(a, Zeros(n));
    var k := Order(m, n, c)[i];
    assert m[k] == a[k] + [0.0];
    assert Perturbed(m, n, c)[i] == m[k];
    DotAppend(a[k], z, 0.0, 0.0);
  }

  // ------------------------------------------------------------- a pivot is never too small

  lemma {:induction false} DotBelow(u: Vec, z: Vec, bound: real)
    requires |u| == |z| && forall k | 0 <= k < |u| :: Times(u[k], z[k]) <= bound
    ensures Dot(u, z) <= Times(|u| as real, bound)
  {
    hide Times;
    if u == [] {
      TimesZero(0.0, bound);
    } else {
      forall k | 0 <= k < |u[1..]| ensures Times(u[1..][k], z[1..][k]) <= bound {
        assert Times(u[k + 1], z[k + 1]) <= bound;
      }
      DotBelow(u[1..], z[1..], bound);
      Distributes(|u[1..]| as real, bound);
    }
  }

  lemma Distributes(n: real, b: real)
    ensures Times(n + 1.0, b) == Times(n, b) + b
  {
  }

  lemma {:induction false} EntryBelow(z: Vec, j: nat)
    requires j < |z|
    ensures Times(z[j], z[j]) <= Dot(z, z)
  {
    hide Times;
    SelfDot(z[1..]);
    TimesSigns(z[0], z[0]);
    if j > 0 {
      EntryBelow(z[1..], j - 1);
    }
  }

  lemma BoundedProduct(u: real, z: real, p: real, s: real)
    requires Abs(u) <= p && s >= 1.0 && Times(z, z) <= s
    ensures Times(u, z) <= Times(p, s)
  {
    hide Times;
    SizeBelow(z, s);
    ProductBelow(Abs(u), Abs(z), p, s);
    TimesAbs(u, z);
  }

  lemma SizeBelow(z: real, s: real)
    requires s >= 1.0 && Times(z, z) <= s
    ensures Abs(z) <= s
  {
    if Abs(z) > 1.0 {
      Bigger(Abs(z));
      if z < 0.0 {
        assert Abs(z) * Abs(z) == z * z;
      }
    }
  }

  lemma TimesAbs(u: real, z: real)
    ensures Times(u, z) <= Times(Abs(u), Abs(z))
  {
    if u < 0.0 && z < 0.0 {
      assert u * z == (-u) * (-z);
    } else if u < 0.0 {
      assert u * z <= 0.0;
    } else if z < 0.0 {
      assert u * z <= 0.0;
    }
  }

  lemma Bigger(t: real)
    requires t > 1.0
    ensures t * t >= t
  {
  }

  lemma ProductBelow(u: real, z: real, p: real, s: real)
    requires 0.0 <= u <= p && 0.0 <= z <= s
    ensures Times(u, z) <= Times(p, s)
  {
    hide Times;
    TimesOrders(u, p, z);
    TimesOrders(z, s, p);
    TimesFacts(z, 0.0, p, 0.0, 0.0);
    TimesFacts(s, 0.0, p, 0.0, 0.0);
  }

  lemma EnergyBelow(a: Matrix, z: Vec, c: nat, p: real)
    requires Square(a, |a|) && |z| == |a| && c < |a| && z[c] == 1.0
    requires forall k | 0 <= k < |a| :: Abs(Dot(a[k], z)) <= p
    ensures Dot(z, z) >= 1.0 && Dot(Apply(a, z), z) <= Times(|a| as real, Times(p, Dot(z, z)))
  {
    hide Dot, Times, Abs;
    EntryBelow(z, c);
    OneSquared();
    forall k | 0 <= k < |a| ensures Times(Apply(a, z)[k], z[k]) <= Times(p, Dot(z, z)) {
      EntryBelow(z, k);
      BoundedProduct(Dot(a[k], z), z[k], p, Dot(z, z));
    }
    DotBelow(Apply(a, z), z, Times(p, Dot(z, z)));
  }

  /** The pivot of a column is at least the curvature bound over the size of the matrix. */
  lemma PivotAtLeast(a: Matrix, c: nat, mu: real)
    requires Square(a, |a|) && Coercive(a, mu) && c < |a|
    requires forall j | 0 <= j < c :: !ClampsColumn(a, j)
    ensures mu <= Times(|a| as real, PivotSize(a, c))
  {
    hide Dot, PivotSize, ClampsColumn, ProbeOf, Times, Abs, Apply;
    var z := ProbeOf(a, c);
    forall k | 0 <= k < |a| ensures Abs(Dot(a[k], z)) <= PivotSize(a, c) {
      ProbeBound(a, c, k);
    }
    EnergyBelow(a, z, c, PivotSize(a, c));
    Comparison(mu, |a| as real, PivotSize(a, c), Dot(z, z));
  }

  lemma OneSquared()
    ensures Times(1.0, 1.0) == 1.0
  {
  }

  lemma Comparison(mu: real, n: real, p: real, s: real)
    requires Times(mu, s) <= Times(n, Times(p, s)) && s >= 1.0
    ensures mu <= Times(n, p)
  {
    hide Times;
    TimesFacts(0.0, n, p, s, 0.0);
    TimesOrders(Times(n, p), mu, s);
  }

  /** A matrix whose curvature is at least its size times the smallest pivot is never clamped. */
  lemma {:induction false} CoerciveUnclamped(a: Matrix, mu: real, c: nat)
    requires Square(a, |a|) && Coercive(a, mu) && mu >= |a| as real * TINY && c <= |a|
    ensures forall j | 0 <= j < c :: !ClampsColumn(a, j)
  {
    hide Coercive, PivotSize, ClampsColumn;
    if c > 0 {
      CoerciveUnclamped(a, mu, c - 1);
      PivotAtLeast(a, c - 1, mu);
      Cancel(|a| as real, mu, TINY, PivotSize(a, c - 1));
    }
  }

  lemma Cancel(n: real, mu: real, t: real, p: real)
    requires n > 0.0 && n * t <= mu <= Times(n, p)
    ensures t <= p
  {
  }

  /** Then the solver returns the one solution of every system with that matrix. */
  lemma CoerciveSolved(a: Matrix, mu: real, b: Vec, x: Vec)
    requires Square(a, |a|) && Coercive(a, mu) && mu >= |a| as real * TINY && |b| == |x| == |a|
    ensures Solves(a, b, x) <==> x == Solution(a, b)
  {
    hide Coercive, ClampsColumn, Clamped, Dot, Solution;
    CoerciveUnclamped(a, mu, |a|);
    forall c | 0 <= c < |b| ensures !Clamped(a, b, c) {
      ClampedByMatrix(a, b, c);
    }
    UnclampedUnique(a, b, x);
  }

  // ------------------------------------------------------------- the curvature of the fit

  lemma CauchySchwarz(a: Vec, v: Vec)
    requires |a| == |v|
    ensures Square2(Dot(a, v)) <= Times(Dot(a, a), Dot(v, v))
  {
    hide Dot, Times;
    var x, y, c := Dot(a, a), Dot(v, v), Dot(a, v);
    SelfDot(v);
    if y == 0.0 {
      DotZero(a, v);
      TimesZero(x, 0.0);
    } else {
      var k := c / y;
      var u := Plus(a, -k, v);
      DotPlus(a, -k, v, u);
      DotPlus(a, -k, v, a);
      DotPlus(a, -k, v, v);
      DotCommutes(a, u);
      DotCommutes(v, u);
      DotCommutes(v, a);
      SelfDot(u);
      Projected(x, y, c);
    }
  }

  lemma Projected(x: real, y: real, c: real)
    requires y > 0.0
    requires var k := c / y; (x + Times(-k, c)) + Times(-k, c + Times(-k, y)) >= 0.0
    ensures Square2(c) <= Times(x, y)
  {
    var k := c / y;
    assert k * y == c;
    assert c - k * y == 0.0;
    assert x - k * c >= 0.0;
    assert (x - k * c) * y >= 0.0;
    assert (x - k * c) * y == x * y - k * y * c;
  }

  /** The sum of the sample weights p (1 - p). */
  function TotalWeight(exp: Exp, x: Matrix, w: Vec, m: nat): real
    requires Positive(exp) && Design(x, |w|) && m <= |x|
  {
    if m == 0 then 0.0 else TotalWeight(exp, x, w, m - 1) + Weight(Sigmoid(exp, Dot(w, x[m - 1])))
  }

  /** No sample's features, the constant aside, have a squared length above q. */
  ghost predicate Bounded(x: Matrix, d: nat, q: real)
    requires Design(x, d)
  {
    forall i | 0 <= i < |x| :: Dot(x[i][1..], x[i][1..]) <= q
  }

  /** What a sample of weight one adds at least, for the squares of the intercept and of the rest. */
  function Gain(first: real, q: real, rest: real): real {
    first / 2.0 - Times(q, rest)
  }

  lemma SquareOfSum(v: real, u: real)
    ensures Square2(v + u) >= Square2(v) / 2.0 - Square2(u)
  {
    assert (v + u) * (v + u) == v * v + 2.0 * (v * u) + u * u;
    assert (v + 2.0 * u) * (v + 2.0 * u) == v * v + 4.0 * (v * u) + 4.0 * (u * u);
    assert Square2(v + 2.0 * u) >= 0.0;
  }

  lemma SampleEnergy(a: Vec, v: Vec, q: real)
    requires |a| == |v| > 0 && a[0] == 1.0 && Dot(a[1..], a[1..]) <= q
    ensures Square2(Dot(a, v)) >= Gain(Square2(v[0]), q, Dot(v[1..], v[1..]))
  {
    hide Dot, Square2, Times;
    DotHead(a, v);
    assert Times(1.0, v[0]) == v[0] by {
      OneTimes(v[0]);
    }
    CauchySchwarz(a[1..], v[1..]);
    SelfDot(v[1..]);
    TimesOrders(Dot(a[1..], a[1..]), q, Dot(v[1..], v[1..]));
    SquareOfSum(v[0], Dot(a[1..], v[1..]));
  }

  lemma OneTimes(v: real)
    ensures Times(1.0, v) == v
  {
  }

  lemma {:induction false} EnergyAtLeast(exp: Exp, x: Matrix, w: Vec, v: Vec, q: real, m: nat)
    requires Positive(exp) && Design(x, |w|) && m <= |x| && |v| == |w| && Bounded(x, |w|, q)
    ensures Energy(exp, x, w, v, m)
         >= Times(TotalWeight(exp, x, w, m), Gain(Square2(v[0]), q, Dot(v[1..], v[1..])))
  {
    hide Dot, Sigmoid, Weight, Square2, Times, Energy, Gain;
    var k := Gain(Square2(v[0]), q, Dot(v[1..], v[1..]));
    if m == 0 {
      TimesZero(0.0, k);
    } else {
      var s := Weight(Sigmoid(exp, Dot(w, x[m - 1])));
      EnergyAtLeast(exp, x, w, v, q, m - 1);
      EnergyStep(exp, x, w, v, m);
      SampleEnergy(x[m - 1], v, q);
      TimesOrders(k, Square2(Dot(x[m - 1], v)), s);
      TimesFacts(TotalWeight(exp, x, w, m - 1), 0.0, s, k, 0.0);
      TimesFacts(s, 0.0, k, 0.0, 0.0);
      TimesFacts(s, 0.0, Square2(Dot(x[m - 1], v)), 0.0, 0.0);
    }
  }

  /** The total weight and the penalty carry a curvature of mu. */
  predicate Suffices(mu: real, weight: real, l2: real, q: real) {
    mu >= 0.0 && 2.0 * mu <= weight && mu * (1.0 + 2.0 * q) <= l2
  }

  lemma Balance(e: real, weight: real, l2: real, mu: real, q: real, first: real, rest: real)
    requires e >= 0.0 && e >= Times(weight, Gain(first, q, rest)) && first >= 0.0 && rest >= 0.0
    requires Suffices(mu, weight, l2, q)
    ensures e + Times(l2, rest) >= Times(mu, first + rest)
  {
    var k := Gain(first, q, rest);
    assert e >= 2.0 * mu * k by {
      if k >= 0.0 {
        assert 2.0 * mu * k <= weight * k;
      } else {
        assert mu * k <= 0.0;
      }
    }
    assert mu * (1.0 + 2.0 * q) * rest <= l2 * rest;
    assert 2.0 * mu * k == mu * first - 2.0 * mu * q * rest;
    assert mu * (1.0 + 2.0 * q) * rest == mu * rest + 2.0 * mu * q * rest;
  }

  /** The penalised curvature matrix is bounded below by what weights and penalty allow. */
  lemma HessianCoercive(exp: Exp, x: Matrix, w: Vec, l2: real, q: real, mu: real)
    requires Positive(exp) && Design(x, |w|) && Bounded(x, |w|, q)
    requires Suffices(mu, TotalWeight(exp, x, w, |x|), l2, q)
    ensures Coercive(Hessian(exp, x, w, l2), mu)
  {
    hide Dot, Times, Energy, Hessian, Apply, TotalWeight, Bounded, Suffices;
    var h := Hessian(exp, x, w, l2);
    forall v: Vec | |v| == |h| ensures Dot(Apply(h, v), v) >= Times(mu, Dot(v, v)) {
      CurvedAlong(exp, x, w, l2, q, mu, v);
    }
  }

  lemma CurvedAlong(exp: Exp, x: Matrix, w: Vec, l2: real, q: real, mu: real, v: Vec)
    requires Positive(exp) && Design(x, |w|) && Bounded(x, |w|, q) && |v| == |w|
    requires Suffices(mu, TotalWeight(exp, x, w, |x|), l2, q)
    ensures Dot(Apply(Hessian(exp, x, w, l2), v), v) >= Times(mu, Dot(v, v))
  {
    hide Dot, Square2, Times, Energy, Hessian, Apply, TotalWeight, Bounded, Suffices, Gain;
    var first, rest := Square2(v[0]), Dot(v[1..], v[1..]);
    HessianEnergy(exp, x, w, l2, v);
    EnergyAtLeast(exp, x, w, v, q, |x|);
    SelfDot(v[1..]);
    DotHead(v, v);
    SquareIs(v[0]);
    assert Dot(v, v) == first + rest;
    var e, weight := Energy(exp, x, w, v, |x|), TotalWeight(exp, x, w, |x|);
    Balance(e, weight, l2, mu, q, first, rest);
  }

  lemma SquareIs(t: real)
    ensures Square2(t) == Times(t, t)
  {
  }

  /**
   With a total weight of at least 2 d * 1e-12 and a penalty of at least d * 1e-12 * (1 + 2 q), for
   d columns and features of squared length at most q, the Newton step solves its system and
   nothing else does; unless the gradient is zero, subtracting it goes downhill.
   */
  lemma NewtonStepExact(exp: Exp, x: Matrix, y: seq<Label>, w: Vec, l2: real, q: real, t: Vec)
    requires Positive(exp) && Design(x, |w|) && |x| == |y| && x != [] && |t| == |w| && Bounded(x, |w|, q)
    requires 2.0 * (|w| as real * 0.000000000001) <= TotalWeight(exp, x, w, |x|)
    requires |w| as real * 0.000000000001 * (1.0 + 2.0 * q) <= l2
    ensures var g, h := PenalisedGradient(exp, x, y, w, l2), Hessian(exp, x, w, l2);
      && (Solves(h, g, t) <==> t == NewtonStep(exp, x, y, w, l2))
      && ((exists j :: 0 <= j < |w| && g[j] != 0.0) ==> Dot(g, NewtonStep(exp, x, y, w, l2)) > 0.0)
  {
    hide Dot, Hessian, PenalisedGradient, Solution, TotalWeight, Coercive, Bounded, Clamped, ClampsColumn, Solves;
    var g, h := PenalisedGradient(exp, x, y, w, l2), Hessian(exp, x, w, l2);
    var mu := |w| as real * TINY;
    HessianCoercive(exp, x, w, l2, q, mu);
    CoerciveSolved(h, mu, g, t);
    CoerciveUnclamped(h, mu, |w|);
    forall c | 0 <= c < |w| ensures !Clamped(h, g, c) {
      ClampedByMatrix(h, g, c);
    }
    PenaltyPositive(x, |w|, q, mu, l2);
    if exists j :: 0 <= j < |w| && g[j] != 0.0 {
      NewtonStepDescends(exp, x, y, w, l2);
    }
  }

  lemma PenaltyPositive(x: Matrix, d: nat, q: real, mu: real, l2: real)
    requires Design(x, d) && Bounded(x, d, q) && x != [] && mu > 0.0 && mu * (1.0 + 2.0 * q) <= l2
    ensures l2 > 0.0
  {
    hide Dot;
    SelfDot(x[0][1..]);
    assert q >= 0.0;
    assert mu * (1.0 + 2.0 * q) > 0.0;
  }

  // ------------------------------------------------------------- the whole fit

  /** The exponential between -30 and 30 lies between 1 / top and top, as e^30 < 1.07e13 has it. */
  ghost predicate Moderate(exp: Exp, top: real) {
    top >= 1.0 && forall t | -30.0 <= t <= 30.0 :: 1.0 <= exp(t) * top && exp(t) <= top
  }

  lemma Logistic4(e: real, top: real)
    requires e > 0.0 && top >= 1.0 && 1.0 <= e * top && e <= top
    ensures Weight(1.0 / (1.0 + e)) >= 1.0 / (4.0 * top)
  {
    var p := 1.0 / (1.0 + e);
    assert p * (1.0 + e) == 1.0;
    assert 1.0 - p == p * e;
    QuarterBelow(e, top, p);
  }

  lemma QuarterBelow(e: real, top: real, p: real)
    requires e > 0.0 && top >= 1.0 && 1.0 <= e * top && e <= top && p * (1.0 + e) == 1.0 && 0.0 < p < 1.0 && 1.0 - p == p * e
    ensures Weight(p) >= 1.0 / (4.0 * top)
  {
    if e >= 1.0 {
      HalfOver(e, p);
      BelowQuarter(p * e, p, top, e);
    } else {
      HalfUnder(e, p);
      BelowQuarterUnder(p, e, top);
    }
  }

  lemma HalfOver(e: real, p: real)
    requires e >= 1.0 && p > 0.0 && p * (1.0 + e) == 1.0
    ensures p * e >= 0.5 && 2.0 * e * p >= 1.0
  {
    assert p * e >= p;
    assert p + p * e == 1.0;
  }

  lemma HalfUnder(e: real, p: real)
    requires 0.0 < e < 1.0 && p > 0.0 && p * (1.0 + e) == 1.0
    ensures p >= 0.5
  {
    assert p * e <= p;
    assert p + p * e == 1.0;
  }

  lemma BelowQuarter(r: real, p: real, top: real, e: real)
    requires r >= 0.5 && 2.0 * e * p >= 1.0 && 1.0 <= e <= top && 0.0 < p < 1.0 && 1.0 - p == r
    ensures Weight(p) >= 1.0 / (4.0 * top)
  {
    assert p * top >= p * e;
    assert p * top >= 0.5;
    assert p * r >= p * 0.5;
    Share(p * r, top, p);
  }

  lemma Share(v: real, top: real, p: real)
    requires top >= 1.0 && p * top >= 0.5 && v >= p * 0.5
    ensures v >= 1.0 / (4.0 * top)
  {
    assert v * top >= p * 0.5 * top;
    assert v * (4.0 * top) >= 1.0;
    AtLeast(v, 4.0 * top);
  }

  lemma AtLeast(v: real, k: real)
    requires k > 0.0 && v * k >= 1.0
    ensures v >= 1.0 / k
  {
    assert 1.0 / k * k == 1.0;
    TimesOrders(v, 1.0 / k, k);
  }

  lemma BelowQuarterUnder(p: real, e: real, top: real)
    requires 0.5 <= p < 1.0 && 0.0 < e && top >= 1.0 && 1.0 <= e * top && 1.0 - p == p * e
    ensures Weight(p) >= 1.0 / (4.0 * top)
  {
    var r := p * e;
    assert r * top == p * (e * top);
    assert p * (e * top) >= p;
    assert r * top >= 0.5;
    assert r * p >= r * 0.5;
    assert p * r == r * p;
    Share(p * r, top, r);
  }

  lemma SampleWeight(exp: Exp, top: real, z: real)
    requires Positive(exp) && Moderate(exp, top)
    ensures Weight(Sigmoid(exp, z)) >= 1.0 / (4.0 * top)
  {
    hide Weight;
    var t := -Clip(z);
    assert -30.0 <= t <= 30.0;
    Logistic4(exp(t), top);
  }

  lemma {:induction false} WeightAtLeast(exp: Exp, top: real, x: Matrix, w: Vec, m: nat)
    requires Positive(exp) && Moderate(exp, top) && Design(x, |w|) && m <= |x|
    ensures TotalWeight(exp, x, w, m) >= Times(m as real, 1.0 / (4.0 * top))
  {
    assert top >= 1.0;
    hide Weight, Sigmoid, Moderate, Times, Dot;
    var each := 1.0 / (4.0 * top);
    if m == 0 {
      TimesZero(0.0, each);
    } else {
      WeightAtLeast(exp, top, x, w, m - 1);
      SampleWeight(exp, top, Dot(w, x[m - 1]));
      Distributes((m - 1) as real, each);
    }
  }

  /** Rows and penalty for which no step of a fit over this design can be clamped. */
  ghost predicate EnoughData(exp: Exp, top: real, x: Matrix, d: nat, l2: real, q: real) {
    && Positive(exp) && Moderate(exp, top) && Design(x, d) && Bounded(x, d, q) && x != []
    && 2.0 * (d as real * 0.000000000001) <= Times(|x| as real, 1.0 / (4.0 * top))
    && d as real * 0.000000000001 * (1.0 + 2.0 * q) <= l2
  }

  /** The step solves its Newton system, nothing else does, and it goes downhill. */
  ghost predicate ExactStep(exp: Exp, x: Matrix, y: seq<Label>, w: Vec, l2: real)
    requires Positive(exp) && Design(x, |w|) && |x| == |y|
  {
    var g, h := PenalisedGradient(exp, x, y, w, l2), Hessian(exp, x, w, l2);
    && (forall t: Vec | |t| == |w| :: Solves(h, g, t) <==> t == NewtonStep(exp, x, y, w, l2))
    && ((exists j :: 0 <= j < |w| && g[j] != 0.0) ==> Dot(g, NewtonStep(exp, x, y, w, l2)) > 0.0)
  }

  /** Each step that the fit takes from w is exact. */
  ghost predicate ExactFrom(exp: Exp, x: Matrix, y: seq<Label>, l2: real, w: Vec, k: nat)
    requires Positive(exp) && Design(x, |w|) && |x| == |y|
    decreases k
  {
    k == 0 || (
      var step := NewtonStep(exp, x, y, w, l2);
      ExactStep(exp, x, y, w, l2)
      && (MaxAbs(step) < STEP_TOLERANCE || ExactFrom(exp, x, y, l2, Combine(1.0, w, step), k - 1)))
  }

  lemma StepExact(exp: Exp, top: real, x: Matrix, y: seq<Label>, w: Vec, l2: real, q: real)
    requires EnoughData(exp, top, x, |w|, l2, q) && |x| == |y|
    ensures ExactStep(exp, x, y, w, l2)
  {
    hide Hessian, PenalisedGradient, Solves, NewtonStep, Dot, TotalWeight, Bounded, Moderate, Times;
    WeightAtLeast(exp, top, x, w, |x|);
    forall t: Vec | |t| == |w|
      ensures Solves(Hessian(exp, x, w, l2), PenalisedGradient(exp, x, y, w, l2), t) <==> t == NewtonStep(exp, x, y, w, l2)
    {
      NewtonStepExact(exp, x, y, w, l2, q, t);
    }
    NewtonStepExact(exp, x, y, w, l2, q, w);
  }

  /**
   With enough rows for the number of columns and a large enough penalty, both known before the
   fit, every step of the fit is the one solution of its Newton system and goes downhill.
   */
  lemma {:induction false} FitExact(exp: Exp, top: real, x: Matrix, y: seq<Label>, l2: real, q: real, w: Vec, k: nat)
    requires EnoughData(exp, top, x, |w|, l2, q) && |x| == |y|
    ensures ExactFrom(exp, x, y, l2, w, k)
    decreases k
  {
    hide ExactStep, NewtonStep, MaxAbs, Moderate, Bounded, Times;
    if k > 0 {
      StepExact(exp, top, x, y, w, l2, q);
      FitExact(exp, top, x, y, l2, q, Combine(1.0, w, NewtonStep(exp, x, y, w, l2)), k - 1);
    }
  }
}
