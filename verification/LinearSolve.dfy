/**
 The hand-written Gauss-Jordan solver of model_eval.py, over exact reals.

 A linear equation is a coefficient row with its right-hand side appended; a
 point x satisfies it when the row's dot product with x + [-1.0] is zero. All
 elimination facts are stated for dot products with an arbitrary vector z, so
 they cover both the equations (z = x + [-1.0]) and kernels (z = v + [0.0]).
 */
module LinearSolve {
  import opened Reals

  type Vec = seq<real>
  type Matrix = seq<seq<real>>

  /** The smallest pivot the solver divides by; anything smaller is replaced by it. */
  const TINY: real := 0.000000000001

  function Dot(a: Vec, z: Vec): real
    requires |a| == |z|
  {
    if a == [] then 0.0 else Times(a[0], z[0]) + Dot(a[1..], z[1..])
  }

  lemma DotHead(a: Vec, z: Vec)
    requires |a| == |z| > 0
    ensures Dot(a, z) == Times(a[0], z[0]) + Dot(a[1..], z[1..])
  {
  }

  /** The row update of the elimination: a - f * b, entry by entry. */
  function Combine(f: real, a: Vec, b: Vec): (r: Vec)
    requires |a| == |b|
    ensures |r| == |a| && forall i :: 0 <= i < |r| ==> r[i] == a[i] - Times(f, b[i])
  {
    seq(|a|, i requires 0 <= i < |a| => a[i] - Times(f, b[i]))
  }

  lemma {:induction false} DotCombine(f: real, a: Vec, b: Vec, z: Vec)
    requires |a| == |b| == |z|
    ensures Dot(Combine(f, a, b), z) == Dot(a, z) - Times(f, Dot(b, z))
  {
    hide Times;
    if a == [] {
      TimesZero(f, 0.0);
    } else {
      var t, q := Combine(f, a[1..], b[1..]), Dot(b[1..], z[1..]);
      assert Combine(f, a, b)[1..] == t;
      DotCombine(f, a[1..], b[1..], z[1..]);
      TimesFacts(a[0], f, Times(f, b[0]), z[0], q);
      TimesFacts(a[0], f, b[0], z[0], q);
      TimesFacts(a[0], f, Times(b[0], z[0]), z[0], q);
    }
  }

  /** The accumulation step: a + f * b, entry by entry. */
  function Plus(a: Vec, f: real, b: Vec): (r: Vec)
    requires |a| == |b|
    ensures |r| == |a| && forall i :: 0 <= i < |r| ==> r[i] == a[i] + Times(f, b[i])
  {
    seq(|a|, i requires 0 <= i < |a| => a[i] + Times(f, b[i]))
  }

  lemma {:induction false} DotPlus(a: Vec, f: real, b: Vec, z: Vec)
    requires |a| == |b| == |z|
    ensures Dot(Plus(a, f, b), z) == Dot(a, z) + Times(f, Dot(b, z))
  {
    hide Times;
    if a == [] {
      TimesZero(f, 0.0);
    } else {
      var t, q := Plus(a[1..], f, b[1..]), Dot(b[1..], z[1..]);
      assert Plus(a, f, b)[1..] == t;
      DotPlus(a[1..], f, b[1..], z[1..]);
      TimesFacts(a[0], f, Times(f, b[0]), z[0], q);
      TimesFacts(a[0], f, b[0], z[0], q);
      TimesFacts(a[0], f, Times(b[0], z[0]), z[0], q);
    }
  }

  lemma {:induction false} DotUpdate(a: Vec, c: nat, v: real, z: Vec)
    requires c < |a| == |z|
    ensures Dot(a[c := v], z) == Dot(a, z) - Times(a[c], z[c]) + Times(v, z[c])
  {
    hide Times;
    if c > 0 {
      assert a[c := v][1..] == a[1..][c - 1 := v];
      DotUpdate(a[1..], c - 1, v, z[1..]);
    } else {
      assert a[c := v][1..] == a[1..];
    }
  }

  lemma {:induction false} DotCommutes(a: Vec, z: Vec)
    requires |a| == |z|
    ensures Dot(a, z) == Dot(z, a)
  {
    if a != [] {
      DotCommutes(a[1..], z[1..]);
    }
  }

  lemma {:induction false} DotAppend(a: Vec, z: Vec, u: real, w: real)
    requires |a| == |z|
    ensures Dot(a + [u], z + [w]) == Dot(a, z) + Times(u, w)
  {
    if a != [] {
      assert (a + [u])[1..] == a[1..] + [u] && (z + [w])[1..] == z[1..] + [w];
      DotAppend(a[1..], z[1..], u, w);
    }
  }

  lemma {:induction false} DotZero(a: Vec, z: Vec)
    requires |a| == |z| && forall j :: 0 <= j < |a| ==> a[j] == 0.0 || z[j] == 0.0
    ensures Dot(a, z) == 0.0
  {
    if a != [] {
      DotZero(a[1..], z[1..]);
    }
  }

  /** A product whose only non-zero terms can be at i and c. */
  lemma DotTwo(a: Vec, z: Vec, i: nat, c: nat)
    requires |a| == |z| && i < |a| && c < |a| && i != c
    requires forall j :: 0 <= j < |a| && j != i && j != c ==> a[j] == 0.0 || z[j] == 0.0
    ensures Dot(a, z) == Times(a[i], z[i]) + Times(a[c], z[c])
  {
    hide Dot;
    var once := a[i := 0.0];
    DotUpdate(a, i, 0.0, z);
    DotUpdate(once, c, 0.0, z);
    DotZero(once[c := 0.0], z);
  }

  // ------------------------------------------------------ the elimination steps

  predicate Shape(m: Matrix, n: nat) {
    |m| == n && forall i :: 0 <= i < n ==> |m[i]| == n + 1
  }

  /** Columns before c are zero off a non-zero diagonal. */
  ghost predicate Diagonal(m: Matrix, n: nat, c: nat)
    requires Shape(m, n) && c <= n
  {
    forall i, j :: 0 <= i < n && 0 <= j < c ==> if i == j then m[i][j] != 0.0 else m[i][j] == 0.0
  }

  /** The first row of largest magnitude in column c, from row `from` down. */
  function PivotFrom(m: Matrix, n: nat, c: nat, from: nat): (p: nat)
    requires Shape(m, n) && c <= from < n
    ensures from <= p < n
    ensures forall r :: from <= r < n ==> Abs(m[r][c]) <= Abs(m[p][c])
    ensures forall r :: from <= r < p ==> Abs(m[r][c]) < Abs(m[p][c])
    decreases n - from
  {
    if from + 1 == n then from
    else
      var q := PivotFrom(m, n, c, from + 1);
      if Abs(m[from][c]) >= Abs(m[q][c]) then from else q
  }

  function Pivot(m: Matrix, n: nat, c: nat): (p: nat)
    requires Shape(m, n) && c < n
    ensures c <= p < n
    ensures forall r :: c <= r < n ==> Abs(m[r][c]) <= Abs(m[p][c])
  {
    PivotFrom(m, n, c, c)
  }

  function Swap<T>(s: seq<T>, c: nat, p: nat): (r: seq<T>)
    requires c < |s| && p < |s|
    ensures |r| == |s| && r[c] == s[p] && r[p] == s[c]
    ensures forall i :: 0 <= i < |s| && i != c && i != p ==> r[i] == s[i]
  {
    s[c := s[p]][p := s[c]]
  }

  function ClampedPivot(v: real): (r: real)
    ensures r != 0.0
    ensures v <= r <= v + 2.0 * TINY
    ensures r == v <==> Abs(v) >= TINY
  {
    if Abs(v) < TINY then TINY else v
  }

  function Clamp(m: Matrix, n: nat, c: nat): (r: Matrix)
    requires Shape(m, n) && c < n
    ensures Shape(r, n) && r[c][c] != 0.0
    ensures forall i :: 0 <= i < n && i != c ==> r[i] == m[i]
  {
    m[c := m[c][c := ClampedPivot(m[c][c])]]
  }

  function Eliminate(m: Matrix, n: nat, c: nat): (r: Matrix)
    requires Shape(m, n) && c < n && m[c][c] != 0.0
    ensures Shape(r, n)
  {
    seq(n, r requires 0 <= r < n => if r == c then m[c] else Combine(m[r][c] / m[c][c], m[r], m[c]))
  }

  function Column(m: Matrix, n: nat, c: nat): (r: Matrix)
    requires Shape(m, n) && c < n
    ensures Shape(r, n)
  {
    Eliminate(Clamp(Swap(m, c, Pivot(m, n, c)), n, c), n, c)
  }

  function Augment(a: Matrix, b: Vec): (m: Matrix)
    requires Square(a, |b|)
    ensures Shape(m, |b|)
  {
    seq(|b|, i requires 0 <= i < |b| => a[i] + [b[i]])
  }

  predicate Square(a: Matrix, n: nat) {
    |a| == n && forall i :: 0 <= i < n ==> |a[i]| == n
  }

  /** The working matrix after columns before c. */
  function Reduce(m: Matrix, n: nat, c: nat): (r: Matrix)
    requires Shape(m, n) && c <= n
    ensures Shape(r, n)
  {
    if c == 0 then m else Column(Reduce(m, n, c - 1), n, c - 1)
  }

  /** The value found in the pivot position of column c, before clamping. */
  function ChosenPivot(m: Matrix, n: nat, c: nat): real
    requires Shape(m, n) && c < n
  {
    var r := Reduce(m, n, c);
    r[Pivot(r, n, c)][c]
  }

  function Solution(a: Matrix, b: Vec): (x: Vec)
    requires Square(a, |b|)
    ensures |x| == |b|
  {
    var n := |b|;
    ReduceDiagonal(Augment(a, b), n, n);
    ReadOff(Reduce(Augment(a, b), n, n), n)
  }

  /** The unknowns of a diagonal system. */
  function ReadOff(m: Matrix, n: nat): (x: Vec)
    requires Shape(m, n) && Diagonal(m, n, n)
    ensures |x| == n && forall i :: 0 <= i < n ==> x[i] == m[i][n] / m[i][i]
  {
    seq(n, i requires 0 <= i < n => m[i][n] / m[i][i])
  }

  /** The inner loop of _solve: clear column c in every other row. */
  method ClearColumn(k: Matrix, n: nat, c: nat) returns (m: Matrix)
    requires Shape(k, n) && c < n && k[c][c] != 0.0
    ensures m == Eliminate(k, n, c)
  {
    m := k;
    for r := 0 to n
      invariant Shape(m, n) && m[c] == k[c]
      invariant forall i :: 0 <= i < r ==> m[i] == Eliminate(k, n, c)[i]
      invariant forall i :: r <= i < n ==> m[i] == k[i]
    {
      if r != c {
        var f := m[r][c] / m[c][c];
        if f != 0.0 {
          m := m[r := Combine(f, m[r], m[c])];
        } else {
          assert Combine(f, m[r], m[c]) == m[r];
        }
      }
    }
  }

  /** The pivoting of one column: bring the largest entry up, and clamp it. */
  method PivotColumn(m0: Matrix, n: nat, c: nat) returns (m: Matrix)
    requires Shape(m0, n) && c < n
    ensures m == Clamp(Swap(m0, c, Pivot(m0, n, c)), n, c)
  {
    var p := Pivot(m0, n, c);
    m := m0[c := m0[p]][p := m0[c]];
    if Abs(m[c][c]) < TINY {
      m := m[c := m[c][c := TINY]];
    } else {
      assert m[c][c := m[c][c]] == m[c];
    }
  }

  /** model_eval._solve: swap, clamp and eliminate, one column at a time. */
  method Solve(a: Matrix, b: Vec) returns (x: Vec)
    requires Square(a, |b|)
    ensures x == Solution(a, b)
  {
    hide Clamp, Swap, Pivot, Eliminate, Diagonal, Augment;
    var n := |b|;
    var m := Augment(a, b);
    for c := 0 to n
      invariant Shape(m, n) && m == Reduce(Augment(a, b), n, c)
    {
      m := PivotColumn(m, n, c);
      m := ClearColumn(m, n, c);
    }
    ReduceDiagonal(Augment(a, b), n, n);
    x := ReadOff(m, n);
  }

  // ------------------------------------------------------------ what a column does

  lemma EliminatedAt(m: Matrix, n: nat, c: nat, i: nat, j: nat)
    requires Shape(m, n) && c < n && m[c][c] != 0.0 && i < n && j < n
    ensures Eliminate(m, n, c)[i][j] == if i == c then m[i][j] else m[i][j] - m[i][c] / m[c][c] * m[c][j]
  {
  }

  lemma Cancelled(x: real, p: real)
    requires p != 0.0
    ensures x - x / p * p == 0.0
  {
  }

  lemma ZeroTerm(x: real, f: real, z: real)
    requires z == 0.0
    ensures x - f * z == x
  {
  }

  lemma EliminateDiagonal(m: Matrix, n: nat, c: nat)
    requires Shape(m, n) && c < n && Diagonal(m, n, c) && m[c][c] != 0.0
    ensures Diagonal(Eliminate(m, n, c), n, c + 1)
  {
    hide Eliminate;
    var e := Eliminate(m, n, c);
    forall i, j | 0 <= i < n && 0 <= j < c + 1
      ensures if i == j then e[i][j] != 0.0 else e[i][j] == 0.0
    {
      EliminatedAt(m, n, c, i, j);
      if i != c && j < c {
        ZeroTerm(m[i][j], m[i][c] / m[c][c], m[c][j]);
      } else if i != c {
        Cancelled(m[i][c], m[c][c]);
      }
    }
  }

  lemma PivotDiagonal(m: Matrix, n: nat, c: nat, p: nat)
    requires Shape(m, n) && c <= p < n && Diagonal(m, n, c)
    ensures Diagonal(Clamp(Swap(m, c, p), n, c), n, c)
  {
    hide ClampedPivot;
  }

  lemma ColumnDiagonal(m: Matrix, n: nat, c: nat)
    requires Shape(m, n) && c < n && Diagonal(m, n, c)
    ensures Diagonal(Column(m, n, c), n, c + 1)
  {
    hide Pivot, Swap, Diagonal, Clamp, Eliminate;
    var p := Pivot(m, n, c);
    PivotDiagonal(m, n, c, p);
    EliminateDiagonal(Clamp(Swap(m, c, p), n, c), n, c);
  }

  lemma {:induction false} ReduceDiagonal(m: Matrix, n: nat, c: nat)
    requires Shape(m, n) && c <= n
    ensures Diagonal(Reduce(m, n, c), n, c)
  {
    hide Column;
    if c > 0 {
      ReduceDiagonal(m, n, c - 1);
      ColumnDiagonal(Reduce(m, n, c - 1), n, c - 1);
    }
  }

  function Zeros(n: nat): (d: Vec)
    ensures |d| == n && forall i :: 0 <= i < n ==> d[i] == 0.0
  {
    seq(n, _ => 0.0)
  }

  /** Every row of m annihilates z once shifted by d. */
  ghost predicate Zero(m: Matrix, n: nat, z: Vec, d: Vec)
    requires Shape(m, n) && |z| == n + 1 && |d| == n
  {
    forall i :: 0 <= i < n ==> Dot(m[i], z) + d[i] == 0.0
  }

  /** The shift d with entry c set to e * z[c]. */
  function Shifted(d: Vec, c: nat, e: real, z: Vec): (r: Vec)
    requires c < |d| && c < |z|
    ensures |r| == |d| && forall i :: 0 <= i < |d| && i != c ==> r[i] == d[i]
  {
    d[c := Times(e, z[c])]
  }

  lemma SwapKeeps(m: Matrix, n: nat, c: nat, p: nat, z: Vec, d: Vec)
    requires Shape(m, n) && |z| == n + 1 && |d| == n && c < n && p < n
    ensures Zero(Swap(m, c, p), n, z, d) <==> Zero(m, n, z, Swap(d, c, p))
  {
    hide Dot;
    var s, e := Swap(m, c, p), Swap(d, c, p);
    if Zero(s, n, z, d) {
      forall i | 0 <= i < n ensures Dot(m[i], z) + e[i] == 0.0 {
        assert m[i] == s[if i == c then p else if i == p then c else i];
      }
    }
    if Zero(m, n, z, e) {
      forall i | 0 <= i < n ensures Dot(s[i], z) + d[i] == 0.0 {
        assert s[i] == m[if i == c then p else if i == p then c else i];
      }
    }
  }

  lemma EliminateKeeps(m: Matrix, n: nat, c: nat, z: Vec, d: Vec)
    requires Shape(m, n) && |z| == n + 1 && |d| == n && c < n && m[c][c] != 0.0 && d[c] == 0.0
    ensures Zero(Eliminate(m, n, c), n, z, d) <==> Zero(m, n, z, d)
  {
    hide Dot;
    var e := Eliminate(m, n, c);
    forall i | 0 <= i < n && i != c
      ensures Dot(e[i], z) == Dot(m[i], z) - Times(m[i][c] / m[c][c], Dot(m[c], z))
    {
      DotCombine(m[i][c] / m[c][c], m[i], m[c], z);
    }
    if Dot(m[c], z) == 0.0 {
      assert forall i :: 0 <= i < n ==> Dot(e[i], z) == Dot(m[i], z);
    } else {
      assert e[c] == m[c];
    }
  }

  // ----------------------------------------------------- the system really solved

  /** Which original row ended up in each position after columns before c. */
  function Order(m: Matrix, n: nat, c: nat): (o: seq<nat>)
    requires Shape(m, n) && c <= n
    ensures |o| == n && forall i :: 0 <= i < n ==> o[i] < n
  {
    if c == 0 then seq(n, i => i)
    else
      var o := Order(m, n, c - 1);
      Swap(o, c - 1, Pivot(Reduce(m, n, c - 1), n, c - 1))
  }

  /** How much clamping added to the diagonal entry of column c. */
  function Shift(m: Matrix, n: nat, c: nat): (e: real)
    requires Shape(m, n) && c < n
    ensures 0.0 <= e <= 2.0 * TINY
    ensures e == 0.0 <==> Abs(ChosenPivot(m, n, c)) >= TINY
  {
    ClampedPivot(ChosenPivot(m, n, c)) - ChosenPivot(m, n, c)
  }

  /** The original rows in pivot order, the first c of them with their clamped entry. */
  function Perturbed(m: Matrix, n: nat, c: nat): (r: Matrix)
    requires Shape(m, n) && c <= n
    ensures Shape(r, n)
  {
    var o := Order(m, n, c);
    seq(n, i requires 0 <= i < n =>
      if i < c then m[o[i]][i := m[o[i]][i] + Shift(m, n, i)] else m[o[i]])
  }

  lemma PerturbedNext(m: Matrix, n: nat, c: nat)
    requires Shape(m, n) && c < n
    ensures var s := Swap(Perturbed(m, n, c), c, Pivot(Reduce(m, n, c), n, c));
      && Shape(s, n)
      && Perturbed(m, n, c + 1)[c] == s[c][c := s[c][c] + Shift(m, n, c)]
      && forall i :: 0 <= i < n && i != c ==> Perturbed(m, n, c + 1)[i] == s[i]
  {
    hide Shift, Reduce, Pivot;
    var o, p := Order(m, n, c), Pivot(Reduce(m, n, c), n, c);
    assert Order(m, n, c + 1) == Swap(o, c, p);
  }

  lemma PerturbedStep(m: Matrix, n: nat, c: nat, z: Vec, d: Vec)
    requires Shape(m, n) && c < n && |z| == n + 1 && |d| == n && d[c] == 0.0
    ensures Zero(Perturbed(m, n, c + 1), n, z, d)
       <==> Zero(Perturbed(m, n, c), n, z,
                 Swap(Shifted(d, c, Shift(m, n, c), z), c, Pivot(Reduce(m, n, c), n, c)))
  {
    hide Dot, Zero, Shift, Shifted, Reduce, Pivot, Perturbed, Swap;
    var p, e := Pivot(Reduce(m, n, c), n, c), Shift(m, n, c);
    PerturbedNext(m, n, c);
    SwapKeeps(Perturbed(m, n, c), n, c, p, z, Shifted(d, c, e, z));
    RaiseShifts(Swap(Perturbed(m, n, c), c, p), Perturbed(m, n, c + 1), n, c, e, z, d);
  }

  /** Raising the entry (c, c) by e is the same as shifting row c by e * z[c]. */
  lemma RaiseShifts(m: Matrix, r: Matrix, n: nat, c: nat, e: real, z: Vec, d: Vec)
    requires Shape(m, n) && Shape(r, n) && |z| == n + 1 && |d| == n && c < n && d[c] == 0.0
    requires r[c] == m[c][c := m[c][c] + e]
    requires forall i :: 0 <= i < n && i != c ==> r[i] == m[i]
    ensures Zero(r, n, z, d) <==> Zero(m, n, z, Shifted(d, c, e, z))
  {
    hide Dot;
    var d' := Shifted(d, c, e, z);
    RaiseEntry(m[c], c, e, z);
    assert forall i :: 0 <= i < n ==> Dot(r[i], z) + d[i] == Dot(m[i], z) + d'[i];
  }

  lemma RaiseEntry(a: Vec, c: nat, e: real, z: Vec)
    requires c < |a| == |z|
    ensures Dot(a[c := a[c] + e], z) == Dot(a, z) + Times(e, z[c])
  {
    hide Dot;
    DotUpdate(a, c, a[c] + e, z);
    TimesFacts(a[c], 0.0, e, z[c], 0.0);
  }

  lemma ReduceNext(m: Matrix, n: nat, c: nat) returns (s: Matrix, k: Matrix)
    requires Shape(m, n) && c < n
    ensures s == Swap(Reduce(m, n, c), c, Pivot(Reduce(m, n, c), n, c))
    ensures Shape(s, n) && Shape(k, n) && k[c][c] != 0.0
    ensures k[c] == s[c][c := s[c][c] + Shift(m, n, c)]
    ensures forall i :: 0 <= i < n && i != c ==> k[i] == s[i]
    ensures Reduce(m, n, c + 1) == Eliminate(k, n, c)
  {
    hide Pivot, Eliminate, ClampedPivot;
    s := Swap(Reduce(m, n, c), c, Pivot(Reduce(m, n, c), n, c));
    k := Clamp(s, n, c);
  }

  lemma NothingReduced(m: Matrix, n: nat)
    requires Shape(m, n)
    ensures Perturbed(m, n, 0) == m == Reduce(m, n, 0)
  {
    hide Shift;
    assert Perturbed(m, n, 0) == m;
  }

  /** Reducing and perturbing keep the same solutions, under every shift of the rows still to come. */
  lemma {:induction false} ReduceKeeps(m: Matrix, n: nat, c: nat, z: Vec, d: Vec)
    requires Shape(m, n) && c <= n && |z| == n + 1 && |d| == n
    requires forall i :: 0 <= i < c ==> d[i] == 0.0
    ensures Zero(Reduce(m, n, c), n, z, d) <==> Zero(Perturbed(m, n, c), n, z, d)
  {
    hide Dot, Zero, Swap, Pivot, Shifted, Shift, Eliminate, Perturbed, Reduce;
    if c == 0 {
      NothingReduced(m, n);
    } else {
      var b := c - 1;
      var r, e := Reduce(m, n, b), Shift(m, n, b);
      var p := Pivot(r, n, b);
      var s, k := ReduceNext(m, n, b);
      EliminateKeeps(k, n, b, z, d);
      RaiseShifts(s, k, n, b, e, z, d);
      SwapKeeps(r, n, b, p, z, Shifted(d, b, e, z));
      ReduceKeeps(m, n, b, z, Swap(Shifted(d, b, e, z), b, p));
      PerturbedStep(m, n, b, z, d);
    }
  }

  // -------------------------------------------------------------------- theorems

  ghost predicate Solves(a: Matrix, b: Vec, x: Vec)
    requires Square(a, |b|)
  {
    |x| == |b| && forall i :: 0 <= i < |b| ==> Dot(a[i], x) == b[i]
  }

  /** The equation met by the i-th pivot row: an original equation with its clamped entry. */
  ghost predicate MeetsPivotRow(a: Matrix, b: Vec, x: Vec, i: nat)
    requires Square(a, |b|) && |x| == |b| && i < |b|
  {
    var m := Augment(a, b);
    var k := Order(m, |b|, |b|)[i];
    Dot(a[k], x) + Times(Shift(m, |b|, i), x[i]) == b[k]
  }

  lemma RaisedEquation(a: Vec, u: real, x: Vec, i: nat, e: real)
    requires i < |a| == |x|
    ensures Dot((a + [u])[i := a[i] + e], x + [-1.0]) == Dot(a, x) + Times(e, x[i]) - u
  {
    hide Dot;
    RaiseEntry(a + [u], i, e, x + [-1.0]);
    DotAppend(a, x, u, -1.0);
  }

  lemma PerturbedRow(a: Matrix, b: Vec, x: Vec, i: nat)
    requires Square(a, |b|) && |x| == |b| && i < |b|
    ensures Dot(Perturbed(Augment(a, b), |b|, |b|)[i], x + [-1.0]) == 0.0 <==> MeetsPivotRow(a, b, x, i)
  {
    hide Dot, Order, Shift, Reduce;
    var m, n := Augment(a, b), |b|;
    var k, e := Order(m, n, n)[i], Shift(m, n, i);
    assert m[k] == a[k] + [b[k]];
    RaisedEquation(a[k], b[k], x, i, e);
  }

  lemma DiagonalRow(m: Matrix, n: nat, i: nat, x: Vec)
    requires Shape(m, n) && Diagonal(m, n, n) && i < n && |x| == n
    ensures Dot(m[i], x + [-1.0]) == 0.0 <==> x[i] == m[i][n] / m[i][i]
  {
    hide Dot;
    DotTwo(m[i], x + [-1.0], i, n);
    QuotientUnique(m[i][i], m[i][n], x[i]);
  }

  lemma QuotientUnique(a: real, b: real, x: real)
    requires a != 0.0
    ensures Times(a, x) + Times(b, -1.0) == 0.0 <==> x == b / a
  {
    if a * x == b {
      assert x == (a * x) / a;
    }
  }

  /**
   The backward-error theorem: whatever the pivots were, the returned vector is the one
   and only solution of the system in which each clamped pivot entry was raised by its shift.
   */
  lemma SolutionOfPerturbed(a: Matrix, b: Vec, x: Vec)
    requires Square(a, |b|) && |x| == |b|
    ensures x == Solution(a, b) <==> forall i :: 0 <= i < |b| ==> MeetsPivotRow(a, b, x, i)
  {
    hide Dot, Reduce, Perturbed, Order, Shift, MeetsPivotRow, Augment;
    var m, n := Augment(a, b), |b|;
    var r, q, z, d := Reduce(m, n, n), Perturbed(m, n, n), x + [-1.0], Zeros(n);
    ReduceDiagonal(m, n, n);
    ReduceKeeps(m, n, n, z, d);
    forall i | 0 <= i < n
      ensures Dot(q[i], z) == 0.0 <==> MeetsPivotRow(a, b, x, i)
      ensures Dot(r[i], z) == 0.0 <==> x[i] == Solution(a, b)[i]
    {
      PerturbedRow(a, b, x, i);
      DiagonalRow(r, n, i, x);
    }
  }

  lemma {:induction false} OrderCovers(m: Matrix, n: nat, c: nat, k: nat)
    requires Shape(m, n) && c <= n && k < n
    ensures k in Order(m, n, c)
  {
    hide Reduce, Pivot;
    if c == 0 {
      assert Order(m, n, 0)[k] == k;
    } else {
      OrderCovers(m, n, c - 1, k);
      SwapCovers(Order(m, n, c - 1), c - 1, Pivot(Reduce(m, n, c - 1), n, c - 1), k);
    }
  }

  lemma SwapCovers<T>(s: seq<T>, c: nat, p: nat, k: T)
    requires c < |s| && p < |s| && k in s
    ensures k in Swap(s, c, p)
  {
    var i :| 0 <= i < |s| && s[i] == k;
    assert Swap(s, c, p)[if i == c then p else if i == p then c else i] == k;
  }

  /** A column was clamped when its best pivot was smaller than the solver accepts. */
  predicate Clamped(a: Matrix, b: Vec, c: nat)
    requires Square(a, |b|) && c < |b|
  {
    Abs(ChosenPivot(Augment(a, b), |b|, c)) < TINY
  }

  /** The answer is right exactly when every clamped unknown came out zero. */
  lemma ClampedUnknowns(a: Matrix, b: Vec)
    requires Square(a, |b|)
    ensures Solves(a, b, Solution(a, b))
       <==> forall c :: 0 <= c < |b| && Clamped(a, b, c) ==> Solution(a, b)[c] == 0.0
  {
    hide Dot, Solution, Order, Shift, Augment, ChosenPivot;
    var m, n, x := Augment(a, b), |b|, Solution(a, b);
    var o := Order(m, n, n);
    SolutionOfPerturbed(a, b, x);
    if Solves(a, b, x) {
      forall c | 0 <= c < n && Clamped(a, b, c) ensures x[c] == 0.0 {
        assert MeetsPivotRow(a, b, x, c) && Dot(a[o[c]], x) == b[o[c]];
        TimesZero(Shift(m, n, c), x[c]);
      }
    }
    if forall c :: 0 <= c < n && Clamped(a, b, c) ==> x[c] == 0.0 {
      forall k | 0 <= k < n ensures Dot(a[k], x) == b[k] {
        OrderCovers(m, n, n, k);
        var i :| 0 <= i < n && o[i] == k;
        assert MeetsPivotRow(a, b, x, i);
        TimesZero(Shift(m, n, i), x[i]);
      }
    }
  }

  // ------------------------------------------------- which columns are clamped is the matrix's own

  /** The two augmented matrices have the same coefficients. */
  ghost predicate SameLeft(m: Matrix, r: Matrix, n: nat)
    requires Shape(m, n) && Shape(r, n)
  {
    forall i, j | 0 <= i < n && 0 <= j < n :: m[i][j] == r[i][j]
  }

  lemma {:induction false} SamePivotFrom(m: Matrix, r: Matrix, n: nat, c: nat, from: nat)
    requires Shape(m, n) && Shape(r, n) && SameLeft(m, r, n) && c <= from < n
    ensures PivotFrom(m, n, c, from) == PivotFrom(r, n, c, from)
    decreases n - from
  {
    if from + 1 < n {
      SamePivotFrom(m, r, n, c, from + 1);
    }
  }

  lemma SameClamp(m: Matrix, r: Matrix, n: nat, c: nat)
    requires Shape(m, n) && Shape(r, n) && SameLeft(m, r, n) && c < n
    ensures SameLeft(Clamp(m, n, c), Clamp(r, n, c), n)
  {
    hide ClampedPivot;
  }

  lemma SameEliminate(m: Matrix, r: Matrix, n: nat, c: nat)
    requires Shape(m, n) && Shape(r, n) && SameLeft(m, r, n) && c < n && m[c][c] != 0.0
    ensures SameLeft(Eliminate(m, n, c), Eliminate(r, n, c), n)
  {
    hide Times;
  }

  lemma {:induction false} SameReduce(m: Matrix, r: Matrix, n: nat, c: nat)
    requires Shape(m, n) && Shape(r, n) && SameLeft(m, r, n) && c <= n
    ensures SameLeft(Reduce(m, n, c), Reduce(r, n, c), n)
    ensures c < n ==> Pivot(Reduce(m, n, c), n, c) == Pivot(Reduce(r, n, c), n, c)
  {
    hide Clamp, Eliminate, PivotFrom;
    if c > 0 {
      var b := c - 1;
      SameReduce(m, r, n, b);
      var p := Pivot(Reduce(m, n, b), n, b);
      var s, t := Swap(Reduce(m, n, b), b, p), Swap(Reduce(r, n, b), b, p);
      assert SameLeft(s, t, n);
      SameClamp(s, t, n, b);
      SameEliminate(Clamp(s, n, b), Clamp(t, n, b), n, b);
    }
    if c < n {
      SamePivotFrom(Reduce(m, n, c), Reduce(r, n, c), n, c, c);
    }
  }

  lemma {:induction false} SameOrder(m: Matrix, r: Matrix, n: nat, c: nat)
    requires Shape(m, n) && Shape(r, n) && SameLeft(m, r, n) && c <= n
    ensures Order(m, n, c) == Order(r, n, c)
  {
    hide Reduce, Pivot, Swap;
    if c > 0 {
      SameOrder(m, r, n, c - 1);
      SameReduce(m, r, n, c - 1);
    }
  }

  /** Pivot choice, pivot order and clamping do not depend on the right-hand side. */
  lemma SameClamping(a: Matrix, b: Vec, d: Vec)
    requires Square(a, |b|) && |d| == |b|
    ensures var m, r, n := Augment(a, b), Augment(a, d), |b|;
      && Order(m, n, n) == Order(r, n, n)
      && forall c | 0 <= c < n :: ChosenPivot(m, n, c) == ChosenPivot(r, n, c)
  {
    hide Reduce, Pivot, Order;
    var m, r, n := Augment(a, b), Augment(a, d), |b|;
    assert SameLeft(m, r, n);
    SameOrder(m, r, n, n);
    forall c | 0 <= c < n ensures ChosenPivot(m, n, c) == ChosenPivot(r, n, c) {
      SameReduce(m, r, n, c);
    }
  }

  /** The matrix alone decides that column c is clamped. */
  predicate ClampsColumn(a: Matrix, c: nat)
    requires Square(a, |a|) && c < |a|
  {
    Clamped(a, Zeros(|a|), c)
  }

  lemma ClampedByMatrix(a: Matrix, b: Vec, c: nat)
    requires Square(a, |b|) && c < |b|
    ensures Clamped(a, b, c) <==> ClampsColumn(a, c)
  {
    hide ChosenPivot, Order;
    SameClamping(a, b, Zeros(|b|));
  }

  lemma {:induction false} OrderDistinct(m: Matrix, n: nat, c: nat, i: nat, j: nat)
    requires Shape(m, n) && c <= n && i < n && j < n && i != j
    ensures Order(m, n, c)[i] != Order(m, n, c)[j]
  {
    hide Reduce, Pivot;
    if c > 0 {
      var p, b := Pivot(Reduce(m, n, c - 1), n, c - 1), c - 1;
      OrderDistinct(m, n, b, if i == b then p else if i == p then b else i, if j == b then p else if j == p then b else j);
    }
  }

  function Unit(n: nat, c: nat): (e: Vec)
    requires c < n
    ensures |e| == n && e[c] == 1.0
  {
    Zeros(n)[c := 1.0]
  }

  lemma DotUnit(a: Vec, c: nat)
    requires c < |a|
    ensures Dot(a, Unit(|a|, c)) == a[c]
  {
    hide Dot;
    DotCommutes(a, Unit(|a|, c));
    DotUpdate(Zeros(|a|), c, 1.0, a);
    DotCommutes(Zeros(|a|), a);
    DotZero(a, Zeros(|a|));
  }

  /** Column c of the matrix, with its pivot row raised by what clamping adds. */
  function ClampedColumn(a: Matrix, c: nat): (b: Vec)
    requires Square(a, |a|) && c < |a|
    ensures |b| == |a|
  {
    var m, n := Augment(a, Zeros(|a|)), |a|;
    var k := Order(m, n, n)[c];
    seq(n, i requires 0 <= i < n => if i == k then a[i][c] + Shift(m, n, c) else a[i][c])
  }

  /** A clamped column always loses a solution: for the right-hand side below the code returns the
      unit vector of that column, which does not solve the system. */
  lemma ClampedColumnFails(a: Matrix, c: nat)
    requires Square(a, |a|) && c < |a| && ClampsColumn(a, c)
    ensures var b := ClampedColumn(a, c);
      Solution(a, b) == Unit(|a|, c) && !Solves(a, b, Solution(a, b))
  {
    hide Dot, Solution, Order, Augment, ChosenPivot;
    var b, n, x := ClampedColumn(a, c), |a|, Unit(|a|, c);
    var m := Augment(a, b);
    var o := Order(m, n, n);
    SameClamping(a, b, Zeros(n));
    forall i | 0 <= i < n ensures MeetsPivotRow(a, b, x, i) {
      DotUnit(a[o[i]], c);
      TimesZero(Shift(m, n, i), x[i]);
      if i == c {
        TimesFacts(Shift(m, n, c), 0.0, 0.0, 1.0, 0.0);
        assert Times(Shift(m, n, c), 1.0) == Shift(m, n, c);
      } else {
        OrderDistinct(m, n, n, i, c);
      }
    }
    SolutionOfPerturbed(a, b, x);
    ClampedByMatrix(a, b, c);
    ClampedUnknowns(a, b);
  }

  /** For one right-hand side, the answer solves the system exactly when the system has a solution
      that vanishes on every clamped column. */
  lemma SolveCorrectIff(a: Matrix, b: Vec)
    requires Square(a, |b|)
    ensures Solves(a, b, Solution(a, b))
       <==> exists x :: Solves(a, b, x) && forall c | 0 <= c < |b| && ClampsColumn(a, c) :: x[c] == 0.0
  {
    hide Dot, Solution, Order, Shift, Augment, ChosenPivot, Clamped, ClampsColumn;
    ClampedUnknowns(a, b);
    forall c | 0 <= c < |b| ensures Clamped(a, b, c) <==> ClampsColumn(a, c) {
      ClampedByMatrix(a, b, c);
    }
    if x :| Solves(a, b, x) && forall c | 0 <= c < |b| && ClampsColumn(a, c) :: x[c] == 0.0 {
      forall i | 0 <= i < |b| ensures MeetsPivotRow(a, b, x, i) {
        UnclampedRow(a, b, x, i);
      }
      SolutionOfPerturbed(a, b, x);
    }
  }

  lemma UnclampedRow(a: Matrix, b: Vec, x: Vec, i: nat)
    requires Square(a, |b|) && Solves(a, b, x) && i < |b| && (Clamped(a, b, i) ==> x[i] == 0.0)
    ensures MeetsPivotRow(a, b, x, i)
  {
    hide Dot, Order, Augment, ChosenPivot;
    var m, n := Augment(a, b), |b|;
    var k := Order(m, n, n)[i];
    assert Dot(a[k], x) == b[k];
    TimesZero(Shift(m, n, i), x[i]);
  }

  /** The solver is right for every right-hand side exactly when it clamps no column of the matrix. */
  lemma CorrectForEveryIff(a: Matrix)
    requires Square(a, |a|)
    ensures (forall b | |b| == |a| :: Solves(a, b, Solution(a, b)))
       <==> forall c | 0 <= c < |a| :: !ClampsColumn(a, c)
  {
    hide Dot, Solution, ChosenPivot, ClampsColumn, Clamped;
    if forall b | |b| == |a| :: Solves(a, b, Solution(a, b)) {
      forall c | 0 <= c < |a| ensures !ClampsColumn(a, c) {
        if ClampsColumn(a, c) {
          ClampedColumnFails(a, c);
        }
      }
    }
    if forall c | 0 <= c < |a| :: !ClampsColumn(a, c) {
      forall b: Vec | |b| == |a| ensures Solves(a, b, Solution(a, b)) {
        forall c | 0 <= c < |b| ensures !Clamped(a, b, c) {
          ClampedByMatrix(a, b, c);
        }
        ClampedUnknowns(a, b);
      }
    }
  }

  /** With no chosen pivot below 1e-12 the answer is the system's only solution. */
  lemma SolveUnique(a: Matrix, b: Vec, x: Vec)
    requires Square(a, |b|) && |x| == |b|
    requires forall c :: 0 <= c < |b| ==> Abs(ChosenPivot(Augment(a, b), |b|, c)) >= 0.000000000001
    ensures Solves(a, b, x) <==> x == Solution(a, b)
  {
    hide ChosenPivot, Solution, Solves, Augment;
    forall c | 0 <= c < |b| ensures !Clamped(a, b, c) {
      assert Abs(ChosenPivot(Augment(a, b), |b|, c)) >= 0.000000000001;
    }
    UnclampedUnique(a, b, x);
  }

  lemma UnclampedUnique(a: Matrix, b: Vec, x: Vec)
    requires Square(a, |b|) && |x| == |b|
    requires forall c :: 0 <= c < |b| ==> !Clamped(a, b, c)
    ensures Solves(a, b, x) <==> x == Solution(a, b)
  {
    hide Dot, Solution, Order, Shift, Augment, ChosenPivot;
    ClampedUnknowns(a, b);
    if Solves(a, b, x) {
      forall i | 0 <= i < |b| ensures MeetsPivotRow(a, b, x, i) {
        var k := Order(Augment(a, b), |b|, |b|)[i];
        assert !Clamped(a, b, i) && Dot(a[k], x) == b[k];
      }
      SolutionOfPerturbed(a, b, x);
    }
  }

  /** The clamp does lose solutions: a tiny but non-singular 1 by 1 system is solved wrongly. */
  lemma ClampLosesSolution()
    ensures var a, b := [[TINY / 2.0]], [1.0];
            Square(a, |b|) && Solves(a, b, [2.0 / TINY]) && !Solves(a, b, Solution(a, b))
  {
    var a, b := [[TINY / 2.0]], [1.0];
    var m := Augment(a, b);
    assert m[0] == [TINY / 2.0, 1.0];
    assert Reduce(m, 1, 0) == m && Swap(m, 0, 0) == m;
    assert Clamped(a, b, 0);
    var k := Clamp(m, 1, 0);
    assert Reduce(m, 1, 1) == Eliminate(k, 1, 0) == [k[0]];
    assert k[0][0] == TINY && k[0][1] == 1.0;
    assert Solution(a, b)[0] == 1.0 / TINY != 0.0;
    ClampedUnknowns(a, b);
  }

  // ----------------------------------------------------------- when a solution exists

  ghost predicate Injective(a: Matrix, n: nat)
    requires Square(a, n)
  {
    forall v: Vec :: |v| == n && (forall i :: 0 <= i < n ==> Dot(a[i], v) == 0.0)
      ==> forall j :: 0 <= j < n ==> v[j] == 0.0
  }

  /** Same solutions, whatever z: what exact row operations keep. */
  ghost predicate Equivalent(m: Matrix, r: Matrix, n: nat)
    requires Shape(m, n) && Shape(r, n)
  {
    forall z: Vec, d: Vec :: |z| == n + 1 && d == Zeros(n) ==> (Zero(m, n, z, d) <==> Zero(r, n, z, d))
  }

  /** A column without a pivot exposes a non-zero kernel vector. */
  lemma NoPivotNoInjection(a: Matrix, b: Vec, r: Matrix, c: nat)
    requires var n := |b|; Square(a, n) && Shape(r, n) && c < n && Diagonal(r, n, c)
    requires Equivalent(Augment(a, b), r, |b|)
    requires forall i :: c <= i < |b| ==> r[i][c] == 0.0
    ensures !Injective(a, |b|)
  {
    hide Dot;
    var n, m := |b|, Augment(a, b);
    var v := seq(n, j requires 0 <= j < n =>
      if j < c then -r[j][c] / r[j][j] else if j == c then 1.0 else 0.0);
    var z := v + [0.0];
    forall i | 0 <= i < n ensures Dot(r[i], z) == 0.0 {
      if i < c {
        DotTwo(r[i], z, i, c);
        assert r[i][i] * (-r[i][c] / r[i][i]) == -r[i][c];
      } else {
        DotZero(r[i], z);
      }
    }
    assert Zero(r, n, z, Zeros(n)) && Zero(m, n, z, Zeros(n));
    forall i | 0 <= i < n ensures Dot(a[i], v) == 0.0 {
      DotAppend(a[i], v, b[i], 0.0);
      assert m[i] == a[i] + [b[i]] && Dot(m[i], z) == 0.0;
    }
    assert v[c] == 1.0;
  }

  lemma ExactColumnKeeps(m: Matrix, n: nat, c: nat, p: nat)
    requires Shape(m, n) && c < n && p < n && Shape(Swap(m, c, p), n) && Swap(m, c, p)[c][c] != 0.0
    ensures Equivalent(m, Eliminate(Swap(m, c, p), n, c), n)
  {
    hide Zero, Eliminate;
    forall z: Vec, d: Vec | |z| == n + 1 && d == Zeros(n)
      ensures Zero(m, n, z, d) <==> Zero(Eliminate(Swap(m, c, p), n, c), n, z, d)
    {
      EliminateKeeps(Swap(m, c, p), n, c, z, d);
      SwapKeeps(m, n, c, p, z, d);
      assert Swap(d, c, p) == d;
    }
  }

  lemma PivotExists(a: Matrix, b: Vec, r: Matrix, c: nat)
    requires Square(a, |b|) && Injective(a, |b|) && Shape(r, |b|) && c < |b| && Diagonal(r, |b|, c)
    requires Equivalent(Augment(a, b), r, |b|)
    ensures r[Pivot(r, |b|, c)][c] != 0.0
  {
    hide Equivalent, Diagonal, Injective, Augment;
    if r[Pivot(r, |b|, c)][c] == 0.0 {
      NoPivotNoInjection(a, b, r, c);
      assert false;
    }
  }

  /** For an injective matrix, elimination without the clamp never runs out of pivots. */
  lemma {:induction false} ExactReduction(a: Matrix, b: Vec, c: nat) returns (r: Matrix)
    requires Square(a, |b|) && Injective(a, |b|) && c <= |b|
    ensures Shape(r, |b|) && Diagonal(r, |b|, c) && Equivalent(Augment(a, b), r, |b|)
  {
    hide Zero, Eliminate, Clamp, Pivot, Augment, Injective;
    if c == 0 {
      r := Augment(a, b);
    } else {
      var n := |b|;
      var q := ExactReduction(a, b, c - 1);
      var p := Pivot(q, n, c - 1);
      PivotExists(a, b, q, c - 1);
      SwapDiagonal(q, n, c - 1, p);
      r := Eliminate(Swap(q, c - 1, p), n, c - 1);
      EliminateDiagonal(Swap(q, c - 1, p), n, c - 1);
      ExactColumnKeeps(q, n, c - 1, p);
    }
  }

  lemma SwapDiagonal(m: Matrix, n: nat, c: nat, p: nat)
    requires Shape(m, n) && c <= p < n && Diagonal(m, n, c)
    ensures Shape(Swap(m, c, p), n) && Diagonal(Swap(m, c, p), n, c)
  {
  }

  lemma AugmentedSolves(a: Matrix, b: Vec, x: Vec)
    requires Square(a, |b|) && |x| == |b|
    ensures Zero(Augment(a, b), |b|, x + [-1.0], Zeros(|b|)) <==> Solves(a, b, x)
  {
    hide Dot;
    forall i | 0 <= i < |b|
      ensures Dot(Augment(a, b)[i], x + [-1.0]) + Zeros(|b|)[i] == Dot(a[i], x) - b[i]
    {
      DotAppend(a[i], x, b[i], -1.0);
    }
  }

  lemma DiagonalSolves(m: Matrix, n: nat, x: Vec)
    requires Shape(m, n) && Diagonal(m, n, n) && |x| == n
    ensures Zero(m, n, x + [-1.0], Zeros(n)) <==> forall i :: 0 <= i < n ==> x[i] == m[i][n] / m[i][i]
  {
    hide Dot;
    forall i | 0 <= i < n
      ensures Dot(m[i], x + [-1.0]) + Zeros(n)[i] == 0.0 <==> x[i] == m[i][n] / m[i][i]
    {
      DiagonalRow(m, n, i, x);
    }
  }

  /** A square matrix that kills only the zero vector reaches every right-hand side, once. */
  lemma InjectiveSolvable(a: Matrix, b: Vec) returns (x: Vec)
    requires Square(a, |b|) && Injective(a, |b|)
    ensures Solves(a, b, x)
    ensures forall y :: Solves(a, b, y) ==> y == x
  {
    hide Dot, Zero, Augment;
    var n := |b|;
    var r := ExactReduction(a, b, n);
    x := ReadOff(r, n);
    DiagonalSolves(r, n, x);
    AugmentedSolves(a, b, x);
    forall y | Solves(a, b, y) ensures y == x {
      InjectiveAtMostOne(a, b, x, y);
    }
  }

  lemma InjectiveAtMostOne(a: Matrix, b: Vec, x: Vec, y: Vec)
    requires Square(a, |b|) && Injective(a, |b|) && Solves(a, b, x) && Solves(a, b, y)
    ensures x == y
  {
    hide Dot;
    var v := Combine(1.0, x, y);
    forall i | 0 <= i < |b| ensures Dot(a[i], v) == 0.0 {
      DotCommutes(a[i], v);
      DotCombine(1.0, x, y, a[i]);
      DotCommutes(x, a[i]);
      DotCommutes(y, a[i]);
    }
    assert forall j :: 0 <= j < |b| ==> v[j] == 0.0;
  }
}
