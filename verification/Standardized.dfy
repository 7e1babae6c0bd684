/**
 The standardised design of model_eval.py, said of its columns: over the training rows that have a
 value each column has mean zero and mean square one, a missing value reads as zero, and a flag
 column tells where; and what a prediction says of the score behind it.
 */
module Standardized {
  import opened Reals
  import opened LinearSolve
  import opened Logistic
  import opened WalkForward

  // ------------------------------------------------------------- where a column is

  lemma {:induction false} ColumnAt(sqrt: real -> real, train: seq<Features>, cols: seq<string>, f: Features, c: nat)
    requires (forall n :: n in cols ==> Values(train, n) != []) && c < |cols|
    ensures var v := Values(train, cols[c]);
      EncodeColumns(sqrt, train, cols, f)[c] == if cols[c] in f then (f[cols[c]] - Mean(v)) / Deviation(sqrt, v) else 0.0
  {
    hide Mean, Deviation, Values;
    if c > 0 {
      ColumnAt(sqrt, train, cols[1..], f, c - 1);
    }
  }

  lemma {:induction false} FlagAt(missing: seq<string>, f: Features, k: nat)
    requires k < |missing|
    ensures EncodeMissing(missing, f)[k] == if missing[k] in f then 0.0 else 1.0
  {
    if k > 0 {
      FlagAt(missing[1..], f, k - 1);
    }
  }

  /** An encoded row: 1, then the columns, then the flags. Multiplied out, a value present is its
      distance from the training mean in training deviations. */
  lemma EncodedAt(sqrt: real -> real, train: seq<Features>, cols: seq<string>, missing: seq<string>, f: Features)
    requires forall n :: n in cols ==> Values(train, n) != []
    ensures var x := Encode(sqrt, train, cols, missing, f);
      && |x| == 1 + |cols| + |missing| && x[0] == 1.0
      && (forall c | 0 <= c < |cols| :: var v := Values(train, cols[c]);
            if cols[c] in f then x[1 + c] * Deviation(sqrt, v) == f[cols[c]] - Mean(v) else x[1 + c] == 0.0)
      && forall k | 0 <= k < |missing| :: x[1 + |cols| + k] == if missing[k] in f then 0.0 else 1.0
  {
    hide Mean, Deviation, Values, EncodeColumns, EncodeMissing;
    var x := Encode(sqrt, train, cols, missing, f);
    forall c | 0 <= c < |cols| ensures var v := Values(train, cols[c]);
      if cols[c] in f then x[1 + c] * Deviation(sqrt, v) == f[cols[c]] - Mean(v) else x[1 + c] == 0.0
    {
      var v := Values(train, cols[c]);
      ColumnAt(sqrt, train, cols, f, c);
      assert x[1 + c] == EncodeColumns(sqrt, train, cols, f)[c];
      if cols[c] in f {
        Divided(f[cols[c]] - Mean(v), Deviation(sqrt, v));
      }
    }
    forall k | 0 <= k < |missing| ensures x[1 + |cols| + k] == if missing[k] in f then 0.0 else 1.0 {
      FlagAt(missing, f, k);
      assert x[1 + |cols| + k] == EncodeMissing(missing, f)[k];
    }
  }

  lemma Divided(a: real, d: real)
    requires d != 0.0
    ensures a / d * d == a
  {
  }

  // ------------------------------------------------------------- mean zero, mean square one

  function Distances(v: seq<real>, m: real): seq<real> {
    if v == [] then [] else [v[0] - m] + Distances(v[1..], m)
  }

  lemma {:induction false} DistancesSum(v: seq<real>, m: real)
    ensures Sum(Distances(v, m)) == Sum(v) - |v| as real * m
  {
    if v != [] {
      DistancesSum(v[1..], m);
      OneMore(|v[1..]| as real, m);
    }
  }

  lemma OneMore(n: real, m: real)
    ensures (n + 1.0) * m == n * m + m
  {
  }

  /** Values less m, in units of d. */
  function Scale(v: seq<real>, m: real, d: real): (r: seq<real>)
    requires d != 0.0
  {
    if v == [] then [] else [(v[0] - m) / d] + Scale(v[1..], m, d)
  }

  function Squares(v: seq<real>): seq<real> {
    if v == [] then [] else [Times(v[0], v[0])] + Squares(v[1..])
  }

  /** The entries a column has for the rows with a value. */
  function Entries(rows: seq<Features>, n: string, m: real, d: real): (r: seq<real>)
    requires d != 0.0
  {
    if rows == [] then []
    else (if n in rows[0] then [(rows[0][n] - m) / d] else []) + Entries(rows[1..], n, m, d)
  }

  /** Column n of the encoded training rows that have a value there. */
  function Encoded(sqrt: real -> real, train: seq<Features>, n: string): seq<real>
    requires Values(train, n) != []
  {
    Entries(train, n, Mean(Values(train, n)), Deviation(sqrt, Values(train, n)))
  }

  lemma {:induction false} EntriesScale(rows: seq<Features>, n: string, m: real, d: real)
    requires d != 0.0
    ensures Entries(rows, n, m, d) == Scale(Values(rows, n), m, d)
  {
    if rows != [] {
      EntriesScale(rows[1..], n, m, d);
      if n in rows[0] {
        assert Values(rows, n)[1..] == Values(rows[1..], n);
      }
    }
  }

  lemma {:induction false} ScaleSums(v: seq<real>, m: real, d: real)
    requires d != 0.0
    ensures Times(Sum(Scale(v, m, d)), d) == Sum(Distances(v, m))
    ensures Times(Sum(Squares(Scale(v, m, d))), Times(d, d)) == Sum(SquaredDeviations(v, m))
  {
    hide Times, Sum, Squares, Distances, SquaredDeviations, Scale;
    if v == [] {
      NothingScaled(m, d);
      TimesZero(0.0, d);
      TimesZero(0.0, Times(d, d));
    } else {
      ScaleSums(v[1..], m, d);
      var rest := Scale(v[1..], m, d);
      ScaleHead(v, m, d);
      Scaled(v[0] - m, d, Sum(rest), Sum(Squares(rest)));
    }
  }

  lemma NothingScaled(m: real, d: real)
    requires d != 0.0
    ensures Sum(Scale([], m, d)) == 0.0 == Sum(Squares(Scale([], m, d)))
    ensures Sum(Distances([], m)) == 0.0 == Sum(SquaredDeviations([], m))
  {
  }

  lemma ScaleHead(v: seq<real>, m: real, d: real)
    requires d != 0.0 && v != []
    ensures var e, rest := (v[0] - m) / d, Scale(v[1..], m, d);
      && Sum(Scale(v, m, d)) == e + Sum(rest) && Sum(Squares(Scale(v, m, d))) == Times(e, e) + Sum(Squares(rest))
    ensures Sum(Distances(v, m)) == v[0] - m + Sum(Distances(v[1..], m))
    ensures Sum(SquaredDeviations(v, m)) == Times(v[0] - m, v[0] - m) + Sum(SquaredDeviations(v[1..], m))
  {
    var e, rest := (v[0] - m) / d, Scale(v[1..], m, d);
    assert Scale(v, m, d) == [e] + rest;
    assert Scale(v, m, d)[1..] == rest;
    SquaresHead(Scale(v, m, d));
    assert Distances(v, m)[1..] == Distances(v[1..], m);
    assert SquaredDeviations(v, m)[1..] == SquaredDeviations(v[1..], m);
  }

  lemma SquaresHead(v: seq<real>)
    requires v != []
    ensures Sum(Squares(v)) == Times(v[0], v[0]) + Sum(Squares(v[1..]))
  {
    hide Times;
    assert Squares(v)[1..] == Squares(v[1..]);
  }

  lemma Scaled(a: real, d: real, s: real, q: real)
    requires d != 0.0
    ensures Times(a / d + s, d) == a + Times(s, d)
    ensures Times(Times(a / d, a / d) + q, Times(d, d)) == Times(a, a) + Times(q, Times(d, d))
  {
    var e := a / d;
    assert e * d == a;
    assert e * e * (d * d) == (e * d) * (e * d);
  }

  /** The mean squared distance of the values from their mean. */
  function Spread(v: seq<real>): real
    requires v != []
  {
    Sum(SquaredDeviations(v, Mean(v))) / |v| as real
  }

  /** Over the training rows with a value, a column adds up to zero; and, where the square root is
      exact and the values differ, its squares add up to their number. */
  lemma ColumnMoments(sqrt: real -> real, train: seq<Features>, n: string)
    requires Values(train, n) != []
    ensures Sum(Encoded(sqrt, train, n)) == 0.0
    ensures var v := Values(train, n);
      sqrt(Spread(v)) != 0.0 && sqrt(Spread(v)) * sqrt(Spread(v)) == Spread(v) ==>
        Sum(Squares(Encoded(sqrt, train, n))) == |v| as real
  {
    hide Values, Entries, Scale, Mean, Deviation, Spread;
    EntriesScale(train, n, Mean(Values(train, n)), Deviation(sqrt, Values(train, n)));
    SeriesMoments(sqrt, Values(train, n));
  }

  lemma SeriesMoments(sqrt: real -> real, v: seq<real>)
    requires v != []
    ensures var e := Scale(v, Mean(v), Deviation(sqrt, v));
      && Sum(e) == 0.0
      && (sqrt(Spread(v)) != 0.0 && sqrt(Spread(v)) * sqrt(Spread(v)) == Spread(v) ==> Sum(Squares(e)) == |v| as real)
  {
    hide Scale, Squares, SquaredDeviations, Sum, Times, Distances;
    var d, m := Deviation(sqrt, v), Mean(v);
    ScaleSums(v, m, d);
    DistancesSum(v, m);
    Centred(Sum(v), |v| as real, m);
    TimesZero(Sum(Scale(v, m, d)), d);
    var q, k := Sum(SquaredDeviations(v, m)), |v| as real;
    var s := Sum(Squares(Scale(v, m, d)));
    if sqrt(Spread(v)) != 0.0 && sqrt(Spread(v)) * sqrt(Spread(v)) == Spread(v) {
      assert d == sqrt(Spread(v)) && Spread(v) == q / k;
      hide *;
      Normal(s, d, q, k);
    }
  }

  lemma Centred(s: real, n: real, m: real)
    requires n > 0.0 && m == s / n
    ensures s - n * m == 0.0
  {
  }

  lemma Normal(s: real, d: real, q: real, n: real)
    requires n > 0.0 && d != 0.0 && d * d == q / n && Times(s, Times(d, d)) == q
    ensures s == n
  {
    var k := d * d;
    TimesSigns(d, d);
    TimesZero(d, d);
    assert k > 0.0 && k * n == q;
    assert (s - n) * k == 0.0;
  }

  // ------------------------------------------------------------- which columns, and what is predicted

  function Having(rows: seq<Features>, n: string): nat {
    if rows == [] then 0 else (if n in rows[0] then 1 else 0) + Having(rows[1..], n)
  }

  lemma {:induction false} ValuesHad(rows: seq<Features>, n: string)
    ensures |Values(rows, n)| == Having(rows, n)
    ensures forall v :: v in Values(rows, n) <==> exists f :: f in rows && n in f && f[n] == v
  {
    if rows != [] {
      ValuesHad(rows[1..], n);
      assert rows == [rows[0]] + rows[1..];
      if n in rows[0] {
        assert Values(rows, n) == [rows[0][n]] + Values(rows[1..], n);
      }
    }
  }

  /** A feature is a column exactly when five training rows have it and two of them differ there. */
  lemma {:induction false} ColumnIff(train: seq<Features>, names: seq<string>, n: string)
    ensures n in Columns(train, names)
      <==> n in names && Having(train, n) >= 5
           && exists f, g :: f in train && g in train && n in f && n in g && f[n] != g[n]
  {
    hide Having, Values;
    if names != [] {
      var k := |names| - 1;
      ColumnIff(train, names[..k], n);
      assert names == names[..k] + [names[k]];
      if n == names[k] {
        InformativeIff(train, n);
      }
      hide Informative;
    }
  }

  lemma InformativeIff(train: seq<Features>, n: string)
    ensures Informative(train, n)
      <==> Having(train, n) >= 5 && exists f, g :: f in train && g in train && n in f && n in g && f[n] != g[n]
  {
    hide Having, Values;
    ValuesHad(train, n);
    var v := Values(train, n);
    if Informative(train, n) {
      var i :| 0 <= i < |v| && v[i] != v[0];
      assert v[i] in v && v[0] in v;
    }
    if |v| >= 5 {
      if f, g :| f in train && g in train && n in f && n in g && f[n] != g[n] {
        assert f[n] in v && g[n] in v;
        var i :| 0 <= i < |v| && v[i] == f[n];
        var j :| 0 <= j < |v| && v[j] == g[n];
        assert v[i] != v[0] || v[j] != v[0];
      }
    }
  }

  /** A prediction p, in percent, of a row with score z is to 100 - p as exp(z) is to 1. */
  lemma PredictionOdds(exp: Exp, w: Vec, x: Matrix, i: nat)
    requires Positive(exp) && Design(x, |w|) && i < |x| && -30.0 <= Dot(w, x[i]) <= 30.0
    ensures var p := Predict(exp, w, x)[i];
      0.0 < p < 100.0 && p * exp(-Dot(w, x[i])) == 100.0 - p
  {
    var z := Dot(w, x[i]);
    hide Dot;
    assert exp(-z) > 0.0;
    var p, e := Predict(exp, w, x)[i], exp(-z);
    assert p == 100.0 * (1.0 / (1.0 + e));
    Share(p, e);
  }

  lemma Share(p: real, e: real)
    requires e > 0.0 && p == 100.0 * (1.0 / (1.0 + e))
    ensures p * e == 100.0 - p
  {
    var q := 1.0 / (1.0 + e);
    assert q * (1.0 + e) == 1.0;
    assert q * e == 1.0 - q;
    assert p * e == 100.0 * (q * e);
  }
}
