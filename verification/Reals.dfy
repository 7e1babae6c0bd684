/** Magnitudes and sums; products and quotients that proofs can keep closed, with the few facts used about them. */
module Reals {
  function Abs(x: real): real {
    if x < 0.0 then -x else x
  }

  function Sum(v: seq<real>): real {
    if v == [] then 0.0 else v[0] + Sum(v[1..])
  }

  function SquaredDeviations(v: seq<real>, m: real): seq<real> {
    if v == [] then [] else [(v[0] - m) * (v[0] - m)] + SquaredDeviations(v[1..], m)
  }

  function Times(a: real, b: real): real {
    a * b
  }

  function Over(a: real, d: real): real
    requires d != 0.0
  {
    a / d
  }

  lemma TimesFacts(a: real, f: real, b: real, z: real, q: real)
    ensures Times(a + b, z) == Times(a, z) + Times(b, z)
    ensures Times(a - b, z) == Times(a, z) - Times(b, z)
    ensures Times(Times(f, b), z) == Times(f, Times(b, z))
    ensures Times(f, b + q) == Times(f, b) + Times(f, q)
    ensures Times(a, b) == Times(b, a)
  {
  }

  lemma TimesZero(a: real, b: real)
    ensures Times(a, b) == 0.0 <==> a == 0.0 || b == 0.0
  {
  }

  lemma TimesSigns(a: real, b: real)
    ensures a > 0.0 && b > 0.0 ==> Times(a, b) > 0.0
    ensures Times(a, a) >= 0.0
  {
    if a < 0.0 {
      assert Times(a, a) == (0.0 - a) * (0.0 - a);
    }
  }

  lemma TimesOrders(x: real, y: real, k: real)
    ensures k >= 0.0 && x <= y ==> Times(x, k) <= Times(y, k)
    ensures k > 0.0 && x < y ==> Times(x, k) < Times(y, k)
  {
  }

  lemma OverOrders(x: real, y: real, d: real)
    requires d > 0.0
    ensures x < y ==> Over(x, d) < Over(y, d)
    ensures x <= y ==> Over(x, d) <= Over(y, d)
    ensures Over(0.0, d) == 0.0
  {
  }
}
