/**
 The two AUC routines of the model evaluation: the quadratic Mann-Whitney count
 of walkforward.py and the sort-and-average-rank form of model_eval.py. Both are
 loops over mutable state here, and both are proved to return the same value.
 */
module RankAuc {
  import opened Options

  type Label = y: int | y == 0 || y == 1

  datatype Pair = Pair(score: real, y: Label)

  // ---------------------------------------------------------------- meaning

  /** What one (positive, negative) comparison is worth. */
  function Half(p: real, n: real): real {
    if p > n then 1.0 else if p == n then 0.5 else 0.0
  }

  function ScoresOf(pairs: seq<Pair>, y: Label): seq<real> {
    if pairs == [] then []
    else if pairs[0].y == y then [pairs[0].score] + ScoresOf(pairs[1..], y)
    else ScoresOf(pairs[1..], y)
  }

  function AllScores(pairs: seq<Pair>): (s: seq<real>)
    ensures |s| == |pairs|
  {
    if pairs == [] then [] else [pairs[0].score] + AllScores(pairs[1..])
  }

  /** Comparisons won by one score against a list of scores. */
  function WinsOver(p: real, ns: seq<real>): real {
    if ns == [] then 0.0 else Half(p, ns[0]) + WinsOver(p, ns[1..])
  }

  function Wins(ps: seq<real>, ns: seq<real>): real {
    if ps == [] then 0.0 else WinsOver(ps[0], ns) + Wins(ps[1..], ns)
  }

  function Comparisons(pos: nat, neg: nat): (r: real) {
    pos as real * neg as real
  }

  /** The probability that a random positive outscores a random negative. */
  function Auc(pairs: seq<Pair>): Option<real> {
    var pos, neg := ScoresOf(pairs, 1), ScoresOf(pairs, 0);
    if pos == [] || neg == [] then None
    else Some(Wins(pos, neg) / Comparisons(|pos|, |neg|))
  }

  lemma {:induction false} WinsOverAppend(p: real, a: seq<real>, b: seq<real>)
    ensures WinsOver(p, a + b) == WinsOver(p, a) + WinsOver(p, b)
  {
    if a == [] {
      assert a + b == b;
    } else {
      assert (a + b)[1..] == a[1..] + b;
      WinsOverAppend(p, a[1..], b);
    }
  }

  lemma {:induction false} WinsAppend(a: seq<real>, b: seq<real>, ns: seq<real>)
    ensures Wins(a + b, ns) == Wins(a, ns) + Wins(b, ns)
  {
    if a == [] {
      assert a + b == b;
    } else {
      assert (a + b)[1..] == a[1..] + b;
      WinsAppend(a[1..], b, ns);
    }
  }

  // ------------------------------------------------- the quadratic routine

  /** walkforward._auc: two filters and a double loop over the comparisons. */
  method PairwiseAuc(pairs: seq<Pair>) returns (r: Option<real>)
    ensures r == Auc(pairs)
  {
    var pos, neg := ScoresOf(pairs, 1), ScoresOf(pairs, 0);
    if pos == [] || neg == [] {
      return None;
    }
    var wins := 0.0;
    for i := 0 to |pos|
      invariant wins == Wins(pos[..i], neg)
    {
      ghost var before := wins;
      for j := 0 to |neg|
        invariant wins == before + WinsOver(pos[i], neg[..j])
      {
        WinsOverSnoc(pos[i], neg, j);
        if pos[i] > neg[j] {
          wins := wins + 1.0;
        } else if pos[i] == neg[j] {
          wins := wins + 0.5;
        }
      }
      assert neg[..|neg|] == neg;
      WinsSnoc(pos, neg, i);
    }
    assert pos[..|pos|] == pos;
    r := Some(wins / Comparisons(|pos|, |neg|));
  }

  lemma WinsOverSnoc(p: real, ns: seq<real>, j: nat)
    requires j < |ns|
    ensures WinsOver(p, ns[..j + 1]) == WinsOver(p, ns[..j]) + Half(p, ns[j])
  {
    assert ns[..j + 1] == ns[..j] + [ns[j]];
    WinsOverAppend(p, ns[..j], [ns[j]]);
  }

  lemma WinsSnoc(ps: seq<real>, ns: seq<real>, i: nat)
    requires i < |ps|
    ensures Wins(ps[..i + 1], ns) == Wins(ps[..i], ns) + WinsOver(ps[i], ns)
  {
    assert ps[..i + 1] == ps[..i] + [ps[i]];
    WinsAppend(ps[..i], [ps[i]], ns);
  }

  // ------------------------------------------------------------ the sorting

  ghost predicate Within(pairs: seq<Pair>, order: seq<nat>) {
    forall t :: 0 <= t < |order| ==> order[t] < |pairs|
  }

  /** Distinct indices of `pairs`, none below `lo`, scores ascending. */
  ghost predicate Ascending(pairs: seq<Pair>, order: seq<nat>, lo: nat) {
    && (forall t :: 0 <= t < |order| ==> lo <= order[t] < |pairs|)
    && (forall s, t :: 0 <= s < t < |order| ==> order[s] != order[t])
    && (forall s, t :: 0 <= s < t < |order| ==> pairs[order[s]].score <= pairs[order[t]].score)
  }

  /** `order` lists every index of `pairs` once, scores ascending. */
  ghost predicate IsOrder(pairs: seq<Pair>, order: seq<nat>) {
    && |order| == |pairs|
    && Ascending(pairs, order, 0)
    && (forall k :: 0 <= k < |pairs| ==> k in order)
  }

  function ScoresAt(pairs: seq<Pair>, order: seq<nat>): (s: seq<real>)
    requires Within(pairs, order)
    ensures |s| == |order| && forall t :: 0 <= t < |s| ==> s[t] == pairs[order[t]].score
  {
    seq(|order|, t requires 0 <= t < |order| => pairs[order[t]].score)
  }

  /** Stable sort of the indices `k..` of `pairs` by score. */
  function SortFrom(pairs: seq<Pair>, k: nat): (order: seq<nat>)
    requires k <= |pairs|
    ensures |order| == |pairs| - k && Within(pairs, order)
    ensures forall a :: a in order <==> k <= a < |pairs|
    decreases |pairs| - k
  {
    if k == |pairs| then [] else Insert(pairs, k, SortFrom(pairs, k + 1))
  }

  function Insert(pairs: seq<Pair>, k: nat, order: seq<nat>): (r: seq<nat>)
    requires k < |pairs| && Within(pairs, order)
    ensures |r| == |order| + 1 && Within(pairs, r)
    ensures forall a :: a in r <==> a == k || a in order
  {
    if order == [] || pairs[k].score <= pairs[order[0]].score then [k] + order
    else [order[0]] + Insert(pairs, k, order[1..])
  }

  lemma AscendingCons(pairs: seq<Pair>, a: nat, tail: seq<nat>, lo: nat)
    requires Ascending(pairs, tail, lo) && lo <= a < |pairs| && a !in tail
    requires forall b :: b in tail ==> b < |pairs| && pairs[a].score <= pairs[b].score
    ensures Ascending(pairs, [a] + tail, lo)
  {
    forall t | 0 <= t < |tail| ensures a != tail[t] && pairs[a].score <= pairs[tail[t]].score {
      assert tail[t] in tail;
    }
  }

  lemma {:induction false} InsertAscending(pairs: seq<Pair>, k: nat, order: seq<nat>)
    requires k < |pairs| && Ascending(pairs, order, k + 1)
    ensures Ascending(pairs, Insert(pairs, k, order), k)
  {
    if order == [] || pairs[k].score <= pairs[order[0]].score {
      AscendingCons(pairs, k, order, k);
    } else {
      InsertAscending(pairs, k, order[1..]);
      AscendingCons(pairs, order[0], Insert(pairs, k, order[1..]), k);
    }
  }

  lemma {:induction false} SortAscending(pairs: seq<Pair>, k: nat)
    requires k <= |pairs|
    ensures Ascending(pairs, SortFrom(pairs, k), k)
    decreases |pairs| - k
  {
    if k < |pairs| {
      SortAscending(pairs, k + 1);
      InsertAscending(pairs, k, SortFrom(pairs, k + 1));
    }
  }

  lemma SortIsOrder(pairs: seq<Pair>)
    ensures IsOrder(pairs, SortFrom(pairs, 0))
  {
    SortAscending(pairs, 0);
  }

  /** `order` lists the indices below n, each once. */
  ghost predicate Lists(order: seq<nat>, n: nat) {
    && (forall s, t :: 0 <= s < t < |order| ==> order[s] != order[t])
    && (forall t :: 0 <= t < |order| ==> order[t] < n)
    && (forall a: nat :: a < n ==> a in order)
  }

  /** Take index n - 1 out of a listing. */
  lemma ListsLess(order: seq<nat>, n: nat, t: nat)
    requires Lists(order, n) && t < |order| && order[t] == n - 1
    ensures Lists(order[..t] + order[t + 1..], n - 1)
  {
    var rest := order[..t] + order[t + 1..];
    forall i | 0 <= i < |rest| ensures rest[i] < n - 1 {
      var j := if i < t then i else i + 1;
      assert rest[i] == order[j] && order[j] != order[t];
    }
    forall a: nat | a < n - 1 ensures a in rest {
      assert a in order;
      var i :| 0 <= i < |order| && order[i] == a;
      assert i < t ==> rest[i] == a;
      assert i > t ==> rest[i - 1] == a;
    }
  }

  lemma {:induction false} ListsWins(v: real, pairs: seq<Pair>, order: seq<nat>, n: nat)
    requires n <= |pairs| && Lists(order, n)
    ensures WinsOver(v, ScoresAt(pairs, order)) == WinsOver(v, AllScores(pairs[..n]))
  {
    hide WinsOver, ScoresAt, Half, AllScores;
    if n > 0 {
      assert n - 1 in order;
      var t :| 0 <= t < |order| && order[t] == n - 1;
      ListsLess(order, n, t);
      ListsWins(v, pairs, order[..t] + order[t + 1..], n - 1);
      TakenOut(v, pairs, order, t);
      LastScore(v, pairs, n);
    } else {
      assert order == [] && pairs[..n] == [];
      NothingWon(v, pairs);
    }
  }

  lemma NothingWon(v: real, pairs: seq<Pair>)
    ensures WinsOver(v, ScoresAt(pairs, [])) == 0.0 == WinsOver(v, AllScores([]))
  {
  }

  lemma ScoresAtHead(v: real, pairs: seq<Pair>, order: seq<nat>)
    requires order != [] && Within(pairs, order)
    ensures WinsOver(v, ScoresAt(pairs, order))
         == Half(v, pairs[order[0]].score) + WinsOver(v, ScoresAt(pairs, order[1..]))
  {
    assert ScoresAt(pairs, order)[1..] == ScoresAt(pairs, order[1..]);
  }

  lemma TakenOut(v: real, pairs: seq<Pair>, order: seq<nat>, t: nat)
    requires Within(pairs, order) && t < |order|
    ensures Within(pairs, order[..t] + order[t + 1..])
    ensures WinsOver(v, ScoresAt(pairs, order))
         == WinsOver(v, ScoresAt(pairs, order[..t] + order[t + 1..])) + Half(v, pairs[order[t]].score)
  {
    hide WinsOver, Half;
    ScoresAtAppend(v, pairs, order[..t], order[t + 1..]);
    ScoresAtAppend(v, pairs, order[..t], order[t..]);
    ScoresAtHead(v, pairs, order[t..]);
    assert order[..t] + order[t..] == order && order[t..][1..] == order[t + 1..];
  }

  lemma LastScore(v: real, pairs: seq<Pair>, n: nat)
    requires 0 < n <= |pairs|
    ensures WinsOver(v, AllScores(pairs[..n])) == WinsOver(v, AllScores(pairs[..n - 1])) + Half(v, pairs[n - 1].score)
  {
    assert pairs[..n] == pairs[..n - 1] + [pairs[n - 1]];
    AllScoresSnoc(pairs[..n - 1], pairs[n - 1]);
    WinsOverAppend(v, AllScores(pairs[..n - 1]), [pairs[n - 1].score]);
    assert [pairs[n - 1].score][1..] == [];
  }

  lemma {:induction false} AllScoresSnoc(pairs: seq<Pair>, p: Pair)
    ensures AllScores(pairs + [p]) == AllScores(pairs) + [p.score]
  {
    if pairs == [] {
      assert pairs + [p] == [p] && [p][1..] == [];
    } else {
      assert (pairs + [p])[1..] == pairs[1..] + [p];
      AllScoresSnoc(pairs[1..], p);
    }
  }

  lemma ScoresAtAppend(v: real, pairs: seq<Pair>, a: seq<nat>, b: seq<nat>)
    requires Within(pairs, a) && Within(pairs, b)
    ensures Within(pairs, a + b)
    ensures WinsOver(v, ScoresAt(pairs, a + b)) == WinsOver(v, ScoresAt(pairs, a)) + WinsOver(v, ScoresAt(pairs, b))
  {
    assert ScoresAt(pairs, a + b) == ScoresAt(pairs, a) + ScoresAt(pairs, b);
    WinsOverAppend(v, ScoresAt(pairs, a), ScoresAt(pairs, b));
  }

  /** A score wins the same over the scores in any order. */
  lemma OrderWins(v: real, pairs: seq<Pair>, order: seq<nat>)
    requires IsOrder(pairs, order)
    ensures WinsOver(v, ScoresAt(pairs, order)) == WinsOver(v, AllScores(pairs))
  {
    ListsWins(v, pairs, order, |pairs|);
    assert pairs[..|pairs|] == pairs;
  }

  // -------------------------------------------------------------- mid-ranks

  /** The average rank of a score: one half more than what it wins over all scores, itself included. */
  function MidRank(pairs: seq<Pair>, v: real): real {
    WinsOver(v, AllScores(pairs)) + 0.5
  }

  /** In a sorted list, a tie block [i..j] beats exactly the i entries before it. */
  lemma {:induction false} BlockWins(s: seq<real>, i: nat, j: nat, v: real)
    requires i <= j < |s|
    requires forall a :: 0 <= a < i ==> s[a] < v
    requires forall a :: i <= a <= j ==> s[a] == v
    requires forall a :: j < a < |s| ==> s[a] > v
    ensures WinsOver(v, s) == i as real + (j + 1 - i) as real / 2.0
  {
    assert s == s[..i] + (s[i..j + 1] + s[j + 1..]);
    WinsOverAppend(v, s[..i], s[i..j + 1] + s[j + 1..]);
    WinsOverAppend(v, s[i..j + 1], s[j + 1..]);
    UniformWins(v, s[..i], 1.0);
    UniformWins(v, s[i..j + 1], 0.5);
    UniformWins(v, s[j + 1..], 0.0);
  }

  lemma {:induction false} UniformWins(v: real, s: seq<real>, h: real)
    requires forall a :: 0 <= a < |s| ==> Half(v, s[a]) == h
    ensures WinsOver(v, s) == |s| as real * h
  {
    if s != [] {
      UniformWins(v, s[1..], h);
    }
  }

  lemma {:induction false} RankInBlock(pairs: seq<Pair>, order: seq<nat>, i: nat, j: nat)
    requires IsOrder(pairs, order) && i <= j < |order|
    requires forall a :: i <= a <= j ==> pairs[order[a]].score == pairs[order[i]].score
    requires i == 0 || pairs[order[i - 1]].score < pairs[order[i]].score
    requires j + 1 == |order| || pairs[order[j + 1]].score != pairs[order[i]].score
    ensures MidRank(pairs, pairs[order[i]].score) == (i + j) as real / 2.0 + 1.0
  {
    var s := ScoresAt(pairs, order);
    OrderWins(s[i], pairs, order);
    BlockWins(s, i, j, s[i]);
  }

  // ----------------------------------------------------- the rank-based routine

  function PositiveRankSum(pairs: seq<Pair>, ranks: seq<real>): real
    requires |ranks| == |pairs|
  {
    if pairs == [] then 0.0
    else (if pairs[0].y == 1 then ranks[0] else 0.0) + PositiveRankSum(pairs[1..], ranks[1..])
  }

  function LabelSum(pairs: seq<Pair>): int {
    if pairs == [] then 0 else pairs[0].y + LabelSum(pairs[1..])
  }

  lemma {:induction false} LabelSumCounts(pairs: seq<Pair>)
    ensures LabelSum(pairs) == |ScoresOf(pairs, 1)|
    ensures |pairs| == |ScoresOf(pairs, 1)| + |ScoresOf(pairs, 0)|
  {
    if pairs != [] {
      LabelSumCounts(pairs[1..]);
    }
  }

  /** With mid-ranks, the rank sum of the positives is their wins over everyone plus one half each. */
  lemma {:induction false} RankSumIsWins(pairs: seq<Pair>, ranks: seq<real>, all: seq<real>)
    requires |ranks| == |pairs|
    requires forall k :: 0 <= k < |pairs| ==> ranks[k] == WinsOver(pairs[k].score, all) + 0.5
    ensures PositiveRankSum(pairs, ranks)
         == Wins(ScoresOf(pairs, 1), all) + |ScoresOf(pairs, 1)| as real / 2.0
  {
    if pairs != [] {
      RankSumIsWins(pairs[1..], ranks[1..], all);
      if pairs[0].y == 1 {
        assert ScoresOf(pairs, 1)[1..] == ScoresOf(pairs[1..], 1);
      }
    }
  }

  /** All scores are the positives and the negatives. */
  lemma {:induction false} WinsSplit(v: real, pairs: seq<Pair>)
    ensures WinsOver(v, AllScores(pairs)) == WinsOver(v, ScoresOf(pairs, 1)) + WinsOver(v, ScoresOf(pairs, 0))
  {
    if pairs != [] {
      WinsSplit(v, pairs[1..]);
      assert AllScores(pairs)[1..] == AllScores(pairs[1..]);
      assert ScoresOf(pairs, pairs[0].y)[1..] == ScoresOf(pairs[1..], pairs[0].y);
    }
  }

  lemma {:induction false} WinsSplitAll(ps: seq<real>, pairs: seq<Pair>)
    ensures Wins(ps, AllScores(pairs)) == Wins(ps, ScoresOf(pairs, 1)) + Wins(ps, ScoresOf(pairs, 0))
  {
    if ps != [] {
      WinsSplit(ps[0], pairs);
      WinsSplitAll(ps[1..], pairs);
    }
  }

  /** What `a` loses to the others and what they lose to `a` add up to one a comparison. */
  lemma {:induction false} WinsPrepend(ps: seq<real>, a: real, ns: seq<real>)
    ensures Wins(ps, [a] + ns) == Wins(ps, ns) + (|ps| as real - WinsOver(a, ps))
  {
    if ps != [] {
      assert ([a] + ns)[1..] == ns;
      WinsPrepend(ps[1..], a, ns);
    }
  }

  /** A list compared with itself wins half of all comparisons. */
  lemma {:induction false} SelfWins(ps: seq<real>)
    ensures Wins(ps, ps) == |ps| as real * |ps| as real / 2.0
  {
    if ps != [] {
      var a, rest := ps[0], ps[1..];
      assert ps == [a] + rest;
      WinsPrepend(rest, a, rest);
      SelfWins(rest);
      var n := |rest| as real;
      assert |ps| as real == n + 1.0;
      assert (n + 1.0) * (n + 1.0) == n * n + 2.0 * n + 1.0;
    }
  }

  /** The identity behind the fast form. */
  lemma {:induction false} RankSumIdentity(pairs: seq<Pair>, ranks: seq<real>)
    requires |ranks| == |pairs|
    requires forall k :: 0 <= k < |pairs| ==> ranks[k] == MidRank(pairs, pairs[k].score)
    ensures var n := |ScoresOf(pairs, 1)| as real;
            PositiveRankSum(pairs, ranks) - n * (n + 1.0) / 2.0 == Wins(ScoresOf(pairs, 1), ScoresOf(pairs, 0))
  {
    var ps := ScoresOf(pairs, 1);
    RankSumIsWins(pairs, ranks, AllScores(pairs));
    WinsSplitAll(ps, pairs);
    SelfWins(ps);
    var n := |ps| as real;
    assert n * (n + 1.0) == n * n + n;
  }

  /** The tie-block loop of model_eval._rank_auc, over any sorted index list. */
  method AverageRanks(pairs: seq<Pair>, order: seq<nat>) returns (ranks: seq<real>)
    requires IsOrder(pairs, order)
    ensures |ranks| == |pairs|
    ensures forall k :: 0 <= k < |pairs| ==> ranks[k] == MidRank(pairs, pairs[k].score)
  {
    hide MidRank;
    ranks := seq(|pairs|, _ => 0.0);
    var i := 0;
    while i < |order|
      invariant 0 <= i <= |order| && |ranks| == |pairs|
      invariant 0 < i < |order| ==> pairs[order[i - 1]].score < pairs[order[i]].score
      invariant forall t :: 0 <= t < i ==> ranks[order[t]] == MidRank(pairs, pairs[order[t]].score)
    {
      var j := i;
      while j + 1 < |order| && pairs[order[j + 1]].score == pairs[order[i]].score
        invariant i <= j < |order|
        invariant forall a :: i <= a <= j ==> pairs[order[a]].score == pairs[order[i]].score
      {
        j := j + 1;
      }
      RankInBlock(pairs, order, i, j);
      for k := i to j + 1
        invariant |ranks| == |pairs|
        invariant forall t :: 0 <= t < k ==> ranks[order[t]] == MidRank(pairs, pairs[order[t]].score)
      {
        ranks := ranks[order[k] := (i + j) as real / 2.0 + 1.0];
      }
      i := j + 1;
    }
    forall k | 0 <= k < |pairs| ensures ranks[k] == MidRank(pairs, pairs[k].score) {
      assert k in order;
    }
  }

  /** model_eval._rank_auc: counts, average ranks of the sorted indices, rank sum of the positives. */
  method RankAuc(pairs: seq<Pair>) returns (r: Option<real>)
    ensures r == Auc(pairs)
  {
    hide IsOrder, SortFrom, MidRank, PositiveRankSum, Wins, ScoresOf, LabelSum;
    LabelSumCounts(pairs);
    var npos := LabelSum(pairs);
    var nneg := |pairs| - npos;
    if npos == 0 || nneg == 0 {
      return None;
    }
    SortIsOrder(pairs);
    var ranks := AverageRanks(pairs, SortFrom(pairs, 0));
    RankSumIdentity(pairs, ranks);
    var above := PositiveRankSum(pairs, ranks) - npos as real * (npos as real + 1.0) / 2.0;
    assert above == Wins(ScoresOf(pairs, 1), ScoresOf(pairs, 0));
    r := Some(above / Comparisons(npos, nneg));
  }

  // --------------------------------------------------- what the number means

  lemma {:induction false} WinsOverBounds(p: real, ns: seq<real>)
    ensures 0.0 <= WinsOver(p, ns) <= |ns| as real
  {
    if ns != [] {
      WinsOverBounds(p, ns[1..]);
    }
  }

  lemma {:induction false} WinsBounds(ps: seq<real>, ns: seq<real>)
    ensures 0.0 <= Wins(ps, ns) <= Comparisons(|ps|, |ns|)
  {
    if ps != [] {
      WinsOverBounds(ps[0], ns);
      WinsBounds(ps[1..], ns);
      assert Comparisons(|ps|, |ns|) == |ns| as real + Comparisons(|ps[1..]|, |ns|);
    }
  }

  lemma AucInUnitInterval(pairs: seq<Pair>)
    ensures Auc(pairs).Some? ==> 0.0 <= Auc(pairs).value <= 1.0
  {
    var ps, ns := ScoresOf(pairs, 1), ScoresOf(pairs, 0);
    if ps != [] && ns != [] {
      WinsBounds(ps, ns);
      Quotient(Wins(ps, ns), Comparisons(|ps|, |ns|));
    }
  }

  lemma Quotient(a: real, b: real)
    requires 0.0 <= a <= b && b > 0.0
    ensures 0.0 <= a / b <= 1.0
  {
  }

  lemma Complement(a: real, b: real, d: real)
    requires d > 0.0 && a + b == d
    ensures a / d == 1.0 - b / d
  {
    assert a / d + b / d == d / d;
  }

  /** Who loses what the other side wins. */
  lemma {:induction false} WinsComplement(ps: seq<real>, ns: seq<real>)
    ensures Wins(ps, ns) + Wins(ns, ps) == Comparisons(|ps|, |ns|)
  {
    if ps == [] {
      WinsOverNothing(ns);
    } else {
      assert ps == [ps[0]] + ps[1..];
      WinsPrepend(ns, ps[0], ps[1..]);
      WinsComplement(ps[1..], ns);
      assert Comparisons(|ps|, |ns|) == |ns| as real + Comparisons(|ps[1..]|, |ns|);
    }
  }

  lemma {:induction false} WinsOverNothing(ps: seq<real>)
    ensures Wins(ps, []) == 0.0
  {
    if ps != [] {
      WinsOverNothing(ps[1..]);
    }
  }

  function FlipLabels(pairs: seq<Pair>): seq<Pair> {
    if pairs == [] then []
    else [Pair(pairs[0].score, 1 - pairs[0].y)] + FlipLabels(pairs[1..])
  }

  lemma {:induction false} FlippedScores(pairs: seq<Pair>, y: Label)
    ensures ScoresOf(FlipLabels(pairs), y) == ScoresOf(pairs, 1 - y)
  {
    if pairs != [] {
      FlippedScores(pairs[1..], y);
    }
  }

  /** Swapping the classes turns AUC into 1 - AUC, so 0.5 is the no-skill point. */
  lemma AucOfFlippedLabels(pairs: seq<Pair>)
    ensures Auc(FlipLabels(pairs)).Some? <==> Auc(pairs).Some?
    ensures Auc(pairs).Some? ==> Auc(FlipLabels(pairs)).value == 1.0 - Auc(pairs).value
  {
    FlippedScores(pairs, 0);
    FlippedScores(pairs, 1);
    var ps, ns := ScoresOf(pairs, 1), ScoresOf(pairs, 0);
    if ps != [] && ns != [] {
      WinsComplement(ps, ns);
      Complement(Wins(ns, ps), Wins(ps, ns), Comparisons(|ps|, |ns|));
      assert Comparisons(|ps|, |ns|) == Comparisons(|ns|, |ps|);
    }
  }
}
