/**
 The resumable US backfill of scripts/backfill_us_priced.py: which days a run processes and
 what it records for the next one. Days are proleptic ordinals. A run's day budget, its clock
 and the days whose index cannot be fetched come from outside.
 */
module Backfill {
  import opened Options

  /** date.weekday() < 5 */
  predicate Business(day: int) {
    (day + 6) % 7 < 5
  }

  function BusinessDays(a: int, b: int): seq<int>
    decreases b - a + 1
  {
    if a > b then [] else BusinessDays(a, b - 1) + if Business(b) then [b] else []
  }

  /** The metadata of a finished run. */
  datatype Record = Record(from: int, through: int, targetEnd: int)

  /** What one run is given: the date, its day budget, whether the clock has run out before a
      day, which days fail to fetch, and the oldest live listing day if there is one. */
  datatype Outside = Outside(today: int, windowStart: int, days: int, late: int -> bool, fails: int -> bool, earliest: Option<int>)

  function MaxThrough(runs: seq<Record>): Option<int> {
    if runs == [] then None
    else
      var n := |runs| - 1;
      var before := MaxThrough(runs[..n]);
      if before.Some? && before.value >= runs[n].through then before else Some(runs[n].through)
  }

  function MaxEnd(runs: seq<Record>): Option<int> {
    if runs == [] then None
    else
      var n := |runs| - 1;
      var before := MaxEnd(runs[..n]);
      if before.Some? && before.value >= runs[n].targetEnd then before else Some(runs[n].targetEnd)
  }

  function FirstDay(runs: seq<Record>, out: Outside): int {
    var resume := MaxThrough(runs);
    if resume.Some? then resume.value + 1 else out.windowStart
  }

  function LastDay(runs: seq<Record>, out: Outside): int {
    var recorded := MaxEnd(runs);
    if recorded.Some? then recorded.value
    else (if out.earliest.Some? then out.earliest.value else out.today) - 1
  }

  class Backfiller {
    var runs: seq<Record>
    /** Every day whose filings were read, in order, over all runs. */
    var processed: seq<int>

    constructor ()
      ensures runs == [] && processed == []
    {
      runs, processed := [], [];
    }

    /** backfill without explicit start or end. `completed` is false when a budget or a fetch failure stopped it. */
    method Run(out: Outside) returns (completed: bool)
      modifies this
      ensures |runs| == |old(runs)| + 1 && runs[..|old(runs)|] == old(runs)
      ensures var r := runs[|old(runs)|];
        && MayFollow(old(runs), r, out) && (r.through >= r.from ==> Business(r.through))
        && processed == old(processed) + BusinessDays(r.from, r.through)
        && (completed ==> BusinessDays(r.from, r.through) == BusinessDays(r.from, r.targetEnd))
        && (!completed ==> Stopped(r, out))
    {
      hide Business;
      var first, last := FirstDay(runs, out), LastDay(runs, out);
      var count := 0;
      var through: Option<int> := None;
      completed := true;
      ghost var reached := first - 1;
      var day := first;
      while day <= last
        invariant reached == (if through.None? then first - 1 else through.value) < day
        invariant through.Some? ==> first <= through.value <= last && Business(through.value)
        invariant processed == old(processed) + BusinessDays(first, reached) && runs == old(runs)
        invariant count == |BusinessDays(first, reached)|
        invariant forall d | reached < d < day :: !Business(d)
        invariant first <= day && (first <= last ==> day <= last + 1)
        decreases last - day
      {
        if Business(day) {
          if count >= out.days || out.late(day) || out.fails(day) {
            completed := false;
            assert NextBusiness(reached, day);
            break;
          }
          NoDaysBetween(first, reached, day - 1);
          through, reached := Some(day), day;
          processed := processed + [day];
          count := count + 1;
        }
        day := day + 1;
      }
      runs := runs + [Record(first, if through.Some? then through.value else first - 1, last)];
      if completed && first <= last {
        NoDaysBetween(first, reached, last);
      }
    }
  }

  lemma {:induction false} NoDaysBetween(a: int, m: int, b: int)
    requires a - 1 <= m <= b && forall d | m < d <= b :: !Business(d)
    ensures BusinessDays(a, b) == BusinessDays(a, m)
    decreases b - m
  {
    if m < b {
      NoDaysBetween(a, m, b - 1);
    }
  }

  /** The run ended before a business day, for one of the three reasons. */
  ghost predicate Stopped(r: Record, out: Outside) {
    exists day :: NextBusiness(r.through, day) && day <= r.targetEnd
      && (|BusinessDays(r.from, r.through)| >= out.days || out.late(day) || out.fails(day))
  }

  ghost predicate NextBusiness(after: int, day: int) {
    after < day && Business(day) && forall d | after < d < day :: !Business(d)
  }

  lemma {:induction false} DaysSplit(a: int, m: int, b: int)
    requires a - 1 <= m <= b
    ensures BusinessDays(a, b) == BusinessDays(a, m) + BusinessDays(m + 1, b)
    decreases b - m
  {
    hide Business;
    if m < b {
      DaysSplit(a, m, b - 1);
    }
  }

  /** The days are exactly the business days of the range, each once and in order. */
  lemma {:induction false} DaysAre(a: int, b: int)
    ensures forall d :: d in BusinessDays(a, b) <==> a <= d <= b && Business(d)
    ensures forall i, j | 0 <= i < j < |BusinessDays(a, b)| :: BusinessDays(a, b)[i] < BusinessDays(a, b)[j]
    decreases b - a + 1
  {
    hide Business;
    if a <= b {
      DaysAre(a, b - 1);
      var before := BusinessDays(a, b - 1);
      assert forall i | 0 <= i < |before| :: before[i] in before;
    }
  }

  // ------------------------------------------------------------- over all runs

  /** The record a run may leave, given the records before it. */
  ghost predicate MayFollow(runs: seq<Record>, r: Record, out: Outside) {
    && r.from == FirstDay(runs, out) && r.targetEnd == LastDay(runs, out)
    && (r.through == r.from - 1 || r.from <= r.through <= r.targetEnd)
  }

  ghost predicate History(runs: seq<Record>, outs: seq<Outside>)
  {
    |outs| == |runs| && forall i | 0 <= i < |runs| :: MayFollow(runs[..i], runs[i], outs[i])
  }

  function DaysOf(runs: seq<Record>): seq<int> {
    if runs == [] then [] else DaysOf(runs[..|runs| - 1]) + BusinessDays(runs[|runs| - 1].from, runs[|runs| - 1].through)
  }

  /** What the records so far say: the last one resumes furthest, and everything before that day is done. */
  ghost predicate Resumable(runs: seq<Record>) {
    && runs != []
    && MaxThrough(runs) == Some(runs[|runs| - 1].through)
    && MaxEnd(runs) == Some(runs[0].targetEnd)
    && runs[|runs| - 1].from >= runs[0].from
    && runs[|runs| - 1].through >= runs[0].from - 1
    && DaysOf(runs) == BusinessDays(runs[0].from, runs[|runs| - 1].through)
    && (runs[|runs| - 1].through == runs[0].from - 1 || runs[|runs| - 1].through <= runs[0].targetEnd)
    && forall r | r in runs :: r.targetEnd == runs[0].targetEnd
  }

  lemma FirstRun(r: Record, out: Outside)
    requires MayFollow([], r, out)
    ensures Resumable([r])
  {
    assert [r][..0] == [];
    assert DaysOf([]) == [];
  }

  lemma NextRun(runs: seq<Record>, r: Record, out: Outside)
    requires Resumable(runs) && MayFollow(runs, r, out)
    ensures Resumable(runs + [r])
  {
    var all := runs + [r];
    assert all[..|all| - 1] == runs;
    DaysSplit(runs[0].from, runs[|runs| - 1].through, r.through);
    hide BusinessDays, Business;
  }

  lemma {:induction false} HistoryResumable(runs: seq<Record>, outs: seq<Outside>)
    requires runs != [] && History(runs, outs)
    ensures Resumable(runs)
  {
    hide Resumable;
    var n := |runs| - 1;
    var before := runs[..n];
    assert MayFollow(before, runs[n], outs[n]);
    assert runs == before + [runs[n]];
    if n == 0 {
      FirstRun(runs[0], outs[0]);
    } else {
      forall i | 0 <= i < n ensures MayFollow(before[..i], before[i], outs[..n][i]) {
        assert before[..i] == runs[..i];
      }
      HistoryResumable(before, outs[..n]);
      NextRun(before, runs[n], outs[n]);
    }
  }

  /** Over any sequence of runs, the days processed are exactly the business days from the first
      run's start through the last recorded day, with no gap and no repeat, and every run aims
      for the target end the first one fixed. */
  lemma NoGapNoRepeat(runs: seq<Record>, outs: seq<Outside>)
    requires runs != [] && History(runs, outs)
    ensures DaysOf(runs) == BusinessDays(runs[0].from, runs[|runs| - 1].through)
    ensures forall r | r in runs :: r.targetEnd == runs[0].targetEnd && r.through <= runs[|runs| - 1].through
  {
    HistoryResumable(runs, outs);
    MaxIsMax(runs);
  }

  lemma {:induction false} MaxIsMax(runs: seq<Record>)
    requires runs != []
    ensures MaxThrough(runs).Some? && forall r | r in runs :: r.through <= MaxThrough(runs).value
  {
    var n := |runs| - 1;
    assert runs == runs[..n] + [runs[n]];
    if n > 0 {
      MaxIsMax(runs[..n]);
    }
  }

  /** When a run completes, every business day up to the target end has been processed. */
  lemma CompletedRunReachesEnd(runs: seq<Record>, outs: seq<Outside>)
    requires runs != [] && History(runs, outs)
    requires var r := runs[|runs| - 1];
      BusinessDays(r.from, r.through) == BusinessDays(r.from, r.targetEnd)
    ensures DaysOf(runs) == BusinessDays(runs[0].from, runs[0].targetEnd)
  {
    HistoryResumable(runs, outs);
    var r, start, end := runs[|runs| - 1], runs[0].from, runs[0].targetEnd;
    assert MayFollow(runs[..|runs| - 1], r, outs[|runs| - 1]);
    hide DaysOf, Business;
    SameRange(start, r.from, r.through, end);
  }

  lemma SameRange(start: int, from: int, through: int, end: int)
    requires start <= from && from - 1 <= through && BusinessDays(from, through) == BusinessDays(from, end)
    requires through == start - 1 || through <= end
    ensures BusinessDays(start, through) == BusinessDays(start, end)
  {
    hide Business;
    if through <= end {
      DaysSplit(start, from - 1, through);
      DaysSplit(start, from - 1, end);
    } else {
      EmptyRange(start, through);
      EmptyRange(start, end);
    }
  }

  lemma EmptyRange(a: int, through: int)
    ensures a > through ==> BusinessDays(a, through) == []
  {
  }

  /** Day 1 is a Monday: the business days are the first five of every week counted from it. */
  lemma FirstFiveOfWeek(week: int, k: nat)
    requires k < 7
    ensures Business(1 + 7 * week + k) <==> k < 5
  {
    assert (1 + 7 * week + k + 6) % 7 == (k + 7 * (week + 1)) % 7 == k;
  }
}
