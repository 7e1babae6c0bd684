/**
 nse_bhavcopy.ingest_days: the day ledger and the price table that budgeted runs fill from
 the exchange's daily files.
 */
module Ingestion {
  import opened Options
  import opened BarPruning
  import opened Backfill

  datatype DayStatus = Ok | Holiday | Error

  datatype Store = Store(days: map<int, DayStatus>, bars: seq<PriceRow>)

  /** What fetching and parsing a day gives: no file, its rows, or a failure. */
  datatype Fetched = NoFile | File(rows: seq<PriceRow>) | Failure

  // ------------------------------------------------------------- store_rows

  function Wanted(rows: seq<PriceRow>, isins: set<string>): seq<PriceRow> {
    if rows == [] then []
    else (if rows[0].isin in isins then [rows[0]] else []) + Wanted(rows[1..], isins)
  }

  function IsinsOn(bars: seq<PriceRow>, day: int): set<string> {
    set b | b in bars && b.date == day :: b.isin
  }

  /** The loop over the wanted rows; `seen` holds the ISINs already stored for the day. */
  function Inserted(bars: seq<PriceRow>, rows: seq<PriceRow>, seen: set<string>): seq<PriceRow>
    decreases rows
  {
    if rows == [] then bars
    else if rows[0].isin in seen then Inserted(bars, rows[1..], seen)
    else Inserted(bars + [rows[0]], rows[1..], seen + {rows[0].isin})
  }

  function Stored(bars: seq<PriceRow>, rows: seq<PriceRow>, isins: set<string>): seq<PriceRow> {
    var wanted := Wanted(rows, isins);
    if wanted == [] then bars else Inserted(bars, wanted, IsinsOn(bars, wanted[0].date))
  }

  // ------------------------------------------------------------- ingest_days

  predicate SkipDay(prior: Option<DayStatus>, retry: bool, force: bool) {
    prior == Some(Holiday) || (prior == Some(Ok) && !force) || (prior == Some(Error) && !retry)
  }

  function Prior(s: Store, day: int): Option<DayStatus> {
    if day in s.days then Some(s.days[day]) else None
  }

  function Recorded(s: Store, day: int, f: Fetched, isins: set<string>): Store {
    match f
    case NoFile => s.(days := s.days[day := Holiday])
    case File(rows) => Store(s.days[day := Ok], Stored(s.bars, rows, isins))
    case Failure => s.(days := s.days[day := Error])
  }

  /** What one run is asked to do. */
  datatype Request = Request(isins: set<string>, end: int, fetch: int -> Fetched, retry: bool, force: bool)

  /** The run from `day` on with `budget` fetches left. */
  function Ingested(s: Store, day: int, budget: nat, q: Request): Store
    decreases q.end - day + 1
  {
    if day > q.end then s
    else if !Business(day) || SkipDay(Prior(s, day), q.retry, q.force) then Ingested(s, day + 1, budget, q)
    else if budget == 0 then s
    else Ingested(Recorded(s, day, q.fetch(day), q.isins), day + 1, budget - 1, q)
  }

  class PriceStore {
    var days: map<int, DayStatus>
    var bars: seq<PriceRow>

    function State(): Store
      reads this
    {
      Store(days, bars)
    }

    constructor ()
      ensures State() == Store(map[], [])
    {
      days, bars := map[], [];
    }

    method StoreRows(rows: seq<PriceRow>, isins: set<string>) returns (n: nat)
      modifies this`bars
      ensures bars == Stored(old(bars), rows, isins) && |bars| == |old(bars)| + n
    {
      n := 0;
      var wanted := Wanted(rows, isins);
      if wanted == [] {
        return;
      }
      var existing := IsinsOn(bars, wanted[0].date);
      assert wanted[0..] == wanted;
      for i := 0 to |wanted|
        invariant Inserted(bars, wanted[i..], existing) == Stored(old(bars), rows, isins)
        invariant |bars| == |old(bars)| + n
      {
        assert wanted[i..][1..] == wanted[i + 1..];
        var r := wanted[i];
        if r.isin in existing {
          continue;
        }
        existing := existing + {r.isin};
        bars := bars + [r];
        n := n + 1;
      }
    }

    method IngestDays(start: int, maxFiles: nat, q: Request) returns (fetched: nat, skipped: nat)
      modifies this
      ensures State() == Ingested(old(State()), start, maxFiles, q)
      ensures fetched <= maxFiles
    {
      hide Business;
      var done := days;
      fetched, skipped := 0, 0;
      var day := start;
      while day <= q.end
        invariant fetched <= maxFiles
        invariant Ingested(State(), day, maxFiles - fetched, q) == Ingested(old(State()), start, maxFiles, q)
        invariant forall d | d >= day :: Prior(State(), d) == if d in done then Some(done[d]) else None
        decreases q.end - day
      {
        if Business(day) {
          var prior := if day in done then Some(done[day]) else None;
          if prior == Some(Holiday) || (prior == Some(Ok) && !q.force) || (prior == Some(Error) && !q.retry) {
            skipped := skipped + 1;
            day := day + 1;
            continue;
          }
          if fetched >= maxFiles {
            break;
          }
          fetched := fetched + 1;
          match q.fetch(day) {
            case NoFile => days := days[day := Holiday];
            case File(rows) =>
              var n := StoreRows(rows, q.isins);
              days := days[day := Ok];
            case Failure => days := days[day := Error];
          }
        }
        day := day + 1;
      }
    }
  }

  // ------------------------------------------------------------- splitting a run

  /** No failures, and nothing already read is read again. */
  ghost predicate Steady(q: Request) {
    !q.force && forall d: int :: q.fetch(d) != Failure
  }

  lemma {:induction false} EarlierKept(s: Store, day: int, budget: nat, q: Request, d: int)
    requires d < day
    ensures Prior(Ingested(s, day, budget, q), d) == Prior(s, d)
    decreases q.end - day + 1
  {
    hide Business, Stored, SkipDay;
    if day <= q.end {
      if !Business(day) || SkipDay(Prior(s, day), q.retry, q.force) {
        EarlierKept(s, day + 1, budget, q, d);
      } else if budget > 0 {
        EarlierKept(Recorded(s, day, q.fetch(day), q.isins), day + 1, budget - 1, q, d);
      }
    }
  }

  /** Two budgeted runs over the same range do what one run with both budgets does. */
  lemma {:induction false} BudgetsAdd(s: Store, day: int, a: nat, b: nat, q: Request)
    requires Steady(q)
    ensures Ingested(Ingested(s, day, a, q), day, b, q) == Ingested(s, day, a + b, q)
    decreases q.end - day + 1
  {
    hide Business, Stored;
    if day <= q.end {
      if !Business(day) || SkipDay(Prior(s, day), q.retry, q.force) {
        EarlierKept(s, day + 1, a, q, day);
        BudgetsAdd(s, day + 1, a, b, q);
      } else if a > 0 {
        var s1 := Recorded(s, day, q.fetch(day), q.isins);
        EarlierKept(s1, day + 1, a - 1, q, day);
        BudgetsAdd(s1, day + 1, a - 1, b, q);
      }
    }
  }

  function RunAll(s: Store, start: int, budgets: seq<nat>, q: Request): Store
    decreases budgets
  {
    if budgets == [] then s else RunAll(Ingested(s, start, budgets[0], q), start, budgets[1..], q)
  }

  function Total(budgets: seq<nat>): nat {
    if budgets == [] then 0 else budgets[0] + Total(budgets[1..])
  }

  /** Days of the range that no budget skips. */
  function Open(s: Store, day: int, q: Request): nat
    decreases q.end - day + 1
  {
    if day > q.end then 0
    else Open(s, day + 1, q) + if Business(day) && !SkipDay(Prior(s, day), q.retry, q.force) then 1 else 0
  }

  lemma {:induction false} OpenSame(s: Store, t: Store, day: int, q: Request)
    requires forall d | d >= day :: Prior(s, d) == Prior(t, d)
    ensures Open(s, day, q) == Open(t, day, q)
    decreases q.end - day + 1
  {
    if day <= q.end {
      OpenSame(s, t, day + 1, q);
    }
  }

  /** A budget that covers the open days acts as no budget. */
  lemma {:induction false} EnoughBudget(s: Store, day: int, a: nat, b: nat, q: Request)
    requires a >= Open(s, day, q) && b >= Open(s, day, q)
    ensures Ingested(s, day, a, q) == Ingested(s, day, b, q)
    decreases q.end - day + 1
  {
    hide Business, Stored, SkipDay;
    if day <= q.end {
      if !Business(day) || SkipDay(Prior(s, day), q.retry, q.force) {
        EnoughBudget(s, day + 1, a, b, q);
      } else {
        var s1 := Recorded(s, day, q.fetch(day), q.isins);
        OpenSame(s, s1, day + 1, q);
        EnoughBudget(s1, day + 1, a - 1, b - 1, q);
      }
    }
  }

  lemma {:induction false} SplitRuns(s: Store, start: int, budgets: seq<nat>, q: Request)
    requires Steady(q)
    ensures RunAll(s, start, budgets, q) == Ingested(s, start, Total(budgets), q)
    decreases budgets
  {
    hide Ingested, Steady;
    if budgets == [] {
      NoBudget(s, start, q);
    } else {
      SplitRuns(Ingested(s, start, budgets[0], q), start, budgets[1..], q);
      BudgetsAdd(s, start, budgets[0], Total(budgets[1..]), q);
    }
  }

  lemma {:induction false} NoBudget(s: Store, day: int, q: Request)
    ensures Ingested(s, day, 0, q) == s
    decreases q.end - day + 1
  {
    if day <= q.end && (!Business(day) || SkipDay(Prior(s, day), q.retry, q.force)) {
      NoBudget(s, day + 1, q);
    }
  }

  /** Any budgeted runs that together cover the open days end with the same ledger and the same
      bars as one unbounded run. */
  lemma SplitEqualsUnbounded(s: Store, start: int, budgets: seq<nat>, whole: nat, q: Request)
    requires Steady(q) && Total(budgets) >= Open(s, start, q) && whole >= Open(s, start, q)
    ensures RunAll(s, start, budgets, q) == Ingested(s, start, whole, q)
  {
    hide Ingested, Steady, Open;
    SplitRuns(s, start, budgets, q);
    EnoughBudget(s, start, Total(budgets), whole, q);
  }

  // ------------------------------------------------------------- one bar per ISIN and date

  ghost predicate OneBarPerDay(bars: seq<PriceRow>) {
    forall i, j | 0 <= i < j < |bars| :: bars[i].isin != bars[j].isin || bars[i].date != bars[j].date
  }

  ghost predicate OnDay(rows: seq<PriceRow>, day: int) {
    forall r | r in rows :: r.date == day
  }

  lemma {:induction false} WantedRows(rows: seq<PriceRow>, isins: set<string>)
    ensures forall r :: r in Wanted(rows, isins) <==> r in rows && r.isin in isins
  {
    if rows != [] {
      WantedRows(rows[1..], isins);
    }
  }

  lemma {:induction false} InsertedUnique(bars: seq<PriceRow>, rows: seq<PriceRow>, seen: set<string>, day: int)
    requires OneBarPerDay(bars) && OnDay(rows, day) && IsinsOn(bars, day) <= seen
    ensures OneBarPerDay(Inserted(bars, rows, seen))
    decreases rows
  {
    if rows != [] {
      var r := rows[0];
      assert r in rows && OnDay(rows[1..], day);
      if r.isin in seen {
        InsertedUnique(bars, rows[1..], seen, day);
      } else {
        var more := bars + [r];
        forall i | 0 <= i < |bars| ensures bars[i].isin != r.isin || bars[i].date != r.date {
          assert bars[i].date == day ==> bars[i].isin in IsinsOn(bars, day);
        }
        forall x | x in IsinsOn(more, day) ensures x in seen + {r.isin} {
          var b :| b in more && b.date == day && b.isin == x;
          assert b in bars || b == r;
        }
        InsertedUnique(more, rows[1..], seen + {r.isin}, day);
      }
    }
  }

  /** Each file carries the rows of its own date. */
  ghost predicate OwnDates(q: Request) {
    forall d: int :: q.fetch(d).File? ==> OnDay(q.fetch(d).rows, d)
  }

  /** Over any run the price table has one bar per ISIN and date. */
  lemma {:induction false} OneBarKept(s: Store, day: int, budget: nat, q: Request)
    requires OneBarPerDay(s.bars) && OwnDates(q)
    ensures OneBarPerDay(Ingested(s, day, budget, q).bars)
    decreases q.end - day + 1
  {
    hide Business, SkipDay, OneBarPerDay;
    if day <= q.end {
      if !Business(day) || SkipDay(Prior(s, day), q.retry, q.force) {
        OneBarKept(s, day + 1, budget, q);
      } else if budget > 0 {
        if q.fetch(day).File? {
          StoredUnique(s.bars, q.fetch(day).rows, q.isins, day);
        }
        OneBarKept(Recorded(s, day, q.fetch(day), q.isins), day + 1, budget - 1, q);
      }
    }
  }

  lemma StoredUnique(bars: seq<PriceRow>, rows: seq<PriceRow>, isins: set<string>, day: int)
    requires OneBarPerDay(bars) && OnDay(rows, day)
    ensures OneBarPerDay(Stored(bars, rows, isins))
  {
    WantedRows(rows, isins);
    var wanted := Wanted(rows, isins);
    if wanted != [] {
      assert wanted[0] in wanted;
      InsertedUnique(bars, wanted, IsinsOn(bars, day), day);
    }
  }

  /** The first of the rows with that ISIN. */
  function FirstOf(rows: seq<PriceRow>, isin: string): (r: Option<PriceRow>)
    ensures r.Some? ==> r.value in rows && r.value.isin == isin
    ensures r.None? ==> forall x | x in rows :: x.isin != isin
  {
    if rows == [] then None else if rows[0].isin == isin then Some(rows[0]) else FirstOf(rows[1..], isin)
  }

  lemma {:induction false} InsertedIff(bars: seq<PriceRow>, rows: seq<PriceRow>, seen: set<string>, r: PriceRow)
    ensures r in Inserted(bars, rows, seen) <==> r in bars || (r.isin !in seen && FirstOf(rows, r.isin) == Some(r))
    decreases rows
  {
    if rows != [] {
      if rows[0].isin in seen {
        InsertedIff(bars, rows[1..], seen, r);
      } else {
        InsertedIff(bars + [rows[0]], rows[1..], seen + {rows[0].isin}, r);
      }
    }
  }

  lemma {:induction false} WantedFirst(rows: seq<PriceRow>, isins: set<string>, isin: string)
    requires isin in isins
    ensures FirstOf(Wanted(rows, isins), isin) == FirstOf(rows, isin)
  {
    if rows != [] {
      WantedFirst(rows[1..], isins, isin);
      var wanted, rest := Wanted(rows, isins), Wanted(rows[1..], isins);
      if rows[0].isin in isins {
        assert wanted[0] == rows[0] && wanted[1..] == rest;
      } else {
        assert wanted == rest;
      }
    }
  }

  /** Storing a day's file adds, for each wanted ISIN without a bar that day, the first row the
      file has for it, and nothing else. */
  lemma StoredIff(bars: seq<PriceRow>, rows: seq<PriceRow>, isins: set<string>, day: int, r: PriceRow)
    requires OnDay(rows, day)
    ensures r in Stored(bars, rows, isins)
      <==> r in bars || (r.isin in isins && r.isin !in IsinsOn(bars, day) && FirstOf(rows, r.isin) == Some(r))
  {
    WantedRows(rows, isins);
    var wanted := Wanted(rows, isins);
    if r.isin in isins {
      WantedFirst(rows, isins, r.isin);
    }
    if wanted != [] {
      assert wanted[0] in wanted;
      InsertedIff(bars, wanted, IsinsOn(bars, day), r);
    }
  }

  // ------------------------------------------------------------- what a run leaves of each day

  lemma {:induction false} DayUntouched(s: Store, day: int, budget: nat, q: Request, d: int)
    requires d < day || d > q.end || !Business(d)
    ensures Prior(Ingested(s, day, budget, q), d) == Prior(s, d)
    decreases q.end - day + 1
  {
    hide Business, SkipDay;
    if day <= q.end {
      if !Business(day) || SkipDay(Prior(s, day), q.retry, q.force) {
        DayUntouched(s, day + 1, budget, q, d);
      } else if budget > 0 {
        DayUntouched(Recorded(s, day, q.fetch(day), q.isins), day + 1, budget - 1, q, d);
      }
    }
  }

  function Outcome(f: Fetched): DayStatus {
    if f == NoFile then Holiday else if f == Failure then Error else Ok
  }

  /** A run with a fetch to spare for every day leaves each business day of its range as the fetch
      gave it, unless the day is a known holiday, or was read and no re-read was forced, or had failed
      and no retry was asked for; all other days are as before. */
  lemma {:induction false} DayAfter(s: Store, day: int, budget: nat, q: Request, d: int)
    requires budget >= q.end - day + 1
    ensures var was, now := Prior(s, d), Prior(Ingested(s, day, budget, q), d);
      now == if d < day || d > q.end || !Business(d) || was == Some(Holiday)
                || (was == Some(Ok) && !q.force) || (was == Some(Error) && !q.retry)
             then was else Some(Outcome(q.fetch(d)))
    decreases q.end - day + 1
  {
    hide Business;
    if d < day || d > q.end || !Business(d) {
      DayUntouched(s, day, budget, q, d);
    } else if d == day {
      if SkipDay(Prior(s, day), q.retry, q.force) {
        DayUntouched(s, day + 1, budget, q, d);
      } else {
        DayUntouched(Recorded(s, day, q.fetch(day), q.isins), day + 1, budget - 1, q, d);
      }
    } else if !Business(day) || SkipDay(Prior(s, day), q.retry, q.force) {
      DayAfter(s, day + 1, budget, q, d);
    } else {
      DayAfter(Recorded(s, day, q.fetch(day), q.isins), day + 1, budget - 1, q, d);
    }
  }
}
