/**
 The forward-prediction ledger (forward_grading.py) and the grading pass over it
 (outcomes.py). Price series come in as parameters; the return windows are those of
 PriceWindows. Times are days.
 */
module Grading {
  import opened Options
  import opened PriceWindows
  import opened Grouping

  const MIN_DAYS_SINCE_LISTING := 1
  const RETRY_BLOCKED_AFTER_DAYS := 14

  datatype Status = Listed | Withdrawn | NotIpo | StillActive

  /** The columns of an IPO row that grading reads; an unparseable listing date is None. */
  datatype Issue = Issue(country: string, status: Status, listingDay: Option<int>, symbol: string, price: Option<real>)

  /** A forward snapshot and the IPO it belongs to. */
  datatype Snap = Snap(id: nat, ipo: nat)

  datatype Mark = Unmarked | MarkedGraded | MarkedBlocked

  datatype Figures = Figures(
    listingOpen: Option<real>, listingClose: Option<real>,
    r7: Option<real>, r30: Option<real>, r6m: Option<real>, r12m: Option<real>, r24m: Option<real>)

  datatype Outcome = Outcome(figures: Figures, benchmark: Option<real>, mark: Mark, note: string, gradedDay: Option<int>, source: string)

  const NoFigures := Figures(None, None, None, None, None, None, None)
  const NewOutcome := Outcome(NoFigures, None, Unmarked, "", None, "")

  datatype Category =
    | Graded | Pending | BlockedIdentity | BlockedOfferPrice | BlockedMarketData | NotYetEligible | InvalidForwardRecord

  const CATEGORIES: seq<Category> :=
    [Graded, Pending, BlockedIdentity, BlockedOfferPrice, BlockedMarketData, NotYetEligible, InvalidForwardRecord]

  // ------------------------------------------------------------- classification

  predicate HasReturn(o: Option<Outcome>) {
    o.Some? && o.value.figures != NoFigures
  }

  function Classify(x: Issue, o: Option<Outcome>, today: int): Category {
    if x.status == NotIpo || x.status == Withdrawn then InvalidForwardRecord
    else if HasReturn(o) then Graded
    else if x.status != Listed then NotYetEligible
    else if x.listingDay.None? then BlockedIdentity
    else if today - x.listingDay.value < MIN_DAYS_SINCE_LISTING then NotYetEligible
    else if x.symbol == "" then BlockedIdentity
    else if x.price.None? || x.price.value <= 0.0 then BlockedOfferPrice
    else if o.Some? && o.value.mark == MarkedBlocked then BlockedMarketData
    else Pending
  }

  function Find<K, V>(m: map<K, V>, k: K): Option<V> {
    if k in m then Some(m[k]) else None
  }

  datatype Entry = Entry(id: nat, ipo: nat, country: string, category: Category)

  function EntryOf(s: Snap, issues: map<nat, Issue>, outcomes: map<nat, Outcome>, today: int): Entry {
    if s.ipo !in issues then Entry(s.id, s.ipo, "", InvalidForwardRecord)
    else Entry(s.id, s.ipo, issues[s.ipo].country, Classify(issues[s.ipo], Find(outcomes, s.id), today))
  }

  /** forward_grading.forward_ledger: one entry per snapshot. */
  function Ledger(snaps: seq<Snap>, issues: map<nat, Issue>, outcomes: map<nat, Outcome>, today: int): (r: seq<Entry>)
    ensures |r| == |snaps| && forall i | 0 <= i < |snaps| :: r[i] == EntryOf(snaps[i], issues, outcomes, today)
  {
    seq(|snaps|, i requires 0 <= i < |snaps| => EntryOf(snaps[i], issues, outcomes, today))
  }

  // ------------------------------------------------------------- what a pass selects

  predicate RetryDue(o: Option<Outcome>, today: int) {
    o.None? || o.value.gradedDay.None? || today - o.value.gradedDay.value >= RETRY_BLOCKED_AFTER_DAYS
  }

  predicate Due(e: Entry, outcomes: map<nat, Outcome>, today: int) {
    e.category == Pending || (e.category == BlockedMarketData && RetryDue(Find(outcomes, e.id), today))
  }

  /** The snapshots of one IPO to grade together. */
  type Batch = Group<nat, nat>

  function Todo(ledger: seq<Entry>, outcomes: map<nat, Outcome>, today: int): seq<Batch> {
    if ledger == [] then []
    else
      var n := |ledger| - 1;
      var before := Todo(ledger[..n], outcomes, today);
      if Due(ledger[n], outcomes, today) then Add(before, ledger[n].ipo, ledger[n].id) else before
  }

  // ------------------------------------------------------------- grading one IPO

  /** The stored or fetched series of one IPO; no bars when none was found. */
  datatype History = History(bars: seq<Bar>, splits: seq<Split>, url: string)

  /** What a pass reads from outside. */
  datatype Outside = Outside(histories: nat -> History, benches: string -> seq<Bar>, round: real -> real, when: int)

  function Rounded(v: Option<real>, out: Outside): (r: Option<real>)
    ensures r.Some? <==> v.Some?
  {
    if v.Some? then Some(out.round(v.value)) else None
  }

  function Against(px: Option<real>, price: Option<real>): (r: Option<real>)
    ensures r.Some? <==> Truthy(px).Some? && Truthy(price).Some?
  {
    if Truthy(px).Some? && Truthy(price).Some? then Some(Pct(px.value, price.value)) else None
  }

  function BenchmarkRelative(bench: seq<Bar>, listing: int, r12m: Option<real>): Option<real> {
    if bench == [] || r12m.None? then None
    else
      var start, end := OnOrAfter(bench, listing), UpTo(bench, listing + 365 * DAY);
      if start.Some? && end.Some? && start.value.close != 0.0 && end.value.ts > start.value.ts
      then Some(r12m.value - Pct(end.value.close, start.value.close)) else None
  }

  /** The series gives the listing session a close or a return. */
  predicate Usable(r: Option<Report>) {
    r.Some? && (r.value.listingReturn.Some? || r.value.listingClose.Some?)
  }

  function ReportFor(x: Issue, h: History): Option<Report> {
    if h.bars == [] || x.listingDay.None? then None else Returns(h.bars, x.listingDay.value * DAY, x.price, h.splits)
  }

  function FiguresOf(x: Issue, r: Report, out: Outside): Figures {
    Figures(
      Rounded(Against(r.listingOpen, x.price), out),
      Rounded(if r.listingReturn.Some? then r.listingReturn else Against(r.listingClose, x.price), out),
      Rounded(Find(r.windows, WINDOWS[0]), out), Rounded(Find(r.windows, WINDOWS[2]), out),
      Rounded(Find(r.windows, WINDOWS[4]), out), Rounded(Find(r.windows, WINDOWS[5]), out),
      Rounded(Find(r.windows, WINDOWS[6]), out))
  }

  function BlockNote(x: Issue, h: History): string {
    if h.bars == [] then "no price series for symbol " + x.symbol
    else if x.listingDay.None? then "listing date unparseable"
    else if ReportFor(x, h).None? then "no listing session bar within tolerance for " + x.symbol
    else "listing session bar for " + x.symbol + " has no close"
  }

  /** The outcome a pass attaches to every selected snapshot of one IPO. */
  function Attached(o: Option<Outcome>, ipo: nat, x: Issue, out: Outside): Outcome {
    var h := out.histories(ipo);
    var r := ReportFor(x, h);
    var was := if o.Some? then o.value else NewOutcome;
    if !Usable(r) then was.(mark := MarkedBlocked, note := BlockNote(x, h), gradedDay := Some(out.when), figures := NoFigures, benchmark := None)
    else
      var rel := BenchmarkRelative(out.benches(x.country), x.listingDay.value * DAY, Find(r.value.windows, WINDOWS[5]));
      Outcome(FiguresOf(x, r.value, out), Rounded(rel, out), MarkedGraded, "", Some(out.when),
              if h.url != "" then h.url else "Yahoo Finance fallback")
  }

  function GradeIds(outcomes: map<nat, Outcome>, ids: seq<nat>, ipo: nat, x: Issue, out: Outside): map<nat, Outcome>
    decreases ids
  {
    if ids == [] then outcomes
    else GradeIds(outcomes[ids[0] := Attached(Find(outcomes, ids[0]), ipo, x, out)], ids[1..], ipo, x, out)
  }

  function GradeGroups(outcomes: map<nat, Outcome>, todo: seq<Batch>, issues: map<nat, Issue>, out: Outside): map<nat, Outcome>
    decreases todo
  {
    if todo == [] then outcomes
    else
      GradeGroups(
        if todo[0].key in issues then GradeIds(outcomes, todo[0].items, todo[0].key, issues[todo[0].key], out) else outcomes,
        todo[1..], issues, out)
  }

  function Taken(todo: seq<Batch>, limit: nat): seq<Batch> {
    if |todo| <= limit then todo else todo[..limit]
  }

  function Synced(snaps: seq<Snap>, issues: map<nat, Issue>, outcomes: map<nat, Outcome>, limit: nat, today: int, out: Outside): map<nat, Outcome> {
    GradeGroups(outcomes, Taken(Todo(Ledger(snaps, issues, outcomes, today), outcomes, today), limit), issues, out)
  }

  // ------------------------------------------------------------- the pass

  datatype PassResult = PassResult(checked: nat, graded: nat, blocked: nat, skipped: map<Category, nat>)

  function NoneYet(): (m: map<Category, nat>)
    ensures forall c: Category :: c in m && m[c] == 0
  {
    assert forall c: Category :: c in CATEGORIES by {
      forall c: Category ensures c in CATEGORIES {
        InCategories(c);
      }
    }
    map c | c in CATEGORIES :: 0
  }

  lemma InCategories(c: Category)
    ensures c in CATEGORIES
  {
    match c
    case Graded => assert CATEGORIES[0] == c;
    case Pending => assert CATEGORIES[1] == c;
    case BlockedIdentity => assert CATEGORIES[2] == c;
    case BlockedOfferPrice => assert CATEGORIES[3] == c;
    case BlockedMarketData => assert CATEGORIES[4] == c;
    case NotYetEligible => assert CATEGORIES[5] == c;
    case InvalidForwardRecord => assert CATEGORIES[6] == c;
  }

  /** Snapshots of the category that a pass leaves alone. */
  function Skipped(ledger: seq<Entry>, outcomes: map<nat, Outcome>, today: int, c: Category): nat {
    if ledger == [] then 0
    else
      var n := |ledger| - 1;
      Skipped(ledger[..n], outcomes, today, c)
        + if !Due(ledger[n], outcomes, today) && ledger[n].category == c then 1 else 0
  }

  predicate GradesWell(g: Batch, issues: map<nat, Issue>, out: Outside) {
    g.key in issues && Usable(ReportFor(issues[g.key], out.histories(g.key)))
  }

  /** Snapshots of the groups, all of them or those whose series is usable. */
  function Attempted(todo: seq<Batch>, issues: map<nat, Issue>, out: Outside, usable: bool): nat {
    if todo == [] then 0
    else
      Attempted(todo[1..], issues, out, usable)
        + if todo[0].key in issues && GradesWell(todo[0], issues, out) == usable then |todo[0].items| else 0
  }

  class Grader {
    var issues: map<nat, Issue>
    var snaps: seq<Snap>
    var outcomes: map<nat, Outcome>

    constructor (issues: map<nat, Issue>, snaps: seq<Snap>, outcomes: map<nat, Outcome>)
      ensures this.issues == issues && this.snaps == snaps && this.outcomes == outcomes
    {
      this.issues, this.snaps, this.outcomes := issues, snaps, outcomes;
    }

    /** outcomes.sync_prediction_outcomes */
    method Sync(limit: nat, today: int, secondaryData: bool, out: Outside) returns (result: PassResult)
      modifies this`outcomes
      ensures outcomes == if secondaryData then Synced(snaps, issues, old(outcomes), limit, today, out) else old(outcomes)
      ensures !secondaryData ==> result == PassResult(0, 0, 0, NoneYet())
      ensures secondaryData ==>
        var ledger := Ledger(snaps, issues, old(outcomes), today);
        var taken := Taken(Todo(ledger, old(outcomes), today), limit);
        && result.graded == Attempted(taken, issues, out, true) && result.blocked == Attempted(taken, issues, out, false)
        && result.checked == result.graded + result.blocked
        && forall c: Category :: c in result.skipped && result.skipped[c] == Skipped(ledger, old(outcomes), today, c)
    {
      hide Due, ReportFor, GradeIds, Todo, Skipped;
      result := PassResult(0, 0, 0, NoneYet());
      if !secondaryData {
        return;
      }
      var ledger := Ledger(snaps, issues, outcomes, today);
      var todo, skipped := SelectTodo(ledger, today);
      result := result.(skipped := skipped);
      var taken := Taken(todo, limit);
      assert taken[0..] == taken;
      for i := 0 to |taken|
        invariant GradeGroups(outcomes, taken[i..], issues, out) == GradeGroups(old(outcomes), taken, issues, out)
        invariant result.skipped == skipped && result.checked == result.graded + result.blocked
        invariant result.graded + Attempted(taken[i..], issues, out, true) == Attempted(taken, issues, out, true)
        invariant result.blocked + Attempted(taken[i..], issues, out, false) == Attempted(taken, issues, out, false)
      {
        assert taken[i..][1..] == taken[i + 1..] && taken[i..][0] == taken[i];
        var ipo, ids := taken[i].key, taken[i].items;
        if ipo !in issues {
          continue;
        }
        var x := issues[ipo];
        GradeIpo(ids, ipo, x, out);
        if Usable(ReportFor(x, out.histories(ipo))) {
          result := result.(checked := result.checked + |ids|, graded := result.graded + |ids|);
        } else {
          result := result.(checked := result.checked + |ids|, blocked := result.blocked + |ids|);
        }
      }
    }

    method SelectTodo(ledger: seq<Entry>, today: int) returns (todo: seq<Batch>, skipped: map<Category, nat>)
      ensures todo == Todo(ledger, outcomes, today)
      ensures forall c: Category :: c in skipped && skipped[c] == Skipped(ledger, outcomes, today, c)
    {
      hide Due;
      todo, skipped := [], NoneYet();
      for i := 0 to |ledger|
        invariant todo == Todo(ledger[..i], outcomes, today)
        invariant forall c: Category :: c in skipped && skipped[c] == Skipped(ledger[..i], outcomes, today, c)
      {
        assert ledger[..i + 1][..i] == ledger[..i];
        var e := ledger[i];
        if Due(e, outcomes, today) {
          todo := Add(todo, e.ipo, e.id);
        } else {
          skipped := skipped[e.category := skipped[e.category] + 1];
        }
      }
      assert ledger[..|ledger|] == ledger;
    }

    method GradeIpo(ids: seq<nat>, ipo: nat, x: Issue, out: Outside)
      modifies this`outcomes
      ensures outcomes == GradeIds(old(outcomes), ids, ipo, x, out)
    {
      hide Attached;
      assert ids[0..] == ids;
      for k := 0 to |ids|
        invariant GradeIds(outcomes, ids[k..], ipo, x, out) == GradeIds(old(outcomes), ids, ipo, x, out)
      {
        assert ids[k..][1..] == ids[k + 1..];
        outcomes := outcomes[ids[k] := Attached(Find(outcomes, ids[k]), ipo, x, out)];
      }
    }
  }

  // ------------------------------------------------------------- who is selected

  ghost predicate DueIn(ledger: seq<Entry>, outcomes: map<nat, Outcome>, today: int, ipo: nat, id: nat) {
    exists e :: e in ledger && Due(e, outcomes, today) && e.ipo == ipo && e.id == id
  }

  /** A pass selects exactly the due snapshots, one batch per IPO. */
  lemma {:induction false} TodoIsDue(ledger: seq<Entry>, outcomes: map<nat, Outcome>, today: int, ipo: nat, id: nat)
    ensures var todo := Todo(ledger, outcomes, today);
      OnePerKey(todo) && (Has(todo, ipo, id) <==> DueIn(ledger, outcomes, today, ipo, id))
  {
    hide Due;
    if ledger != [] {
      var n := |ledger| - 1;
      var before := Todo(ledger[..n], outcomes, today);
      TodoIsDue(ledger[..n], outcomes, today, ipo, id);
      AddDistinct(before, ledger[n].ipo, ledger[n].id);
      AddAdds(before, ledger[n].ipo, ledger[n].id, ipo, id);
      hide OnePerKey, Has, Add;
      assert ledger == ledger[..n] + [ledger[n]];
    }
  }

  // ------------------------------------------------------------- what is attached

  lemma AttachedTwice(o: Option<Outcome>, ipo: nat, x: Issue, out: Outside)
    ensures Attached(Some(Attached(o, ipo, x, out)), ipo, x, out) == Attached(o, ipo, x, out)
  {
    hide ReportFor, FiguresOf, BenchmarkRelative, BlockNote;
  }

  lemma {:induction false} IdsGraded(outcomes: map<nat, Outcome>, ids: seq<nat>, ipo: nat, x: Issue, out: Outside, s: nat)
    ensures Find(GradeIds(outcomes, ids, ipo, x, out), s)
      == if s in ids then Some(Attached(Find(outcomes, s), ipo, x, out)) else Find(outcomes, s)
    decreases ids
  {
    hide Attached;
    if ids != [] {
      AttachedTwice(Find(outcomes, s), ipo, x, out);
      IdsGraded(outcomes[ids[0] := Attached(Find(outcomes, ids[0]), ipo, x, out)], ids[1..], ipo, x, out, s);
    }
  }

  /** The snapshot s is in groups of the IPO k only. */
  ghost predicate Belongs(todo: seq<Batch>, s: nat, k: nat) {
    forall g | g in todo && s in g.items :: g.key == k
  }

  lemma {:induction false} GroupsGraded(
      outcomes: map<nat, Outcome>, todo: seq<Batch>, issues: map<nat, Issue>, out: Outside, s: nat, k: nat)
    requires Belongs(todo, s, k)
    ensures Find(GradeGroups(outcomes, todo, issues, out), s)
      == if k in issues && Has(todo, k, s) then Some(Attached(Find(outcomes, s), k, issues[k], out)) else Find(outcomes, s)
    decreases todo
  {
    hide Attached, GradeIds, Find;
    if todo != [] {
      var g := todo[0];
      HasSplit(todo, k, s);
      var now := if g.key in issues then GradeIds(outcomes, g.items, g.key, issues[g.key], out) else outcomes;
      if g.key in issues {
        IdsGraded(outcomes, g.items, g.key, issues[g.key], out, s);
      }
      GroupsGraded(now, todo[1..], issues, out, s, k);
      if k in issues {
        AttachedTwice(Find(outcomes, s), k, issues[k], out);
      }
    }
  }

  // ------------------------------------------------------------- one pass

  ghost predicate UniqueIds(snaps: seq<Snap>) {
    forall i, j | 0 <= i < |snaps| && 0 <= j < |snaps| && snaps[i].id == snaps[j].id :: i == j
  }

  lemma SelectedBelongs(snaps: seq<Snap>, issues: map<nat, Issue>, outcomes: map<nat, Outcome>, limit: nat, today: int, i: nat)
    requires UniqueIds(snaps) && i < |snaps|
    ensures var todo := Todo(Ledger(snaps, issues, outcomes, today), outcomes, today);
      && Belongs(Taken(todo, limit), snaps[i].id, snaps[i].ipo)
      && (Has(todo, snaps[i].ipo, snaps[i].id) <==> Due(EntryOf(snaps[i], issues, outcomes, today), outcomes, today))
  {
    hide Due, EntryOf;
    var ledger := Ledger(snaps, issues, outcomes, today);
    EntryKeys(snaps, issues, outcomes, today);
    TodoIsDue(ledger, outcomes, today, snaps[i].ipo, snaps[i].id);
    var todo := Todo(ledger, outcomes, today);
    hide Todo, Ledger;
    forall e | e in ledger && e.id == snaps[i].id ensures e == ledger[i] {
      var j :| 0 <= j < |ledger| && ledger[j] == e;
    }
    assert ledger[i] in ledger;
    forall g | g in Taken(todo, limit) && snaps[i].id in g.items ensures g.key == snaps[i].ipo {
      assert g in todo;
      TodoIsDue(ledger, outcomes, today, g.key, snaps[i].id);
    }
  }

  lemma EntryKeys(snaps: seq<Snap>, issues: map<nat, Issue>, outcomes: map<nat, Outcome>, today: int)
    ensures forall i | 0 <= i < |snaps| ::
      Ledger(snaps, issues, outcomes, today)[i].id == snaps[i].id && Ledger(snaps, issues, outcomes, today)[i].ipo == snaps[i].ipo
  {
  }

  ghost predicate Covered(snaps: seq<Snap>, issues: map<nat, Issue>, outcomes: map<nat, Outcome>, limit: nat, today: int, s: Snap) {
    Has(Taken(Todo(Ledger(snaps, issues, outcomes, today), outcomes, today), limit), s.ipo, s.id)
  }

  /** Every snapshot after a pass: a covered one carries what its IPO's series gives, the others are as before. */
  lemma AfterPass(snaps: seq<Snap>, issues: map<nat, Issue>, outcomes: map<nat, Outcome>, limit: nat, today: int, out: Outside, i: nat)
    requires UniqueIds(snaps) && i < |snaps|
    ensures var s, after := snaps[i], Synced(snaps, issues, outcomes, limit, today, out);
      && (Covered(snaps, issues, outcomes, limit, today, s) ==>
            && s.ipo in issues && Due(EntryOf(s, issues, outcomes, today), outcomes, today)
            && Find(after, s.id) == Some(Attached(Find(outcomes, s.id), s.ipo, issues[s.ipo], out)))
      && (!Covered(snaps, issues, outcomes, limit, today, s) ==> Find(after, s.id) == Find(outcomes, s.id))
  {
    hide Attached, GradeGroups, Todo, Classify;
    var todo := Todo(Ledger(snaps, issues, outcomes, today), outcomes, today);
    SelectedBelongs(snaps, issues, outcomes, limit, today, i);
    GroupsGraded(outcomes, Taken(todo, limit), issues, out, snaps[i].id, snaps[i].ipo);
    if Has(Taken(todo, limit), snaps[i].ipo, snaps[i].id) {
      var g :| g in Taken(todo, limit) && g.key == snaps[i].ipo && snaps[i].id in g.items;
      assert g in todo;
    }
  }

  lemma CloseIsTruthy(x: Issue, h: History)
    ensures ReportFor(x, h).Some? && ReportFor(x, h).value.listingClose.Some? ==> ReportFor(x, h).value.listingClose.value != 0.0
  {
    hide Pct, Adjusted, ReturnsOver;
  }

  /** An eligible snapshot is graded by the pass when its series is usable and blocked otherwise. */
  lemma AttachedClass(o: Option<Outcome>, ipo: nat, x: Issue, out: Outside, today: int)
    requires Classify(x, o, today) == Pending || Classify(x, o, today) == BlockedMarketData
    ensures Classify(x, Some(Attached(o, ipo, x, out)), today)
      == if Usable(ReportFor(x, out.histories(ipo))) then Graded else BlockedMarketData
  {
    hide ReportFor, BenchmarkRelative, BlockNote, Pct;
    CloseIsTruthy(x, out.histories(ipo));
  }

  /** A pass that covers every selected IPO leaves nothing pending: what was due is GRADED or
      BLOCKED_MARKET_DATA, according to its series, and nothing else changes. */
  lemma PassSettles(snaps: seq<Snap>, issues: map<nat, Issue>, outcomes: map<nat, Outcome>, limit: nat, today: int, out: Outside, i: nat)
    requires UniqueIds(snaps) && i < |snaps|
    requires |Todo(Ledger(snaps, issues, outcomes, today), outcomes, today)| <= limit
    ensures var s, after := snaps[i], Synced(snaps, issues, outcomes, limit, today, out);
      var was, now := EntryOf(s, issues, outcomes, today), EntryOf(s, issues, after, today);
      && now.category != Pending
      && (Due(was, outcomes, today) ==>
            s.ipo in issues
            && now.category == if Usable(ReportFor(issues[s.ipo], out.histories(s.ipo))) then Graded else BlockedMarketData)
      && (!Due(was, outcomes, today) ==> Find(after, s.id) == Find(outcomes, s.id) && now == was)
  {
    AfterPass(snaps, issues, outcomes, limit, today, out, i);
    SelectedBelongs(snaps, issues, outcomes, limit, today, i);
    hide Synced, Todo, Attached, Classify, Usable, ReportFor, Has, RetryDue;
    if Covered(snaps, issues, outcomes, limit, today, snaps[i]) {
      AttachedClass(Find(outcomes, snaps[i].id), snaps[i].ipo, issues[snaps[i].ipo], out, today);
    }
  }

  /** Snapshots of one IPO that a pass grades carry equal returns. */
  lemma SameReturns(snaps: seq<Snap>, issues: map<nat, Issue>, outcomes: map<nat, Outcome>, limit: nat, today: int, out: Outside, i: nat, j: nat)
    requires UniqueIds(snaps) && i < |snaps| && j < |snaps| && snaps[i].ipo == snaps[j].ipo
    requires Covered(snaps, issues, outcomes, limit, today, snaps[i]) && Covered(snaps, issues, outcomes, limit, today, snaps[j])
    ensures var after := Synced(snaps, issues, outcomes, limit, today, out);
      && snaps[i].id in after && snaps[j].id in after
      && after[snaps[i].id].figures == after[snaps[j].id].figures
      && after[snaps[i].id].benchmark == after[snaps[j].id].benchmark
      && after[snaps[i].id].mark == after[snaps[j].id].mark
  {
    AfterPass(snaps, issues, outcomes, limit, today, out, i);
    AfterPass(snaps, issues, outcomes, limit, today, out, j);
    hide Synced, Covered, FiguresOf, ReportFor, BenchmarkRelative, BlockNote, Usable;
  }

  /** All due snapshots of an IPO are covered together. */
  lemma CoveredTogether(snaps: seq<Snap>, issues: map<nat, Issue>, outcomes: map<nat, Outcome>, limit: nat, today: int, i: nat, j: nat)
    requires UniqueIds(snaps) && i < |snaps| && j < |snaps| && snaps[i].ipo == snaps[j].ipo
    requires Covered(snaps, issues, outcomes, limit, today, snaps[i])
    requires Due(EntryOf(snaps[j], issues, outcomes, today), outcomes, today)
    ensures Covered(snaps, issues, outcomes, limit, today, snaps[j])
  {
    hide Due, EntryOf, Todo, Ledger;
    var ledger := Ledger(snaps, issues, outcomes, today);
    var todo := Todo(ledger, outcomes, today);
    SelectedBelongs(snaps, issues, outcomes, limit, today, j);
    TodoIsDue(ledger, outcomes, today, snaps[j].ipo, snaps[j].id);
    var g :| g in Taken(todo, limit) && g.key == snaps[i].ipo && snaps[i].id in g.items;
    var h :| h in todo && h.key == snaps[j].ipo && snaps[j].id in h.items;
    var a :| 0 <= a < |Taken(todo, limit)| && Taken(todo, limit)[a] == g;
    var b :| 0 <= b < |todo| && todo[b] == h;
    assert todo[a] == g;
    assert a == b;
  }

  // ------------------------------------------------------------- later passes

  lemma NotDueUntouched(snaps: seq<Snap>, issues: map<nat, Issue>, outcomes: map<nat, Outcome>, limit: nat, today: int, out: Outside, s: nat)
    requires forall i | 0 <= i < |snaps| && snaps[i].id == s :: !Due(EntryOf(snaps[i], issues, outcomes, today), outcomes, today)
    ensures Find(Synced(snaps, issues, outcomes, limit, today, out), s) == Find(outcomes, s)
  {
    hide Due, EntryOf, Attached;
    var ledger := Ledger(snaps, issues, outcomes, today);
    var todo := Todo(ledger, outcomes, today);
    EntryKeys(snaps, issues, outcomes, today);
    forall g | g in Taken(todo, limit) ensures s !in g.items {
      assert g in todo;
      TodoIsDue(ledger, outcomes, today, g.key, s);
      assert s in g.items ==> Has(todo, g.key, s);
    }
    GroupsGraded(outcomes, Taken(todo, limit), issues, out, s, 0);
  }

  /** One pass, with whatever snapshots, IPO rows and series it finds. */
  datatype PassInput = PassInput(snaps: seq<Snap>, issues: map<nat, Issue>, limit: nat, today: int, out: Outside)

  function Passes(outcomes: map<nat, Outcome>, inputs: seq<PassInput>): map<nat, Outcome>
    decreases inputs
  {
    if inputs == [] then outcomes
    else Passes(Synced(inputs[0].snaps, inputs[0].issues, outcomes, inputs[0].limit, inputs[0].today, inputs[0].out), inputs[1..])
  }

  /** An outcome that carries a return is never written again, whatever later passes see: windows
      that elapse after it was graded are not filled in. */
  lemma {:induction false} GradedForever(outcomes: map<nat, Outcome>, inputs: seq<PassInput>, s: nat)
    requires HasReturn(Find(outcomes, s))
    ensures Find(Passes(outcomes, inputs), s) == Find(outcomes, s)
    decreases inputs
  {
    hide Synced;
    if inputs != [] {
      var p := inputs[0];
      NotDueUntouched(p.snaps, p.issues, outcomes, p.limit, p.today, p.out, s);
      GradedForever(Synced(p.snaps, p.issues, outcomes, p.limit, p.today, p.out), inputs[1..], s);
    }
  }

  const LISTED := Issue("United States", Listed, Some(0), "ABC", Some(10.0))
  const WEEK: seq<Bar> := [Bar(0, None, 10.0), Bar(7 * DAY, None, 11.0)]
  const YEAR: seq<Bar> := WEEK + [Bar(365 * DAY, None, 20.0)]

  lemma WindowsSeen()
    ensures var w, r := ReadsOf(WEEK, 0), ReadsOf(YEAR, 0);
      && w.Some? && r.Some? && w.value.session == r.value.session == WEEK[0]
      && WINDOWS[0] in w.value.windows && WINDOWS[5] !in w.value.windows && WINDOWS[5] in r.value.windows
  {
    assert Sorted(WEEK) && Sorted(YEAR) && YEAR[0] == WEEK[0] && YEAR[2] in YEAR && WEEK[1] in WEEK;
    assert Governs(WEEK, 0, WINDOWS[0], WEEK[1]) && Governs(YEAR, 0, WINDOWS[5], YEAR[2]);
    WindowExact(WEEK, 0, WINDOWS[0], WEEK[1]);
    WindowExact(YEAR, 0, WINDOWS[5], YEAR[2]);
    hide UpTo, Governs;
    assert WindowBar(WEEK, 0, WINDOWS[5]).None?;
    assert WINDOWS[0] in WINDOWS && WINDOWS[5] in WINDOWS;
    hide WindowBar;
    assert ListingBar(WEEK, 0) == Some(WEEK[0]) == ListingBar(YEAR, 0);
  }

  lemma ReportedAs(bars: seq<Bar>, r: Reads)
    requires ReadsOf(bars, 0) == Some(r) && r.session == WEEK[0] && bars != []
    ensures var report := ReportFor(LISTED, History(bars, [], ""));
      report.Some? && report.value.windows.Keys == r.windows.Keys && Usable(report)
  {
    hide ReadsOf, Pct;
    assert Adjusted(Some(10.0), 0, []) == Some(10.0) by {
      TenTimes();
    }
  }

  lemma TenTimes()
    ensures Adjusted(Some(10.0), 0, []) == Some(10.0)
  {
  }

  lemma FiguresOfReport(o: Option<Outcome>, out: Outside, r: Report)
    requires ReportFor(LISTED, out.histories(0)) == Some(r) && Usable(Some(r))
    ensures var f := Attached(o, 0, LISTED, out).figures;
      (f.r7.Some? <==> WINDOWS[0] in r.windows) && (f.r12m.Some? <==> WINDOWS[5] in r.windows)
  {
    hide ReportFor, Usable, BenchmarkRelative, Against, BlockNote, Rounded;
  }

  lemma ReturnKept(o: Outcome, limit: nat, today: int, out: Outside)
    requires o.figures != NoFigures
    ensures Find(Synced([Snap(0, 0)], map[0 := LISTED], map[0 := o], limit, today, out), 0) == Some(o)
  {
    hide Synced;
    var outcomes := map[0 := o];
    assert Find(outcomes, 0) == Some(o);
    NotDueUntouched([Snap(0, 0)], map[0 := LISTED], outcomes, limit, today, out, 0);
  }

  /** An outcome graded a week after listing has no twelve-month return. Once the series reaches
      twelve months grading it would give one, and still no pass writes it. */
  lemma YearNeverFilled(week: Outside, year: Outside, limit: nat, today: int)
    requires week.histories(0) == History(WEEK, [], "") && year.histories(0) == History(YEAR, [], "")
    ensures var o := Attached(None, 0, LISTED, week);
      && o.figures.r7.Some? && o.figures.r12m.None?
      && Attached(Some(o), 0, LISTED, year).figures.r12m.Some?
      && Find(Synced([Snap(0, 0)], map[0 := LISTED], map[0 := o], limit, today, year), 0) == Some(o)
  {
    hide ReadsOf, ReportFor, Synced, Usable, Attached;
    WindowsSeen();
    ReportedAs(WEEK, ReadsOf(WEEK, 0).value);
    ReportedAs(YEAR, ReadsOf(YEAR, 0).value);
    var o := Attached(None, 0, LISTED, week);
    FiguresOfReport(None, week, ReportFor(LISTED, History(WEEK, [], "")).value);
    FiguresOfReport(Some(o), year, ReportFor(LISTED, History(YEAR, [], "")).value);
    ReturnKept(o, limit, today, year);
  }

  /** A blocked outcome is left alone until its retry is due. */
  lemma BlockedWaits(snaps: seq<Snap>, issues: map<nat, Issue>, outcomes: map<nat, Outcome>, limit: nat, today: int, out: Outside, s: nat)
    requires s in outcomes && outcomes[s].mark == MarkedBlocked
    requires outcomes[s].gradedDay.Some? && today - outcomes[s].gradedDay.value < RETRY_BLOCKED_AFTER_DAYS
    ensures Find(Synced(snaps, issues, outcomes, limit, today, out), s) == Some(outcomes[s])
  {
    hide Synced;
    NotDueUntouched(snaps, issues, outcomes, limit, today, out, s);
  }

  // ------------------------------------------------------------- counts

  function CountOf(ledger: seq<Entry>, c: Category): nat {
    if ledger == [] then 0
    else
      var n := |ledger| - 1;
      CountOf(ledger[..n], c) + if ledger[n].category == c then 1 else 0
  }

  function CountryOf(e: Entry): string {
    if e.country == "" then "?" else e.country
  }

  function CountIn(ledger: seq<Entry>, country: string, c: Category): nat {
    if ledger == [] then 0
    else
      var n := |ledger| - 1;
      CountIn(ledger[..n], country, c) + if CountryOf(ledger[n]) == country && ledger[n].category == c then 1 else 0
  }

  function Countries(ledger: seq<Entry>): set<string> {
    set e | e in ledger :: CountryOf(e)
  }

  /** forward_grading.ledger_counts */
  method LedgerCounts(ledger: seq<Entry>)
    returns (total: nat, byCategory: map<Category, nat>, byCountry: map<string, map<Category, nat>>)
    ensures total == |ledger|
    ensures forall c: Category :: c in byCategory && byCategory[c] == CountOf(ledger, c)
    ensures byCountry.Keys == Countries(ledger)
    ensures forall k, c: Category | k in byCountry :: c in byCountry[k] && byCountry[k][c] == CountIn(ledger, k, c)
  {
    hide CountOf, CountIn, Countries, CountryOf, AllCounted, CountedIn;
    byCategory, byCountry := NoneYet(), map[];
    CountsNone();
    NoneAllCounted();
    assert ledger[..0] == [];
    for i := 0 to |ledger|
      invariant forall c: Category :: c in byCategory && byCategory[c] == CountOf(ledger[..i], c)
      invariant AllCounted(byCountry, ledger[..i])
    {
      var e := ledger[i];
      CountsNext(ledger, i);
      byCategory := byCategory[e.category := byCategory[e.category] + 1];
      var k := CountryOf(e);
      var inCountry := if k in byCountry then byCountry[k] else NoneYet();
      SoFarCounted(byCountry, ledger[..i], k);
      CountedHas(inCountry, ledger[..i], k, e.category);
      CountryNext(byCountry, ledger, i, inCountry);
      byCountry := byCountry[k := inCountry[e.category := inCountry[e.category] + 1]];
    }
    assert ledger[..|ledger|] == ledger;
    total := |ledger|;
    AllRead(byCountry, ledger);
  }

  /** The counts of one country. */
  ghost predicate CountedIn(counts: map<Category, nat>, ledger: seq<Entry>, k: string) {
    forall c: Category :: c in counts && counts[c] == CountIn(ledger, k, c)
  }

  ghost predicate AllCounted(byCountry: map<string, map<Category, nat>>, ledger: seq<Entry>) {
    byCountry.Keys == Countries(ledger) && forall k | k in byCountry :: CountedIn(byCountry[k], ledger, k)
  }

  lemma AllRead(byCountry: map<string, map<Category, nat>>, ledger: seq<Entry>)
    requires AllCounted(byCountry, ledger)
    ensures byCountry.Keys == Countries(ledger)
    ensures forall k, c: Category | k in byCountry :: c in byCountry[k] && byCountry[k][c] == CountIn(ledger, k, c)
  {
    hide Countries, CountIn;
    forall k, c: Category | k in byCountry ensures c in byCountry[k] && byCountry[k][c] == CountIn(ledger, k, c) {
      assert CountedIn(byCountry[k], ledger, k);
    }
  }

  lemma NoneAllCounted()
    ensures AllCounted(map[], [])
  {
  }

  lemma CountedHas(counts: map<Category, nat>, ledger: seq<Entry>, k: string, c: Category)
    requires CountedIn(counts, ledger, k)
    ensures c in counts
  {
  }

  /** What the loop has counted for a country, or starts from. */
  lemma SoFarCounted(byCountry: map<string, map<Category, nat>>, ledger: seq<Entry>, k: string)
    requires AllCounted(byCountry, ledger)
    ensures CountedIn(if k in byCountry then byCountry[k] else NoneYet(), ledger, k)
  {
    hide Countries, CountIn;
    AbsentCountry(ledger, k);
  }

  lemma CountryNext(byCountry: map<string, map<Category, nat>>, ledger: seq<Entry>, i: nat, counts: map<Category, nat>)
    requires i < |ledger| && AllCounted(byCountry, ledger[..i])
    requires CountedIn(counts, ledger[..i], CountryOf(ledger[i])) && ledger[i].category in counts
    ensures var e := ledger[i];
      AllCounted(byCountry[CountryOf(e) := counts[e.category := counts[e.category] + 1]], ledger[..i + 1])
  {
    hide Countries, CountIn, CountOf, CountryOf, CountedIn;
    var e, k := ledger[i], CountryOf(ledger[i]);
    var after := byCountry[k := counts[e.category := counts[e.category] + 1]];
    CountsNext(ledger, i);
    forall j | j in after ensures CountedIn(after[j], ledger[..i + 1], j) {
      var had := if j == k then counts else byCountry[j];
      CountedHas(had, ledger[..i], j, e.category);
      CountedNext(had, ledger, i, j);
    }
  }

  lemma CountedNext(counts: map<Category, nat>, ledger: seq<Entry>, i: nat, k: string)
    requires i < |ledger| && CountedIn(counts, ledger[..i], k) && ledger[i].category in counts
    ensures var e := ledger[i];
      CountedIn(if CountryOf(e) == k then counts[e.category := counts[e.category] + 1] else counts, ledger[..i + 1], k)
  {
    hide CountryOf, CountIn;
    var e := ledger[i];
    var next := if CountryOf(e) == k then counts[e.category := counts[e.category] + 1] else counts;
    forall c: Category ensures c in next && next[c] == CountIn(ledger[..i + 1], k, c) {
      CountInNext(ledger, i, k, c);
      assert c in counts && counts[c] == CountIn(ledger[..i], k, c);
    }
  }

  lemma CountInNext(ledger: seq<Entry>, i: nat, k: string, c: Category)
    requires i < |ledger|
    ensures CountIn(ledger[..i + 1], k, c)
      == CountIn(ledger[..i], k, c) + if CountryOf(ledger[i]) == k && ledger[i].category == c then 1 else 0
  {
    assert ledger[..i + 1][..i] == ledger[..i];
  }

  lemma CountsNone()
    ensures Countries([]) == {} && forall c: Category :: CountOf([], c) == 0
  {
  }

  lemma CountsNext(ledger: seq<Entry>, i: nat)
    requires i < |ledger|
    ensures Countries(ledger[..i + 1]) == Countries(ledger[..i]) + {CountryOf(ledger[i])}
    ensures forall c: Category :: CountOf(ledger[..i + 1], c) == CountOf(ledger[..i], c) + if ledger[i].category == c then 1 else 0
  {
    assert ledger[..i + 1] == ledger[..i] + [ledger[i]];
    assert ledger[..i + 1][..i] == ledger[..i];
  }

  lemma {:induction false} AbsentCountry(ledger: seq<Entry>, k: string)
    ensures k !in Countries(ledger) ==> forall c: Category :: CountIn(ledger, k, c) == 0
  {
    if ledger != [] && k !in Countries(ledger) {
      var n := |ledger| - 1;
      assert ledger[n] in ledger && forall e | e in ledger[..n] :: e in ledger;
      AbsentCountry(ledger[..n], k);
    }
  }

  function Sum(f: Category -> nat): nat {
    f(Graded) + f(Pending) + f(BlockedIdentity) + f(BlockedOfferPrice) + f(BlockedMarketData) + f(NotYetEligible)
      + f(InvalidForwardRecord)
  }

  /** Sum over countries. */
  function SumOver(ks: seq<string>, f: string -> nat): nat {
    if ks == [] then 0 else SumOver(ks[1..], f) + f(ks[0])
  }

  /** The category counts add up to the number of snapshots. */
  lemma {:induction false} CategoriesSum(ledger: seq<Entry>)
    ensures Sum((c: Category) => CountOf(ledger, c)) == |ledger|
  {
    if ledger != [] {
      CategoriesSum(ledger[..|ledger| - 1]);
    }
  }

  /** Each category's country counts add up to its total, over any listing of the countries. */
  lemma {:induction false} CountriesSum(ledger: seq<Entry>, ks: seq<string>, c: Category)
    requires forall i, j | 0 <= i < j < |ks| :: ks[i] != ks[j]
    requires forall k | k in Countries(ledger) :: k in ks
    ensures SumOver(ks, (k: string) => CountIn(ledger, k, c)) == CountOf(ledger, c)
  {
    if ledger == [] {
      AllZero(ks, (k: string) => CountIn(ledger, k, c));
    } else {
      var n := |ledger| - 1;
      var e := ledger[n];
      assert e in ledger && CountryOf(e) in Countries(ledger) && forall d | d in ledger[..n] :: d in ledger;
      CountriesSum(ledger[..n], ks, c);
      OneMore(ks, (k: string) => CountIn(ledger[..n], k, c), (k: string) => CountIn(ledger, k, c), CountryOf(e),
        if e.category == c then 1 else 0);
    }
  }

  lemma {:induction false} AllZero(ks: seq<string>, f: string -> nat)
    requires forall k :: f(k) == 0
    ensures SumOver(ks, f) == 0
  {
    if ks != [] {
      AllZero(ks[1..], f);
    }
  }

  lemma {:induction false} OneMore(ks: seq<string>, f: string -> nat, g: string -> nat, at: string, step: nat)
    requires forall i, j | 0 <= i < j < |ks| :: ks[i] != ks[j]
    requires forall k :: g(k) == f(k) + if k == at then step else 0
    ensures SumOver(ks, g) == SumOver(ks, f) + if at in ks then step else 0
  {
    if ks != [] {
      forall i, j | 0 <= i < j < |ks[1..]| ensures ks[1..][i] != ks[1..][j] {
        assert ks[i + 1] != ks[j + 1];
      }
      OneMore(ks[1..], f, g, at, step);
      assert forall i | 0 <= i < |ks[1..]| :: ks[1..][i] == ks[i + 1] && ks[i + 1] != ks[0];
    }
  }
}
