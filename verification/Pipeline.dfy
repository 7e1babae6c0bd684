/**
 Every writer of the status field on one ledger: upsert_ipo, reconcile_lifecycle, NSE past
 issues, symbol resolution, and the SEC repair and recheck scripts. Which stored row an input
 resolves to, and what the re-read filings say, are parameters.
 */
module Pipeline {
  import opened Options
  import opened Lifecycle
  import opened Reals
  import opened Reconcile
  import opened UsRepair

  /** One item of the NSE past-issues list, as matched to a row. */
  datatype PastItem = PastItem(
    finalPrice: Value, bandOk: bool, openDate: Value, closeDate: Value, listingDate: Value, shown: string)

  /** A listing found in the exchange's security masters. */
  datatype Security = Security(isin: string, listed: string, board: string)

  /** Rows that apply_nse_past_issues looks up by symbol. */
  predicate PastIssueRow(x: Ipo) {
    India(x) && !Missing(x.Field(Symbol)) && x.Status() != "Not IPO" && x.Status() != "Withdrawn"
  }

  const OFFICIAL := "nse_past_issue_price"

  /** A stored price more than 1% off the official one is kept; the official one goes beside it. */
  predicate Conflicts(x: Ipo, it: PastItem) {
    && Truthy(it.finalPrice) && it.bandOk && it.finalPrice.Num? && x.Field(FinalPrice).Num?
    && Abs(x.Field(FinalPrice).number - it.finalPrice.number) > 0.01 * it.finalPrice.number
  }

  function ConflictFlags(flags: seq<Flag>): set<Flag> {
    set f | f in flags && f.PriceConflict?
  }

  function WithOfficial(x: Ipo, it: PastItem): Ipo {
    x.(raw := x.raw[OFFICIAL := it.shown],
       flags := Drop(x.flags, ConflictFlags(x.flags)) + [PriceConflict(it.finalPrice, x.Field(FinalPrice))])
  }

  function PastPriced(x: Ipo, it: PastItem): (y: Ipo)
    ensures y.history == x.history && y.Status() == x.Status()
  {
    if Truthy(it.finalPrice) && it.bandOk && x.Field(FinalPrice) == Null then Set(x, FinalPrice, it.finalPrice)
    else if Conflicts(x, it) then WithOfficial(x, it)
    else x
  }

  function PastDated(x: Ipo, it: PastItem): (y: Ipo)
    ensures KeepsStatus(x, y)
  {
    hide FillBlank, Get, AsText;
    FillBlank(FillBlank(FillBlank(x, OpenDate, it.openDate), CloseDate, it.closeDate), ListingDate, it.listingDate)
  }

  function PastFilled(x: Ipo, it: PastItem): (y: Ipo)
    ensures y.history == x.history && y.Status() == x.Status()
  {
    PastDated(PastPriced(x, it), it)
  }

  function PastApplied(x: Ipo, it: PastItem, today: int, env: Env): Ipo {
    if !PastIssueRow(x) then x
    else
      var y := PastFilled(x, it);
      if ListedBy(it.listingDate, today, env) && (y.Status() == "Open" || y.Status() == "Closed")
        && CanTransition(y.Status(), "Listed")
      then SetStatus(y, "Listed") else y
  }

  predicate ListedBy(d: Value, today: int, env: Env) {
    Truthy(d) && env.day(AsText(d)).Some? && env.day(AsText(d)).value <= today
  }

  /** Rows without an ISIN that the live feed knows by symbol. */
  predicate MasterRow(x: Ipo) {
    && India(x) && Truthy(x.Field(Symbol)) && !Truthy(x.Field(Isin))
    && (x.Status() == "Open" || x.Status() == "Closed" || x.Status() == "Listed")
  }

  /** The live-feed branch of resolve_india_symbols. */
  function MasterApplied(x: Ipo, m: Security): Ipo {
    if !MasterRow(x) then x
    else
      var listed := SetStatus(FillBlank(Set(x, Isin, Str(m.isin)), ListingDate, Str(m.listed)), "Listed");
      if m.board != "" then Set(listed, Board, Str(m.board)) else listed
  }

  class Ledger {
    var ipos: seq<Ipo>

    constructor ()
      ensures ipos == []
    {
      ipos := [];
    }

    /** upsert_ipo on the row the input resolved to, or on a new one. */
    method UpsertIpo(target: Option<nat>, row: Row, extras: Extras, sc: Scorer) returns (changed: bool)
      modifies this
      ensures ipos == UpsertAt(old(ipos), target, row, extras, sc)
      ensures changed <==> (
        IsNew(old(ipos), target) || Changes(old(ipos)[target.value], row, UpsertFields(), false) != {})
    {
      hide SetFields, Changes, EventStage, UpsertFields, Forward, NewIpo;
      var created := target.None? || target.value >= |ipos|;
      var i := if created then |ipos| else target.value;
      if created {
        ipos := ipos + [NewIpo(row)];
      }
      var prev := ipos[i];
      var fields := WriteFields(i, row, created);
      if extras.raw.Keys != {} {
        ipos := ipos[i := ipos[i].(raw := extras.raw)];
      }
      if extras.flags.Some? {
        ipos := ipos[i := ipos[i].(flags := extras.flags.value)];
      }
      var score := sc.score(ipos[i]);
      var stage := EventStage(created, fields, prev, ipos[i], score, sc);
      if stage.Some? {
        ipos := ipos[i := ipos[i].(history := ipos[i].history + [Snapshot(stage.value, Forward(ipos[i].Status()), score)])];
      }
      changed := created || fields != {};
    }

    /** The write loop over the columns; returns those that changed. */
    method WriteFields(i: nat, row: Row, created: bool) returns (fields: set<Column>)
      requires i < |ipos|
      modifies this
      ensures ipos == old(ipos)[i := SetFields(old(ipos)[i], row, UpsertFields(), created)]
      ensures fields == Changes(old(ipos)[i], row, UpsertFields(), created)
    {
      hide SetFields, Changes, UpsertFields;
      ghost var was := ipos[i];
      var fs := UpsertFields();
      fields := {};
      assert fs[0..] == fs;
      for k := 0 to |fs|
        invariant |ipos| == old(|ipos|) && ipos == old(ipos)[i := ipos[i]]
        invariant SetFields(ipos[i], row, fs[k..], created) == SetFields(was, row, fs, created)
        invariant fields + Changes(ipos[i], row, fs[k..], created) == Changes(was, row, fs, created)
      {
        SetOne(ipos[i], row, fs[k..], created);
        assert fs[k..][1..] == fs[k + 1..];
        var x := ipos[i];
        if Takes(x, row, fs[k], created) && x.Field(fs[k]) != row[fs[k]] {
          ipos := ipos[i := x.(fields := x.fields[fs[k] := row[fs[k]]])];
          fields := fields + {fs[k]};
        }
      }
      SetNone(ipos[i], row, created);
    }

    method ReconcileLifecycle(order: seq<nat>, env: Env, today: int)
      requires Ids(ipos, order)
      modifies this
      ensures ipos == Reconciled(old(ipos), order, env, today)
    {
      hide Classified, Matched, Noted;
      var listed: map<string, nat> := map[];
      assert order[0..] == order;
      for k := 0 to |order|
        invariant |ipos| == old(|ipos|) && Names(ipos, listed)
        invariant First(ipos, listed, order[k..], env) == First(old(ipos), map[], order, env)
      {
        assert order[k..][1..] == order[k + 1..];
        ClassifyRow(order[k], env);
        listed := NoteListed(listed, order[k], env);
      }
      for k := 0 to |order|
        invariant |ipos| == old(|ipos|) && Names(ipos, listed)
        invariant Second(ipos, listed, order[k..], env, today) == Reconciled(old(ipos), order, env, today)
      {
        assert order[k..][1..] == order[k + 1..];
        MatchRow(listed, order[k], env, today);
      }
    }

    /** The first loop's body, up to the board, sector and ISIN repairs. */
    method ClassifyRow(i: nat, env: Env)
      requires i < |ipos|
      modifies this
      ensures ipos == old(ipos)[i := Classified(old(ipos)[i], env)]
    {
      hide SetStatus, Write, FixedBoard, FilledSector, FilledIsin;
      var x := ipos[i];
      if x.Status() != "Not IPO" && env.artifact(x.Name()) {
        ipos := ipos[i := SetStatus(x, "Not IPO")];
        return;
      }
      if Typed(x, env) {
        var it := TypeOf(x, env);
        if it.None? && x.Status() != "Not IPO" {
          ipos := ipos[i := SetStatus(x, "Not IPO")];
          return;
        }
        if it.Some? {
          x := FixedBoard(x, it.value, env);
          x := FilledSector(x, env);
          x := FilledIsin(x, env);
          ipos := ipos[i := x];
        }
      } else if x.Field(Board) == Str("EQ") {
        ipos := ipos[i := Write(x, Board, Str("Mainboard"))];
      }
    }

    /** The first loop's last step: the listed-by-name map. */
    method NoteListed(listed: map<string, nat>, i: nat, env: Env) returns (r: map<string, nat>)
      requires i < |ipos| && Names(ipos, listed)
      ensures r == Noted(ipos, listed, i, env)
    {
      r := listed;
      if ipos[i].Status() == "Listed" {
        var c := env.canonical(ipos[i].Name());
        if c != "" && (c !in listed || (Truthy(ipos[i].Field(ListingDate)) && !Truthy(ipos[listed[c]].Field(ListingDate)))) {
          r := listed[c := i];
        }
      }
    }

    /** The second loop's body. */
    method MatchRow(listed: map<string, nat>, i: nat, env: Env, today: int)
      requires i < |ipos| && Names(ipos, listed)
      modifies this
      ensures ipos == old(ipos)[i := Matched(old(ipos), listed, i, env, today)]
    {
      hide SetStatus, Fill, FillPrice;
      var x := ipos[i];
      if x.Status() != "Open" && x.Status() != "Upcoming" && x.Status() != "Closed" {
        return;
      }
      var c := env.canonical(x.Name());
      if c in listed && listed[c] != i {
        var from := ipos[listed[c]];
        x := SetStatus(x, "Listed");
        x := Fill(x, ListingDate, from);
        x := FillPrice(x, from);
        x := Fill(x, Isin, from);
        ipos := ipos[i := x];
        return;
      }
      if x.Status() == "Open" || x.Status() == "Upcoming" {
        if Overdue(x, env, today) {
          ipos := ipos[i := SetStatus(x, "Closed")];
        }
      }
    }

    /** apply_nse_past_issues on the row an item matched. */
    method ApplyPastIssue(i: nat, it: PastItem, today: int, env: Env)
      requires i < |ipos|
      modifies this
      ensures ipos == old(ipos)[i := PastApplied(old(ipos)[i], it, today, env)]
    {
      hide SetStatus, Set, FillBlank;
      var x := ipos[i];
      if !PastIssueRow(x) {
        return;
      }
      if Truthy(it.finalPrice) && it.bandOk {
        if x.Field(FinalPrice) == Null {
          x := Set(x, FinalPrice, it.finalPrice);
        } else if Conflicts(x, it) {
          x := WithOfficial(x, it);
        }
      }
      x := FillBlank(x, OpenDate, it.openDate);
      x := FillBlank(x, CloseDate, it.closeDate);
      x := FillBlank(x, ListingDate, it.listingDate);
      if ListedBy(it.listingDate, today, env) && (x.Status() == "Open" || x.Status() == "Closed") && CanTransition(x.Status(), "Listed") {
        x := SetStatus(x, "Listed");
      }
      ipos := ipos[i := x];
    }

    /** resolve_india_symbols on a live-feed row found in the masters. */
    method ResolveFromMaster(i: nat, m: Security)
      requires i < |ipos|
      modifies this
      ensures ipos == old(ipos)[i := MasterApplied(old(ipos)[i], m)]
    {
      hide SetStatus, Set, FillBlank;
      var x := ipos[i];
      if India(x) && Truthy(x.Field(Symbol)) && !Truthy(x.Field(Isin))
        && (x.Status() == "Open" || x.Status() == "Closed" || x.Status() == "Listed") {
        x := Set(x, Isin, Str(m.isin));
        x := FillBlank(x, ListingDate, Str(m.listed));
        x := SetStatus(x, "Listed");
        if m.board != "" {
          x := Set(x, Board, Str(m.board));
        }
        ipos := ipos[i := x];
      }
    }

    /** repair_existing_us_listed on one row. */
    method Repair(i: nat, c: Cover)
      requires i < |ipos|
      modifies this
      ensures ipos == old(ipos)[i := AfterRepair(old(ipos)[i], c)]
    {
      hide RepairCandidate, Drop, SetStatus, Reread, Get, AsText;
      var x := ipos[i];
      if !RepairCandidate(x) {
        return;
      }
      var flags := Drop(x.flags, READ);
      if c.NotReached? {
        ipos := ipos[i := x.(flags := flags + [Inconclusive])];
        return;
      }
      if c.Undecided? {
        ipos := ipos[i := x.(flags := flags + [UnknownCover])];
        return;
      }
      flags := flags + [ClassifiedMarker, Reparsed, PriceV2, PriceV3];
      if c.FollowOnOffer? {
        x := SetStatus(x, "Not IPO");
        flags := AddFlag(flags, NonIpo) + [Rechecked];
      } else {
        x := Reread(x, c.symbol, c.price);
      }
      ipos := ipos[i := x.(flags := flags)];
    }

    /** recheck_not_ipo_rows on one row. */
    method Recheck(i: nat, c: Cover)
      requires i < |ipos|
      modifies this
      ensures ipos == old(ipos)[i := AfterRecheck(old(ipos)[i], c)]
    {
      hide RecheckCandidate, Drop, Relisted;
      var x := ipos[i];
      if !RecheckCandidate(x) {
        return;
      }
      var flags := Drop(x.flags, {Rechecked}) + [Rechecked];
      if !c.InitialOffer? {
        ipos := ipos[i := x.(flags := flags)];
        return;
      }
      x := Relisted(x, c.symbol, c.price);
      flags := Drop(flags, {NonIpo, PriceV2}) + [PriceV2];
      ipos := ipos[i := x.(flags := flags)];
    }

    /** repair_us_prices.repair_row on one row. */
    method RepairPrice(i: nat, o: Offering)
      requires i < |ipos|
      modifies this
      ensures ipos == old(ipos)[i := AfterPriceRepair(old(ipos)[i], o)]
    {
      hide PriceCandidate, Drop, SetStatus, Set, FillBlank, FillNull, Truthy, Get, AsText;
      var x := ipos[i];
      if !PriceCandidate(x) {
        return;
      }
      var flags := x.flags;
      match o {
        case Direct(symbol) =>
          flags := AddFlag(flags, DirectListing);
          x := FillBlank(x, Symbol, symbol);
        case NoOffering(reason) =>
          x := SetStatus(x, "Not IPO");
          flags := AddFlag(flags, NonIpoType(reason));
        case PricedAt(price, low, high, symbol) =>
          if Truthy(price) {
            x := Set(x, FinalPrice, price);
            x := FillNull(x, PriceLow, low);
            x := FillNull(x, PriceHigh, high);
            x := FillBlank(x, Symbol, symbol);
            flags := Drop(flags, {Unparsed});
          } else {
            flags := AddFlag(flags, Unparsed);
          }
        case NotFound(beyond) =>
          flags := AddFlag(flags, if beyond then CoverBeyondHead else Unparsed);
      }
      ipos := ipos[i := x.(flags := flags)];
    }
  }

  lemma SetOne(x: Ipo, row: Row, fs: seq<Column>, created: bool)
    requires fs != []
    ensures var f := fs[0];
      var moved := Takes(x, row, f, created) && x.Field(f) != row[f];
      var y := if moved then x.(fields := x.fields[f := row[f]]) else x;
      && SetFields(x, row, fs, created) == SetFields(y, row, fs[1..], created)
      && Changes(x, row, fs, created) == (if moved then {f} else {}) + Changes(y, row, fs[1..], created)
  {
  }

  lemma SetNone(x: Ipo, row: Row, created: bool)
    ensures SetFields(x, row, [], created) == x && Changes(x, row, [], created) == {}
  {
  }

  predicate IsNew(ipos: seq<Ipo>, target: Option<nat>) {
    target.None? || target.value >= |ipos|
  }

  function UpsertAt(ipos: seq<Ipo>, target: Option<nat>, row: Row, extras: Extras, sc: Scorer): (r: seq<Ipo>)
    ensures |r| >= |ipos|
  {
    if IsNew(ipos, target) then ipos + [Upserted(NewIpo(row), row, extras, true, sc)]
    else ipos[target.value := Upserted(ipos[target.value], row, extras, false, sc)]
  }

  // ------------------------------------------------------------- runs

  datatype Event =
    | Upsert(target: Option<nat>, row: Row, extras: Extras)
    | ReconcileAll(order: seq<nat>, today: int)
    | PastIssue(i: nat, item: PastItem, today: int)
    | FromMaster(i: nat, security: Security)
    | RepairRow(i: nat, cover: Cover)
    | RecheckRow(i: nat, cover: Cover)
    | RepairPrice(i: nat, offering: Offering)
    | MarkStored(i: nat)

  /** The writers that work on one row at a time. */
  function RowStep(x: Ipo, e: Event, env: Env): Ipo
    requires !e.Upsert? && !e.ReconcileAll?
  {
    match e
    case PastIssue(_, item, today) => PastApplied(x, item, today, env)
    case FromMaster(_, security) => MasterApplied(x, security)
    case RepairRow(_, cover) => AfterRepair(x, cover)
    case RecheckRow(_, cover) => AfterRecheck(x, cover)
    case RepairPrice(_, offering) => AfterPriceRepair(x, offering)
    case MarkStored(_) => Marked(x)
  }

  ghost function Step(ipos: seq<Ipo>, e: Event, env: Env, sc: Scorer): (r: seq<Ipo>)
    ensures |r| >= |ipos|
  {
    if e.Upsert? then UpsertAt(ipos, e.target, e.row, e.extras, sc)
    else if e.ReconcileAll? then (if Query(ipos, e.order) then Reconciled(ipos, e.order, env, e.today) else ipos)
    else if e.i < |ipos| then ipos[e.i := RowStep(ipos[e.i], e, env)]
    else ipos
  }

  ghost function Run(ipos: seq<Ipo>, events: seq<Event>, env: Env, sc: Scorer): (r: seq<Ipo>)
    ensures |r| >= |ipos|
    decreases events
  {
    if events == [] then ipos else Run(Step(ipos, events[0], env, sc), events[1..], env, sc)
  }

  /** What a step does to one stored row. */
  lemma StepAt(ipos: seq<Ipo>, e: Event, env: Env, sc: Scorer, i: nat)
    requires i < |ipos|
    ensures var x, y := ipos[i], Step(ipos, e, env, sc)[i];
      && (e.Upsert? ==> y == x || y == Upserted(x, e.row, e.extras, false, sc))
      && (e.ReconcileAll? ==> y == if Query(ipos, e.order) then Reconciled(ipos, e.order, env, e.today)[i] else x)
      && (!e.Upsert? && !e.ReconcileAll? ==> y == if e.i == i then RowStep(x, e, env) else x)
  {
    hide Reconciled, Upserted, RowStep, Query, NewIpo, UpsertAt;
    if e.Upsert? {
      UpsertOne(ipos, e.target, e.row, e.extras, sc, i);
    }
  }

  /** What any writer may do to a row: a terminal row stays terminal and gets no forward snapshot. */
  ghost predicate Lawful(x: Ipo, y: Ipo) {
    && Known(y.Status())
    && (Terminal(x.Status()) ==> Terminal(y.Status()))
    && |y.history| >= |x.history| && y.history[..|x.history|] == x.history
    && forall s | s in y.history[|x.history|..] :: s.forward <==> !Terminal(y.Status())
  }

  lemma LawfulSame(x: Ipo)
    requires Known(x.Status())
    ensures Lawful(x, x)
  {
  }

  /** A write that may move the status and leaves the history alone. */
  lemma StatusMoved(x: Ipo, y: Ipo)
    requires y.history == x.history && Known(y.Status()) && (Terminal(x.Status()) ==> Terminal(y.Status()))
    ensures Lawful(x, y)
  {
  }

  lemma StatusFacts()
    ensures Known("Listed") && Known("Not IPO") && Known("Closed") && Terminal("Listed") && Terminal("Not IPO")
    ensures !Terminal("Open") && !Terminal("Closed") && !Terminal("Upcoming")
  {
  }

  lemma PastLawful(x: Ipo, it: PastItem, today: int, env: Env)
    requires Known(x.Status())
    ensures Lawful(x, PastApplied(x, it, today, env))
  {
    StatusFacts();
    hide PastFilled, SetStatus, ListedBy, Lawful, Get, Known, Terminal, CanTransition, AsText, PastIssueRow;
    StatusMoved(x, PastApplied(x, it, today, env));
  }

  lemma MasterLawful(x: Ipo, m: Security)
    requires Known(x.Status())
    ensures Lawful(x, MasterApplied(x, m))
  {
    StatusFacts();
    hide Set, SetStatus, FillBlank, Lawful, Get, Truthy, Known, Terminal, AsText;
    StatusMoved(x, MasterApplied(x, m));
  }

  lemma RowLawful(x: Ipo, e: Event, env: Env)
    requires Known(x.Status()) && !e.Upsert? && !e.ReconcileAll?
    ensures Lawful(x, RowStep(x, e, env))
  {
    if e.PastIssue? {
      PastLawful(x, e.item, e.today, env);
    } else if e.FromMaster? {
      MasterLawful(x, e.security);
    } else {
      StatusFacts();
      hide Lawful, PastApplied, MasterApplied, AfterRepair, AfterRecheck, AfterPriceRepair, Known, Terminal, Get, AsText;
      var y := RowStep(x, e, env);
      match e {
        case RepairRow(_, cover) => RepairMoves(x, cover);
        case RecheckRow(_, cover) => RecheckMoves(x, cover);
        case RepairPrice(_, offering) => PriceMoves(x, offering);
        case MarkStored(_) =>
      }
      StatusMoved(x, y);
    }
  }

  // ------------------------------------------------------------- writing the same again

  predicate Filled(x: Ipo, f: Column, v: Value) {
    Truthy(v) ==> Truthy(x.Field(f))
  }

  /** No date of the item is left to fill in. */
  predicate PastFull(x: Ipo, it: PastItem) {
    && Filled(x, OpenDate, it.openDate) && Filled(x, CloseDate, it.closeDate) && Filled(x, ListingDate, it.listingDate)
  }

  lemma FillKeeps(x: Ipo, f: Column, v: Value, it: PastItem)
    requires f == OpenDate || f == CloseDate || f == ListingDate
    ensures var y := FillBlank(x, f, v);
      && Filled(y, f, v) && y.Field(Symbol) == x.Field(Symbol) && y.Field(Country) == x.Field(Country)
      && y.Field(FinalPrice) == x.Field(FinalPrice) && y.raw == x.raw
      && (Filled(x, OpenDate, it.openDate) ==> Filled(y, OpenDate, it.openDate))
      && (Filled(x, CloseDate, it.closeDate) ==> Filled(y, CloseDate, it.closeDate))
  {
    hide Truthy, Get;
  }

  /** Nothing of the item's price is left to write. */
  ghost predicate PriceFull(x: Ipo, it: PastItem) {
    PastPriced(x, it) == x
  }

  lemma PricedTwice(x: Ipo, it: PastItem)
    requires NotNegative(it)
    ensures var y := PastPriced(x, it);
      PriceFull(y, it) && y.Field(Symbol) == x.Field(Symbol) && y.Field(Country) == x.Field(Country)
  {
    if Conflicts(x, it) {
      FlagTwice(x.flags, PriceConflict(it.finalPrice, x.Field(FinalPrice)));
    }
    hide Get, Drop, ConflictFlags;
  }

  predicate NotNegative(it: PastItem) {
    it.finalPrice.Num? ==> it.finalPrice.number >= 0.0
  }

  lemma FlagTwice(flags: seq<Flag>, f: Flag)
    requires f.PriceConflict?
    ensures var once := Drop(flags, ConflictFlags(flags)) + [f];
      Drop(once, ConflictFlags(once)) + [f] == once
  {
    var base := Drop(flags, ConflictFlags(flags));
    var gone := ConflictFlags(base + [f]);
    assert f in base + [f];
    DropAppend(base, [f], gone);
    DropNothing(base, gone);
    assert [f][1..] == [] && Drop([f], gone) == [];
    assert base + [] == base;
  }

  lemma PastFills(x: Ipo, it: PastItem)
    ensures var y := PastDated(x, it);
      && PastFull(y, it) && y.Field(Symbol) == x.Field(Symbol) && y.Field(Country) == x.Field(Country)
      && y.Field(FinalPrice) == x.Field(FinalPrice) && y.raw == x.raw && y.flags == x.flags
  {
    hide FillBlank, Filled, Truthy, Get;
    var begun := FillBlank(x, OpenDate, it.openDate);
    var closed := FillBlank(begun, CloseDate, it.closeDate);
    FillKeeps(x, OpenDate, it.openDate, it);
    FillKeeps(begun, CloseDate, it.closeDate, it);
    FillKeeps(closed, ListingDate, it.listingDate, it);
  }

  lemma FullStays(x: Ipo, it: PastItem)
    requires PastFull(x, it) && PriceFull(x, it)
    ensures PastFilled(x, it) == x
  {
    hide PastPriced;
  }

  /** What is left to write depends on the price, the source record and the flags only. */
  lemma PriceStaysFull(x: Ipo, y: Ipo, it: PastItem)
    requires PriceFull(x, it) && y.Field(FinalPrice) == x.Field(FinalPrice) && y.raw == x.raw && y.flags == x.flags
    ensures PriceFull(y, it)
  {
    hide Get, Drop, ConflictFlags;
  }

  lemma StatusOnly(x: Ipo, s: string, it: PastItem)
    ensures var y := SetStatus(x, s);
      && y.Status() == s && y.Field(Symbol) == x.Field(Symbol) && y.Field(Country) == x.Field(Country)
      && y.Field(FinalPrice) == x.Field(FinalPrice) && y.raw == x.raw && y.flags == x.flags
      && (PastFull(x, it) ==> PastFull(y, it))
  {
    hide Get, Truthy;
  }

  lemma PastRerun(x: Ipo, it: PastItem, today: int, env: Env)
    requires NotNegative(it)
    ensures PastApplied(PastApplied(x, it, today, env), it, today, env) == PastApplied(x, it, today, env)
  {
    hide PastPriced, PastDated, PastFull, PriceFull, SetStatus, ListedBy, Get, Missing, AsText, CanTransition;
    var priced, filled := PastPriced(x, it), PastFilled(x, it);
    PricedTwice(x, it);
    PastFills(priced, it);
    PriceStaysFull(priced, filled, it);
    StatusOnly(filled, "Listed", it);
    PriceStaysFull(filled, SetStatus(filled, "Listed"), it);
    if PastIssueRow(x) {
      FullStays(filled, it);
      FullStays(PastApplied(x, it, today, env), it);
    }
  }

  lemma MasterDone(x: Ipo, m: Security)
    requires x.Field(Isin) == Str(m.isin) && x.Status() == "Listed" && Filled(x, ListingDate, Str(m.listed))
    requires m.board != "" ==> x.Field(Board) == Str(m.board)
    ensures MasterApplied(x, m) == x
  {
    hide Get, Truthy;
    assert Set(x, Isin, Str(m.isin)) == x;
  }

  lemma MasterFields(x: Ipo, m: Security)
    requires MasterApplied(x, m) != x
    ensures var y := MasterApplied(x, m);
      && y.Field(Isin) == Str(m.isin) && y.Status() == "Listed" && Filled(y, ListingDate, Str(m.listed))
      && (m.board != "" ==> y.Field(Board) == Str(m.board))
  {
    hide MasterRow, Get, Truthy, Write, FillBlank, SetStatus, Filled, AsText, Missing;
    var filled := FillBlank(Set(x, Isin, Str(m.isin)), ListingDate, Str(m.listed));
    FilledIn(Set(x, Isin, Str(m.isin)), ListingDate, Str(m.listed));
    ListedOnBoard(filled, Str(m.board), Str(m.listed));
    hide Set, OnlyMoves;
  }

  /** Status and board do not touch the other columns. */
  lemma ListedOnBoard(x: Ipo, board: Value, date: Value)
    ensures var y := SetStatus(x, "Listed");
      var z := Set(y, Board, board);
      && y.Status() == z.Status() == "Listed" && z.Field(Board) == board
      && y.Field(Isin) == z.Field(Isin) == x.Field(Isin)
      && (Filled(x, ListingDate, date) ==> Filled(y, ListingDate, date) && Filled(z, ListingDate, date))
  {
    hide Write, SetStatus, Filled, Truthy, AsText, Get;
    var y := SetStatus(x, "Listed");
    SameField(x, y, date);
    SameField(y, Set(y, Board, board), date);
  }

  lemma FilledIn(x: Ipo, f: Column, v: Value)
    requires f != Status
    ensures Filled(FillBlank(x, f, v), f, v) && OnlyMoves(x, FillBlank(x, f, v), f)
  {
    hide Truthy, Get;
  }

  lemma SameField(x: Ipo, y: Ipo, v: Value)
    requires x.Field(ListingDate) == y.Field(ListingDate)
    ensures Filled(x, ListingDate, v) <==> Filled(y, ListingDate, v)
  {
    hide Truthy, Get;
  }

  lemma MasterRerun(x: Ipo, m: Security)
    ensures MasterApplied(MasterApplied(x, m), m) == MasterApplied(x, m)
  {
    hide MasterApplied, Filled;
    if MasterApplied(x, m) != x {
      MasterFields(x, m);
      MasterDone(MasterApplied(x, m), m);
    }
  }

  /** Running a writer again with the same input changes nothing, except that the repair reads a
      row with an implausible price again when it found no verdict. */
  lemma RowRerun(x: Ipo, e: Event, env: Env)
    requires !e.Upsert? && !e.ReconcileAll? && (e.PastIssue? ==> NotNegative(e.item))
    ensures RowStep(RowStep(x, e, env), e, env) == RowStep(x, e, env)
      <==> !(e.RepairRow? && RepairCandidate(x) && Implausible(x) && (e.cover.NotReached? || e.cover.Undecided?))
  {
    hide PastApplied, MasterApplied, AfterRepair, AfterRecheck, AfterPriceRepair, Marked, RepairCandidate, Implausible;
    match e
    case PastIssue(_, item, today) => PastRerun(x, item, today, env);
    case FromMaster(_, security) => MasterRerun(x, security);
    case RepairRow(_, cover) => RepairRerunIff(x, cover);
    case RecheckRow(_, cover) => RecheckRerun(x, cover);
    case RepairPrice(_, offering) => PriceRerun(x, offering);
    case MarkStored(_) => MarkRerun(x);
  }

  lemma FinalStatusLawful(ipos: seq<Ipo>, i: nat, env: Env, today: int)
    requires i < |ipos| && Known(ipos[i].Status())
    ensures Known(FinalStatus(ipos, i, env, today))
    ensures Terminal(ipos[i].Status()) ==> Terminal(FinalStatus(ipos, i, env, today))
  {
    ClassifiedStays(ipos[i], env);
    StatusFacts();
    hide Classified, ListedTwin, Overdue, Known, Terminal, Get, AsText, SameIssue;
  }

  lemma ReconcileLawful(ipos: seq<Ipo>, order: seq<nat>, env: Env, today: int, i: nat)
    requires Query(ipos, order) && i < |ipos| && Known(ipos[i].Status())
    ensures Lawful(ipos[i], Reconciled(ipos, order, env, today)[i])
  {
    ReconciledStatus(ipos, order, env, today, i);
    ReconciledHistory(ipos, order, env, today, i);
    FinalStatusLawful(ipos, i, env, today);
    hide Reconciled, Lawful, FinalStatus, Known, Terminal;
    StatusMoved(ipos[i], Reconciled(ipos, order, env, today)[i]);
  }

  lemma ReconciledHistory(ipos: seq<Ipo>, order: seq<nat>, env: Env, today: int, i: nat)
    requires Query(ipos, order) && i < |ipos|
    ensures var y := Reconciled(ipos, order, env, today)[i];
      y.history == ipos[i].history && y.flags == ipos[i].flags
  {
    Pointwise(ipos, order, env, today);
    var one := First(ipos, map[], order, env);
    hide Classified, First, Reconciled, ListedTwin, Matched, MapsListed, India;
    if India(ipos[i]) {
      ClassifiedHistory(ipos[i], env);
      MatchedHistory(one.0, one.1, i, env, today);
    }
  }

  lemma ClassifiedHistory(x: Ipo, env: Env)
    ensures Classified(x, env).history == x.history && Classified(x, env).flags == x.flags
  {
    hide Classified;
    ClassifiedStays(x, env);
  }

  lemma ListedLikeSame(x: Ipo, from: Ipo)
    ensures ListedLike(x, from).history == x.history && ListedLike(x, from).flags == x.flags
  {
    hide ListedLike;
    ListedLikeLists(x, from);
  }

  lemma MatchedHistory(ipos: seq<Ipo>, listed: map<string, nat>, i: nat, env: Env, today: int)
    requires i < |ipos| && Names(ipos, listed)
    ensures var y := Matched(ipos, listed, i, env, today);
      y.history == ipos[i].history && y.flags == ipos[i].flags
  {
    hide ListedLike, SetStatus, Get, AsText, Overdue, Pending;
    var c := env.canonical(ipos[i].Name());
    if c in listed {
      ListedLikeSame(ipos[i], ipos[listed[c]]);
    }
  }

  lemma UpsertLawful(x: Ipo, row: Row, extras: Extras, created: bool, sc: Scorer)
    requires Known(x.Status())
    ensures Lawful(x, Upserted(x, row, extras, created, sc))
  {
    hide Upserted, Rank, Terminal;
    UpsertStatus(x, row, extras, created, sc);
    UpsertHistory(x, row, extras, created, sc);
  }

  lemma NewKnown(row: Row)
    ensures var x := NewIpo(row);
      x.Status() == "Filed" && x.history == [] && x.flags == [] && Sound(x)
  {
    NewParts(row);
    hide NewIpo, Get;
  }

  lemma NewParts(row: Row)
    ensures NewIpo(row).history == [] && NewIpo(row).flags == [] && NewIpo(row).Field(Status) == Str("Filed")
  {
    hide Blank, Preset, Or;
    assert Status in Preset() && Status !in Blank();
  }

  ghost predicate AllKnown(ipos: seq<Ipo>) {
    forall i | 0 <= i < |ipos| :: Known(ipos[i].Status())
  }

  /** Every writer is lawful on every stored row, and a new row is Sound. */
  lemma StepLawful(ipos: seq<Ipo>, e: Event, env: Env, sc: Scorer)
    requires AllKnown(ipos)
    ensures var after := Step(ipos, e, env, sc);
      && (forall i | 0 <= i < |ipos| :: Lawful(ipos[i], after[i]))
      && (forall i | |ipos| <= i < |after| :: Sound(after[i]))
  {
    hide Sound, Upserted, NewIpo, RowStep, Reconciled, Query, Lawful;
    var after := Step(ipos, e, env, sc);
    forall i | 0 <= i < |ipos| ensures Lawful(ipos[i], after[i]) {
      LawfulSame(ipos[i]);
      if e.Upsert? {
        UpsertLawful(ipos[i], e.row, e.extras, false, sc);
      } else if !e.ReconcileAll? {
        RowLawful(ipos[i], e, env);
      } else if Query(ipos, e.order) {
        ReconcileLawful(ipos, e.order, env, e.today, i);
      }
    }
    if e.Upsert? {
      NewKnown(e.row);
      UpsertSound(NewIpo(e.row), e.row, e.extras, true, sc);
    }
  }

  lemma LawfulSound(x: Ipo, y: Ipo)
    requires Sound(x) && Lawful(x, y)
    ensures Sound(y)
  {
    var n := |x.history|;
    forall i, j | 0 <= i < j < |y.history| && y.history[j].forward ensures y.history[i].forward {
      assert i < n ==> y.history[i] == x.history[i];
      assert j < n ==> y.history[j] == x.history[j];
      assert j >= n ==> y.history[j] in y.history[n..];
      assert i >= n ==> y.history[i] in y.history[n..];
      assert i < n ==> x.history[i] in x.history;
    }
    if !Terminal(y.Status()) {
      forall s | s in y.history ensures s.forward {
        var i :| 0 <= i < |y.history| && y.history[i] == s;
        assert i < n ==> x.history[i] == s;
        assert i >= n ==> y.history[n..][i - n] == s;
      }
    }
  }

  ghost predicate AllSound(ipos: seq<Ipo>) {
    forall i | 0 <= i < |ipos| :: Sound(ipos[i])
  }

  lemma {:induction false} RunSound(ipos: seq<Ipo>, events: seq<Event>, env: Env, sc: Scorer)
    requires AllSound(ipos)
    ensures AllSound(Run(ipos, events, env, sc))
    decreases events
  {
    if events != [] {
      StepLawful(ipos, events[0], env, sc);
      var after := Step(ipos, events[0], env, sc);
      hide Step, Lawful, Sound;
      forall i | 0 <= i < |after| ensures Sound(after[i]) {
        if i < |ipos| {
          LawfulSound(ipos[i], after[i]);
        }
      }
      RunSound(after, events[1..], env, sc);
    }
  }

  /** Over every run of the writers, the forward snapshots of each row come before all others, and
      a row that has any other snapshot is Listed, Withdrawn or Not IPO. */
  lemma LedgerRun(events: seq<Event>, env: Env, sc: Scorer)
    ensures forall i | 0 <= i < |Run([], events, env, sc)| ::
      var x := Run([], events, env, sc)[i];
      ForwardFirst(x.history) && ((exists s :: s in x.history && !s.forward) ==> Terminal(x.Status()))
  {
    RunSound([], events, env, sc);
    hide Run, Terminal;
    var after := Run([], events, env, sc);
    forall i | 0 <= i < |after| ensures Sound(after[i]) {
    }
  }

  /** The row is terminal and its history grew by snapshots made after listing only. */
  ghost predicate StaysTerminal(x: Ipo, y: Ipo) {
    && Terminal(y.Status())
    && |y.history| >= |x.history| && y.history[..|x.history|] == x.history
    && forall s | s in y.history[|x.history|..] :: !s.forward
  }

  lemma StaysOn(x: Ipo, y: Ipo, z: Ipo)
    requires StaysTerminal(x, y) && StaysTerminal(y, z)
    ensures StaysTerminal(x, z)
  {
    hide Terminal;
    assert z.history[|x.history|..] == y.history[|x.history|..] + z.history[|y.history|..] by {
      assert z.history == y.history + z.history[|y.history|..];
    }
  }

  /** A row that is Listed, Withdrawn or Not IPO never leaves these statuses, and gets no forward
      snapshot any more. */
  lemma {:induction false} TerminalAbsorbing(ipos: seq<Ipo>, events: seq<Event>, env: Env, sc: Scorer, i: nat)
    requires AllKnown(ipos) && i < |ipos| && Terminal(ipos[i].Status())
    ensures StaysTerminal(ipos[i], Run(ipos, events, env, sc)[i])
    decreases events
  {
    hide Step, Known, Terminal;
    if events != [] {
      var after := Step(ipos, events[0], env, sc);
      StepLawful(ipos, events[0], env, sc);
      KnownKept(ipos, events[0], env, sc);
      assert Lawful(ipos[i], after[i]);
      TerminalAbsorbing(after, events[1..], env, sc, i);
      StaysOn(ipos[i], after[i], Run(after, events[1..], env, sc)[i]);
    }
  }

  lemma KnownKept(ipos: seq<Ipo>, e: Event, env: Env, sc: Scorer)
    requires AllKnown(ipos)
    ensures AllKnown(Step(ipos, e, env, sc))
  {
    StepLawful(ipos, e, env, sc);
    hide Step, Rank;
    var after := Step(ipos, e, env, sc);
    forall j | 0 <= j < |after| ensures Known(after[j].Status()) {
      if j < |ipos| {
        assert Lawful(ipos[j], after[j]);
      } else {
        assert Sound(after[j]);
      }
    }
  }

  lemma UpsertOne(ipos: seq<Ipo>, target: Option<nat>, row: Row, extras: Extras, sc: Scorer, i: nat)
    requires i < |ipos|
    ensures var y := UpsertAt(ipos, target, row, extras, sc)[i];
      y == ipos[i] || y == Upserted(ipos[i], row, extras, false, sc)
  {
    hide Upserted, NewIpo;
  }

  lemma KnownAt(ipos: seq<Ipo>, i: nat)
    requires AllKnown(ipos) && i < |ipos|
    ensures Known(ipos[i].Status())
  {
    hide Known;
  }

  lemma UpsertRank(ipos: seq<Ipo>, e: Event, env: Env, sc: Scorer, i: nat)
    requires AllKnown(ipos) && i < |ipos| && e.Upsert?
    ensures AllKnown(Step(ipos, e, env, sc))
    ensures Rank(Step(ipos, e, env, sc)[i].Status()) >= Rank(ipos[i].Status())
  {
    hide *;
    KnownAt(ipos, i);
    KnownKept(ipos, e, env, sc);
    StepAt(ipos, e, env, sc, i);
    UpsertStatus(ipos[i], e.row, e.extras, false, sc);
  }

  /** Under upserts alone the status rank of a row never decreases. */
  lemma {:induction false} RankNeverDecreases(ipos: seq<Ipo>, events: seq<Event>, env: Env, sc: Scorer, i: nat)
    requires AllKnown(ipos) && i < |ipos| && forall e | e in events :: e.Upsert?
    ensures Rank(Run(ipos, events, env, sc)[i].Status()) >= Rank(ipos[i].Status())
    decreases events
  {
    hide Step, Rank;
    if events != [] {
      UpsertRank(ipos, events[0], env, sc, i);
      RankNeverDecreases(Step(ipos, events[0], env, sc), events[1..], env, sc, i);
    }
  }

  // ------------------------------------------------------------- rows taken off the list

  /** Only the repair writes NonIpo: no feed carries it. */
  ghost predicate PlainFeed(e: Event) {
    e.Upsert? && e.extras.flags.Some? ==> NonIpo !in e.extras.flags.value
  }

  ghost predicate PlainFeeds(events: seq<Event>) {
    forall e | e in events :: PlainFeed(e)
  }

  lemma SameFlags(x: Ipo, y: Ipo)
    requires y.flags == x.flags && (x.Status() == "Not IPO" ==> y.Status() == "Not IPO")
    ensures StaysOff(x, y)
  {
  }

  lemma PastStaysOff(x: Ipo, it: PastItem, today: int, env: Env)
    ensures StaysOff(x, PastApplied(x, it, today, env))
    ensures x.Status() == "Not IPO" ==> PastApplied(x, it, today, env) == x
  {
    hide PastDated, SetStatus, ListedBy, Get, AsText, Truthy, Drop, Set, Conflicts, CanTransition, Missing;
  }

  lemma MasterStaysOff(x: Ipo, m: Security)
    ensures StaysOff(x, MasterApplied(x, m))
    ensures x.Status() == "Not IPO" ==> MasterApplied(x, m) == x
  {
    hide SetStatus, Set, FillBlank, Get, AsText, Truthy;
  }

  lemma UpsertStaysOff(x: Ipo, row: Row, extras: Extras, created: bool, sc: Scorer)
    requires Known(x.Status()) && (extras.flags.Some? ==> NonIpo !in extras.flags.value)
    ensures StaysOff(x, Upserted(x, row, extras, created, sc))
    ensures x.Status() == "Not IPO" ==> Upserted(x, row, extras, created, sc).Status() == "Not IPO"
  {
    hide Upserted, Rank, Known, Terminal;
    UpsertStatus(x, row, extras, created, sc);
    UpsertFlags(x, row, extras, created, sc);
    TopRank(Upserted(x, row, extras, created, sc).Status());
    hide Get, AsText;
  }

  lemma TopRank(s: string)
    ensures Rank("Not IPO") == 80 && (Rank(s) >= 80 ==> s == "Not IPO")
  {
  }

  lemma ReconcileStaysOff(ipos: seq<Ipo>, order: seq<nat>, env: Env, today: int, i: nat)
    requires Query(ipos, order) && i < |ipos|
    ensures var y := Reconciled(ipos, order, env, today)[i];
      StaysOff(ipos[i], y) && (ipos[i].Status() == "Not IPO" ==> y.Status() == "Not IPO")
  {
    ReconciledStatus(ipos, order, env, today, i);
    ReconciledHistory(ipos, order, env, today, i);
    ClassifiedStays(ipos[i], env);
    hide Reconciled, Classified, ListedTwin, Overdue, Get, AsText, SameIssue;
    SameFlags(ipos[i], Reconciled(ipos, order, env, today)[i]);
  }

  /** x becomes y: no row becomes Returnable, and a Not IPO row comes back exactly if `back`, once. */
  ghost predicate NotIpoLaw(x: Ipo, y: Ipo, back: bool) {
    && StaysOff(x, y)
    && (x.Status() == "Not IPO" ==> (y.Status() != "Not IPO" <==> back))
    && (x.Status() == "Not IPO" && y.Status() != "Not IPO" ==> Returnable(x) && !Returnable(y))
  }

  ghost predicate ComesBack(x: Ipo, e: Event, i: nat) {
    e.RecheckRow? && e.i == i && RecheckCandidate(x) && e.cover.InitialOffer?
  }

  lemma NotIpoSame(x: Ipo, y: Ipo)
    requires StaysOff(x, y) && (x.Status() == "Not IPO" ==> y.Status() == "Not IPO")
    ensures NotIpoLaw(x, y, false)
  {
    hide Returnable, StaysOff;
  }

  lemma StaysPut(x: Ipo, e: Event, i: nat)
    requires !e.RecheckRow? || e.i != i
    ensures NotIpoLaw(x, x, ComesBack(x, e, i))
  {
    SameFlags(x, x);
    NotIpoSame(x, x);
  }

  lemma UpsertNotIpo(x: Ipo, e: Event, sc: Scorer, i: nat)
    requires e.Upsert? && Known(x.Status()) && PlainFeed(e)
    ensures NotIpoLaw(x, Upserted(x, e.row, e.extras, false, sc), ComesBack(x, e, i))
  {
    hide Upserted, Known, Get, AsText;
    UpsertStaysOff(x, e.row, e.extras, false, sc);
    NotIpoSame(x, Upserted(x, e.row, e.extras, false, sc));
  }

  lemma ReconcileNotIpo(ipos: seq<Ipo>, e: Event, env: Env, i: nat)
    requires e.ReconcileAll? && Query(ipos, e.order) && i < |ipos|
    ensures NotIpoLaw(ipos[i], Reconciled(ipos, e.order, env, e.today)[i], ComesBack(ipos[i], e, i))
  {
    hide Reconciled, Get, AsText;
    ReconcileStaysOff(ipos, e.order, env, e.today, i);
    NotIpoSame(ipos[i], Reconciled(ipos, e.order, env, e.today)[i]);
  }

  /** One step of any writer on one row: a Not IPO row leaves that status exactly when the recheck
      reads an IPO off the cover of a row flagged NonIpo and not rechecked; and no row becomes
      such a row. */
  lemma NotIpoStep(ipos: seq<Ipo>, e: Event, env: Env, sc: Scorer, i: nat)
    requires AllKnown(ipos) && i < |ipos| && PlainFeed(e)
    ensures NotIpoLaw(ipos[i], Step(ipos, e, env, sc)[i], ComesBack(ipos[i], e, i))
  {
    hide *;
    KnownAt(ipos, i);
    StepAt(ipos, e, env, sc, i);
    if e.Upsert? {
      StaysPut(ipos[i], e, i);
      UpsertNotIpo(ipos[i], e, sc, i);
    } else if e.ReconcileAll? {
      StaysPut(ipos[i], e, i);
      if Query(ipos, e.order) {
        ReconcileNotIpo(ipos, e, env, i);
      }
    } else if e.i == i {
      RowNotIpo(ipos[i], e, env);
    } else {
      StaysPut(ipos[i], e, i);
    }
  }

  lemma RowNotIpo(x: Ipo, e: Event, env: Env)
    requires !e.Upsert? && !e.ReconcileAll?
    ensures NotIpoLaw(x, RowStep(x, e, env), ComesBack(x, e, e.i))
  {
    hide PastApplied, MasterApplied, AfterRecheck, Drop, Get, AsText, SetStatus, Set, FillBlank, FillNull, Truthy, SecRow,
      Implausible, RecheckCandidate;
    match e
    case PastIssue(_, item, today) => PastStaysOff(x, item, today, env);
    case FromMaster(_, security) => MasterStaysOff(x, security);
    case RepairRow(_, cover) => RepairStaysOff(x, cover);
    case RecheckRow(_, cover) =>
      RecheckStaysOff(x, cover);
      RecheckReturns(x);
    case RepairPrice(_, offering) => PriceStaysOff(x, offering);
    case MarkStored(_) => MarkStaysOff(x);
  }

  lemma RecheckReturns(x: Ipo)
    ensures RecheckCandidate(x) ==> Returnable(x)
  {
  }

  /** How often row i comes back from Not IPO over a run. */
  ghost function Returns(ipos: seq<Ipo>, events: seq<Event>, env: Env, sc: Scorer, i: nat): nat
    requires i < |ipos|
    decreases events
  {
    if events == [] then 0
    else
      var after := Step(ipos, events[0], env, sc);
      (if ipos[i].Status() == "Not IPO" && after[i].Status() != "Not IPO" then 1 else 0)
        + Returns(after, events[1..], env, sc, i)
  }

  /** Over every run of all writers a row comes back at most once, and only if it was flagged by a
      repair that did not mark it rechecked. */
  lemma {:induction false} ReturnsOnce(ipos: seq<Ipo>, events: seq<Event>, env: Env, sc: Scorer, i: nat)
    requires AllKnown(ipos) && i < |ipos| && PlainFeeds(events)
    ensures Returns(ipos, events, env, sc, i) <= if Returnable(ipos[i]) then 1 else 0
    decreases events
  {
    hide Step, Known, Returnable, RecheckCandidate;
    if events != [] {
      var after := Step(ipos, events[0], env, sc);
      assert events[0] in events && forall e | e in events[1..] :: e in events;
      NotIpoStep(ipos, events[0], env, sc, i);
      KnownKept(ipos, events[0], env, sc);
      ReturnsOnce(after, events[1..], env, sc, i);
    }
  }

  /** A Not IPO row that is not Returnable stays Not IPO over every later run of all writers. */
  lemma {:induction false} TakenOffStays(ipos: seq<Ipo>, events: seq<Event>, env: Env, sc: Scorer, i: nat)
    requires AllKnown(ipos) && i < |ipos| && PlainFeeds(events)
    requires ipos[i].Status() == "Not IPO" && !Returnable(ipos[i])
    ensures var y := Run(ipos, events, env, sc)[i]; y.Status() == "Not IPO" && !Returnable(y)
    decreases events
  {
    hide Step, Known, Returnable, RecheckCandidate;
    if events != [] {
      assert events[0] in events && forall e | e in events[1..] :: e in events;
      NotIpoStep(ipos, events[0], env, sc, i);
      KnownKept(ipos, events[0], env, sc);
      TakenOffStays(Step(ipos, events[0], env, sc), events[1..], env, sc, i);
    }
  }

  /** In particular the row a repair takes off now is Not IPO after any later run. */
  lemma RepairSticks(ipos: seq<Ipo>, events: seq<Event>, env: Env, sc: Scorer, i: nat)
    requires AllKnown(ipos) && i < |ipos| && PlainFeeds(events) && RepairCandidate(ipos[i])
    ensures Run(ipos, [RepairRow(i, FollowOnOffer)] + events, env, sc)[i].Status() == "Not IPO"
  {
    hide Step, Known, Returnable, RepairCandidate;
    var e, all := RepairRow(i, FollowOnOffer), [RepairRow(i, FollowOnOffer)] + events;
    var after := Step(ipos, e, env, sc);
    assert all[0] == e && all[1..] == events;
    StepAt(ipos, e, env, sc, i);
    RepairStaysOff(ipos[i], FollowOnOffer);
    KnownKept(ipos, e, env, sc);
    TakenOffStays(after, events, env, sc, i);
  }

  ghost predicate NoneReturnable(ipos: seq<Ipo>) {
    forall i | 0 <= i < |ipos| :: !Returnable(ipos[i])
  }

  lemma {:induction false} NoneReturnableRun(ipos: seq<Ipo>, events: seq<Event>, env: Env, sc: Scorer)
    requires AllKnown(ipos) && NoneReturnable(ipos) && PlainFeeds(events)
    ensures NoneReturnable(Run(ipos, events, env, sc))
    decreases events
  {
    hide Step, Known, Returnable, RecheckCandidate;
    if events != [] {
      var e, after := events[0], Step(ipos, events[0], env, sc);
      assert e in events && forall e | e in events[1..] :: e in events;
      KnownKept(ipos, e, env, sc);
      forall i | 0 <= i < |after| ensures !Returnable(after[i]) {
        if i < |ipos| {
          NotIpoStep(ipos, e, env, sc, i);
        } else {
          NewPlain(ipos, e, env, sc, i);
        }
      }
      NoneReturnableRun(after, events[1..], env, sc);
    }
  }

  lemma NewPlain(ipos: seq<Ipo>, e: Event, env: Env, sc: Scorer, i: nat)
    requires PlainFeed(e) && |ipos| <= i < |Step(ipos, e, env, sc)|
    ensures !Returnable(Step(ipos, e, env, sc)[i])
  {
    NewIs(ipos, e, env, sc, i);
    hide Step, NewIpo, Upserted;
    NewParts(e.row);
    UpsertFlags(NewIpo(e.row), e.row, e.extras, true, sc);
  }

  /** Only an upsert adds a row. */
  lemma NewIs(ipos: seq<Ipo>, e: Event, env: Env, sc: Scorer, i: nat)
    requires |ipos| <= i < |Step(ipos, e, env, sc)|
    ensures e.Upsert? && Step(ipos, e, env, sc)[i] == Upserted(NewIpo(e.row), e.row, e.extras, true, sc)
  {
    hide Reconciled, RowStep, Query, Upserted, NewIpo;
  }

  /** On a ledger these writers built, the recheck never finds a row to read. */
  lemma NothingToRecheck(events: seq<Event>, env: Env, sc: Scorer, cover: Cover)
    requires PlainFeeds(events)
    ensures forall i | 0 <= i < |Run([], events, env, sc)| ::
      var x := Run([], events, env, sc)[i]; !RecheckCandidate(x) && AfterRecheck(x, cover) == x
  {
    NoneReturnableRun([], events, env, sc);
    hide Run, AfterRecheck;
    var after := Run([], events, env, sc);
    forall i | 0 <= i < |after| ensures !RecheckCandidate(after[i]) && AfterRecheck(after[i], cover) == after[i] {
      assert !Returnable(after[i]);
      RecheckStaysOff(after[i], cover);
    }
  }
}
