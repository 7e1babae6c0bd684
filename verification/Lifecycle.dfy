/**
 The status field of an IPO row and the snapshot history that upsert_ipo writes
 (identity.py, pipeline.py). Rows arrive with cleaned names and normalised dates.
 */
module Lifecycle {
  import opened Options
  import opened Text
  import opened Reals

  /** A column value; NULL and the empty string both read as missing. */
  datatype Value = Null | Str(text: string) | Num(number: real)

  predicate Missing(v: Value) {
    v == Null || v == Str("")
  }

  /** Python's truth value. */
  predicate Truthy(v: Value) {
    !Missing(v) && v != Num(0.0)
  }

  /** The columns upsert_ipo may write. */
  datatype Column =
    | Company | Symbol | Isin | Country | Exchange | Board | Sector | Status | FilingDate | OpenDate | CloseDate
    | ListingDate | Currency | PriceLow | PriceHigh | FinalPrice | IssueSizeM | SharesOfferedM | PostIssueSharesM
    | LotSize | RevenueM | RevenuePrevM | Revenue2yAgoM | EbitdaM | NetIncomeM | CfoM | DebtM | CashM | FreshIssuePct
    | OfsPct | PromoterRetentionPct | QibSub | NiiSub | RetailSub | TotalSub | GmpPct | UnderwriterQuality
    | AnchorQuality | MarketRegime | SectorRegime | DualClass | LockupDays | MarketOverhangPct | PeerMedianPe
    | PeerMedianPs | PeerMedianEvEbitda | FilingUrl | Registrar | AllotmentUrl

  type Row = map<Column, Value>

  function Get(row: Row, f: Column): Value {
    if f in row then row[f] else Null
  }

  function AsText(v: Value): string {
    match v
    case Str(s) => s
    case _ => ""
  }

  datatype Score = Score(overall: real, listing: real, longTerm: real, confidence: real, recommendation: string)

  /** A prediction snapshot: the event it documents and whether it was made before listing. */
  datatype Snapshot = Snapshot(stage: string, forward: bool, score: Score)

  /** An entry of data_flags; texts that no writer here looks for are Other. */
  datatype Flag =
    | ClassifiedMarker | Reparsed | PriceV2 | PriceV3 | Inconclusive | UnknownCover | NonIpo | Rechecked
    | NonIpoType(reason: string) | DirectListing | Unparsed | CoverBeyondHead | PriceConflict(official: Value, stored: Value)
    | Other(text: string)

  datatype Ipo = Ipo(fields: Row, raw: map<string, string>, history: seq<Snapshot>, flags: seq<Flag>) {
    function Field(f: Column): Value {
      Get(fields, f)
    }

    function Status(): string {
      AsText(Field(Column.Status))
    }

    function Name(): string {
      AsText(Field(Company))
    }
  }

  // ------------------------------------------------------------- statuses

  /** STATUS_RANK.get(status, 0) */
  function Rank(status: string): nat {
    if status == "Filed" then 10
    else if status == "Upcoming" then 20
    else if status == "Open" then 30
    else if status == "Closed" then 40
    else if status == "Priced" then 50
    else if status == "Listed" then 60
    else if status == "Withdrawn" then 70
    else if status == "Not IPO" then 80
    else 0
  }

  predicate Terminal(status: string) {
    status == "Listed" || status == "Withdrawn" || status == "Not IPO"
  }

  /** identity.status_can_transition */
  predicate CanTransition(current: string, next: string) {
    next != "" && (current == "" || current == next || Rank(next) >= Rank(current))
  }

  predicate Forward(status: string) {
    var s := Lower(status);
    s != "listed" && s != "withdrawn" && s != "not ipo"
  }

  ghost predicate Known(status: string) {
    Rank(status) > 0
  }

  // ------------------------------------------------------------- upsert_ipo

  /** UPSERT_FIELDS, in the order they are written. */
  function UpsertFields(): seq<Column> {
    ListingFields() + OfferFields() + AccountFields() + DemandFields() + MarketFields()
  }

  function ListingFields(): seq<Column> {
    [Company, Symbol, Isin, Country, Exchange, Board, Sector, Status, FilingDate, OpenDate, CloseDate, ListingDate]
  }

  function OfferFields(): seq<Column> {
    [Currency, PriceLow, PriceHigh, FinalPrice, IssueSizeM, SharesOfferedM, PostIssueSharesM, LotSize]
  }

  function AccountFields(): seq<Column> {
    [RevenueM, RevenuePrevM, Revenue2yAgoM, EbitdaM, NetIncomeM, CfoM, DebtM, CashM, FreshIssuePct, OfsPct, PromoterRetentionPct]
  }

  function DemandFields(): seq<Column> {
    [QibSub, NiiSub, RetailSub, TotalSub, GmpPct, UnderwriterQuality, AnchorQuality]
  }

  function MarketFields(): seq<Column> {
    [MarketRegime, SectorRegime, DualClass, LockupDays, MarketOverhangPct, PeerMedianPe, PeerMedianPs, PeerMedianEvEbitda,
     FilingUrl, Registrar, AllotmentUrl]
  }

  /** What the pipeline calls into: label cleaning and scoring. */
  datatype Scorer = Scorer(clean: string -> string, score: Ipo -> Score)

  function Or(v: Value, d: string): Value {
    if Truthy(v) then v else Str(d)
  }

  /** A newly created row with the column defaults. */
  function NewIpo(row: Row): Ipo {
    Ipo(
      Blank() + Preset()
        + map[Company := Or(Get(row, Company), "Unknown"), Country := Or(Get(row, Country), "Unknown")],
      map[], [], [])
  }

  /** Text columns that start out empty. */
  predicate StartsEmpty(f: Column) {
    || f.Symbol? || f.Isin? || f.Exchange? || f.FilingDate? || f.OpenDate? || f.CloseDate? || f.ListingDate?
    || f.FilingUrl? || f.Registrar? || f.AllotmentUrl?
  }

  function Blank(): (r: Row)
    ensures forall f :: f in r <==> StartsEmpty(f)
    ensures forall f :: f in r ==> r[f] == Str("")
  {
    map f: Column | StartsEmpty(f) :: Str("")
  }

  predicate StartsPreset(f: Column) {
    f.Status? || f.Board? || f.Sector? || f.Currency?
  }

  function PresetText(f: Column): string
    requires StartsPreset(f)
  {
    match f
    case Status => "Filed"
    case Board => "Mainboard"
    case Sector => "Unknown"
    case Currency => "USD"
  }

  function Preset(): (r: Row)
    ensures forall f :: f in r <==> StartsPreset(f)
    ensures forall f :: f in r ==> r[f] == Str(PresetText(f))
  {
    map f: Column | StartsPreset(f) :: Str(PresetText(f))
  }

  /** row.get("symbol", "") == "" */
  predicate NoSymbol(row: Row) {
    Symbol !in row || row[Symbol] == Str("")
  }

  /** The row's value of f is written to the stored row. */
  predicate Takes(x: Ipo, row: Row, f: Column, created: bool) {
    && !Missing(Get(row, f))
    && (f == Status ==> CanTransition(x.Status(), AsText(row[f])))
    && (f == Company ==> created || !Truthy(x.Field(Symbol)) || !NoSymbol(row))
  }

  /** Only column f may differ. */
  ghost predicate OnlyMoves(x: Ipo, y: Ipo, f: Column) {
    && y.raw == x.raw && y.history == x.history && y.flags == x.flags
    && forall g | g != f :: y.Field(g) == x.Field(g)
  }

  function Write(x: Ipo, f: Column, v: Value): (y: Ipo)
    ensures y.Field(f) == v && OnlyMoves(x, y, f)
  {
    if x.Field(f) == v then x else x.(fields := x.fields[f := v])
  }

  /** A write to another column. */
  ghost predicate KeepsStatus(x: Ipo, y: Ipo) {
    y.history == x.history && y.flags == x.flags && y.Status() == x.Status()
  }

  function Set(x: Ipo, f: Column, v: Value): (y: Ipo)
    requires f != Status
    ensures KeepsStatus(x, y)
  {
    Write(x, f, v)
  }

  function FillBlank(x: Ipo, f: Column, v: Value): (y: Ipo)
    requires f != Status
    ensures KeepsStatus(x, y)
  {
    if Truthy(v) && !Truthy(x.Field(f)) then Write(x, f, v) else x
  }

  function SetFields(x: Ipo, row: Row, fs: seq<Column>, created: bool): Ipo
    decreases fs
  {
    if fs == [] then x
    else SetFields(if Takes(x, row, fs[0], created) then Write(x, fs[0], row[fs[0]]) else x, row, fs[1..], created)
  }

  function Changes(x: Ipo, row: Row, fs: seq<Column>, created: bool): set<Column>
    decreases fs
  {
    if fs == [] then {}
    else if Takes(x, row, fs[0], created) then
      (if x.Field(fs[0]) != row[fs[0]] then {fs[0]} else {})
        + Changes(Write(x, fs[0], row[fs[0]]), row, fs[1..], created)
    else Changes(x, row, fs[1..], created)
  }

  predicate NumbersMoved(last: Score, score: Score) {
    || Abs(last.overall - score.overall) >= 0.1 || Abs(last.listing - score.listing) >= 0.1
    || Abs(last.longTerm - score.longTerm) >= 0.1 || Abs(last.confidence - score.confidence) >= 0.1
  }

  predicate LabelChanged(last: Score, score: Score, sc: Scorer) {
    sc.clean(last.recommendation) != sc.clean(score.recommendation)
  }

  predicate ScoreMoved(last: Option<Snapshot>, score: Score, sc: Scorer) {
    last.None? || LabelChanged(last.value.score, score, sc) || NumbersMoved(last.value.score, score)
  }

  function Last(history: seq<Snapshot>): Option<Snapshot> {
    if history == [] then None else Some(history[|history| - 1])
  }

  predicate Subscribed(changed: set<Column>) {
    QibSub in changed || NiiSub in changed || RetailSub in changed || TotalSub in changed
  }

  /** pipeline._event_stage: `was` is the row before the write, `x` after it. */
  function EventStage(created: bool, changed: set<Column>, was: Ipo, x: Ipo, score: Score, sc: Scorer): Option<string> {
    var last := Last(x.history);
    if created then Some("ipo_discovered")
    else if Status in changed && Terminal(x.Status()) then Some("status_changed")
    else if FinalPrice in changed && !Truthy(was.Field(FinalPrice)) && Lower(x.Status()) != "listed"
      then Some("final_pre_listing")
    else if FilingUrl in changed
      then Some(if !Truthy(was.Field(FilingUrl)) then "filing_ingested" else "filing_amendment")
    else if PriceLow in changed || PriceHigh in changed then Some("price_band_set")
    else if Status in changed then Some("status_changed")
    else if AnchorQuality in changed
      then if ScoreMoved(last, score, sc) then Some("anchor_data_added") else None
    else if Subscribed(changed)
      then if ScoreMoved(last, score, sc) then Some("subscription_update") else None
    else if last.Some? && LabelChanged(last.value.score, score, sc) then Some("recommendation_changed")
    else if last.None? || NumbersMoved(last.value.score, score) then Some("material_score_change")
    else None
  }

  function Record(x: Ipo, stage: Option<string>, score: Score): Ipo {
    if stage.None? then x
    else x.(history := x.history + [Snapshot(stage.value, Forward(x.Status()), score)])
  }

  /** What an input carries besides its columns: the source record, and data flags if it has any list. */
  datatype Extras = Extras(raw: map<string, string>, flags: Option<seq<Flag>>)

  function WithExtras(x: Ipo, extras: Extras): Ipo {
    var y := if extras.raw.Keys != {} then x.(raw := extras.raw) else x;
    if extras.flags.Some? then y.(flags := extras.flags.value) else y
  }

  /** upsert_ipo on the row `x` the input resolved to. */
  function Upserted(x: Ipo, row: Row, extras: Extras, created: bool, sc: Scorer): Ipo {
    var z := WithExtras(SetFields(x, row, UpsertFields(), created), extras);
    Record(z, EventStage(created, Changes(x, row, UpsertFields(), created), x, z, sc.score(z), sc), sc.score(z))
  }

  // ------------------------------------------------------------- what the write loop does

  /** The whole write loop at once: every field it takes has the row's value and no other field moved. */
  lemma {:induction false} Written(x: Ipo, row: Row, fs: seq<Column>, created: bool)
    ensures var y := SetFields(x, row, fs, created);
      && y.raw == x.raw && y.history == x.history && y.flags == x.flags
      && forall f :: y.Field(f) == if f in fs && Takes(x, row, f, created) then row[f] else x.Field(f)
    ensures forall f ::
      f in Changes(x, row, fs, created) <==> f in fs && Takes(x, row, f, created) && row[f] != x.Field(f)
    decreases fs
  {
    if fs != [] {
      var g := fs[0];
      var x1 := if Takes(x, row, g, created) then Write(x, g, row[g]) else x;
      if Takes(x, row, g, created) {
        TakesStays(x, row, g, created);
      }
      Written(x1, row, fs[1..], created);
    }
  }

  lemma TakesStays(x: Ipo, row: Row, g: Column, created: bool)
    requires Takes(x, row, g, created)
    ensures forall f :: Takes(Write(x, g, row[g]), row, f, created) <==> Takes(x, row, f, created)
  {
  }

  /** A snapshot is recorded exactly on discovery, on a structural change (status, filing, price
      band, first final price before listing) or when the score moved since the last snapshot. */
  lemma SnapshotIff(created: bool, changed: set<Column>, was: Ipo, x: Ipo, score: Score, sc: Scorer)
    ensures EventStage(created, changed, was, x, score, sc).Some? <==>
      || created || Status in changed || FilingUrl in changed || PriceLow in changed || PriceHigh in changed
      || (FinalPrice in changed && !Truthy(was.Field(FinalPrice)) && Lower(x.Status()) != "listed")
      || ScoreMoved(Last(x.history), score, sc)
  {
  }

  // ------------------------------------------------------------- one upsert

  /** Forward snapshots all come before the others. */
  ghost predicate ForwardFirst(h: seq<Snapshot>) {
    forall i, j | 0 <= i < j < |h| && h[j].forward :: h[i].forward
  }

  /** The status is one of the eight, and only a terminal row has a snapshot made after listing. */
  ghost predicate Sound(x: Ipo) {
    && Known(x.Status())
    && ForwardFirst(x.history)
    && (!Terminal(x.Status()) ==> forall s | s in x.history :: s.forward)
  }

  lemma TransitionUp(current: string, next: string)
    requires Known(current) && CanTransition(current, next)
    ensures Known(next) && Rank(next) >= Rank(current) && (Terminal(current) ==> Terminal(next))
  {
  }

  lemma LowerStatuses()
    ensures Lower("Listed") == "listed" && Lower("Withdrawn") == "withdrawn" && Lower("Not IPO") == "not ipo"
    ensures Lower("Closed")[0] == 'c' && Lower("Priced")[0] == 'p'
  {
    hide Lower;
  }

  lemma ForwardIff(status: string)
    requires Known(status)
    ensures Forward(status) <==> !Terminal(status)
  {
    hide Lower;
    LowerStatuses();
    assert |Lower(status)| == |status|;
    assert "listed"[0] == 'l';
  }

  lemma UpsertStatus(x: Ipo, row: Row, extras: Extras, created: bool, sc: Scorer)
    requires Known(x.Status())
    ensures var y := Upserted(x, row, extras, created, sc);
      Known(y.Status()) && Rank(y.Status()) >= Rank(x.Status()) && (Terminal(x.Status()) ==> Terminal(y.Status()))
  {
    hide EventStage, UpsertFields, SetFields, Changes, Rank, Known, Terminal, Takes, Get, WithExtras, Record;
    UpsertedStatus(x, row, extras, created, sc);
    if Takes(x, row, Status, created) {
      TakenStatus(x, row, created);
      TransitionUp(x.Status(), AsText(Get(row, Status)));
    }
  }

  lemma TakenStatus(x: Ipo, row: Row, created: bool)
    requires Takes(x, row, Status, created)
    ensures CanTransition(x.Status(), AsText(Get(row, Status)))
  {
    hide CanTransition;
  }

  lemma UpsertedStatus(x: Ipo, row: Row, extras: Extras, created: bool, sc: Scorer)
    ensures var s := Upserted(x, row, extras, created, sc).Status();
      s == x.Status() || (Takes(x, row, Status, created) && s == AsText(Get(row, Status)))
  {
    hide EventStage, UpsertFields, SetFields, Changes, CanTransition, AsText;
    Written(x, row, UpsertFields(), created);
  }

  /** The stored history only grows, by a snapshot that is forward exactly while the row is not terminal. */
  lemma UpsertHistory(x: Ipo, row: Row, extras: Extras, created: bool, sc: Scorer)
    requires Known(x.Status())
    ensures var y := Upserted(x, row, extras, created, sc);
      && |x.history| <= |y.history| <= |x.history| + 1 && y.history[..|x.history|] == x.history
      && forall s | s in y.history[|x.history|..] :: s.forward <==> !Terminal(y.Status())
  {
    hide EventStage, UpsertFields, SetFields, Changes, Rank, Forward;
    UpsertStatus(x, row, extras, created, sc);
    Written(x, row, UpsertFields(), created);
    ForwardIff(Upserted(x, row, extras, created, sc).Status());
  }

  /** The flags are the input's list when it has one, and otherwise stay. */
  lemma UpsertFlags(x: Ipo, row: Row, extras: Extras, created: bool, sc: Scorer)
    ensures Upserted(x, row, extras, created, sc).flags == if extras.flags.Some? then extras.flags.value else x.flags
  {
    hide EventStage, UpsertFields, SetFields, Changes, Forward, Takes;
    Written(x, row, UpsertFields(), created);
  }

  lemma UpsertSound(x: Ipo, row: Row, extras: Extras, created: bool, sc: Scorer)
    requires Sound(x)
    ensures Sound(Upserted(x, row, extras, created, sc))
  {
    hide Upserted, Rank;
    var y := Upserted(x, row, extras, created, sc);
    UpsertStatus(x, row, extras, created, sc);
    UpsertHistory(x, row, extras, created, sc);
    var n := |x.history|;
    forall i, j | 0 <= i < j < |y.history| && y.history[j].forward ensures y.history[i].forward {
      assert i < n && y.history[i] == x.history[i];
      if j < n {
        assert y.history[j] == x.history[j];
      } else {
        assert y.history[j] in y.history[n..];
        assert x.history[i] in x.history;
      }
    }
    if !Terminal(y.Status()) {
      forall s | s in y.history ensures s.forward {
        var i :| 0 <= i < |y.history| && y.history[i] == s;
        if i < n {
          assert x.history[i] == s;
        } else {
          assert y.history[n..][i - n] == s;
        }
      }
    }
  }

  lemma {:induction false} NothingToWrite(x: Ipo, row: Row, fs: seq<Column>, created: bool)
    requires forall f | f in fs && Takes(x, row, f, created) :: row[f] == x.Field(f)
    ensures SetFields(x, row, fs, created) == x && Changes(x, row, fs, created) == {}
    decreases fs
  {
    hide Takes;
    if fs != [] {
      NothingToWrite(x, row, fs[1..], created);
    }
  }

  /** The score depends on the stored row, not on its snapshots. */
  ghost predicate ScoresRow(sc: Scorer) {
    forall x: Ipo, h: seq<Snapshot> :: sc.score(x.(history := h)) == sc.score(x)
  }

  /** Writing the same input again changes nothing and records nothing. */
  lemma UpsertIdempotent(x: Ipo, row: Row, extras: Extras, created: bool, sc: Scorer)
    requires ScoresRow(sc)
    ensures var y := Upserted(x, row, extras, created, sc);
      Upserted(y, row, extras, false, sc) == y
  {
    hide UpsertFields, SetFields, Changes, Forward, EventStage, WithExtras, ScoreMoved, Takes;
    var fs := UpsertFields();
    var z := WithExtras(SetFields(x, row, fs, created), extras);
    var y := Upserted(x, row, extras, created, sc);
    var score := sc.score(z);
    assert y == z.(history := y.history) && sc.score(y) == score;
    NothingTaken(x, row, extras, created, y);
    SnapshotIff(created, Changes(x, row, fs, created), x, z, score, sc);
    SnapshotIff(false, {}, y, y, score, sc);
    SameScore(score, sc);
    RecordedLast(z, EventStage(created, Changes(x, row, fs, created), x, z, score, sc), score, sc);
  }

  /** After the write the input has nothing left to take. */
  lemma NothingTaken(x: Ipo, row: Row, extras: Extras, created: bool, y: Ipo)
    requires y == WithExtras(SetFields(x, row, UpsertFields(), created), extras).(history := y.history)
    ensures WithExtras(SetFields(y, row, UpsertFields(), false), extras) == y
    ensures Changes(y, row, UpsertFields(), false) == {}
  {
    hide UpsertFields, SetFields, Changes, Takes, WithExtras, Get;
    var fs := UpsertFields();
    Written(x, row, fs, created);
    ExtrasTwice(SetFields(x, row, fs, created), extras, y.history);
    forall f | f in fs && Takes(y, row, f, false) ensures f in row && row[f] == y.Field(f) {
      TakenBefore(x, y, row, fs, f, created);
    }
    NothingToWrite(y, row, fs, false);
  }

  lemma ExtrasTwice(x: Ipo, extras: Extras, h: seq<Snapshot>)
    ensures var y := WithExtras(x, extras).(history := h);
      WithExtras(y, extras) == y && y.fields == x.fields
  {
  }

  lemma TakenBefore(x: Ipo, y: Ipo, row: Row, fs: seq<Column>, f: Column, created: bool)
    requires f in fs && Takes(y, row, f, false)
    requires forall g :: y.Field(g) == if g in fs && Takes(x, row, g, created) then row[g] else x.Field(g)
    ensures f in row && row[f] == y.Field(f)
  {
    hide CanTransition;
    assert y.Field(f) == if Takes(x, row, f, created) then row[f] else x.Field(f);
    assert y.Field(Symbol) == if Symbol in fs && Takes(x, row, Symbol, created) then row[Symbol] else x.Field(Symbol);
  }

  lemma RecordedLast(z: Ipo, stage: Option<string>, score: Score, sc: Scorer)
    requires !LabelChanged(score, score, sc) && !NumbersMoved(score, score)
    ensures stage.Some? || !ScoreMoved(Last(z.history), score, sc) ==> !ScoreMoved(Last(Record(z, stage, score).history), score, sc)
  {
    hide LabelChanged, NumbersMoved, Forward;
  }

  lemma SameScore(score: Score, sc: Scorer)
    ensures !LabelChanged(score, score, sc) && !NumbersMoved(score, score)
  {
  }
}
