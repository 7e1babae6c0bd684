/**
 What one upsert stores and records, column by column and snapshot by snapshot.
 */
module UpsertLaw {
  import opened Options
  import opened Text
  import opened Reals
  import opened Lifecycle

  /** The row without the snapshot this upsert may add. */
  ghost predicate Stores(x: Ipo, row: Row, extras: Extras, created: bool, z: Ipo) {
    z == WithExtras(SetFields(x, row, UpsertFields(), created), extras)
  }

  lemma UpsertedOf(x: Ipo, row: Row, extras: Extras, created: bool, sc: Scorer, z: Ipo)
    requires Stores(x, row, extras, created, z)
    ensures var y := Upserted(x, row, extras, created, sc);
      var stage := EventStage(created, Changes(x, row, UpsertFields(), created), x, z, sc.score(z), sc);
      && y == Record(z, stage, sc.score(z))
      && y.fields == z.fields && y.raw == z.raw && y.flags == z.flags && z.history == x.history
  {
    hide EventStage, UpsertFields, SetFields, Changes;
    Written(x, row, UpsertFields(), created);
  }

  /** Every snapshot an upsert adds carries the score of the row as stored, and there is at most one. */
  lemma ScoredAsStored(x: Ipo, row: Row, extras: Extras, created: bool, sc: Scorer)
    ensures var y := Upserted(x, row, extras, created, sc);
      y.history == x.history
      || (|y.history| == |x.history| + 1 && y.history[..|x.history|] == x.history
          && y.history[|x.history|].score == sc.score(y.(history := x.history)))
  {
    hide EventStage, UpsertFields, SetFields, Changes, WithExtras;
    var z := WithExtras(SetFields(x, row, UpsertFields(), created), extras);
    UpsertedOf(x, row, extras, created, sc, z);
    hide Upserted;
    var y := Upserted(x, row, extras, created, sc);
    assert y.(history := x.history) == z;
  }

  /** The source record replaces the old one unless it is empty; a list of flags replaces the old one
      even if it is empty. */
  lemma ExtrasStored(x: Ipo, row: Row, extras: Extras, created: bool, sc: Scorer)
    ensures var y := Upserted(x, row, extras, created, sc);
      && y.raw == (if extras.raw == map[] then x.raw else extras.raw)
      && y.flags == match extras.flags { case Some(flags) => flags case None => x.flags }
  {
    hide EventStage, UpsertFields, SetFields, Changes;
    Written(x, row, UpsertFields(), created);
    assert extras.raw == map[] <==> extras.raw.Keys == {};
  }

  lemma AllColumns(f: Column)
    ensures f in UpsertFields()
  {
    hide ListingFields, OfferFields, AccountFields, DemandFields, MarketFields;
    match f
    case Company | Symbol | Isin | Country | Exchange | Board | Sector | Status | FilingDate | OpenDate |
       CloseDate | ListingDate => ListingColumn(f);
    case Currency | PriceLow | PriceHigh | FinalPrice | IssueSizeM | SharesOfferedM | PostIssueSharesM |
       LotSize => OfferColumn(f);
    case RevenueM | RevenuePrevM | Revenue2yAgoM | EbitdaM | NetIncomeM | CfoM | DebtM | CashM | FreshIssuePct
       | OfsPct | PromoterRetentionPct => AccountColumn(f);
    case QibSub | NiiSub | RetailSub | TotalSub | GmpPct | UnderwriterQuality | AnchorQuality =>
       DemandColumn(f);
    case MarketRegime | SectorRegime | DualClass | LockupDays | MarketOverhangPct | PeerMedianPe |
       PeerMedianPs | PeerMedianEvEbitda | FilingUrl | Registrar | AllotmentUrl => MarketColumn(f);
  }

  lemma ListingColumn(f: Column)
    requires f.Company? || f.Symbol? || f.Isin? || f.Country? || f.Exchange? || f.Board? || f.Sector? ||
      f.Status? || f.FilingDate? || f.OpenDate? || f.CloseDate? || f.ListingDate?
    ensures f in ListingFields()
  {
  }

  lemma OfferColumn(f: Column)
    requires f.Currency? || f.PriceLow? || f.PriceHigh? || f.FinalPrice? || f.IssueSizeM? || f.SharesOfferedM?
      || f.PostIssueSharesM? || f.LotSize?
    ensures f in OfferFields()
  {
  }

  lemma AccountColumn(f: Column)
    requires f.RevenueM? || f.RevenuePrevM? || f.Revenue2yAgoM? || f.EbitdaM? || f.NetIncomeM? || f.CfoM? ||
      f.DebtM? || f.CashM? || f.FreshIssuePct? || f.OfsPct? || f.PromoterRetentionPct?
    ensures f in AccountFields()
  {
  }

  lemma DemandColumn(f: Column)
    requires f.QibSub? || f.NiiSub? || f.RetailSub? || f.TotalSub? || f.GmpPct? || f.UnderwriterQuality? ||
      f.AnchorQuality?
    ensures f in DemandFields()
  {
  }

  lemma MarketColumn(f: Column)
    requires f.MarketRegime? || f.SectorRegime? || f.DualClass? || f.LockupDays? || f.MarketOverhangPct? ||
      f.PeerMedianPe? || f.PeerMedianPs? || f.PeerMedianEvEbitda? || f.FilingUrl? || f.Registrar? ||
      f.AllotmentUrl?
    ensures f in MarketFields()
  {
  }

  /** Apart from name and status, a column holds the row's value when the row has one that is neither
      null nor empty, and its old value otherwise: nothing known is ever blanked. */
  lemma ColumnsStored(x: Ipo, row: Row, extras: Extras, created: bool, sc: Scorer, f: Column)
    requires f != Status && f != Company
    ensures Upserted(x, row, extras, created, sc).Field(f)
      == if f in row && row[f] != Null && row[f] != Str("") then row[f] else x.Field(f)
  {
    hide EventStage, UpsertFields, SetFields, Changes;
    Written(x, row, UpsertFields(), created);
    AllColumns(f);
  }

  /** The name moves only on a new row, a row without a symbol, or for an input that brings one. */
  lemma NameStored(x: Ipo, row: Row, extras: Extras, created: bool, sc: Scorer)
    ensures var named := Company in row && row[Company] != Null && row[Company] != Str("");
      var anonymous := Symbol !in row || row[Symbol] == Str("");
      Upserted(x, row, extras, created, sc).Field(Company)
        == if named && (created || !Truthy(x.Field(Symbol)) || !anonymous) then row[Company] else x.Field(Company)
  {
    hide EventStage, UpsertFields, SetFields, Changes;
    Written(x, row, UpsertFields(), created);
    AllColumns(Company);
  }

  // ------------------------------------------------------------- what is recorded

  /** A score figure moved by at least a tenth, up or down. */
  ghost predicate ByATenth(a: real, b: real) {
    a >= b + 0.1 || b >= a + 0.1
  }

  /** The score differs from the last recorded one in its recommendation or by a tenth in a figure;
      a row without a snapshot has no last score to agree with. */
  ghost predicate Differs(x: Ipo, score: Score, sc: Scorer) {
    x.history == [] || (
      var last := x.history[|x.history| - 1].score;
      || sc.clean(last.recommendation) != sc.clean(score.recommendation)
      || ByATenth(last.overall, score.overall) || ByATenth(last.listing, score.listing)
      || ByATenth(last.longTerm, score.longTerm) || ByATenth(last.confidence, score.confidence))
  }

  /** The stored value of f is another than before. */
  ghost predicate Moved(x: Ipo, y: Ipo, f: Column) {
    y.Field(f) != x.Field(f)
  }

  lemma MovedIff(x: Ipo, row: Row, extras: Extras, created: bool, z: Ipo, f: Column)
    requires Stores(x, row, extras, created, z)
    ensures f in Changes(x, row, UpsertFields(), created) <==> Moved(x, z, f)
  {
    hide UpsertFields, SetFields, Changes;
    Written(x, row, UpsertFields(), created);
  }

  /**
   An upsert of a stored row records a snapshot exactly when it moved the status, the filing, or an
   end of the price band, gave a row its first final price before its listing, or left a row whose
   score differs from the last one recorded.
   */
  lemma RecordedIff(x: Ipo, row: Row, extras: Extras, sc: Scorer)
    ensures var y := Upserted(x, row, extras, false, sc);
      |y.history| == |x.history| + 1
      <==> Moved(x, y, Status) || Moved(x, y, FilingUrl) || Moved(x, y, PriceLow) || Moved(x, y, PriceHigh)
           || (Moved(x, y, FinalPrice) && !Truthy(x.Field(FinalPrice)) && Lower(y.Status()) != "listed")
           || Differs(x, sc.score(y.(history := x.history)), sc)
  {
    var z := WithExtras(SetFields(x, row, UpsertFields(), false), extras);
    var changed := Changes(x, row, UpsertFields(), false);
    hide EventStage, UpsertFields, SetFields, Changes, WithExtras, Truthy, Lower, AsText;
    UpsertedOf(x, row, extras, false, sc, z);
    var y := Upserted(x, row, extras, false, sc);
    hide Upserted;
    assert y.(history := x.history) == z;
    forall f ensures f in changed <==> Moved(x, y, f) {
      MovedIff(x, row, extras, false, z, f);
    }
    DiffersIff(z, sc.score(z), sc);
    SnapshotIff(false, changed, x, z, sc.score(z), sc);
  }

  lemma DiffersIff(x: Ipo, score: Score, sc: Scorer)
    ensures Differs(x, score, sc) <==> ScoreMoved(Last(x.history), score, sc)
  {
  }

  /** y is x with one more snapshot, of the stage. */
  ghost predicate Adds(x: Ipo, y: Ipo, stage: string) {
    |y.history| == |x.history| + 1 && y.history[..|x.history|] == x.history && y.history[|x.history|].stage == stage
  }

  /** The upsert ends the row: it moved the status to Listed, Withdrawn or Not IPO. */
  ghost predicate Ends(x: Ipo, y: Ipo) {
    Moved(x, y, Status) && (y.Status() == "Listed" || y.Status() == "Withdrawn" || y.Status() == "Not IPO")
  }

  /** It gave a row that is not Listed its first final price. */
  ghost predicate Prices(x: Ipo, y: Ipo) {
    Moved(x, y, FinalPrice) && !Truthy(x.Field(FinalPrice)) && Lower(y.Status()) != "listed"
  }

  ghost predicate Bands(x: Ipo, y: Ipo) {
    Moved(x, y, PriceLow) || Moved(x, y, PriceHigh)
  }

  ghost predicate Structural(x: Ipo, y: Ipo) {
    Moved(x, y, Status) || Prices(x, y) || Moved(x, y, FilingUrl) || Bands(x, y)
  }

  lemma StageOf(x: Ipo, row: Row, extras: Extras, created: bool, sc: Scorer)
    ensures var y := Upserted(x, row, extras, created, sc);
      var z := y.(history := x.history);
      var stage := EventStage(created, Changes(x, row, UpsertFields(), created), x, z, sc.score(z), sc);
      && (stage.None? ==> y.history == x.history) && (stage.Some? ==> Adds(x, y, stage.value))
      && (forall f :: f in Changes(x, row, UpsertFields(), created) <==> Moved(x, y, f))
  {
    var z := WithExtras(SetFields(x, row, UpsertFields(), created), extras);
    hide EventStage, UpsertFields, SetFields, Changes, WithExtras;
    UpsertedOf(x, row, extras, created, sc, z);
    var y := Upserted(x, row, extras, created, sc);
    hide Upserted;
    assert y.(history := x.history) == z;
    forall f ensures f in Changes(x, row, UpsertFields(), created) <==> Moved(x, y, f) {
      MovedIff(x, row, extras, created, z, f);
    }
  }

  /** The stages of structural events, the first that applies: the end of the row, its first price, a
      filing, a price band, any other status. */
  lemma StructuralStage(x: Ipo, row: Row, extras: Extras, sc: Scorer)
    ensures var y := Upserted(x, row, extras, false, sc);
      Structural(x, y) ==>
        Adds(x, y, if Ends(x, y) then "status_changed"
                   else if Prices(x, y) then "final_pre_listing"
                   else if Moved(x, y, FilingUrl)
                     then (if Truthy(x.Field(FilingUrl)) then "filing_amendment" else "filing_ingested")
                   else if Bands(x, y) then "price_band_set"
                   else "status_changed")
  {
    StageOf(x, row, extras, false, sc);
    hide Upserted, UpsertFields, Changes, Truthy, Lower, AsText, ScoreMoved, LabelChanged, NumbersMoved, Adds;
  }

  /** A created row is recorded as discovered, whatever it holds. */
  lemma DiscoveredStage(x: Ipo, row: Row, extras: Extras, sc: Scorer)
    ensures Adds(x, Upserted(x, row, extras, true, sc), "ipo_discovered")
  {
    StageOf(x, row, extras, true, sc);
    hide Upserted, UpsertFields, Changes, Truthy, Lower, AsText, ScoreMoved, LabelChanged, NumbersMoved;
  }

  ghost predicate SubscriptionMoved(x: Ipo, y: Ipo) {
    Moved(x, y, QibSub) || Moved(x, y, NiiSub) || Moved(x, y, RetailSub) || Moved(x, y, TotalSub)
  }

  /** The recommendation is another than the last one recorded. */
  ghost predicate Relabelled(x: Ipo, score: Score, sc: Scorer) {
    x.history != [] && sc.clean(x.history[|x.history| - 1].score.recommendation) != sc.clean(score.recommendation)
  }

  /** The stages of a moved score when nothing structural moved: the anchor data or the subscription
      figures that moved with it, else the changed recommendation, else the figures. */
  lemma ScoreStage(x: Ipo, row: Row, extras: Extras, sc: Scorer)
    ensures var y := Upserted(x, row, extras, false, sc);
      var score := sc.score(y.(history := x.history));
      !Structural(x, y) && Differs(x, score, sc) ==>
        Adds(x, y, if Moved(x, y, AnchorQuality) then "anchor_data_added"
                   else if SubscriptionMoved(x, y) then "subscription_update"
                   else if Relabelled(x, score, sc) then "recommendation_changed"
                   else "material_score_change")
  {
    StageOf(x, row, extras, false, sc);
    var y := Upserted(x, row, extras, false, sc);
    var z := y.(history := x.history);
    DiffersIff(z, sc.score(z), sc);
    hide Upserted, UpsertFields, Changes, Truthy, Lower, AsText, Adds;
  }

  // ------------------------------------------------------------- new rows

  /** What a column of a new row holds when the input has nothing for it. */
  function Default(f: Column): Value {
    match f
    case Company => Str("Unknown")
    case Country => Str("Unknown")
    case Sector => Str("Unknown")
    case Status => Str("Filed")
    case Board => Str("Mainboard")
    case Currency => Str("USD")
    case Symbol => Str("")
    case Isin => Str("")
    case Exchange => Str("")
    case FilingDate => Str("")
    case OpenDate => Str("")
    case CloseDate => Str("")
    case ListingDate => Str("")
    case FilingUrl => Str("")
    case Registrar => Str("")
    case AllotmentUrl => Str("")
    case _ => Null
  }

  lemma NewField(row: Row, f: Column)
    requires f != Company && f != Country
    ensures NewIpo(row).Field(f) == Default(f)
  {
    if f == Status || f == Board || f == Sector || f == Currency {
      NewPreset(row, f);
    } else {
      hide NewIpo, Default, StartsEmpty;
      NewOther(row, f);
      OtherDefault(f);
    }
  }

  lemma NewOther(row: Row, f: Column)
    requires f != Company && f != Country && f != Status && f != Board && f != Sector && f != Currency
    ensures NewIpo(row).Field(f) == if StartsEmpty(f) then Str("") else Null
  {
    hide Blank, Preset, StartsEmpty, Or;
  }

  lemma OtherDefault(f: Column)
    requires f != Company && f != Country && f != Status && f != Board && f != Sector && f != Currency
    ensures Default(f) == if StartsEmpty(f) then Str("") else Null
  {
  }

  lemma NewPreset(row: Row, f: Column)
    requires f == Status || f == Board || f == Sector || f == Currency
    ensures NewIpo(row).Field(f) == Default(f)
  {
    hide Blank, Preset, Or, StartsEmpty, Default;
    PresetDefault(f);
  }

  lemma PresetDefault(f: Column)
    requires f == Status || f == Board || f == Sector || f == Currency
    ensures !StartsEmpty(f) && StartsPreset(f) && Default(f) == Str(PresetText(f))
  {
  }

  lemma NewNamed(row: Row, f: Column)
    requires f == Company || f == Country
    ensures NewIpo(row).Field(f) == if Truthy(Get(row, f)) then Get(row, f) else Str("Unknown")
  {
  }

  ghost predicate Given(row: Row, f: Column) {
    f in row && row[f] != Null && row[f] != Str("")
  }

  /** A new row holds what the input gives, column by column, and the default elsewhere. */
  lemma CreatedRow(row: Row, extras: Extras, sc: Scorer, f: Column)
    requires f != Status
    ensures Upserted(NewIpo(row), row, extras, true, sc).Field(f) == if Given(row, f) then row[f] else Default(f)
  {
    hide Upserted, NewIpo, Default;
    if f == Company {
      NewNamed(row, f);
      NameStored(NewIpo(row), row, extras, true, sc);
      UnknownName();
    } else {
      ColumnsStored(NewIpo(row), row, extras, true, sc, f);
      if f == Country {
        NewNamed(row, f);
        UnknownName();
      } else {
        NewField(row, f);
      }
    }
  }

  lemma UnknownName()
    ensures Default(Company) == Str("Unknown") && Default(Country) == Str("Unknown")
  {
  }
}
