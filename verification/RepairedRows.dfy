/**
 What the SEC scripts and the exchange's lists leave in the columns of a row, value by value.
 */
module RepairedRows {
  import opened Options
  import opened Lifecycle
  import opened Reals
  import opened Reconcile
  import opened UsRepair
  import opened Pipeline

  /** A stored price below 0.50 or above 500. */
  ghost predicate OffScale(v: Value) {
    v.Num? && (v.number < 0.5 || v.number > 500.0)
  }

  /** A United States row whose filing is on the SEC's site. */
  ghost predicate Filer(x: Ipo) {
    var url := AsText(x.Field(FilingUrl));
    x.Field(Country) == Str("United States") && |url| >= 20 && url[..20] == "https://www.sec.gov/"
  }

  lemma FilerIs(x: Ipo)
    ensures SecRow(x) <==> Filer(x)
  {
  }

  lemma SymbolWritten(x: Ipo, v: Value)
    ensures var y := Set(x, Symbol, v);
      y.Field(Symbol) == v && y.Field(FinalPrice) == x.Field(FinalPrice) && y.Status() == x.Status()
  {
    hide AsText;
  }

  lemma PriceWritten(x: Ipo, v: Value)
    ensures var y := Set(x, FinalPrice, v);
      y.Field(FinalPrice) == v && y.Field(Symbol) == x.Field(Symbol) && y.Status() == x.Status()
  {
    hide AsText;
  }

  /** An offering found on re-reading a row: it stays Listed, its symbol and price become those of the
      cover where the cover states them, and without one a price off the scale is removed. */
  lemma RereadStores(x: Ipo, symbol: Value, price: Value)
    requires RepairCandidate(x)
    ensures var y := AfterRepair(x, InitialOffer(symbol, price));
      && y.Status() == "Listed" && y.history == x.history
      && y.Field(Symbol) == (if Truthy(symbol) then symbol else x.Field(Symbol))
      && y.Field(FinalPrice) == if price != Null then price else if OffScale(x.Field(FinalPrice)) then Null else x.Field(FinalPrice)
  {
    hide Set, Get, AsText, Truthy, SecRow, Drop;
    SymbolWritten(x, symbol);
    var a := if Truthy(symbol) then Set(x, Symbol, symbol) else x;
    PriceWritten(a, price);
    PriceWritten(a, Null);
  }

  /** Which rows the repair reads: Listed filers marked by no earlier pass, and those with a price off
      the scale until the third one has read them. */
  lemma RepairReadsIff(x: Ipo)
    ensures RepairCandidate(x)
      <==> Filer(x) && x.Status() == "Listed"
           && ((OffScale(x.Field(FinalPrice)) && PriceV3 !in x.flags)
               || (PriceV2 !in x.flags && Inconclusive !in x.flags && UnknownCover !in x.flags))
  {
    FilerIs(x);
    hide SecRow, Filer, Get, AsText;
  }

  /** A row put back is Listed with the symbol and price of its cover, where it states them. */
  lemma RecheckStores(x: Ipo, symbol: Value, price: Value)
    requires RecheckCandidate(x)
    ensures var y := AfterRecheck(x, InitialOffer(symbol, price));
      && y.Status() == "Listed" && y.history == x.history && NonIpo !in y.flags && Rechecked in y.flags
      && y.Field(Symbol) == (if Truthy(symbol) then symbol else x.Field(Symbol))
      && y.Field(FinalPrice) == if price != Null then price else x.Field(FinalPrice)
  {
    hide Set, SetStatus, Get, AsText, Truthy, SecRow, Drop;
    var listed := SetStatus(x, "Listed");
    SymbolWritten(listed, symbol);
    var named := if Truthy(symbol) then Set(listed, Symbol, symbol) else listed;
    PriceWritten(named, price);
    assert listed.Field(Symbol) == x.Field(Symbol) && listed.Field(FinalPrice) == x.Field(FinalPrice);
  }

  /** Which rows get their price repaired: Listed filers whose price is missing, zero or negative. */
  lemma PriceReadsIff(x: Ipo)
    ensures PriceCandidate(x)
      <==> Filer(x) && x.Status() == "Listed"
           && match x.Field(FinalPrice) { case Null => true case Str(s) => s == "" case Num(v) => v <= 0.0 }
  {
    FilerIs(x);
    hide SecRow, Filer, Get, AsText;
  }

  // ------------------------------------------------------------- the exchange's lists

  /** The official final price is taken by a row without one; a stored price stays as it is, and one
      more than a hundredth off gets the official price recorded beside it and a flag with both. */
  lemma OfficialPrice(x: Ipo, it: PastItem, p: real)
    requires it.finalPrice == Num(p) && p != 0.0 && it.bandOk
    ensures var y, own := PastPriced(x, it), x.Field(FinalPrice);
      && y.Field(FinalPrice) == (if own == Null then Num(p) else own)
      && (own.Num? && (own.number > p + p / 100.0 || own.number < p - p / 100.0) ==>
            && y.raw == x.raw["nse_past_issue_price" := it.shown]
            && (forall f | f in y.flags && f.PriceConflict? :: f == PriceConflict(Num(p), own))
            && PriceConflict(Num(p), own) in y.flags)
      && (p > 0.0 && !(own.Num? && (own.number > p + p / 100.0 || own.number < p - p / 100.0)) ==>
            y.raw == x.raw && y.flags == x.flags)
  {
    hide Drop, Get;
  }

  /** Without an official price in the band, nothing of the price changes. */
  lemma NoOfficialPrice(x: Ipo, it: PastItem)
    requires !Truthy(it.finalPrice) || !it.bandOk
    ensures PastPriced(x, it) == x
  {
  }
}
