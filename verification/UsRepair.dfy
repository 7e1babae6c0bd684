/**
 What the SEC scripts do to one stored row (backfill_us_priced.py, repair_us_prices.py): the
 repair of Listed rows, the one recheck of rows it took off the list, and the price repair. What
 the re-read filing says is a parameter; the data flags that guard the scripts are kept.
 */
module UsRepair {
  import opened Lifecycle
  import opened Reconcile

  const SEC := "https://www.sec.gov/"
  const PRICE_MIN := 0.5
  const PRICE_MAX := 500.0

  /** What a re-read cover page says. */
  datatype Cover = NotReached | Undecided | FollowOnOffer | InitialOffer(symbol: Value, price: Value)

  /** What the price repair reads; `beyond` tells that the cover was not within the part fetched. */
  datatype Offering =
    | Direct(symbol: Value)
    | NoOffering(reason: string)
    | PricedAt(price: Value, low: Value, high: Value, symbol: Value)
    | NotFound(beyond: bool)

  function Drop(flags: seq<Flag>, gone: set<Flag>): (r: seq<Flag>)
    ensures forall f :: f in r <==> f in flags && f !in gone
    ensures |r| <= |flags|
  {
    if flags == [] then []
    else if flags[0] in gone then Drop(flags[1..], gone)
    else [flags[0]] + Drop(flags[1..], gone)
  }

  function AddFlag(flags: seq<Flag>, f: Flag): seq<Flag> {
    if f in flags then flags else flags + [f]
  }

  predicate SecRow(x: Ipo) {
    var url := AsText(x.Field(FilingUrl));
    x.Field(Country) == Str("United States") && |url| >= |SEC| && url[..|SEC|] == SEC
  }

  /** A par value or a table total stored as the price. */
  predicate Implausible(x: Ipo) {
    x.Field(FinalPrice).Num? && !(PRICE_MIN <= x.Field(FinalPrice).number <= PRICE_MAX)
  }

  // ------------------------------------------------------------- the repair of Listed rows

  const READ: set<Flag> := {ClassifiedMarker, Reparsed, PriceV2, PriceV3}

  /** repair_candidates */
  predicate RepairCandidate(x: Ipo) {
    && SecRow(x) && x.Status() == "Listed"
    && ((Implausible(x) && PriceV3 !in x.flags)
        || (PriceV2 !in x.flags && Inconclusive !in x.flags && UnknownCover !in x.flags))
  }

  /** A price is corrected, and an implausible one the cover does not state is removed. */
  function Reread(x: Ipo, symbol: Value, price: Value): (y: Ipo)
    ensures KeepsStatus(x, y)
  {
    var a := if Truthy(symbol) then Set(x, Symbol, symbol) else x;
    if price != Null then Set(a, FinalPrice, price)
    else if Implausible(x) then Set(a, FinalPrice, Null)
    else a
  }

  /** repair_existing_us_listed */
  function AfterRepair(x: Ipo, c: Cover): Ipo {
    if !RepairCandidate(x) then x
    else
      var base := Drop(x.flags, READ);
      var read := base + [ClassifiedMarker, Reparsed, PriceV2, PriceV3];
      match c
      case NotReached => x.(flags := base + [Inconclusive])
      case Undecided => x.(flags := base + [UnknownCover])
      case FollowOnOffer => SetStatus(x, "Not IPO").(flags := AddFlag(read, NonIpo) + [Rechecked])
      case InitialOffer(symbol, price) => Reread(x, symbol, price).(flags := read)
  }

  // ------------------------------------------------------------- the recheck

  /** A verdict that predates the cover-page classifier. */
  predicate Returnable(x: Ipo) {
    NonIpo in x.flags && Rechecked !in x.flags
  }

  /** recheck_candidates */
  predicate RecheckCandidate(x: Ipo) {
    SecRow(x) && x.Status() == "Not IPO" && Returnable(x)
  }

  /** Put back, with the symbol and the price that the cover states. */
  function Relisted(x: Ipo, symbol: Value, price: Value): (y: Ipo)
    ensures y.Status() == "Listed" && y.history == x.history && y.flags == x.flags
  {
    hide Get, Truthy;
    var listed := SetStatus(x, "Listed");
    var named := if Truthy(symbol) then Set(listed, Symbol, symbol) else listed;
    if price != Null then Set(named, FinalPrice, price) else named
  }

  /** recheck_not_ipo_rows */
  function AfterRecheck(x: Ipo, c: Cover): Ipo {
    if !RecheckCandidate(x) then x
    else
      var checked := Drop(x.flags, {Rechecked}) + [Rechecked];
      match c
      case InitialOffer(symbol, price) =>
        Relisted(x, symbol, price).(flags := Drop(checked, {NonIpo, PriceV2}) + [PriceV2])
      case _ => x.(flags := checked)
  }

  // ------------------------------------------------------------- the price repair

  predicate Unpriced(v: Value) {
    !Truthy(v) || (v.Num? && v.number <= 0.0)
  }

  predicate PriceCandidate(x: Ipo) {
    SecRow(x) && x.Status() == "Listed" && Unpriced(x.Field(FinalPrice))
  }

  function FillNull(x: Ipo, f: Column, v: Value): (y: Ipo)
    requires f != Status
    ensures KeepsStatus(x, y)
  {
    if v != Null && x.Field(f) == Null then Set(x, f, v) else x
  }

  /** repair_us_prices.repair_row on a candidate. */
  function AfterPriceRepair(x: Ipo, o: Offering): Ipo {
    if !PriceCandidate(x) then x
    else
      match o
      case Direct(symbol) => FillBlank(x, Symbol, symbol).(flags := AddFlag(x.flags, DirectListing))
      case NoOffering(reason) => SetStatus(x, "Not IPO").(flags := AddFlag(x.flags, NonIpoType(reason)))
      case PricedAt(price, low, high, symbol) =>
        if Truthy(price)
        then FillBlank(FillNull(FillNull(Set(x, FinalPrice, price), PriceLow, low), PriceHigh, high), Symbol, symbol)
               .(flags := Drop(x.flags, {Unparsed}))
        else x.(flags := AddFlag(x.flags, Unparsed))
      case NotFound(beyond) => x.(flags := AddFlag(x.flags, if beyond then CoverBeyondHead else Unparsed))
  }

  /** The backfill marks each row it stores. */
  function Marked(x: Ipo): Ipo {
    x.(flags := Drop(x.flags, {ClassifiedMarker, Reparsed, PriceV2}) + [ClassifiedMarker, Reparsed, PriceV2])
  }

  /** A write that leaves the history alone and moves the status at most between Listed and Not IPO. */
  ghost predicate Moves(x: Ipo, y: Ipo) {
    y.history == x.history && (y.Status() == x.Status() || y.Status() == "Listed" || y.Status() == "Not IPO")
  }

  lemma RepairMoves(x: Ipo, c: Cover)
    ensures Moves(x, AfterRepair(x, c))
  {
    hide RepairCandidate, Drop, SetStatus, Reread, Get, AsText;
  }

  lemma RecheckMoves(x: Ipo, c: Cover)
    ensures Moves(x, AfterRecheck(x, c))
  {
    hide RecheckCandidate, Drop, SetStatus, Set, Get, AsText;
  }

  lemma PriceMoves(x: Ipo, o: Offering)
    ensures Moves(x, AfterPriceRepair(x, o))
  {
    hide PriceCandidate, Drop, SetStatus, Set, FillBlank, FillNull, Get, AsText, Truthy;
  }

  // ------------------------------------------------------------- who comes back

  /** What one of these scripts, or any other writer, may do to a row that cannot return: it still
      cannot, and if it is Not IPO it stays so. */
  ghost predicate StaysOff(x: Ipo, y: Ipo) {
    !Returnable(x) ==> !Returnable(y) && (x.Status() == "Not IPO" ==> y.Status() == "Not IPO")
  }

  lemma RepairStaysOff(x: Ipo, c: Cover)
    ensures StaysOff(x, AfterRepair(x, c))
    ensures RepairCandidate(x) && c.FollowOnOffer? ==>
      var y := AfterRepair(x, c); y.Status() == "Not IPO" && NonIpo in y.flags && !Returnable(y)
  {
    hide Drop, Write, Set, SetStatus, SecRow, Get, AsText, Implausible;
  }

  lemma RecheckStaysOff(x: Ipo, c: Cover)
    ensures !Returnable(x) ==> AfterRecheck(x, c) == x
    ensures RecheckCandidate(x) ==> !Returnable(AfterRecheck(x, c))
    ensures x.Status() == "Not IPO" ==>
      (AfterRecheck(x, c).Status() != "Not IPO" <==> RecheckCandidate(x) && c.InitialOffer?)
  {
    hide Drop, Write, Set, SetStatus, SecRow, Get, AsText;
  }

  lemma PriceStaysOff(x: Ipo, o: Offering)
    ensures StaysOff(x, AfterPriceRepair(x, o))
  {
    hide Drop, Write, Set, SetStatus, FillBlank, FillNull, SecRow, Get, AsText, Truthy;
  }

  lemma MarkStaysOff(x: Ipo)
    ensures StaysOff(x, Marked(x))
  {
    hide Drop;
  }

  // ------------------------------------------------------------- running a script again

  lemma {:induction false} DropNothing(flags: seq<Flag>, gone: set<Flag>)
    requires forall f | f in flags :: f !in gone
    ensures Drop(flags, gone) == flags
  {
    if flags != [] {
      assert flags[0] in flags && forall f | f in flags[1..] :: f in flags;
      DropNothing(flags[1..], gone);
    }
  }

  lemma {:induction false} DropAppend(a: seq<Flag>, b: seq<Flag>, gone: set<Flag>)
    ensures Drop(a + b, gone) == Drop(a, gone) + Drop(b, gone)
  {
    if a == [] {
      assert a + b == b;
    } else {
      assert (a + b)[1..] == a[1..] + b;
      DropAppend(a[1..], b, gone);
    }
  }

  /** The repair reads a row at most once, unless it finds no verdict for one with an implausible
      price: then the next pass reads it again and adds the same flag again. */
  lemma RepairRerunIff(x: Ipo, c: Cover)
    ensures AfterRepair(AfterRepair(x, c), c) == AfterRepair(x, c)
      <==> !(RepairCandidate(x) && Implausible(x) && (c.NotReached? || c.Undecided?))
  {
    if RepairCandidate(x) {
      var y := AfterRepair(x, c);
      if c.NotReached? || c.Undecided? {
        var f := if c.NotReached? then Inconclusive else UnknownCover;
        NoVerdict(x, c, f);
        if Implausible(x) {
          NoVerdict(y, c, f);
          Grows(x, y, c, f);
        }
      } else {
        ReadOnce(x, c);
      }
    }
  }

  lemma NoVerdict(x: Ipo, c: Cover, f: Flag)
    requires RepairCandidate(x)
    requires (c.NotReached? && f == Inconclusive) || (c.Undecided? && f == UnknownCover)
    ensures var y := AfterRepair(x, c);
      && y == x.(flags := Drop(x.flags, READ) + [f])
      && (RepairCandidate(y) <==> Implausible(x))
  {
    hide Drop, Get, AsText;
  }

  lemma Grows(x: Ipo, y: Ipo, c: Cover, f: Flag)
    requires f == Inconclusive || f == UnknownCover
    requires y.flags == Drop(x.flags, READ) + [f]
    ensures Drop(y.flags, READ) == y.flags && |Drop(y.flags, READ) + [f]| == |y.flags| + 1
  {
    DropNothing(y.flags, READ);
  }

  lemma ReadOnce(x: Ipo, c: Cover)
    requires RepairCandidate(x) && !c.NotReached? && !c.Undecided?
    ensures !RepairCandidate(AfterRepair(x, c))
  {
    hide Drop, Write, Set, SetStatus, Get, AsText, SecRow, Implausible;
  }

  function Repairs(x: Ipo, c: Cover, n: nat): Ipo {
    if n == 0 then x else AfterRepair(Repairs(x, c, n - 1), c)
  }

  /** Such a row is read in every pass, and its flags grow by one each time. */
  lemma {:induction false} RereadForever(x: Ipo, c: Cover, n: nat)
    requires RepairCandidate(x) && Implausible(x) && (c.NotReached? || c.Undecided?) && n > 0
    ensures var y := Repairs(x, c, n);
      && RepairCandidate(y) && Implausible(y)
      && |y.flags| == |Drop(x.flags, READ)| + n && Drop(y.flags, READ) == y.flags
  {
    hide Drop, RepairCandidate, Implausible, AfterRepair;
    var f := if c.NotReached? then Inconclusive else UnknownCover;
    if n > 1 {
      RereadForever(x, c, n - 1);
    }
    var before := Repairs(x, c, n - 1);
    NoVerdict(before, c, f);
    Grows(before, AfterRepair(before, c), c, f);
    SamePrice(before, AfterRepair(before, c));
  }

  lemma SamePrice(x: Ipo, y: Ipo)
    requires y.fields == x.fields
    ensures Implausible(y) <==> Implausible(x)
  {
  }

  lemma RecheckRerun(x: Ipo, c: Cover)
    ensures AfterRecheck(AfterRecheck(x, c), c) == AfterRecheck(x, c)
  {
    hide AfterRecheck, RecheckCandidate;
    RecheckStaysOff(x, c);
    if RecheckCandidate(x) {
      RecheckStaysOff(AfterRecheck(x, c), c);
    } else {
      NoRecheck(x, c);
    }
  }

  lemma NoRecheck(x: Ipo, c: Cover)
    requires !RecheckCandidate(x)
    ensures AfterRecheck(x, c) == x
  {
  }

  lemma MarkRerun(x: Ipo)
    ensures Marked(Marked(x)) == Marked(x)
  {
    var gone := {ClassifiedMarker, Reparsed, PriceV2};
    var added := [ClassifiedMarker, Reparsed, PriceV2];
    var base := Drop(x.flags, gone);
    DropAppend(base, added, gone);
    DropNothing(base, gone);
    DropAll(added, gone);
    assert base + added == Marked(x).flags && base + [] == base;
  }

  lemma {:induction false} DropAll(flags: seq<Flag>, gone: set<Flag>)
    requires forall f | f in flags :: f in gone
    ensures Drop(flags, gone) == []
  {
    if flags != [] {
      assert flags[0] in flags && forall f | f in flags[1..] :: f in flags;
      DropAll(flags[1..], gone);
    }
  }

  function Priced(x: Ipo, o: Offering): (y: Ipo)
    requires o.PricedAt?
    ensures KeepsStatus(x, y)
  {
    hide FillBlank, FillNull, Set;
    FillBlank(FillNull(FillNull(Set(x, FinalPrice, o.price), PriceLow, o.low), PriceHigh, o.high), Symbol, o.symbol)
  }

  /** Nothing of what was read is left to write. */
  ghost predicate Full(x: Ipo, o: Offering)
    requires o.PricedAt?
  {
    && x.Field(FinalPrice) == o.price && (o.low != Null ==> x.Field(PriceLow) != Null)
    && (o.high != Null ==> x.Field(PriceHigh) != Null) && (Truthy(o.symbol) ==> Truthy(x.Field(Symbol)))
  }

  lemma PricedFull(x: Ipo, o: Offering)
    requires o.PricedAt?
    ensures Full(Priced(x, o), o)
  {
    hide Get, Truthy, Set, FillNull, FillBlank;
    var a := Set(x, FinalPrice, o.price);
    var b := FillNull(a, PriceLow, o.low);
    var c := FillNull(b, PriceHigh, o.high);
    SetField(x, FinalPrice, o.price);
    NullFilled(a, PriceLow, o.low);
    NullFilled(b, PriceHigh, o.high);
    BlankFilled(c, o.symbol);
  }

  lemma SetField(x: Ipo, f: Column, v: Value)
    requires f != Status
    ensures Set(x, f, v).Field(f) == v
  {
  }

  lemma NullFilled(x: Ipo, f: Column, v: Value)
    requires f == PriceLow || f == PriceHigh
    ensures var y := FillNull(x, f, v);
      && (v != Null ==> y.Field(f) != Null) && y.Field(FinalPrice) == x.Field(FinalPrice)
      && (f != PriceLow ==> y.Field(PriceLow) == x.Field(PriceLow))
  {
    hide Get;
  }

  lemma BlankFilled(x: Ipo, v: Value)
    ensures var y := FillBlank(x, Symbol, v);
      && (Truthy(v) ==> Truthy(y.Field(Symbol))) && y.Field(FinalPrice) == x.Field(FinalPrice)
      && y.Field(PriceLow) == x.Field(PriceLow) && y.Field(PriceHigh) == x.Field(PriceHigh)
  {
    hide Get, Truthy;
  }

  lemma FullPriced(x: Ipo, o: Offering, flags: seq<Flag>)
    requires o.PricedAt? && Full(x, o)
    ensures Full(x.(flags := flags), o) && Priced(x, o) == x
  {
    hide Get, Truthy;
  }

  lemma PricedIs(x: Ipo, o: Offering)
    requires o.PricedAt? && Truthy(o.price)
    ensures AfterPriceRepair(x, o) == if PriceCandidate(x) then Priced(x, o).(flags := Drop(x.flags, {Unparsed})) else x
  {
    hide PriceCandidate, Set, FillNull, FillBlank, Drop;
  }

  lemma PricedRerun(x: Ipo, o: Offering)
    requires o.PricedAt? && Truthy(o.price)
    ensures AfterPriceRepair(AfterPriceRepair(x, o), o) == AfterPriceRepair(x, o)
  {
    hide AfterPriceRepair, Priced, Full, PriceCandidate, Truthy, Drop;
    var y := AfterPriceRepair(x, o);
    PricedIs(x, o);
    PricedIs(y, o);
    if PriceCandidate(x) {
      PricedFull(x, o);
      FullPriced(Priced(x, o), o, y.flags);
      FullPriced(y, o, y.flags);
      DropNothing(Drop(x.flags, {Unparsed}), {Unparsed});
    }
  }

  lemma DirectRerun(x: Ipo, o: Offering)
    requires o.Direct?
    ensures AfterPriceRepair(AfterPriceRepair(x, o), o) == AfterPriceRepair(x, o)
  {
    hide PriceCandidate, FillBlank;
    FillTwice(x, Symbol, o.symbol, AddFlag(x.flags, DirectListing));
  }

  lemma PriceRerun(x: Ipo, o: Offering)
    ensures AfterPriceRepair(AfterPriceRepair(x, o), o) == AfterPriceRepair(x, o)
  {
    hide PriceCandidate, Truthy, Get, AsText, Drop, FillBlank, FillNull, Set;
    if o.PricedAt? && Truthy(o.price) {
      PricedRerun(x, o);
    } else if o.Direct? {
      DirectRerun(x, o);
    } else {
      TakenOff(x, o);
    }
  }

  lemma FillTwice(x: Ipo, f: Column, v: Value, flags: seq<Flag>)
    requires f != Status
    ensures var y := FillBlank(x, f, v).(flags := flags); FillBlank(y, f, v) == y
  {
  }

  lemma TakenOff(x: Ipo, o: Offering)
    ensures PriceCandidate(x) && o.NoOffering? ==> !PriceCandidate(AfterPriceRepair(x, o))
  {
    hide Get, AsText, SecRow;
  }
}
