/**
 pipeline.reconcile_lifecycle: the two loops over the stored India rows. `order` is the order
 in which the query returns them.
 */
module Reconcile {
  import opened Options
  import opened Lifecycle

  /** What the loops call into: name and issue-type classification, dates and trimming. */
  datatype Env = Env(
    artifact: string -> bool, classify: string -> Option<string>, board: (string, string) -> string,
    canonical: string -> string, day: string -> Option<int>, trim: string -> string, isin: string -> string)

  function Raw(x: Ipo, f: string): string {
    if f in x.raw then x.raw[f] else ""
  }

  predicate Present(s: string) {
    s != "" && s != "None"
  }

  function SetStatus(x: Ipo, status: string): (y: Ipo)
    ensures y.Status() == status && OnlyMoves(x, y, Status)
  {
    Write(x, Status, Str(status))
  }

  predicate BoardDone(x: Ipo, it: string, env: Env) {
    x.Field(Board) == Str(env.board(it, Raw(x, "exchange")))
  }

  function FixedBoard(x: Ipo, it: string, env: Env): (y: Ipo)
    ensures OnlyMoves(x, y, Board) && BoardDone(y, it, env) && (BoardDone(x, it, env) ==> y == x)
  {
    Write(x, Board, Str(env.board(it, Raw(x, "exchange"))))
  }

  predicate SectorDone(x: Ipo, env: Env) {
    || (Truthy(x.Field(Sector)) && x.Field(Sector) != Str("Unknown"))
    || !Present(Raw(x, "industry"))
    || x.Field(Sector) == Str(env.trim(Raw(x, "industry")))
  }

  function FilledSector(x: Ipo, env: Env): (y: Ipo)
    ensures OnlyMoves(x, y, Sector) && SectorDone(y, env) && (SectorDone(x, env) ==> y == x)
  {
    if (!Truthy(x.Field(Sector)) || x.Field(Sector) == Str("Unknown")) && Present(Raw(x, "industry"))
    then Write(x, Sector, Str(env.trim(Raw(x, "industry")))) else x
  }

  predicate IsinDone(x: Ipo, env: Env) {
    || Truthy(x.Field(Isin))
    || !Present(Raw(x, "isin_number"))
    || x.Field(Isin) == Str(env.isin(Raw(x, "isin_number")))
  }

  function FilledIsin(x: Ipo, env: Env): (y: Ipo)
    ensures OnlyMoves(x, y, Isin) && IsinDone(y, env) && (IsinDone(x, env) ==> y == x)
  {
    if !Truthy(x.Field(Isin)) && Present(Raw(x, "isin_number"))
    then Write(x, Isin, Str(env.isin(Raw(x, "isin_number")))) else x
  }

  /** The report's issue type, when it states one. */
  predicate Typed(x: Ipo, env: Env) {
    "issue_type" in x.raw && Present(env.trim(x.raw["issue_type"]))
  }

  function TypeOf(x: Ipo, env: Env): Option<string> {
    env.classify(Raw(x, "issue_type"))
  }

  /** The columns this pass uses but only the second loop moves. */
  ghost predicate SameIssue(x: Ipo, y: Ipo) {
    && y.raw == x.raw && y.history == x.history && y.flags == x.flags
    && y.Field(Company) == x.Field(Company) && y.Field(Country) == x.Field(Country)
    && y.Field(CloseDate) == x.Field(CloseDate) && y.Field(ListingDate) == x.Field(ListingDate)
    && y.Field(FinalPrice) == x.Field(FinalPrice)
  }

  predicate Refreshable(x: Ipo, it: string, env: Env) {
    !(BoardDone(x, it, env) && SectorDone(x, env) && IsinDone(x, env))
  }

  function Refreshed(x: Ipo, it: string, env: Env): Ipo {
    FilledIsin(FilledSector(FixedBoard(x, it, env), env), env)
  }

  lemma MovesIssue(x: Ipo, y: Ipo, f: Column)
    requires OnlyMoves(x, y, f) && (f == Board || f == Sector || f == Isin || f == Status)
    ensures SameIssue(x, y) && (f != Status ==> y.Status() == x.Status())
  {
    hide Get;
  }

  lemma RefreshedKeeps(x: Ipo, it: string, env: Env)
    ensures var y := Refreshed(x, it, env);
      SameIssue(x, y) && y.Status() == x.Status()
  {
    var b := FixedBoard(x, it, env);
    var c := FilledSector(b, env);
    MovesIssue(x, b, Board);
    MovesIssue(b, c, Sector);
    MovesIssue(c, FilledIsin(c, env), Isin);
    hide FixedBoard, FilledSector, FilledIsin, Get, OnlyMoves, BoardDone, SectorDone, IsinDone, AsText;
  }

  lemma DoneLike(x: Ipo, y: Ipo, it: string, env: Env)
    requires y.raw == x.raw
    ensures y.Field(Board) == x.Field(Board) && BoardDone(x, it, env) ==> BoardDone(y, it, env)
    ensures y.Field(Sector) == x.Field(Sector) && SectorDone(x, env) ==> SectorDone(y, env)
    ensures (y.Field(Isin) == x.Field(Isin) && IsinDone(x, env)) || Truthy(y.Field(Isin)) ==> IsinDone(y, env)
  {
    hide Truthy, Present, Get;
    assert forall f :: Raw(x, f) == Raw(y, f);
    hide Raw;
  }

  lemma RefreshedDone(x: Ipo, it: string, env: Env)
    ensures !Refreshable(Refreshed(x, it, env), it, env)
    ensures !Refreshable(x, it, env) ==> Refreshed(x, it, env) == x
  {
    var b := FixedBoard(x, it, env);
    var c := FilledSector(b, env);
    var y := FilledIsin(c, env);
    hide FixedBoard, FilledSector, FilledIsin, Get;
    DoneLike(b, c, it, env);
    DoneLike(c, y, it, env);
    hide BoardDone, SectorDone, IsinDone;
  }

  /** The first loop's work on one row. */
  function Classified(x: Ipo, env: Env): Ipo {
    if x.Status() != "Not IPO" && env.artifact(x.Name()) then SetStatus(x, "Not IPO")
    else if Typed(x, env) then
      var it := TypeOf(x, env);
      if it.None? then (if x.Status() != "Not IPO" then SetStatus(x, "Not IPO") else x)
      else Refreshed(x, it.value, env)
    else if x.Field(Board) == Str("EQ") then Write(x, Board, Str("Mainboard"))
    else x
  }

  predicate Ids(ipos: seq<Ipo>, order: seq<nat>) {
    forall k | 0 <= k < |order| :: order[k] < |ipos|
  }

  predicate Names(ipos: seq<Ipo>, m: map<string, nat>) {
    forall c | c in m :: m[c] < |ipos|
  }

  /** listed_by_name after row i. */
  function Noted(ipos: seq<Ipo>, m: map<string, nat>, i: nat, env: Env): (r: map<string, nat>)
    requires i < |ipos| && Names(ipos, m)
    ensures Names(ipos, r)
  {
    var c := env.canonical(ipos[i].Name());
    if ipos[i].Status() == "Listed" && c != ""
      && (c !in m || (Truthy(ipos[i].Field(ListingDate)) && !Truthy(ipos[m[c]].Field(ListingDate))))
    then m[c := i] else m
  }

  function First(ipos: seq<Ipo>, m: map<string, nat>, order: seq<nat>, env: Env): (r: (seq<Ipo>, map<string, nat>))
    requires Ids(ipos, order) && Names(ipos, m)
    ensures |r.0| == |ipos| && Names(r.0, r.1)
    decreases order
  {
    if order == [] then (ipos, m)
    else
      var now := ipos[order[0] := Classified(ipos[order[0]], env)];
      First(now, Noted(now, m, order[0], env), order[1..], env)
  }

  predicate Pending(status: string) {
    status == "Open" || status == "Upcoming" || status == "Closed"
  }

  predicate Overdue(x: Ipo, env: Env, today: int) {
    var close := env.day(AsText(x.Field(CloseDate)));
    close.Some? && close.value < today
  }

  function Fill(x: Ipo, f: Column, from: Ipo): (y: Ipo)
    ensures OnlyMoves(x, y, f) && (Truthy(y.Field(f)) || y == x)
  {
    if !Truthy(x.Field(f)) && Truthy(from.Field(f)) then Write(x, f, from.Field(f)) else x
  }

  function FillPrice(x: Ipo, from: Ipo): (y: Ipo)
    ensures OnlyMoves(x, y, FinalPrice)
  {
    if x.Field(FinalPrice) == Null && from.Field(FinalPrice) != Null
    then Write(x, FinalPrice, from.Field(FinalPrice)) else x
  }

  function ListedLike(x: Ipo, from: Ipo): Ipo {
    Fill(FillPrice(Fill(SetStatus(x, "Listed"), ListingDate, from), from), Isin, from)
  }

  /** The second loop's work on row i. */
  function Matched(ipos: seq<Ipo>, m: map<string, nat>, i: nat, env: Env, today: int): Ipo
    requires i < |ipos| && Names(ipos, m)
  {
    var x := ipos[i];
    var c := env.canonical(x.Name());
    if !Pending(x.Status()) then x
    else if c in m && m[c] != i then ListedLike(x, ipos[m[c]])
    else if x.Status() != "Closed" && Overdue(x, env, today) then SetStatus(x, "Closed")
    else x
  }

  function Second(ipos: seq<Ipo>, m: map<string, nat>, order: seq<nat>, env: Env, today: int): (r: seq<Ipo>)
    requires Ids(ipos, order) && Names(ipos, m)
    ensures |r| == |ipos|
    decreases order
  {
    if order == [] then ipos
    else Second(ipos[order[0] := Matched(ipos, m, order[0], env, today)], m, order[1..], env, today)
  }

  function Reconciled(ipos: seq<Ipo>, order: seq<nat>, env: Env, today: int): (r: seq<Ipo>)
    requires Ids(ipos, order)
    ensures |r| == |ipos|
  {
    var one := First(ipos, map[], order, env);
    Second(one.0, one.1, order, env, today)
  }

  predicate India(x: Ipo) {
    x.Field(Country) == Str("India")
  }

  /** The query's result: every India row once, in any order. */
  ghost predicate Query(ipos: seq<Ipo>, order: seq<nat>) {
    && Ids(ipos, order)
    && Once(order)
    && forall i: nat :: i in order <==> i < |ipos| && India(ipos[i])
  }

  // ------------------------------------------------------------- the loops, row by row

  /** A row that the second loop can consume as a match for the name c. */
  predicate Lists(x: Ipo, c: string, env: Env) {
    x.Status() == "Listed" && c != "" && env.canonical(x.Name()) == c
  }

  ghost predicate MapsListed(ipos: seq<Ipo>, m: map<string, nat>, env: Env) {
    Names(ipos, m) && forall c | c in m :: Lists(ipos[m[c]], c, env)
  }

  lemma ClassifiedStays(x: Ipo, env: Env)
    ensures var y := Classified(x, env);
      SameIssue(x, y) && y.Name() == x.Name() && (y.Status() == x.Status() || y.Status() == "Not IPO")
  {
    hide Write, SetStatus, Refreshed, Typed, TypeOf, Get, OnlyMoves, AsText, SameIssue;
    IssueStays(x);
    if Typed(x, env) && TypeOf(x, env).Some? {
      RefreshedKeeps(x, TypeOf(x, env).value, env);
    }
    assert SameIssue(x, Classified(x, env));
    SameName(x, Classified(x, env));
  }

  lemma SameName(x: Ipo, y: Ipo)
    requires SameIssue(x, y)
    ensures y.Name() == x.Name()
  {
  }

  lemma IssueStays(x: Ipo)
    ensures SameIssue(x, x)
    ensures var y := Write(x, Board, Str("Mainboard"));
      SameIssue(x, y) && y.Status() == x.Status()
    ensures var y := SetStatus(x, "Not IPO");
      SameIssue(x, y) && y.Status() == "Not IPO"
  {
    MovesIssue(x, Write(x, Board, Str("Mainboard")), Board);
    MovesIssue(x, SetStatus(x, "Not IPO"), Status);
  }

  ghost predicate Once(order: seq<nat>) {
    forall j, k | 0 <= j < k < |order| :: order[j] != order[k]
  }

  lemma OnceRest(order: seq<nat>)
    requires Once(order) && order != []
    ensures Once(order[1..]) && order[0] !in order[1..]
    ensures forall i :: i in order <==> i == order[0] || i in order[1..]
  {
    var rest := order[1..];
    forall j, k | 0 <= j < k < |rest| ensures rest[j] != rest[k] {
      assert rest[j] == order[j + 1] && rest[k] == order[k + 1];
    }
    forall k | 0 <= k < |rest| ensures rest[k] != order[0] {
      assert rest[k] == order[k + 1];
    }
    assert order == [order[0]] + rest;
  }

  /** Moving a row that no name points to leaves the map right. */
  lemma MapsKept(ipos: seq<Ipo>, m: map<string, nat>, i: nat, y: Ipo, env: Env)
    requires MapsListed(ipos, m, env) && i < |ipos| && forall c | c in m :: m[c] != i
    ensures MapsListed(ipos[i := y], m, env)
  {
    hide Lists;
    forall c | c in m ensures Lists(ipos[i := y][m[c]], c, env) {
      assert Lists(ipos[m[c]], c, env);
    }
  }

  /** Noting one row adds its name when it is Listed, and never points a name anywhere else. */
  lemma NotedStep(ipos: seq<Ipo>, m: map<string, nat>, i: nat, env: Env)
    requires MapsListed(ipos, m, env) && i < |ipos|
    ensures var noted := Noted(ipos, m, i, env);
      && MapsListed(ipos, noted, env)
      && (forall c :: c in noted <==> c in m || Lists(ipos[i], c, env))
      && forall c | c in noted :: noted[c] == i || (c in m && noted[c] == m[c])
  {
    hide Truthy, Get;
  }

  lemma {:induction false} FirstLoop(ipos: seq<Ipo>, m: map<string, nat>, order: seq<nat>, env: Env)
    requires Ids(ipos, order) && Once(order)
    requires MapsListed(ipos, m, env) && forall c | c in m :: m[c] !in order
    ensures var r := First(ipos, m, order, env);
      && (forall i: nat | i < |ipos| :: r.0[i] == if i in order then Classified(ipos[i], env) else ipos[i])
      && MapsListed(r.0, r.1, env)
      && forall c :: c in r.1 <==> c in m || exists i :: i in order && Lists(r.0[i], c, env)
    decreases order
  {
    assert Names(ipos, m);
    hide Classified, Once, Lists, MapsListed, Noted;
    if order != [] {
      var i0 := order[0];
      var now := ipos[i0 := Classified(ipos[i0], env)];
      var noted := Noted(now, m, i0, env);
      OnceRest(order);
      MapsKept(ipos, m, i0, Classified(ipos[i0], env), env);
      NotedStep(now, m, i0, env);
      FirstLoop(now, noted, order[1..], env);
      var r := First(now, noted, order[1..], env);
      forall c ensures c in r.1 <==> c in m || exists i :: i in order && Lists(r.0[i], c, env) {
        NamesJoin(r.0, order, c, env);
      }
    }
  }

  lemma NamesJoin(ipos: seq<Ipo>, order: seq<nat>, c: string, env: Env)
    requires order != [] && Ids(ipos, order)
    ensures (exists i :: i in order && Lists(ipos[i], c, env))
      <==> Lists(ipos[order[0]], c, env) || exists i :: i in order[1..] && Lists(ipos[i], c, env)
  {
    hide Lists;
    assert order == [order[0]] + order[1..];
    assert order[0] in order;
  }

  lemma {:induction false} SecondLoop(ipos: seq<Ipo>, m: map<string, nat>, order: seq<nat>, env: Env, today: int)
    requires Ids(ipos, order) && Once(order)
    requires MapsListed(ipos, m, env)
    ensures var r := Second(ipos, m, order, env, today);
      forall i: nat | i < |ipos| :: r[i] == if i in order then Matched(ipos, m, i, env, today) else ipos[i]
    decreases order
  {
    assert Names(ipos, m);
    hide Matched, Once, MapsListed, Lists;
    if order != [] {
      var i0 := order[0];
      var now := ipos[i0 := Matched(ipos, m, i0, env, today)];
      OnceRest(order);
      ListedUntouched(ipos, m, i0, env, today);
      SecondLoop(now, m, order[1..], env, today);
      forall i: nat | i in order[1..] ensures Matched(now, m, i, env, today) == Matched(ipos, m, i, env, today) {
        SameMatch(ipos, now, m, i, env, today);
      }
    }
  }

  /** The rows the map points to are Listed, and the second loop leaves those alone. */
  lemma ListedUntouched(ipos: seq<Ipo>, m: map<string, nat>, i: nat, env: Env, today: int)
    requires MapsListed(ipos, m, env) && i < |ipos|
    ensures var now := ipos[i := Matched(ipos, m, i, env, today)];
      MapsListed(now, m, env) && forall c | c in m :: now[m[c]] == ipos[m[c]]
  {
    hide ListedLike, Overdue, SetStatus, Get, AsText;
    forall c | c in m ensures m[c] == i ==> Matched(ipos, m, i, env, today) == ipos[i] {
      assert Lists(ipos[m[c]], c, env);
    }
  }

  lemma SameMatch(ipos: seq<Ipo>, now: seq<Ipo>, m: map<string, nat>, i: nat, env: Env, today: int)
    requires Names(ipos, m) && Names(now, m) && i < |ipos| == |now| && now[i] == ipos[i]
    requires forall c | c in m :: now[m[c]] == ipos[m[c]]
    ensures Matched(now, m, i, env, today) == Matched(ipos, m, i, env, today)
  {
    hide ListedLike, Overdue, SetStatus, Get, AsText, Pending;
  }

  /** Some India row that is Listed after classification has the same non-empty canonical name. */
  ghost predicate ListedTwin(ipos: seq<Ipo>, i: nat, env: Env)
    requires i < |ipos|
  {
    exists j: nat :: j < |ipos| && India(ipos[j]) && Lists(Classified(ipos[j], env), env.canonical(ipos[i].Name()), env)
  }

  /** The status row i ends with, read off the rows before the pass. */
  ghost function FinalStatus(ipos: seq<Ipo>, i: nat, env: Env, today: int): string
    requires i < |ipos|
  {
    var x := Classified(ipos[i], env);
    if !India(ipos[i]) then ipos[i].Status()
    else if !Pending(x.Status()) then x.Status()
    else if ListedTwin(ipos, i, env) then "Listed"
    else if Overdue(x, env, today) then "Closed"
    else x.Status()
  }

  /** The pass, row by row. */
  lemma Pointwise(ipos: seq<Ipo>, order: seq<nat>, env: Env, today: int)
    requires Query(ipos, order)
    ensures var one := First(ipos, map[], order, env);
      && MapsListed(one.0, one.1, env)
      && (forall i: nat | i < |ipos| :: one.0[i] == if India(ipos[i]) then Classified(ipos[i], env) else ipos[i])
      && (forall i: nat | i < |ipos| :: Reconciled(ipos, order, env, today)[i]
            == if India(ipos[i]) then Matched(one.0, one.1, i, env, today) else ipos[i])
      && forall i: nat | i < |ipos| :: env.canonical(ipos[i].Name()) in one.1 <==> ListedTwin(ipos, i, env)
  {
    hide Classified, First, Second, Matched, India;
    FirstLoop(ipos, map[], order, env);
    var one := First(ipos, map[], order, env);
    SecondLoop(one.0, one.1, order, env, today);
    forall i: nat | i < |ipos| ensures env.canonical(ipos[i].Name()) in one.1 <==> ListedTwin(ipos, i, env) {
      var c := env.canonical(ipos[i].Name());
      if c in one.1 {
        var j: nat :| j in order && Lists(one.0[j], c, env);
        assert one.0[j] == Classified(ipos[j], env);
      }
      if ListedTwin(ipos, i, env) {
        var j: nat :| j < |ipos| && India(ipos[j]) && Lists(Classified(ipos[j], env), c, env);
        assert j in order && Lists(one.0[j], c, env);
      }
    }
  }

  /** The status of every row after the pass, independent of the order the rows were read in. */
  lemma ReconciledStatus(ipos: seq<Ipo>, order: seq<nat>, env: Env, today: int, i: nat)
    requires Query(ipos, order) && i < |ipos|
    ensures Reconciled(ipos, order, env, today)[i].Status() == FinalStatus(ipos, i, env, today)
  {
    hide Classified, First, Reconciled, ListedTwin;
    Pointwise(ipos, order, env, today);
    var one := First(ipos, map[], order, env);
    if India(ipos[i]) {
      var x := one.0[i];
      ClassifiedStays(ipos[i], env);
      var c := env.canonical(x.Name());
      if c in one.1 {
        assert Lists(one.0[one.1[c]], c, env);
      }
      if Pending(x.Status()) && c in one.1 {
        ListedLikeLists(x, one.0[one.1[c]]);
      }
    }
  }

  lemma ListedLikeLists(x: Ipo, from: Ipo)
    ensures var y := ListedLike(x, from);
      && y.Status() == "Listed" && y.raw == x.raw && y.history == x.history && y.flags == x.flags
      && (forall f | f != Status && f != ListingDate && f != FinalPrice && f != Isin :: y.Field(f) == x.Field(f))
      && (Truthy(y.Field(Isin)) || y.Field(Isin) == x.Field(Isin))
  {
    hide SetStatus, Fill, FillPrice, Truthy, Get, AsText;
    var a := SetStatus(x, "Listed");
    var b := Fill(a, ListingDate, from);
    var c := FillPrice(b, from);
    assert b.Field(Status) == a.Field(Status) && c.Field(Status) == a.Field(Status);
    SameStatus(a, Fill(c, Isin, from));
  }

  lemma SameStatus(x: Ipo, y: Ipo)
    requires y.Field(Status) == x.Field(Status)
    ensures y.Status() == x.Status()
  {
  }

  lemma OrderFree(ipos: seq<Ipo>, o1: seq<nat>, o2: seq<nat>, env: Env, today: int)
    requires Query(ipos, o1) && Query(ipos, o2)
    ensures forall i: nat | i < |ipos| ::
      Reconciled(ipos, o1, env, today)[i].Status() == Reconciled(ipos, o2, env, today)[i].Status()
  {
    forall i: nat | i < |ipos| ensures Reconciled(ipos, o1, env, today)[i].Status() == Reconciled(ipos, o2, env, today)[i].Status() {
      ReconciledStatus(ipos, o1, env, today, i);
      ReconciledStatus(ipos, o2, env, today, i);
    }
  }

  // ------------------------------------------------------------- running it again

  /** The first loop has nothing left to do on the row. */
  predicate Settled(x: Ipo, env: Env) {
    if Typed(x, env) then TypeOf(x, env).Some? && !Refreshable(x, TypeOf(x, env).value, env)
    else x.Field(Board) != Str("EQ")
  }

  lemma ClassifiedSettles(x: Ipo, env: Env)
    ensures var y := Classified(x, env);
      y.Status() != "Not IPO" ==> !env.artifact(y.Name()) && Settled(y, env) && y.Status() == x.Status()
  {
    ClassifiedStays(x, env);
    SameType(x, Classified(x, env), env);
    if Typed(x, env) && TypeOf(x, env).Some? {
      RefreshedDone(x, TypeOf(x, env).value, env);
    }
    hide SetStatus, Refreshed, Refreshable, Typed, TypeOf;
  }

  lemma SameType(x: Ipo, y: Ipo, env: Env)
    requires y.raw == x.raw
    ensures Typed(x, env) == Typed(y, env) && TypeOf(x, env) == TypeOf(y, env)
  {
  }

  lemma ClassifiedTwice(x: Ipo, env: Env)
    ensures var y := Classified(x, env);
      Classified(y, env).Status() == y.Status() && (!env.artifact(x.Name()) ==> Classified(y, env) == y)
  {
    var y := Classified(x, env);
    ClassifiedStays(x, env);
    ClassifiedStays(y, env);
    SameType(x, y, env);
    if Typed(x, env) && TypeOf(x, env).Some? {
      RefreshedDone(x, TypeOf(x, env).value, env);
      RefreshedDone(y, TypeOf(x, env).value, env);
    }
    hide SetStatus, Refreshed, Refreshable, Typed, TypeOf, Get;
    if y.Status() != "Not IPO" {
      ClassifiedSettles(x, env);
      SettledStays(y, env);
    }
  }

  lemma SettledStays(x: Ipo, env: Env)
    requires Settled(x, env) && !env.artifact(x.Name())
    ensures Classified(x, env) == x
  {
    if Typed(x, env) {
      RefreshedDone(x, TypeOf(x, env).value, env);
    }
    hide SetStatus, Refreshed, Refreshable, Typed, TypeOf;
  }

  /** Settled looks at the stored report, the board, the sector and the ISIN only. */
  lemma SettledLike(x: Ipo, y: Ipo, env: Env)
    requires Settled(x, env) && y.raw == x.raw && y.Field(Board) == x.Field(Board) && y.Field(Sector) == x.Field(Sector)
    requires Truthy(y.Field(Isin)) || y.Field(Isin) == x.Field(Isin)
    ensures Settled(y, env)
  {
    SameType(x, y, env);
    if Typed(x, env) && TypeOf(x, env).Some? {
      DoneLike(x, y, TypeOf(x, env).value, env);
    }
    hide Raw, Typed, TypeOf, BoardDone, SectorDone, IsinDone;
  }

  lemma ListedSettled(x: Ipo, from: Ipo, env: Env)
    requires Settled(x, env)
    ensures Settled(ListedLike(x, from), env)
  {
    ListedLikeLists(x, from);
    hide ListedLike, Settled;
    SettledLike(x, ListedLike(x, from), env);
  }

  /** The row keeps its issuer and, if it is settled, stays so. */
  ghost predicate Rests(x0: Ipo, y: Ipo, env: Env) {
    && y.Name() == x0.Name() && y.Field(Country) == x0.Field(Country) && y.Field(CloseDate) == x0.Field(CloseDate)
    && Classified(y, env).Status() == y.Status() && (!env.artifact(y.Name()) ==> Classified(y, env) == y)
  }

  lemma UnmatchedRests(x: Ipo, env: Env)
    ensures Rests(x, Classified(x, env), env)
  {
    ClassifiedStays(x, env);
    ClassifiedTwice(x, env);
    hide Classified, Get, AsText;
  }

  lemma ClosedRests(x0: Ipo, env: Env)
    requires Pending(Classified(x0, env).Status())
    ensures Rests(x0, SetStatus(Classified(x0, env), "Closed"), env)
  {
    var x := Classified(x0, env);
    ClassifiedStays(x0, env);
    ClassifiedSettles(x0, env);
    SettledLike(x, SetStatus(x, "Closed"), env);
    hide Classified, Settled, SetStatus, Get, AsText;
    SettledStays(SetStatus(x, "Closed"), env);
  }

  lemma ListedRests(x0: Ipo, from: Ipo, env: Env)
    requires Pending(Classified(x0, env).Status())
    ensures Rests(x0, ListedLike(Classified(x0, env), from), env)
  {
    var x := Classified(x0, env);
    ClassifiedStays(x0, env);
    ClassifiedSettles(x0, env);
    ListedLikeLists(x, from);
    hide Classified, Settled, ListedLike, Get, AsText;
    ListedSettled(x, from, env);
    SettledStays(ListedLike(x, from), env);
  }

  /** A row after the pass is settled unless its name is a report artifact. */
  lemma AfterPass(ipos: seq<Ipo>, order: seq<nat>, env: Env, today: int, i: nat)
    requires Query(ipos, order) && i < |ipos|
    ensures var y := Reconciled(ipos, order, env, today)[i];
      && y.Name() == ipos[i].Name() && India(y) == India(ipos[i]) && y.Field(CloseDate) == ipos[i].Field(CloseDate)
      && (India(y) ==> Classified(y, env).Status() == y.Status())
      && (India(y) && !env.artifact(y.Name()) ==> Classified(y, env) == y)
  {
    Pointwise(ipos, order, env, today);
    var one := First(ipos, map[], order, env);
    hide Classified, First, Reconciled, ListedTwin, Settled, ListedLike, SetStatus, Overdue, Query;
    if India(ipos[i]) {
      var x := one.0[i];
      var c := env.canonical(x.Name());
      UnmatchedRests(ipos[i], env);
      if Pending(x.Status()) {
        ClosedRests(ipos[i], env);
        ListedRests(ipos[i], if c in one.1 then one.0[one.1[c]] else x, env);
      }
    }
  }

  /** A row that is Listed after the pass has a Listed row of its name before it. */
  lemma TwinBefore(ipos: seq<Ipo>, order: seq<nat>, env: Env, today: int, i: nat, j: nat)
    requires Query(ipos, order) && i < |ipos| && j < |ipos| && India(ipos[j])
    requires Lists(Reconciled(ipos, order, env, today)[j], env.canonical(ipos[i].Name()), env)
    ensures ListedTwin(ipos, i, env)
  {
    AfterPass(ipos, order, env, today, j);
    ReconciledStatus(ipos, order, env, today, j);
    ClassifiedStays(ipos[j], env);
    hide Classified, Reconciled, Query, Overdue;
    var c := env.canonical(ipos[i].Name());
    if Classified(ipos[j], env).Status() == "Listed" {
      assert Lists(Classified(ipos[j], env), c, env);
    } else {
      var k: nat :| k < |ipos| && India(ipos[k]) && Lists(Classified(ipos[k], env), env.canonical(ipos[j].Name()), env);
      assert Lists(Classified(ipos[k], env), c, env);
    }
  }

  /** A second pass on the same day finds no new twin. */
  lemma NoNewTwin(ipos: seq<Ipo>, order: seq<nat>, env: Env, today: int, i: nat)
    requires Query(ipos, order) && i < |ipos|
    ensures ListedTwin(Reconciled(ipos, order, env, today), i, env) ==> ListedTwin(ipos, i, env)
  {
    var ys := Reconciled(ipos, order, env, today);
    AfterPass(ipos, order, env, today, i);
    hide Classified, Reconciled, Query, India;
    if ListedTwin(ys, i, env) {
      var c := env.canonical(ys[i].Name());
      var j: nat :| j < |ys| && India(ys[j]) && Lists(Classified(ys[j], env), c, env);
      AfterPass(ipos, order, env, today, j);
      ClassifiedStays(ys[j], env);
      assert Lists(ys[j], c, env);
      TwinBefore(ipos, order, env, today, i, j);
    }
  }

  lemma SameDayStatus(ipos: seq<Ipo>, order: seq<nat>, env: Env, today: int, i: nat)
    requires Query(ipos, order) && i < |ipos|
    ensures var ys := Reconciled(ipos, order, env, today);
      FinalStatus(ys, i, env, today) == ys[i].Status()
  {
    hide Classified, Reconciled, ListedTwin;
    var ys := Reconciled(ipos, order, env, today);
    AfterPass(ipos, order, env, today, i);
    ReconciledStatus(ipos, order, env, today, i);
    NoNewTwin(ipos, order, env, today, i);
    ClassifiedStays(ipos[i], env);
    ClassifiedStays(ys[i], env);
  }

  /** Running the pass again on the same day, reading the rows in any order, changes no status,
      and changes nothing else either on rows whose name is not a report artifact. */
  lemma ReconcileIdempotent(ipos: seq<Ipo>, o1: seq<nat>, o2: seq<nat>, env: Env, today: int, i: nat)
    requires Query(ipos, o1) && i < |ipos|
    requires Query(Reconciled(ipos, o1, env, today), o2)
    ensures var ys := Reconciled(ipos, o1, env, today);
      var zs := Reconciled(ys, o2, env, today);
      zs[i].Status() == ys[i].Status() && (!env.artifact(ys[i].Name()) ==> zs[i] == ys[i])
  {
    var ys := Reconciled(ipos, o1, env, today);
    SameDayStatus(ipos, o1, env, today, i);
    ReconciledStatus(ys, o2, env, today, i);
    AfterPass(ipos, o1, env, today, i);
    Pointwise(ys, o2, env, today);
    hide Classified, Reconciled, First, ListedTwin, Query, ListedLike, SetStatus;
    var one := First(ys, map[], o2, env);
    if India(ys[i]) && !env.artifact(ys[i].Name()) {
      assert one.0[i] == ys[i];
      if Pending(ys[i].Status()) {
        var c := env.canonical(ys[i].Name());
        assert c !in one.1;
      }
    }
  }
}
