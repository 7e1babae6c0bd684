/**
 What reconcile_lifecycle leaves of each row, in terms of the rows before it.
 */
module ReconciledRows {
  import opened Options
  import opened Lifecycle
  import opened Reconcile

  /** The name is a report artifact, or the report states an issue type that is no IPO. */
  ghost predicate NoOffering(x: Ipo, env: Env) {
    env.artifact(x.Name()) || (Typed(x, env) && TypeOf(x, env).None?)
  }

  /** An India row, Listed and an offering, of the same canonical name as x. */
  ghost predicate Twin(ipos: seq<Ipo>, x: Ipo, j: nat, env: Env) {
    && j < |ipos| && India(ipos[j]) && ipos[j].Status() == "Listed" && !NoOffering(ipos[j], env)
    && env.canonical(ipos[j].Name()) == env.canonical(x.Name()) && env.canonical(x.Name()) != ""
  }

  ghost predicate HasTwin(ipos: seq<Ipo>, x: Ipo, env: Env) {
    exists j: nat :: Twin(ipos, x, j, env)
  }

  /** The offer closed before today. */
  ghost predicate OfferClosed(x: Ipo, env: Env, today: int) {
    var close := env.day(AsText(x.Field(CloseDate)));
    close.Some? && close.value < today
  }

  lemma FirstStatus(x: Ipo, env: Env)
    ensures Classified(x, env).Status() == if NoOffering(x, env) then "Not IPO" else x.Status()
  {
    hide Typed, TypeOf, Refreshed, SetStatus, Get, AsText, Write;
    if Typed(x, env) && TypeOf(x, env).Some? {
      RefreshedKeeps(x, TypeOf(x, env).value, env);
    }
    BoardKeeps(x);
  }

  lemma BoardKeeps(x: Ipo)
    ensures Write(x, Board, Str("Mainboard")).Status() == x.Status()
  {
  }

  lemma TwinIff(ipos: seq<Ipo>, i: nat, env: Env)
    requires i < |ipos|
    ensures ListedTwin(ipos, i, env) <==> HasTwin(ipos, ipos[i], env)
  {
    var c := env.canonical(ipos[i].Name());
    forall j: nat | j < |ipos|
      ensures India(ipos[j]) && Lists(Classified(ipos[j], env), c, env) <==> Twin(ipos, ipos[i], j, env)
    {
      FirstStatus(ipos[j], env);
      ClassifiedStays(ipos[j], env);
      hide Classified, NoOffering, SameIssue;
    }
    hide Twin, Lists, Classified;
    if ListedTwin(ipos, i, env) {
      var j: nat :| j < |ipos| && India(ipos[j]) && Lists(Classified(ipos[j], env), c, env);
      assert Twin(ipos, ipos[i], j, env);
    }
    if HasTwin(ipos, ipos[i], env) {
      var j: nat :| Twin(ipos, ipos[i], j, env);
      TwinBound(ipos, ipos[i], j, env);
    }
  }

  lemma TwinBound(ipos: seq<Ipo>, x: Ipo, j: nat, env: Env)
    requires Twin(ipos, x, j, env)
    ensures j < |ipos|
  {
  }

  /**
   The status of an India row after the pass: Not IPO when it is no offering; Listed when it was
   Open, Upcoming or Closed and has a Listed twin; Closed when its offer closed before today; and
   otherwise what it was. Rows of other countries keep theirs.
   */
  lemma ReconciledLaw(ipos: seq<Ipo>, order: seq<nat>, env: Env, today: int, i: nat)
    requires Query(ipos, order) && i < |ipos|
    ensures var x := ipos[i];
      var waits := x.Status() == "Open" || x.Status() == "Upcoming" || x.Status() == "Closed";
      Reconciled(ipos, order, env, today)[i].Status()
      == if !India(x) then x.Status()
         else if NoOffering(x, env) then "Not IPO"
         else if waits && HasTwin(ipos, x, env) then "Listed"
         else if waits && OfferClosed(x, env, today) then "Closed"
         else x.Status()
  {
    ReconciledStatus(ipos, order, env, today, i);
    FirstStatus(ipos[i], env);
    TwinIff(ipos, i, env);
    SameClose(ipos[i], env, today);
    hide Reconciled, Classified, NoOffering, HasTwin, ListedTwin, OfferClosed, Overdue, Query, India, AsText, Get;
  }

  lemma SameClose(x: Ipo, env: Env, today: int)
    ensures Overdue(Classified(x, env), env, today) <==> OfferClosed(x, env, today)
  {
    hide Classified;
    ClassifiedStays(x, env);
  }

  // ------------------------------------------------------------- what a twin fills in

  /** The value, or the other one when it is blank. */
  function Else(v: Value, other: Value): Value {
    if Truthy(v) then v else if Truthy(other) then other else v
  }

  lemma Filled(x: Ipo, from: Ipo)
    ensures var y := ListedLike(x, from);
      && y.Field(ListingDate) == Else(x.Field(ListingDate), from.Field(ListingDate))
      && y.Field(FinalPrice) == (if x.Field(FinalPrice) == Null then from.Field(FinalPrice) else x.Field(FinalPrice))
      && y.Field(Isin) == Else(x.Field(Isin), from.Field(Isin))
  {
    hide Write, SetStatus, Get, Truthy, AsText;
    var a := SetStatus(x, "Listed");
    var b := Fill(a, ListingDate, from);
    var c := FillPrice(b, from);
    assert a.Field(ListingDate) == x.Field(ListingDate) && a.Field(FinalPrice) == x.Field(FinalPrice) && a.Field(Isin) == x.Field(Isin);
  }

  /** The map of listed names holds rows that were read. */
  lemma {:induction false} MapsRead(ipos: seq<Ipo>, m: map<string, nat>, order: seq<nat>, env: Env, c: string)
    requires Ids(ipos, order) && Reconcile.Names(ipos, m)
    ensures var after := First(ipos, m, order, env).1;
      c in after ==> after[c] in order || (c in m && after[c] == m[c])
    decreases order
  {
    hide Classified;
    if order != [] {
      var now := ipos[order[0] := Classified(ipos[order[0]], env)];
      MapsRead(now, Noted(now, m, order[0], env), order[1..], env, c);
    }
  }

  /** The row a waiting row is matched with is a twin of it, and another row. */
  lemma MatchIsTwin(ipos: seq<Ipo>, order: seq<nat>, env: Env, i: nat, j: nat)
    requires Query(ipos, order) && i < |ipos| && ipos[i].Status() != "Listed"
    requires var m, c := First(ipos, map[], order, env).1, env.canonical(ipos[i].Name()); c in m && m[c] == j
    ensures Twin(ipos, ipos[i], j, env) && j != i
    ensures First(ipos, map[], order, env).0[j] == Classified(ipos[j], env)
  {
    var one := First(ipos, map[], order, env);
    var c := env.canonical(ipos[i].Name());
    Pointwise(ipos, order, env, 0);
    MapsRead(ipos, map[], order, env, c);
    hide First, Classified, Reconciled, Matched, ListedTwin, India, NoOffering;
    assert Lists(one.0[j], c, env) && j in order;
    FirstStatus(ipos[j], env);
    ClassifiedStays(ipos[j], env);
  }

  /** A twin gives a waiting row the listing date and price it lacks, and takes away neither. */
  lemma TwinFills(ipos: seq<Ipo>, order: seq<nat>, env: Env, today: int, i: nat)
    requires Query(ipos, order) && i < |ipos| && India(ipos[i]) && !NoOffering(ipos[i], env) && HasTwin(ipos, ipos[i], env)
    requires ipos[i].Status() == "Open" || ipos[i].Status() == "Upcoming" || ipos[i].Status() == "Closed"
    ensures exists j: nat :: Twin(ipos, ipos[i], j, env) && FilledFrom(ipos[i], Reconciled(ipos, order, env, today)[i], ipos[j])
  {
    var one := First(ipos, map[], order, env);
    var c := env.canonical(ipos[i].Name());
    Pointwise(ipos, order, env, today);
    TwinIff(ipos, i, env);
    FirstStatus(ipos[i], env);
    ClassifiedStays(ipos[i], env);
    assert one.0[i].Name() == ipos[i].Name() && one.0[i].Status() == ipos[i].Status();
    hide Reconciled, First, ListedTwin, HasTwin, NoOffering, Query, Overdue, Get, AsText, Classified, Lists, India, Twin, ListedLike;
    var j := one.1[c];
    MatchIsTwin(ipos, order, env, i, j);
    Filled(one.0[i], one.0[j]);
    ListedLikeLists(one.0[i], one.0[j]);
    ClassifiedStays(ipos[j], env);
    assert FilledFrom(ipos[i], ListedLike(one.0[i], one.0[j]), ipos[j]);
  }

  ghost predicate FilledFrom(x: Ipo, y: Ipo, from: Ipo) {
    && y.Status() == "Listed" && y.Field(ListingDate) == Else(x.Field(ListingDate), from.Field(ListingDate))
    && y.Field(FinalPrice) == (if x.Field(FinalPrice) == Null then from.Field(FinalPrice) else x.Field(FinalPrice))
  }

  /** The map holds a row with a listing date for the name c. */
  ghost predicate HasDated(ipos: seq<Ipo>, m: map<string, nat>, c: string) {
    c in m && m[c] < |ipos| && Truthy(ipos[m[c]].Field(ListingDate))
  }

  lemma NotesDated(ipos: seq<Ipo>, m: map<string, nat>, i: nat, env: Env, c: string)
    requires i < |ipos| && Reconcile.Names(ipos, m)
    ensures HasDated(ipos, m, c) ==> HasDated(ipos, Noted(ipos, m, i, env), c)
    ensures Lists(ipos[i], c, env) && Truthy(ipos[i].Field(ListingDate)) ==> HasDated(ipos, Noted(ipos, m, i, env), c)
  {
    hide Get, Truthy, AsText;
  }

  lemma StaysDated(ipos: seq<Ipo>, m: map<string, nat>, i: nat, env: Env, c: string)
    requires i < |ipos| && HasDated(ipos, m, c)
    ensures HasDated(ipos[i := Classified(ipos[i], env)], m, c)
  {
    ClassifiedStays(ipos[i], env);
    hide Classified, Truthy, Get;
  }

  /** Once a dated row of the name is read, the map holds one; it prefers it to one without a date. */
  lemma {:induction false} PrefersDated(ipos: seq<Ipo>, m: map<string, nat>, order: seq<nat>, env: Env, c: string, j: nat)
    requires Ids(ipos, order) && Reconcile.Names(ipos, m) && j < |ipos| && Once(order)
    requires HasDated(ipos, m, c) || (j in order && Lists(Classified(ipos[j], env), c, env) && Truthy(ipos[j].Field(ListingDate)))
    ensures HasDated(First(ipos, m, order, env).0, First(ipos, m, order, env).1, c)
    decreases order
  {
    hide Classified, Lists, HasDated, Noted, Truthy, Get;
    if order != [] {
      var i := order[0];
      var now := ipos[i := Classified(ipos[i], env)];
      NotesDated(now, m, i, env, c);
      if HasDated(ipos, m, c) {
        StaysDated(ipos, m, i, env, c);
      } else if i == j {
        ClassifiedStays(ipos[j], env);
      }
      PrefersDated(now, Noted(now, m, i, env), order[1..], env, c, j);
    }
  }

  lemma TwinNoted(ipos: seq<Ipo>, order: seq<nat>, env: Env, x: Ipo, j: nat)
    requires Query(ipos, order) && Twin(ipos, x, j, env) && Truthy(ipos[j].Field(ListingDate))
    ensures HasDated(First(ipos, map[], order, env).0, First(ipos, map[], order, env).1, env.canonical(x.Name()))
  {
    FirstStatus(ipos[j], env);
    ClassifiedStays(ipos[j], env);
    assert j in order;
    hide Classified, First, NoOffering, Truthy, Get, HasDated;
    PrefersDated(ipos, map[], order, env, env.canonical(x.Name()), j);
  }

  /** A waiting row with a dated twin has a listing date after the pass. */
  lemma TwinDates(ipos: seq<Ipo>, order: seq<nat>, env: Env, today: int, i: nat, j: nat)
    requires Query(ipos, order) && i < |ipos| && India(ipos[i]) && !NoOffering(ipos[i], env)
    requires ipos[i].Status() == "Open" || ipos[i].Status() == "Upcoming" || ipos[i].Status() == "Closed"
    requires Twin(ipos, ipos[i], j, env) && Truthy(ipos[j].Field(ListingDate))
    ensures Truthy(Reconciled(ipos, order, env, today)[i].Field(ListingDate))
  {
    hide NoOffering, Truthy, Get, AsText, Classified, Lists, Twin, India, Once, Ids;
    TwinNoted(ipos, order, env, ipos[i], j);
    Pointwise(ipos, order, env, today);
    hide First, Reconciled, ListedTwin;
    var one := First(ipos, map[], order, env);
    FirstStatus(ipos[i], env);
    ClassifiedStays(ipos[i], env);
    hide Query, ListedLike, Overdue, MapsListed;
    MatchIsTwin(ipos, order, env, i, one.1[env.canonical(ipos[i].Name())]);
    Filled(one.0[i], one.0[one.1[env.canonical(ipos[i].Name())]]);
  }
}
