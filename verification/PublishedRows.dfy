/**
 What is published, and what is not, in terms of the columns of the rows: the statuses, the days
 since filing and close, and which of two rows of one issuer gives way.
 */
module PublishedRows {
  import opened Options
  import opened Publish

  /** r gives way to s: s holds more, or as much and alone has a symbol, or is as complete and older. */
  ghost predicate GivesWay(r: Row, s: Row) {
    || s.filled > r.filled
    || (s.filled == r.filled && s.symbol != "" && r.symbol == "")
    || (s.filled == r.filled && ((s.symbol == "") == (r.symbol == "")) && s.id < r.id)
  }

  /** Of two rows with different ids exactly one gives way. */
  lemma OneGivesWay(r: Row, s: Row)
    requires r.id != s.id
    ensures GivesWay(r, s) <==> !GivesWay(s, r)
    ensures Before(r, s) <==> !GivesWay(r, s)
  {
  }

  /** Active and not left out: no marked non-IPO, no United States filing older than a year, no India
      issue closed more than 45 days ago. */
  ghost predicate Fresh(r: Row, now: int) {
    && (r.status == Filed || r.status == Upcoming || r.status == Open || r.status == Closed || r.status == Priced)
    && !r.nonIpoFlag
    && !(r.country == "United States" && r.status == Filed && r.filingDay.Some? && now > r.filingDay.value + 365)
    && !(r.country == "India" && r.status == Closed && r.closeDay.Some? && now > r.closeDay.value + 45)
  }

  ghost predicate Dated(r: Row) {
    r.status == Listed && r.listingDay.Some?
  }

  ghost predicate Recent(r: Row, now: int, cutoff: int) {
    Dated(r) && cutoff <= r.listingDay.value <= now
  }

  /** The list a row is sorted into, by its columns. */
  lemma BucketIs(r: Row, now: int, cutoff: int)
    ensures BucketOf(r, now, cutoff) == ToUpcoming <==> Fresh(r, now)
    ensures BucketOf(r, now, cutoff) == ToHistoryIn <==> Recent(r, now, cutoff)
    ensures BucketOf(r, now, cutoff) == ToHistoryOut <==> Dated(r) && !Recent(r, now, cutoff)
    ensures BucketOf(r, now, cutoff) == ToUnparseable <==> r.status == Listed && r.listingDay.None?
    ensures BucketOf(r, now, cutoff) == ToWithdrawn <==> r.status == Withdrawn
  {
  }

  ghost predicate SameIssuer(r: Row, s: Row, canon: string -> string) {
    r.country == s.country && canon(r.company) == canon(s.company) != ""
  }

  lemma DistinctIds(rows: seq<Row>, r: Row, s: Row)
    requires UniqueIds(rows) && r in rows && s in rows && r != s
    ensures r.id != s.id
  {
    if r.id == s.id {
      SameId(rows, r, s);
    }
  }

  /** A row is in the published history exactly when it is Listed, within the window, and gives way
      to no other such row of its issuer. */
  lemma HistoryLaw(rows: seq<Row>, now: int, cutoff: int, canon: string -> string, r: Row)
    requires UniqueIds(rows) && r in rows
    ensures r in Classified(rows, now, cutoff, canon).historyIn
      <==> Recent(r, now, cutoff)
           && forall s | s in rows && s != r && Recent(s, now, cutoff) && SameIssuer(r, s, canon) :: !GivesWay(r, s)
  {
    HistoryIff(rows, now, cutoff, canon, r);
    BucketIs(r, now, cutoff);
    hide Classified, BucketOf, Recent;
    if Recent(r, now, cutoff) {
      FirstLaw(rows, now, cutoff, canon, r);
      forall s ensures BucketOf(s, now, cutoff) == ToHistoryIn <==> Recent(s, now, cutoff) {
        BucketIs(s, now, cutoff);
      }
      hide SameIssuer, GivesWay, UniqueIds, FirstOfIssuer;
    }
  }

  lemma FirstLaw(rows: seq<Row>, now: int, cutoff: int, canon: string -> string, r: Row)
    requires UniqueIds(rows) && r in rows
    ensures FirstOfIssuer(rows, r, now, cutoff, canon)
      <==> forall s | s in rows && s != r && BucketOf(s, now, cutoff) == BucketOf(r, now, cutoff) && SameIssuer(r, s, canon) :: !GivesWay(r, s)
  {
    hide BucketOf;
    forall s | s in rows && s != r ensures Before(r, s) <==> !GivesWay(r, s) {
      DistinctIds(rows, r, s);
      OneGivesWay(r, s);
    }
    BeforeOrder(r, r, r);
    hide Before, GivesWay, UniqueIds;
    if canon(r.company) != "" {
      forall s ensures KeyOf(s, canon) == KeyOf(r, canon) <==> SameIssuer(r, s, canon) {
      }
    }
  }

  /** A row is published as upcoming exactly when it is fresh, no dated Listed row has its country and
      name, and it gives way to no other fresh row of its issuer. */
  lemma UpcomingLaw(rows: seq<Row>, now: int, cutoff: int, canon: string -> string, r: Row)
    requires UniqueIds(rows) && r in rows
    ensures r in Classified(rows, now, cutoff, canon).upcoming
      <==> Fresh(r, now)
           && (forall s | s in rows && Dated(s) :: s.country != r.country || canon(s.company) != canon(r.company))
           && forall s | s in rows && s != r && Fresh(s, now) && SameIssuer(r, s, canon) :: !GivesWay(r, s)
  {
    UpcomingIff(rows, now, cutoff, canon, r);
    FirstLaw(rows, now, cutoff, canon, r);
    forall s ensures BucketOf(s, now, cutoff) == ToUpcoming <==> Fresh(s, now)
      ensures HasListing(s, now, cutoff) <==> Dated(s)
    {
      BucketIs(s, now, cutoff);
    }
    hide Classified, BucketOf, Fresh, Dated, SameIssuer, GivesWay, UniqueIds, HasListing, FirstOfIssuer;
  }

  lemma {:induction false} OnlyIs(rows: seq<Row>, b: Bucket, now: int, cutoff: int, r: Row)
    ensures r in Only(rows, b, now, cutoff) <==> r in rows && BucketOf(r, now, cutoff) == b
  {
  }

  /** Nothing Listed or Withdrawn is left out without a list of its own. */
  lemma OtherLists(rows: seq<Row>, now: int, cutoff: int, canon: string -> string, r: Row)
    requires r in rows
    ensures var p := Classified(rows, now, cutoff, canon);
      && (r in p.withdrawn <==> r.status == Withdrawn)
      && (r in p.unparseable <==> r.status == Listed && r.listingDay.None?)
      && (r in p.historyOut <==> Dated(r) && !(cutoff <= r.listingDay.value <= now))
  {
    OnlyIs(rows, ToWithdrawn, now, cutoff, r);
    OnlyIs(rows, ToUnparseable, now, cutoff, r);
    OnlyIs(rows, ToHistoryOut, now, cutoff, r);
    BucketIs(r, now, cutoff);
    hide Only, BucketOf, Names, KeptOf, Grouped, DroppedOf, StillUpcoming, Replaced, Plain;
  }

  /** A row left out in favour of another names the row its issuer is published under. */
  lemma {:induction false} ReplacedNames(rows: seq<Row>, names: map<Key, Row>, canon: string -> string, e: Excluded)
    requires e in Replaced(rows, names, canon)
    ensures e.row in rows && KeyOf(e.row, canon) in names && e.because == Some(names[KeyOf(e.row, canon)].id)
  {
    if rows != [] {
      var n := |rows| - 1;
      assert rows == rows[..n] + [rows[n]];
      if e in Replaced(rows[..n], names, canon) {
        ReplacedNames(rows[..n], names, canon, e);
      }
    }
  }

  /** Of several Listed rows of one country and name, the last one read stands for them. */
  lemma {:induction false} NamesLast(listed: seq<Row>, canon: string -> string, i: nat)
    requires i < |listed| && forall j | i < j < |listed| :: KeyOf(listed[j], canon) != KeyOf(listed[i], canon)
    ensures var names := Names(listed, canon);
      KeyOf(listed[i], canon) in names && names[KeyOf(listed[i], canon)] == listed[i]
  {
    var n := |listed| - 1;
    NamesStep(listed, canon);
    hide Names, KeyOf;
    if i < n {
      NamesLast(listed[..n], canon, i);
    }
  }

  lemma NamesStep(listed: seq<Row>, canon: string -> string)
    requires listed != []
    ensures Names(listed, canon) == Names(listed[..|listed| - 1], canon)[KeyOf(listed[|listed| - 1], canon) := listed[|listed| - 1]]
  {
  }

  lemma {:induction false} BlameNames(rows: seq<Row>, keep: nat, e: Excluded)
    requires e in Blame(rows, keep)
    ensures e.because == Some(keep) && e.row in rows
  {
    if rows != [] {
      var n := |rows| - 1;
      assert rows == rows[..n] + [rows[n]];
      if e in Blame(rows[..n], keep) {
        BlameNames(rows[..n], keep, e);
      }
    }
  }

  lemma {:induction false} DroppedNames(groups: seq<Issuer>, e: Excluded)
    requires e in DroppedOf(groups)
    ensures exists g :: g in groups && e in DroppedIn(g)
  {
    hide DroppedIn;
    var n := |groups| - 1;
    assert groups == groups[..n] + [groups[n]];
    if e in DroppedOf(groups[..n]) {
      DroppedNames(groups[..n], e);
      var g :| g in groups[..n] && e in DroppedIn(g);
      assert g in groups;
    } else {
      assert groups[n] in groups && e in DroppedIn(groups[n]);
    }
  }

  ghost predicate Instead(rows: seq<Row>, e: Excluded, canon: string -> string, k: Row) {
    && e.row in rows && k in rows && KeyOf(k, canon) == KeyOf(e.row, canon) && canon(k.company) != ""
    && e.because == Some(k.id) && k in KeptOf(Grouped(rows, canon))
  }

  /** Whoever gives way to a duplicate is recorded against the row of its issuer that is kept. */
  lemma DroppedInstead(rows: seq<Row>, canon: string -> string, e: Excluded)
    requires e in DroppedOf(Grouped(rows, canon))
    ensures exists k :: Instead(rows, e, canon, k)
  {
    var groups := Grouped(rows, canon);
    DroppedNames(groups, e);
    var g :| g in groups && e in DroppedIn(g);
    GroupOf(rows, canon, g);
    SortedFirst(g.items);
    var k := Sorted(g.items)[0];
    BlameNames(Sorted(g.items)[1..], k.id, e);
    assert k in KeptIn(g);
    InKeptOf(groups, k);
    assert e.row in Sorted(g.items);
    assert e.row in multiset(Sorted(g.items)) && e.row in multiset(g.items);
    assert KeyOf(e.row, canon) == g.key && KeyOf(k, canon) == g.key;
    hide Grouped, KeptOf, Sorted, Blame, Best, Before;
    assert Instead(rows, e, canon, k);
  }

  lemma {:induction false} PlainNames(rows: seq<Row>, e: Excluded)
    requires e in Plain(rows)
    ensures e.because == None && e.row in rows
  {
    if rows != [] {
      var n := |rows| - 1;
      assert rows == rows[..n] + [rows[n]];
      if e in Plain(rows[..n]) {
        PlainNames(rows[..n], e);
      }
    }
  }

  /** k stands for the row left out: it has its country and name, and is Listed with a date or is
      itself published. */
  ghost predicate StandsFor(rows: seq<Row>, p: Partition, e: Excluded, canon: string -> string, k: Row) {
    && k in rows && e.because == Some(k.id) && KeyOf(k, canon) == KeyOf(e.row, canon)
    && (Dated(k) || k in p.upcoming || k in p.historyIn)
  }

  /** Why a row is left out: it is in no state to be shown, or the record names a row standing for it. */
  lemma ExcludedBecause(rows: seq<Row>, now: int, cutoff: int, canon: string -> string, e: Excluded)
    requires e in Classified(rows, now, cutoff, canon).excluded
    ensures e.row in rows
    ensures e.because.None? ==> !Fresh(e.row, now) && e.row.status != Listed && e.row.status != Withdrawn
    ensures e.because.Some? ==> exists k :: StandsFor(rows, Classified(rows, now, cutoff, canon), e, canon, k)
  {
    var p := Classified(rows, now, cutoff, canon);
    var names := Names(ListedRows(rows, now, cutoff), canon);
    var active, hist := Only(rows, ToUpcoming, now, cutoff), Only(rows, ToHistoryIn, now, cutoff);
    var up := StillUpcoming(active, names, canon);
    BucketIs(e.row, now, cutoff);
    if e in Plain(Only(rows, ToExcluded, now, cutoff)) {
      PlainNames(Only(rows, ToExcluded, now, cutoff), e);
    } else if e in Replaced(active, names, canon) {
      ReplacedNames(active, names, canon, e);
      var k := names[KeyOf(e.row, canon)];
      BucketIs(k, now, cutoff);
      assert StandsFor(rows, p, e, canon, k);
    } else if e in DroppedOf(Grouped(up, canon)) {
      DroppedInstead(up, canon, e);
      var k :| Instead(up, e, canon, k);
      assert StandsFor(rows, p, e, canon, k);
    } else {
      DroppedInstead(hist, canon, e);
      var k :| Instead(hist, e, canon, k);
      assert StandsFor(rows, p, e, canon, k);
    }
  }
}
