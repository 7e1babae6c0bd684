/**
 The publish-time partition of scripts/build_pages.py: which bucket each IPO row lands in,
 which duplicate of an issuer is kept, and the page slug of every published row.
 Dates are days; `canon` and `base` stand for canonical_name and slugify.
 */
module Publish {
  import opened Options
  import opened Grouping

  const US_STALE_FILING_DAYS := 365
  const INDIA_LISTING_GRACE_DAYS := 45

  datatype Status = Filed | Upcoming | Open | Closed | Priced | Listed | Withdrawn | NotIpo | Unrecognised

  /** The columns the build reads; `filled` counts the seven completeness columns that hold a value. */
  datatype Row = Row(
    id: nat, company: string, country: string, status: Status, nonIpoFlag: bool, symbol: string, filled: nat,
    externalKey: string, filingDay: Option<int>, closeDay: Option<int>, listingDay: Option<int>)

  datatype Bucket = ToUpcoming | ToWithdrawn | ToHistoryIn | ToHistoryOut | ToUnparseable | ToExcluded

  /** upcoming_exclusion_reason is not None. */
  predicate Stale(r: Row, now: int) {
    || r.nonIpoFlag
    || (r.country == "United States" && r.status == Filed && r.filingDay.Some? && now - r.filingDay.value > US_STALE_FILING_DAYS)
    || (r.country == "India" && r.status == Closed && r.closeDay.Some? && now - r.closeDay.value > INDIA_LISTING_GRACE_DAYS)
  }

  predicate Active(s: Status) {
    s == Filed || s == Upcoming || s == Open || s == Closed || s == Priced
  }

  function BucketOf(r: Row, now: int, cutoff: int): Bucket {
    if Active(r.status) then (if Stale(r, now) then ToExcluded else ToUpcoming)
    else if r.status == Withdrawn then ToWithdrawn
    else if r.status == Listed then
      if r.listingDay.None? then ToUnparseable
      else if cutoff <= r.listingDay.value <= now then ToHistoryIn
      else ToHistoryOut
    else ToExcluded
  }

  function Only(rows: seq<Row>, b: Bucket, now: int, cutoff: int): (r: seq<Row>)
    ensures forall x :: x in r <==> x in rows && BucketOf(x, now, cutoff) == b
  {
    if rows == [] then []
    else
      var n := |rows| - 1;
      assert rows == rows[..n] + [rows[n]];
      Only(rows[..n], b, now, cutoff) + if BucketOf(rows[n], now, cutoff) == b then [rows[n]] else []
  }

  /** A row left out, and the record that replaces it when there is one. */
  datatype Excluded = Excluded(row: Row, because: Option<nat>)

  function RowsOf(es: seq<Excluded>): (r: seq<Row>)
    ensures |r| == |es|
  {
    if es == [] then [] else RowsOf(es[..|es| - 1]) + [es[|es| - 1].row]
  }

  // ------------------------------------------------------------- issuer groups

  datatype Key = Key(country: string, name: string)

  function KeyOf(r: Row, canon: string -> string): Key {
    Key(r.country, canon(r.company))
  }

  type Issuer = Group<Key, Row>

  function Grouped(rows: seq<Row>, canon: string -> string): seq<Issuer> {
    if rows == [] then []
    else
      var n := |rows| - 1;
      Add(Grouped(rows[..n], canon), KeyOf(rows[n], canon), rows[n])
  }

  /** _completeness: more data first, then rows with a symbol, then the lowest id. */
  predicate Before(a: Row, b: Row) {
    || a.filled > b.filled
    || (a.filled == b.filled && a.symbol != "" && b.symbol == "")
    || (a.filled == b.filled && (a.symbol == "" <==> b.symbol == "") && a.id <= b.id)
  }

  function Insert(r: Row, rows: seq<Row>): (s: seq<Row>)
    ensures multiset(s) == multiset(rows) + multiset{r}
  {
    if rows == [] || Before(r, rows[0]) then [r] + rows
    else
      assert rows == [rows[0]] + rows[1..];
      [rows[0]] + Insert(r, rows[1..])
  }

  function Sorted(rows: seq<Row>): (s: seq<Row>)
    ensures multiset(s) == multiset(rows) && |s| == |rows|
  {
    if rows == [] then []
    else
      assert rows == [rows[0]] + rows[1..];
      var s := Insert(rows[0], Sorted(rows[1..]));
      assert |s| == |multiset(s)|;
      s
  }

  /** A group whose members are all kept. */
  predicate Whole(g: Issuer) {
    |g.items| <= 1 || g.key.name == ""
  }

  function KeptIn(g: Issuer): seq<Row> {
    if Whole(g) then g.items else [Sorted(g.items)[0]]
  }

  function DroppedIn(g: Issuer): seq<Excluded> {
    if Whole(g) then [] else Blame(Sorted(g.items)[1..], Sorted(g.items)[0].id)
  }

  function Blame(rows: seq<Row>, keep: nat): (r: seq<Excluded>)
    ensures RowsOf(r) == rows && forall e | e in r :: e.because == Some(keep)
  {
    if rows == [] then []
    else
      var n := |rows| - 1;
      var r := Blame(rows[..n], keep) + [Excluded(rows[n], Some(keep))];
      assert r[..|r| - 1] == Blame(rows[..n], keep);
      r
  }

  function KeptOf(groups: seq<Issuer>): seq<Row> {
    if groups == [] then [] else KeptOf(groups[..|groups| - 1]) + KeptIn(groups[|groups| - 1])
  }

  function DroppedOf(groups: seq<Issuer>): seq<Excluded> {
    if groups == [] then [] else DroppedOf(groups[..|groups| - 1]) + DroppedIn(groups[|groups| - 1])
  }

  /** dedupe_by_issuer */
  method DedupeByIssuer(rows: seq<Row>, canon: string -> string) returns (kept: seq<Row>, dropped: seq<Excluded>)
    ensures kept == KeptOf(Grouped(rows, canon)) && dropped == DroppedOf(Grouped(rows, canon))
  {
    var groups: seq<Issuer> := [];
    for i := 0 to |rows|
      invariant groups == Grouped(rows[..i], canon)
    {
      assert rows[..i + 1][..i] == rows[..i];
      groups := Add(groups, KeyOf(rows[i], canon), rows[i]);
    }
    assert rows[..|rows|] == rows;
    kept, dropped := KeepFirst(groups);
  }

  /** The loop over the groups. */
  method KeepFirst(groups: seq<Issuer>) returns (kept: seq<Row>, dropped: seq<Excluded>)
    ensures kept == KeptOf(groups) && dropped == DroppedOf(groups)
  {
    hide Sorted, Blame;
    kept, dropped := [], [];
    for i := 0 to |groups|
      invariant kept == KeptOf(groups[..i]) && dropped == DroppedOf(groups[..i])
    {
      assert groups[..i + 1][..i] == groups[..i];
      var g := groups[i];
      if |g.items| <= 1 || g.key.name == "" {
        kept := kept + g.items;
      } else {
        var members := Sorted(g.items);
        kept := kept + [members[0]];
        dropped := dropped + Blame(members[1..], members[0].id);
      }
    }
    assert groups[..|groups|] == groups;
  }

  // ------------------------------------------------------------- classify

  datatype Partition = Partition(
    upcoming: seq<Row>, withdrawn: seq<Row>, historyIn: seq<Row>, historyOut: seq<Row>, unparseable: seq<Row>,
    excluded: seq<Excluded>)

  function ListedRows(rows: seq<Row>, now: int, cutoff: int): seq<Row> {
    Only(rows, ToHistoryIn, now, cutoff) + Only(rows, ToHistoryOut, now, cutoff)
  }

  /** listed_names: the last Listed row of each key. */
  function Names(listed: seq<Row>, canon: string -> string): (m: map<Key, Row>)
    ensures forall k :: k in m ==> m[k] in listed && KeyOf(m[k], canon) == k
    ensures forall r | r in listed :: KeyOf(r, canon) in m
  {
    if listed == [] then map[]
    else
      var n := |listed| - 1;
      assert listed == listed[..n] + [listed[n]];
      Names(listed[..n], canon)[KeyOf(listed[n], canon) := listed[n]]
  }

  predicate Superseded(r: Row, names: map<Key, Row>, canon: string -> string) {
    KeyOf(r, canon) in names && names[KeyOf(r, canon)].id != r.id
  }

  function StillUpcoming(rows: seq<Row>, names: map<Key, Row>, canon: string -> string): (s: seq<Row>)
    ensures forall r :: r in s <==> r in rows && !Superseded(r, names, canon)
  {
    if rows == [] then []
    else
      var n := |rows| - 1;
      assert rows == rows[..n] + [rows[n]];
      StillUpcoming(rows[..n], names, canon) + if Superseded(rows[n], names, canon) then [] else [rows[n]]
  }

  function Replaced(rows: seq<Row>, names: map<Key, Row>, canon: string -> string): seq<Excluded> {
    if rows == [] then []
    else
      var n := |rows| - 1;
      Replaced(rows[..n], names, canon)
        + if Superseded(rows[n], names, canon) then [Excluded(rows[n], Some(names[KeyOf(rows[n], canon)].id))] else []
  }

  function Plain(rows: seq<Row>): (r: seq<Excluded>)
    ensures RowsOf(r) == rows
  {
    if rows == [] then []
    else
      var n := |rows| - 1;
      var r := Plain(rows[..n]) + [Excluded(rows[n], None)];
      assert r[..|r| - 1] == Plain(rows[..n]);
      r
  }

  function Classified(rows: seq<Row>, now: int, cutoff: int, canon: string -> string): Partition {
    var names := Names(ListedRows(rows, now, cutoff), canon);
    var active := Only(rows, ToUpcoming, now, cutoff);
    var up := Grouped(StillUpcoming(active, names, canon), canon);
    var hist := Grouped(Only(rows, ToHistoryIn, now, cutoff), canon);
    Partition(
      KeptOf(up), Only(rows, ToWithdrawn, now, cutoff), KeptOf(hist), Only(rows, ToHistoryOut, now, cutoff),
      Only(rows, ToUnparseable, now, cutoff),
      Plain(Only(rows, ToExcluded, now, cutoff)) + Replaced(active, names, canon) + (DroppedOf(up) + DroppedOf(hist)))
  }

  /** classify */
  method Classify(rows: seq<Row>, now: int, cutoff: int, canon: string -> string) returns (p: Partition)
    ensures p == Classified(rows, now, cutoff, canon)
  {
    var q := Sweep(rows, now, cutoff);
    var names := Names(q.historyIn + q.historyOut, canon);
    var still, replaced := Supersede(q.upcoming, names, canon);
    var keptUp, droppedUp := DedupeByIssuer(still, canon);
    var keptHist, droppedHist := DedupeByIssuer(q.historyIn, canon);
    p := Partition(keptUp, q.withdrawn, keptHist, q.historyOut, q.unparseable, q.excluded + replaced + (droppedUp + droppedHist));
  }

  function Swept(rows: seq<Row>, now: int, cutoff: int): Partition {
    Partition(
      Only(rows, ToUpcoming, now, cutoff), Only(rows, ToWithdrawn, now, cutoff), Only(rows, ToHistoryIn, now, cutoff),
      Only(rows, ToHistoryOut, now, cutoff), Only(rows, ToUnparseable, now, cutoff), Plain(Only(rows, ToExcluded, now, cutoff)))
  }

  /** The first loop: every row into its bucket. */
  method Sweep(rows: seq<Row>, now: int, cutoff: int) returns (p: Partition)
    ensures p == Swept(rows, now, cutoff)
  {
    hide BucketOf, Swept;
    p := Partition([], [], [], [], [], []);
    SweptNone(now, cutoff);
    for i := 0 to |rows|
      invariant p == Swept(rows[..i], now, cutoff)
    {
      SweptNext(rows, i, now, cutoff);
      match BucketOf(rows[i], now, cutoff) {
        case ToUpcoming => p := p.(upcoming := p.upcoming + [rows[i]]);
        case ToWithdrawn => p := p.(withdrawn := p.withdrawn + [rows[i]]);
        case ToHistoryIn => p := p.(historyIn := p.historyIn + [rows[i]]);
        case ToHistoryOut => p := p.(historyOut := p.historyOut + [rows[i]]);
        case ToUnparseable => p := p.(unparseable := p.unparseable + [rows[i]]);
        case ToExcluded => p := p.(excluded := p.excluded + [Excluded(rows[i], None)]);
      }
    }
    assert rows[..|rows|] == rows;
  }

  /** The second loop: active rows whose issuer has a Listed record are left out. */
  method Supersede(active: seq<Row>, names: map<Key, Row>, canon: string -> string)
    returns (still: seq<Row>, replaced: seq<Excluded>)
    ensures still == StillUpcoming(active, names, canon) && replaced == Replaced(active, names, canon)
  {
    still, replaced := [], [];
    for i := 0 to |active|
      invariant still == StillUpcoming(active[..i], names, canon)
      invariant replaced == Replaced(active[..i], names, canon)
    {
      assert active[..i + 1][..i] == active[..i];
      var key := KeyOf(active[i], canon);
      if key in names && names[key].id != active[i].id {
        replaced := replaced + [Excluded(active[i], Some(names[key].id))];
      } else {
        still := still + [active[i]];
      }
    }
    assert active[..|active|] == active;
  }

  function PutIn(p: Partition, r: Row, b: Bucket): Partition {
    match b
    case ToUpcoming => p.(upcoming := p.upcoming + [r])
    case ToWithdrawn => p.(withdrawn := p.withdrawn + [r])
    case ToHistoryIn => p.(historyIn := p.historyIn + [r])
    case ToHistoryOut => p.(historyOut := p.historyOut + [r])
    case ToUnparseable => p.(unparseable := p.unparseable + [r])
    case ToExcluded => p.(excluded := p.excluded + [Excluded(r, None)])
  }

  lemma SweptNone(now: int, cutoff: int)
    ensures Swept([], now, cutoff) == Partition([], [], [], [], [], [])
  {
  }

  lemma SweptNext(rows: seq<Row>, i: nat, now: int, cutoff: int)
    requires i < |rows|
    ensures Swept(rows[..i + 1], now, cutoff) == PutIn(Swept(rows[..i], now, cutoff), rows[i], BucketOf(rows[i], now, cutoff))
  {
    hide Only, Plain, BucketOf;
    PlainNext(Only(rows[..i], ToExcluded, now, cutoff), rows[i]);
    OnlyNext(rows, i, ToUpcoming, now, cutoff);
    OnlyNext(rows, i, ToWithdrawn, now, cutoff);
    OnlyNext(rows, i, ToHistoryIn, now, cutoff);
    OnlyNext(rows, i, ToHistoryOut, now, cutoff);
    OnlyNext(rows, i, ToUnparseable, now, cutoff);
    OnlyNext(rows, i, ToExcluded, now, cutoff);
  }

  lemma OnlyNext(rows: seq<Row>, i: nat, b: Bucket, now: int, cutoff: int)
    requires i < |rows|
    ensures BucketOf(rows[i], now, cutoff) == b ==> Only(rows[..i + 1], b, now, cutoff) == Only(rows[..i], b, now, cutoff) + [rows[i]]
    ensures BucketOf(rows[i], now, cutoff) != b ==> Only(rows[..i + 1], b, now, cutoff) == Only(rows[..i], b, now, cutoff)
  {
    assert rows[..i + 1][..i] == rows[..i];
  }

  lemma PlainNext(rows: seq<Row>, r: Row)
    ensures Plain(rows + [r]) == Plain(rows) + [Excluded(r, None)]
  {
    assert (rows + [r])[..|rows|] == rows;
  }

  // ------------------------------------------------------------- nothing lost

  function Members(groups: seq<Issuer>): multiset<Row> {
    if groups == [] then multiset{} else multiset(groups[0].items) + Members(groups[1..])
  }

  lemma {:induction false} AddToMembers(groups: seq<Issuer>, key: Key, r: Row)
    ensures Members(Add(groups, key, r)) == Members(groups) + multiset{r}
  {
    if groups == [] {
      assert multiset([r]) == multiset{r};
    } else if groups[0].key == key {
      assert multiset(groups[0].items + [r]) == multiset(groups[0].items) + multiset{r};
    } else {
      AddToMembers(groups[1..], key, r);
    }
  }

  lemma {:induction false} GroupedMembers(rows: seq<Row>, canon: string -> string)
    ensures Members(Grouped(rows, canon)) == multiset(rows)
  {
    if rows != [] {
      var n := |rows| - 1;
      GroupedMembers(rows[..n], canon);
      AddToMembers(Grouped(rows[..n], canon), KeyOf(rows[n], canon), rows[n]);
      assert rows == rows[..n] + [rows[n]];
    }
  }

  lemma {:induction false} MembersSnoc(groups: seq<Issuer>, g: Issuer)
    ensures Members(groups + [g]) == Members(groups) + multiset(g.items)
  {
    if groups == [] {
      assert groups + [g] == [g];
      assert Members([g]) == multiset(g.items) + Members([]);
    } else {
      assert (groups + [g])[1..] == groups[1..] + [g];
      MembersSnoc(groups[1..], g);
    }
  }

  lemma {:induction false} RowsOfConcat(a: seq<Excluded>, b: seq<Excluded>)
    ensures RowsOf(a + b) == RowsOf(a) + RowsOf(b)
  {
    if b == [] {
      assert a + b == a;
    } else {
      assert (a + b)[..|a + b| - 1] == a + b[..|b| - 1];
      RowsOfConcat(a, b[..|b| - 1]);
    }
  }

  lemma GroupSplits(g: Issuer, x: Row)
    ensures Occurrences(KeptIn(g), x) + Occurrences(RowsOf(DroppedIn(g)), x) == multiset(g.items)[x]
  {
    if !Whole(g) {
      var s := Sorted(g.items);
      assert s == [s[0]] + s[1..];
    }
  }

  /** How often x occurs. */
  function Occurrences(rows: seq<Row>, x: Row): nat {
    multiset(rows)[x]
  }

  lemma TimesConcat(a: seq<Row>, b: seq<Row>, x: Row)
    ensures Occurrences(a + b, x) == Occurrences(a, x) + Occurrences(b, x)
  {
  }

  lemma TimesOne(r: Row, x: Row)
    ensures Occurrences([], x) == 0 && Occurrences([r], x) == if r == x then 1 else 0
  {
  }

  lemma DedupeSnoc(groups: seq<Issuer>, x: Row)
    requires groups != []
    ensures var n := |groups| - 1;
      && Occurrences(KeptOf(groups), x) == Occurrences(KeptOf(groups[..n]), x) + Occurrences(KeptIn(groups[n]), x)
      && Occurrences(RowsOf(DroppedOf(groups)), x) == Occurrences(RowsOf(DroppedOf(groups[..n])), x) + Occurrences(RowsOf(DroppedIn(groups[n])), x)
  {
    hide Occurrences, KeptIn, DroppedIn, RowsOf;
    var n := |groups| - 1;
    var g := groups[n];
    RowsOfConcat(DroppedOf(groups[..n]), DroppedIn(g));
    TimesConcat(KeptOf(groups[..n]), KeptIn(g), x);
    TimesConcat(RowsOf(DroppedOf(groups[..n])), RowsOf(DroppedIn(g)), x);
  }

  lemma DedupeNone(x: Row)
    ensures Occurrences(KeptOf([]), x) == 0 && Occurrences(RowsOf(DroppedOf([])), x) == 0 && Members([])[x] == 0
  {
  }

  lemma {:induction false} DedupeConserves(groups: seq<Issuer>, x: Row)
    ensures Occurrences(KeptOf(groups), x) + Occurrences(RowsOf(DroppedOf(groups)), x) == Members(groups)[x]
  {
    hide KeptIn, KeptOf, DroppedIn, DroppedOf, Members, Occurrences, RowsOf;
    if groups == [] {
      DedupeNone(x);
    } else {
      var n := |groups| - 1;
      DedupeConserves(groups[..n], x);
      DedupeSnoc(groups, x);
      GroupSplits(groups[n], x);
      assert groups == groups[..n] + [groups[n]];
      MembersSnoc(groups[..n], groups[n]);
    }
  }

  lemma OnlyNone(now: int, cutoff: int, x: Row)
    ensures Occurrences([], x) == 0 && forall b: Bucket :: Only([], b, now, cutoff) == []
  {
  }

  lemma OnlyCount(rows: seq<Row>, b: Bucket, now: int, cutoff: int, x: Row)
    requires rows != []
    ensures var n := |rows| - 1;
      Occurrences(Only(rows, b, now, cutoff), x)
        == Occurrences(Only(rows[..n], b, now, cutoff), x) + if BucketOf(rows[n], now, cutoff) == b && rows[n] == x then 1 else 0
  {
    var n := |rows| - 1;
    TimesOne(rows[n], x);
    TimesConcat(Only(rows[..n], b, now, cutoff), if BucketOf(rows[n], now, cutoff) == b then [rows[n]] else [], x);
    hide BucketOf, Occurrences;
  }

  lemma {:induction false} SweepConserves(rows: seq<Row>, now: int, cutoff: int, x: Row)
    ensures Occurrences(Only(rows, ToUpcoming, now, cutoff), x) + Occurrences(Only(rows, ToWithdrawn, now, cutoff), x)
      + Occurrences(Only(rows, ToHistoryIn, now, cutoff), x) + Occurrences(Only(rows, ToHistoryOut, now, cutoff), x)
      + Occurrences(Only(rows, ToUnparseable, now, cutoff), x) + Occurrences(Only(rows, ToExcluded, now, cutoff), x) == Occurrences(rows, x)
  {
    hide BucketOf, Occurrences, Only;
    if rows == [] {
      OnlyNone(now, cutoff, x);
    } else {
      var n := |rows| - 1;
      SweepConserves(rows[..n], now, cutoff, x);
      OnlyCount(rows, ToUpcoming, now, cutoff, x);
      OnlyCount(rows, ToWithdrawn, now, cutoff, x);
      OnlyCount(rows, ToHistoryIn, now, cutoff, x);
      OnlyCount(rows, ToHistoryOut, now, cutoff, x);
      OnlyCount(rows, ToUnparseable, now, cutoff, x);
      OnlyCount(rows, ToExcluded, now, cutoff, x);
      TimesOne(rows[n], x);
      assert rows == rows[..n] + [rows[n]];
      TimesConcat(rows[..n], [rows[n]], x);
    }
  }

  lemma SupersedeSnoc(active: seq<Row>, names: map<Key, Row>, canon: string -> string, x: Row)
    requires active != []
    ensures var n := |active| - 1;
      Occurrences(StillUpcoming(active, names, canon), x) + Occurrences(RowsOf(Replaced(active, names, canon)), x)
        == Occurrences(StillUpcoming(active[..n], names, canon), x) + Occurrences(RowsOf(Replaced(active[..n], names, canon)), x)
             + if active[n] == x then 1 else 0
  {
    hide Superseded, Occurrences, RowsOf;
    var n := |active| - 1;
    var r := active[n];
    TimesOne(r, x);
    if Superseded(r, names, canon) {
      IsSuperseded(r, names, canon);
      var e := Excluded(r, Some(names[KeyOf(r, canon)].id));
      RowsOfConcat(Replaced(active[..n], names, canon), [e]);
      RowsOfOne(r, [e]);
      TimesConcat(RowsOf(Replaced(active[..n], names, canon)), [r], x);
      assert StillUpcoming(active, names, canon) == StillUpcoming(active[..n], names, canon);
    } else {
      TimesConcat(StillUpcoming(active[..n], names, canon), [r], x);
      assert Replaced(active, names, canon) == Replaced(active[..n], names, canon);
    }
  }

  lemma SupersedeNone(names: map<Key, Row>, canon: string -> string, x: Row)
    ensures Occurrences([], x) == 0 && Occurrences(StillUpcoming([], names, canon), x) == 0 && Occurrences(RowsOf(Replaced([], names, canon)), x) == 0
  {
  }

  lemma {:induction false} SupersedeConserves(active: seq<Row>, names: map<Key, Row>, canon: string -> string, x: Row)
    ensures Occurrences(StillUpcoming(active, names, canon), x) + Occurrences(RowsOf(Replaced(active, names, canon)), x) == Occurrences(active, x)
  {
    hide StillUpcoming, Replaced, Occurrences, RowsOf;
    if active == [] {
      SupersedeNone(names, canon, x);
    } else {
      var n := |active| - 1;
      SupersedeConserves(active[..n], names, canon, x);
      SupersedeSnoc(active, names, canon, x);
      assert active == active[..n] + [active[n]];
      TimesOne(active[n], x);
      TimesConcat(active[..n], [active[n]], x);
    }
  }

  lemma IsSuperseded(r: Row, names: map<Key, Row>, canon: string -> string)
    requires Superseded(r, names, canon)
    ensures KeyOf(r, canon) in names
  {
  }

  lemma RowsOfOne(r: Row, e: seq<Excluded>)
    ensures |e| == 1 && e[0].row == r ==> RowsOf(e) == [r]
  {
  }

  /** Every row lands in exactly one of the six lists, as often as it was read. */
  lemma NothingLost(rows: seq<Row>, now: int, cutoff: int, canon: string -> string, x: Row)
    ensures var p := Classified(rows, now, cutoff, canon);
      Occurrences(p.upcoming, x) + Occurrences(p.withdrawn, x) + Occurrences(p.historyIn, x) + Occurrences(p.historyOut, x)
        + Occurrences(p.unparseable, x) + Occurrences(RowsOf(p.excluded), x) == Occurrences(rows, x)
  {
    var names := Names(ListedRows(rows, now, cutoff), canon);
    var active, hist := Only(rows, ToUpcoming, now, cutoff), Only(rows, ToHistoryIn, now, cutoff);
    var still := StillUpcoming(active, names, canon);
    var up, past := Grouped(still, canon), Grouped(hist, canon);
    var plain, replaced := Plain(Only(rows, ToExcluded, now, cutoff)), Replaced(active, names, canon);
    SweepConserves(rows, now, cutoff, x);
    SupersedeConserves(active, names, canon, x);
    GroupedMembers(still, canon);
    GroupedMembers(hist, canon);
    DedupeConserves(up, x);
    DedupeConserves(past, x);
    RowsOfConcat(plain, replaced);
    RowsOfConcat(DroppedOf(up), DroppedOf(past));
    RowsOfConcat(plain + replaced, DroppedOf(up) + DroppedOf(past));
    TimesConcat(RowsOf(plain), RowsOf(replaced), x);
    TimesConcat(RowsOf(DroppedOf(up)), RowsOf(DroppedOf(past)), x);
    TimesConcat(RowsOf(plain) + RowsOf(replaced), RowsOf(DroppedOf(up)) + RowsOf(DroppedOf(past)), x);
    assert Occurrences(still, x) == multiset(still)[x] && Occurrences(hist, x) == multiset(hist)[x];
    hide Occurrences, RowsOf, Only, Names, Grouped, KeptOf, DroppedOf, StillUpcoming, Replaced, Members;
  }

  // ------------------------------------------------------------- which duplicate is kept

  ghost predicate UniqueIds(rows: seq<Row>) {
    forall i, j | 0 <= i < j < |rows| :: rows[i].id != rows[j].id
  }

  lemma {:induction false} GroupedRows(rows: seq<Row>, canon: string -> string, k: Key, x: Row)
    ensures OnePerKey(Grouped(rows, canon))
    ensures Has(Grouped(rows, canon), k, x) <==> x in rows && KeyOf(x, canon) == k
  {
    if rows != [] {
      var n := |rows| - 1;
      GroupedRows(rows[..n], canon, k, x);
      AddDistinct(Grouped(rows[..n], canon), KeyOf(rows[n], canon), rows[n]);
      AddAdds(Grouped(rows[..n], canon), KeyOf(rows[n], canon), rows[n], k, x);
      assert rows == rows[..n] + [rows[n]];
    }
  }

  /** No row of the same group comes before r. */
  ghost predicate Best(r: Row, rows: seq<Row>) {
    forall s | s in rows :: Before(r, s)
  }

  lemma BeforeOrder(a: Row, b: Row, c: Row)
    ensures Before(a, b) || Before(b, a)
    ensures Before(a, b) && Before(b, c) ==> Before(a, c)
    ensures Before(a, b) && Before(b, a) ==> a.id == b.id
  {
  }

  lemma {:induction false} SortedFirst(rows: seq<Row>)
    requires rows != []
    ensures Sorted(rows) != [] && Sorted(rows)[0] in rows && Best(Sorted(rows)[0], rows)
  {
    hide Before;
    BeforeOrder(rows[0], rows[0], rows[0]);
    if |rows| > 1 {
      SortedFirst(rows[1..]);
      var first := Sorted(rows[1..])[0];
      BeforeOrder(rows[0], first, first);
      forall s | s in rows ensures Before(Sorted(rows)[0], s) {
        BeforeOrder(rows[0], first, s);
        assert s == rows[0] || s in rows[1..];
      }
    }
  }

  lemma {:induction false} InKeptOf(groups: seq<Issuer>, r: Row)
    ensures r in KeptOf(groups) <==> exists g :: g in groups && r in KeptIn(g)
  {
    hide KeptIn;
    if groups != [] {
      var n := |groups| - 1;
      InKeptOf(groups[..n], r);
      assert groups == groups[..n] + [groups[n]];
    }
  }

  ghost predicate Same(rows: seq<Row>, x: Row, y: Row) {
    x in rows && y in rows && x.id == y.id
  }

  lemma SameId(rows: seq<Row>, x: Row, y: Row)
    requires UniqueIds(rows) && Same(rows, x, y)
    ensures x == y
  {
    var i :| 0 <= i < |rows| && rows[i] == x;
    var j :| 0 <= j < |rows| && rows[j] == y;
    assert i == j;
  }

  /** dedupe_by_issuer keeps a row exactly when its canonical name is blank or it comes first,
      by completeness, among the rows of its issuer. */
  ghost predicate KeepsRow(rows: seq<Row>, r: Row, canon: string -> string) {
    r in rows && (canon(r.company) == "" || forall s | s in rows && KeyOf(s, canon) == KeyOf(r, canon) :: Before(r, s))
  }

  lemma GroupOf(rows: seq<Row>, canon: string -> string, g: Issuer)
    requires g in Grouped(rows, canon)
    ensures forall x :: x in g.items <==> x in rows && KeyOf(x, canon) == g.key
  {
    var groups := Grouped(rows, canon);
    hide Grouped;
    forall x ensures x in g.items <==> x in rows && KeyOf(x, canon) == g.key {
      GroupedRows(rows, canon, g.key, x);
      if Has(groups, g.key, x) {
        var h :| h in groups && h.key == g.key && x in h.items;
        SameGroup(groups, g, h);
      }
    }
  }

  lemma KeptInIff(rows: seq<Row>, canon: string -> string, g: Issuer, r: Row)
    requires UniqueIds(rows) && g in Grouped(rows, canon)
    ensures r in KeptIn(g) <==> KeepsRow(rows, r, canon) && KeyOf(r, canon) == g.key
  {
    GroupOf(rows, canon, g);
    hide Grouped, UniqueIds;
    if |g.items| == 1 {
      assert g.items == [g.items[0]];
      BeforeOrder(g.items[0], g.items[0], g.items[0]);
      forall s | s in g.items ensures s == g.items[0] {
      }
    } else if !Whole(g) {
      SortedFirst(g.items);
      var first := Sorted(g.items)[0];
      if r in g.items && KeepsRow(rows, r, canon) {
        BeforeOrder(first, r, r);
        SameId(rows, first, r);
      }
    }
  }

  lemma KeptIff(rows: seq<Row>, canon: string -> string, r: Row)
    requires UniqueIds(rows)
    ensures r in KeptOf(Grouped(rows, canon)) <==> KeepsRow(rows, r, canon)
  {
    var groups := Grouped(rows, canon);
    InKeptOf(groups, r);
    forall g | g in groups ensures r in KeptIn(g) <==> KeepsRow(rows, r, canon) && KeyOf(r, canon) == g.key {
      KeptInIff(rows, canon, g, r);
    }
    hide KeptIn, Grouped, KeepsRow;
    if KeepsRow(rows, r, canon) {
      assert r in rows by {
        InRows(rows, r, canon);
      }
      GroupedRows(rows, canon, KeyOf(r, canon), r);
      var g :| g in groups && g.key == KeyOf(r, canon) && r in g.items;
      assert r in KeptIn(g);
    }
  }

  lemma InRows(rows: seq<Row>, r: Row, canon: string -> string)
    requires KeepsRow(rows, r, canon)
    ensures r in rows
  {
  }

  /** Every issuer keeps a row. */
  lemma IssuerStays(rows: seq<Row>, canon: string -> string, r: Row)
    requires r in rows
    ensures exists k :: k in KeptOf(Grouped(rows, canon)) && KeyOf(k, canon) == KeyOf(r, canon)
  {
    var groups := Grouped(rows, canon);
    GroupedRows(rows, canon, KeyOf(r, canon), r);
    var g :| g in groups && g.key == KeyOf(r, canon) && r in g.items;
    GroupOf(rows, canon, g);
    if !Whole(g) {
      SortedFirst(g.items);
    }
    var k := KeptIn(g)[0];
    assert k in KeptIn(g) && k in g.items;
    InKeptOf(groups, k);
  }

  // ------------------------------------------------------------- what is published

  lemma UniqueSnoc(rows: seq<Row>, r: Row)
    requires UniqueIds(rows) && forall x | x in rows :: x.id != r.id
    ensures UniqueIds(rows + [r])
  {
  }

  lemma UniqueInit(rows: seq<Row>)
    requires rows != [] && UniqueIds(rows)
    ensures UniqueIds(rows[..|rows| - 1]) && forall x | x in rows[..|rows| - 1] :: x.id != rows[|rows| - 1].id
  {
  }

  lemma {:induction false} OnlyUnique(rows: seq<Row>, b: Bucket, now: int, cutoff: int)
    requires UniqueIds(rows)
    ensures UniqueIds(Only(rows, b, now, cutoff))
  {
    if rows != [] {
      var n := |rows| - 1;
      UniqueInit(rows);
      hide UniqueIds, BucketOf;
      OnlyUnique(rows[..n], b, now, cutoff);
      if BucketOf(rows[n], now, cutoff) == b {
        UniqueSnoc(Only(rows[..n], b, now, cutoff), rows[n]);
      }
    }
  }

  lemma {:induction false} StillUnique(rows: seq<Row>, names: map<Key, Row>, canon: string -> string)
    requires UniqueIds(rows)
    ensures UniqueIds(StillUpcoming(rows, names, canon))
  {
    if rows != [] {
      var n := |rows| - 1;
      UniqueInit(rows);
      hide UniqueIds, Superseded;
      StillUnique(rows[..n], names, canon);
      if !Superseded(rows[n], names, canon) {
        UniqueSnoc(StillUpcoming(rows[..n], names, canon), rows[n]);
      }
    }
  }

  /** The row is Listed with a parseable date. */
  predicate HasListing(r: Row, now: int, cutoff: int) {
    BucketOf(r, now, cutoff) == ToHistoryIn || BucketOf(r, now, cutoff) == ToHistoryOut
  }

  /** The row comes first among the rows of its bucket and issuer, or has no canonical name. */
  ghost predicate FirstOfIssuer(rows: seq<Row>, r: Row, now: int, cutoff: int, canon: string -> string) {
    canon(r.company) == ""
      || forall s | s in rows && BucketOf(s, now, cutoff) == BucketOf(r, now, cutoff) && KeyOf(s, canon) == KeyOf(r, canon) :: Before(r, s)
  }

  ghost predicate UpcomingPublished(rows: seq<Row>, r: Row, now: int, cutoff: int, canon: string -> string) {
    && r in rows && BucketOf(r, now, cutoff) == ToUpcoming
    && (forall s | s in rows && KeyOf(s, canon) == KeyOf(r, canon) :: !HasListing(s, now, cutoff))
    && FirstOfIssuer(rows, r, now, cutoff, canon)
  }

  ghost predicate HistoryPublished(rows: seq<Row>, r: Row, now: int, cutoff: int, canon: string -> string) {
    r in rows && BucketOf(r, now, cutoff) == ToHistoryIn && FirstOfIssuer(rows, r, now, cutoff, canon)
  }

  lemma SupersededIff(rows: seq<Row>, now: int, cutoff: int, canon: string -> string, r: Row)
    requires UniqueIds(rows) && r in rows && BucketOf(r, now, cutoff) == ToUpcoming
    ensures Superseded(r, Names(ListedRows(rows, now, cutoff), canon), canon)
      <==> exists s :: s in rows && KeyOf(s, canon) == KeyOf(r, canon) && HasListing(s, now, cutoff)
  {
    var listed := ListedRows(rows, now, cutoff);
    var names := Names(listed, canon);
    hide BucketOf, Names;
    if KeyOf(r, canon) in names {
      var m := names[KeyOf(r, canon)];
      assert m in rows && HasListing(m, now, cutoff);
      if m.id == r.id {
        SameId(rows, m, r);
      }
    }
  }

  lemma HistoryIff(rows: seq<Row>, now: int, cutoff: int, canon: string -> string, r: Row)
    requires UniqueIds(rows)
    ensures r in Classified(rows, now, cutoff, canon).historyIn <==> HistoryPublished(rows, r, now, cutoff, canon)
  {
    var hist := Only(rows, ToHistoryIn, now, cutoff);
    OnlyUnique(rows, ToHistoryIn, now, cutoff);
    hide UniqueIds, BucketOf, Before;
    KeptIff(hist, canon, r);
    hide Grouped, KeptOf;
  }

  lemma UpcomingIff(rows: seq<Row>, now: int, cutoff: int, canon: string -> string, r: Row)
    requires UniqueIds(rows)
    ensures r in Classified(rows, now, cutoff, canon).upcoming <==> UpcomingPublished(rows, r, now, cutoff, canon)
  {
    var names := Names(ListedRows(rows, now, cutoff), canon);
    var active := Only(rows, ToUpcoming, now, cutoff);
    var still := StillUpcoming(active, names, canon);
    OnlyUnique(rows, ToUpcoming, now, cutoff);
    StillUnique(active, names, canon);
    KeptIff(still, canon, r);
    forall s | s in active ensures Superseded(s, names, canon)
      <==> exists t :: t in rows && KeyOf(t, canon) == KeyOf(s, canon) && HasListing(t, now, cutoff)
    {
      SupersededIff(rows, now, cutoff, canon, s);
    }
    hide UniqueIds, BucketOf, Before, Grouped, KeptOf, Names, Superseded, HasListing;
  }

  /** What is published does not depend on the order the rows are read in. */
  lemma OrderFree(a: seq<Row>, b: seq<Row>, now: int, cutoff: int, canon: string -> string, r: Row)
    requires UniqueIds(a) && UniqueIds(b) && forall x :: x in a <==> x in b
    ensures r in Classified(a, now, cutoff, canon).upcoming <==> r in Classified(b, now, cutoff, canon).upcoming
    ensures r in Classified(a, now, cutoff, canon).historyIn <==> r in Classified(b, now, cutoff, canon).historyIn
  {
    hide Classified, UniqueIds, BucketOf, Before;
    UpcomingIff(a, now, cutoff, canon, r);
    UpcomingIff(b, now, cutoff, canon, r);
    HistoryIff(a, now, cutoff, canon, r);
    HistoryIff(b, now, cutoff, canon, r);
  }

  lemma BothFirst(rows: seq<Row>, now: int, cutoff: int, canon: string -> string, x: Row, y: Row)
    requires UniqueIds(rows) && x in rows && y in rows && KeyOf(x, canon) == KeyOf(y, canon) && canon(x.company) != ""
    requires BucketOf(x, now, cutoff) == BucketOf(y, now, cutoff)
    requires FirstOfIssuer(rows, x, now, cutoff, canon) && FirstOfIssuer(rows, y, now, cutoff, canon)
    ensures x == y
  {
    hide BucketOf, Before, UniqueIds;
    BeforeOrder(x, y, x);
    SameId(rows, x, y);
  }

  /** Published rows share no country and non-blank canonical name within a list, and none at all
      across the upcoming and history lists. */
  lemma NoSharedIssuer(rows: seq<Row>, now: int, cutoff: int, canon: string -> string, x: Row, y: Row)
    requires UniqueIds(rows) && KeyOf(x, canon) == KeyOf(y, canon)
    ensures var p := Classified(rows, now, cutoff, canon);
      && (canon(x.company) != "" && x in p.upcoming && y in p.upcoming ==> x == y)
      && (canon(x.company) != "" && x in p.historyIn && y in p.historyIn ==> x == y)
      && !(x in p.upcoming && y in p.historyIn)
  {
    UpcomingIff(rows, now, cutoff, canon, x);
    UpcomingIff(rows, now, cutoff, canon, y);
    HistoryIff(rows, now, cutoff, canon, x);
    HistoryIff(rows, now, cutoff, canon, y);
    hide Classified, BucketOf, UniqueIds, FirstOfIssuer;
    var p := Classified(rows, now, cutoff, canon);
    if canon(x.company) != "" && ((x in p.upcoming && y in p.upcoming) || (x in p.historyIn && y in p.historyIn)) {
      BothFirst(rows, now, cutoff, canon, x, y);
    }
  }

  /** No published row appears twice. */
  lemma {:induction false} OnceEach(rows: seq<Row>, now: int, cutoff: int, canon: string -> string, x: Row)
    requires UniqueIds(rows)
    ensures var p := Classified(rows, now, cutoff, canon);
      Occurrences(p.upcoming, x) + Occurrences(p.withdrawn, x) + Occurrences(p.historyIn, x) + Occurrences(p.historyOut, x)
        + Occurrences(p.unparseable, x) + Occurrences(RowsOf(p.excluded), x) == if x in rows then 1 else 0
  {
    NothingLost(rows, now, cutoff, canon, x);
    hide Classified, RowsOf;
    UniqueOnce(rows, x);
  }

  lemma {:induction false} UniqueOnce(rows: seq<Row>, x: Row)
    requires UniqueIds(rows)
    ensures Occurrences(rows, x) == if x in rows then 1 else 0
  {
    if rows != [] {
      var n := |rows| - 1;
      UniqueInit(rows);
      UniqueOnce(rows[..n], x);
      assert rows == rows[..n] + [rows[n]];
      TimesOne(rows[n], x);
      TimesConcat(rows[..n], [rows[n]], x);
      hide Occurrences, UniqueIds;
    }
  }
}
