/**
 What status a row is stored with, said by position in the order of the statuses, and when the
 past-issues list turns a row into Listed.
 */
module StatusLaw {
  import opened Options
  import opened Text
  import opened Lifecycle
  import opened Reconcile
  import opened Pipeline

  const STATUSES: seq<string> :=
    ["Filed", "Upcoming", "Open", "Closed", "Priced", "Listed", "Withdrawn", "Not IPO"]

  lemma Ranks(i: nat)
    requires i < |STATUSES|
    ensures Rank(STATUSES[i]) == 10 * (i + 1) && STATUSES[i] != ""
  {
    if i == 0 {
    } else if i == 1 {
    } else if i == 2 {
    } else if i == 3 {
    } else if i == 4 {
    } else if i == 5 {
    } else if i == 6 {
    } else {
      assert i == 7;
    }
  }

  lemma MovesIff(i: nat, j: nat)
    requires i < |STATUSES| && j < |STATUSES|
    ensures CanTransition(STATUSES[i], STATUSES[j]) <==> j >= i
  {
    hide Rank;
    Ranks(i);
    Ranks(j);
  }

  lemma UnknownStays(i: nat, b: string)
    requires i < |STATUSES| && b !in STATUSES
    ensures !CanTransition(STATUSES[i], b)
  {
    Ranks(i);
    assert STATUSES[i] in STATUSES;
    if b != "" {
      NoRank(b);
    }
  }

  lemma NotAmong(b: string)
    requires b !in STATUSES
    ensures b != "Filed" && b != "Upcoming" && b != "Open" && b != "Closed"
    ensures b != "Priced" && b != "Listed" && b != "Withdrawn" && b != "Not IPO"
  {
    assert forall k | 0 <= k < |STATUSES| :: b != STATUSES[k];
    assert STATUSES[0] == "Filed" && STATUSES[1] == "Upcoming" && STATUSES[2] == "Open" && STATUSES[3] == "Closed";
    assert STATUSES[4] == "Priced" && STATUSES[5] == "Listed" && STATUSES[6] == "Withdrawn" && STATUSES[7] == "Not IPO";
  }

  lemma NoRank(b: string)
    requires b !in STATUSES
    ensures Rank(b) == 0
  {
    NotAmong(b);
  }

  lemma StoredStatus(x: Ipo, row: Row, extras: Extras, created: bool, sc: Scorer)
    ensures Upserted(x, row, extras, created, sc).Status()
      == if Status in row && !Missing(row[Status]) && CanTransition(x.Status(), AsText(row[Status]))
         then AsText(row[Status]) else x.Status()
  {
    hide EventStage, UpsertFields, SetFields, Changes, CanTransition, AsText;
    Written(x, row, UpsertFields(), created);
    StatusWritten();
  }

  lemma StatusWritten()
    ensures Status in UpsertFields()
  {
    assert Status in ListingFields();
  }

  /** Of the stored status and the row's, both among the eight, the later one is stored. */
  lemma LaterStatusStored(x: Ipo, row: Row, extras: Extras, created: bool, sc: Scorer, i: nat, j: nat)
    requires i < |STATUSES| && j < |STATUSES| && x.Status() == STATUSES[i]
    requires Status in row && row[Status] == Str(STATUSES[j])
    ensures Upserted(x, row, extras, created, sc).Status() == if j >= i then STATUSES[j] else STATUSES[i]
  {
    hide Upserted, CanTransition, Rank;
    StoredStatus(x, row, extras, created, sc);
    MovesIff(i, j);
    Ranks(j);
  }

  /** A row without a status, or with one that is none of the eight, leaves the stored status. */
  lemma OtherStatusIgnored(x: Ipo, row: Row, extras: Extras, created: bool, sc: Scorer, i: nat)
    requires i < |STATUSES| && x.Status() == STATUSES[i]
    requires Status in row ==> Missing(row[Status]) || AsText(row[Status]) !in STATUSES
    ensures Upserted(x, row, extras, created, sc).Status() == STATUSES[i]
  {
    hide Upserted, CanTransition, Rank, AsText;
    StoredStatus(x, row, extras, created, sc);
    if Status in row && !Missing(row[Status]) {
      UnknownStays(i, AsText(row[Status]));
    }
  }

  /** An India row with a symbol, neither Withdrawn nor Not IPO, becomes or stays Listed through the
      past-issues list exactly when it is Listed already, or Open or Closed with a listing day come. */
  lemma PastListsIff(x: Ipo, it: PastItem, today: int, env: Env)
    requires x.Field(Country) == Str("India") && !Missing(x.Field(Symbol))
    requires x.Status() != "Not IPO" && x.Status() != "Withdrawn"
    ensures PastApplied(x, it, today, env).Status() == "Listed"
      <==> x.Status() == "Listed"
           || ((x.Status() == "Open" || x.Status() == "Closed") && Truthy(it.listingDate)
               && env.day(AsText(it.listingDate)).Some? && env.day(AsText(it.listingDate)).value <= today)
  {
    hide PastFilled, SetStatus, Get, Missing, Truthy, AsText, CanTransition, Rank;
    var y := PastFilled(x, it);
    assert STATUSES[2] == "Open" && STATUSES[3] == "Closed" && STATUSES[5] == "Listed";
    MovesIff(2, 5);
    MovesIff(3, 5);
  }

  /** Otherwise its status is what it was. */
  lemma PastOnlyLists(x: Ipo, it: PastItem, today: int, env: Env)
    ensures PastApplied(x, it, today, env).Status() == x.Status() || PastApplied(x, it, today, env).Status() == "Listed"
  {
    hide PastFilled, SetStatus, Get, Missing, Truthy, AsText, CanTransition;
  }

  // ------------------------------------------------------------- what the step into Listed records

  lemma RecordedStage(x: Ipo, row: Row, extras: Extras, sc: Scorer)
    ensures var y := Upserted(x, row, extras, false, sc);
      var moved := Status in row && !Missing(row[Status]) && CanTransition(x.Status(), AsText(row[Status]))
        && row[Status] != x.Field(Status);
      moved && (y.Status() == "Listed" || y.Status() == "Withdrawn" || y.Status() == "Not IPO") ==>
        && |y.history| == |x.history| + 1 && y.history[..|x.history|] == x.history
        && y.history[|x.history|].stage == "status_changed" && y.history[|x.history|].forward == Forward(y.Status())
  {
    hide UpsertFields, SetFields, Changes, CanTransition, AsText, Forward, NumbersMoved, LabelChanged, ScoreMoved;
    Written(x, row, UpsertFields(), false);
    StatusWritten();
  }

  /** A stored row that an upsert moves into a terminal status gets one snapshot of the change, and it
      is not a forward one. */
  lemma TerminalRecorded(x: Ipo, row: Row, extras: Extras, sc: Scorer, i: nat, j: nat)
    requires i < j < |STATUSES| && j >= 5 && x.Field(Status) == Str(STATUSES[i])
    requires Status in row && row[Status] == Str(STATUSES[j])
    ensures var y := Upserted(x, row, extras, false, sc);
      && y.Status() == STATUSES[j] && |y.history| == |x.history| + 1 && y.history[..|x.history|] == x.history
      && y.history[|x.history|].stage == "status_changed" && !y.history[|x.history|].forward
  {
    hide Upserted, CanTransition, Rank, Forward;
    RecordedStage(x, row, extras, sc);
    LaterStatusStored(x, row, extras, false, sc, i, j);
    MovesIff(i, j);
    Ranks(j);
    TerminalAt(j);
    assert STATUSES[i] != STATUSES[j] by {
      RanksDiffer(i, j);
    }
  }

  lemma RanksDiffer(i: nat, j: nat)
    requires i < j < |STATUSES|
    ensures STATUSES[i] != STATUSES[j]
  {
    hide Rank;
    Ranks(i);
    Ranks(j);
  }

  lemma TerminalAt(j: nat)
    requires 5 <= j < |STATUSES|
    ensures STATUSES[j] == "Listed" || STATUSES[j] == "Withdrawn" || STATUSES[j] == "Not IPO"
    ensures !Forward(STATUSES[j])
  {
    hide Lower;
    LowerStatuses();
  }
}
