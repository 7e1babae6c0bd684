/**
 The HTML Living Standard, section 4.9.12 ("Forming a table"), and when the parser reads a table
 as the standard lays it out. The standard caps spans at 1000 columns and 65534 rows, reads a
 rowspan of 0 as "to the end of the row group", and ends every span with its row group; the
 parser caps both at 50 and knows no row groups.
 */
module HtmlTable {
  import opened Options
  import opened TableGrid
  import opened GridSlots

  /** A cell where the standard puts it, on row y of the table. */
  datatype Spot = Spot(box: Box, x: nat, y: nat, w: nat, h: nat)

  function Colspan(v: int): (n: nat)
    ensures 1 <= n <= 1000
  {
    if v < 1 then 1 else if v > 1000 then 1000 else v
  }

  /** `left` rows of the row group are left, this one included. */
  function Rowspan(v: int, left: nat): nat {
    if v < 0 then 1 else if v == 0 then left else if v > 65534 then 65534 else v
  }

  function Cover(s: Spot): (r: set<Slot>)
    ensures forall t :: t in r <==> s.x <= t.x < s.x + s.w && s.y <= t.y < s.y + s.h
  {
    Claim(Placed(s.x, s.y, s.w, s.h, ""))
  }

  /** The columns of row y that some cell covers. */
  function Columns(slots: set<Slot>, y: nat): set<nat> {
    set s | s in slots && s.y == y :: s.x
  }

  /** The standard's row algorithm: skip the slots already covered, then cover the cell's own. */
  function StandardRow(boxes: seq<Box>, y: nat, left: nat, col: nat, slots: set<Slot>): (r: seq<Spot>)
    ensures |r| == |boxes| && forall s | s in r :: s.y == y
  {
    if boxes == [] then []
    else
      var s := Spot(boxes[0], Skip(col, Columns(slots, y)), y, Colspan(boxes[0].colspan), Rowspan(boxes[0].rowspan, left));
      [s] + StandardRow(boxes[1..], y, left, s.x + s.w, slots + Cover(s))
  }

  function Covers(spots: seq<Spot>): set<Slot> {
    if spots == [] then {} else Cover(spots[0]) + Covers(spots[1..])
  }

  /** One row group, from row y on. */
  function StandardGroup(rows: seq<seq<Box>>, y: nat, slots: set<Slot>): (r: seq<seq<Spot>>)
    ensures |r| == |rows|
  {
    if rows == [] then []
    else
      var row := StandardRow(rows[0], y, |rows|, 0, slots);
      [row] + StandardGroup(rows[1..], y + 1, slots + Covers(row))
  }

  /** The row groups in turn: no slot of one reaches into the next. */
  function Standard(groups: seq<seq<seq<Box>>>, y: nat): seq<seq<Spot>> {
    if groups == [] then [] else StandardGroup(groups[0], y, {}) + Standard(groups[1..], y + |groups[0]|)
  }

  /** The rows of all groups, as the parser meets them. */
  function Flat(groups: seq<seq<seq<Box>>>): seq<seq<Box>> {
    if groups == [] then [] else groups[0] + Flat(groups[1..])
  }

  // ------------------------------------------------------------- what the two read

  /** Every row as the parser reads it, those without text included. */
  function ParserRows(rows: seq<seq<Box>>, y: nat, occ: Occupied): (r: seq<seq<Cell>>)
    ensures |r| == |rows|
  {
    if rows == [] then []
    else [AsCells(RowCells(rows[0], y, occ))] + ParserRows(rows[1..], y + 1, AfterRow(rows[0], y, occ))
  }

  function RowReading(row: seq<Spot>): (r: seq<Cell>)
    ensures |r| == |row| && forall i | 0 <= i < |row| :: r[i] == Cell(row[i].x, row[i].w, row[i].box.text)
  {
    if row == [] then [] else [Cell(row[0].x, row[0].w, row[0].box.text)] + RowReading(row[1..])
  }

  function Reading(rows: seq<seq<Spot>>): (r: seq<seq<Cell>>)
    ensures |r| == |rows|
  {
    if rows == [] then [] else [RowReading(rows[0])] + Reading(rows[1..])
  }

  // ------------------------------------------------------------- when they agree

  /** The cell as the parser would place it in the same slot. */
  function AsParsed(s: Spot): Placed {
    Place(s.box, s.x, s.y)
  }

  /** At the columns the standard passes over from `col` on, the last row-spanning cell above
      reaches this row; at the column where the cell starts it does not; and the colspan is within
      the parser's cap. */
  ghost predicate SpotInStep(s: Spot, before: seq<Placed>, col: nat) {
    && Span(s.box.colspan) == s.w
    && !Holds(before, s.x, s.y)
    && forall k | col <= k < s.x :: Holds(before, k, s.y)
  }

  ghost predicate RowInStep(row: seq<Spot>, before: seq<Placed>, col: nat) {
    row == [] || (SpotInStep(row[0], before, col) && RowInStep(row[1..], before + [AsParsed(row[0])], row[0].x + row[0].w))
  }

  function ParsedRow(row: seq<Spot>): (r: seq<Placed>)
    ensures |r| == |row|
  {
    if row == [] then [] else [AsParsed(row[0])] + ParsedRow(row[1..])
  }

  ghost predicate InStep(rows: seq<seq<Spot>>, before: seq<Placed>) {
    rows == [] || (RowInStep(rows[0], before, 0) && InStep(rows[1..], before + ParsedRow(rows[0])))
  }

  // ------------------------------------------------------------- one row

  ghost predicate HeldFrom(held: set<nat>, before: seq<Placed>, y: nat, col: nat) {
    forall k | k >= col :: k in held <==> Holds(before, k, y)
  }

  lemma SkipIs(col: nat, held: set<nat>, c: nat)
    requires col <= c
    ensures Skip(col, held) == c <==> c !in held && forall k | col <= k < c :: k in held
  {
  }

  lemma HeldPast(held: set<nat>, before: seq<Placed>, y: nat, col: nat, p: Placed)
    requires HeldFrom(held, before, y, col) && p.x + p.w >= col
    ensures HeldFrom(held, before + [p], y, p.x + p.w)
  {
    forall k | k >= p.x + p.w ensures k in held <==> Holds(before + [p], k, y) {
      LastSpanSnoc(before, p, k);
    }
  }

  /** One cell: the parser reads it as the standard does exactly when it is in step. */
  lemma SpotIff(s: Spot, before: seq<Placed>, col: nat, held: set<nat>)
    requires HeldFrom(held, before, s.y, col) && col <= s.x
    ensures SpotInStep(s, before, col) <==> Skip(col, held) == s.x && Span(s.box.colspan) == s.w
  {
    hide Holds, Skip;
    SkipIs(col, held, s.x);
  }

  /** The parser's row, cell by cell. */
  lemma ReadRow(boxes: seq<Box>, y: nat, col: nat, held: set<nat>)
    requires boxes != []
    ensures var p := Place(boxes[0], col, y);
      var rest := LayRow(boxes[1..], y, Skip(p.x + p.w, held), held);
      && LayRow(boxes, y, col, held) == [p] + rest
      && AsCells(LayRow(boxes, y, col, held)) == [Cell(p.x, p.w, p.text)] + AsCells(rest)
  {
    hide Skip, Span;
  }

  lemma ConsIff<T>(a: T, x: seq<T>, b: T, y: seq<T>)
    ensures [a] + x == [b] + y <==> a == b && x == y
  {
    if [a] + x == [b] + y {
      assert ([a] + x)[0] == ([b] + y)[0] && ([a] + x)[1..] == x && ([b] + y)[1..] == y;
    }
  }

  function FirstSpot(b: Box, y: nat, left: nat, col: nat, slots: set<Slot>): (s: Spot)
    ensures s.y == y && s.x >= col && s.box == b
  {
    Spot(b, Skip(col, Columns(slots, y)), y, Colspan(b.colspan), Rowspan(b.rowspan, left))
  }

  /** The standard's row, cell by cell. */
  lemma StandardStep(boxes: seq<Box>, y: nat, left: nat, col: nat, slots: set<Slot>, before: seq<Placed>)
    requires boxes != []
    ensures var s := FirstSpot(boxes[0], y, left, col, slots);
      var row, rest := StandardRow(boxes, y, left, col, slots), StandardRow(boxes[1..], y, left, s.x + s.w, slots + Cover(s));
      && row == [s] + rest
      && RowReading(row) == [Cell(s.x, s.w, s.box.text)] + RowReading(rest)
      && ParsedRow(row) == [AsParsed(s)] + ParsedRow(rest)
      && (RowInStep(row, before, col) <==> SpotInStep(s, before, col) && RowInStep(rest, before + [AsParsed(s)], s.x + s.w))
  {
    hide Skip, Columns, Cover, Colspan, Rowspan, SpotInStep, Span;
    var s := FirstSpot(boxes[0], y, left, col, slots);
    var row, rest := StandardRow(boxes, y, left, col, slots), StandardRow(boxes[1..], y, left, s.x + s.w, slots + Cover(s));
    assert row == [s] + rest;
    assert row[1..] == rest;
  }

  lemma {:induction false} RowIff(boxes: seq<Box>, y: nat, left: nat, col: nat, held: set<nat>, slots: set<Slot>, before: seq<Placed>)
    requires HeldFrom(held, before, y, col)
    ensures var row := StandardRow(boxes, y, left, col, slots);
      AsCells(LayRow(boxes, y, Skip(col, held), held)) == RowReading(row) <==> RowInStep(row, before, col)
  {
    hide StandardRow, RowReading, RowInStep, SpotInStep, LayRow, AsCells, Skip, Holds, Span, HeldFrom, Cover, FirstSpot;
    if boxes == [] {
      NothingRead(y, left, col, Skip(col, held), held, slots, before);
    } else {
      var s := FirstSpot(boxes[0], y, left, col, slots);
      var c, w := Skip(col, held), Span(boxes[0].colspan);
      var rest := StandardRow(boxes[1..], y, left, s.x + s.w, slots + Cover(s));
      StandardStep(boxes, y, left, col, slots, before);
      ReadRow(boxes, y, c, held);
      ConsIff(Cell(c, w, boxes[0].text), AsCells(LayRow(boxes[1..], y, Skip(c + w, held), held)),
              Cell(s.x, s.w, boxes[0].text), RowReading(rest));
      SpotIff(s, before, col, held);
      if SpotInStep(s, before, col) {
        HeldPast(held, before, y, col, AsParsed(s));
        RowIff(boxes[1..], y, left, s.x + s.w, held, slots + Cover(s), before + [AsParsed(s)]);
      }
    }
  }

  lemma NothingRead(y: nat, left: nat, col: nat, at: nat, held: set<nat>, slots: set<Slot>, before: seq<Placed>)
    ensures var row := StandardRow([], y, left, col, slots);
      && LayRow([], y, at, held) == [] && AsCells([]) == [] && RowReading(row) == [] && ParsedRow(row) == []
      && Claims([]) == Covers(row) == {}
      && RowInStep(row, before, col)
  {
  }

  /** A row that is read alike is laid out alike. */
  lemma {:induction false} SameCells(boxes: seq<Box>, y: nat, left: nat, col: nat, at: nat, held: set<nat>, slots: set<Slot>)
    requires AsCells(LayRow(boxes, y, at, held)) == RowReading(StandardRow(boxes, y, left, col, slots))
    ensures LayRow(boxes, y, at, held) == ParsedRow(StandardRow(boxes, y, left, col, slots))
  {
    hide StandardRow, RowReading, RowInStep, AsCells, ParsedRow, Skip, Span, Cover, FirstSpot;
    if boxes == [] {
      NothingRead(y, left, col, at, held, slots, []);
    } else {
      var s := FirstSpot(boxes[0], y, left, col, slots);
      var w := Span(boxes[0].colspan);
      var rest := StandardRow(boxes[1..], y, left, s.x + s.w, slots + Cover(s));
      StandardStep(boxes, y, left, col, slots, []);
      ReadRow(boxes, y, at, held);
      ConsIff(Cell(at, w, boxes[0].text), AsCells(LayRow(boxes[1..], y, Skip(at + w, held), held)),
              Cell(s.x, s.w, boxes[0].text), RowReading(rest));
      SameCells(boxes[1..], y, left, s.x + s.w, Skip(at + w, held), held, slots + Cover(s));
    }
  }

  // ------------------------------------------------------------- the whole table

  /** What is left of the first group, and the groups after it. */
  function Rest(rows: seq<seq<Box>>, groups: seq<seq<seq<Box>>>, y: nat, slots: set<Slot>): seq<seq<Spot>> {
    StandardGroup(rows, y, slots) + Standard(groups, y + |rows|)
  }

  lemma {:induction false} TableIff(rows: seq<seq<Box>>, groups: seq<seq<seq<Box>>>, y: nat, occ: Occupied, slots: set<Slot>, before: seq<Placed>)
    requires Tracks(occ, y, before)
    ensures ParserRows(rows + Flat(groups), y, occ) == Reading(Rest(rows, groups, y, slots))
      <==> InStep(Rest(rows, groups, y, slots), before)
    decreases |groups|, |rows|
  {
    hide Tracks, RowCells, AfterRow, AsCells, RowInStep, StandardRow, RowReading, ParsedRow, Covers;
    if rows == [] {
      if groups == [] {
        assert Rest(rows, groups, y, slots) == [] && rows + Flat(groups) == [];
      } else {
        NextGroup(groups, y, slots);
        assert [] + Flat(groups) == groups[0] + Flat(groups[1..]);
        TableIff(groups[0], groups[1..], y, occ, {}, before);
      }
    } else {
      var row, cells := StandardRow(rows[0], y, |rows|, 0, slots), RowCells(rows[0], y, occ);
      var later := Rest(rows[1..], groups, y + 1, slots + Covers(row));
      NextRow(rows, groups, y, slots);
      var flat, next := rows + Flat(groups), AfterRow(rows[0], y, occ);
      assert flat[0] == rows[0] && flat[1..] == rows[1..] + Flat(groups);
      ConsIff(AsCells(cells), ParserRows(flat[1..], y + 1, next), RowReading(row), Reading(later));
      FirstRowIff(rows[0], y, |rows|, occ, slots, before);
      if AsCells(cells) == RowReading(row) {
        RowTracks(rows[0], y, occ, before);
        TableIff(rows[1..], groups, y + 1, next, slots + Covers(row), before + cells);
      }
    }
  }

  lemma FirstRowIff(boxes: seq<Box>, y: nat, left: nat, occ: Occupied, slots: set<Slot>, before: seq<Placed>)
    requires Tracks(occ, y, before)
    ensures var row := StandardRow(boxes, y, left, 0, slots);
      && (AsCells(RowCells(boxes, y, occ)) == RowReading(row) <==> RowInStep(row, before, 0))
      && (AsCells(RowCells(boxes, y, occ)) == RowReading(row) ==> RowCells(boxes, y, occ) == ParsedRow(row))
  {
    hide Tracks, Holds, LayRow, StandardRow, RowInStep, Skip, AsCells, ParsedRow;
    forall k ensures k in Held(occ) <==> Holds(before, k, y) {
      HeldTracked(occ, y, before, k);
    }
    RowIff(boxes, y, left, 0, Held(occ), slots, before);
    if AsCells(RowCells(boxes, y, occ)) == RowReading(StandardRow(boxes, y, left, 0, slots)) {
      SameCells(boxes, y, left, 0, Skip(0, Held(occ)), Held(occ), slots);
    }
  }

  lemma NextGroup(groups: seq<seq<seq<Box>>>, y: nat, slots: set<Slot>)
    requires groups != []
    ensures Rest([], groups, y, slots) == Rest(groups[0], groups[1..], y, {})
  {
    hide StandardRow;
  }

  lemma NextRow(rows: seq<seq<Box>>, groups: seq<seq<seq<Box>>>, y: nat, slots: set<Slot>)
    requires rows != []
    ensures var row := StandardRow(rows[0], y, |rows|, 0, slots);
      Rest(rows, groups, y, slots) == [row] + Rest(rows[1..], groups, y + 1, slots + Covers(row))
  {
    hide StandardRow, Covers;
    var row := StandardRow(rows[0], y, |rows|, 0, slots);
    assert y + |rows| == y + 1 + |rows[1..]|;
  }

  /** The parser reads every row of a table as the standard lays it out exactly when the standard's
      layout is in step with the rowspans the parser remembers. */
  lemma ReadAsStandardIff(groups: seq<seq<seq<Box>>>)
    ensures ParserRows(Flat(groups), 0, map[]) == Reading(Standard(groups, 0)) <==> InStep(Standard(groups, 0), [])
  {
    hide ParserRows, Reading, InStep, Standard;
    assert [] + Flat(groups) == Flat(groups);
    assert Rest([], groups, 0, {}) == Standard(groups, 0);
    TableIff([], groups, 0, map[], {}, []);
  }

  // ------------------------------------------------------------- one row group, spans within the caps

  predicate ModestBox(b: Box) {
    b.colspan <= MAX_SPAN && b.rowspan <= MAX_SPAN && b.rowspan != 0
  }

  predicate Modest(rows: seq<seq<Box>>) {
    forall row, b | row in rows && b in row :: ModestBox(b)
  }

  /** In such a table the parser holds no column that the standard has not covered. */
  ghost predicate HeldIsCovered(before: seq<Placed>, y: nat, slots: set<Slot>) {
    forall k: nat, t: nat | t >= y && Holds(before, k, t) :: Slot(k, t) in slots
  }

  lemma CoveredOn(before: seq<Placed>, y: nat, slots: set<Slot>, s: Spot)
    requires HeldIsCovered(before, y, slots) && s.y == y && s.w == Span(s.box.colspan) && s.h == Span(s.box.rowspan)
    ensures HeldIsCovered(before + [AsParsed(s)], y, slots + Cover(s))
  {
    hide Cover, Span;
    forall k: nat, t: nat | t >= y && Holds(before + [AsParsed(s)], k, t) ensures Slot(k, t) in slots + Cover(s) {
      LastSpanSnoc(before, AsParsed(s), k);
    }
  }

  /** Passes over held columns only. */
  ghost predicate RowPasses(row: seq<Spot>, before: seq<Placed>, col: nat) {
    row == [] || (
      && (forall k | col <= k < row[0].x :: Holds(before, k, row[0].y))
      && RowPasses(row[1..], before + [AsParsed(row[0])], row[0].x + row[0].w))
  }

  ghost predicate Passes(rows: seq<seq<Spot>>, before: seq<Placed>) {
    rows == [] || (RowPasses(rows[0], before, 0) && Passes(rows[1..], before + ParsedRow(rows[0])))
  }

  lemma FreeStart(b: Box, y: nat, left: nat, col: nat, slots: set<Slot>, before: seq<Placed>)
    requires ModestBox(b) && HeldIsCovered(before, y, slots)
    ensures var s := FirstSpot(b, y, left, col, slots);
      && !Holds(before, s.x, y) && s.w == Span(b.colspan) && s.h == Span(b.rowspan)
      && HeldIsCovered(before + [AsParsed(s)], y, slots + Cover(s))
  {
    var s := FirstSpot(b, y, left, col, slots);
    assert Slot(s.x, y).x == s.x;
    hide Holds;
    CoveredOn(before, y, slots, s);
  }

  lemma {:induction false} ModestRowIff(boxes: seq<Box>, y: nat, left: nat, col: nat, slots: set<Slot>, before: seq<Placed>)
    requires HeldIsCovered(before, y, slots) && forall b | b in boxes :: ModestBox(b)
    ensures var row := StandardRow(boxes, y, left, col, slots);
      && (RowInStep(row, before, col) <==> RowPasses(row, before, col))
      && HeldIsCovered(before + ParsedRow(row), y, slots + Covers(row))
  {
    hide StandardRow, RowInStep, RowPasses, SpotInStep, Holds, Skip, Columns, HeldIsCovered, FirstSpot, Cover, ParsedRow, ModestBox, Span, RowReading;
    if boxes == [] {
      NothingModest(y, left, col, slots, before);
    } else {
      var s := FirstSpot(boxes[0], y, left, col, slots);
      assert boxes[0] in boxes && forall b | b in boxes[1..] :: b in boxes;
      ModestStep(boxes, y, left, col, slots, before);
      FreeStart(boxes[0], y, left, col, slots, before);
      ModestRowIff(boxes[1..], y, left, s.x + s.w, slots + Cover(s), before + [AsParsed(s)]);
    }
  }

  lemma NothingModest(y: nat, left: nat, col: nat, slots: set<Slot>, before: seq<Placed>)
    requires HeldIsCovered(before, y, slots)
    ensures var row := StandardRow([], y, left, col, slots);
      && RowInStep(row, before, col) && RowPasses(row, before, col)
      && HeldIsCovered(before + ParsedRow(row), y, slots + Covers(row))
  {
    hide HeldIsCovered;
    NothingRead(y, left, col, col, {}, slots, before);
    assert before + [] == before && slots + Covers([]) == slots;
  }

  lemma ModestStep(boxes: seq<Box>, y: nat, left: nat, col: nat, slots: set<Slot>, before: seq<Placed>)
    requires boxes != [] && ModestBox(boxes[0]) && HeldIsCovered(before, y, slots)
    ensures var s := FirstSpot(boxes[0], y, left, col, slots);
      var row, rest := StandardRow(boxes, y, left, col, slots), StandardRow(boxes[1..], y, left, s.x + s.w, slots + Cover(s));
      var next := before + [AsParsed(s)];
      && before + ParsedRow(row) == next + ParsedRow(rest) && slots + Covers(row) == slots + Cover(s) + Covers(rest)
      && ((RowInStep(rest, next, s.x + s.w) <==> RowPasses(rest, next, s.x + s.w))
            ==> (RowInStep(row, before, col) <==> RowPasses(row, before, col)))
  {
    var s := FirstSpot(boxes[0], y, left, col, slots);
    var row, rest := StandardRow(boxes, y, left, col, slots), StandardRow(boxes[1..], y, left, s.x + s.w, slots + Cover(s));
    StandardStep(boxes, y, left, col, slots, before);
    FreeStart(boxes[0], y, left, col, slots, before);
    hide StandardRow, RowInStep, Holds, Skip, Columns, HeldIsCovered, FirstSpot, Cover, ParsedRow, ModestBox, Span, RowReading;
    assert ([s] + rest)[1..] == rest;
  }

  lemma {:induction false} ModestGroupIff(rows: seq<seq<Box>>, y: nat, slots: set<Slot>, before: seq<Placed>)
    requires HeldIsCovered(before, y, slots) && Modest(rows)
    ensures var group := StandardGroup(rows, y, slots);
      InStep(group, before) <==> Passes(group, before)
  {
    if rows != [] {
      var row := StandardRow(rows[0], y, |rows|, 0, slots);
      var rest := StandardGroup(rows[1..], y + 1, slots + Covers(row));
      assert rows[0] in rows && forall r | r in rows[1..] :: r in rows;
      assert ([row] + rest)[1..] == rest;
      ModestRowIff(rows[0], y, |rows|, 0, slots, before);
      assert HeldIsCovered(before + ParsedRow(row), y + 1, slots + Covers(row));
      hide StandardRow, RowInStep, RowPasses, HeldIsCovered, ParsedRow, Covers, ModestBox;
      ModestGroupIff(rows[1..], y + 1, slots + Covers(row), before + ParsedRow(row));
    }
  }

  /** A table of one row group whose spans are within the caps is read as the standard lays it out
      exactly when at every column the standard passes over, the last row-spanning cell above
      still reaches the row. */
  lemma ModestIff(rows: seq<seq<Box>>)
    requires Modest(rows)
    ensures ParserRows(rows, 0, map[]) == Reading(StandardGroup(rows, 0, {})) <==> Passes(StandardGroup(rows, 0, {}), [])
  {
    hide ParserRows, Reading, InStep, Passes, StandardGroup, Modest;
    assert Flat([rows]) == rows && Standard([rows], 0) == StandardGroup(rows, 0, {}) by {
      OneGroup(rows);
    }
    ReadAsStandardIff([rows]);
    ModestGroupIff(rows, 0, {}, []);
  }

  lemma OneGroup(rows: seq<seq<Box>>)
    ensures Flat([rows]) == rows && Standard([rows], 0) == StandardGroup(rows, 0, {})
  {
    hide StandardGroup;
    assert [rows][1..] == [];
    assert Flat([]) == [] && Standard([], |rows|) == [];
  }

  // ------------------------------------------------------------- a condition on the parser's holds

  ghost predicate SlotsFrom(held: set<nat>, y: nat, col: nat, slots: set<Slot>) {
    forall k | k >= col :: k in held <==> Slot(k, y) in slots
  }

  lemma SameSkip(y: nat, col: nat, held: set<nat>, slots: set<Slot>)
    requires SlotsFrom(held, y, col, slots)
    ensures Skip(col, Columns(slots, y)) == Skip(col, held)
  {
    var c := Skip(col, held);
    forall k | k >= col ensures k in Columns(slots, y) <==> k in held {
      assert Slot(k, y).x == k;
    }
    SkipIs(col, Columns(slots, y), c);
  }

  lemma SameBox(b: Box, y: nat, left: nat, col: nat, held: set<nat>, slots: set<Slot>)
    requires SlotsFrom(held, y, col, slots) && ModestBox(b)
    ensures var s, p := FirstSpot(b, y, left, col, slots), Place(b, Skip(col, held), y);
      p.x == s.x && p.w == s.w && Cover(s) == Claim(p) && SlotsFrom(held, y, s.x + s.w, slots + Cover(s))
  {
    SameSkip(y, col, held, slots);
    hide Skip, Columns;
    var s, p := FirstSpot(b, y, left, col, slots), Place(b, Skip(col, held), y);
    assert p.w == s.w && p.h == s.h;
    assert Cover(s) == Claim(p);
  }

  lemma ClaimsStep(p: Placed, cells: seq<Placed>, s: Spot, rest: seq<Spot>)
    ensures Claims([p] + cells) == Claim(p) + Claims(cells) && Covers([s] + rest) == Cover(s) + Covers(rest)
  {
    assert ([p] + cells)[1..] == cells && ([s] + rest)[1..] == rest;
  }

  lemma {:induction false} CoveredRow(boxes: seq<Box>, y: nat, left: nat, col: nat, held: set<nat>, slots: set<Slot>)
    requires SlotsFrom(held, y, col, slots) && forall b | b in boxes :: ModestBox(b)
    ensures var row, cells := StandardRow(boxes, y, left, col, slots), LayRow(boxes, y, Skip(col, held), held);
      AsCells(cells) == RowReading(row) && Claims(cells) == Covers(row)
  {
    hide Skip, SlotsFrom, Cover, Claim, AsCells, RowReading, StandardRow, LayRow, ModestBox, FirstSpot, Span, Claims, Covers, ParsedRow, RowInStep;
    if boxes == [] {
      NothingRead(y, left, col, Skip(col, held), held, slots, []);
    } else {
      var s := FirstSpot(boxes[0], y, left, col, slots);
      var p := Place(boxes[0], Skip(col, held), y);
      assert boxes[0] in boxes && forall b | b in boxes[1..] :: b in boxes;
      SameBox(boxes[0], y, left, col, held, slots);
      StandardStep(boxes, y, left, col, slots, []);
      ReadRow(boxes, y, p.x, held);
      var rest, cells := StandardRow(boxes[1..], y, left, s.x + s.w, slots + Cover(s)), LayRow(boxes[1..], y, Skip(s.x + s.w, held), held);
      CoveredRow(boxes[1..], y, left, s.x + s.w, held, slots + Cover(s));
      ClaimsStep(p, cells, s, rest);
    }
  }

  lemma {:induction false} GroupFollows(rows: seq<seq<Box>>, y: nat, occ: Occupied, slots: set<Slot>)
    requires Agree(occ, y, slots) && KeepsHolds(rows, y, occ) && Modest(rows)
    ensures ParserRows(rows, y, occ) == Reading(StandardGroup(rows, y, slots))
  {
    if rows != [] {
      var row, cells := StandardRow(rows[0], y, |rows|, 0, slots), RowCells(rows[0], y, occ);
      assert rows[0] in rows && forall r | r in rows[1..] :: r in rows;
      forall k: nat ensures k in Held(occ) <==> Slot(k, y) in slots {
        assert Reaches(occ, k, y - y) <==> Slot(k, y) in slots;
      }
      assert SlotsFrom(Held(occ), y, 0, slots);
      hide Agree, StandardRow, AsCells, RowReading, Skip, Held, LayRow, Claims, Covers, ModestBox, Carry, KeepsAll, HoldAll;
      CoveredRow(rows[0], y, |rows|, 0, Held(occ), slots);
      RowAgrees(rows[0], y, occ, slots);
      GroupFollows(rows[1..], y + 1, AfterRow(rows[0], y, occ), slots + Claims(cells));
      var rest := StandardGroup(rows[1..], y + 1, slots + Covers(row));
      assert ([row] + rest)[1..] == rest;
    }
  }

  /** Unless a spanning cell cuts an earlier rowspan short, such a table is read as the standard
      lays it out; in particular when no colspan reaches into a held column. */
  lemma KeptHoldsReadAlike(rows: seq<seq<Box>>)
    requires Modest(rows) && KeepsHolds(rows, 0, map[])
    ensures ParserRows(rows, 0, map[]) == Reading(StandardGroup(rows, 0, {}))
  {
    GroupFollows(rows, 0, map[], {});
  }

  // ------------------------------------------------------------- three tables read differently

  lemma SkipsTo(col: nat, held: set<nat>, c: nat)
    requires col <= c && c !in held && forall k | col <= k < c :: k in held
    ensures Skip(col, held) == c
  {
  }

  const A := Box(1, 1, "a")
  const B := Box(1, 4, "b")
  const C := Box(2, 2, "c")

  lemma HeldIs(occ: Occupied, held: set<nat>, carried: Occupied)
    requires forall k: nat :: k in held <==> k in occ && occ[k] > 0
    requires forall k: nat :: k in carried <==> k in occ && occ[k] > 1
    requires forall k: nat | k in carried :: carried[k] == occ[k] - 1
    ensures Held(occ) == held && Carry(occ) == carried
  {
    assert Carry(occ).Keys == carried.Keys;
  }

  lemma LayPair(b: Box, c: Box, y: nat, held: set<nat>)
    requires 0 !in held && Span(b.colspan) == 1 && 1 !in held
    ensures LayRow([b, c], y, Skip(0, held), held) == [Place(b, 0, y), Place(c, 1, y)]
  {
    SkipsTo(0, held, 0);
    SkipsTo(1, held, 1);
    hide Skip;
    var next := Skip(1 + Span(c.colspan), held);
    assert [b, c][1..] == [c] && [c][1..] == [];
    assert LayRow([c], y, 1, held) == [Place(c, 1, y)] + LayRow([], y, next, held);
  }

  lemma FirstRow()
    ensures RowCells([A, B], 0, map[]) == [Place(A, 0, 0), Place(B, 1, 0)]
    ensures AfterRow([A, B], 0, map[]) == map[1 := 3]
  {
    HeldIs(map[], {}, map[]);
    hide Held, Carry;
    LayPair(A, B, 0, {});
    SkipsTo(0, {}, 0);
    hide Skip, LayRow;
    var ab := [Place(A, 0, 0), Place(B, 1, 0)];
    assert ab[1..] == [Place(B, 1, 0)];
    assert Hold(map[], 0, 1, 1) == map[] && Hold(map[], 1, 1, 4) == map[1 := 3];
    hide Hold;
    assert HoldAll(ab[1..], map[]) == map[1 := 3];
  }

  lemma SecondRow()
    ensures RowCells([C], 1, map[1 := 3]) == [Place(C, 0, 1)]
    ensures AfterRow([C], 1, map[1 := 3]) == map[0 := 1, 1 := 1]
  {
    HeldIs(map[1 := 3], {1}, map[1 := 2]);
    hide Held, Carry;
    SkipsTo(0, {1}, 0);
    hide Skip;
    var c := RowCells([C], 1, map[1 := 3]);
    assert c == [Place(C, 0, 1)];
    assert HoldAll(c, map[1 := 2]) == Hold(map[1 := 2], 0, 2, 2);
    assert Hold(map[1 := 2], 0, 2, 2) == map[0 := 1, 1 := 1];
  }

  lemma LaterRows()
    ensures RowCells([], 2, map[0 := 1, 1 := 1]) == [] && AfterRow([], 2, map[0 := 1, 1 := 1]) == map[]
    ensures RowCells([A, A], 3, map[]) == [Place(A, 0, 3), Place(A, 1, 3)]
  {
    HeldIs(map[], {}, map[]);
    HeldIs(map[0 := 1, 1 := 1], {0, 1}, map[]);
    hide Held, Carry;
    LayPair(A, A, 3, {});
    hide Skip;
  }

  lemma StandardSees(y: nat, col: nat, slots: set<Slot>, c: nat)
    requires col <= c && Slot(c, y) !in slots && forall k | col <= k < c :: Slot(k, y) in slots
    ensures Skip(col, Columns(slots, y)) == c
  {
    assert c !in Columns(slots, y);
    forall k | col <= k < c ensures k in Columns(slots, y) {
      assert Slot(k, y).x == k;
    }
    SkipsTo(col, Columns(slots, y), c);
  }

  lemma StandardOne(b: Box, y: nat, left: nat, at: nat, slots: set<Slot>)
    requires Slot(at, y) !in slots && forall k | 0 <= k < at :: Slot(k, y) in slots
    ensures StandardRow([b], y, left, 0, slots) == [Spot(b, at, y, Colspan(b.colspan), Rowspan(b.rowspan, left))]
  {
    StandardSees(y, 0, slots, at);
    hide Skip, Columns, Cover;
    assert [b][1..] == [];
  }

  lemma StandardPair(b: Box, c: Box, y: nat, left: nat, next: nat, slots: set<Slot>)
    requires Colspan(b.colspan) == 1 && Slot(0, y) !in slots && next >= 1 && Slot(next, y) !in slots
    requires forall k | 1 <= k < next :: Slot(k, y) in slots
    ensures StandardRow([b, c], y, left, 0, slots)
      == [Spot(b, 0, y, 1, Rowspan(b.rowspan, left)), Spot(c, next, y, Colspan(c.colspan), Rowspan(c.rowspan, left))]
  {
    var first := Spot(b, 0, y, 1, Rowspan(b.rowspan, left));
    var now := slots + Cover(first);
    StandardSees(y, 0, slots, 0);
    StandardSees(y, 1, now, next);
    hide Skip, Columns, Cover;
    assert [b, c][1..] == [c] && [c][1..] == [];
    var p := Spot(c, next, y, Colspan(c.colspan), Rowspan(c.rowspan, left));
    assert StandardRow([c], y, left, 1, now) == [p] + StandardRow([], y, left, p.x + p.w, now + Cover(p));
  }

  lemma GroupStep(row: seq<Box>, rows: seq<seq<Box>>, y: nat, slots: set<Slot>, spots: seq<Spot>)
    requires StandardRow(row, y, |rows| + 1, 0, slots) == spots
    ensures StandardGroup([row] + rows, y, slots) == [spots] + StandardGroup(rows, y + 1, slots + Covers(spots))
  {
    hide StandardRow, Covers;
    assert ([row] + rows)[1..] == rows;
  }

  lemma ParserStep(row: seq<Box>, rows: seq<seq<Box>>, y: nat, occ: Occupied)
    ensures ParserRows([row] + rows, y, occ) == [AsCells(RowCells(row, y, occ))] + ParserRows(rows, y + 1, AfterRow(row, y, occ))
  {
    hide RowCells, AfterRow, AsCells;
    assert ([row] + rows)[1..] == rows;
  }

  lemma CoversOf(ab: seq<Spot>)
    requires |ab| <= 2
    ensures |ab| == 0 ==> Covers(ab) == {}
    ensures |ab| == 1 ==> Covers(ab) == Cover(ab[0])
    ensures |ab| == 2 ==> Covers(ab) == Cover(ab[0]) + Cover(ab[1])
  {
    hide Cover;
    if |ab| == 2 {
      assert ab[1..][1..] == [];
    }
  }

  lemma ParserReads()
    ensures ParserRows([[A, B], [C], [], [A, A]], 0, map[])[3] == [Cell(0, 1, "a"), Cell(1, 1, "a")]
  {
    FirstRow();
    SecondRow();
    LaterRows();
    hide RowCells, AfterRow, ParserRows;
    ParserStep([A, B], [[C], [], [A, A]], 0, map[]);
    ParserStep([C], [[], [A, A]], 1, map[1 := 3]);
    ParserStep([], [[A, A]], 2, map[0 := 1, 1 := 1]);
    ParserStep([A, A], [], 3, map[]);
    assert [[A, B]] + [[C], [], [A, A]] == [[A, B], [C], [], [A, A]] && [[C]] + [[], [A, A]] == [[C], [], [A, A]];
    var none: seq<seq<Box>> := [[]];
    assert none + [[A, A]] == [[], [A, A]] && [[A, A]] + [] == [[A, A]];
  }

  const AB := [Spot(A, 0, 0, 1, 1), Spot(B, 1, 0, 1, 4)]
  const CC := [Spot(C, 0, 1, 2, 2)]
  const AA := [Spot(A, 0, 3, 1, 1), Spot(A, 2, 3, 1, 1)]

  lemma SpotRows()
    ensures StandardRow([A, B], 0, 4, 0, {}) == AB && StandardRow([C], 1, 3, 0, Covers(AB)) == CC
    ensures StandardRow([], 2, 2, 0, Covers(AB) + Covers(CC)) == [] && Covers([]) == {}
    ensures StandardRow([A, A], 3, 1, 0, Covers(AB) + Covers(CC)) == AA
  {
    CoversOf(AB);
    CoversOf(CC);
    CoversOf([]);
    hide Covers, StandardRow;
    StandardPair(A, B, 0, 4, 1, {});
    StandardOne(C, 1, 3, 0, Covers(AB));
    StandardPair(A, A, 3, 1, 2, Covers(AB) + Covers(CC));
    assert StandardRow([], 2, 2, 0, Covers(AB) + Covers(CC)) == [] by {
      NothingRead(2, 2, 0, 0, {}, Covers(AB) + Covers(CC), []);
      NoSpots(Covers(AB) + Covers(CC));
    }
  }

  lemma NoSpots(slots: set<Slot>)
    ensures StandardRow([], 2, 2, 0, slots) == []
  {
  }

  lemma StandardReads()
    ensures StandardGroup([[A, B], [C], [], [A, A]], 0, {})[3] == AA
  {
    hide *;
    SpotRows();
    var s := Covers(AB) + Covers(CC);
    assert {} + Covers(AB) == Covers(AB) && s + {} == s;
    GroupStep([A, B], [[C], [], [A, A]], 0, {}, AB);
    GroupStep([C], [[], [A, A]], 1, Covers(AB), CC);
    GroupStep([], [[A, A]], 2, s, []);
    GroupStep([A, A], [], 3, s, AA);
    assert [[A, B]] + [[C], [], [A, A]] == [[A, B], [C], [], [A, A]] && [[C]] + [[], [A, A]] == [[C], [], [A, A]];
    var none: seq<seq<Box>> := [[]];
    assert none + [[A, A]] == [[], [A, A]] && [[A, A]] + [] == [[A, A]];
  }

  /** A spanning cell that reaches into a held column can end that hold early: the parser then
      reads the last cell of this table one column to the left of where the standard puts it. */
  lemma OverlapDiverges()
    ensures var rows := [[A, B], [C], [], [A, A]];
      && ParserRows(rows, 0, map[])[3] == [Cell(0, 1, "a"), Cell(1, 1, "a")]
      && Reading(StandardGroup(rows, 0, {}))[3] == [Cell(0, 1, "a"), Cell(2, 1, "a")]
  {
    ParserReads();
    StandardReads();
    hide ParserRows, StandardGroup;
    ReadingAt(StandardGroup([[A, B], [C], [], [A, A]], 0, {}), 3);
  }

  lemma {:induction false} ReadingAt(rows: seq<seq<Spot>>, i: nat)
    requires i < |rows|
    ensures Reading(rows)[i] == RowReading(rows[i])
  {
    hide RowReading;
    if i > 0 {
      ReadingAt(rows[1..], i - 1);
    }
  }

  const TWO_ROWS := Box(1, 2, "a")

  /** A rowspan ends with its row group; the parser carries it into the next one, and reads the
      first cell there one column to the right. */
  lemma GroupDiverges()
    ensures var groups := [[[TWO_ROWS]], [[A]]];
      && ParserRows(Flat(groups), 0, map[]) == [[Cell(0, 1, "a")], [Cell(1, 1, "a")]]
      && Reading(Standard(groups, 0)) == [[Cell(0, 1, "a")], [Cell(0, 1, "a")]]
  {
    GroupParser();
    GroupStandard();
    hide ParserRows, Standard, Flat, StandardGroup, StandardRow;
    var first, second := [Spot(TWO_ROWS, 0, 0, 1, 2)], [Spot(A, 0, 1, 1, 1)];
    ReadingAt([first, second], 0);
    ReadingAt([first, second], 1);
    OneCell(Spot(TWO_ROWS, 0, 0, 1, 2));
    OneCell(Spot(A, 0, 1, 1, 1));
    hide Reading, RowReading;
    var read := Reading([first, second]);
    assert read == [read[0], read[1]];
  }

  lemma OneCell(s: Spot)
    ensures RowReading([s]) == [Cell(s.x, s.w, s.box.text)]
    ensures AsCells([AsParsed(s)]) == [Cell(s.x, Span(s.box.colspan), s.box.text)]
  {
    assert [s][1..] == [] && [AsParsed(s)][1..] == [];
  }

  lemma HeldRow(b: Box, y: nat, held: set<nat>, at: nat)
    requires Skip(0, held) == at
    ensures LayRow([b], y, Skip(0, held), held) == [Place(b, at, y)]
  {
    hide Skip, Span;
    assert [b][1..] == [];
  }

  lemma GroupRows()
    ensures AsCells(RowCells([TWO_ROWS], 0, map[])) == [Cell(0, 1, "a")]
    ensures AfterRow([TWO_ROWS], 0, map[]) == map[0 := 1]
    ensures AsCells(RowCells([A], 1, map[0 := 1])) == [Cell(1, 1, "a")]
  {
    HeldIs(map[], {}, map[]);
    HeldIs(map[0 := 1], {0}, map[]);
    SkipsTo(0, {}, 0);
    SkipsTo(0, {0}, 1);
    HeldRow(TWO_ROWS, 0, {}, 0);
    HeldRow(A, 1, {0}, 1);
    OneCell(Spot(TWO_ROWS, 0, 0, 1, 2));
    OneCell(Spot(A, 1, 1, 1, 1));
    hide Held, Carry, Skip, LayRow, AsCells;
    var r := RowCells([TWO_ROWS], 0, map[]);
    assert r[1..] == [];
    assert HoldAll(r, map[]) == Hold(map[], 0, 1, 2) == map[0 := 1];
  }

  lemma GroupParser()
    ensures ParserRows(Flat([[[TWO_ROWS]], [[A]]]), 0, map[]) == [[Cell(0, 1, "a")], [Cell(1, 1, "a")]]
  {
    GroupRows();
    FlatTwo([[TWO_ROWS]], [[A]]);
    hide RowCells, AfterRow, AsCells, Flat, Standard, StandardGroup;
    assert [[TWO_ROWS]] + [[A]] == [[TWO_ROWS], [A]] && [[A]] + [] == [[A]];
    ParserStep([TWO_ROWS], [[A]], 0, map[]);
    ParserStep([A], [], 1, map[0 := 1]);
    assert ParserRows([], 2, AfterRow([A], 1, map[0 := 1])) == [];
  }

  lemma FlatTwo(a: seq<seq<Box>>, b: seq<seq<Box>>)
    ensures Flat([a, b]) == a + b && Standard([a, b], 0) == StandardGroup(a, 0, {}) + StandardGroup(b, |a|, {})
  {
    hide StandardGroup;
    assert [a, b][1..] == [b] && [b][1..] == [];
    assert Flat([b]) == b && Standard([b], |a|) == StandardGroup(b, |a|, {});
  }

  lemma GroupStandard()
    ensures Standard([[[TWO_ROWS]], [[A]]], 0) == [[Spot(TWO_ROWS, 0, 0, 1, 2)], [Spot(A, 0, 1, 1, 1)]]
  {
    FlatTwo([[TWO_ROWS]], [[A]]);
    StandardOne(TWO_ROWS, 0, 1, 0, {});
    StandardOne(A, 1, 1, 0, {});
    hide StandardRow, Covers;
    GroupStep([TWO_ROWS], [], 0, {}, [Spot(TWO_ROWS, 0, 0, 1, 2)]);
    GroupStep([A], [], 1, {}, [Spot(A, 0, 1, 1, 1)]);
    assert [[TWO_ROWS]] + [] == [[TWO_ROWS]] && [[A]] + [] == [[A]];
  }
}
