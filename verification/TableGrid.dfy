/**
 The row and column bookkeeping of the HTML table parser in prospectus_financials.py,
 beside the slot assignment of the HTML Living Standard, section 4.9.12 ("Forming a table").
 */
module TableGrid {
  import opened Options

  const MAX_SPAN := 50

  /** A td or th as written: its span attributes and its text. */
  datatype Box = Box(colspan: int, rowspan: int, text: string)

  datatype Cell = Cell(col: nat, span: nat, text: string)

  /** A cell with its place in the grid. */
  datatype Placed = Placed(x: nat, y: nat, w: nat, h: nat, text: string)

  /** Grid column -> later rows still covered by a rowspan. */
  type Occupied = map<nat, nat>

  /** prospectus_financials._int_attr */
  function Span(v: int): (n: nat)
    ensures 1 <= n <= MAX_SPAN
  {
    if v < 1 then 1 else if v > MAX_SPAN then MAX_SPAN else v
  }

  // ------------------------------------------------------------- the parser's layout

  function Held(occ: Occupied): set<nat> {
    set k | k in occ && occ[k] > 0
  }

  function OneLess(rows: nat): nat {
    if rows == 0 then 0 else rows - 1
  }

  function Continuing(occ: Occupied): set<nat> {
    set k | k in occ && occ[k] > 1
  }

  function Carry(occ: Occupied): (r: Occupied)
    ensures r.Keys == Continuing(occ) && forall k :: k in r ==> r[k] == OneLess(occ[k])
  {
    map k | k in Continuing(occ) :: OneLess(occ[k])
  }

  function Ahead(held: set<nat>, col: nat): set<nat> {
    set k | k in held && k >= col
  }

  /** The first column from `col` on that is not held. */
  function Skip(col: nat, held: set<nat>): (c: nat)
    ensures c >= col && c !in held && forall k :: col <= k < c ==> k in held
    decreases Ahead(held, col)
  {
    if col in held then
      assert col in Ahead(held, col) && col !in Ahead(held, col + 1);
      Skip(col + 1, held)
    else col
  }

  /** occ[k] := rowspan - 1 for the columns of a cell that spans rows. */
  function Hold(occ: Occupied, col: nat, span: nat, rowspan: nat): (r: Occupied)
    ensures forall k :: k in r <==> k in occ || (rowspan > 1 && col <= k < col + span)
    ensures forall k :: k in r ==> r[k] == if rowspan > 1 && col <= k < col + span then rowspan - 1 else occ[k]
    decreases span
  {
    if rowspan <= 1 || span == 0 then occ else Hold(occ, col, span - 1, rowspan)[col + span - 1 := rowspan - 1]
  }

  function Place(b: Box, x: nat, y: nat): Placed {
    Placed(x, y, Span(b.colspan), Span(b.rowspan), b.text)
  }

  /** The cells of row y, the first of them at column `col`. */
  function LayRow(boxes: seq<Box>, y: nat, col: nat, held: set<nat>): (cells: seq<Placed>)
    ensures |cells| == |boxes|
  {
    if boxes == [] then []
    else [Place(boxes[0], col, y)] + LayRow(boxes[1..], y, Skip(col + Span(boxes[0].colspan), held), held)
  }

  /** The holds left by a list of cells. */
  function HoldAll(cells: seq<Placed>, occ: Occupied): Occupied {
    if cells == [] then occ else HoldAll(cells[1..], Hold(occ, cells[0].x, cells[0].w, cells[0].h))
  }

  function RowCells(boxes: seq<Box>, y: nat, occ: Occupied): (cells: seq<Placed>)
    ensures |cells| == |boxes|
  {
    LayRow(boxes, y, Skip(0, Held(occ)), Held(occ))
  }

  function AfterRow(boxes: seq<Box>, y: nat, occ: Occupied): Occupied {
    HoldAll(RowCells(boxes, y, occ), Carry(occ))
  }

  function Lay(rows: seq<seq<Box>>, y: nat, occ: Occupied): seq<Placed> {
    if rows == [] then [] else RowCells(rows[0], y, occ) + Lay(rows[1..], y + 1, AfterRow(rows[0], y, occ))
  }

  /** The rows the parser keeps: those with some text. */
  function Kept(cells: seq<Placed>): bool {
    exists c :: c in cells && c.text != ""
  }

  function AsCells(cells: seq<Placed>): (r: seq<Cell>)
    ensures |r| == |cells|
  {
    seq(|cells|, i requires 0 <= i < |cells| => Cell(cells[i].x, cells[i].w, cells[i].text))
  }

  function KeptRows(rows: seq<seq<Box>>, y: nat, occ: Occupied): seq<seq<Cell>> {
    if rows == [] then []
    else
      var cells := RowCells(rows[0], y, occ);
      (if Kept(cells) then [AsCells(cells)] else []) + KeptRows(rows[1..], y + 1, AfterRow(rows[0], y, occ))
  }

  class GridParser {
    var depth: nat
    var rows: seq<seq<Cell>>
    var row: Option<seq<Cell>>
    var cell: Option<string>
    var span: nat
    var rowspan: nat
    var col: nat
    var occupied: Occupied
    var rowOccupied: set<nat>

    constructor ()
      ensures depth == 0 && row == None && cell == None && occupied == map[]
    {
      depth, rows, row, cell, span, rowspan, col := 0, [], None, None, 1, 1, 0;
      occupied, rowOccupied := map[], {};
    }

    method SkipOccupied()
      modifies this`col
      ensures col == Skip(old(col), rowOccupied)
    {
      while col in rowOccupied
        invariant Skip(col, rowOccupied) == Skip(old(col), rowOccupied)
        decreases Ahead(rowOccupied, col)
      {
        assert col in Ahead(rowOccupied, col) && col !in Ahead(rowOccupied, col + 1);
        col := col + 1;
      }
    }

    method StartTable()
      modifies this
      ensures depth == old(depth) + 1
      ensures old(depth) == 0 ==> rows == [] && occupied == map[]
      ensures old(depth) > 0 ==> rows == old(rows) && occupied == old(occupied)
      ensures row == old(row) && cell == old(cell) && col == old(col) && rowOccupied == old(rowOccupied)
    {
      if depth == 0 {
        rows, occupied := [], map[];
      }
      depth := depth + 1;
    }

    method StartRow()
      modifies this`row, this`col, this`rowOccupied, this`occupied
      ensures depth == 0 ==> row == old(row) && col == old(col) && occupied == old(occupied)
      ensures depth > 0 ==>
        && row == Some([]) && rowOccupied == Held(old(occupied)) && occupied == Carry(old(occupied))
        && col == Skip(0, rowOccupied)
    {
      if depth > 0 {
        row, col := Some([]), 0;
        rowOccupied := Held(occupied);
        occupied := Carry(occupied);
        SkipOccupied();
      }
    }

    method StartCell(colspan: int, rowspan: int)
      modifies this`cell, this`span, this`rowspan
      ensures depth > 0 && row.Some? ==> cell == Some("") && span == Span(colspan) && this.rowspan == Span(rowspan)
      ensures depth == 0 || row.None? ==> cell == old(cell) && span == old(span) && this.rowspan == old(this.rowspan)
    {
      if depth > 0 && row.Some? {
        cell, span, this.rowspan := Some(""), Span(colspan), Span(rowspan);
      }
    }

    method Data(text: string)
      modifies this`cell
      ensures cell == if depth > 0 && old(cell).Some? then Some(old(cell).value + text) else old(cell)
    {
      if depth > 0 && cell.Some? {
        cell := Some(cell.value + text);
      }
    }

    method EndCell()
      modifies this`row, this`occupied, this`col, this`cell
      ensures depth > 0 && old(cell).Some? && old(row).Some? ==>
        && row == Some(old(row).value + [Cell(old(col), span, old(cell).value)])
        && occupied == Hold(old(occupied), old(col), span, rowspan)
        && col == Skip(old(col) + span, rowOccupied)
        && cell == None
      ensures depth == 0 || old(cell).None? || old(row).None? ==>
        row == old(row) && occupied == old(occupied) && col == old(col) && cell == old(cell)
    {
      if depth > 0 && cell.Some? && row.Some? {
        row := Some(row.value + [Cell(col, span, cell.value)]);
        HoldColumns();
        col := col + span;
        cell := None;
        SkipOccupied();
      }
    }

    method HoldColumns()
      modifies this`occupied
      ensures occupied == Hold(old(occupied), col, span, rowspan)
    {
      if rowspan > 1 {
        for i := 0 to span
          invariant occupied == Hold(old(occupied), col, i, rowspan)
        {
          occupied := occupied[col + i := rowspan - 1];
        }
      }
    }

    method EndRow()
      modifies this`rows, this`row
      ensures depth > 0 && old(row).Some? ==>
        row == None && rows == old(rows) + (if exists c :: c in old(row).value && c.text != "" then [old(row).value] else [])
      ensures depth == 0 || old(row).None? ==> row == old(row) && rows == old(rows)
    {
      if depth > 0 && row.Some? {
        if exists c :: c in row.value && c.text != "" {
          rows := rows + [row.value];
        }
        row := None;
      }
    }

    method EndTable()
      modifies this`depth
      ensures depth == if old(depth) > 0 then old(depth) - 1 else 0
    {
      if depth > 0 {
        depth := depth - 1;
      }
    }

    /** The callbacks of one cell. */
    method FeedCell(b: Box)
      requires depth > 0 && cell == None && row.Some?
      modifies this`row, this`cell, this`span, this`rowspan, this`col, this`occupied
      ensures row == Some(old(row).value + [Cell(old(col), Span(b.colspan), b.text)]) && cell == None
      ensures occupied == Hold(old(occupied), old(col), Span(b.colspan), Span(b.rowspan))
      ensures col == Skip(old(col) + Span(b.colspan), rowOccupied)
    {
      hide Skip, Hold, Span;
      StartCell(b.colspan, b.rowspan);
      Data(b.text);
      assert "" + b.text == b.text;
      EndCell();
    }

    /** The callbacks of one row, as the HTML tokenizer makes them. */
    method FeedRow(boxes: seq<Box>, ghost y: nat)
      requires depth > 0 && cell == None
      modifies this`rows, this`row, this`cell, this`span, this`rowspan, this`col, this`occupied, this`rowOccupied
      ensures row == None && cell == None
      ensures occupied == AfterRow(boxes, y, old(occupied))
      ensures var cells := RowCells(boxes, y, old(occupied));
        rows == old(rows) + (if Kept(cells) then [AsCells(cells)] else [])
    {
      hide Skip, Held, Carry, Hold, Span, AsCells, HoldAll, LayRow, Kept;
      StartRow();
      ghost var cells, done := RowCells(boxes, y, old(occupied)), [];
      AsCellsNone();
      assert boxes[0..] == boxes;
      for i := 0 to |boxes|
        invariant cell == None && row == Some(AsCells(done))
        invariant rows == old(rows) && rowOccupied == Held(old(occupied))
        invariant cells == done + LayRow(boxes[i..], y, col, rowOccupied)
        invariant HoldAll(LayRow(boxes[i..], y, col, rowOccupied), occupied) == AfterRow(boxes, y, old(occupied))
      {
        LayRowStep(done, boxes, i, y, col, rowOccupied, occupied);
        done := done + [Place(boxes[i], col, y)];
        FeedCell(boxes[i]);
      }
      LayNothing(y, col, rowOccupied, occupied);
      assert cells == done;
      KeptText(cells);
      EndRow();
    }

    /** One table without nested tables. */
    method FeedTable(boxes: seq<seq<Box>>)
      requires depth == 0 && cell == None
      modifies this
      ensures depth == 0 && rows == KeptRows(boxes, 0, map[])
    {
      hide RowCells, AfterRow, Kept, AsCells;
      StartTable();
      for i := 0 to |boxes|
        invariant depth == 1 && cell == None
        invariant rows + KeptRows(boxes[i..], i, occupied) == KeptRows(boxes, 0, map[])
      {
        assert boxes[i..][1..] == boxes[i + 1..];
        ghost var before, rest := rows, KeptRows(boxes[i + 1..], i + 1, AfterRow(boxes[i], i, occupied));
        FeedRow(boxes[i], i);
        assert before + ((rows[|before|..]) + rest) == rows + rest;
      }
      EndTable();
    }
  }

  lemma LayRowStep(done: seq<Placed>, boxes: seq<Box>, i: nat, y: nat, col: nat, held: set<nat>, occ: Occupied)
    requires i < |boxes|
    ensures var b := boxes[i];
      var p := Place(b, col, y);
      var now, rest := LayRow(boxes[i..], y, col, held), LayRow(boxes[i + 1..], y, Skip(col + Span(b.colspan), held), held);
      && done + now == (done + [p]) + rest
      && HoldAll(now, occ) == HoldAll(rest, Hold(occ, col, Span(b.colspan), Span(b.rowspan)))
      && AsCells(done + [p]) == AsCells(done) + [Cell(col, Span(b.colspan), b.text)]
  {
    hide Hold, Skip, Span;
    var p := Place(boxes[i], col, y);
    assert boxes[i..][1..] == boxes[i + 1..];
    var rest := LayRow(boxes[i + 1..], y, Skip(col + p.w, held), held);
    assert LayRow(boxes[i..], y, col, held) == [p] + rest;
    assert ([p] + rest)[1..] == rest;
    AsCellsSnoc(done, p);
  }

  lemma LayNothing(y: nat, col: nat, held: set<nat>, occ: Occupied)
    ensures LayRow([], y, col, held) == [] && HoldAll([], occ) == occ
  {
  }

  lemma AsCellsNone()
    ensures AsCells([]) == []
  {
  }

  lemma AsCellsSnoc(cells: seq<Placed>, p: Placed)
    ensures AsCells(cells + [p]) == AsCells(cells) + [Cell(p.x, p.w, p.text)]
  {
  }

  lemma KeptText(cells: seq<Placed>)
    ensures Kept(cells) <==> exists c :: c in AsCells(cells) && c.text != ""
  {
    if Kept(cells) {
      var c :| c in cells && c.text != "";
      var i :| 0 <= i < |cells| && cells[i] == c;
      assert AsCells(cells)[i] in AsCells(cells);
    }
    if exists c :: c in AsCells(cells) && c.text != "" {
      var c :| c in AsCells(cells) && c.text != "";
      var i :| 0 <= i < |cells| && AsCells(cells)[i] == c;
      assert cells[i] in cells;
    }
  }
}
