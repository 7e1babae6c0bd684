/**
 The slots that the parsed cells cover, beside the columns the parser holds.
 */
module GridSlots {
  import opened Options
  import opened TableGrid

  datatype Slot = Slot(x: nat, y: nat)

  predicate Over(p: Placed, x: nat, y: nat) {
    p.x <= x < p.x + p.w && p.y <= y < p.y + p.h
  }

  /** The slots a cell covers. */
  function Claim(p: Placed): (r: set<Slot>)
    ensures forall s :: s in r <==> Over(p, s.x, s.y)
  {
    var r := set x, y | p.x <= x < p.x + p.w && p.y <= y < p.y + p.h :: Slot(x, y);
    assert forall s: Slot | Over(p, s.x, s.y) :: Slot(s.x, s.y) in r;
    r
  }

  function Claims(cells: seq<Placed>): set<Slot> {
    if cells == [] then {} else Claim(cells[0]) + Claims(cells[1..])
  }

  // ------------------------------------------------------------- within one row

  ghost predicate InRow(cells: seq<Placed>, y: nat, col: nat) {
    forall c | c in cells :: c.x >= col && c.y == y && c.w >= 1 && c.h >= 1
  }

  ghost predicate Increasing(cells: seq<Placed>) {
    forall i, j | 0 <= i < j < |cells| :: cells[i].x + cells[i].w <= cells[j].x
  }

  ghost predicate StartsFree(cells: seq<Placed>, held: set<nat>) {
    forall c | c in cells :: c.x !in held
  }

  /** Between two cells of a row there are only held columns. */
  ghost predicate SkipsOnlyHeld(cells: seq<Placed>, held: set<nat>) {
    forall i | 0 <= i < |cells| - 1 :: Between(cells[i].x + cells[i].w, cells[i + 1].x, held)
  }

  ghost predicate Between(a: nat, b: nat, held: set<nat>) {
    forall k | a <= k < b :: k in held
  }

  ghost predicate StartsAt(cells: seq<Placed>, col: nat) {
    cells == [] || cells[0].x == col
  }

  lemma RowGrows(p: Placed, rest: seq<Placed>, y: nat, next: nat, held: set<nat>)
    requires p.x !in held && p.y == y && p.w >= 1 && p.h >= 1
    requires p.x + p.w <= next && Between(p.x + p.w, next, held)
    requires InRow(rest, y, next) && Increasing(rest) && StartsFree(rest, held) && SkipsOnlyHeld(rest, held) && StartsAt(rest, next)
    ensures var cells := [p] + rest;
      && InRow(cells, y, p.x) && Increasing(cells) && StartsFree(cells, held) && SkipsOnlyHeld(cells, held)
  {
    hide Between;
    var cells := [p] + rest;
    forall i, j | 0 <= i < j < |cells| ensures cells[i].x + cells[i].w <= cells[j].x {
      assert cells[j] == rest[j - 1] && rest[j - 1] in rest;
      if i > 0 {
        assert cells[i] == rest[i - 1];
      }
    }
    forall i | 0 <= i < |cells| - 1 ensures Between(cells[i].x + cells[i].w, cells[i + 1].x, held) {
      assert cells[i + 1] == rest[i];
      if i > 0 {
        assert cells[i] == rest[i - 1];
      }
    }
  }

  /** The cells of a row have increasing disjoint column ranges, none starts in a held column
      and only held columns are passed over. */
  lemma {:induction false} RowLaidOut(boxes: seq<Box>, y: nat, col: nat, held: set<nat>)
    requires col !in held
    ensures var cells := LayRow(boxes, y, col, held);
      && InRow(cells, y, col) && Increasing(cells) && StartsFree(cells, held)
      && SkipsOnlyHeld(cells, held) && StartsAt(cells, col)
  {
    if boxes != [] {
      var p := Place(boxes[0], col, y);
      var next := Skip(col + p.w, held);
      assert Between(p.x + p.w, next, held);
      RowLaidOut(boxes[1..], y, next, held);
      hide Skip, InRow, Increasing, StartsFree, SkipsOnlyHeld, Between;
      RowGrows(p, LayRow(boxes[1..], y, next, held), y, next, held);
    }
  }

  // ------------------------------------------------------------- holds and covered slots

  ghost predicate Reaches(occ: Occupied, k: nat, rows: nat) {
    k in occ && occ[k] > rows
  }

  /** `occ` before row y records exactly the covered slots of row y and below. */
  ghost predicate Agree(occ: Occupied, y: nat, slots: set<Slot>) {
    forall s: Slot | s.y >= y :: s in slots <==> Reaches(occ, s.x, s.y - y)
  }

  /** The cell leaves no held column free earlier than the rowspan that holds it. */
  ghost predicate Keeps(p: Placed, occ: Occupied) {
    forall k | p.x <= k < p.x + p.w && k in occ && p.h > 1 :: occ[k] < p.h
  }

  ghost predicate KeepsAll(cells: seq<Placed>, occ: Occupied) {
    cells == [] || (Keeps(cells[0], occ) && KeepsAll(cells[1..], Hold(occ, cells[0].x, cells[0].w, cells[0].h)))
  }

  ghost predicate KeepsHolds(rows: seq<seq<Box>>, y: nat, occ: Occupied) {
    rows == [] || (
      && KeepsAll(RowCells(rows[0], y, occ), Carry(occ))
      && KeepsHolds(rows[1..], y + 1, AfterRow(rows[0], y, occ)))
  }

  /** No colspan of these cells reaches into a held column. */
  ghost predicate Clear(cells: seq<Placed>, held: set<nat>) {
    forall c, k | c in cells && k in held :: !(c.x <= k < c.x + c.w)
  }

  ghost predicate NoReach(rows: seq<seq<Box>>, y: nat, occ: Occupied) {
    rows == [] || (
      && Clear(RowCells(rows[0], y, occ), Held(occ))
      && NoReach(rows[1..], y + 1, AfterRow(rows[0], y, occ)))
  }

  lemma CarryAgrees(occ: Occupied, y: nat, slots: set<Slot>)
    requires Agree(occ, y, slots)
    ensures Agree(Carry(occ), y + 1, slots)
  {
    var c := Carry(occ);
    forall s: Slot | s.y >= y + 1 ensures s in slots <==> Reaches(c, s.x, s.y - (y + 1)) {
      assert s in slots <==> Reaches(occ, s.x, s.y - y);
      assert Reaches(occ, s.x, s.y - y) <==> Reaches(c, s.x, s.y - (y + 1));
    }
  }

  lemma HoldAgrees(occ: Occupied, y: nat, slots: set<Slot>, p: Placed)
    requires Agree(occ, y + 1, slots) && Keeps(p, occ) && p.y == y
    ensures Agree(Hold(occ, p.x, p.w, p.h), y + 1, slots + Claim(p))
  {
    var now := Hold(occ, p.x, p.w, p.h);
    forall s: Slot | s.y >= y + 1 ensures s in slots + Claim(p) <==> Reaches(now, s.x, s.y - (y + 1)) {
      assert s in slots <==> Reaches(occ, s.x, s.y - (y + 1));
    }
  }

  lemma {:induction false} HoldAllAgrees(occ: Occupied, y: nat, slots: set<Slot>, cells: seq<Placed>)
    requires Agree(occ, y + 1, slots) && KeepsAll(cells, occ) && InRow(cells, y, 0)
    ensures Agree(HoldAll(cells, occ), y + 1, slots + Claims(cells))
    decreases cells
  {
    hide Hold, Agree, Keeps, Claim;
    if cells == [] {
      assert slots + Claims(cells) == slots;
    } else {
      HoldAgrees(occ, y, slots, cells[0]);
      HoldAllAgrees(Hold(occ, cells[0].x, cells[0].w, cells[0].h), y, slots + Claim(cells[0]), cells[1..]);
      assert slots + Claims(cells) == slots + Claim(cells[0]) + Claims(cells[1..]);
    }
  }

  lemma RowAgrees(boxes: seq<Box>, y: nat, occ: Occupied, slots: set<Slot>)
    requires Agree(occ, y, slots) && KeepsAll(RowCells(boxes, y, occ), Carry(occ))
    ensures Agree(AfterRow(boxes, y, occ), y + 1, slots + Claims(RowCells(boxes, y, occ)))
  {
    CarryAgrees(occ, y, slots);
    RowLaidOut(boxes, y, Skip(0, Held(occ)), Held(occ));
    HoldAllAgrees(Carry(occ), y, slots, RowCells(boxes, y, occ));
  }

  // ------------------------------------------------------------- no slot claimed twice

  ghost predicate NoSharedSlot(cells: seq<Placed>) {
    forall i, j | 0 <= i < j < |cells| :: Claim(cells[i]) !! Claim(cells[j])
  }

  ghost predicate Unclaimed(cells: seq<Placed>, slots: set<Slot>) {
    forall i | 0 <= i < |cells| :: Claim(cells[i]) !! slots
  }

  lemma {:induction false} InClaims(cells: seq<Placed>, s: Slot)
    ensures s in Claims(cells) <==> exists i :: 0 <= i < |cells| && s in Claim(cells[i])
  {
    if cells != [] {
      InClaims(cells[1..], s);
      if exists i :: 0 <= i < |cells| && s in Claim(cells[i]) {
        var i :| 0 <= i < |cells| && s in Claim(cells[i]);
        if i > 0 {
          assert cells[1..][i - 1] == cells[i];
        }
      }
      if s in Claims(cells[1..]) {
        var i :| 0 <= i < |cells[1..]| && s in Claim(cells[1..][i]);
        assert cells[i + 1] == cells[1..][i];
      }
    }
  }

  /** Sharing splits along a concatenation. */
  lemma SharedSplit(a: seq<Placed>, b: seq<Placed>, slots: set<Slot>)
    ensures NoSharedSlot(a + b) && Unclaimed(a + b, slots)
      <==> (NoSharedSlot(a) && Unclaimed(a, slots) && NoSharedSlot(b) && Unclaimed(b, slots + Claims(a)))
  {
    var ab := a + b;
    forall i | 0 <= i < |a| ensures ab[i] == a[i] {
    }
    forall j | 0 <= j < |b| ensures ab[|a| + j] == b[j] {
    }
    forall s: Slot ensures s in Claims(a) <==> exists i :: 0 <= i < |a| && s in Claim(a[i]) {
      InClaims(a, s);
    }
    if NoSharedSlot(ab) && Unclaimed(ab, slots) {
      forall i, j | 0 <= i < j < |b| ensures Claim(b[i]) !! Claim(b[j]) {
        assert Claim(ab[|a| + i]) !! Claim(ab[|a| + j]);
      }
      forall j | 0 <= j < |b| ensures Claim(b[j]) !! slots + Claims(a) {
        assert Claim(ab[|a| + j]) !! slots;
        forall s | s in Claims(a) ensures s !in Claim(b[j]) {
          var i :| 0 <= i < |a| && s in Claim(a[i]);
          assert Claim(ab[i]) !! Claim(ab[|a| + j]);
        }
      }
      forall i, j | 0 <= i < j < |a| ensures Claim(a[i]) !! Claim(a[j]) {
        assert Claim(ab[i]) !! Claim(ab[j]);
      }
      forall i | 0 <= i < |a| ensures Claim(a[i]) !! slots {
        assert Claim(ab[i]) !! slots;
      }
    }
    if NoSharedSlot(a) && Unclaimed(a, slots) && NoSharedSlot(b) && Unclaimed(b, slots + Claims(a)) {
      forall i, j | 0 <= i < j < |ab| ensures Claim(ab[i]) !! Claim(ab[j]) {
        if j < |a| {
          assert Claim(a[i]) !! Claim(a[j]);
        } else if i >= |a| {
          assert Claim(b[i - |a|]) !! Claim(b[j - |a|]);
        } else {
          assert Claim(b[j - |a|]) !! slots + Claims(a);
          forall s | s in Claim(ab[i]) ensures s !in Claim(ab[j]) {
            assert s in Claim(a[i]) && s in Claims(a);
          }
        }
      }
      forall i | 0 <= i < |ab| ensures Claim(ab[i]) !! slots {
        if i < |a| {
          assert Claim(a[i]) !! slots;
        } else {
          assert Claim(b[i - |a|]) !! slots + Claims(a);
        }
      }
    }
  }

  lemma RowDisjoint(cells: seq<Placed>)
    requires Increasing(cells)
    ensures NoSharedSlot(cells)
  {
    forall i, j | 0 <= i < j < |cells| ensures Claim(cells[i]) !! Claim(cells[j]) {
      assert cells[i].x + cells[i].w <= cells[j].x;
    }
  }

  lemma RowMeets(cells: seq<Placed>, y: nat, occ: Occupied, slots: set<Slot>)
    requires Agree(occ, y, slots) && InRow(cells, y, 0)
    ensures Unclaimed(cells, slots) <==> Clear(cells, Held(occ))
  {
    if Clear(cells, Held(occ)) {
      forall i | 0 <= i < |cells| ensures Claim(cells[i]) !! slots {
        assert cells[i] in cells;
        ClearOfSlots(cells[i], y, occ, slots);
      }
    }
    if Unclaimed(cells, slots) {
      forall c, k | c in cells && k in Held(occ) ensures !(c.x <= k < c.x + c.w) {
        var i :| 0 <= i < |cells| && cells[i] == c;
        assert Reaches(occ, Slot(k, y).x, 0);
        assert Slot(k, y) in slots && Claim(cells[i]) !! slots;
      }
    }
  }

  /** In one row, a slot is claimed twice exactly when a colspan reaches into a held column. */
  lemma RowShares(boxes: seq<Box>, y: nat, occ: Occupied, slots: set<Slot>)
    requires Agree(occ, y, slots)
    ensures NoSharedSlot(RowCells(boxes, y, occ))
    ensures Unclaimed(RowCells(boxes, y, occ), slots) <==> Clear(RowCells(boxes, y, occ), Held(occ))
  {
    hide Agree, NoSharedSlot, Unclaimed, Clear, Increasing, LayRow, StartsFree, SkipsOnlyHeld, StartsAt, Held, Skip;
    RowLaidOut(boxes, y, Skip(0, Held(occ)), Held(occ));
    RowDisjoint(RowCells(boxes, y, occ));
    RowMeets(RowCells(boxes, y, occ), y, occ, slots);
  }

  lemma ClearOfSlots(c: Placed, y: nat, occ: Occupied, slots: set<Slot>)
    requires Agree(occ, y, slots) && c.y == y
    requires forall k | k in Held(occ) :: !(c.x <= k < c.x + c.w)
    ensures Claim(c) !! slots
  {
    forall s | s in Claim(c) ensures s !in slots {
      assert s.x !in Held(occ);
      assert !Reaches(occ, s.x, s.y - y);
    }
  }

  /** A row that reaches into no held column cuts no rowspan short. */
  lemma {:induction false} ClearKeeps(cells: seq<Placed>, held: set<nat>, occ: Occupied)
    requires Clear(cells, held) && Increasing(cells)
    requires forall k | k in occ :: k in held || forall c | c in cells :: k < c.x
    ensures KeepsAll(cells, occ)
  {
    if cells != [] {
      var p, rest := cells[0], cells[1..];
      assert p in cells;
      forall c | c in rest ensures c in cells && p.x + p.w <= c.x {
        var i :| 0 <= i < |rest| && rest[i] == c;
        assert cells[i + 1] == c;
      }
      forall i, j | 0 <= i < j < |rest| ensures rest[i].x + rest[i].w <= rest[j].x {
        assert rest[i] == cells[i + 1] && rest[j] == cells[j + 1];
      }
      ClearKeeps(rest, held, Hold(occ, p.x, p.w, p.h));
    }
  }

  lemma ClearRowKeeps(boxes: seq<Box>, y: nat, occ: Occupied)
    requires Clear(RowCells(boxes, y, occ), Held(occ))
    ensures KeepsAll(RowCells(boxes, y, occ), Carry(occ))
  {
    RowLaidOut(boxes, y, Skip(0, Held(occ)), Held(occ));
    ClearKeeps(RowCells(boxes, y, occ), Held(occ), Carry(occ));
  }

  lemma {:induction false} SharesIff(rows: seq<seq<Box>>, y: nat, occ: Occupied, slots: set<Slot>)
    requires Agree(occ, y, slots)
    ensures NoSharedSlot(Lay(rows, y, occ)) && Unclaimed(Lay(rows, y, occ), slots) <==> NoReach(rows, y, occ)
  {
    hide RowCells, AfterRow, Agree, Claims, NoSharedSlot, Unclaimed, Clear;
    if rows == [] {
      NothingShares(slots);
    } else {
      var cells := RowCells(rows[0], y, occ);
      var rest := Lay(rows[1..], y + 1, AfterRow(rows[0], y, occ));
      SharedSplit(cells, rest, slots);
      RowShares(rows[0], y, occ, slots);
      if Clear(cells, Held(occ)) {
        ClearRowKeeps(rows[0], y, occ);
        RowAgrees(rows[0], y, occ, slots);
        SharesIff(rows[1..], y + 1, AfterRow(rows[0], y, occ), slots + Claims(cells));
      }
    }
  }

  lemma NothingShares(slots: set<Slot>)
    ensures NoSharedSlot([]) && Unclaimed([], slots)
  {
  }

  /** Two cells of a table claim a common slot exactly when some colspan reaches into a column
      that an earlier rowspan holds. */
  lemma SlotsDisjointIff(rows: seq<seq<Box>>)
    ensures NoSharedSlot(Lay(rows, 0, map[])) <==> NoReach(rows, 0, map[])
  {
    SharesIff(rows, 0, map[], {});
  }

  lemma {:induction false} NoReachKeeps(rows: seq<seq<Box>>, y: nat, occ: Occupied)
    requires NoReach(rows, y, occ)
    ensures KeepsHolds(rows, y, occ)
  {
    hide RowCells, AfterRow, Clear, KeepsAll, Carry, Held;
    if rows != [] {
      ClearRowKeeps(rows[0], y, occ);
      NoReachKeeps(rows[1..], y + 1, AfterRow(rows[0], y, occ));
    }
  }

  // ------------------------------------------------------------- how long a rowspan holds

  /** The bookkeeping after the first n rows. */
  function After(rows: seq<seq<Box>>, y: nat, occ: Occupied): Occupied {
    if rows == [] then occ else After(rows[1..], y + 1, AfterRow(rows[0], y, occ))
  }

  lemma {:induction false} AfterAgrees(rows: seq<seq<Box>>, y: nat, occ: Occupied, slots: set<Slot>)
    requires Agree(occ, y, slots) && KeepsHolds(rows, y, occ)
    ensures Agree(After(rows, y, occ), y + |rows|, slots + Claims(Lay(rows, y, occ)))
  {
    hide RowCells, AfterRow, Agree, Claims;
    if rows == [] {
      ClaimsOfAll([], []);
      assert slots + Claims([]) == slots;
    } else {
      var cells := RowCells(rows[0], y, occ);
      var rest := Lay(rows[1..], y + 1, AfterRow(rows[0], y, occ));
      RowAgrees(rows[0], y, occ, slots);
      AfterAgrees(rows[1..], y + 1, AfterRow(rows[0], y, occ), slots + Claims(cells));
      ClaimsOfAll(cells, rest);
      assert slots + Claims(cells) + Claims(rest) == slots + (Claims(cells) + Claims(rest));
    }
  }

  lemma {:induction false} ClaimsOfAll(a: seq<Placed>, b: seq<Placed>)
    ensures Claims([]) == {} && Claims(a + b) == Claims(a) + Claims(b)
  {
    if a == [] {
      assert a + b == b;
    } else {
      assert (a + b)[1..] == a[1..] + b;
      ClaimsOfAll(a[1..], b);
    }
  }

  /** After n rows a column is held exactly while some earlier cell over it reaches row n: a
      rowspan of R holds its columns for the next R - 1 rows and no longer. */
  lemma HeldExactly(rows: seq<seq<Box>>, k: nat)
    requires KeepsHolds(rows, 0, map[])
    ensures k in Held(After(rows, 0, map[])) <==> exists c :: c in Lay(rows, 0, map[]) && Over(c, k, |rows|)
  {
    AfterAgrees(rows, 0, map[], {});
    var cells, left := Lay(rows, 0, map[]), After(rows, 0, map[]);
    hide After, Lay, Claims, KeepsHolds;
    assert {} + Claims(cells) == Claims(cells);
    HeldAsClaimed(left, |rows|, k, cells);
  }

  lemma HeldAsClaimed(occ: Occupied, y: nat, k: nat, cells: seq<Placed>)
    requires Agree(occ, y, Claims(cells))
    ensures k in Held(occ) <==> exists c :: c in cells && Over(c, k, y)
  {
    var s := Slot(k, y);
    assert k in Held(occ) <==> Reaches(occ, s.x, 0);
    assert s in Claims(cells) <==> k in Held(occ);
    InClaims(cells, s);
    if exists c :: c in cells && Over(c, k, y) {
      var c :| c in cells && Over(c, k, y);
      var i :| 0 <= i < |cells| && cells[i] == c;
      assert s in Claim(cells[i]);
    }
    if s in Claims(cells) {
      var i :| 0 <= i < |cells| && s in Claim(cells[i]);
      assert cells[i] in cells && Over(cells[i], k, y);
    }
  }

  // ------------------------------------------------------------- which cell holds a column

  /** The last cell over column k that spans rows. */
  function LastSpan(cells: seq<Placed>, k: nat): Option<Placed> {
    if cells == [] then None
    else
      var n := |cells| - 1;
      if cells[n].h > 1 && cells[n].x <= k < cells[n].x + cells[n].w then Some(cells[n]) else LastSpan(cells[..n], k)
  }

  /** The last row-spanning cell over column k reaches row y. */
  predicate Holds(cells: seq<Placed>, k: nat, y: nat) {
    var last := LastSpan(cells, k);
    last.Some? && last.value.y + last.value.h > y
  }

  ghost predicate Tracks(occ: Occupied, y: nat, cells: seq<Placed>) {
    forall k: nat, t: nat | t >= y :: Reaches(occ, k, t - y) <==> Holds(cells, k, t)
  }

  lemma LastSpanSnoc(cells: seq<Placed>, p: Placed, k: nat)
    ensures LastSpan(cells + [p], k) == if p.h > 1 && p.x <= k < p.x + p.w then Some(p) else LastSpan(cells, k)
  {
    assert (cells + [p])[..|cells|] == cells;
  }

  lemma CarryTracks(occ: Occupied, y: nat, cells: seq<Placed>)
    requires Tracks(occ, y, cells)
    ensures Tracks(Carry(occ), y + 1, cells)
  {
    hide Holds;
    var c := Carry(occ);
    forall k: nat, t: nat | t >= y + 1 ensures Reaches(c, k, t - (y + 1)) <==> Holds(cells, k, t) {
      assert Reaches(occ, k, t - y) <==> Holds(cells, k, t);
    }
  }

  lemma HoldTracks(occ: Occupied, y: nat, cells: seq<Placed>, p: Placed)
    requires Tracks(occ, y + 1, cells) && p.y == y
    ensures Tracks(Hold(occ, p.x, p.w, p.h), y + 1, cells + [p])
  {
    var now := Hold(occ, p.x, p.w, p.h);
    forall k: nat, t: nat | t >= y + 1 ensures Reaches(now, k, t - (y + 1)) <==> Holds(cells + [p], k, t) {
      LastSpanSnoc(cells, p, k);
      assert Reaches(occ, k, t - (y + 1)) <==> Holds(cells, k, t);
    }
  }

  lemma {:induction false} HoldAllTracks(occ: Occupied, y: nat, before: seq<Placed>, cells: seq<Placed>)
    requires Tracks(occ, y + 1, before) && forall c | c in cells :: c.y == y
    ensures Tracks(HoldAll(cells, occ), y + 1, before + cells)
    decreases cells
  {
    hide Tracks, Hold;
    if cells == [] {
      assert before + cells == before;
    } else {
      HoldTracks(occ, y, before, cells[0]);
      HoldAllTracks(Hold(occ, cells[0].x, cells[0].w, cells[0].h), y, before + [cells[0]], cells[1..]);
      assert before + cells == before + [cells[0]] + cells[1..];
    }
  }

  lemma RowTracks(boxes: seq<Box>, y: nat, occ: Occupied, before: seq<Placed>)
    requires Tracks(occ, y, before)
    ensures Tracks(AfterRow(boxes, y, occ), y + 1, before + RowCells(boxes, y, occ))
  {
    CarryTracks(occ, y, before);
    RowLaidOut(boxes, y, Skip(0, Held(occ)), Held(occ));
    HoldAllTracks(Carry(occ), y, before, RowCells(boxes, y, occ));
  }

  lemma HeldTracked(occ: Occupied, y: nat, cells: seq<Placed>, k: nat)
    requires Tracks(occ, y, cells)
    ensures k in Held(occ) <==> Holds(cells, k, y)
  {
    assert Reaches(occ, k, y - y) <==> Holds(cells, k, y);
  }

  lemma {:induction false} AfterTracks(rows: seq<seq<Box>>, y: nat, occ: Occupied, before: seq<Placed>)
    requires Tracks(occ, y, before)
    ensures Tracks(After(rows, y, occ), y + |rows|, before + Lay(rows, y, occ))
    decreases rows
  {
    hide Tracks, AfterRow, RowCells;
    if rows == [] {
      assert before + [] == before;
    } else {
      RowTracks(rows[0], y, occ, before);
      AfterTracks(rows[1..], y + 1, AfterRow(rows[0], y, occ), before + RowCells(rows[0], y, occ));
      assert before + Lay(rows, y, occ)
          == before + RowCells(rows[0], y, occ) + Lay(rows[1..], y + 1, AfterRow(rows[0], y, occ));
    }
  }

  /** On any table, a column is held after n rows exactly when the last row-spanning cell over it
      reaches row n: a later span over the same column replaces the hold of an earlier one. */
  lemma HeldByLastSpan(rows: seq<seq<Box>>, k: nat)
    ensures k in Held(After(rows, 0, map[])) <==> Holds(Lay(rows, 0, map[]), k, |rows|)
  {
    hide After, Lay;
    AfterTracks(rows, 0, map[], []);
    assert [] + Lay(rows, 0, map[]) == Lay(rows, 0, map[]);
    HeldTracked(After(rows, 0, map[]), |rows|, Lay(rows, 0, map[]), k);
  }

  /** A span attribute counts as written from 1 to 50; below it counts 1 and above it 50. */
  lemma SpanWritten(v: int)
    ensures 1 <= v <= 50 ==> Span(v) == v
    ensures v <= 1 ==> Span(v) == 1
    ensures v >= 50 ==> Span(v) == 50
  {
  }
}
