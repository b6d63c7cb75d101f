/**
 Flattening of a table whose cells may span rows and columns: the grid is scanned row by row, and a
 position that an emitted cell already spans is skipped.
 */
module TableSweep {

  /** Spans come from the converter's output and may be anything; `text` is the cell's flattened text. */
  datatype Cell = Cell(text: string, rowSpan: int, colSpan: int, isHeader: bool)

  datatype TableCell = TableCell(
    text: string, rowSpan: int, colSpan: int,
    startRow: nat, endRow: int, startCol: nat, endCol: int, columnHeader: bool)

  type Grid = seq<seq<Cell>>

  type Position = (nat, nat)

  predicate InGrid(g: Grid, p: Position) {
    p.0 < |g| && p.1 < |g[p.0]|
  }

  /** The rectangle of the cell at `a` contains `p`. */
  predicate Spans(g: Grid, a: Position, p: Position)
    requires InGrid(g, a)
  {
    a.0 <= p.0 < a.0 + g[a.0][a.1].rowSpan && a.1 <= p.1 < a.1 + g[a.0][a.1].colSpan
  }

  function Made(g: Grid, hasHeader: bool, a: Position): TableCell
    requires InGrid(g, a)
  {
    var cell := g[a.0][a.1];
    TableCell(cell.text, cell.rowSpan, cell.colSpan, a.0, a.0 + cell.rowSpan, a.1, a.1 + cell.colSpan,
              cell.isHeader || (hasHeader && a.0 == 0))
  }

  /** The emitted cell has the text, the spans and the header mark of the table's cell where it starts. */
  predicate ShowsItsCell(g: Grid, hasHeader: bool, c: TableCell) {
    && c.startRow < |g| && c.startCol < |g[c.startRow]|
    && var cell := g[c.startRow][c.startCol];
       && c.text == cell.text && c.rowSpan == cell.rowSpan && c.colSpan == cell.colSpan
       && c.endRow == c.startRow + cell.rowSpan && c.endCol == c.startCol + cell.colSpan
       && (c.columnHeader <==> cell.isHeader || (hasHeader && c.startRow == 0))
  }

  predicate StandsAt(cells: seq<TableCell>, r: nat, c: nat) {
    exists i :: 0 <= i < |cells| && cells[i].startRow == r && cells[i].startCol == c
  }

  /** The position is in the cell's rectangle and not where it starts. */
  predicate LiesIn(one: TableCell, r: nat, c: nat) {
    && one.startRow <= r < one.endRow && one.startCol <= c < one.endCol
    && !(one.startRow == r && one.startCol == c)
  }

  predicate LiesInAnother(cells: seq<TableCell>, r: nat, c: nat) {
    exists i :: 0 <= i < |cells| && LiesIn(cells[i], r, c)
  }

  function Anchor(c: TableCell): Position {
    (c.startRow, c.startCol)
  }

  ghost function Anchors(cells: seq<TableCell>): set<Position> {
    set c | c in cells :: Anchor(c)
  }

  lemma AnchorsGrow(cells: seq<TableCell>, one: TableCell)
    ensures Anchors(cells + [one]) == Anchors(cells) + {Anchor(one)}
  {
    forall p: Position ensures p in Anchors(cells + [one]) <==> p in Anchors(cells) || p == Anchor(one) {
      if p in Anchors(cells) {
        var c :| c in cells && Anchor(c) == p;
        assert c in cells + [one];
      }
      if p == Anchor(one) {
        assert one in cells + [one];
      }
    }
  }

  predicate Before(a: Position, b: Position) {
    a.0 < b.0 || (a.0 == b.0 && a.1 < b.1)
  }

  ghost predicate WithinGrid(g: Grid, anchors: set<Position>) {
    forall a :: a in anchors ==> InGrid(g, a)
  }

  /** Another cell than the one anchored at `p` spans it. */
  ghost predicate SpannedOver(g: Grid, anchors: set<Position>, p: Position)
    requires WithinGrid(g, anchors)
  {
    exists a :: a in anchors && a != p && Spans(g, a, p)
  }

  /**
   The anchors are exactly the positions that no other anchor's cell spans: every position of the grid
   is an anchor or inside another cell's rectangle, and never both.
   */
  ghost predicate IsSweep(g: Grid, anchors: set<Position>) {
    && WithinGrid(g, anchors)
    && forall p: Position :: InGrid(g, p) ==> (p in anchors <==> !SpannedOver(g, anchors, p))
  }

  // ---- the sweep --------------------------------------------------------------------------------

  /** What holds when every position before `at` has been scanned. */
  ghost predicate Scanned(g: Grid, anchors: set<Position>, covered: set<Position>, at: Position) {
    && WithinGrid(g, anchors)
    && (forall a :: a in anchors ==> Before(a, at))
    && (forall p: Position :: p in covered <==> SpannedOver(g, anchors, p))
    && (forall p: Position :: InGrid(g, p) && Before(p, at) ==> (p in anchors <==> !SpannedOver(g, anchors, p)))
  }

  lemma Skip(g: Grid, anchors: set<Position>, covered: set<Position>, at: Position)
    requires Scanned(g, anchors, covered, at) && at in covered
    ensures Scanned(g, anchors, covered, (at.0, at.1 + 1))
  {
    forall p: Position | InGrid(g, p) && Before(p, (at.0, at.1 + 1))
      ensures p in anchors <==> !SpannedOver(g, anchors, p)
    {
      assert Before(p, at) || p == at;
    }
  }

  lemma NextRow(g: Grid, anchors: set<Position>, covered: set<Position>, row: nat)
    requires row < |g| && Scanned(g, anchors, covered, (row, |g[row]|))
    ensures Scanned(g, anchors, covered, (row + 1, 0))
  {
  }

  lemma SpannedByOneMore(g: Grid, anchors: set<Position>, at: Position, p: Position)
    requires WithinGrid(g, anchors) && InGrid(g, at)
    ensures SpannedOver(g, anchors + {at}, p) <==> SpannedOver(g, anchors, p) || (at != p && Spans(g, at, p))
  {
    if SpannedOver(g, anchors, p) {
      var a :| a in anchors && a != p && Spans(g, a, p);
      assert a in anchors + {at};
    }
    if at != p && Spans(g, at, p) {
      assert at in anchors + {at};
    }
  }

  lemma Emit(g: Grid, anchors: set<Position>, covered: set<Position>, more: set<Position>, at: Position)
    requires Scanned(g, anchors, covered, at) && at !in covered && InGrid(g, at)
    requires forall p: Position :: p in more <==> at != p && Spans(g, at, p)
    ensures Scanned(g, anchors + {at}, covered + more, (at.0, at.1 + 1))
  {
    forall p: Position
      ensures SpannedOver(g, anchors + {at}, p) <==> SpannedOver(g, anchors, p) || (at != p && Spans(g, at, p))
    {
      SpannedByOneMore(g, anchors, at, p);
    }
    forall p: Position | InGrid(g, p) && Before(p, (at.0, at.1 + 1))
      ensures p in anchors + {at} <==> !SpannedOver(g, anchors + {at}, p)
    {
      assert Before(p, at) || p == at;
    }
  }

  /**
   The emitted cells are those of the sweep's anchors, in reading order, each with its own span, text
   and header mark.
   */
  method Sweep(g: Grid, hasHeader: bool) returns (cells: seq<TableCell>)
    ensures IsSweep(g, Anchors(cells))
    ensures forall i :: 0 <= i < |cells| ==>
      InGrid(g, Anchor(cells[i])) && cells[i] == Made(g, hasHeader, Anchor(cells[i]))
    ensures forall i, j :: 0 <= i < j < |cells| ==> Before(Anchor(cells[i]), Anchor(cells[j]))
    ensures forall i :: 0 <= i < |cells| ==> ShowsItsCell(g, hasHeader, cells[i])
    ensures forall i, j :: 0 <= i < j < |cells| ==>
      || cells[i].startRow < cells[j].startRow
      || (cells[i].startRow == cells[j].startRow && cells[i].startCol < cells[j].startCol)
    ensures forall r: nat, c: nat :: r < |g| && c < |g[r]| ==> (StandsAt(cells, r, c) <==> !LiesInAnother(cells, r, c))
  {
    cells := [];
    var covered: set<Position> := {};
    var row := 0;
    while row < |g|
      invariant row <= |g| && Scanned(g, Anchors(cells), covered, (row, 0))
      invariant forall i :: 0 <= i < |cells| ==>
        InGrid(g, Anchor(cells[i])) && cells[i] == Made(g, hasHeader, Anchor(cells[i]))
      invariant forall i, j :: 0 <= i < j < |cells| ==> Before(Anchor(cells[i]), Anchor(cells[j]))
    {
      var col := 0;
      while col < |g[row]|
        invariant col <= |g[row]| && Scanned(g, Anchors(cells), covered, (row, col))
        invariant forall i :: 0 <= i < |cells| ==>
          InGrid(g, Anchor(cells[i])) && cells[i] == Made(g, hasHeader, Anchor(cells[i]))
        invariant forall i, j :: 0 <= i < j < |cells| ==> Before(Anchor(cells[i]), Anchor(cells[j]))
      {
        var at: Position := (row, col);
        if at in covered {
          Skip(g, Anchors(cells), covered, at);
        } else {
          var one := Made(g, hasHeader, at);
          var more := SpannedSet(g, at);
          Emit(g, Anchors(cells), covered, more, at);
          AnchorsGrow(cells, one);
          forall i | 0 <= i < |cells| ensures Before(Anchor(cells[i]), at) {
            assert Anchor(cells[i]) in Anchors(cells);
          }
          covered := covered + more;
          cells := cells + [one];
        }
        col := col + 1;
      }
      NextRow(g, Anchors(cells), covered, row);
      row := row + 1;
    }
    forall r: nat, c: nat | r < |g| && c < |g[r]| ensures StandsAt(cells, r, c) <==> !LiesInAnother(cells, r, c) {
      SweptPosition(g, hasHeader, cells, r, c);
    }
  }

  lemma SweptPosition(g: Grid, hasHeader: bool, cells: seq<TableCell>, r: nat, c: nat)
    requires IsSweep(g, Anchors(cells)) && r < |g| && c < |g[r]|
    requires forall i :: 0 <= i < |cells| ==>
      InGrid(g, Anchor(cells[i])) && cells[i] == Made(g, hasHeader, Anchor(cells[i]))
    ensures StandsAt(cells, r, c) <==> !LiesInAnother(cells, r, c)
  {
    var p: Position := (r, c);
    assert p in Anchors(cells) <==> StandsAt(cells, r, c) by {
      if StandsAt(cells, r, c) {
        var i :| 0 <= i < |cells| && cells[i].startRow == r && cells[i].startCol == c;
        assert cells[i] in cells && Anchor(cells[i]) == p;
      }
      if p in Anchors(cells) {
        var one :| one in cells && Anchor(one) == p;
        var i :| 0 <= i < |cells| && cells[i] == one;
        assert cells[i].startRow == r;
      }
    }
    if SpannedOver(g, Anchors(cells), p) {
      var a :| a in Anchors(cells) && a != p && Spans(g, a, p);
      var one :| one in cells && Anchor(one) == a;
      var i :| 0 <= i < |cells| && cells[i] == one;
      assert LiesIn(cells[i], r, c);
    }
    if LiesInAnother(cells, r, c) {
      var i :| 0 <= i < |cells| && LiesIn(cells[i], r, c);
      assert cells[i] in cells && Anchor(cells[i]) in Anchors(cells) && Spans(g, Anchor(cells[i]), p);
    }
  }

  /** The positions that a cell spans besides its anchor, inside the grid or not. */
  function SpannedSet(g: Grid, at: Position): (s: set<Position>)
    requires InGrid(g, at)
    ensures forall p: Position :: p in s <==> at != p && Spans(g, at, p)
  {
    var cell := g[at.0][at.1];
    set r: nat, c: nat
      | at.0 <= r < at.0 + cell.rowSpan && at.1 <= c < at.1 + cell.colSpan && (r, c) != at
      :: (r, c)
  }

  // ---- what a sweep is --------------------------------------------------------------------------

  lemma SpannedByTheSame(g: Grid, s: set<Position>, t: set<Position>, p: Position)
    requires WithinGrid(g, s) && WithinGrid(g, t)
    requires forall a: Position :: Before(a, p) && a in s ==> a in t
    ensures SpannedOver(g, s, p) ==> SpannedOver(g, t, p)
  {
    if SpannedOver(g, s, p) {
      var a :| a in s && a != p && Spans(g, a, p);
      assert Before(a, p);
    }
  }

  /** The condition determines the anchors: the sweep is the only answer, whatever the spans. */
  lemma {:induction false} SweepIsUnique(g: Grid, s: set<Position>, t: set<Position>, p: Position)
    requires IsSweep(g, s) && IsSweep(g, t) && InGrid(g, p)
    ensures p in s <==> p in t
    decreases p.0, p.1
  {
    forall a: Position | InGrid(g, a) && Before(a, p) ensures a in s <==> a in t {
      SweepIsUnique(g, s, t, a);
    }
    SpannedByTheSame(g, s, t, p);
    SpannedByTheSame(g, t, s, p);
  }

  ghost predicate Disjoint(g: Grid, anchors: set<Position>)
    requires WithinGrid(g, anchors)
  {
    forall a, b, p: Position :: a in anchors && b in anchors && Spans(g, a, p) && Spans(g, b, p) ==> a == b
  }

  ghost predicate InBounds(g: Grid, anchors: set<Position>)
    requires WithinGrid(g, anchors)
  {
    forall a, p: Position :: a in anchors && Spans(g, a, p) ==> InGrid(g, p)
  }

  ghost predicate SpansItself(g: Grid, anchors: set<Position>)
    requires WithinGrid(g, anchors)
  {
    forall a :: a in anchors ==> g[a.0][a.1].rowSpan >= 1 && g[a.0][a.1].colSpan >= 1
  }

  /** The rectangles partition the grid: each position of it, and no other, is in exactly one. */
  ghost predicate Partition(g: Grid, anchors: set<Position>)
    requires WithinGrid(g, anchors)
  {
    && (forall p: Position :: InGrid(g, p) <==> exists a :: a in anchors && Spans(g, a, p))
    && (forall a, b, p: Position :: a in anchors && b in anchors && Spans(g, a, p) && Spans(g, b, p) ==> a == b)
  }

  /** Emitted rectangles partition the grid exactly if they are non-empty, disjoint and inside it. */
  lemma PartitionIff(g: Grid, anchors: set<Position>)
    requires IsSweep(g, anchors)
    ensures Partition(g, anchors)
      <==> Disjoint(g, anchors) && InBounds(g, anchors) && SpansItself(g, anchors)
  {
    if Partition(g, anchors) {
      forall a | a in anchors ensures g[a.0][a.1].rowSpan >= 1 && g[a.0][a.1].colSpan >= 1 {
        assert InGrid(g, a);
        var b :| b in anchors && Spans(g, b, a);
        assert !SpannedOver(g, anchors, a);
        assert b == a;
      }
    }
    if Disjoint(g, anchors) && InBounds(g, anchors) && SpansItself(g, anchors) {
      forall p: Position | InGrid(g, p) ensures exists a :: a in anchors && Spans(g, a, p) {
        if p in anchors {
          assert Spans(g, p, p);
        } else {
          assert SpannedOver(g, anchors, p);
        }
      }
    }
  }

  lemma TilingAt(g: Grid, s: set<Position>, p: Position)
    requires WithinGrid(g, s) && SpansItself(g, s) && Partition(g, s) && InGrid(g, p)
    ensures p in s <==> !SpannedOver(g, s, p)
  {
    var a :| a in s && Spans(g, a, p);
    if p in s {
      assert Spans(g, p, p);
      assert forall b :: b in s && Spans(g, b, p) ==> b == p;
    } else {
      assert SpannedOver(g, s, p);
    }
  }

  /** The anchors of any tiling by non-empty rectangles meet the sweep's condition. */
  lemma TilingIsASweep(g: Grid, s: set<Position>)
    requires WithinGrid(g, s) && SpansItself(g, s) && Partition(g, s)
    ensures IsSweep(g, s)
  {
    forall p: Position | InGrid(g, p) ensures p in s <==> !SpannedOver(g, s, p) {
      TilingAt(g, s, p);
    }
  }

  /** Some choice of cells tiles the grid with non-empty rectangles, their spans being as given. */
  ghost predicate Tileable(g: Grid) {
    exists s :: WithinGrid(g, s) && SpansItself(g, s) && Partition(g, s)
  }

  /**
   The emitted rectangles tile the table exactly if its spans admit a tiling at all: the sweep finds it
   whenever there is one, and it is the only one.
   */
  lemma SweepTilesIff(g: Grid, anchors: set<Position>)
    requires IsSweep(g, anchors)
    ensures Partition(g, anchors) <==> Tileable(g)
    ensures forall s :: WithinGrid(g, s) && SpansItself(g, s) && Partition(g, s) ==> s == anchors
  {
    forall s | WithinGrid(g, s) && SpansItself(g, s) && Partition(g, s) ensures s == anchors {
      TilingIsASweep(g, s);
      forall p: Position ensures p in s <==> p in anchors {
        if InGrid(g, p) {
          SweepIsUnique(g, s, anchors, p);
        }
      }
    }
    PartitionIff(g, anchors);
  }

  /** Rectangles can overlap without either anchor being covered: then there is no tiling. */
  lemma OverlapIsPossible()
    ensures var one := Cell("", 1, 1, false);
      var g := [[one, Cell("", 2, 1, false)], [Cell("", 1, 2, false), one]];
      var anchors: set<Position> := {(0, 0), (0, 1), (1, 0)};
      IsSweep(g, anchors) && !Disjoint(g, anchors) && !Tileable(g)
  {
    var one := Cell("", 1, 1, false);
    var g := [[one, Cell("", 2, 1, false)], [Cell("", 1, 2, false), one]];
    var anchors: set<Position> := {(0, 0), (0, 1), (1, 0)};
    var corner: Position := (1, 1);
    assert Spans(g, (0, 1), corner) && Spans(g, (1, 0), corner);
    forall p: Position | InGrid(g, p) ensures p in anchors <==> !SpannedOver(g, anchors, p) {
      assert p == (0, 0) || p == (0, 1) || p == (1, 0) || p == corner;
    }
    SweepTilesIff(g, anchors);
  }
}
