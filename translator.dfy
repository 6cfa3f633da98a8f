/**
 * Coordinate translation for a 40x4 character screen built from two 20x4
 * LCD units.  The unified grid is laid out over the units like this:
 *
 *            columns 0..19      columns 20..39
 *   row 0    unit 0 / row 0     unit 0 / row 2
 *   row 1    unit 0 / row 1     unit 0 / row 3
 *   row 2    unit 1 / row 0     unit 1 / row 2
 *   row 3    unit 1 / row 1     unit 1 / row 3
 *
 * TranslatePosition follows the C branches and keeps their literal bounds
 * (3, 19, 20, 39); everything else uses the named constants below.
 */
module Translator {

  const SCREEN_ROWS := 4
  const SCREEN_COLS := 40
  const UNITS := 2
  const UNIT_ROWS := 4
  const UNIT_COLS := 20

  /** A cell of one physical unit: which unit, and the row and column on it. */
  datatype Position = Position(displayNum: int, row: int, col: int)

  /** The outcome of a translation: a physical cell, or an out-of-range input. */
  datatype Translation = Resolved(pos: Position) | OutOfBounds

  /** (row, col) addresses a cell of the unified 40x4 grid. */
  predicate InGrid(row: int, col: int)
  {
    0 <= row < SCREEN_ROWS && 0 <= col < SCREEN_COLS
  }

  /** p addresses a cell of one of the two 20x4 units. */
  predicate IsPhysical(p: Position)
  {
    0 <= p.displayNum < UNITS && 0 <= p.row < UNIT_ROWS && 0 <= p.col < UNIT_COLS
  }

  /**
   * Maps a unified (row, col) to the unit and local cell that show it.
   * Input outside the grid is reported as OutOfBounds.
   */
  function TranslatePosition(row: int, col: int): (t: Translation)
    ensures t.Resolved? <==> InGrid(row, col)
    ensures t.Resolved? ==> IsPhysical(t.pos)
  {
    if row < 0 || row > 3 || col < 0 || col > 39 then
      OutOfBounds
    else
      // the unit depends on the row alone
      var displayNum := if row < 2 then 0 else 1;
      // the local column does not depend on the row
      var localCol := if col <= 19 then col else col - 20;
      // the local row depends on the row's parity and on the column half
      var localRow :=
        if row % 2 == 0 then (if col <= 19 then 0 else 2)
        else (if col <= 19 then 1 else 3);
      Resolved(Position(displayNum, localRow, localCol))
  }

  /**
   * The unified cell that a physical cell shows, read off the layout
   * drawing: the inverse of TranslatePosition.
   */
  function UnifiedCell(p: Position): (rc: (int, int))
    requires IsPhysical(p)
    ensures InGrid(rc.0, rc.1)
    ensures rc.0 < 2 <==> p.displayNum == 0
    ensures rc.1 < UNIT_COLS <==> p.row < 2
  {
    (2 * p.displayNum + p.row % 2, if p.row < 2 then p.col else p.col + UNIT_COLS)
  }

  /** The translation in closed form: unit by row, local row by parity and half, column mod 20. */
  lemma TranslateFormula(row: int, col: int)
    requires InGrid(row, col)
    ensures TranslatePosition(row, col)
      == Resolved(Position(if row < 2 then 0 else 1,
                           row % 2 + (if col > 19 then 2 else 0),
                           col % UNIT_COLS))
  {
  }

  /** Translating a grid cell and reading the drawing back gives the same cell. */
  lemma TranslateThenUnified(row: int, col: int)
    requires InGrid(row, col)
    ensures TranslatePosition(row, col).Resolved?
    ensures UnifiedCell(TranslatePosition(row, col).pos) == (row, col)
  {
  }

  /** Every physical cell is the translation of the unified cell the drawing assigns it. */
  lemma UnifiedThenTranslate(p: Position)
    requires IsPhysical(p)
    ensures TranslatePosition(UnifiedCell(p).0, UnifiedCell(p).1) == Resolved(p)
  {
  }

  /** No two grid cells share a physical cell. */
  lemma TranslateInjective(row1: int, col1: int, row2: int, col2: int)
    requires InGrid(row1, col1) && InGrid(row2, col2)
    requires TranslatePosition(row1, col1) == TranslatePosition(row2, col2)
    ensures row1 == row2 && col1 == col2
  {
  }

  /** Every physical cell is hit by some grid cell. */
  lemma TranslateOnto(p: Position)
    requires IsPhysical(p)
    ensures exists row, col :: InGrid(row, col) && TranslatePosition(row, col) == Resolved(p)
  {
    var rc := UnifiedCell(p);
    UnifiedThenTranslate(p);
    assert InGrid(rc.0, rc.1) && TranslatePosition(rc.0, rc.1) == Resolved(p);
  }

  /** The 160 cells of the unified grid. */
  ghost function GridCells(): set<(int, int)>
  {
    set row, col | 0 <= row < SCREEN_ROWS && 0 <= col < SCREEN_COLS :: (row, col)
  }

  /** The 2 x 4 x 20 cells of the two units. */
  ghost function PhysicalCells(): set<Position>
  {
    set d, row, col | 0 <= d < UNITS && 0 <= row < UNIT_ROWS && 0 <= col < UNIT_COLS
      :: Position(d, row, col)
  }

  /** The translation maps the grid exactly onto the cells of the two units. */
  lemma TranslateImage()
    ensures (set rc | rc in GridCells() :: TranslatePosition(rc.0, rc.1).pos) == PhysicalCells()
  {
    var image := set rc | rc in GridCells() :: TranslatePosition(rc.0, rc.1).pos;
    forall p | p in image
      ensures p in PhysicalCells()
    {
      var rc :| rc in GridCells() && p == TranslatePosition(rc.0, rc.1).pos;
      assert IsPhysical(p);
    }
    forall p | p in PhysicalCells()
      ensures p in image
    {
      var rc := UnifiedCell(p);
      UnifiedThenTranslate(p);
      assert rc in GridCells();
    }
  }

  /** The boundary cells of the layout, cell by cell. */
  lemma LayoutCorners()
    ensures TranslatePosition(0, 0) == Resolved(Position(0, 0, 0))
    ensures TranslatePosition(0, 19) == Resolved(Position(0, 0, 19))
    ensures TranslatePosition(0, 20) == Resolved(Position(0, 2, 0))
    ensures TranslatePosition(1, 39) == Resolved(Position(0, 3, 19))
    ensures TranslatePosition(2, 0) == Resolved(Position(1, 0, 0))
    ensures TranslatePosition(3, 20) == Resolved(Position(1, 3, 0))
    ensures TranslatePosition(4, 0) == OutOfBounds
    ensures TranslatePosition(0, 40) == OutOfBounds
  {
  }
}
