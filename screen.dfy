/**
 * The screen controller of the 40x4 screen: one tracked cursor over the
 * unified grid, and the calls it makes on the two 20x4 units' driver.
 *
 * The driver itself is not modelled; what the controller asks of it is
 * recorded, call by call, as a sequence of DriverCall values.
 *
 * Bodies that follow the C code step by step (Advance, Screen.WriteChar)
 * keep its literal bounds; everything else uses the named constants.
 */
module DualScreen {
  import opened Translator

  /** One call into the single-unit driver, addressed to unit 0 or 1. */
  datatype DriverCall =
    | LcdInit(unit: int)
    | LcdClear(unit: int)
    | LcdSetCursor(unit: int, row: int, col: int)
    | LcdWriteChar(unit: int, ch: char)
    | LcdDestroy(unit: int)

  /** The tracked cursor, in unified coordinates. */
  datatype Cursor = Cursor(row: int, col: int)

  /** The number of cells of the unified grid. */
  const SCREEN_CELLS := SCREEN_ROWS * SCREEN_COLS

  /** The cursor's index in reading order: row by row, left to right. */
  function Linear(c: Cursor): int
  {
    c.row * SCREEN_COLS + c.col
  }

  /** The cursor at reading-order index i. */
  function CursorAt(i: int): (c: Cursor)
    requires 0 <= i <= SCREEN_CELLS
    ensures Linear(c) == i
    ensures Reachable(c)
  {
    Cursor(i / SCREEN_COLS, i % SCREEN_COLS)
  }

  /** The cursor addresses a cell of the grid. */
  predicate OnScreen(c: Cursor)
  {
    InGrid(c.row, c.col)
  }

  /**
   * The cursors the controller can hold: a cell of the grid, or the
   * position (4, 0) just past the last cell, where writing at (3, 39) leaves it.
   */
  predicate Reachable(c: Cursor)
  {
    0 <= c.col < SCREEN_COLS && 0 <= c.row <= SCREEN_ROWS && (c.row == SCREEN_ROWS ==> c.col == 0)
  }

  /** A reachable cursor is determined by its reading-order index, which lies in 0..160. */
  lemma ReachableLinear(c: Cursor)
    ensures Reachable(c) ==> 0 <= Linear(c) <= SCREEN_CELLS
    ensures Reachable(c) ==> (OnScreen(c) <==> Linear(c) < SCREEN_CELLS)
    ensures Reachable(c) ==> c == CursorAt(Linear(c))
  {
  }

  /**
   * The cursor after one character: the next column, or column 0 of the
   * next row after column 39.  From (3, 39) this gives (4, 0), off the grid.
   */
  function Advance(c: Cursor): (n: Cursor)
    ensures 0 <= c.col < SCREEN_COLS ==> 0 <= n.col < SCREEN_COLS && Linear(n) == Linear(c) + 1
    ensures c.row <= n.row
  {
    var newCol := c.col + 1;
    if newCol > 39 then Cursor(c.row + 1, 0) else Cursor(c.row, newCol)
  }

  /** Writing at (3, 39) leaves the cursor at (4, 0), which is not a cell of the grid. */
  lemma AdvancePastLastCell()
    ensures Advance(Cursor(3, 39)) == Cursor(4, 0)
    ensures !OnScreen(Advance(Cursor(3, 39)))
  {
  }

  /**
   * The cursor after a character write: advanced when it was on the grid;
   * otherwise nothing is written and it stays where it is.
   */
  function StepCursor(c: Cursor): (n: Cursor)
    ensures Reachable(c) ==> Reachable(n)
    ensures Reachable(c) && OnScreen(c) ==> Linear(n) == Linear(c) + 1
    ensures !OnScreen(c) ==> n == c
  {
    if OnScreen(c) then Advance(c) else c
  }

  /**
   * The driver calls of one character write at cursor c: place the cursor
   * of the unit that shows c at its local cell, then write the character
   * to that unit.  A cursor off the grid yields no call.
   */
  function WriteCharCalls(c: Cursor, ch: char): (calls: seq<DriverCall>)
    ensures OnScreen(c) ==>
      && |calls| == 2
      && calls[0].LcdSetCursor?
      && calls[1] == LcdWriteChar(calls[0].unit, ch)
      && IsPhysical(Position(calls[0].unit, calls[0].row, calls[0].col))
      && UnifiedCell(Position(calls[0].unit, calls[0].row, calls[0].col)) == (c.row, c.col)
    ensures !OnScreen(c) ==> calls == []
  {
    match TranslatePosition(c.row, c.col)
    case OutOfBounds => []
    case Resolved(p) =>
      TranslateThenUnified(c.row, c.col);
      [LcdSetCursor(p.displayNum, p.row, p.col), LcdWriteChar(p.displayNum, ch)]
  }

  /** The cursor and the driver calls left behind by writing a text. */
  datatype Effect = Effect(cursor: Cursor, calls: seq<DriverCall>)

  function Min(a: int, b: int): int
  {
    if a <= b then a else b
  }

  /**
   * Writing a text from cursor c: one character write per character, in
   * order.  Each character that finds the cursor on the grid moves it one
   * cell on in reading order and costs two driver calls; characters that
   * find it past the last cell are dropped.
   */
  function Run(c: Cursor, text: seq<char>): (e: Effect)
    decreases |text|
    ensures Reachable(c) ==> Reachable(e.cursor)
    ensures Reachable(c) ==> Linear(e.cursor) == Min(Linear(c) + |text|, SCREEN_CELLS)
    ensures Reachable(c) ==> |e.calls| == 2 * (Linear(e.cursor) - Linear(c))
  {
    if text == [] then
      Effect(c, [])
    else
      var before := Run(c, text[..|text| - 1]);
      ReachableLinear(before.cursor);
      Effect(StepCursor(before.cursor), before.calls + WriteCharCalls(before.cursor, text[|text| - 1]))
  }

  /** The physical cell that shows the grid cell at reading-order index i. */
  function CellPosition(i: int): (p: Position)
    requires 0 <= i < SCREEN_CELLS
    ensures IsPhysical(p)
    ensures UnifiedCell(p) == (i / SCREEN_COLS, i % SCREEN_COLS)
  {
    TranslateThenUnified(i / SCREEN_COLS, i % SCREEN_COLS);
    TranslatePosition(i / SCREEN_COLS, i % SCREEN_COLS).pos
  }

  /**
   * Character k of a text written from c, if it fits on the screen, goes to
   * the physical cell of the grid cell k places after c in reading order:
   * driver calls 2k and 2k+1 place that unit's cursor there and write text[k].
   */
  lemma {:induction false} RunCallAt(c: Cursor, text: seq<char>, k: int)
    requires Reachable(c) && 0 <= k < |text| && Linear(c) + k < SCREEN_CELLS
    ensures 2 * k + 1 < |Run(c, text).calls|
    ensures Run(c, text).calls[2 * k]
      == LcdSetCursor(CellPosition(Linear(c) + k).displayNum, CellPosition(Linear(c) + k).row,
                   CellPosition(Linear(c) + k).col)
    ensures Run(c, text).calls[2 * k + 1] == LcdWriteChar(CellPosition(Linear(c) + k).displayNum, text[k])
    decreases |text|
  {
    var n := |text|;
    var before := Run(c, text[..n - 1]);
    var e := Run(c, text);
    assert e.calls == before.calls + WriteCharCalls(before.cursor, text[n - 1]);
    if k == n - 1 {
      ReachableLinear(before.cursor);
      assert Linear(before.cursor) == Linear(c) + k;
      assert before.cursor == CursorAt(Linear(c) + k);
      assert |before.calls| == 2 * k;
    } else {
      RunCallAt(c, text[..n - 1], k);
      assert text[..n - 1][k] == text[k];
    }
  }

  /** Writing a + b is writing a, then writing b from where a left the cursor. */
  lemma {:induction false} RunAppend(c: Cursor, a: seq<char>, b: seq<char>)
    ensures Run(c, a + b).cursor == Run(Run(c, a).cursor, b).cursor
    ensures Run(c, a + b).calls == Run(c, a).calls + Run(Run(c, a).cursor, b).calls
    decreases |b|
  {
    if b == [] {
      assert a + b == a;
    } else {
      var n := |b|;
      assert (a + b)[..|a + b| - 1] == a + b[..n - 1];
      assert (a + b)[|a + b| - 1] == b[n - 1];
      RunAppend(c, a, b[..n - 1]);
    }
  }

  /**
   * Forty characters written from the start of a grid row fill that row:
   * twenty writes to the row's unit at its local row (row % 2), columns
   * 0..19, then twenty at local row (row % 2) + 2, columns 0..19; the cursor
   * ends at the start of the next row.  From (0, 0) these are unit 0's rows
   * 0 and 2 and the cursor ends at (1, 0).
   */
  lemma WriteFullRow(c: Cursor, text: seq<char>)
    requires 0 <= c.row < SCREEN_ROWS && c.col == 0 && |text| == SCREEN_COLS
    ensures Run(c, text).cursor == Cursor(c.row + 1, 0)
    ensures |Run(c, text).calls| == 4 * UNIT_COLS
    ensures forall k | 0 <= k < UNIT_COLS ::
      && Run(c, text).calls[2 * k] == LcdSetCursor(c.row / 2, c.row % 2, k)
      && Run(c, text).calls[2 * k + 1] == LcdWriteChar(c.row / 2, text[k])
    ensures forall k | UNIT_COLS <= k < SCREEN_COLS ::
      && Run(c, text).calls[2 * k] == LcdSetCursor(c.row / 2, c.row % 2 + 2, k - UNIT_COLS)
      && Run(c, text).calls[2 * k + 1] == LcdWriteChar(c.row / 2, text[k])
  {
    FullRowCursor(c, text);
    forall k | 0 <= k < UNIT_COLS
      ensures Run(c, text).calls[2 * k] == LcdSetCursor(c.row / 2, c.row % 2, k)
      ensures Run(c, text).calls[2 * k + 1] == LcdWriteChar(c.row / 2, text[k])
    {
      FullRowCallAt(c, text, k);
    }
    forall k | UNIT_COLS <= k < SCREEN_COLS
      ensures Run(c, text).calls[2 * k] == LcdSetCursor(c.row / 2, c.row % 2 + 2, k - UNIT_COLS)
      ensures Run(c, text).calls[2 * k + 1] == LcdWriteChar(c.row / 2, text[k])
    {
      FullRowCallAt(c, text, k);
      assert k % UNIT_COLS == k - UNIT_COLS;
    }
  }

  /** The cursor after WriteFullRow. */
  lemma FullRowCursor(c: Cursor, text: seq<char>)
    requires 0 <= c.row < SCREEN_ROWS && c.col == 0 && |text| == SCREEN_COLS
    ensures Run(c, text).cursor == Cursor(c.row + 1, 0)
    ensures |Run(c, text).calls| == 4 * UNIT_COLS
  {
  }

  /** Character k of a text written from the start of a row, while it stays in that row. */
  lemma FullRowCallAt(c: Cursor, text: seq<char>, k: int)
    requires 0 <= c.row < SCREEN_ROWS && c.col == 0 && 0 <= k < |text| && k < SCREEN_COLS
    ensures 2 * k + 1 < |Run(c, text).calls|
    ensures Run(c, text).calls[2 * k]
      == LcdSetCursor(c.row / 2, c.row % 2 + (if k < UNIT_COLS then 0 else 2), k % UNIT_COLS)
    ensures Run(c, text).calls[2 * k + 1] == LcdWriteChar(c.row / 2, text[k])
  {
    RowCell(c, k);
    RunCallAt(c, text, k);
  }

  /** The physical cell of the grid cell k places after the start c of a row. */
  lemma RowCell(c: Cursor, k: int)
    requires 0 <= c.row < SCREEN_ROWS && c.col == 0 && 0 <= k < SCREEN_COLS
    ensures CellPosition(Linear(c) + k)
      == Position(c.row / 2, c.row % 2 + (if k < UNIT_COLS then 0 else 2), k % UNIT_COLS)
  {
    var cell := Cursor(c.row, k);
    ReachableLinear(cell);
    assert Linear(cell) == Linear(c) + k;
  }

  /**
   * The controller of one 40x4 screen.  currentRow/currentCol are the
   * tracked cursor; driverCalls records every call made on the two units.
   */
  class Screen {
    var currentCol: int
    var currentRow: int
    var driverCalls: seq<DriverCall>

    function Tracked(): Cursor
      reads this
    {
      Cursor(currentRow, currentCol)
    }

    ghost predicate Valid()
      reads this
    {
      Reachable(Tracked())
    }

    /**
     * Brings up both units, starts the tracked cursor at (0, 0), clears
     * both units and places unit 0's cursor at its origin.
     */
    constructor ()
      ensures Valid()
      ensures Tracked() == Cursor(0, 0)
      ensures driverCalls == [LcdInit(0), LcdInit(1), LcdClear(0), LcdClear(1), LcdSetCursor(0, 0, 0)]
    {
      driverCalls := [LcdInit(0), LcdInit(1)];
      currentCol, currentRow := 0, 0;
      new;
      Clear();
      driverCalls := driverCalls + [LcdSetCursor(0, 0, 0)];
    }

    /** Releases both units' driver handles. */
    method Destroy()
      modifies this`driverCalls
      ensures driverCalls == old(driverCalls) + [LcdDestroy(0), LcdDestroy(1)]
    {
      driverCalls := driverCalls + [LcdDestroy(0)];
      driverCalls := driverCalls + [LcdDestroy(1)];
    }

    /** Clears both units; the tracked cursor is left where it was. */
    method Clear()
      modifies this`driverCalls
      ensures driverCalls == old(driverCalls) + [LcdClear(0), LcdClear(1)]
      ensures Tracked() == old(Tracked())
    {
      driverCalls := driverCalls + [LcdClear(0)];
      driverCalls := driverCalls + [LcdClear(1)];
    }

    /**
     * Places the physical cursor of the unit that shows (row, col) and
     * returns the translated position.  Out-of-range input makes no call.
     * The tracked cursor is left where it was.
     */
    method SetScreenPosition(col: int, row: int) returns (t: Translation)
      modifies this`driverCalls
      ensures t == TranslatePosition(row, col)
      ensures t.Resolved? ==> driverCalls == old(driverCalls) + [LcdSetCursor(t.pos.displayNum, t.pos.row, t.pos.col)]
      ensures t.OutOfBounds? ==> driverCalls == old(driverCalls)
      ensures Tracked() == old(Tracked())
    {
      t := TranslatePosition(row, col);
      if t.Resolved? {
        driverCalls := driverCalls + [LcdSetCursor(t.pos.displayNum, t.pos.row, t.pos.col)];
      }
    }

    /** Writes one character at unified (row, col), without touching the tracked cursor. */
    method WriteCharAt(col: int, row: int, letter: char) returns (t: Translation)
      modifies this`driverCalls
      ensures t == TranslatePosition(row, col)
      ensures driverCalls == old(driverCalls) + WriteCharCalls(Cursor(row, col), letter)
      ensures Tracked() == old(Tracked())
    {
      t := SetScreenPosition(col, row);
      if t.Resolved? {
        driverCalls := driverCalls + [LcdWriteChar(t.pos.displayNum, letter)];
      }
    }

    /**
     * Writes one character at the tracked cursor and advances it.  A write
     * while the cursor is past the last cell makes no call, leaves the
     * cursor there and reports written == false.
     */
    method WriteChar(letter: char) returns (written: bool)
      requires Valid()
      modifies this
      ensures Valid()
      ensures written <==> OnScreen(old(Tracked()))
      ensures Tracked() == StepCursor(old(Tracked()))
      ensures driverCalls == old(driverCalls) + WriteCharCalls(old(Tracked()), letter)
    {
      var newCol := currentCol + 1;
      var newRow;
      if newCol > 39 {
        newCol := 0;
        newRow := currentRow + 1;
      } else {
        newRow := currentRow;
      }

      var t := WriteCharAt(currentCol, currentRow, letter);
      written := t.Resolved?;
      if written {
        currentCol := newCol;
        currentRow := newRow;
      }
    }

    /** Writes the characters of text one by one, in order. */
    method WriteText(text: seq<char>)
      requires Valid()
      modifies this
      ensures Valid()
      ensures Tracked() == Run(old(Tracked()), text).cursor
      ensures driverCalls == old(driverCalls) + Run(old(Tracked()), text).calls
    {
      for i := 0 to |text|
        invariant Valid()
        invariant Tracked() == Run(old(Tracked()), text[..i]).cursor
        invariant driverCalls == old(driverCalls) + Run(old(Tracked()), text[..i]).calls
      {
        var _ := WriteChar(text[i]);
        assert text[..i + 1][..i] == text[..i];
      }
      assert text[..|text|] == text;
    }
  }
}
