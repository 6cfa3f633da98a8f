# Dual 20x4 LCD as one 40x4 screen — a Dafny model

This project models the core of a small C library (`lcd_dual.c`). The library
drives two 20-column by 4-row character LCD units as one 40-column by 4-row
screen. It has two parts:

- **The coordinate translator** (`translator.dfy`, module `Translator`).
  `TranslatePosition` maps a cell of the unified grid (row 0..3, column 0..39)
  to a unit (0 or 1) and a local row 0..3 and column 0..19 on that unit. The
  layout is the one drawn at the head of `translate_position`: rows 0-1 are on
  unit 0 and rows 2-3 on unit 1. The left half of a unified row is the unit's
  local row 0 or 1. The right half is local row 2 or 3. `UnifiedCell` reads the
  drawing the other way. The lemmas prove that the two are inverse, so the
  translation is a bijection between the 160 grid cells and the 2 x 4 x 20
  physical cells.
- **The screen controller** (`screen.dfy`, module `DualScreen`). Class `Screen`
  stands for `struct lcd_screen`. Its fields `currentCol`/`currentRow` are the
  tracked cursor. The single-unit driver (`lcd.h`) is not modelled. Instead,
  every call the controller makes on it is appended to the field `driverCalls`
  as a `DriverCall` value: `LcdInit`, `LcdClear`, `LcdSetCursor`,
  `LcdWriteChar` or `LcdDestroy`, each addressed to unit 0 or 1. The
  specification functions beside the class say what a character write does:
  - `Advance` moves the cursor on;
  - `StepCursor` is the move a write makes;
  - `WriteCharCalls` lists the two driver calls of one write;
  - `Run` is the combined effect of writing a whole text.

  The methods are proved against these functions, and the functions' own
  properties are proved as lemmas. The main one is that the reading-order
  index `row * 40 + col` goes up by one per character written.

Argument order follows the source. `SetScreenPosition(col, row)` translates
`(row, col)`, and the internal `WriteCharAt(col, row, letter)` is called with
`(currentCol, currentRow)`.

Two behaviours of the C code are undefined. The model makes both explicit:

- For a row outside 0..3 or a column outside 0..39, `translate_position`
  returns an uninitialised struct. Here it returns `OutOfBounds`. On
  `OutOfBounds`, `SetScreenPosition` and `WriteCharAt` make no driver call;
  the C code would pass the garbage fields on to the driver.
- Writing at (3, 39) leaves the tracked cursor at row 4 with column 0. The
  model keeps that advance exactly as written, since `Advance` gives (4, 0).
  The policy is to fail the next write: a write while the cursor is off the
  grid makes no driver call, leaves the cursor at (4, 0) and returns
  `written == false`. The C code would translate (4, 0) into an uninitialised
  position. As a result, `WriteText` writes the characters that fit before the
  end of the screen and drops the rest (`Run`'s contract says how many fit).

## Model

| member | source | states |
|---|---|---|
| Translator.TranslatePosition | lcd_dual.c:34-69 | The result is a position exactly when row is in 0..3 and col in 0..39; otherwise it is OutOfBounds, never a default value. A resolved position has unit 0 or 1, local row 0..3 and local column 0..19. |
| Translator.UnifiedCell | lcd_dual.c:22-28 | Reading the layout drawing backwards: every physical cell shows a cell of the 40x4 grid. Unit 0 shows rows 0-1, and local rows 0-1 show the left half. |
| Translator.TranslateFormula | lcd_dual.c:40-66 | For grid input, the unit is 0 for rows 0-1 and 1 otherwise. The local row is row % 2, plus 2 in the right half. The local column is col mod 20. |
| Translator.TranslateThenUnified | lcd_dual.c:34-69 | Translating a grid cell and reading the drawing back returns the same cell. |
| Translator.UnifiedThenTranslate | lcd_dual.c:34-69 | Every physical cell is the translation of the grid cell that the drawing assigns to it. |
| Translator.TranslateInjective | lcd_dual.c:34-69 | Two grid cells with the same translation are the same cell. |
| Translator.TranslateOnto | lcd_dual.c:24-28 | Every cell of the two 20x4 units is the translation of some grid cell. |
| Translator.TranslateImage | lcd_dual.c:24-28 | The image of the 160 grid cells is exactly the set of 2 x 4 x 20 physical cells. |
| Translator.LayoutCorners | lcd_dual.c:37-66 | The boundary cells map as drawn: (0,0), (0,19), (0,20), (1,39), (2,0) and (3,20). (4,0) and (0,40) are out of bounds. |
| DualScreen.Advance | lcd_dual.c:148-156 | For a column in 0..39, the new column is in 0..39 and the reading-order index row*40+col rises by exactly one. The row never decreases. |
| DualScreen.AdvancePastLastCell | lcd_dual.c:151-153 | The advance after a write at (3,39) gives (4,0), which is off the grid. |
| DualScreen.StepCursor | lcd_dual.c:143-163 | The cursor move of one write. It keeps the cursor reachable (on the grid, or at (4,0)). On the grid the reading-order index rises by one. Off the grid nothing moves. |
| DualScreen.WriteCharCalls | lcd_dual.c:74-77 | A write at an on-grid cursor makes exactly two driver calls. The first places one unit's cursor at a physical cell, and the drawing maps that cell back to the cursor. The second writes the character to the same unit and to no other. An off-grid cursor makes no call. |
| DualScreen.Run | lcd_dual.c:168-173 | Writing a text of n characters from a reachable cursor keeps it reachable. The reading-order index rises by n, capped at 160. Two driver calls are made per character that fits. |
| DualScreen.RunCallAt | lcd_dual.c:168-173 | Character k of a text, if it fits, goes to the physical cell of the grid cell k places after the starting cursor. Driver calls 2k and 2k+1 set that unit's cursor there and write text[k]. |
| DualScreen.RunAppend | lcd_dual.c:168-173 | Writing a + b equals writing a, then writing b from where a left the cursor, with the driver calls concatenated. Writing n characters therefore equals n successive character writes. |
| DualScreen.WriteFullRow | lcd_dual.c:168-173 | 40 characters from (r,0) make 20 writes to unit r/2 at local row r%2, columns 0..19, then 20 writes at local row r%2+2. The cursor ends at (r+1,0). For r = 0 this is unit 0's rows 0 and 2, ending at (1,0). |
| DualScreen.Screen.constructor | lcd_dual.c:89-110 | Initialises both units, starts the tracked cursor at (0,0), then clears both units and places unit 0's cursor at (0,0). The driver calls come in that order. |
| DualScreen.Screen.Destroy | lcd_dual.c:116-120 | Releases unit 0's handle, then unit 1's. |
| DualScreen.Screen.Clear | lcd_dual.c:125-128 | Clears unit 0, then unit 1. The tracked cursor is unchanged. |
| DualScreen.Screen.SetScreenPosition | lcd_dual.c:134-138 | Returns the translation of (row, col), given as (col, row). It sets the cursor of the resolved unit only, at the resolved local cell. On OutOfBounds it makes no call. The tracked cursor is unchanged. |
| DualScreen.Screen.WriteCharAt | lcd_dual.c:74-77 | Writes one character at unified (row, col). The driver calls are exactly WriteCharCalls of that cell. The tracked cursor is unchanged. |
| DualScreen.Screen.WriteChar | lcd_dual.c:143-163 | Writes at the cursor as it was before the advance. Afterwards the cursor is StepCursor of the old cursor, and the calls are WriteCharCalls of the old cursor. It reports a write exactly when the old cursor was on the grid. |
| DualScreen.Screen.WriteText | lcd_dual.c:168-173 | The new cursor and the added driver calls are exactly Run of the old cursor and the text, one character write per character, in order. |

## Findings

| source | as written | input that shows it | evidently intended | confidence | as-written member | corrected member |
|---|---|---|---|---|---|---|
| lcd_dual.c:151-153 | After a write at column 39 of row 3, the cursor advances to row 4. The next write translates (4, 0), and `translate_position` returns an uninitialised position for it (lcd_dual.c:37). | a 161st character written from (0, 0), or any write after one at (3, 39) | no write reaches the driver with a position outside the two units | not executed; high that the position is undefined, low on which policy the authors wanted | DualScreen.AdvancePastLastCell | DualScreen.WriteCharCalls |

## Left out

- The single-unit driver behind `lcd_init`, `lcd_set_cursor`, `lcd_write_char`, `lcd_clear` and `lcd_destroy` does hardware I/O and timing. It is represented only by the calls recorded in `driverCalls`.
- The display handles of `struct lcd_screen` are named by their index 0 or 1 in each recorded call. The handles themselves are not modelled, and neither is their lifetime.
- `malloc`/`free` of the screen and any use after `lcd_screen_destroy` are not modelled. This is memory management, and the C code has no check to model.
- The pin configuration structs and the copying of them into the driver's pin struct (include/lcd_dual.h:38-48, lcd_dual.c:91, 95) only pass values through to the driver.
- Failure of `lcd_init` is left out: the C code never checks its result, so there is no behaviour to model.
- Text is a `seq<char>`, and `WriteText` treats every element as a character to write. The scan for the terminating NUL of a C string (lcd_dual.c:170) is not modelled: a `'\0'` in the sequence is written like any other character, where the C loop would stop at it.
- A Dafny `char` stands for one C `char` byte. The C code moves one cell per byte, so a multi-byte UTF-8 character takes several cells there. Dafny chars above 255 have no C counterpart.
- The unused `currentPosition` local of `lcd_screen_write_char` (lcd_dual.c:145) has no effect and is not modelled.
- Coordinates are unbounded integers; the 32-bit width of C `int` is not modelled. In the model, the tracked row is at most 4, because a write with the cursor at (4, 0) fails and leaves it there. The C code (lcd_dual.c:148-162) advances the cursor on every write, so further writes would take it to (4, 1) and on to (5, 0) and beyond. `col - 20` is only taken for columns 20..39.
- Concurrent use of one screen is not modelled. The C code has no locking.
