# RustyLife in Dafny

A model of the core of RustyLife, a Conway's Game of Life program in Rust with two front ends:
an SFML one (`game_of_life`) and an SDL one (`rusty_life`). The model covers five pieces of the
program:

- **The set-based board** (`game_of_life/grid.rs`): a `HashSet` of cell keys `num_cols * row + col`.
  It includes the key conversions, `cell`, `set_cell` and the nine-branch toroidal
  `num_neighbors`, and `rule_result` (B3/S23).
- **The bit-vector board** (`game_of_life/grid_alternative.rs`): a vector of columns, each a
  bit vector of rows, with the same nine branches.
  - A cross-check proves that both boards give the same answers on the same live cells.
- **The RLE pattern reader** (`rusty_life/file_reader.rs`).
  - Header lines: `#N`, `#O` and the `x = .., y = ..` size line.
  - Body lines: run counts, then `o`, `b`, `$` and `!`.
- **The press/hold input tables** (`rusty_life/input.rs`), updated from a sequence of events.
- **The control logic of the SDL main loop** (`rusty_life.rs`): board padding to multiples of 16,
  the simulation period, the toggles, ESC, and when a generation is requested.

Layout:

| files | contents |
|---|---|
| `wrappers.dfy`, `torus.dfy` | `Option`, wrap-around, the eight neighbour offsets, the B3/S23 rule. |
| `grid.dfy`, `grid_alternative.dfy`, `grid_equivalence.dfy` | The two boards and the cross-check. |
| `text.dfy` | The `str` operations the reader uses. |
| `file_reader.dfy`, `file_reader_properties.dfy` | The reader and its lemmas. |
| `input.dfy`, `input_properties.dfy` | The input tables and their lemmas. |
| `rusty_life.dfy`, `rusty_life_properties.dfy` | The main-loop control logic and its lemmas. |

How the imperative code is modelled:
- **Boards.**
  - Each board is a class whose cells field changes in place.
  - `num_neighbors` is a method that:
    - follows the source's nine boundary branches;
    - is proved to return the uniform count: the eight neighbours, each found by wrapping
      (col ± 1, row ± 1) around the torus.
- **Reader.** `read_rle` is a method with the source's loops, cursor and `last_idx` bookkeeping,
  proved equal to a line-by-line, character-by-character definition (`RleFile`).
  - A failed `unwrap` is the outcome `Panicked`.
  - An invalid character is `Returned(None)`.
- **Input.** `update_input` is a method over two 32-slot arrays, proved equal to a fold of `Step`
  over the events.
- **Main loop.** `run` is a loop over frames, proved equal to the fold `Frames`.

Notes on the code:
- The bit-vector board is column-major (`cells[col][row]`).
- Its `cell` and `set_cell` index without a range check, so they panic off the board. The model
  gives them a precondition instead.
- Both boards use nine explicit boundary branches rather than a modulo.

## Model

| member | source | states |
|---|---|---|
| HashGrid.Grid.constructor | src/game_of_life/grid.rs:48-56 | The new board has the given numbers of columns and rows, and no live cell. |
| HashGrid.Grid.KeyInBoard | src/game_of_life/grid.rs:59-61 | The key of an in-range cell is below `num_cols * num_rows`. |
| HashGrid.Grid.CoordToKey | src/game_of_life/grid.rs:59-61 | Whenever `col < num_cols`, `key_to_coord` gives back (col, row). |
| HashGrid.Grid.KeyToCoord | src/game_of_life/grid.rs:63-67 | The column is below `num_cols`, and `num_cols * row + col` rebuilds the key. |
| HashGrid.Grid.KeyRoundTrip | src/game_of_life/grid.rs:59-67 | For every key, `key_to_coord` gives a column below `num_cols`, and encoding the result gives the key back. |
| HashGrid.Grid.KeyInjective | src/game_of_life/grid.rs:59-61 | Two coordinates with in-range columns have the same key only if they are equal. |
| HashGrid.Grid.Cell | src/game_of_life/grid.rs:92-100 | Off the board: None. On the board: Some(whether the coordinate is live). |
| HashGrid.Grid.UpdatedIdempotent | src/game_of_life/grid.rs:102-111 | Setting a cell twice to the same value is the same as setting it once. |
| HashGrid.Grid.SetCell | src/game_of_life/grid.rs:102-111 | An in-range key is inserted or removed; an out-of-range call changes nothing. The cell then reads the value; every other cell is unchanged. |
| HashGrid.Grid.CountLive | src/game_of_life/grid.rs:236-239 | The counting loop returns the number of listed keys that are live. |
| HashGrid.Grid.CountKeysEight | src/game_of_life/grid.rs:236-239 | For eight keys, the count is the sum of their eight `contains as usize` bits. |
| HashGrid.Grid.ToroidalCountEight | src/game_of_life/grid.rs:139-241 | The toroidal count is the sum over the eight wrapped neighbours (col ± 1, row ± 1). |
| HashGrid.Grid.InteriorKeys | src/game_of_life/grid.rs:142-151 | The interior branch stores eight keys that count exactly the toroidal neighbours. |
| HashGrid.Grid.TopEdgeKeys | src/game_of_life/grid.rs:152-161 | The same, for a top-row cell that is not a corner. |
| HashGrid.Grid.BottomEdgeKeys | src/game_of_life/grid.rs:162-171 | The same, for the bottom row. |
| HashGrid.Grid.LeftEdgeKeys | src/game_of_life/grid.rs:172-181 | The same, for the left column. |
| HashGrid.Grid.RightEdgeKeys | src/game_of_life/grid.rs:182-191 | The same, for the right column. |
| HashGrid.Grid.TopLeftKeys | src/game_of_life/grid.rs:192-201 | The same, for the top-left corner. |
| HashGrid.Grid.BottomRightKeys | src/game_of_life/grid.rs:202-211 | The same, for the bottom-right corner. |
| HashGrid.Grid.BottomLeftKeys | src/game_of_life/grid.rs:212-221 | The same, for the bottom-left corner. |
| HashGrid.Grid.TopRightKeys | src/game_of_life/grid.rs:222-231 | The same, for the top-right corner. |
| HashGrid.Grid.NumNeighbors | src/game_of_life/grid.rs:139-241 | Returns None exactly off the board. On the board it returns the toroidal neighbour count, which is at most 8. |
| HashGrid.Grid.RuleResult | src/game_of_life/grid.rs:113-137 | Returns None exactly off the board. On the board it returns B3/S23 of the cell's state and its toroidal count. |
| Torus.Bit | src/game_of_life/grid.rs:238 | `bool as usize`: 1 exactly for true, else 0. |
| BitGrid.Grid.constructor | src/game_of_life/grid_alternative.rs:47-54 | `board_size.0` columns, each of `board_size.1` cleared bits; no live cell. |
| BitGrid.Grid.Cell | src/game_of_life/grid_alternative.rs:80-82 | An in-range cell reads true exactly when its coordinate is live. |
| BitGrid.Grid.SetCell | src/game_of_life/grid_alternative.rs:84-86 | Only bit `row` of column `col` changes. The live set gains or loses exactly (col, row). |
| BitGrid.ToroidalCountEight | src/game_of_life/grid_alternative.rs:109-210 | The toroidal count is the sum over the eight wrapped neighbours. |
| BitGrid.Grid.InteriorCount | src/game_of_life/grid_alternative.rs:115-124 | The eight additions of the interior branch return exactly the toroidal count. |
| BitGrid.Grid.TopEdgeCount | src/game_of_life/grid_alternative.rs:125-134 | The same, for the top-row branch. |
| BitGrid.Grid.BottomEdgeCount | src/game_of_life/grid_alternative.rs:135-144 | The same, for the bottom-row branch. |
| BitGrid.Grid.LeftEdgeCount | src/game_of_life/grid_alternative.rs:145-154 | The same, for the left-column branch. |
| BitGrid.Grid.RightEdgeCount | src/game_of_life/grid_alternative.rs:155-164 | The same, for the right-column branch. |
| BitGrid.Grid.TopLeftCount | src/game_of_life/grid_alternative.rs:165-174 | The same, for the top-left corner. |
| BitGrid.Grid.BottomRightCount | src/game_of_life/grid_alternative.rs:175-184 | The same, for the bottom-right corner. |
| BitGrid.Grid.BottomLeftCount | src/game_of_life/grid_alternative.rs:185-194 | The same, for the bottom-left corner. |
| BitGrid.Grid.TopRightCount | src/game_of_life/grid_alternative.rs:195-204 | The same, for the top-right corner. |
| BitGrid.Grid.NumNeighbors | src/game_of_life/grid_alternative.rs:109-210 | Returns None exactly off the board. On the board it returns the toroidal count, which is at most 8. |
| BitGrid.Grid.RuleResult | src/game_of_life/grid_alternative.rs:88-107 | Returns None exactly off the board. On the board it returns B3/S23 of the cell and its toroidal count. |
| GridEquivalence.SameCell | src/game_of_life/grid_alternative.rs:80-82 | With the same live cells, the two boards' `cell` agree on every in-range cell. |
| GridEquivalence.SameAliveAt | src/game_of_life/grid.rs:139-241 | Both boards see the same state at every wrapped offset. |
| GridEquivalence.SameCountOver | src/game_of_life/grid.rs:139-241 | Both boards give the same count over any list of offsets. |
| GridEquivalence.SameToroidalCount | src/game_of_life/grid_alternative.rs:109-210 | Both boards give the same toroidal count around every cell. |
| GridEquivalence.SameRuleResult | src/game_of_life/grid.rs:113-137 | The two `rule_result`s return the same value on every coordinate. The value is None exactly off the board. |
| Text.StripStart | src/rusty_life/file_reader.rs:39 | The result is a suffix of the input. Only characters from the drop set were removed, and the remaining first character is not one of them. |
| Text.StripEnd | src/rusty_life/file_reader.rs:39 | The result is a prefix of the input. Only characters from the drop set were removed, and the remaining last character is not one of them. |
| Text.RemoveWhitespace | src/rusty_life/file_reader.rs:43 | The result holds no whitespace, and a string without whitespace is unchanged. A single character is dropped exactly when it is whitespace. With `RemoveWhitespaceConcat`, this keeps every other character, in order. |
| Text.Trim | src/rusty_life/file_reader.rs:39 | The result neither starts nor ends with whitespace. A string that neither starts nor ends with whitespace is kept as it is. |
| Text.FirstPiece | src/rusty_life/file_reader.rs:97-98 | The result is the longest prefix without the separator. The character after it, if any, is the separator. |
| Text.AfterFirst | src/rusty_life/file_reader.rs:97-99 | None exactly when the separator does not occur. Otherwise the input is the first piece, the separator, then this rest. |
| Text.Utf8Len | src/rusty_life/file_reader.rs:91 | Between 1 and 4 bytes, and 1 byte exactly for ASCII. |
| Text.ParseUsize | src/rusty_life/file_reader.rs:53 | A parsed value always fits a 64-bit `usize`. |
| Text.ParseDecimal | src/rusty_life/file_reader.rs:53 | Every numeral up to `usize::MAX` parses back to its value, with or without a leading `+`. |
| Text.ParseRejects | src/rusty_life/file_reader.rs:53 | These do not parse: text with a non-digit other than a leading `+`, the empty string, and a lone `+`. |
| Text.ParseOverflow | src/rusty_life/file_reader.rs:53 | A numeral above `usize::MAX` does not parse. |
| FileReader.Apply | src/rusty_life/file_reader.rs:47-81 | `$` moves N rows down to column 0. `o` and `b` move N columns right. Only `o` adds cells, N of them. The header fields are kept and cells are only appended. |
| FileReader.BodyChars | src/rusty_life/file_reader.rs:42-89 | A body line keeps the header fields and only appends cells. It stops only at a `!` in the line. It is rejected only when it holds an invalid character. |
| FileReader.SizeLine | src/rusty_life/file_reader.rs:96-100 | A size line that reads ends the header. It needs a comma, and it changes neither the cells, the cursor, the name nor the author. |
| FileReader.HeaderLine | src/rusty_life/file_reader.rs:91-104 | A header line never adds cells or moves the cursor. Only a line starting with `x` can end the header. |
| FileReader.LineStep | src/rusty_life/file_reader.rs:39-104 | A header line never stops or rejects the pattern and adds no cells. A body line only appends cells. Only a body line can stop at `!`. |
| FileReader.ScanLines | src/rusty_life/file_reader.rs:34-108 | A pattern the lines produce extends the cells read before them. |
| FileReader.RleFile | src/rusty_life/file_reader.rs:15-109 | A file that cannot be opened gives None. An empty file gives the default, empty pattern. |
| FileReader.Run | src/rusty_life/file_reader.rs:65-67 | A run of n live cells from column `col` is exactly the cells (col + k, row) for k < n. |
| FileReader.PushRun | src/rusty_life/file_reader.rs:65-67 | The push loop appends exactly that run to the pattern. |
| FileReader.RunTag | src/rusty_life/file_reader.rs:47-81 | Returns None exactly when the count does not parse. Otherwise it applies the tag with the count, or with 1 if there are no digits. |
| FileReader.ScanBody | src/rusty_life/file_reader.rs:42-89 | The character loop with `last_idx` gives exactly the character-level definition of a body line. |
| FileReader.ReadHeader | src/rusty_life/file_reader.rs:91-104 | The header branch gives exactly the definition of a header line, including its panics. |
| FileReader.ReadRle | src/rusty_life/file_reader.rs:15-109 | `read_rle` gives exactly `RleFile`: None when the file cannot be opened, otherwise the line-by-line result. |
| FileReaderProperties.DigitsAccumulate | src/rusty_life/file_reader.rs:46 | Digits only extend the pending count. |
| FileReaderProperties.CountedTag | src/rusty_life/file_reader.rs:47-81 | A tag after the numeral of n acts with count n. |
| FileReaderProperties.TagStep | src/rusty_life/file_reader.rs:47-81 | A tag panics if its pending count does not parse. Otherwise the line goes on after the tag with no digits pending. |
| FileReaderProperties.TagForms | src/rusty_life/file_reader.rs:47-81 | A tag with the numeral of N acts with count N. The same tag without digits acts with count 1. |
| FileReaderProperties.LiveRun | src/rusty_life/file_reader.rs:58-71 | `No` appends (col + k, row) for k < N and moves N columns on. A bare `o` appends one cell. |
| FileReaderProperties.DeadRun | src/rusty_life/file_reader.rs:72-81 | `Nb` moves N columns on and adds no cell. A bare `b` moves one column. |
| FileReaderProperties.RowRun | src/rusty_life/file_reader.rs:47-57 | `N$` moves N rows down and back to column 0. A bare `$` moves one row. |
| FileReaderProperties.CountOverflow | src/rusty_life/file_reader.rs:53 | A count above `usize::MAX` before a tag makes the reader panic. |
| FileReaderProperties.InvalidChar | src/rusty_life/file_reader.rs:83-87 | Any character that is not a digit, a tag or `!` rejects the pattern. |
| FileReaderProperties.StopIgnoresRest | src/rusty_life/file_reader.rs:82 | Nothing after `!` affects the result. |
| FileReaderProperties.TrailingDigitsIgnored | src/rusty_life/file_reader.rs:40-46 | Digits at the end of a line are dropped, so a count never carries into the next line. |
| FileReaderProperties.BodyAppend | src/rusty_life/file_reader.rs:44-89 | Text that ends on a tag passes its cursor on, with no digits pending. |
| FileReaderProperties.HeaderName | src/rusty_life/file_reader.rs:93 | `#N..` sets the name to the rest of the trimmed line. |
| FileReaderProperties.HeaderAuthor | src/rusty_life/file_reader.rs:92 | `#O..` sets the author to the rest of the trimmed line. |
| FileReaderProperties.HeaderSkipped | src/rusty_life/file_reader.rs:91-104 | Any other header line leaves the state unchanged, unless it starts with a two-byte character. |
| FileReaderProperties.HeaderTwoByteLead | src/rusty_life/file_reader.rs:94-95 | A header line whose first character is two bytes in UTF-8 makes the reader panic. |
| FileReaderProperties.SplitAt | src/rusty_life/file_reader.rs:97-99 | Splitting `a , b` at its first comma gives `a`, then `b`. |
| FileReaderProperties.NoSplit | src/rusty_life/file_reader.rs:98 | A string without the separator is its own first piece. |
| FileReaderProperties.StripTag | src/rusty_life/file_reader.rs:98-99 | `trim_matches` of `x`/`y` and `=` leaves the numeral. |
| FileReaderProperties.SecondField | src/rusty_life/file_reader.rs:99 | The height field ends at the next comma or at the end of the line. |
| FileReaderProperties.SizeLineOf | src/rusty_life/file_reader.rs:96-100 | Two fields that parse set the width and the height, and end the header. |
| FileReaderProperties.SizeFields | src/rusty_life/file_reader.rs:96-100 | `x=W,y=H` with any further fields sets width W and height H, and ends the header. |
| FileReaderProperties.SizeLineRead | src/rusty_life/file_reader.rs:94-101 | A header line `x = W, y = H[, ..]` sets the size and ends the header. |
| FileReaderProperties.RemoveWhitespaceConcat | src/rusty_life/file_reader.rs:43 | Removing whitespace commutes with concatenation. |
| FileReaderProperties.RemoveWhitespaceTrim | src/rusty_life/file_reader.rs:39-43 | Trimming first does not change what removing whitespace leaves. |
| FileReaderProperties.BodyWhitespaceIgnored | src/rusty_life/file_reader.rs:39-43 | A body line reads the same as the line with all of its whitespace removed. |
| FileReaderProperties.CountsDoNotSpanLines | src/rusty_life/file_reader.rs:40 | A body line ending in digits ends in the same state as without them. |
| FileReaderProperties.StopLine | src/rusty_life/file_reader.rs:82 | After `!`, the result is the pattern read so far, whatever the later lines hold. |
| FileReaderProperties.InvalidBody | src/rusty_life/file_reader.rs:83-87 | An invalid character after whole runs rejects the line. |
| FileReaderProperties.InvalidLine | src/rusty_life/file_reader.rs:83-87 | An invalid character makes the whole result None, whatever the later lines hold. |
| FileReaderProperties.FileEnds | src/rusty_life/file_reader.rs:18-24 | An unopenable file gives None. Running out of lines gives the pattern read so far. |
| UserInput.Index | src/rusty_life/input.rs:193-207 | Every key's slot is below `KEY_MAP_SIZE` (32), so indexing is always in bounds. |
| UserInput.IndexInjective | src/rusty_life/input.rs:9-30 | Distinct keys have distinct slots. |
| UserInput.KeyOf | src/rusty_life/input.rs:69-147 | Exactly the fourteen listed key codes are tracked, each on a keyboard slot. |
| UserInput.Press | src/rusty_life/input.rs:72-73 | Going down, the key is held. It is pressed exactly when it was not held before. Every other slot and the mouse motion are kept. |
| UserInput.Release | src/rusty_life/input.rs:132 | Going up, the key is no longer held. `pressed` and every other slot are kept. |
| UserInput.Step | src/rusty_life/input.rs:68-179 | One event keeps both tables at 32 slots and leaves the mouse motion alone. |
| UserInput.ApplyEvents | src/rusty_life/input.rs:67-181 | The events of a frame keep both tables at 32 slots and leave the mouse motion alone. |
| UserInput.Update | src/rusty_life/input.rs:64-188 | A frame keeps both tables at 32 slots and records the frame's mouse motion. |
| UserInput.Input.constructor | src/rusty_life/input.rs:46-58 | Nothing pressed, nothing held, no mouse motion. |
| UserInput.Input.GetInputMap | src/rusty_life/input.rs:60-62 | Returns a copy of the current tables and mouse motion. |
| UserInput.Input.PressKey | src/rusty_life/input.rs:72-73 | `pressed[k] := !hold[k]`, then `hold[k] := true`, in place. |
| UserInput.Input.ReleaseKey | src/rusty_life/input.rs:132 | `hold[k] := false`, in place. |
| UserInput.Input.HandleEvent | src/rusty_life/input.rs:68-179 | One event changes the arrays exactly as `Step` says. |
| UserInput.Input.UpdateInput | src/rusty_life/input.rs:64-188 | A frame clears `pressed`, applies the events in order and records the mouse motion, exactly as `Update` says. |
| InputProperties.IgnoredEvent | src/rusty_life/input.rs:127 | Untracked key codes, events without a key code, other mouse buttons and other events change nothing. |
| InputProperties.KeyDownEdge | src/rusty_life/input.rs:69-126 | A key that goes down is pressed exactly when it was not held, and is held afterwards. Other slots are untouched. A repeated KeyDown is not a press. |
| InputProperties.KeyUpKeepsPressed | src/rusty_life/input.rs:130-147 | A key that goes up is no longer held. `pressed` and the other slots are untouched. |
| InputProperties.RightButtonIsLeft | src/rusty_life/input.rs:149-167 | Right-button events act exactly like left-button events. |
| InputProperties.RightSlotUntouched | src/rusty_life/input.rs:149-167 | No event sequence changes the `MouseRightButton` slot. |
| InputProperties.RightSlotNeverPressed | src/rusty_life/input.rs:149-167 | After any frame, `MouseRightButton` does not read as pressed. |
| InputProperties.Wheel | src/rusty_life/input.rs:169-177 | y > 0 sets `MouseWheelUp` and y < 0 sets `MouseWheelDown`. y == 0 clears both. `hold` is untouched. |
| InputProperties.PressedHasCause | src/rusty_life/input.rs:64-181 | A `pressed` slot that ends up set was already set, or one of the events drove it. |
| InputProperties.PressedThisFrame | src/rusty_life/input.rs:65 | A frame reports a press only for a slot that one of its own events drove. |
| InputProperties.TablesOnly | src/rusty_life/input.rs:67-181 | The tables after the events depend only on the tables before them. |
| InputProperties.UpdateForgetsPressed | src/rusty_life/input.rs:65 | A frame's result depends on the previous frame only through `hold`. |
| InputProperties.QuietFrame | src/rusty_life/input.rs:65 | A frame without events: nothing pressed, and `hold` kept. |
| RustyLife.PadSize | src/rusty_life.rs:25-28 | A multiple of 16, at least the input and below input + 16, unchanged if already a multiple. None exactly when the `u32` addition overflows. |
| RustyLife.PadBoard | src/rusty_life.rs:24-32 | Both dimensions are padded. |
| RustyLife.Slower | src/rusty_life.rs:98-107 | NumPLUS adds 10 with LSHIFT held when the period is below `u128::MAX - 10`, and 1 without LSHIFT when it is below `u128::MAX`. Otherwise the period is unchanged. It never decreases and stays a `u128`. |
| RustyLife.Faster | src/rusty_life.rs:109-118 | NumMINUS subtracts 10 with LSHIFT held when the period is above 10, and 1 without LSHIFT when it is above 0. Otherwise the period is unchanged. It never increases and never underflows. |
| RustyLife.Control | src/rusty_life.rs:85-118 | The period stays a `u128`. ESC clears `run` and nothing sets it again; R flips `render`; SPACE flips `run_sim`. |
| RustyLife.Generations | src/rusty_life.rs:88-90 | At most two per frame. None exactly when N is not pressed and the timed step is not due. |
| RustyLife.Frames | src/rusty_life.rs:81-141 | A stopped loop does nothing, and a loop that ends running started running. The input tables keep 32 slots. |
| RustyLife.AdjustPeriod | src/rusty_life.rs:98-118 | The two `if` chains compute NumPLUS, then NumMINUS. |
| RustyLife.ControlFrame | src/rusty_life.rs:85-123 | One loop body computes exactly `Control` and `Generations`. |
| RustyLife.Run | src/rusty_life.rs:70-141 | The loop ends exactly as `Frames` says: settings, input state and generations per frame. |
| RustyLifeProperties.PadLeast | src/rusty_life.rs:25-28 | The padded size is the least multiple of 16 that is at least the input. |
| RustyLifeProperties.PlusThenMinus | src/rusty_life.rs:98-118 | NumPLUS then NumMINUS restores the period where NumPLUS had room. With LSHIFT, a period of 0 is the exception. |
| RustyLifeProperties.MinusThenPlus | src/rusty_life.rs:98-118 | NumMINUS then NumPLUS restores the period where NumMINUS had room. With LSHIFT, `u128::MAX` is the exception. |
| RustyLifeProperties.PeriodSaturates | src/rusty_life.rs:98-118 | At the ends of the range the period stays put. With LSHIFT it stops at 10, and at `u128::MAX - 10`. |
| RustyLifeProperties.ToggleTwice | src/rusty_life.rs:91-96 | Two frames with the same input restore `render` and `run_sim`. |
| RustyLifeProperties.EscStops | src/rusty_life.rs:81-87 | A frame with ESC pressed is the last one the loop runs. |
| RustyLifeProperties.PeriodInRange | src/rusty_life.rs:98-118 | Over any number of frames, the period never overflows or underflows a `u128`. |
| RustyLifeProperties.EntriesAppended | src/rusty_life.rs:81-141 | The loop only appends, at most one entry per frame. |
| RustyLifeProperties.EntriesBounded | src/rusty_life.rs:88-123 | Every frame asks for at most two generations. |
| RustyLifeProperties.EveryFrameRuns | src/rusty_life.rs:81-141 | A loop that ESC did not stop runs every frame. |

## Left out

- **Floating-point geometry and rendering.** The vertex lines in both `Grid::new`,
  `world_to_cell`, `cell_to_world`, the renderer, the view, the SFML/SDL windows and the audio.
  These are f32 graphics and foreign libraries.
- **`run_lifecycle` and the word-packed grid of the SDL front end.** Neither is in any file of
  this model. The main loop only counts the generations it asks for.
- **The random initial board in `RustyLife::new`.** It uses `rand` and calls `set_cell`
  repeatedly.
- **The `Instant` timers, the FPS counter and `print!` in `run`.** They are clocks and I/O. The
  milliseconds since the last timed generation are part of each frame's input.
  - The loop runs over a finite sequence of frames. The program's loop stops only on ESC.
- **The SDL event pump and `relative_mouse_state`.** They are replaced by a sequence of events
  and two numbers. The `Display` impl for `Key` is text output and is not modelled.
- **`File::open`, `BufReader` and the line read errors of `read_rle`** (`Err(_) => continue`).
  They are I/O. The file is a sequence of lines, or None if it cannot be opened.
- **Boards smaller than two columns or two rows.** On these boards `num_neighbors` reads cells that
  are not toroidal neighbours, or it panics. Both boards' `NumNeighbors` and `RuleResult` require
  at least 2×2.
  - Set-based board, 1×5: cell (0, 1) takes the left-edge branch. There `coord_to_key(1, row + 1)`
    is the key of (0, 3), which is not a neighbour.
  - Bit-vector board: the edge branches index column 1 or row 1, which do not exist, so they
    panic.
  - A board with no columns or no rows makes `num_cols - 1` or `num_rows - 1` underflow.
- HashGrid.Grid.CoordToKey, HashGrid.Grid.KeyToCoord: `usize` arithmetic is unbounded. The model
  ignores key overflow on boards whose `num_cols * row + col` passes 2^64.
- FileReader.Apply: the row and column counters of `read_rle` are unbounded. A `row +=` or
  `col +=` that would overflow `usize` (a panic in a debug build) is not modelled.
- FileReader.ScanBody: `last_idx` is an `i32` in the source. Its overflow on lines longer than
  2^31 bytes is not modelled.
- **Strings are sequences of Unicode scalar values.** Byte offsets matter in `l.get(..2)`, which
  the model handles through the UTF-8 length of the first two characters. Body lines are indexed
  by character: a non-ASCII character there is rejected before any slice could split it.
- RustyLife.PadSize: in a release build the `u32` addition wraps instead of panicking. The model
  gives None (the debug-build panic).
- BitGrid.Grid.Cell, BitGrid.Grid.SetCell: off the board the source panics on an index out of
  bounds. The model requires an in-range coordinate.
- **Split into helper methods.** These are written as separate methods, each proved on its own:
  - the nine branches of `num_neighbors`, on both boards;
  - the tag handling, character loop and header branch of `read_rle`;
  - the key handling of `update_input`;
  - the control block of `run`.

  The source has each inline.
