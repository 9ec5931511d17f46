# Writing_Robot text layout, modelled in Dafny

The driver in `main.c` turns the words of a text file into motion commands
for a pen plotter. It draws the text with a single-stroke vector font.
This project models the part with real logic:

- **Glyph lookup** (`find_character_data`). The font is a flat table of
  `(X, Y, Z)` records. A record with `X == 999` is a glyph header. Its `Y`
  is the character code and its `Z` the number of stroke records after it.
  The lookup returns the first header for the character.
- **Line layout** (`calculate_word_width`, `fits_in_line`,
  `reset_position`). These track the cursor `x`, `y` and the remaining line
  width, and decide when a word wraps to a new line.
- **Command generation** (`generate_gcode_for_word`). Every stroke of a
  glyph becomes a pen command followed by a move, placed at the cursor.
  Then the cursor moves one character cell to the right, whether or not the
  glyph was found.
- **The word loop of `main`**. It sets the initial cursor, then for each
  word does fit-or-wrap, draw, and one cell of space.

Modules:

- `Config` holds the `#define`s.
- `Font` holds the records, the lookup as a function, and
  `FindCharacterData`, the scanning loop proved against that function.
- `Gcode` holds the command datatype and the commands of a stroke, a
  character and a word, as functions, with lemmas about them.
- `Layout` holds word width, scale acceptance and one pass of the word loop
  as functions on a `State` value (cursor, remaining width, commands sent).
- `Driver` holds the class `Plotter`, whose fields are the variables `main`
  updates by reference, and `Session`, the word loop of `main` as a
  `while` loop. Each method is proved to produce the state the `Layout`
  functions describe.
- `Scenarios` holds two worked layouts.

Modelling choices:

- Coordinates, scale and widths are `real`.
- A character code is the byte read as a signed `char`, as `(int)character`
  does on the driver's targets.
- Commands are structured values, not text:
  - `Pen(1000 | 0)` is `S1000`/`S0`.
  - `Move(draw, x, y)` is `G1`/`G0`. The line-reset command is `Move(false, 0, y)`, because it is the same `G0 X Y` directive.
  - `Raw` is used only for the fixed start-up lines.
- The output is one sequence in sending order. Each stroke appends its pen/move pair, just as each `SendCommands` call in the stroke loop sends one pair.
- The methods use a font table of exactly `LINE_COUNT` records, as `main`
  declares it. The specification functions accept a table of any length.

Behaviour of `main.c` that the model keeps as written:

- After a wrap, `main.c` sets the remaining width to `LINE_WIDTH` and never
  deducts the wrapping word's width (main.c:121, main.c:180-186). So a line
  can run past `LINE_WIDTH`: `Scenarios.LineOverflowsAfterWrap` shows a
  word drawn from x = 100 to 190. `Layout.PlaceWordBalance` states the
  drift exactly.
- `main.c` sends one pen/move pair per stroke point (main.c:101-105), not
  one batch per word.
- `main.c` rescans the flat table on every lookup and validates nothing
  (main.c:76-84). The model rescans too.
- The line-reset move (main.c:123) and the final return to the origin
  (main.c:190) carry no pen command. They run under whatever pen power the
  last stroke set.

## Model

| member | source | states |
|---|---|---|
| `Font.CharCode` | main.c:75 | the character code is the byte read as a signed char: in [-128, 128) and congruent to the byte mod 256 |
| `Font.LookupFirstSentinel` | main.c:73-85 | the lookup finds a glyph iff some record is a header with X 999 and Y equal to the code; the glyph starts right after the FIRST such header and its count is that header's Z |
| `Font.LookupIgnoresSuffix` | main.c:76-82 | the scan returns at the first header, so records after it (a later duplicate header, padding up to LINE_COUNT) never change the result |
| `Font.FindCharacterData` | main.c:73-85 | scanning the LINE_COUNT records returns the index after the first header for the character and that header's Z; when no header exists it returns not-found and leaves the caller's stroke count untouched; the result agrees with `Lookup` |
| `Layout.CalculateWordWidth` | main.c:45-48 | a word's width is never negative for a non-negative scale |
| `Layout.WordWidthMonotone` | main.c:45-48 | the width is non-decreasing in the word's length and in the scale |
| `Layout.GetScaleFactor` | main.c:34-36 | an input is accepted iff SCALE_MIN <= s <= SCALE_MAX (both inclusive); the factor used multiplies back to the input, so it lies in [4/18, 10/18] |
| `Layout.ScaleIsCellWidth` | main.c:34-47 | with an accepted input s, one character cell is s units wide and a word of n bytes is n * s wide |
| `Gcode.StrokeCommandsAt` | main.c:97-105 | stroke k yields exactly the commands at positions 2k and 2k+1: S1000 then G1 when its Z is non-zero, S0 then G0 when it is zero, with the move at (X * scale + x, Y * scale + y) |
| `Gcode.StrokeCommandsLength` | main.c:97-106 | a glyph yields exactly two commands per stroke |
| `Gcode.StrokeCommandsPaired` | main.c:99-105 | each stroke's move follows a pen command that agrees with it (draws iff the pen is at 1000) |
| `Gcode.CharCommandsPaired` | main.c:94-111 | the commands of one character, found or not, are agreeing pen/move pairs |
| `Gcode.WordCommandsPaired` | main.c:91-113 | the commands of a whole word are agreeing pen/move pairs; a move is never sent under the wrong pen state |
| `Gcode.CharCommandsLength` | main.c:94-111 | a character yields two commands per stroke of its glyph, and none when the glyph is missing |
| `Gcode.WordCommandsLength` | main.c:91-113 | a word yields exactly two commands per stroke of its found glyphs |
| `Gcode.WordCommandsSplit` | main.c:91-113 | a word's commands are those of its first part followed by those of the rest, placed |first part| cells to the right; characters never interleave |
| `Gcode.UnresolvedCharacterGap` | main.c:108-112 | a character without a glyph yields no commands but still takes one cell: what follows is drawn one cell further right |
| `Gcode.CellStartIsOffset` | main.c:112 | n per-character advances move the cursor by exactly n * CHAR_WIDTH * scale |
| `Layout.CellStartWidth` | main.c:45-112 | the per-character advances of a word add up to the width `calculate_word_width` gives it |
| `Layout.DrawWordAdvance` | main.c:88-113 | drawing a word advances x by exactly its width and changes neither y nor the remaining width |
| `Layout.NewLineLowers` | main.c:117-125 | a new line sets x to 0 and the remaining width to LINE_WIDTH, moves y strictly down for a non-negative scale, and sends exactly one G0 move `Move(false, 0, y)` to (0, new y), with no pen command |
| `Layout.PlaceWordCases` | main.c:177-187 | one word in closed form: it fits and its width plus one cell come off the remaining width; or the line wraps exactly once, the word is drawn at the next margin however wide it is, and only the cell comes off the full width |
| `Layout.PlaceWordBalance` | main.c:172-187 | x plus the remaining width stays unchanged when a word fits; after a wrap it is LINE_WIDTH plus the wrapping word's width |
| `Layout.PlaceWordsAppends` | main.c:175-187 | the word loop only appends commands; everything sent earlier is kept unchanged and in order |
| `Layout.PlaceWordsDescend` | main.c:177-187 | for a non-negative scale, the cursor never moves up the page over any run of words |
| `Driver.Plotter.constructor` | main.c:136-173 | the start-up commands are sent, then x = 0, y = LINE_SPACING - CHAR_WIDTH * scale, remaining = LINE_WIDTH |
| `Driver.Plotter.FitsInLine` | main.c:51-59 | returns true iff remaining >= width; when true the remaining width drops by exactly the width, when false it is unchanged |
| `Driver.Plotter.ResetPosition` | main.c:117-125 | x := 0, y := y + LINE_SPACING - CHAR_WIDTH * scale, remaining := LINE_WIDTH, and exactly one G0 move `Move(false, 0, y)` to (0, new y) is sent, with no pen command |
| `Driver.Plotter.SendCharacter` | main.c:94-111 | looks the byte up and sends exactly the commands of its glyph at the cursor, none when the glyph is missing |
| `Driver.Plotter.DrawCharacter` | main.c:94-112 | one pass of the character loop: the i-th byte's commands are appended at its own cell and x moves to the next cell |
| `Driver.Plotter.SendStrokes` | main.c:95-107 | the stroke loop sends one pen/move pair per stroke record, in table order, at the cursor |
| `Driver.Plotter.GenerateGcodeForWord` | main.c:88-114 | sends the commands of each character in turn at its own cell, advances x by exactly the word's width, and leaves y unchanged |
| `Driver.Plotter.ProcessWord` | main.c:178-187 | one pass of the word loop: fit or wrap once, draw the word, then one cell of space off x and the remaining width, exactly as `PlaceWord` describes |
| `Driver.Plotter.ReturnToOrigin` | main.c:190 | the last command sent is a G1 move to the origin |
| `Driver.Session` | main.c:136-190 | the commands sent are the start-up lines, then the word loop's commands exactly as `PlaceWords` describes them, then the return to the origin |
| `Scenarios.TwoLetterDocument` | main.c:172-187 | with a font holding only 'A' and an input scale of 5, the text "A A" gives exactly S0/G0 to (0, -10), S1000/G1, then the same pair 10 units right, with no wrap |
| `Scenarios.LineOverflowsAfterWrap` | main.c:180-186 | at input scale 10, words of 10, 9 and 9 bytes put the third word from x = 100 to 190 on the wrapped line, past LINE_WIDTH |

## Left out

- Serial transport (`SendCommands`, `PrintBuffer`, `WaitForReply`, `WaitForDollar`, `Sleep`, `CanRS232PortBeOpened`, `CloseRS232Port`). These are foreign calls into `rs232.h` and `serial.h`, which are not part of this model. Sending is modelled only as appending to `out`. Acknowledgement, pacing and the exit on a port that cannot be opened are not modelled.
- File I/O. `open_file`, reading the font with `fscanf` and reading the words are left out, so the early exits on a missing file are not modelled either. The font table and the word list are inputs. A word is the byte string `%99s` produced, so it holds at most 99 bytes. A NUL byte inside a token is not modelled; `strlen` would stop at it.
- The prompt loop of `get_scale_factor`: re-prompting, non-numeric input and clearing the input buffer. Only the acceptance test and the returned value are modelled. `Session` takes the input the prompt finally accepted.
- The feed rate `F1000` of the start-up move (main.c:143). It is modelled as a plain drawing move to the origin.
- `printf` output: the missing-glyph message and the status lines.
- G-code text and `%.2f` rounding. Commands are structured values with exact coordinates.
- Floating point. Everything is `real`. So the model ignores the float/double mix in the remaining width. It also ignores that repeated float additions of the cell width may differ from the single product in `calculate_word_width`.
- Driver.Plotter.GenerateGcodeForWord: requires that every found glyph's strokes lie inside the table (`Renderable`). The source never checks this, and reading past the table is undefined behaviour in C. `Session` inherits this precondition.
