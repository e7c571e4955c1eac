# Level editor model

A model of the core of a 2D platformer level editor (`src/main.cpp`).

## What it models

**The level store.** The store holds levels, each an ordered list of platforms. A platform is a rectangle (x, y, width, height) with an RGBA colour. The store also keeps the bound `MAX_LEVELS` and the selected level.

**The level file.** SaveLevels writes the store as text:
- a `MAX_LEVELS = n;` line;
- then, for each level in index order, a `Level i:` header line, numbered from 1;
- then one `x y width height r g b a` line per platform.

LoadLevels reads such a text line by line:
- a line containing `MAX_LEVELS` resizes the store to the bound it scans;
- a line containing `Level` selects the next level;
- any other non-empty line, once a level is selected, is scanned as a platform and appended to that level.

**One frame of editing.**
- The colour buttons select the brush colour.
- The sliders set the bound, the current level and the brush size.
- The add-platform button appends a platform at (100, 100).
- The mouse pass over the current level's platforms deletes the platforms under the mouse on a right click. On a left click it records the platform to drag.
- The drag update moves the dragged platform by the mouse delta, and stops the drag when the left button is released.

**How the model is organised.**

| module | file | entity | form |
|---|---|---|---|
| `Levels` | `levels.dfy` | the store | values |
| `Text` | `text.dfy` | the decimal printing and `%d`-style scanning the file relies on | functions |
| `LevelLines` | `level_lines.dfy` | single lines, as written and scanned | functions |
| `LevelFile` | `level_file.dfy` | the whole file: `SaveText` for writing, and the loader as a left fold `Run` of `Step` over the lines | functions and lemmas |
| `Canvas` | `canvas.dfy` | the mouse pass and dragging | a loop over the level, plus the specification functions `Kept`, `LastHit` and `Target` |
| `Editor` | `editor.dfy` | the global state | the class `LevelEditor`, whose methods update its fields |

In `Editor`, `SaveLevels` and `LoadLevels` are loops proved against `SaveText` and `Load`.

**Faults.** The loader stops with a `Fault` where the source misbehaves:
- `NegativeSize`: `resize` of a negative length throws.
- `LevelOutOfRange`: a data line for a level the store lacks is undefined behaviour.
- `MalformedPlatform`: a data line from which `sscanf` does not read all eight fields as integral numerals. With fewer than four numerals, part of the rectangle is left indeterminate. With four to seven, the rectangle is defined and the unread colour channels keep the zero that `ImVec4`'s default constructor gives them; the model stops on these lines too, and on lines where one of the first seven numerals has a fraction or an exponent, which `%f` would read. A fraction or exponent on the eighth numeral is not a fault: it is left unread, and the model stores that field's integer part (`LevelLines.ScanPlatformIgnoresTail`).

In these cases the model states where the load stopped and with which state, instead of guessing what the program would hold.

**Inputs.** Everything that comes from the window system becomes a parameter:
- a button pressed, a slider value;
- whether the mouse is over a given platform (a predicate on platforms);
- the clicks, the mouse delta, and whether the left button is still down;
- whether the file opened, and the lines read from it.

## Model

| member | source | states |
|---|---|---|
| Levels.Resize | src/main.cpp:56 | the store after `resize(n)` has exactly n levels: the first ones kept, the rest empty |
| Levels.ResizeSnoc | src/main.cpp:56 | resizing a store one level longer puts that level in its slot when it is below the bound, and drops it otherwise |
| Text.IntText | src/main.cpp:27-35 | the text `<<` prints for an integer is non-empty, holds only digits and a minus sign, and does not start with white space |
| Text.ScanInt | src/main.cpp:55 | a `%d` conversion that succeeds leaves a strictly shorter rest of the line unread |
| Text.ScanIntSuffix | src/main.cpp:55 | what a `%d` conversion leaves unread is a suffix of the line that does not start with a digit, so it read the longest numeral there; it fails exactly when, after white space and an optional sign, no digit follows |
| Text.ScanIntText | src/main.cpp:27-35 | an integer printed by `<<`, followed by text that does not start with a digit (in the file: a space, `;`, `:` or the end of the line), is read back by `%d` as the same value, and the conversion stops right after it |
| Text.Contains | src/main.cpp:54 | a line that starts with the word contains it |
| Text.ContainsOccurs | src/main.cpp:54 | `find` succeeds exactly when the word occurs at some position of the line |
| Text.MissingCharNotContained | src/main.cpp:54 | `find` fails when one of the searched word's letters is not in the line |
| LevelLines.MaxLevelsLine | src/main.cpp:27 | the bound line starts with `MAX_LEVELS` and ends with `;` |
| LevelLines.LevelLine | src/main.cpp:29 | a header line starts with `Level` and ends with `:` |
| LevelLines.PlatformLine | src/main.cpp:32-35 | a platform line is non-empty and holds only numerals and the spaces between them |
| LevelLines.ScanPlatform | src/main.cpp:65-67 | the eight-field scan yields a platform exactly when eight numerals can be read from the line, and its fields are those numerals in order |
| LevelLines.ScanMaxLevels | src/main.cpp:55 | the bound is read only from a line that starts with `MAX_LEVELS` |
| LevelLines.ScanPlatformIgnoresTail | src/main.cpp:65-67 | text after the eighth numeral that does not continue its digits is left unread: the platform holds the eight numerals, so a fraction or exponent on the last field keeps only its integer part |
| LevelLines.ScanJoinShort | src/main.cpp:65-67 | a line of fewer numerals than conversions fails to scan |
| LevelLines.ShortLineMalformed | src/main.cpp:64-67 | a line with fewer than eight numerals is not read as a platform |
| LevelLines.ScanPlatformLine | src/main.cpp:32-35 | reading a written platform line with the eight-field `sscanf` gives back the same platform (src/main.cpp:65-67) |
| LevelLines.ScanMaxLevelsLine | src/main.cpp:27 | the `MAX_LEVELS = n;` line is read back as n by `sscanf(line, "MAX_LEVELS = %d;")` (src/main.cpp:55) |
| LevelLines.LevelLineIsHeader | src/main.cpp:29 | a written `Level i:` line is classified as a header: it contains `Level` and not `MAX_LEVELS` (src/main.cpp:54-59) |
| LevelLines.PlatformLineIsData | src/main.cpp:32-35 | a written platform line is non-empty and contains neither key, so the loader treats it as data (src/main.cpp:63) |
| LevelLines.MaxLevelsLineIsBound | src/main.cpp:27 | the first written line contains `MAX_LEVELS`, so the loader takes it as the bound line (src/main.cpp:54) |
| LevelFile.Step | src/main.cpp:54-69 | one loader step: only a `MAX_LEVELS` line changes the bound or the number of levels; only a header moves the cursor, by exactly one; any other line changes at most the level under the cursor, by at most one platform |
| LevelFile.StepCases | src/main.cpp:54-69 | a `MAX_LEVELS` line sets the bound to the scanned number, or keeps it when the scan fails, and resizes the store to it, stopping with NegativeSize when it is negative; a header selects the next level; a non-empty data line under a selected level appends exactly the scanned platform, or stops with MalformedPlatform or LevelOutOfRange; an empty line or a data line before the first header changes nothing |
| LevelFile.Run | src/main.cpp:52-70 | a load that stops, stops at one of the file's lines |
| LevelFile.Load | src/main.cpp:45-70 | the store is cleared first, so an empty file leaves no levels and the bound as it was; a load that reads to the end leaves the cursor on the last header read |
| LevelFile.RunCursor | src/main.cpp:50-61 | over a run that does not stop, the cursor advances by exactly the number of header lines |
| LevelFile.StepRender | src/main.cpp:24-69 | every line SaveLevels writes is read by the loader as what it was written from |
| LevelFile.RunRendered | src/main.cpp:52-70 | running the loader over written text is running it over the lines that text was written from |
| LevelFile.RunConcat | src/main.cpp:52-70 | loading two pieces of a file in turn is loading their concatenation; a stop in the first piece is final |
| LevelFile.RunHaltedPrefix | src/main.cpp:52-70 | once the loader stops at a fault, the rest of the file does not matter |
| LevelFile.SaveText | src/main.cpp:27-36 | the saved text has 1 + levels + platforms lines, and its first line is the bound line |
| LevelFile.SaveLayout | src/main.cpp:27-36 | the header of level i sits at 1 + i + (the platforms before it), and the platforms of level i follow it, one line each, in list order |
| LevelFile.SaveHeaderCount | src/main.cpp:28-29 | a saved text contains exactly one line the loader takes as a header per stored level |
| LevelFile.SaveThenLoad | src/main.cpp:45-75 | loading a saved text, for any bound n >= 0 and any prior bound, succeeds exactly when no platform lies in a level at or above n. It then yields the saved store resized to n, with bound n. Otherwise it stops with LevelOutOfRange |
| LevelFile.RoundTrip | src/main.cpp:24-75 | when the bound equals the number of levels, saving and then loading gives back every level, platform by platform, and the bound |
| LevelFile.NegativeBoundStops | src/main.cpp:55-56 | a saved text with a negative bound stops the load at its first line with NegativeSize, leaving the store empty |
| LevelFile.HeaderNumbersIgnored | src/main.cpp:59-61 | the number in a header line plays no part: files that differ only in their header lines load alike |
| LevelFile.IgnoredLines | src/main.cpp:63 | lines that contain neither key, read before the first header, leave the loader as it was |
| Editor.ButtonColor | src/main.cpp:131-136 | each colour button selects an opaque colour with exactly its own channel at full strength |
| Editor.NewPlatform | src/main.cpp:146 | the added platform sits at (100, 100) with the brush size and colour |
| Editor.AddedPlatformCount | src/main.cpp:145-146 | appending to one level raises the store's platform count by exactly one |
| Editor.LevelEditor.constructor | src/main.cpp:17-22 | the initial editor holds ten empty levels (src/main.cpp:108), level 0, a zero-sized green brush (src/main.cpp:111), and nothing dragged (src/main.cpp:112-113) |
| Editor.LevelEditor.SaveLevels | src/main.cpp:24-42 | when the file opens, the lines written are exactly `SaveText(levels, maxLevels)`; when it does not, nothing is written; the state does not change |
| Editor.LevelEditor.LoadLevels | src/main.cpp:45-75 | when the file does not open, store and bound are unchanged. Otherwise the result is `Load(lines, old bound)`, and the store and bound are the ones that load leaves |
| Editor.LevelEditor.PressColorButton | src/main.cpp:131-136 | the brush colour becomes the pressed button's colour |
| Editor.LevelEditor.MoveSliders | src/main.cpp:138-141 | bound, current level and brush size take the slider values. The store is not resized |
| Editor.LevelEditor.AddPlatform | src/main.cpp:145-146 | the current level gets exactly the new platform appended. Every other level is unchanged, and the platform count rises by one |
| Editor.LevelEditor.MousePass | src/main.cpp:159-175 | the current level becomes `Kept` on a right click and is otherwise unchanged; other levels are untouched. A left click that hits starts dragging at `Target`; without a hit the drag state is unchanged |
| Editor.LevelEditor.DragUpdate | src/main.cpp:177-186 | while dragging, only the dragged platform moves, by exactly the delta, and no other platform or level changes. Releasing the button ends the drag and clears the index to -1 |
| Canvas.VisitPlatforms | src/main.cpp:159-175 | the loop with in-place erase and `i--` leaves `Kept(hovered, ps)` after a right click and `ps` otherwise. On a left click with some platform hovered it records `Target`, which is >= 0; otherwise the drag state is kept |
| Canvas.VisitOne | src/main.cpp:165-173 | one visit keeps the loop invariant: visited part, untouched rest, index, last hit |
| Canvas.KeptMembers | src/main.cpp:170-173 | a platform survives a right click exactly when it was on the level and not under the mouse |
| Canvas.KeptConcat | src/main.cpp:170-173 | deletion is an order-preserving filter: deleting from a concatenation deletes from each part |
| Canvas.KeptNoHit | src/main.cpp:165 | with nothing under the mouse a right click deletes nothing |
| Canvas.KeptCount | src/main.cpp:170-173 | the level shrinks by exactly the number of platforms under the mouse |
| Canvas.TargetIsLastHit | src/main.cpp:166-169 | the recorded index is that of the last platform hit: its own index without a right click, and with one the number of survivors before it |
| Canvas.LastHitIsLast | src/main.cpp:166-169 | no platform after the recorded one is under the mouse |
| Canvas.KeptAfterLastHit | src/main.cpp:170-173 | after a right click every platform behind the last hit survives |
| Canvas.TargetBounds | src/main.cpp:159-175 | the recorded index lies in [-1, \|level\|]. Without a right click it is below the length. With one it is at most the length of what is left, and equals that length exactly when the last platform hit was the last one on the level |
| Canvas.TargetAfterErase | src/main.cpp:170-173 | after a right click, a recorded index that names a platform names the one that followed the last platform hit |
| Canvas.Moved | src/main.cpp:179-180 | a dragged platform keeps its size and colour |
| Canvas.DraggedBySum | src/main.cpp:177-186 | a drag over several frames moves the platform by the total mouse movement |

## Left out

- Window, OpenGL and ImGui calls, drawing, and the frame loop are not modelled (src/main.cpp:79-122, 148-158, 188-end). What the widgets report comes in as parameters, and the methods model one frame step at a time; how the steps compose into one frame is not modelled.
- File streams are not modelled: whether the file opens is an input, a file is its sequence of lines, and the error messages to `std::cerr` are left out.
- Floating point is not modelled: platform fields and colour channels are integers, printed in decimal as `<<` prints integral values.
- Large values that `<<` prints in scientific notation are not modelled.
- `%f` conversions of numerals with a fraction or an exponent are not modelled: the model's scanner reads an optional sign and a run of digits.
- LevelLines.ScanPlatform: a data line where one of the first seven numerals has a fraction or an exponent counts as malformed, where `%f` would read it. On the eighth numeral the fraction or exponent is dropped: the line `1 2 3 4 5 6 7 8.5` gives alpha 8 where the source stores 8.5, and `8e1` gives 8 where the source stores 80.
- LevelFile.Step: a data line that does not hold eight numerals stops the load with MalformedPlatform. With fewer than four numerals the source stores a platform with indeterminate fields. With four to seven, the source stores a fully defined platform whose unread colour channels are zero (the default of `ImVec4`; `imgui.h` is not part of this model), and goes on; the model stops on these lines as well (`LevelLines.ShortLineMalformed`).
- LevelFile.Step: a negative bound stops the load with NegativeSize, because `resize` of a negative `int` throws.
- LevelFile.Step: the bound, the cursor and the indices (`MAX_LEVELS`, `currentLevel`, `levelIndex`, `draggedPlatform`, src/main.cpp:18-19, 50, 113) are unbounded integers here, where the source has 32-bit `int`s. A `%d` numeral outside `int`'s range (undefined behaviour in C) is not modelled: the model reads its full value. Neither is an allocation failure (`std::bad_alloc`) when the store is resized to a very large bound: the model resizes to any bound that is not negative.
- Editor.LevelEditor.LoadLevels: the exception a negative bound raises (`std::length_error` from src/main.cpp:56) is not caught, so the program terminates. The model instead returns the halted load; the editor goes on, and its bound is then negative.
- LevelFile.Step: a data line for a missing level stops the load with LevelOutOfRange, because the source's `levels[levelIndex]` is then undefined behaviour.
- Editor.LevelEditor.MoveSliders: slider clamping is a precondition that the reported values are in range, not a model of ImGui's clamping.
- Editor.LevelEditor.AddPlatform and Editor.LevelEditor.MousePass: they require the current level to exist. The source indexes out of range (undefined behaviour) when it does not. That happens after a load that leaves fewer levels. It also happens after the MAX LEVELS slider (src/main.cpp:138-139) is raised: the slider never resizes the store, so with ten levels stored the current level can reach 10..199.
- Editor.LevelEditor.DragUpdate: it requires the recorded index to name a platform of the current level. After a right click in the same or a later frame the source can be left with a stale index (`Canvas.TargetBounds` shows when), and it then writes out of range.
- Canvas.VisitPlatforms: the pass edits a local copy of the current level that MousePass writes back, rather than the vector in place.
- The unused global `currPlatformColor` (src/main.cpp:22) is not modelled. The brush colour is `platformColor` (src/main.cpp:111).
