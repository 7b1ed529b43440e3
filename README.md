# Programming-exercise solutions, modelled and verified in Dafny

This project models some small solutions to classic programming puzzles and proves properties about them:

- **Check the check (C).** Reads chess boards until it meets an all-empty board. For each board it reports whether the white king, the black king or neither is in check.
- **3-digit interpreter (Java, two `Interpreter` classes).** A virtual machine with 10 registers and 1000 words of RAM. It runs three-digit instructions with arithmetic mod 1000.
  - One copy defers the program-counter increment, so a taken jump stores `registers[d] - 1`.
  - The other fetches with `ram[pc++]`.
  - The model proves that both copies run the same way.
- **Graphical editor (Java).** An `Image` of coloured pixels, plus the `CommandParser` that turns text lines into `I C L V H K F S X` commands.
  - The commands are new image, clear, pixel, vertical and horizontal line, rectangle, flood fill, save and exit.
  - Flood fill is proved equal to a reference definition: connected-region repainting.
- **Minesweeper (C, three copies).** Counts the mines around every cell. One copy probes the wrong column, and this is a finding.
- **LCD display (C).** Prints a number of up to eight digits as a seven-segment display at scale 1..10. The model proves that the display can be read back to the number.
- **Collatz (C, two copies).** The length of a 3n+1 sequence, and the largest length over a range.

## Modules

| file | module |
|---|---|
| `wrappers.dfy` | `Wrappers`: `Option` |
| `chess.dfy` | `CheckTheCheck` |
| `vm_core.dfy` | `VmCore`: Java int arithmetic, decoding, `execute` on values, the run loop |
| `vm_deferred.dfy` | `DeferredPcInterpreter`: pg_01 `Interpreter` |
| `vm_fetch.dfy` | `FetchIncrementInterpreter`: pg_01_ `Interpreter` |
| `vm_equivalence.dfy` | `InterpreterEquivalence`: the two interpreters agree |
| `editor.dfy` | `GraphicalEditor`: the `Image` class and the flood-fill theory |
| `command_parser.dfy` | `CommandParsing`: pg_01_ `CommandParser` |
| `minesweeper.dfy` | `Minesweeper` |
| `lcd.dfy` | `LcdDisplay` |
| `collatz.dfy` | `Collatz` |

**How state is modelled.**
- Where the source updates state step by step, the model does too:
  - Java fields and arrays become `class` fields and `array`s;
  - C loops become `while`/`for` loops with invariants.
- Each such method is proved against a specification function on values: `Step`, `RunFor`, `FloodFilled`, `ScanKing`, `MinesAround`, `RangeMax`.

**Java int arithmetic.** Register arithmetic, the counters and the program counter are modelled explicitly:
- 32-bit two's-complement wrap;
- `/` and `%` truncating toward zero.

## Model

| member | source | states |
|---|---|---|
| CheckTheCheck.CheckPawn | pg_01/pg_01_07_check_the_check/pg_01_07_check_the_check.c:81-94 | A white king is attacked exactly when a 'p' stands one row up in a neighbouring column; a black king, by a 'P' one row down |
| CheckTheCheck.IsInside | pg_01/pg_01_07_check_the_check/pg_01_07_check_the_check.c:14-16 | is_inside: no ensures of its own; a square is on the board exactly when both coordinates are in 0..7 |
| CheckTheCheck.RayHits | pg_01/pg_01_07_check_the_check/pg_01_07_check_the_check.c:26-36 | The while loop of one ray; no ensures of its own, its meaning (the first occupied square decides) is proved in RayHitsFrom |
| CheckTheCheck.AnyRayHits | pg_01/pg_01_07_check_the_check/pg_01_07_check_the_check.c:22-38 | The for loop over a direction table; no ensures of its own, specified by AnyRayHitsSpec and TableSees |
| CheckTheCheck.CheckRookQueen | pg_01/pg_01_07_check_the_check/pg_01_07_check_the_check.c:18-39 | check_rook_queen; no ensures of its own, specified by RookQueenSpec |
| CheckTheCheck.CheckBishopQueen | pg_01/pg_01_07_check_the_check/pg_01_07_check_the_check.c:41-62 | check_bishop_queen; no ensures of its own, specified by BishopQueenSpec |
| CheckTheCheck.KnightFrom | pg_01/pg_01_07_check_the_check/pg_01_07_check_the_check.c:70-77 | The loop of check_knight over its jump table; no ensures of its own, specified by KnightFromSpec |
| CheckTheCheck.CheckKnight | pg_01/pg_01_07_check_the_check/pg_01_07_check_the_check.c:64-79 | check_knight; no ensures of its own, specified by KnightSpec |
| CheckTheCheck.IsKingInCheck | pg_01/pg_01_07_check_the_check/pg_01_07_check_the_check.c:96-111 | is_king_in_check; no ensures of its own, specified by KingInCheckSpec and OnlyEnemyPiecesGiveCheck |
| CheckTheCheck.SeesFromOutside | pg_01/pg_01_07_check_the_check/pg_01_07_check_the_check.c:26 | A ray whose next square is off the board sees nothing |
| CheckTheCheck.SeesFromBlocked | pg_01/pg_01_07_check_the_check/pg_01_07_check_the_check.c:28-33 | The first occupied square on a ray decides alone: a hit exactly when it is one of the two enemy pieces |
| CheckTheCheck.SeesFromEmpty | pg_01/pg_01_07_check_the_check/pg_01_07_check_the_check.c:34-35 | An empty square lets the ray look on to the next square |
| CheckTheCheck.RayHitsFrom | pg_01/pg_01_07_check_the_check/pg_01_07_check_the_check.c:26-36 | The while loop of a ray reports a hit exactly when the first occupied square along the ray holds an enemy piece (the reference SeesFrom) |
| CheckTheCheck.RayHitsSees | pg_01/pg_01_07_check_the_check/pg_01_07_check_the_check.c:23-24 | Starting the walk from the neighbouring square is looking from distance 1 |
| CheckTheCheck.AnyRayHitsSpec | pg_01/pg_01_07_check_the_check/pg_01_07_check_the_check.c:22-38 | The for loop over the direction table finds a hit exactly when some later direction of the table does |
| CheckTheCheck.TableSees | pg_01/pg_01_07_check_the_check/pg_01_07_check_the_check.c:22-38 | A whole direction table reports an attack exactly when one of its directions sees an enemy piece first |
| CheckTheCheck.RookQueenSpec | pg_01/pg_01_07_check_the_check/pg_01_07_check_the_check.c:18-39 | check_rook_queen is true exactly when an enemy rook or queen is the first piece along some row or column from the king; any piece in between blocks |
| CheckTheCheck.RookTable | pg_01/pg_01_07_check_the_check/pg_01_07_check_the_check.c:20 | The four directions listed are exactly the orthogonal unit steps |
| CheckTheCheck.BishopQueenSpec | pg_01/pg_01_07_check_the_check/pg_01_07_check_the_check.c:41-62 | check_bishop_queen is true exactly when an enemy bishop or queen is the first piece along some diagonal |
| CheckTheCheck.BishopTable | pg_01/pg_01_07_check_the_check/pg_01_07_check_the_check.c:43 | The four directions listed are exactly the diagonal unit steps |
| CheckTheCheck.KnightFromSpec | pg_01/pg_01_07_check_the_check/pg_01_07_check_the_check.c:70-77 | The jump loop finds the knight exactly when one of the remaining jumps lands on it inside the board |
| CheckTheCheck.KnightSpec | pg_01/pg_01_07_check_the_check/pg_01_07_check_the_check.c:64-79 | check_knight is true exactly when a square a knight's jump away holds the enemy knight, whatever stands in between |
| CheckTheCheck.KnightTable | pg_01/pg_01_07_check_the_check/pg_01_07_check_the_check.c:65-68 | The eight moves listed are exactly the knight's jumps |
| CheckTheCheck.KingInCheckSpec | pg_01/pg_01_07_check_the_check/pg_01_07_check_the_check.c:96-111 | is_king_in_check agrees with the reference attack definitions for each colour, with the enemy letters of that colour |
| CheckTheCheck.OnlyEnemyPiecesGiveCheck | pg_01/pg_01_07_check_the_check/pg_01_07_check_the_check.c:100-110 | On a board without enemy rooks, queens, bishops, knights or pawns, the king is not in check |
| CheckTheCheck.LastUpToSpec | pg_01/pg_01_07_check_the_check/pg_01_07_check_the_check.c:122-134 | The search over squares 0..p finds nothing exactly when the piece is absent there, and otherwise the latest such square in row-major order |
| CheckTheCheck.ScanSquareState | pg_01/pg_01_07_check_the_check/pg_01_07_check_the_check.c:123-133 | The body of the scan at one square; no ensures of its own, specified through ExpectedStep |
| CheckTheCheck.ScanUpTo | pg_01/pg_01_07_check_the_check/pg_01_07_check_the_check.c:122-134 | The scan over the squares before (i, j); no ensures of its own, specified by ScanUpToExpected and ScanFinished |
| CheckTheCheck.FindLast | pg_01/pg_01_07_check_the_check/pg_01_07_check_the_check.c:122-134 | The king scan ends on the last occurrence of the letter in row-major order, or on none when the letter is absent |
| CheckTheCheck.LastIsUnique | pg_01/pg_01_07_check_the_check/pg_01_07_check_the_check.c:126-131 | The last occurrence of a letter is unique, so the scan's result is determined |
| CheckTheCheck.ScanUpToExpected | pg_01/pg_01_07_check_the_check/pg_01_07_check_the_check.c:116-134 | After the squares before (i, j), the scan's flag and king coordinates are the reference ones: emptiness so far and last occurrences so far |
| CheckTheCheck.ScanFinished | pg_01/pg_01_07_check_the_check/pg_01_07_check_the_check.c:136 | After all 64 squares the flag says whether the board is the empty sentinel, and each king is on its last occurrence or unmoved |
| CheckTheCheck.ScanKing | pg_01/pg_01_07_check_the_check/pg_01_07_check_the_check.c:126-131 | A king's coordinates end on its last occurrence; a colour without a king keeps the previous coordinates |
| CheckTheCheck.ScanSquares | pg_01/pg_01_07_check_the_check/pg_01_07_check_the_check.c:122-136 | The nested scan loop returns whether the board is occupied, and each king's coordinates after the scan |
| CheckTheCheck.ChessBoard.ReadBoard | pg_01/pg_01_07_check_the_check/pg_01_07_check_the_check.c:113-137 | read_board: at end of input returns false and changes nothing; otherwise stores the rows, returns whether any square is occupied, and moves each king's coordinates as ScanKing says |
| CheckTheCheck.ChessBoard.constructor | pg_01/pg_01_07_check_the_check/pg_01_07_check_the_check.c:140 | A record with no board yet |
| CheckTheCheck.VerdictOfKings | pg_01/pg_01_07_check_the_check/pg_01_07_check_the_check.c:144-155 | Judging the kings where the scan leaves them gives the board's verdict, with white checked first |
| CheckTheCheck.Judge | pg_01/pg_01_07_check_the_check/pg_01_07_check_the_check.c:149-155 | The verdict chain of main, white first; no ensures of its own |
| CheckTheCheck.GameVerdict | pg_01/pg_01_07_check_the_check/pg_01_07_check_the_check.c:144-155 | The verdict of a board with its kings where the scan leaves them; no ensures of its own, specified by VerdictOfKings and LoneKingsNoCheck |
| CheckTheCheck.ReportNext | pg_01/pg_01_07_check_the_check/pg_01_07_check_the_check.c:147 | Reporting one more game extends the reports of the previous games, numbered from 1 |
| CheckTheCheck.GamesPlayed | pg_01/pg_01_07_check_the_check/pg_01_07_check_the_check.c:143 | The boards evaluated are exactly those before the first empty board |
| CheckTheCheck.PlayGames | pg_01/pg_01_07_check_the_check/pg_01_07_check_the_check.c:139-159 | main: one report per board before the sentinel, in order, numbered from 1, each with the board's verdict |
| CheckTheCheck.LoneKingsNoCheck | pg_01/pg_01_07_check_the_check/pg_01_07_check_the_check.c:149-155 | A board holding only the two kings reports that no king is in check |
| VmCore.Wrap | pg_01/pg_01_06_interpreter/Main.java:93 | Java int arithmetic wraps to 32 bits: the result is congruent to the exact value mod 2^32, lies in the int range, and is exact when no overflow occurs |
| VmCore.JDiv | pg_01/pg_01_06_interpreter/Main.java:95-96 | Java `/` truncates toward zero, also for negative words |
| VmCore.JRem | pg_01/pg_01_06_interpreter/Main.java:96-97 | Java `%` takes the sign of the dividend and satisfies a == b*(a/b) + a%b |
| VmCore.Decode | pg_01/pg_01_06_interpreter/Main.java:95-97 | Every word decodes to d and n in -9..9, negative words included |
| VmCore.DecodeInRange | pg_01/pg_01_06_interpreter/Main.java:95-97 | A word in 0..999 decodes to three digits whose encoding is the word, so its opcode is never invalid |
| VmCore.DecodeEncode | pg_01/pg_01_06_interpreter/Main.java:95-97 | Decoding inverts encoding on three digits |
| VmCore.ReduceSmall | pg_01/pg_01_06_interpreter/Main.java:116 | `(x) % 1000` of a non-negative int is the mathematical remainder |
| VmCore.Reduce | pg_01/pg_01_06_interpreter/Main.java:116 | `(x) % MAX_SIZE` on a wrapped Java int; no ensures of its own, specified by ReduceSmall |
| VmCore.Result | pg_01/pg_01_06_interpreter/Main.java:112-132 | The value ops 2-8 store in registers[d], with Java wrap-around; no ensures of its own, its range is proved in ExecuteKeepsRange |
| VmCore.Execute | pg_01/pg_01_06_interpreter/Main.java:108-146 | The switch of execute on values; no ensures of its own, specified by ExecuteKeepsRange, ExecuteFrame and ExecuteJump |
| VmCore.ExecuteKeepsRange | pg_01/pg_01_06_interpreter/Main.java:108-146 | With registers, RAM and word in 0..999, execute never throws, keeps every value in 0..999, and jumps only to addresses |
| VmCore.ExecuteFrame | pg_01/pg_01_06_interpreter/Main.java:112-135 | Ops 2-8 change only registers[d], op 9 only ram[registers[n]], and op 0 changes no register or RAM cell |
| VmCore.ExecuteJump | pg_01/pg_01_06_interpreter/Main.java:136-140 | Op 0 jumps exactly when registers[n] is non-zero, to registers[d] |
| VmCore.Initial | pg_01/pg_01_06_interpreter/Main.java:148-153 | The reset state is inside the range invariant |
| VmCore.LoadedContents | pg_01/pg_01_06_interpreter/Main.java:83-88 | After loadProgram, the program occupies the first addresses and every other cell, register and counter is 0 |
| VmCore.LoadedInRange | pg_01/pg_01_06_interpreter/Main.java:83-88 | A program of words in 0..999 starts the machine inside the range invariant |
| VmCore.RunCountsFetchesWith | pg_01/pg_01_06_interpreter/Main.java:90-106 | For any step that counts each fetch, the final counter is the start value plus the number of fetched instructions, for runs too short to overflow |
| VmCore.RunWith | pg_01/pg_01_06_interpreter/Main.java:90-106 | The while (true) loop of run for a given turn function, bounded by fuel; no ensures of its own, specified by RunCountsFetchesWith |
| VmCore.WrapDecrementIncrement | pg_01/pg_01_06_interpreter/Main.java:138 | The wrapped `registers[d] - 1` followed by `programCounter++` lands on registers[d] |
| DeferredPcInterpreter.ExecuteAt | pg_01/pg_01_06_interpreter/Main.java:108-146 | execute leaves the counter alone, and changes nothing when it halts or throws |
| DeferredPcInterpreter.StepCounts | pg_01/pg_01_06_interpreter/Main.java:92-93 | Every fetched instruction is counted, the halt included; a fetch outside the RAM throws before anything changes |
| DeferredPcInterpreter.Step | pg_01/pg_01_06_interpreter/Main.java:91-104 | One turn of run: fetch, count, execute, pc++ unless halted; no ensures of its own, specified by StepCounts, StepNextAddress and StepKeepsRange |
| DeferredPcInterpreter.RunFor | pg_01/pg_01_06_interpreter/Main.java:90-106 | run bounded by fuel; no ensures of its own, specified by RunCountsFetches and RunKeepsRange |
| DeferredPcInterpreter.RunCountsFetches | pg_01/pg_01_06_interpreter/Main.java:90-106 | run returns the number of instructions fetched, the halt included |
| DeferredPcInterpreter.StepNextAddress | pg_01/pg_01_06_interpreter/Main.java:103 | After a turn that goes on, pc is registers[d] for a taken jump and the next address otherwise |
| DeferredPcInterpreter.StepKeepsRange | pg_01/pg_01_06_interpreter/Main.java:91-104 | From a state in range a turn stays in range and throws only when pc is 1000 |
| DeferredPcInterpreter.RunKeepsRange | pg_01/pg_01_06_interpreter/Main.java:90-106 | A whole run keeps the range invariant and can fail only by fetching from address 1000 |
| DeferredPcInterpreter.LoadedProgramFaultsOnlyPastEnd | pg_01/pg_01_06_interpreter/Main.java:68 | A loaded program of 0..999 words keeps every register and cell in 0..999, never meets an invalid opcode, and fails only by running off the RAM |
| DeferredPcInterpreter.Interpreter.constructor | pg_01/pg_01_06_interpreter/Main.java:77-81 | Zero-initialised arrays and fields |
| DeferredPcInterpreter.Interpreter.Reset | pg_01/pg_01_06_interpreter/Main.java:148-153 | reset leaves every register, RAM cell and counter 0 |
| DeferredPcInterpreter.Interpreter.LoadProgram | pg_01/pg_01_06_interpreter/Main.java:83-88 | The state becomes Loaded(program); a program longer than the RAM stops at word 1000 with ok false |
| DeferredPcInterpreter.Interpreter.Execute | pg_01/pg_01_06_interpreter/Main.java:108-146 | The in-place switch has exactly the effect ExecuteAt gives on values |
| DeferredPcInterpreter.Interpreter.Cycle | pg_01/pg_01_06_interpreter/Main.java:91-103 | One turn of the loop changes the object exactly as Step says |
| DeferredPcInterpreter.Interpreter.Run | pg_01/pg_01_06_interpreter/Main.java:90-106 | The final object state and status are those of the bounded reference run, and the returned count is the instruction counter |
| FetchIncrementInterpreter.ExecuteAt | pg_01_/pg_01_06_interpreter/Main.java:70-88 | execute leaves the counter alone, and changes nothing when it halts or throws |
| FetchIncrementInterpreter.StepCounts | pg_01_/pg_01_06_interpreter/Main.java:58-59 | Every fetched instruction is counted; a fetch outside the RAM throws with pc already advanced |
| FetchIncrementInterpreter.Step | pg_01_/pg_01_06_interpreter/Main.java:57-65 | One turn of run with `ram[pc++]`; no ensures of its own, specified by StepCounts, StepNextAddress and StepKeepsRange |
| FetchIncrementInterpreter.RunFor | pg_01_/pg_01_06_interpreter/Main.java:56-68 | run bounded by fuel; no ensures of its own, specified by RunCountsFetches and RunKeepsRange |
| FetchIncrementInterpreter.RunCountsFetches | pg_01_/pg_01_06_interpreter/Main.java:56-68 | run returns the number of instructions fetched, the halt included |
| FetchIncrementInterpreter.StepNextAddress | pg_01_/pg_01_06_interpreter/Main.java:81-83 | After a turn that goes on, pc is registers[d] for a taken jump and the next address otherwise |
| FetchIncrementInterpreter.StepKeepsRange | pg_01_/pg_01_06_interpreter/Main.java:57-65 | From a state in range a turn throws only at address 1000, leaving pc at 1001; any other turn stays in range |
| FetchIncrementInterpreter.RunKeepsRange | pg_01_/pg_01_06_interpreter/Main.java:56-68 | A whole run keeps registers and RAM in 0..999 and can fail only past the end of the RAM |
| FetchIncrementInterpreter.LoadedProgramFaultsOnlyPastEnd | pg_01_/pg_01_06_interpreter/Main.java:49-68 | A loaded program of 0..999 words never meets an invalid opcode and fails only by running off the RAM |
| FetchIncrementInterpreter.Interpreter.constructor | pg_01_/pg_01_06_interpreter/Main.java:45-47 | Zero-initialised arrays and fields |
| FetchIncrementInterpreter.Interpreter.Reset | pg_01_/pg_01_06_interpreter/Main.java:90-95 | reset leaves every register, RAM cell and counter 0 |
| FetchIncrementInterpreter.Interpreter.LoadProgram | pg_01_/pg_01_06_interpreter/Main.java:49-54 | The state becomes Loaded(program); a program longer than the RAM stops at word 1000 with ok false |
| FetchIncrementInterpreter.Interpreter.Execute | pg_01_/pg_01_06_interpreter/Main.java:70-88 | The in-place switch has exactly the effect ExecuteAt gives on values |
| FetchIncrementInterpreter.Interpreter.Cycle | pg_01_/pg_01_06_interpreter/Main.java:57-65 | One turn of the loop changes the object exactly as Step says |
| FetchIncrementInterpreter.Interpreter.Run | pg_01_/pg_01_06_interpreter/Main.java:56-68 | The final object state and status are those of the bounded reference run, and the returned count is instructionsExecuted |
| InterpreterEquivalence.StepsAgree | pg_01_/pg_01_06_interpreter/Main.java:58-65 | One turn of either interpreter is the same kind of turn; after a turn that goes on, the states are identical, and otherwise they differ at most in pc |
| InterpreterEquivalence.RunsAgree | pg_01_/pg_01_06_interpreter/Main.java:56-68 | Both interpreters end every bounded run with the same status, registers, RAM and count |
| InterpreterEquivalence.SameCount | pg_01_/pg_01_06_interpreter/Main.java:67 | For the same loaded program, one run method halts exactly when the other does, and then both return the same count |
| GraphicalEditor.Bounds | pg_01/pg_01_05_graphical_editor/Image.java:62 | The block a shape spans runs from the smaller to the larger endpoint |
| GraphicalEditor.CoversWhenFits | pg_01/pg_01_05_graphical_editor/Image.java:90-96 | When the block is inside the image, the loops paint exactly its cells |
| GraphicalEditor.Covers | pg_01/pg_01_05_graphical_editor/Image.java:90-96 | The cells the nested loops paint before the first bad index; no ensures of its own, specified by CoversWhenFits |
| GraphicalEditor.EndpointOrderIrrelevant | pg_01/pg_01_05_graphical_editor/Image.java:76 | Swapping the endpoints of a line or the corners of a rectangle paints the same cells |
| GraphicalEditor.InRegion | pg_01/pg_01_05_graphical_editor/Image.java:122 | A cell is in a colour's region exactly when it exists and has that colour |
| GraphicalEditor.FillsNothing | pg_01/pg_01_05_graphical_editor/Image.java:121-122 | A call of fill outside the image or on another colour leaves the image as it is |
| GraphicalEditor.RegionShrinks | pg_01/pg_01_05_graphical_editor/Image.java:123 | Recolouring never adds a cell of the old colour, which bounds the recursion |
| GraphicalEditor.PaintStart | pg_01/pg_01_05_graphical_editor/Image.java:123 | Painting the start pixel changes only it and strictly shrinks the old colour's region |
| GraphicalEditor.NeighboursComposed | pg_01/pg_01_05_graphical_editor/Image.java:124-127 | After the four recursive calls, no neighbour of the start keeps the old colour and all changes stay settled |
| GraphicalEditor.ReachComposed | pg_01/pg_01_05_graphical_editor/Image.java:124-127 | Every pixel the four recursive calls change is connected to the start through old-colour pixels |
| GraphicalEditor.FillComposes | pg_01/pg_01_05_graphical_editor/Image.java:120-128 | The body of fill meets the guarantee of one call from the start |
| GraphicalEditor.PathRepainted | pg_01/pg_01_05_graphical_editor/Image.java:120-128 | Every pixel on a walk of old-colour pixels from the start ends up repainted |
| GraphicalEditor.FillIsFloodFill | pg_01/pg_01_05_graphical_editor/Image.java:120-128 | What fill leaves is the reference flood fill: exactly the 4-connected old-colour region of the start is repainted |
| GraphicalEditor.FloodFilledSameColour | pg_01/pg_01_05_graphical_editor/Image.java:108 | Filling with the colour the start already has changes nothing, so the early return is the reference result |
| GraphicalEditor.Image.Grid | pg_01/pg_01_05_graphical_editor/Image.java:27 | The pixels read as rows of equal length, cell by cell |
| GraphicalEditor.Image.constructor | pg_01/pg_01_05_graphical_editor/Image.java:26-29 | A fresh height x width image with every pixel 'O' |
| GraphicalEditor.Image.Clear | pg_01/pg_01_05_graphical_editor/Image.java:34-40 | Every pixel becomes 'O' |
| GraphicalEditor.Image.ColorPixel | pg_01/pg_01_05_graphical_editor/Image.java:49-51 | Pixel [y-1][x-1] takes the colour if it exists; otherwise the image is unchanged and ok is false |
| GraphicalEditor.Image.VerticalLine | pg_01/pg_01_05_graphical_editor/Image.java:61-65 | Exactly the cells the loop reaches before an out-of-range index take the colour; ok tells whether the whole line fits |
| GraphicalEditor.Image.HorizontalLine | pg_01/pg_01_05_graphical_editor/Image.java:75-79 | Exactly the cells the loop reaches before an out-of-range index take the colour; ok tells whether the whole line fits |
| GraphicalEditor.Image.FillRectangle | pg_01/pg_01_05_graphical_editor/Image.java:90-96 | Exactly the cells the nested loops reach before an out-of-range index take the colour, rows outer; ok tells whether the block fits |
| GraphicalEditor.Image.Put | pg_01/pg_01_05_graphical_editor/Image.java:123 | One pixel assignment, seen on the grid value |
| GraphicalEditor.Image.FloodFill | pg_01/pg_01_05_graphical_editor/Image.java:106-110 | A start outside the image throws and changes nothing; otherwise the grid becomes the reference flood fill from the start |
| GraphicalEditor.Image.Fill | pg_01/pg_01_05_graphical_editor/Image.java:120-128 | One recursive call recolours only old-colour pixels connected to its start and leaves every changed pixel settled |
| CommandParsing.Interpret | pg_01_/pg_01_05_graphical_editor/Main.java:91-195 | Only an existing image is cleared, painted, filled or printed, and a new image never has a negative size |
| CommandParsing.IgnoredLines | pg_01_/pg_01_05_graphical_editor/Main.java:92 | null, the empty line and a line with an unknown command letter are ignored |
| CommandParsing.TooFewTokensIgnored | pg_01_/pg_01_05_graphical_editor/Main.java:137 | A command with fewer tokens than it needs is ignored |
| CommandParsing.Arity | pg_01_/pg_01_05_graphical_editor/Main.java:137-181 | The number of tokens each command reads; no ensures of its own, used by TooFewTokensIgnored |
| CommandParsing.NoImageOnlyInit | pg_01_/pg_01_05_graphical_editor/Main.java:143-192 | Without an image, a line can only create one with `I`, exit, crash or be ignored |
| CommandParsing.InitReplaces | pg_01_/pg_01_05_graphical_editor/Main.java:136-141 | `I m n` with non-negative numbers asks for an m-wide, n-high image, whatever the current one |
| CommandParsing.CommandParser.constructor | pg_01_/pg_01_05_graphical_editor/Main.java:89 | The parser starts without an image |
| CommandParsing.CommandParser.ProcessCommand | pg_01_/pg_01_05_graphical_editor/Main.java:91-134 | Each line changes the image as its action says: a blank new image, a cleared one, the painted block, the reference flood fill, or nothing; the status is crash, exit or continue |
| CommandParsing.CommandParser.Draw | pg_01_/pg_01_05_graphical_editor/Main.java:147-181 | The pixel, line and rectangle commands paint the cells their loops reach, and ok tells whether the shape fits |
| Minesweeper.DirectionIndex | pg_01/pg_01_02_minesweeper/pg_01_02_minesweeper.c:8-12 | Each of the eight neighbouring offsets appears in the table exactly once |
| Minesweeper.NotYetProbed | pg_01/pg_01_02_minesweeper/pg_01_02_minesweeper.c:18-27 | A neighbour not yet probed is not among those counted so far |
| Minesweeper.ProbedCount | pg_01/pg_01_02_minesweeper/pg_01_02_minesweeper.c:18-27 | The running count is the number of distinct mines probed so far |
| Minesweeper.ProbedMembers | pg_01/pg_01_02_minesweeper/pg_01_02_minesweeper.c:19-25 | Everything counted is a mine around the cell, and every probed mine is counted |
| Minesweeper.ProbedIsRing | pg_01/pg_01_02_minesweeper/pg_01_02_minesweeper.c:8-27 | The eight probes reach exactly the mines around the cell |
| Minesweeper.MinesAmongAll | pg_01/pg_01_02_minesweeper/pg_01_02_minesweeper.c:15-30 | Counting over the eight directions counts exactly the mines around the cell |
| Minesweeper.Probe | pg_01/pg_01_02_minesweeper/pg_01_02_minesweeper.c:19-20 | The position probed at turn i; no ensures of its own, its table is characterised by DirectionIndex and ProbedIsRing |
| Minesweeper.MinesAmong | pg_01/pg_01_02_minesweeper/pg_01_02_minesweeper.c:16-27 | The count after n turns of the loop; no ensures of its own, specified by ProbedCount, MinesAmongAll and MinesAmongBound |
| Minesweeper.MinesAmongBound | pg_01/pg_01_02_minesweeper/pg_01_02_minesweeper.c:18-27 | After n probes the count is at most n |
| Minesweeper.OwnCellIgnored | pg_01/pg_01_02_minesweeper/pg_01_02_minesweeper.c:8-12 | A cell's own content never enters its count |
| Minesweeper.CountAdjacentMines | pg_01/pg_01_02_minesweeper/pg_01_02_minesweeper.c:15-30 | The count (also that of main.c) is the number of mines at the up to eight positions around the cell, inside the grid, so it is between 0 and 8 |
| Minesweeper.CountAdjacentMinesAsWritten | pg_02_minesweeper.c:21-52 | With the column probed as `row + dc`, the count is that around (row, row), whatever the column argument |
| Minesweeper.AsWrittenMiscounts | pg_02_minesweeper.c:36-37 | In the grid "*.", the cell (0, 1) touches one mine, but the as-written count for it is that of (0, 0), which is 0 |
| Minesweeper.SolvedCellMeaning | pg_01/pg_01_02_minesweeper/pg_01_02_minesweeper.c:37-42 | A solved cell is '*' exactly where the input has a mine, and otherwise the digit of its mine count |
| Minesweeper.SolvedCell | pg_01/pg_01_02_minesweeper/pg_01_02_minesweeper.c:37-42 | The character written for one cell; no ensures of its own, specified by SolvedCellMeaning |
| Minesweeper.WorkedExample | pg_01/pg_01_02_minesweeper/pg_01_02_minesweeper.c:58-66 | The example board of main solves to *21 / 2*1 / 111 |
| Minesweeper.SolveMinesweeper | pg_01/pg_01_02_minesweeper/pg_01_02_minesweeper.c:34-45 | Every cell inside rows x cols of the output is solved, and nothing outside it is written |
| LcdDisplay.TableRow | pg_01/pg_01_04_lcd_display/pg_01_04_lcd_display.c:18-29 | Each row of segments7 lists, in enum order, which segments the digit lights |
| LcdDisplay.Lit | pg_01/pg_01_04_lcd_display/pg_01_04_lcd_display.c:18-29 | Which segments a digit lights, by column of segments7; no ensures of its own, tied to the table by TableRow |
| LcdDisplay.IsValidScale | pg_01/pg_01_04_lcd_display/pg_01_04_lcd_display.c:31-33 | is_valid_scale: no ensures of its own; the scales 1..10, used by Program |
| LcdDisplay.BandOf | pg_01/pg_01_04_lcd_display/pg_01_04_lcd_display.c:58-94 | The kind of line i at scale s; no ensures of its own, used by LcdLines |
| LcdDisplay.EightAndOne | pg_01/pg_01_04_lcd_display/pg_01_04_lcd_display.c:20-27 | Digit 8 lights every segment, and digit 1 only the two on the right |
| LcdDisplay.IsValidNumber | pg_01/pg_01_04_lcd_display/pg_01_04_lcd_display.c:35-42 | Accepts exactly the strings of one to eight decimal digits |
| LcdDisplay.Repeat | pg_01/pg_01_04_lcd_display/pg_01_04_lcd_display.c:46-47 | A loop of s prints writes s characters, none for s below 1 |
| LcdDisplay.RepeatSpec | pg_01/pg_01_04_lcd_display/pg_01_04_lcd_display.c:46-47 | Every character the loop prints is the same one |
| LcdDisplay.HorizontalCell | pg_01/pg_01_04_lcd_display/pg_01_04_lcd_display.c:44-49 | print_horizontal writes s + 2 characters |
| LcdDisplay.HorizontalCellShape | pg_01/pg_01_04_lcd_display/pg_01_04_lcd_display.c:44-49 | A horizontal cell is blank at both ends and shows a dash in between exactly when the segment is lit |
| LcdDisplay.VerticalCell | pg_01/pg_01_04_lcd_display/pg_01_04_lcd_display.c:51-56 | print_vertical writes s + 2 characters |
| LcdDisplay.VerticalCellShape | pg_01/pg_01_04_lcd_display/pg_01_04_lcd_display.c:51-56 | A vertical cell shows the left segment's bar first, the right one's last, and spaces in between |
| LcdDisplay.Cell | pg_01/pg_01_04_lcd_display/pg_01_04_lcd_display.c:44-56 | Every cell of every kind of line is s + 2 characters wide |
| LcdDisplay.CellPrints | pg_01/pg_01_04_lcd_display/pg_01_04_lcd_display.c:61-93 | Each of the five kinds of line prints the cell of print_horizontal or print_vertical with the segments print_lcd passes |
| LcdDisplay.Tiles | pg_01/pg_01_04_lcd_display/pg_01_04_lcd_display.c:61-64 | One tile per digit from i on, each s + 3 characters wide |
| LcdDisplay.TileAt | pg_01/pg_01_04_lcd_display/pg_01_04_lcd_display.c:61-64 | Tile k is the cell of digit k followed by its space |
| LcdDisplay.JoinFrom | pg_01/pg_01_04_lcd_display/pg_01_04_lcd_display.c:61-64 | The tiles joined from i on are (count)(s + 3) characters long |
| LcdDisplay.Line | pg_01/pg_01_04_lcd_display/pg_01_04_lcd_display.c:61-65 | One line of print_lcd is len cells of s + 3 characters |
| LcdDisplay.Copies | pg_01/pg_01_04_lcd_display/pg_01_04_lcd_display.c:67-73 | The row loop prints the same line s times |
| LcdDisplay.LcdLines | pg_01/pg_01_04_lcd_display/pg_01_04_lcd_display.c:58-94 | print_lcd writes 2s + 3 lines: the top line, s upper lines, the middle line, s lower lines and the bottom line |
| LcdDisplay.LcdShape | pg_01/pg_01_04_lcd_display/pg_01_04_lcd_display.c:58-94 | At scale s the display has 2s + 3 lines of len(s + 3) characters each |
| LcdDisplay.FindDigit | pg_01/pg_01_04_lcd_display/pg_01_04_lcd_display.c:18-29 | Finds a row of segments7 equal to the given segments, or reports that none is |
| LcdDisplay.ReadBack | pg_01/pg_01_04_lcd_display/pg_01_04_lcd_display.c:58-94 | Reading a display gives one character per digit cell |
| LcdDisplay.RowsDistinct | pg_01/pg_01_04_lcd_display/pg_01_04_lcd_display.c:18-29 | No two digits light the same segments |
| LcdDisplay.JoinIndex | pg_01/pg_01_04_lcd_display/pg_01_04_lcd_display.c:61-64 | Tile k occupies the k-th stretch of s + 3 characters of a line |
| LcdDisplay.LineChar | pg_01/pg_01_04_lcd_display/pg_01_04_lcd_display.c:61-64 | A character inside the k-th stretch of a line belongs to the tile of digit k |
| LcdDisplay.TileMarks | pg_01/pg_01_04_lcd_display/pg_01_04_lcd_display.c:44-56 | A tile shows its segments at its first, second and (s + 2)-th characters |
| LcdDisplay.CellMarks | pg_01/pg_01_04_lcd_display/pg_01_04_lcd_display.c:44-56 | A cell shows its segments at its first, second and (s + 2)-th characters |
| LcdDisplay.HorizontalMark | pg_01/pg_01_04_lcd_display/pg_01_04_lcd_display.c:61-64 | The top, middle and bottom lines show each digit's horizontal segment at the second character of its cell |
| LcdDisplay.VerticalMark | pg_01/pg_01_04_lcd_display/pg_01_04_lcd_display.c:67-73 | The first upper and lower lines show each digit's vertical segments at the ends of its cell |
| LcdDisplay.SegmentsShownOfDigit | pg_01/pg_01_04_lcd_display/pg_01_04_lcd_display.c:58-94 | The display shows exactly the row of segments7 of each digit |
| LcdDisplay.DigitReadsBack | pg_01/pg_01_04_lcd_display/pg_01_04_lcd_display.c:58-94 | Each digit of a display reads back as itself |
| LcdDisplay.ReadBackRenders | pg_01/pg_01_04_lcd_display/pg_01_04_lcd_display.c:58-94 | At scale 1 or more, rendering loses nothing: the display reads back as the number |
| LcdDisplay.RenderingInjective | pg_01/pg_01_04_lcd_display/pg_01_04_lcd_display.c:58-94 | Two numbers of the same length that draw the same display are equal |
| LcdDisplay.Program | pg_01/pg_01_04_lcd_display/pg_01_04_lcd_display.c:96-114 | main prints a display exactly when the scale is 1..10 and the number passes is_valid_number, and that display reads back as the number |
| Collatz.LengthExists | pg_01/pg_01_01_collatz/pg_01_01_collatz.c:19-25 | A sequence that reaches 1 has a first step where it does |
| Collatz.LengthUnique | pg_01/pg_01_01_collatz/pg_01_01_collatz.c:19-25 | A sequence has only one length |
| Collatz.Length | pg_01/pg_01_01_collatz/pg_01_01_collatz.c:13-28 | The length is the number of terms up to and including the first 1 |
| Collatz.IsValidInput | pg_01/pg_01_01_collatz/pg_01_01_collatz.c:7-9 | is_valid_input: no ensures of its own; the starts 1..1000000, used by CollatzLength and RangeMaxMeaning |
| Collatz.Next | pg_01/pg_01_01_collatz/pg_01_01_collatz.c:20-23 | One step of the loop; no ensures of its own, specified through LengthStep and IterateShift |
| Collatz.IterateShift | pg_01/pg_01_01_collatz/pg_01_01_collatz.c:20-23 | One step and then k more steps is k + 1 steps |
| Collatz.LengthOfOne | pg_01/pg_01_01_collatz/pg_01_01_collatz.c:17-19 | The sequence from 1 has length 1 |
| Collatz.LengthStep | pg_01/pg_01_01_collatz/pg_01_01_collatz.c:19-25 | For n other than 1, the sequence from n is one term longer than the one from its successor |
| Collatz.CollatzLength | pg_01/pg_01_01_collatz/pg_01_01_collatz.c:13-28 | collatz_length is -1 for a start outside 1..1000000 and otherwise the length of its sequence |
| Collatz.MaxLengthIsMaximum | pg_01/pg_01_01_collatz/pg_01_01_collatz.c:41-45 | The largest length over a range is at least 1, bounds every length there, and is attained |
| Collatz.RangeMaxMeaning | pg_01/pg_01_01_collatz/pg_01_01_collatz.c:32-48 | max_collatz_length is -1 exactly for an invalid endpoint, and otherwise the largest sequence length between the endpoints |
| Collatz.RangeMax | pg_01/pg_01_01_collatz/pg_01_01_collatz.c:32-48 | What max_collatz_length returns; no ensures of its own, specified by RangeMaxMeaning and RangeMaxSymmetric |
| Collatz.RangeMaxSymmetric | pg_01/pg_01_01_collatz/pg_01_01_collatz.c:36-37 | The order of the endpoints does not matter |
| Collatz.MaxCollatzLength | pg_01/pg_01_01_collatz/pg_01_01_collatz.c:32-48 | The loop returns the reference RangeMax |
| Collatz.MaxCollatzLengthOrdered | pg_01_collatz.c:54-76 | The second copy, which orders the endpoints before checking them, returns the same RangeMax |
| Collatz.ScanRange | pg_01/pg_01_01_collatz/pg_01_01_collatz.c:39-47 | The running maximum from 0 ends as the largest length over the range |
| Collatz.LengthWithinSound | pg_01/pg_01_01_collatz/pg_01_01_collatz.c:17-27 | A length a bounded count finds is the length of the sequence |
| Collatz.LengthWithinMonotone | pg_01/pg_01_01_collatz/pg_01_01_collatz.c:17-27 | More fuel finds the same length |
| Collatz.MaxWithinSound | pg_01/pg_01_01_collatz/pg_01_01_collatz.c:41-45 | A bounded maximum that is found is the largest length over the range |
| Collatz.RangeMaxWithin | pg_01/pg_01_01_collatz/pg_01_01_collatz.c:32-48 | A bounded maximum that is found is what max_collatz_length returns |
| Collatz.CountStep | pg_01/pg_01_01_collatz/pg_01_01_collatz.c:24 | Each step in front of a measured sequence adds one to its length |
| Collatz.KnownLengths | pg_01/pg_01_01_collatz/pg_01_01_collatz.c:13-28 | The sequence lengths of the starts 1..25 and 42 |
| Collatz.KnownMaxima | pg_01/pg_01_01_collatz/pg_01_01_collatz.c:63-71 | The bounded maxima over the ranges of the test driver |
| Collatz.DriverValues | pg_01/pg_01_01_collatz/pg_01_01_collatz.c:63-71 | The driver's expectations hold, with 10..16 corrected to 18; the invalid ranges give -1, and 42..42 gives collatz_length(42) |
| Collatz.DriverExpectsWrongValue | pg_01/pg_01_01_collatz/pg_01_01_collatz.c:65 | max_collatz_length(10, 16) is not the 20 the driver expects |

## Left out

- **Input and output.**
  - Reading lines, `scanf`, `fgets`/`getchar`, `Scanner` and printing are not modelled.
  - The display and the solved grid are values or arrays; the interpreter's program arrives as a sequence of parsed words.
  - `Integer.parseInt`, `trim` and `split` are not modelled. A command line arrives already split into tokens, each with its first character and its parsed value if it has one.
  - `System.exit(0)` is an `Exited` status.
  - The file name of the save command, and what is printed, are left out.
- **Interpreter run, and its driver.**
  - `DeferredPcInterpreter.Interpreter.Run`, `FetchIncrementInterpreter.Interpreter.Run`: `while (true)` is bounded by a fuel parameter. A run that does not halt within the fuel ends as `OutOfFuel`.
  - The driver that reads the number of cases and the blank lines between them is not modelled, and neither is the other copy, Interpreter.java.
  - `DeferredPcInterpreter.RunCountsFetches`, `FetchIncrementInterpreter.RunCountsFetches`: stated only for runs too short to overflow the 32-bit instruction counter.
- **Check the check.**
  - `CheckTheCheck.ChessBoard.ReadBoard`: an end of input in the middle of a board is `None`; the rows already overwritten are not modelled.
  - Boards are eight given rows. The `LINE_BUFFER` of 10 bytes into a 9-byte row, and the newline handling of `fgets`/`getchar`, are not modelled.
  - `CheckTheCheck.PlayGames`: requires both kings on each evaluated board. Without a king, the source reads the previous board's coordinates, or uninitialised ones on the first board. `ReadBoard` does model the kept coordinates.
- **Editor.**
  - `GraphicalEditor.Image.constructor`: requires non-negative sizes. The parser maps a negative size, which throws `NegativeArraySizeException` in Java, to an ignored line.
  - `GraphicalEditor.Image.VerticalLine`, `GraphicalEditor.Image.HorizontalLine`, `GraphicalEditor.Image.FillRectangle`: their `ok` says whether the shape fits, not whether Java throws. The two differ only when the smaller coordinate is `Integer.MIN_VALUE`: `Math.min(..) - 1` wraps and the loop does not run. Nothing is painted in that case, in Java as in the model.
  - `char[][]` is an `array2<char>`.
  - The Image class of pg_01_/pg_01_05_graphical_editor/Main.java behaves line for line like Image.java, so one class models both.
  - The `StackOverflowError` a deep flood fill can raise is not modelled.
  - The pg_01 editor's driver, pg_01/pg_01_05_graphical_editor/Main.java, is not part of this model.
- **Minesweeper.**
  - The C grids are `seq<seq<char>>` for the input and `array2<char>` for the output.
  - `MAX_COLUMN` and the printing functions are left out.
  - Aliasing between the input and output arrays is not modelled.
- **Collatz.**
  - `Collatz.CollatzLength`, `Collatz.MaxCollatzLength`, `Collatz.MaxCollatzLengthOrdered`: require that the sequences followed reach 1, since the Collatz conjecture cannot be proved here. `KnownLengths` and `DriverValues` discharge this for the driver's ranges.
  - `Collatz.CollatzLength`: integers are unbounded. For some starts below 1000000, `3 * n + 1` overflows a 32-bit `int` in the C code; that overflow is not modelled.
  - The `collatz_length` of pg_01_collatz.c is the same as that of pg_01_01_collatz.c, and `CollatzLength` models both. The test driver of pg_01_collatz.c is left out.
- **LCD.**
  - `scanf("%8s")` truncating a longer word to eight characters is not modelled. A number is the string `is_valid_number` sees.
  - A C string is the characters before its NUL.
  - `LcdDisplay.LcdLines`: also defined for a non-positive scale, where the loops print nothing in between. `main` never calls it so.
- **Other programs.** The trip programs (pg_01/pg_01_03_the_trip/pg_01_03_the_trip.c, pg_03_the_trip/pg_03_the_trip.c) and the LCD driver pg_01/pg_01_04_lcd_display/main.c are not part of this model.

## Findings

| source | as written | input that shows it | evidently intended | confidence | as-written member | corrected member |
|---|---|---|---|---|---|---|
| pg_02_minesweeper.c:36-37 | the probed column is `row + directions[i][1]`, so the count is taken around (row, row) and the column argument is unused | grid "*." (1 row, 2 columns), cell (0, 1): the count is 0 | `column + directions[i][1]`: the count for (0, 1) is 1, as in main.c | high (not executed) | Minesweeper.CountAdjacentMinesAsWritten | Minesweeper.CountAdjacentMines |
| pg_01/pg_01_01_collatz/pg_01_01_collatz.c:65 | `test_range(10, 16, 20)` expects 20 | max_collatz_length(10, 16) is 18, from 14 and 15; no start in 10..16 has length 20 | expected value 18 | high (not executed) | Collatz.DriverExpectsWrongValue | Collatz.DriverValues |
