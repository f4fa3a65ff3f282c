# hack-man engine: enemy movement rules and the line-message pump

A Dafny model of two parts of the hack-man game engine.

- **Enemy movement** (`AbstractEnemyAI`). These are the rules every enemy AI shares. They step a grid coordinate one cell in a heading and ask the board whether the cell in a heading is passable. They recover the heading that leads from one coordinate to another, which checks RIGHT, then LEFT, then DOWN, then UP. They list the moving headings an enemy may take: not the reverse of its heading, and passable. They also compute the forced move. The board is a predicate on points (`BookingGameBoard.isCoordinateValid`). The moving move types (`MoveType.getMovingMoveTypes`) are a parameter. A null heading is `Option.None`. Modules: `Moves` (points, headings, opposite headings) and `EnemyAI`, all pure functions and lemmas.
- **Message pump** (`IOHandler`). The handler reads messages from one of two sources, chosen when it is built: standard input (live mode) or a replay file (file mode). The source is a sequence of lines with a cursor, and standard output is the sequence of lines written so far. Live mode trims lines and skips blank ones. File mode returns lines verbatim. `waitForMessage` reads until a message equals the expected one, and stops silently when the input runs out. `broadcastMessage` wraps a message in the envelope `bot all send `. Modules: `Strings` (Java's `String.trim`) and `Protocol`, which has specification functions on values and the class `IOHandler`. The class's methods are proved against those functions.

Behaviour of the code worth noting, which the model keeps:
- File mode returns every line verbatim, blank lines included. Only live mode trims and skips blank lines.
- A null heading does not lift the reversal test: `enemy.getDirection()` is dereferenced for every moving type, so a null heading throws a NullPointerException whenever there are moving types. The model makes a non-null heading a precondition of `AvailableDirections` in that case.
- `mandatoryTranform` switches on the number of moving move types, not on the number of available directions (see Findings).
- `mandatoryTranform` returns only a coordinate (or null). It never returns a new heading.
- In live mode a blank line after the last message (only blank lines left) is not the end of input: `hasNextLine` holds, the blank-skipping loop calls `nextLine` past the end, and the `NoSuchElementException` it throws escapes `waitForMessage`, which catches only `IOException`. `LiveWaitOnBlankTail` states this.

## Model

| member | source | states |
|---|---|---|
| `Moves.Opposite` | src/java/io/riddles/bookinggame/game/enemy/AbstractEnemyAI.java:74 | the assumed `getOppositeMoveType` pairing (UP/DOWN, LEFT/RIGHT): never the heading itself, always on the same axis |
| `EnemyAI.MovedCoordinate` | src/java/io/riddles/bookinggame/game/enemy/AbstractEnemyAI.java:38-52 | a null heading leaves the point unchanged; a heading moves it exactly one cell (Manhattan distance 1) along its own axis, UP to smaller y, DOWN to larger y, LEFT to smaller x, RIGHT to larger x |
| `EnemyAI.IsEmptyInDirection` | src/java/io/riddles/bookinggame/game/enemy/AbstractEnemyAI.java:54-61 | false for a null heading; otherwise exactly the board predicate on the stepped coordinate |
| `EnemyAI.DirectionBetween` | src/java/io/riddles/bookinggame/game/enemy/AbstractEnemyAI.java:63-69 | RIGHT exactly when x grows, LEFT exactly when x shrinks, DOWN/UP exactly when x is equal and y grows/shrinks, null exactly when the points are equal |
| `EnemyAI.DirectionOfStep` | src/java/io/riddles/bookinggame/game/enemy/AbstractEnemyAI.java:38-69 | round trip: the heading between p and p stepped by d is d |
| `EnemyAI.StepToNeighbour` | src/java/io/riddles/bookinggame/game/enemy/AbstractEnemyAI.java:38-69 | converse round trip: stepping p by the heading towards an orthogonal neighbour q lands on q |
| `EnemyAI.NoDirectionInPlace` | src/java/io/riddles/bookinggame/game/enemy/AbstractEnemyAI.java:68 | the heading between a point and itself is null |
| `EnemyAI.StepBack` | src/java/io/riddles/bookinggame/game/enemy/AbstractEnemyAI.java:38-52 | a step followed by a step in the opposite heading returns to the start |
| `EnemyAI.ProbesNeighbourInHeading` | src/java/io/riddles/bookinggame/game/enemy/AbstractEnemyAI.java:54-69 | for an orthogonal neighbour q, probing in the heading towards q asks the board about q |
| `EnemyAI.AvailableDirections` | src/java/io/riddles/bookinggame/game/enemy/AbstractEnemyAI.java:71-77 | the result is never longer than the moving-type list; the heading is required non-null when that list is non-empty |
| `EnemyAI.AvailableIsSubsequence` | src/java/io/riddles/bookinggame/game/enemy/AbstractEnemyAI.java:71-77 | the available directions are an order-preserving subsequence of the moving move types |
| `EnemyAI.AvailableMembership` | src/java/io/riddles/bookinggame/game/enemy/AbstractEnemyAI.java:73-75 | a heading is available if and only if it is a moving type, differs from the opposite of the enemy's heading, and is passable |
| `EnemyAI.AvailableMultiplicity` | src/java/io/riddles/bookinggame/game/enemy/AbstractEnemyAI.java:72-76 | an available heading keeps every one of its occurrences and any other heading keeps none (with the subsequence lemma: exactly the filter) |
| `EnemyAI.NeverOffersReverse` | src/java/io/riddles/bookinggame/game/enemy/AbstractEnemyAI.java:74 | the opposite of the enemy's heading is never available |
| `EnemyAI.OffersOnlyPassable` | src/java/io/riddles/bookinggame/game/enemy/AbstractEnemyAI.java:75 | every available heading leads onto a cell the board accepts |
| `EnemyAI.MandatoryTransform` | src/java/io/riddles/bookinggame/game/enemy/AbstractEnemyAI.java:79-95 | a result exists exactly when there are at most two moving types; with none it is the enemy's coordinate, with one it is the neighbour in that type's heading, with two it is the neighbour in the enemy's own heading (the coordinate itself for a null heading) |
| `EnemyAI.ForcedMoveDependsOnlyOnCount` | src/java/io/riddles/bookinggame/game/enemy/AbstractEnemyAI.java:82 | whether there is a forced move depends on nothing but the number of moving types |
| `EnemyAI.MandatoryTransformNeverForces` | src/java/io/riddles/bookinggame/game/enemy/AbstractEnemyAI.java:80-94 | with the four moving headings the result is always null, for every enemy |
| `EnemyAI.MandatoryTransformIntended` | src/java/io/riddles/bookinggame/game/enemy/AbstractEnemyAI.java:83-91 | corrected rule: a result exists exactly when at most two directions are available; with none the enemy stays, with one it steps one cell onto a passable cell in that direction, with two it steps at most one cell along its own heading; every result is at most one cell away |
| `EnemyAI.IntendedNeverReverses` | src/java/io/riddles/bookinggame/game/enemy/AbstractEnemyAI.java:86-91 | the corrected forced move never steps in the opposite of the enemy's heading |
| `EnemyAI.SingleExitCounterexample` | src/java/io/riddles/bookinggame/game/enemy/AbstractEnemyAI.java:82-88 | when the only passable neighbour is the cell ahead, the code as written gives null while the corrected rule steps onto that cell |
| `Strings.Trim` | src/java/io/riddles/javainterface/io/IOHandler.java:138 | `String.trim`: never longer than its input, neither starts nor ends with a character up to U+0020, empty exactly when the input is blank |
| `Strings.TrimIsInfix` | src/java/io/riddles/javainterface/io/IOHandler.java:138 | the trim is the contiguous middle of the line between a blank prefix and a blank suffix |
| `Strings.TrimIdempotent` | src/java/io/riddles/javainterface/io/IOHandler.java:138 | trimming twice is trimming once |
| `Protocol.FileRead` | src/java/io/riddles/javainterface/io/IOHandler.java:118-127 | file mode: a line is returned exactly when one is left; it is the line at the cursor, verbatim, and the cursor advances by one; otherwise "No more input." and the cursor stays |
| `Protocol.FirstNonBlank` | src/java/io/riddles/javainterface/io/IOHandler.java:137-139 | the index found is of a non-blank line and every line before it is blank; no index means every remaining line is blank |
| `Protocol.LiveRead` | src/java/io/riddles/javainterface/io/IOHandler.java:134-144 | live mode: "No more input." exactly when no line is left, and then nothing is consumed; with a line left, a message exactly when a non-blank line is ahead, and it is the trim of the first non-blank line, non-empty, with the cursor just past that line and only blank lines skipped; if only blank lines remain they are all consumed and Scanner's NoSuchElementException results |
| `Protocol.LiveMessageIsTrimmed` | src/java/io/riddles/javainterface/io/IOHandler.java:138-140 | a live-mode message is non-empty and equal to its own trim |
| `Protocol.ReadNext` | src/java/io/riddles/javainterface/io/IOHandler.java:68-73 | getNextMessage: a message always advances the cursor; "No more input." happens exactly at the end of input and consumes nothing; NoSuchElementException only happens in live mode |
| `Protocol.Wait` | src/java/io/riddles/javainterface/io/IOHandler.java:81-93 | at least one read happens, so remaining input is always consumed; a match ends the messages read and no earlier one matched; silent exhaustion leaves the cursor at the end; the escaping exception only happens in live mode |
| `Protocol.FileWaitReadsVerbatim` | src/java/io/riddles/javainterface/io/IOHandler.java:84-92 | in file mode the messages read are exactly the lines consumed, in order |
| `Protocol.FileWaitFindsFirstMatch` | src/java/io/riddles/javainterface/io/IOHandler.java:84-92 | in file mode a wait matches if and only if the expected line is still ahead, and then stops on its first occurrence; otherwise it consumes all input and returns silently |
| `Protocol.LiveWaitReadsNonBlank` | src/java/io/riddles/javainterface/io/IOHandler.java:84-92 | in live mode the messages read are exactly the trims of the non-blank lines consumed, in order |
| `Protocol.LiveWaitStep` | src/java/io/riddles/javainterface/io/IOHandler.java:84-92 | one round of a live wait: the read skips to the first non-blank line, and the wait stops if its trim is the expected message and otherwise goes on after that line with the trim prepended to what is read |
| `Protocol.LiveWaitEnd` | src/java/io/riddles/javainterface/io/IOHandler.java:84-92 | in live mode a wait without a match ends with the escaping exception if and only if a line was left and the last line is blank; otherwise it returns silently |
| `Protocol.LiveWaitOnBlankTail` | src/java/io/riddles/javainterface/io/IOHandler.java:84-92 | in live mode, when only blank lines are left, the wait consumes them, reads nothing and ends with the escaping exception instead of returning silently |
| `Protocol.LiveWaitTrailingBlankExample` | src/java/io/riddles/javainterface/io/IOHandler.java:84-92 | waiting for "STOP" in live mode on "a" then a blank line reads "a" and then ends with the escaping exception |
| `Protocol.FileWaitForStopExample` | src/java/io/riddles/javainterface/io/IOHandler.java:84-92 | waiting for "STOP" on "", "a", "", "b", "STOP" in file mode reads all five lines and stops after the last |
| `Protocol.LiveWaitForStopExample` | src/java/io/riddles/javainterface/io/IOHandler.java:84-92 | the same wait in live mode reads "a", "b", "STOP" |
| `Protocol.BroadcastLine` | src/java/io/riddles/javainterface/io/IOHandler.java:110 | the line is the prefix `bot all send ` followed by the message unchanged |
| `Protocol.BroadcastLineInjective` | src/java/io/riddles/javainterface/io/IOHandler.java:110 | different messages give different broadcast lines |
| `Protocol.BroadcastExample` | src/java/io/riddles/javainterface/io/IOHandler.java:110 | broadcasting "move up" writes `bot all send move up` |
| `Protocol.IOHandler.constructor` | src/java/io/riddles/javainterface/io/IOHandler.java:48-50 | a new handler on standard input is in live mode, at the first line, with nothing written |
| `Protocol.IOHandler.FromFile` | src/java/io/riddles/javainterface/io/IOHandler.java:53-61 | a new handler on a replay file is in file mode, at the first line, with nothing written |
| `Protocol.IOHandler.GetNextMessage` | src/java/io/riddles/javainterface/io/IOHandler.java:68-73 | the result and new cursor are those of `ReadNext`: file mode exactly when a reader exists |
| `Protocol.IOHandler.GetNextMessageFromFile` | src/java/io/riddles/javainterface/io/IOHandler.java:118-127 | the result and new cursor are those of `FileRead` |
| `Protocol.IOHandler.GetNextMessageFromInStream` | src/java/io/riddles/javainterface/io/IOHandler.java:134-144 | the blank-skipping loop produces the result and new cursor of `LiveRead` |
| `Protocol.IOHandler.WaitForMessage` | src/java/io/riddles/javainterface/io/IOHandler.java:81-93 | the loop leaves the cursor where `Wait` ends, and reports that the exception escaped exactly when `Wait` aborts |
| `Protocol.IOHandler.SendMessage` | src/java/io/riddles/javainterface/io/IOHandler.java:99-102 | appends exactly the one line to the output and leaves the input cursor alone |
| `Protocol.IOHandler.BroadcastMessage` | src/java/io/riddles/javainterface/io/IOHandler.java:109-111 | appends exactly the line `bot all send ` + message and leaves the input cursor alone |

## Left out

- Logging through `LOGGER`: diagnostics only.
- `Thread.sleep(2)` between reads in `waitForMessage`: a timing artefact with no effect on the lines consumed or written.
- Opening the replay file, its charset, and the `Scanner`/`BufferedReader` internals. `FromFile` takes the lines of a file that opened. When the file cannot be opened, IOHandler.java leaves both readers null and the first read fails with a null dereference; that case is not modelled.
- How `Scanner` and `BufferedReader` split a stream into lines: the input is given as a sequence of lines.
- Real standard input and output. Output is the sequence of lines the handler has written; flushing is not modelled.
- `MoveType`, `Enemy` and `BookingGameBoard` are not part of this model. The board is a passability predicate, the moving move types are a given sequence, and `getOppositeMoveType` is assumed to pair UP with DOWN and LEFT with RIGHT.
- EnemyAI.MovedCoordinate: coordinates are unbounded integers, while `java.awt.Point` holds 32-bit `int`s that wrap at ±2^31. The step bounds here, and the round-trip lemmas `DirectionOfStep`, `StepToNeighbour`, `StepBack` and `ProbesNeighbourInHeading`, hold for the Java code only for coordinates away from ±2^31. Game boards are far smaller than that.
- EnemyAI.AvailableDirections: a null heading with a non-empty moving-type list throws a NullPointerException in AbstractEnemyAI.java; the model makes this a precondition instead of an error result.
- The `ArrayList` cast in `mandatoryTranform`.
- Concrete enemy AI subclasses and the handling of three or more available directions: they are not in the modelled files.
- Board construction, scoring, player moves and match orchestration.

## Findings

| source | as written | input that shows it | evidently intended | confidence | as-written member | corrected member |
|---|---|---|---|---|---|---|
| src/java/io/riddles/bookinggame/game/enemy/AbstractEnemyAI.java:80-91 | the switch is on the size of `MoveType.getMovingMoveTypes()`, and case 1 steps along that list's first element, so with the four moving headings the result is always null | an enemy at (1, 1) heading RIGHT where only (2, 1) is passable: the result is null, not (2, 1) | switch on the size of `getAvailableDirections(enemy, board)` and step along its only element, as the comments on the cases say (no direction available, only one direction available) | medium, not executed; `MoveType` is not part of this model, so the four-heading list is assumed | `EnemyAI.SingleExitCounterexample` | `EnemyAI.MandatoryTransformIntended` |
