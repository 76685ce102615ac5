# Match the Tiles: a verified model of the puzzle engine

The puzzle is played on an N×N board. It has coloured tiles, coloured targets, blank cells and blockers. A move slides every tile as far as it can go in one direction (left, right, up or down). A level is solved when every tile stands on a target of its own colour. This project models the engine behind the game in Dafny:

- **the board state** (`game_state.py`): its win test, the identity that searches use to recognise repeated states (`__eq__`, `__hash__`), and its text drawing (`__str__`);
- **the four slide moves** (`move.py`):
  - tiles are sorted so that the one nearest the destination edge goes first;
  - each tile steps while the next cell is a blank or a target that holds no blocker and no tile;
  - the blank list is kept up to date;
  - a move returns a fresh state that shares the history list of the state it started from, or `None` when nothing moved;
- **breadth-first search** (`BFS.solve` in `search_algorithm.py`): a FIFO queue of (state, path) pairs and a set of seen keys, with its calls into the metrics collector;
- **the metrics collector** (`metrics_collector.py`): the state counter, the running peak of memory, and the report;
- **the level validator** (`level_validator.py`): it checks that tile and target colours match, that the cells of the board are consistent, and that the level is solvable. It then records the optimal move count;
- **the two hint searches**, one in `game_gui.py` and one in `play_game.py`, and the GUI's rectangle hit test.

How the model is laid out:

- **Boards are values.** A `Board` is a `datatype` value. The blanks and blockers are sequences, because list order matters to equality and to the hash key.
- **The history is an object.** A move hands the very same `move_history` list to the state it returns. So the history is a `History` object, and a `GameState` holds a reference to it.
- **A slide has a specification.** The move rule is written as a pure, ghost specification: `Moves.Slide`, built from `SortedKeys`, `Travel`, `StepTile` and `SlideTiles`.
- **The code is modelled as it runs.** `Moves.SlideApply` and `Moves.Apply` follow the loops of `apply` and the `Move.move` decorator, and are proved equal to that specification.
- **BFS has a specification.** Breadth-first search is specified as a functional loop, `BfsSpec.Search`.
- **The search is proved correct.** `BfsCorrect.SearchCorrect` shows that a found path solves the level and no path is shorter. It also shows that when no path is found, none exists.
- **The search ends.** The loop terminates because every board reachable from the start has its key in a finite set, `Reach.Space`. Keys that have not been seen yet shrink with each new key, and the queue shrinks otherwise.
- **The imperative search matches the specification.** `SearchAlgorithm.SearchLoop` is the imperative `while queue` loop, proved equal to that specification, history appends and metrics included. `Bfs.Solve`, the validator and both hint searches are built on it.

## Model

| member | source | states |
|---|---|---|
| GameStates.IsSolved | game_state.py:23-32 | on a solved board every tile stands on a target cell |
| GameStates.NewGameState | game_state.py:5-21 | the state holds exactly the five given fields, and its history is a new, empty list |
| GameStates.History.Append | move.py:28 | the shared history list gains exactly one entry, at its end |
| GameStates.CheckSolved | game_state.py:23-32 | the scan over the tiles answers true exactly when every tile stands on a target of the same colour |
| GameStates.NoTilesSolved | game_state.py:29-32 | a board without tiles is solved |
| GameStates.MisplacedTileUnsolved | game_state.py:29-31 | a tile off every target, or on a target of another colour, makes the board unsolved |
| GameStates.Equals | game_state.py:34-48 | `__eq__` holds exactly when the other operand is a state with the same hash key (tile map and blanks in order) and the same targets and blockers, blockers in order |
| GameStates.SameKey | game_state.py:50-56 | two boards have the same key exactly when their tile maps and their blank lists, in order, agree; targets, blockers and size play no part |
| GameStates.EqualStatesHashAlike | game_state.py:44-56 | states that `__eq__` calls equal have the same hash key, which is the tile map plus the blanks in order |
| GameStates.EqualsIgnoresSizeAndHistory | game_state.py:43-47 | swapping the size or the history of the other state never changes the answer of `__eq__` |
| GameStates.EqualsIsEquivalence | game_state.py:34-48 | `__eq__` is reflexive, symmetric and transitive on states |
| GameStates.Upper | game_state.py:68 | `upper()` of one character: a lower-case ASCII letter becomes the matching capital (32 code points lower), every other character is kept |
| GameStates.Lower | game_state.py:77 | `lower()` of one character: a capital ASCII letter becomes the matching small letter (32 code points higher), every other character is kept |
| GameStates.CaseRoundTrip | game_state.py:68-77 | `lower()` undoes `upper()` on small ASCII letters, and `upper()` undoes `lower()` on capitals |
| GameStates.CellText | game_state.py:64-77 | a cell draws `.` exactly when it holds no tile, target, blank or blocker, and two characters otherwise |
| GameStates.StageIsCell | game_state.py:64-77 | after the five filling loops, a cell has an entry exactly when it holds a tile, target, blank or blocker. Its text follows the priority: tile on target, then blocker, blank, target, tile. Empty cells draw `.` |
| GameStates.FillColours | game_state.py:64-68 | the tile and target loops fail (`IndexError`) exactly when some colour name is empty; otherwise targets overwrite tiles |
| GameStates.FillMarks | game_state.py:69-72 | the blank and blocker loops leave every cell as the first four layers say, with blockers over blanks over colours |
| GameStates.FillPairs | game_state.py:74-77 | the last loop gives each tile on a target the target's capital and the tile's small letter |
| GameStates.Draw | game_state.py:79-85 | the printing loops emit `size` rows, each of `size` cells, each cell followed by a space |
| GameStates.Render | game_state.py:58-85 | `__str__` yields the drawing exactly when every tile and target colour name is non-empty, and `IndexError` otherwise |
| GameStates.ToString | game_state.py:58-85 | `__str__` returns the drawn board, or `IndexError` when a colour name is empty |
| GameStates.RenderLines | game_state.py:79-85 | the drawing has exactly one line per row when no colour name starts with a newline |
| Moves.NextAdvances | move.py:45-47 | one step keeps the tile on its row or column and moves it one cell nearer the edge |
| Moves.BeforeOrder | move.py:41 | each of the four sort keys is a strict total order that puts the tile nearest the destination edge first on each line |
| Moves.SortedKeysSpec | move.py:41 | the sorted sequence holds each tile position exactly once, in sort-key order |
| Moves.FirstOf | move.py:41 | a scan of a non-empty set returns its first position under the sort key |
| Moves.SortTiles | move.py:41 | the `sorted(...)` call yields the tile positions in sort-key order |
| Moves.Travel | move.py:44-49 | the inner loop stays on the tile's line and never moves backwards. A tile that moved stops on a blank or target that holds no blocker and no tile, and from which it cannot advance |
| Moves.RemoveFirst | move.py:56 | `list.remove` drops the first occurrence of the element and keeps the other entries in their order |
| Moves.Slide | move.py:37-63 | the slide specification: a successful slide keeps the targets, the blockers and the size |
| Moves.SlideApply | move.py:37-63 | the loops of `apply` report a move exactly when `Slide` succeeds, and then produce its tiles and blanks |
| Moves.Apply | move.py:21-31 | the decorated `apply` returns a fresh state that shares the input's history exactly when the slide succeeds, and appends the class name only then |
| MoveProperties.TravelSteps | move.py:45-47 | every intermediate cell of a tile's travel was a blank or target, not a blocker and free of tiles |
| MoveProperties.StepBlanks | move.py:50-57 | for a moving tile, the new blank list is the old one with the first occurrence of the destination removed when that cell is off the targets, followed by the vacated cell when it is off the targets (the same list as appending first and removing after, as the source does); target cells never enter the blanks; the tile count stays the same |
| MoveProperties.SlideFailsIffStuck | move.py:43-63 | a slide returns `None` exactly when no tile can advance one cell |
| MoveProperties.SlideIdempotent | move.py:41-49 | repeating a successful slide in the same direction moves nothing |
| MoveProperties.SlideKeepsColours | move.py:50-52 | a slide keeps the number of tiles and the multiset of their colours |
| MoveProperties.SlideTracksTiles | move.py:43-52 | each tile after a slide comes from exactly one tile before it, of the same colour and on the same line, and no further from the edge |
| MoveProperties.SlideLeftKeepsRows | move.py:43-52 | after a slide to the left, each tile comes from a tile of its colour on the same row, in the same or a later column |
| MoveProperties.SlideKeepsBudget | move.py:53-56 | a slide keeps the number of blanks plus tiles standing off a target |
| MoveProperties.SlideStaysWithin | move.py:45-56 | a slide keeps tiles and blanks inside the given cells and colours, and adds no blank on a target |
| Reach.RunDescends | move.py:38-60 | a board reached by any sequence of moves keeps the targets, blockers and size. Its tiles and blanks lie on the start's cells and colours, and its blank budget is unchanged |
| Reach.DescendsByKey | game_state.py:56 | among boards reached from one start, the hash key (tiles and blanks) determines the whole board |
| Reach.RunInSpace | search_algorithm.py:22-38 | every reachable board's key lies in one finite set of keys |
| Metrics.Peak | metrics_collector.py:21-22 | the running maximum is at least its start and every sample, and equals one of them |
| Metrics.MetricsCollector.constructor | metrics_collector.py:5-9 | a new collector has zero times, zero peak and zero count |
| Metrics.MetricsCollector.Start | metrics_collector.py:11-13 | `start` records the clock and resets neither the counter nor the peak |
| Metrics.MetricsCollector.Stop | metrics_collector.py:15-17 | `stop` records the clock and changes nothing else |
| Metrics.MetricsCollector.TrackState | metrics_collector.py:19-22 | `track_state` adds exactly one to the counter and folds the sample into the peak |
| Metrics.MetricsCollector.GetMetrics | metrics_collector.py:24-32 | the report holds the stored fields. The difference is `solution - optimal` when the solution is non-zero, and `None` when it is missing or 0. A non-zero solution against a missing optimum raises `TypeError` |
| Metrics.PeakSplit | metrics_collector.py:19-22 | tracking states in two runs gives the same peak as one run over all of them |
| BfsSpec.Offer | search_algorithm.py:34-39 | trying one move only ever adds seen keys, and queues nothing when no key is new |
| BfsSpec.Expand | search_algorithm.py:33-39 | expanding a state only ever adds seen keys, and queues nothing when no key is new |
| BfsSpec.Initial | search_algorithm.py:21-23 | the search starts with the start state on an empty path, and only its key seen |
| BfsSpec.Search | search_algorithm.py:19-42 | the search specification: an already solved start is answered with the empty path, after one expansion and with no move logged |
| BfsCorrect.ExpandShape | search_algorithm.py:33-39 | expanding a state appends only states one move further, and marks exactly their keys as seen |
| BfsCorrect.ExpandCovers | search_algorithm.py:33-39 | after expansion, the key of every successful successor has been seen |
| BfsCorrect.StepInv | search_algorithm.py:25-39 | one iteration keeps the breadth-first invariant: queue levels, expanded keys, and shortest distances |
| BfsCorrect.BfsLoopCorrect | search_algorithm.py:25-42 | from any frontier satisfying the invariant, the rest of the loop returns a correct answer |
| BfsCorrect.SearchCorrect | search_algorithm.py:19-42 | a returned path replays to a solved board, and no solving sequence is shorter. When no path is returned, no sequence of moves solves the level |
| BfsCorrect.SolvedStartEmptyPath | search_algorithm.py:26-31 | an already solved start yields the empty path |
| BfsCorrect.UnsolvedStartMoves | search_algorithm.py:26-31 | an unsolved start yields no path or a non-empty one |
| BfsCorrect.InitialUnique | search_algorithm.py:21-23 | the initial queue holds one key, and it is already seen |
| BfsCorrect.OfferUnique | search_algorithm.py:36-39 | a state is queued only under a key not seen before |
| BfsCorrect.ExpandUnique | search_algorithm.py:33-39 | expanding a state never queues a key twice |
| BfsCorrect.StepUnique | search_algorithm.py:25-39 | an iteration keeps the queue free of repeated keys, all of them seen |
| BfsCorrect.RoundsUnique | search_algorithm.py:25-39 | from a frontier without repeated keys, every frontier after any number of loop iterations queues no key twice, and only seen keys |
| BfsCorrect.SearchUnique | search_algorithm.py:20-39 | every frontier the search reaches from the start queues no key twice, and only seen keys |
| SearchAlgorithm.LoopVisitsRounds | search_algorithm.py:25-39 | the frontiers the loop passes through are the rounds from the start: while no earlier round has stopped, the `k`-th round is tracked, and the loop from it after `k` expansions gives the search's outcome |
| SearchAlgorithm.Names | search_algorithm.py:39 | the path of names has one name per move |
| SearchAlgorithm.NamesAt | search_algorithm.py:39 | the i-th name is the class name of the i-th move |
| SearchAlgorithm.TryMove | search_algorithm.py:34-39 | one pass of the `for move` loop does what `Offer` specifies to the queue and the seen keys, and appends the class name to the history only when the move succeeds |
| SearchAlgorithm.TryMoves | search_algorithm.py:33-39 | the `for move` loop does what `Expand` specifies to the queue and the seen keys, and appends one history entry per successful move |
| SearchAlgorithm.Track | search_algorithm.py:27 | one `track_state` call per state taken off the queue |
| SearchAlgorithm.Round | search_algorithm.py:26-39 | one iteration on an unsolved front state pops it, tracks it and expands it as `Step` specifies, keeping queue, seen keys, history and metrics in step with the specification |
| SearchAlgorithm.Finish | search_algorithm.py:26-42 | when the loop stops, the path is the specified one: none at an empty queue, else the solved front state's, whose pop is tracked |
| SearchAlgorithm.SearchLoop | search_algorithm.py:20-42 | the `while queue` loop returns the specified path as class names. It appends the specified move log to the shared history, and counts one tracked state per expansion |
| SearchAlgorithm.Bfs.constructor | search_algorithm.py:9-12 | a search holds its initial state and a new, zeroed collector |
| SearchAlgorithm.Bfs.Solve | search_algorithm.py:19-42 | `solve` returns the shortest path with its length, or `None` for both. It calls `start` and `stop` once each, and counts and samples every expanded state |
| LevelValidator.Level.constructor | level.py:7-15 | a level holds its initial state and its recorded optimum |
| LevelValidator.DeepCopy | level_validator.py:79 | the copy has the same board and a fresh history list with the same entries |
| LevelValidator.CountColours | level_validator.py:31-36 | the count dictionary holds the multiset of colours of the map |
| LevelValidator.HasMatchingColors | level_validator.py:29-41 | true exactly when the tiles and the targets have the same multiset of colours |
| LevelValidator.SolvedCoversTargets | level_validator.py:29-41 | on a solved board with matching colour counts, the tiles and the targets are the same map |
| LevelValidator.RunKeepsColours | move.py:50-52 | any sequence of moves keeps the targets and the multiset of tile colours |
| LevelValidator.SolutionFillsTargets | level_validator.py:29-41 | with matching colours, every solution ends with each target covered by a tile of its colour |
| LevelValidator.Grid | level_validator.py:46 | the valid positions are the cells with both coordinates in `[0, size)`, and there are `size * size` of them when `size` is not negative |
| LevelValidator.MarkAll | level_validator.py:49-57 | the blank loop and the blocker loop succeed exactly when their positions are distinct, on the grid and unused; each then marks its positions used |
| LevelValidator.MarkTargets | level_validator.py:59-64 | the target loop succeeds exactly when every target is on the grid and unused; it then marks the targets used |
| LevelValidator.MarkTiles | level_validator.py:66-73 | the tile loop succeeds exactly when every tile is on the grid and, if its cell is already used, is on a target |
| LevelValidator.ValidateBoardFields | level_validator.py:43-75 | true exactly when the layout is consistent: blanks and blockers distinct and disjoint; targets and tiles on neither; everything on the grid; every grid cell used |
| LevelValidator.ValidBoardFillsPicture | level_validator.py:75 | on a consistent board every grid cell draws something other than `.` |
| LevelValidator.FindOptimalSolution | level_validator.py:77-81 | BFS on a deep copy returns the fewest moves that solve the level, or `None` exactly when it cannot be solved. The level is not modified |
| LevelValidator.UpdateOptimalMoves | level_validator.py:83-92 | afterwards the level records the given optimum, whatever it held before |
| LevelValidator.ValidateLevel | level_validator.py:6-27 | valid exactly when the colours match, the layout is consistent and a solution exists. On success the optimum is recorded; on failure the level keeps its old value |
| GameGui.GuiHint | game_gui.py:497-518 | the GUI hint specification: no hint for a solved board, and a hint is always the class name of a move |
| GameGui.FirstMoveBfs | game_gui.py:497-518 | the GUI hint is the first move of the BFS path, or `None` when the path is missing or empty. It runs on a deep copy and modifies nothing |
| GameGui.GuiHintStartsShortest | game_gui.py:504-518 | a GUI hint starts a shortest solution. There is no hint exactly when the board is already solved or cannot be solved |
| GameGui.GuiHintMoves | game_gui.py:511-516 | a GUI hint names a move that succeeds on the board |
| GameGui.IsPointInRect | game_gui.py:611-615 | a point can only be inside a rectangle whose width and height are not negative |
| GameGui.RectCorners | game_gui.py:611-615 | the corners are inside exactly when width and height are not negative; a point inside lies within the size from the corner, edges included |
| GameGui.RectShift | game_gui.py:611-615 | moving point and rectangle together does not change the answer |
| PlayGame.CliHint | play_game.py:86-106 | the text hint specification: a solved board raises `IndexError`, and a hint is always the class name of a move |
| PlayGame.FirstMoveBfs | play_game.py:86-106 | the text hint is the first move of the BFS path, `None` without a path, and `IndexError` for an empty path. It modifies nothing |
| PlayGame.GetHint | play_game.py:83-84 | `get_hint` answers exactly as `_first_move_bfs` |
| PlayGame.CliHintRaisesIffSolved | play_game.py:95-96 | the text hint raises exactly when the board is already solved |
| PlayGame.CliHintStartsShortest | play_game.py:92-106 | otherwise it names the first move of a shortest solution, or `None` exactly when no solution exists |
| PlayGame.HintsAgree | play_game.py:92-104 | on an unsolved board the text hint and the GUI hint agree |
| PlayGame.EmptyLevelHintRaises | play_game.py:95-96 | the worked example of the finding below: a board without tiles is solved from the start, and its text hint raises `IndexError` (`CliHintRaisesIffSolved` is the general statement) |

## Left out

- **Time, memory and `print`.** `time.time()` and `tracemalloc` become inputs: clock readings are passed to `Bfs.Solve`, and memory samples come as a function from the state count to bytes. The `print` calls of the validator are left out. `print_metrics` and its float formatting are left out.
- **Hash collisions.** Python `hash()` may collide. The model keys the seen set on the exact key (tile map and blank sequence), as if there were no collisions.
- **Dictionary iteration order.** Loops over dictionaries pick their entries in an unspecified order. No result of the modelled code depends on that order; the sort in `apply` does not, because the sort keys are total orders on positions.
- **Python error paths that cannot occur.** These are modelled as proof obligations instead:
  - `list.remove` cannot raise `ValueError` in `apply`, because the destination of a move off a target is always a blank;
  - the validator's and `__str__`'s dictionary look-ups cannot raise `KeyError`.
- **Colour names.** Colour names are strings. `upper()` and `lower()` are modelled for ASCII letters only.
- GameStates.RenderLines: counts lines only when no colour name starts with a newline. The source makes no such assumption, and the lemma says nothing about other names.
- **The rest of the GUI and the CLI.** Of `game_gui.py` and `play_game.py`, only the hint searches and the rectangle test are modelled. These are left out: drawing, the event loop, timers, animation, and the interactive input loop with its restarts.
- **Heuristics and other searches.** `heuristic.py` holds three stubs that return 0. `IDS`, `GreedySearch` and `Astar` are named by the menu and benchmark scripts but are not defined in `search_algorithm.py`. None of these are part of this model.
- **Benchmarks and menus.** `benchmark.py`, `benchmark_utils.py`, `ai_game_solver.py`, `main.py` and `level_manager.py` (files, plots, menus) are not part of this model.
- **Move identity.** `POSSIBLE_MOVES` holds move objects; the model uses the four directions and their class names.

## Findings

| source | as written | input that shows it | evidently intended | confidence | as-written member | corrected member |
|---|---|---|---|---|---|---|
| play_game.py:95-96 | the hint returns `path[0]` without checking that the path is non-empty | a level whose start is already solved (for instance one without tiles): BFS returns the empty path, and asking for a hint raises `IndexError` | answer "no hint", as the GUI copy does with `path[0] if path else None` (game_gui.py:508) | medium, not executed | PlayGame.EmptyLevelHintRaises | GameGui.GuiHintStartsShortest |
