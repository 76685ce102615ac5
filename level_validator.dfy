/**
 * The level validator (level_validator.py): a level is accepted when its
 * tiles and targets have the same colour counts, its cells are laid out
 * consistently, and breadth-first search finds a solution, whose length is
 * then recorded as the level's optimal move count.
 */
module LevelValidator {
  import opened Wrappers
  import opened GameStates
  import opened Moves
  import opened MoveProperties
  import opened Reach
  import opened BfsSpec
  import opened BfsCorrect
  import opened SearchAlgorithm

  /** `Level`: an initial state and the optimal move count recorded for it (`None` when unknown). */
  class Level {
    const initialState: GameState
    var optimalMoves: Option<int>

    constructor (initialState: GameState, optimalMoves: Option<int>)
      ensures this.initialState == initialState && this.optimalMoves == optimalMoves
    {
      this.initialState := initialState;
      this.optimalMoves := optimalMoves;
    }
  }

  /** `n` is the fewest moves that solve `s`, or `None` when no sequence of moves does. */
  ghost predicate Optimal(s: Board, n: Option<int>)
  {
    match n
    case Some(k) => (exists q :: |q| == k && Solves(s, q)) && forall q :: Solves(s, q) ==> k <= |q|
    case None => forall q :: !Solves(s, q)
  }

  /** `deepcopy` of a game state: the same board and a fresh copy of its history list. */
  method DeepCopy(s: GameState) returns (c: GameState)
    ensures c.board == s.board && c.history.entries == s.history.entries
    ensures fresh(c.history)
  {
    var h := new History(s.history.entries);
    c := GameState(s.board, h);
  }

  // ----- _has_matching_colors -----

  /**
   * `_has_matching_colors`: count the tiles and the targets of each colour
   * (a count dictionary is a multiset) and compare the counts.
   */
  method HasMatchingColors(level: Level) returns (ok: bool)
    ensures ok <==> Colours(level.initialState.board.tiles) == Colours(level.initialState.board.targets)
  {
    var tileColours := CountColours(level.initialState.board.tiles);
    var targetColours := CountColours(level.initialState.board.targets);
    ok := tileColours == targetColours;
  }

  /** One counting loop of `_has_matching_colors`. */
  method CountColours(m: map<Pos, Color>) returns (counts: multiset<Color>)
    ensures counts == Colours(m)
  {
    counts := multiset{};
    var rest := m;
    while rest != map[]
      invariant counts + Colours(rest) == Colours(m)
      decreases |rest|
    {
      var p :| p in rest;
      ColoursRemove(rest, p);
      RemoveKey(rest, p);
      counts := counts + multiset{rest[p]};
      rest := rest - {p};
    }
  }

  /** Finite sets of equal size, one inside the other, are equal. */
  lemma {:induction false} SubsetEqualCard<T>(a: set<T>, b: set<T>)
    requires a <= b && |a| == |b|
    ensures a == b
  {
    if a != b {
      var x :| x in b && x !in a;
      SubsetCard(a, b - {x});
    }
  }

  /**
   * Why the colour counts must match: on a solved board with matching counts
   * every target is covered by a tile of its colour, and nothing else.
   */
  lemma SolvedCoversTargets(b: Board)
    requires IsSolved(b) && Colours(b.tiles) == Colours(b.targets)
    ensures b.tiles == b.targets
  {
    ColoursSize(b.tiles);
    ColoursSize(b.targets);
    assert b.tiles.Keys <= b.targets.Keys;
    SubsetEqualCard(b.tiles.Keys, b.targets.Keys);
  }

  /** Slides keep the colour counts of the tiles and the targets, whatever the moves. */
  lemma {:induction false} RunKeepsColours(s: Board, q: seq<Dir>)
    requires Run(s, q).Some?
    ensures Colours(Run(s, q).value.tiles) == Colours(s.tiles)
    ensures Run(s, q).value.targets == s.targets
    decreases |q|
  {
    if q != [] {
      var init := q[..|q| - 1];
      RunKeepsColours(s, init);
      SlideKeepsColours(q[|q| - 1], Run(s, init).value);
    }
  }

  /** On a level with matching colour counts, a solution ends with every target covered by its colour. */
  lemma SolutionFillsTargets(s: Board, q: seq<Dir>)
    requires Colours(s.tiles) == Colours(s.targets) && Solves(s, q)
    ensures Run(s, q).value.tiles == s.targets
  {
    RunKeepsColours(s, q);
    SolvedCoversTargets(Run(s, q).value);
  }

  // ----- _validate_board_fields -----

  /** The cells of column `x` in rows `[0, n)`. */
  ghost function Column(x: int, n: nat): set<Pos>
  {
    set y: int | 0 <= y < n :: (x, y)
  }

  /** The cells of columns `[0, m)` in rows `[0, n)`, one column at a time. */
  ghost function Columns(m: nat, n: nat): set<Pos>
  {
    if m == 0 then {} else Columns(m - 1, n) + Column(m - 1, n)
  }

  /** `Columns` holds exactly the cells below `m` and `n`. */
  lemma {:induction false} ColumnsHas(m: nat, n: nat, x: int, y: int)
    ensures (x, y) in Columns(m, n) <==> 0 <= x < m && 0 <= y < n
  {
    if m > 0 {
      ColumnsHas(m - 1, n, x, y);
    }
  }

  /** A column of `n` rows has `n` cells. */
  lemma {:induction false} ColumnCard(x: int, n: nat)
    ensures |Column(x, n)| == n
  {
    if n > 0 {
      ColumnCard(x, n - 1);
      assert Column(x, n) == Column(x, n - 1) + {(x, n - 1)};
    }
  }

  /** One more column adds one more `n`. */
  lemma MulSucc(k: nat, n: nat)
    ensures (k + 1) * n == k * n + n
  {
  }

  /** `m` columns of `n` rows have `m * n` cells. */
  lemma {:induction false} ColumnsCard(m: nat, n: nat)
    ensures |Columns(m, n)| == m * n
  {
    if m > 0 {
      var k := m - 1;
      ColumnsCard(k, n);
      ColumnCard(k, n);
      forall c | c in Column(k, n)
        ensures c !in Columns(k, n)
      {
        ColumnsHas(k, n, c.0, c.1);
      }
      assert Columns(k, n) * Column(k, n) == {};
      assert |Columns(m, n)| == k * n + n;
      MulSucc(k, n);
    }
  }

  /** The `size` by `size` grid of valid positions: `size * size` cells when `size` is not negative. */
  function Grid(size: int): (cells: set<Pos>)
    ensures forall x, y :: (x, y) in cells <==> 0 <= x < size && 0 <= y < size
    ensures size >= 0 ==> |cells| == size * size
  {
    var cells := set x: int, y: int | 0 <= x < size && 0 <= y < size :: (x, y);
    if size >= 0 then
      ColumnsCard(size, size);
      forall c: Pos
        ensures c in cells <==> c in Columns(size, size)
      {
        ColumnsHas(size, size, c.0, c.1);
      }
      assert cells == Columns(size, size);
      cells
    else cells
  }

  /** No position occurs twice in the list. */
  predicate Distinct(q: seq<Pos>)
  {
    forall i, j :: 0 <= i < j < |q| ==> q[i] != q[j]
  }

  /**
   * A consistent layout: blanks and blockers are distinct grid cells, no
   * blocker is a blank, targets and tiles lie on grid cells that are neither
   * blanks nor blockers (a tile may stand on a target), and every grid cell
   * holds something.
   */
  predicate FieldsValid(b: Board)
  {
    var grid := Grid(b.size);
    && Distinct(b.blanks) && (forall p :: p in b.blanks ==> p in grid)
    && Distinct(b.blockers) && (forall p :: p in b.blockers ==> p in grid && p !in b.blanks)
    && (forall p :: p in b.targets ==> p in grid && p !in b.blanks && p !in b.blockers)
    && (forall p :: p in b.tiles ==> p in grid && p !in b.blanks && p !in b.blockers)
    && (forall p :: p in grid ==> p in b.blanks || p in b.blockers || p in b.targets || p in b.tiles)
  }

  /**
   * The loop `_validate_board_fields` runs over the blanks and again over
   * the blockers: fail on a position already used or off the grid, else
   * mark it used.
   */
  method MarkAll(q: seq<Pos>, grid: set<Pos>, used: set<Pos>) returns (ok: bool, used': set<Pos>)
    ensures ok <==> Distinct(q) && forall p :: p in q ==> p in grid && p !in used
    ensures ok ==> used' == used + set p | p in q
  {
    used' := used;
    for i := 0 to |q|
      invariant Distinct(q[..i]) && forall p :: p in q[..i] ==> p in grid && p !in used
      invariant used' == used + set p | p in q[..i]
    {
      if q[i] in used' || q[i] !in grid {
        if q[i] in grid && q[i] !in used {
          assert q[i] in q[..i];
          var j :| 0 <= j < i && q[..i][j] == q[i];
          assert q[j] == q[i];
        }
        return false, used';
      }
      assert q[..i + 1] == q[..i] + [q[i]];
      used' := used' + {q[i]};
    }
    assert q[..|q|] == q;
    ok := true;
  }

  /** The loop over the target positions: fail on a used or off-grid position, else mark it used. */
  method MarkTargets(targets: set<Pos>, grid: set<Pos>, used: set<Pos>) returns (ok: bool, used': set<Pos>)
    ensures ok <==> forall p :: p in targets ==> p in grid && p !in used
    ensures ok ==> used' == used + targets
  {
    used' := used;
    var rest := targets;
    while rest != {}
      invariant rest <= targets
      invariant forall p :: p in targets - rest ==> p in grid && p !in used
      invariant used' == used + (targets - rest)
      decreases rest
    {
      var p :| p in rest;
      if p in used' {
        return false, used';
      }
      if p !in grid {
        return false, used';
      }
      used' := used' + {p};
      rest := rest - {p};
    }
    ok := true;
  }

  /**
   * The loop over the tile positions: fail on an off-grid position or on a
   * used one that is not a target; mark the others used.
   */
  method MarkTiles(tiles: set<Pos>, targets: set<Pos>, grid: set<Pos>, used: set<Pos>)
    returns (ok: bool, used': set<Pos>)
    ensures ok <==> forall p :: p in tiles ==> p in grid && (p in used ==> p in targets)
    ensures ok ==> used' == used + tiles
  {
    used' := used;
    var rest := tiles;
    while rest != {}
      invariant rest <= tiles
      invariant forall p :: p in tiles - rest ==> p in grid && (p in used ==> p in targets)
      invariant used' == used + (tiles - rest)
      decreases rest
    {
      var p :| p in rest;
      if p !in grid {
        return false, used';
      }
      if p in used' {
        if p !in targets {
          return false, used';
        }
      } else {
        used' := used' + {p};
      }
      rest := rest - {p};
    }
    ok := true;
  }

  /** `_validate_board_fields`: the four marking loops, then every grid cell must be used. */
  method ValidateBoardFields(level: Level) returns (ok: bool)
    ensures ok <==> FieldsValid(level.initialState.board)
  {
    var b := level.initialState.board;
    var grid := Grid(b.size);
    var used: set<Pos> := {};
    ok, used := MarkAll(b.blanks, grid, used);
    if !ok {
      return;
    }
    ok, used := MarkAll(b.blockers, grid, used);
    if !ok {
      return;
    }
    ok, used := MarkTargets(b.targets.Keys, grid, used);
    if !ok {
      return;
    }
    assert used == (set p | p in b.blanks) + (set p | p in b.blockers) + b.targets.Keys;
    ok, used := MarkTiles(b.tiles.Keys, b.targets.Keys, grid, used);
    if !ok {
      return;
    }
    ok := grid - used == {};
    assert ok <==> forall p :: p in grid ==> p in used;
  }

  /** On a consistently laid out board, `__str__` draws no `.`: every grid cell shows its content. */
  lemma ValidBoardFillsPicture(b: Board, x: int, y: int)
    requires FieldsValid(b) && 0 <= x < b.size && 0 <= y < b.size
    ensures CellText(b, (x, y)) != "."
  {
    assert (x, y) in Grid(b.size);
  }

  // ----- _find_optimal_solution, _update_optimal_moves, validate_level -----

  /**
   * `_find_optimal_solution`: run `BFS` on a deep copy of the initial state
   * and return the length of its path. The level itself is not changed (the
   * method modifies nothing), and the result is the optimum.
   */
  method FindOptimalSolution(level: Level, startClock: real, stopClock: real, memory: nat -> nat)
    returns (moves: Option<int>)
    ensures Optimal(level.initialState.board, moves)
  {
    var copy := DeepCopy(level.initialState);
    var bfs := new Bfs(copy);
    var path, length := bfs.Solve(startClock, stopClock, memory);
    moves := if length.Some? then Some(length.value) else None;
    var s := level.initialState.board;
    SearchCorrect(s);
    if moves.Some? {
      var q := Search(s).path.value;
      assert |q| == moves.value && Solves(s, q);
    }
  }

  /** `_update_optimal_moves`: the level records `optimalMoves`, whatever it held before. */
  method UpdateOptimalMoves(level: Level, optimalMoves: int)
    modifies level
    ensures level.optimalMoves == Some(optimalMoves)
  {
    if level.optimalMoves.Some? && level.optimalMoves.value == optimalMoves {
      return;
    }
    level.optimalMoves := Some(optimalMoves);
  }

  /**
   * `validate_level`: matching colours, a consistent layout and a solution;
   * on success the optimal move count is recorded, on failure the level is
   * left as it was.
   */
  method ValidateLevel(level: Level, startClock: real, stopClock: real, memory: nat -> nat)
    returns (valid: bool)
    modifies level
    ensures var b := level.initialState.board;
            valid <==> Colours(b.tiles) == Colours(b.targets) && FieldsValid(b) && exists q :: Solves(b, q)
    ensures valid ==> level.optimalMoves.Some? && Optimal(level.initialState.board, level.optimalMoves)
    ensures !valid ==> level.optimalMoves == old(level.optimalMoves)
  {
    valid := HasMatchingColors(level);
    if !valid {
      return;
    }
    valid := ValidateBoardFields(level);
    if !valid {
      return;
    }
    var moves := FindOptimalSolution(level, startClock, stopClock, memory);
    if moves.None? {
      return false;
    }
    UpdateOptimalMoves(level, moves.value);
  }
}
