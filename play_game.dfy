/**
 * The hint of the text front end (play_game.py). Its search is the one of
 * the graphical front end, but it reads `path[0]` without checking that the
 * path has a move.
 */
module PlayGame {
  import opened Wrappers
  import opened GameStates
  import opened Moves
  import opened Reach
  import opened BfsSpec
  import opened BfsCorrect
  import opened SearchAlgorithm
  import opened GameGui

  /**
   * The text hint: `IndexError` for an empty path, the first move of a
   * found path, `None` when there is none.
   */
  ghost function CliHint(s: Board): (r: Result<Option<string>>)
    ensures IsSolved(s) ==> r == Err("IndexError")
    ensures r.Ok? && r.value.Some? ==> exists d :: r.value.value == MoveName(d)
  {
    match Search(s).path
    case None => Ok(None)
    case Some(p) => if p == [] then Err("IndexError") else Ok(Some(MoveName(p[0])))
  }

  /** `_first_move_bfs`: the metrics-free search on a deep copy; the caller's state is not changed. */
  method FirstMoveBfs(state: GameState) returns (r: Result<Option<string>>)
    ensures r == CliHint(state.board)
  {
    var h := new History(state.history.entries);
    var problem := GameState(state.board, h);
    var path := SearchLoop(problem, null, (k: nat) => 0);
    ghost var found := Search(state.board).path;
    if found.Some? && found.value != [] {
      NamesAt(found.value, 0);
    }
    if path.None? {
      return Ok(None);
    }
    if path.value == [] {
      return Err("IndexError");
    }
    r := Ok(Some(path.value[0]));
  }

  /** `get_hint`: the hint of `_first_move_bfs`. */
  method GetHint(state: GameState) returns (r: Result<Option<string>>)
    ensures r == CliHint(state.board)
  {
    r := FirstMoveBfs(state);
  }

  /** The text hint fails exactly on a board that is already solved. */
  lemma CliHintRaisesIffSolved(s: Board)
    ensures CliHint(s).Err? <==> IsSolved(s)
  {
    if IsSolved(s) {
      SolvedStartEmptyPath(s);
    } else {
      UnsolvedStartMoves(s);
    }
  }

  /**
   * Otherwise the text hint names the first move of a shortest solution, or
   * nothing when there is none.
   */
  lemma CliHintStartsShortest(s: Board)
    ensures CliHint(s) == Ok(None) <==> forall q :: !Solves(s, q)
    ensures CliHint(s).Ok? && CliHint(s).value.Some? ==>
              exists q :: |q| > 0 && MoveName(q[0]) == CliHint(s).value.value && Solves(s, q) &&
                          forall q' :: Solves(s, q') ==> |q| <= |q'|
  {
    SearchCorrect(s);
    var path := Search(s).path;
    if path.Some? {
      assert Solves(s, path.value);
      if path.value != [] {
        assert MoveName(path.value[0]) == CliHint(s).value.value;
      }
    }
  }

  /** On a board that is not yet solved both front ends give the same hint. */
  lemma HintsAgree(s: Board)
    requires !IsSolved(s)
    ensures CliHint(s) == Ok(GuiHint(s))
  {
    UnsolvedStartMoves(s);
  }

  /** A level with no tiles is solved from the start, and asking for a hint raises. */
  lemma EmptyLevelHintRaises()
    ensures CliHint(Board(map[], map[], [], [], 1)) == Err("IndexError")
  {
    SolvedStartEmptyPath(Board(map[], map[], [], [], 1));
  }
}
