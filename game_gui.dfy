/**
 * The two pieces of the graphical front end (game_gui.py) that compute
 * something: the hint search and the hit test for mouse clicks.
 */
module GameGui {
  import opened Wrappers
  import opened GameStates
  import opened Moves
  import opened Reach
  import opened BfsSpec
  import opened BfsCorrect
  import opened SearchAlgorithm

  /** The hint: the first move of the path breadth-first search finds, or `None` for no path or an empty one. */
  ghost function GuiHint(s: Board): (h: Option<string>)
    ensures IsSolved(s) ==> h.None?
    ensures h.Some? ==> exists d :: h.value == MoveName(d)
  {
    var path := Search(s).path;
    if path.Some? && path.value != [] then Some(MoveName(path.value[0])) else None
  }

  /**
   * `_first_move_bfs`: the search of `BFS.solve` without metrics, run on a
   * deep copy so that the caller's state and history stay as they were (the
   * method modifies nothing).
   */
  method FirstMoveBfs(state: GameState) returns (hint: Option<string>)
    ensures hint == GuiHint(state.board)
  {
    var h := new History(state.history.entries);
    var problem := GameState(state.board, h);
    var path := SearchLoop(problem, null, (k: nat) => 0);
    ghost var found := Search(state.board).path;
    if found.Some? && found.value != [] {
      NamesAt(found.value, 0);
    }
    hint := if path.Some? && path.value != [] then Some(path.value[0]) else None;
  }

  /**
   * What the hint means: a move that starts a shortest solution; no hint
   * exactly when the board is already solved or cannot be solved.
   */
  lemma GuiHintStartsShortest(s: Board)
    ensures GuiHint(s).Some? ==>
              exists q :: |q| > 0 && MoveName(q[0]) == GuiHint(s).value && Solves(s, q) &&
                          forall q' :: Solves(s, q') ==> |q| <= |q'|
    ensures GuiHint(s).None? <==> IsSolved(s) || forall q :: !Solves(s, q)
  {
    SearchCorrect(s);
    var path := Search(s).path;
    if IsSolved(s) {
      SolvedStartEmptyPath(s);
    } else {
      UnsolvedStartMoves(s);
      if path.Some? {
        var q := path.value;
        assert |q| > 0 && MoveName(q[0]) == GuiHint(s).value && Solves(s, q);
      }
    }
  }

  /** A hint names a move that succeeds on the board it was asked for. */
  lemma GuiHintMoves(s: Board)
    requires GuiHint(s).Some?
    ensures exists d :: MoveName(d) == GuiHint(s).value && Slide(d, s).Some?
  {
    SearchCorrect(s);
    var q := Search(s).path.value;
    RunFirstMove(s, q);
    assert MoveName(q[0]) == GuiHint(s).value;
  }

  /** A rectangle: left, top, width and height. */
  type Rect = (int, int, int, int)

  /** `is_point_in_rect`: the point lies in the closed rectangle, edges included. */
  predicate IsPointInRect(point: (int, int), rect: Rect): (inside: bool)
    ensures inside ==> rect.2 >= 0 && rect.3 >= 0
  {
    var (x, y) := point;
    var (rx, ry, rw, rh) := rect;
    rx <= x <= rx + rw && ry <= y <= ry + rh
  }

  /**
   * Hits within a rectangle: its four corners are inside exactly when its
   * size is not negative, and a point inside lies within the size of the corner.
   */
  lemma RectCorners(rect: Rect, point: (int, int))
    ensures var (rx, ry, rw, rh) := rect;
            IsPointInRect((rx, ry), rect) == IsPointInRect((rx + rw, ry + rh), rect) == (rw >= 0 && rh >= 0)
    ensures IsPointInRect(point, rect) ==>
              0 <= point.0 - rect.0 <= rect.2 && 0 <= point.1 - rect.1 <= rect.3
  {
  }

  /** Moving the point and the rectangle together does not change the answer. */
  lemma RectShift(point: (int, int), rect: Rect, dx: int, dy: int)
    ensures IsPointInRect((point.0 + dx, point.1 + dy), (rect.0 + dx, rect.1 + dy, rect.2, rect.3)) ==
            IsPointInRect(point, rect)
  {
  }
}
