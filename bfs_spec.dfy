/**
 * Breadth-first search over exact board keys, as a function: the queue of
 * boards with the moves that reached them, the set of keys already seen,
 * and the log of every successful move (each one is appended to the shared
 * move history).
 */
module BfsSpec {
  import opened Wrappers
  import opened GameStates
  import opened Moves
  import opened Reach

  /** A queued board and the moves that reached it. */
  datatype Entry = Entry(board: Board, path: seq<Dir>)

  /** The queue, the keys seen, and the successful moves so far. */
  datatype Frontier = Frontier(queue: seq<Entry>, visited: set<Key>, log: seq<Dir>)

  /** How a search ended: the path found, the number of states taken off the queue, the move log. */
  datatype Outcome = Outcome(path: Option<seq<Dir>>, expanded: nat, log: seq<Dir>)

  /** Every queued board is where its path leads from `s`, and every key seen is in the key space. */
  ghost predicate Tracked(s: Board, f: Frontier)
  {
    && (forall e :: e in f.queue ==> Run(s, e.path) == Some(e.board))
    && f.visited <= Space(s)
  }

  /** Tries move `d` on the board of `e`: a new board is queued unless its key was seen. */
  ghost function Offer(e: Entry, d: Dir, f: Frontier): (r: Frontier)
    ensures f.visited <= r.visited
    ensures r.visited == f.visited ==> r.queue == f.queue
  {
    match Slide(d, e.board)
    case None => f
    case Some(n) =>
      if HashKey(n) in f.visited then f.(log := f.log + [d])
      else Frontier(f.queue + [Entry(n, e.path + [d])], f.visited + {HashKey(n)}, f.log + [d])
  }

  /** Tries the moves of `moves` in order on the board of `e`. */
  ghost function Expand(e: Entry, moves: seq<Dir>, f: Frontier): (r: Frontier)
    ensures f.visited <= r.visited
    ensures r.visited == f.visited ==> r.queue == f.queue
    decreases |moves|
  {
    if moves == [] then f else Expand(e, moves[1..], Offer(e, moves[0], f))
  }

  /** Trying one move on a board reached from `s` keeps the frontier tracked. */
  lemma OfferTracked(s: Board, e: Entry, d: Dir, f: Frontier)
    requires Tracked(s, f) && Run(s, e.path) == Some(e.board)
    ensures Tracked(s, Offer(e, d, f))
  {
    if Slide(d, e.board).Some? {
      RunSnoc(s, e.path, d);
      RunInSpace(s, e.path + [d]);
    }
  }

  /** Expanding a board reached from `s` keeps the frontier tracked. */
  lemma {:induction false} ExpandTracked(s: Board, e: Entry, moves: seq<Dir>, f: Frontier)
    requires Tracked(s, f) && Run(s, e.path) == Some(e.board)
    ensures Tracked(s, Expand(e, moves, f))
    decreases |moves|
  {
    if moves != [] {
      OfferTracked(s, e, moves[0], f);
      ExpandTracked(s, e, moves[1..], Offer(e, moves[0], f));
    }
  }

  /** Growing a subset of `space` leaves fewer of its keys unseen. */
  lemma FewerUnseen(space: set<Key>, a: set<Key>, b: set<Key>)
    requires a <= b <= space
    ensures a != b ==> |space - b| < |space - a|
  {
    if a != b {
      var x :| x in b && x !in a;
      assert space - b <= (space - a) - {x};
      SubsetCard(space - b, (space - a) - {x});
    }
  }

  /**
   * The `while queue` loop of the search: take the first entry, stop if it
   * is solved, otherwise expand it with the four moves in order.
   */
  ghost function BfsLoop(s: Board, f: Frontier, expanded: nat): Outcome
    requires Tracked(s, f)
    decreases |Space(s) - f.visited|, |f.queue|
  {
    if f.queue == [] then Outcome(None, expanded, f.log)
    else
      var e := f.queue[0];
      if IsSolved(e.board) then Outcome(Some(e.path), expanded + 1, f.log)
      else
        var rest := f.(queue := f.queue[1..]);
        assert Tracked(s, rest);
        var f' := Expand(e, PossibleMoves, rest);
        ExpandTracked(s, e, PossibleMoves, rest);
        FewerUnseen(Space(s), f.visited, f'.visited);
        BfsLoop(s, f', expanded + 1)
  }

  /** The first frontier: the start board with no moves, its key seen, nothing logged. */
  ghost function Initial(s: Board): (f: Frontier)
    ensures Tracked(s, f)
  {
    RunInSpace(s, []);
    Frontier([Entry(s, [])], {HashKey(s)}, [])
  }

  /** The outcome of breadth-first search from `s`. */
  ghost function Search(s: Board): (o: Outcome)
    ensures IsSolved(s) ==> o == Outcome(Some([]), 1, [])
  {
    BfsLoop(s, Initial(s), 0)
  }
}
