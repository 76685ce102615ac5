/**
 * Boards reachable from a start board by a sequence of slides, what they
 * share with the start, and a finite set of keys that holds all of them
 * (which is why breadth-first search over exact keys ends).
 */
module Reach {
  import opened Wrappers
  import opened GameStates
  import opened Moves
  import opened MoveProperties

  /** The board after the moves of `path` from `b`, or `None` when one of them fails. */
  ghost function Run(b: Board, path: seq<Dir>): Option<Board>
    decreases |path|
  {
    if path == [] then Some(b)
    else
      match Run(b, path[..|path| - 1])
      case None => None
      case Some(c) => Slide(path[|path| - 1], c)
  }

  /** Extending a path by one move applies that move to where the path ends. */
  lemma RunSnoc(b: Board, path: seq<Dir>, d: Dir)
    ensures Run(b, path + [d]) ==
            (if Run(b, path).Some? then Slide(d, Run(b, path).value) else None)
  {
    assert (path + [d])[..|path|] == path;
  }

  /** When a sequence of moves succeeds, so does its first move on its own. */
  lemma {:induction false} RunFirstMove(b: Board, path: seq<Dir>)
    requires |path| > 0 && Run(b, path).Some?
    ensures Slide(path[0], b).Some?
    decreases |path|
  {
    if |path| > 1 {
      var init := path[..|path| - 1];
      RunFirstMove(b, init);
    } else {
      assert path[..0] == [];
    }
  }

  /** `path` solves the puzzle from `b`. */
  ghost predicate Solves(b: Board, path: seq<Dir>)
  {
    Run(b, path).Some? && IsSolved(Run(b, path).value)
  }

  /** The cells that hold a tile, a blank or a target. */
  ghost function Arena(b: Board): set<Pos>
  {
    b.tiles.Keys + (set p | p in b.blanks) + b.targets.Keys
  }

  /** The colours of the tiles. */
  ghost function Palette(b: Board): set<Color>
  {
    set p | p in b.tiles :: b.tiles[p]
  }

  /** The budget of the board: blanks plus tiles standing off a target. */
  function BoardBudget(b: Board): nat
  {
    Budget(b.tiles, b.blanks, b.targets)
  }

  /**
   * What every board reachable from `s` shares with it: targets, blockers
   * and size; tiles and blanks inside the start's cells; no new colour; no
   * new blank on a target; the same budget.
   */
  ghost predicate Descends(s: Board, b: Board)
  {
    && b.targets == s.targets && b.blockers == s.blockers && b.size == s.size
    && Within(b.tiles, b.blanks, b.targets, Arena(s), Palette(s), set p | p in s.blanks)
    && BoardBudget(b) == BoardBudget(s)
  }

  /** A board descends from itself. */
  lemma DescendsRefl(s: Board)
    ensures Descends(s, s)
  {
    forall p | p in s.tiles ensures s.tiles[p] in Palette(s) {
    }
  }

  /** A successful slide keeps what a board shares with its start. */
  lemma SlideDescends(s: Board, b: Board, d: Dir)
    requires Descends(s, b) && Slide(d, b).Some?
    ensures Descends(s, Slide(d, b).value)
  {
    SlideStaysWithin(d, b, Arena(s), Palette(s), set p | p in s.blanks);
    SlideKeepsBudget(d, b);
  }

  /** Every board reached from `s` descends from it. */
  lemma {:induction false} RunDescends(s: Board, path: seq<Dir>)
    requires Run(s, path).Some?
    ensures Descends(s, Run(s, path).value)
    decreases |path|
  {
    if path == [] {
      DescendsRefl(s);
    } else {
      var prefix := path[..|path| - 1];
      RunDescends(s, prefix);
      SlideDescends(s, Run(s, prefix).value, path[|path| - 1]);
    }
  }

  /** A descendant is the start board with its own key: the key tells it apart. */
  lemma DescendsByKey(s: Board, b: Board)
    requires Descends(s, b)
    ensures b == WithKey(s, HashKey(b))
  {
  }

  /** Some cell of a non-empty set. */
  ghost function Pick(cells: set<Pos>): (p: Pos)
    requires cells != {}
    ensures p in cells
  {
    var p :| p in cells; p
  }

  /** All maps from some of `cells` to `colours`. */
  ghost function MapsOver(cells: set<Pos>, colours: set<Color>): set<map<Pos, Color>>
    decreases cells
  {
    if cells == {} then {map[]}
    else
      var p := Pick(cells);
      var rest := MapsOver(cells - {p}, colours);
      rest + set m, c | m in rest && c in colours :: m[p := c]
  }

  /** Every map from some of `cells` to `colours` is among `MapsOver(cells, colours)`. */
  lemma {:induction false} InMapsOver(cells: set<Pos>, colours: set<Color>, m: map<Pos, Color>)
    requires forall x :: x in m ==> x in cells && m[x] in colours
    ensures m in MapsOver(cells, colours)
    decreases cells
  {
    if cells == {} {
      assert m.Keys == {};
      assert m == map[];
    } else {
      var p := Pick(cells);
      var m' := m - {p};
      InMapsOver(cells - {p}, colours, m');
      if p in m {
        assert m == m'[p := m[p]];
      } else {
        assert m == m';
      }
    }
  }

  /** All sequences of at most `n` cells drawn from `cells`. */
  ghost function SeqsOver(cells: set<Pos>, n: nat): set<seq<Pos>>
  {
    if n == 0 then {[]}
    else
      var shorter := SeqsOver(cells, n - 1);
      shorter + set q, p | q in shorter && p in cells :: [p] + q
  }

  /** Every sequence of at most `n` cells drawn from `cells` is among `SeqsOver(cells, n)`. */
  lemma {:induction false} InSeqsOver(cells: set<Pos>, n: nat, q: seq<Pos>)
    requires |q| <= n && forall x :: x in q ==> x in cells
    ensures q in SeqsOver(cells, n)
  {
    if n > 0 {
      if |q| < n {
        InSeqsOver(cells, n - 1, q);
      } else {
        InSeqsOver(cells, n - 1, q[1..]);
        assert q == [q[0]] + q[1..];
      }
    }
  }

  /** A finite set of keys holding the key of every board reachable from `s`. */
  ghost function Space(s: Board): set<Key>
  {
    set m, q | m in MapsOver(Arena(s), Palette(s)) && q in SeqsOver(Arena(s), BoardBudget(s)) :: Key(m, q)
  }

  /** The key of a descendant lies in the start's key space. */
  lemma DescendsInSpace(s: Board, b: Board)
    requires Descends(s, b)
    ensures HashKey(b) in Space(s)
  {
    InMapsOver(Arena(s), Palette(s), b.tiles);
    InSeqsOver(Arena(s), BoardBudget(s), b.blanks);
  }

  /** The key of every board reached from `s` lies in its key space. */
  lemma RunInSpace(s: Board, path: seq<Dir>)
    requires Run(s, path).Some?
    ensures HashKey(Run(s, path).value) in Space(s)
    ensures Run(s, path).value == WithKey(s, HashKey(Run(s, path).value))
  {
    RunDescends(s, path);
    DescendsInSpace(s, Run(s, path).value);
  }
}
