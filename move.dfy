/**
 * The four slide moves (move.py). A slide processes the tiles nearest the
 * destination edge first; each tile steps one cell at a time while the next
 * cell is a blank or a target, is not a blocker and holds no tile; the blank
 * list follows the tiles. The ghost functions below define the outcome
 * (`Slide`); the methods are the loops of `apply` proved to compute it.
 */
module Moves {
  import opened Wrappers
  import opened GameStates

  /** The four move classes. */
  datatype Dir = Left | Right | Up | Down

  /** `POSSIBLE_MOVES`, and the order in which every search expands a state. */
  const PossibleMoves: seq<Dir> := [Left, Right, Up, Down]

  /** The class name a move records in the history and in search paths. */
  function MoveName(d: Dir): string
  {
    match d
    case Left => "SlideLeft"
    case Right => "SlideRight"
    case Up => "SlideUp"
    case Down => "SlideDown"
  }

  /** The cell next to `p` in direction `d`. */
  function Next(d: Dir, p: Pos): Pos
  {
    match d
    case Left => (p.0 - 1, p.1)
    case Right => (p.0 + 1, p.1)
    case Up => (p.0, p.1 - 1)
    case Down => (p.0, p.1 + 1)
  }

  /** The row (horizontal moves) or column (vertical moves) a tile slides along. */
  function Line(d: Dir, p: Pos): int
  {
    if d == Left || d == Right then p.1 else p.0
  }

  /** How far `p` lies towards the destination edge of `d`. */
  function Progress(d: Dir, p: Pos): int
  {
    match d
    case Left => -p.0
    case Right => p.0
    case Up => -p.1
    case Down => p.1
  }

  /** A step keeps the line and gains one unit of progress; line and progress fix a cell. */
  lemma NextAdvances(d: Dir, p: Pos)
    ensures Line(d, Next(d, p)) == Line(d, p)
    ensures Progress(d, Next(d, p)) == Progress(d, p) + 1
    ensures forall q :: Line(d, q) == Line(d, p) && Progress(d, q) == Progress(d, p) ==> q == p
  {
  }

  /**
   * The order of the sort key of each move: ascending (x, y) for SlideLeft,
   * descending (x, y) for SlideRight, ascending (y, x) for SlideUp and
   * descending (y, x) for SlideDown.
   */
  predicate Before(d: Dir, a: Pos, b: Pos)
  {
    match d
    case Left => a.0 < b.0 || (a.0 == b.0 && a.1 < b.1)
    case Right => a.0 > b.0 || (a.0 == b.0 && a.1 > b.1)
    case Up => a.1 < b.1 || (a.1 == b.1 && a.0 < b.0)
    case Down => a.1 > b.1 || (a.1 == b.1 && a.0 > b.0)
  }

  /** Each sort key is a strict total order that puts, on one line, the tile nearest the edge first. */
  lemma BeforeOrder(d: Dir, a: Pos, b: Pos, c: Pos)
    ensures !Before(d, a, a)
    ensures a != b ==> Before(d, a, b) || Before(d, b, a)
    ensures Before(d, a, b) && Before(d, b, c) ==> Before(d, a, c)
    ensures Before(d, a, b) && Line(d, a) == Line(d, b) ==> Progress(d, a) > Progress(d, b)
  {
  }

  /** `p` comes first in `s` under the sort key of `d`. */
  ghost predicate IsFirst(d: Dir, p: Pos, s: set<Pos>)
  {
    p in s && forall q :: q in s && q != p ==> Before(d, p, q)
  }

  lemma {:induction false} FirstExists(d: Dir, s: set<Pos>)
    requires s != {}
    ensures exists p :: IsFirst(d, p, s)
    decreases |s|
  {
    var x :| x in s;
    if s != {x} {
      FirstExists(d, s - {x});
      var y :| IsFirst(d, y, s - {x});
      if Before(d, x, y) {
        forall q | q in s && q != x ensures Before(d, x, q) {
          BeforeOrder(d, x, y, q);
        }
        assert IsFirst(d, x, s);
      } else {
        BeforeOrder(d, x, y, y);
        assert IsFirst(d, y, s);
      }
    } else {
      assert IsFirst(d, x, s);
    }
  }

  /** The first position of a non-empty set under the sort key of `d`. */
  ghost function First(d: Dir, s: set<Pos>): (p: Pos)
    requires s != {}
    ensures IsFirst(d, p, s)
  {
    FirstExists(d, s);
    var p :| IsFirst(d, p, s); p
  }

  /** There is only one first position. */
  lemma FirstUnique(d: Dir, p: Pos, s: set<Pos>)
    requires IsFirst(d, p, s)
    ensures p == First(d, s)
  {
    var f := First(d, s);
    if p != f {
      BeforeOrder(d, p, f, p);
    }
  }

  /** Strictly increasing under the sort key of `d` (hence without repeats). */
  ghost predicate Sorted(d: Dir, r: seq<Pos>)
  {
    forall i, j :: 0 <= i < j < |r| ==> Before(d, r[i], r[j])
  }

  /** `sorted(tiles.items(), key=...)`, keeping only the positions. */
  ghost function SortedKeys(d: Dir, s: set<Pos>): seq<Pos>
    decreases |s|
  {
    if s == {} then []
    else
      var p := First(d, s);
      [p] + SortedKeys(d, s - {p})
  }

  /** The sorted positions are exactly the given ones, each once, in key order. */
  lemma {:induction false} SortedKeysSpec(d: Dir, s: set<Pos>)
    ensures |SortedKeys(d, s)| == |s|
    ensures forall x :: x in SortedKeys(d, s) <==> x in s
    ensures Sorted(d, SortedKeys(d, s))
    decreases |s|
  {
    if s != {} {
      var p := First(d, s);
      var rest := SortedKeys(d, s - {p});
      SortedKeysSpec(d, s - {p});
      assert SortedKeys(d, s) == [p] + rest;
      forall i, j | 0 <= i < j < |[p] + rest| ensures Before(d, ([p] + rest)[i], ([p] + rest)[j]) {
        if i == 0 {
          assert rest[j - 1] in s - {p};
        }
      }
    }
  }

  /** The first position of a non-empty set heads its sorted sequence. */
  lemma SortedKeysUnfold(d: Dir, s: set<Pos>, p: Pos)
    requires s != {} && p == First(d, s)
    ensures SortedKeys(d, s) == [p] + SortedKeys(d, s - {p})
  {
  }

  /** The cells a tile may step into: the blanks and the targets. */
  function Cells(blanks: seq<Pos>, targets: map<Pos, Color>): set<Pos>
  {
    (set x | x in blanks) + targets.Keys
  }

  /** The cells of `cells` on the line of `p` strictly nearer the destination edge. */
  function Ahead(d: Dir, p: Pos, cells: set<Pos>): set<Pos>
  {
    set c | c in cells && Line(d, c) == Line(d, p) && Progress(d, c) > Progress(d, p)
  }

  /** Stepping onto one of the cells leaves fewer of them ahead. */
  lemma AheadShrinks(d: Dir, p: Pos, cells: set<Pos>)
    requires Next(d, p) in cells
    ensures |Ahead(d, Next(d, p), cells)| < |Ahead(d, p, cells)|
  {
    var n := Next(d, p);
    NextAdvances(d, p);
    var a, a' := Ahead(d, p, cells), Ahead(d, n, cells);
    assert a' <= a - {n};
    assert n in a;
    assert |a - {n}| == |a| - 1;
    SubsetCard(a', a - {n});
  }

  /** A subset is no larger than its superset. */
  lemma {:induction false} SubsetCard<T>(a: set<T>, b: set<T>)
    requires a <= b
    ensures |a| <= |b|
    decreases |b|
  {
    if a != {} {
      var x :| x in a;
      SubsetCard(a - {x}, b - {x});
    }
  }

  /**
   * The test of the inner `while`/`if` of `apply`: the next cell is a blank
   * or a target, is not a blocker and holds no tile.
   */
  predicate CanAdvance(d: Dir, p: Pos, tiles: map<Pos, Color>, blanks: seq<Pos>,
                       targets: map<Pos, Color>, blockers: seq<Pos>)
  {
    var n := Next(d, p);
    (n in blanks || n in targets) && n !in blockers && n !in tiles
  }

  /** Where the tile at `p` stops: the inner loop of `apply`. */
  function Travel(d: Dir, p: Pos, tiles: map<Pos, Color>, blanks: seq<Pos>,
                  targets: map<Pos, Color>, blockers: seq<Pos>): (r: Pos)
    ensures Line(d, r) == Line(d, p) && Progress(d, r) >= Progress(d, p)
    ensures !CanAdvance(d, r, tiles, blanks, targets, blockers)
    ensures r != p ==> (r in blanks || r in targets) && r !in blockers && r !in tiles
    decreases |Ahead(d, p, Cells(blanks, targets))|
  {
    if CanAdvance(d, p, tiles, blanks, targets, blockers) then
      AheadShrinks(d, p, Cells(blanks, targets));
      NextAdvances(d, p);
      Travel(d, Next(d, p), tiles, blanks, targets, blockers)
    else p
  }

  /** The index of the first occurrence of `x` in `s`. */
  function IndexOf(s: seq<Pos>, x: Pos): (i: nat)
    requires x in s
    ensures i < |s| && s[i] == x && x !in s[..i]
  {
    if s[0] == x then 0 else IndexOf(s[1..], x) + 1
  }

  /** `list.remove`: drop the first occurrence of `x`. */
  function RemoveFirst(s: seq<Pos>, x: Pos): (r: seq<Pos>)
    requires x in s
    ensures |r| == |s| - 1
    ensures multiset(r) == multiset(s) - multiset{x}
    ensures var i := IndexOf(s, x); r == s[..i] + s[i + 1..]
  {
    var i := IndexOf(s, x);
    assert s == s[..i] + [x] + s[i + 1..];
    s[..i] + s[i + 1..]
  }

  /** The working copies of `apply`: `new_tiles`, `new_blanks` and `moved`. */
  datatype Work = Work(tiles: map<Pos, Color>, blanks: seq<Pos>, moved: bool)

  /**
   * One pass of the `for` loop of `apply`: the tile at `p` (colour `c` in the
   * sorted snapshot) travels; if it moved, it is re-keyed, its old cell joins
   * the blanks unless it is a target, and its new cell leaves the blanks
   * unless it is a target.
   */
  function StepTile(d: Dir, targets: map<Pos, Color>, blockers: seq<Pos>,
                    w: Work, p: Pos, c: Color): Work
  {
    var n := Travel(d, p, w.tiles, w.blanks, targets, blockers);
    if n == p then w
    else
      var appended := if p !in targets then w.blanks + [p] else w.blanks;
      var blanks := if n !in targets then RemoveFirst(appended, n) else appended;
      Work((w.tiles - {p})[n := c], blanks, true)
  }

  /** The `for` loop of `apply` over the sorted tile positions in `order`. */
  function SlideTiles(d: Dir, targets: map<Pos, Color>, blockers: seq<Pos>,
                      snapshot: map<Pos, Color>, order: seq<Pos>, w: Work): Work
    requires forall p :: p in order ==> p in snapshot
    decreases |order|
  {
    if order == [] then w
    else
      SlideTiles(d, targets, blockers, snapshot, order[1..],
                 StepTile(d, targets, blockers, w, order[0], snapshot[order[0]]))
  }

  /**
   * The outcome of a slide: the board with the new tiles and blanks, or
   * `None` when no tile moved.
   */
  ghost function Slide(d: Dir, b: Board): (r: Option<Board>)
    ensures r.Some? ==> r.value.targets == b.targets && r.value.blockers == b.blockers && r.value.size == b.size
  {
    SortedKeysSpec(d, b.tiles.Keys);
    var w := SlideTiles(d, b.targets, b.blockers, b.tiles, SortedKeys(d, b.tiles.Keys),
                        Work(b.tiles, b.blanks, false));
    if w.moved then Some(b.(tiles := w.tiles, blanks := w.blanks)) else None
  }

  /** The position of `s` that the sort key of `d` puts first. */
  method FirstOf(d: Dir, s: set<Pos>) returns (p: Pos)
    requires s != {}
    ensures p == First(d, s)
  {
    p :| p in s;
    var todo := s - {p};
    while todo != {}
      invariant p in s && todo <= s
      invariant forall q :: q in s - todo && q != p ==> Before(d, p, q)
      decreases |todo|
    {
      var q :| q in todo;
      if Before(d, q, p) {
        forall r | r in s - todo && r != q ensures Before(d, q, r) {
          BeforeOrder(d, q, p, r);
        }
        p := q;
      } else {
        BeforeOrder(d, p, q, q);
      }
      todo := todo - {q};
    }
    FirstUnique(d, p, s);
  }

  /** The `sorted(new_tiles.items(), key=..., reverse=...)` call of `apply`. */
  method SortTiles(d: Dir, tiles: map<Pos, Color>) returns (order: seq<Pos>)
    ensures order == SortedKeys(d, tiles.Keys)
  {
    var rest := tiles.Keys;
    order := [];
    while rest != {}
      invariant order + SortedKeys(d, rest) == SortedKeys(d, tiles.Keys)
      decreases |rest|
    {
      var p := FirstOf(d, rest);
      SortedKeysUnfold(d, rest, p);
      order := order + [p];
      rest := rest - {p};
    }
  }

  /**
   * The body of `SlideLeft/Right/Up/Down.apply` on the fresh state: works on
   * copies of the tiles and blanks and reports whether any tile moved.
   */
  method SlideApply(d: Dir, b: Board) returns (moved: bool, tiles: map<Pos, Color>, blanks: seq<Pos>)
    ensures moved == Slide(d, b).Some?
    ensures moved ==> Slide(d, b).value == b.(tiles := tiles, blanks := blanks)
  {
    tiles, blanks, moved := b.tiles, b.blanks, false;
    var order := SortTiles(d, b.tiles);
    SortedKeysSpec(d, b.tiles.Keys);
    for i := 0 to |order|
      invariant SlideTiles(d, b.targets, b.blockers, b.tiles, order[i..], Work(tiles, blanks, moved))
             == SlideTiles(d, b.targets, b.blockers, b.tiles, order, Work(b.tiles, b.blanks, false))
    {
      var p := order[i];
      var c := b.tiles[p];
      var q := p;
      while Next(d, q) in blanks || Next(d, q) in b.targets
        invariant Travel(d, q, tiles, blanks, b.targets, b.blockers)
               == Travel(d, p, tiles, blanks, b.targets, b.blockers)
        decreases |Ahead(d, q, Cells(blanks, b.targets))|
      {
        if Next(d, q) !in b.blockers && Next(d, q) !in tiles {
          AheadShrinks(d, q, Cells(blanks, b.targets));
          q := Next(d, q);
        } else {
          break;
        }
      }
      if q != p {
        tiles := (tiles - {p})[q := c];
        if p !in b.targets {
          blanks := blanks + [p];
        }
        if q !in b.targets {
          blanks := RemoveFirst(blanks, q);
        }
        moved := true;
      }
      assert order[i..][1..] == order[i + 1..];
    }
  }

  /**
   * `Move.move` wrapped around `apply`: on success a new state with the new
   * board and the SAME history list, to which the move's name is appended;
   * otherwise `None` and the history is left alone.
   */
  method Apply(d: Dir, state: GameState) returns (r: Option<GameState>)
    modifies state.history
    ensures r.Some? <==> Slide(d, state.board).Some?
    ensures r.Some? ==> r.value == GameState(Slide(d, state.board).value, state.history)
    ensures state.history.entries ==
            old(state.history.entries) + (if r.Some? then [MoveName(d)] else [])
  {
    var moved, tiles, blanks := SlideApply(d, state.board);
    if moved {
      state.history.Append(MoveName(d));
      r := Some(GameState(state.board.(tiles := tiles, blanks := blanks), state.history));
    } else {
      r := None;
    }
  }
}
