/**
 * The board state of the sliding-tile puzzle (game_state.py): the win test,
 * the identity used by the searches, and the colour count of a position map.
 */
module GameStates {
  import opened Wrappers

  /** A board position (column, row), both counted from 0. */
  type Pos = (int, int)

  /** A colour name such as "orange". */
  type Color = string

  /**
   * Everything a game state holds apart from its move history. `blanks` and
   * `blockers` are Python lists: their order is part of equality and, for
   * `blanks`, of the hash key.
   */
  datatype Board = Board(
    tiles: map<Pos, Color>,
    targets: map<Pos, Color>,
    blanks: seq<Pos>,
    blockers: seq<Pos>,
    size: int)

  /**
   * The `move_history` list. It is an object because a successful move hands
   * the very same list to the state it returns and appends to it.
   */
  class History {
    var entries: seq<string>

    constructor (entries: seq<string>)
      ensures this.entries == entries
    {
      this.entries := entries;
    }

    method Append(name: string)
      modifies this
      ensures entries == old(entries) + [name]
    {
      entries := entries + [name];
    }
  }

  /** A game state: the board values and a reference to its history list. */
  datatype GameState = GameState(board: Board, history: History)

  /** `GameState.__init__`: stores the five fields and starts an empty history. */
  method NewGameState(tiles: map<Pos, Color>, targets: map<Pos, Color>,
                      blanks: seq<Pos>, blockers: seq<Pos>, size: int)
    returns (s: GameState)
    ensures s.board == Board(tiles, targets, blanks, blockers, size)
    ensures fresh(s.history) && s.history.entries == []
  {
    var h := new History([]);
    s := GameState(Board(tiles, targets, blanks, blockers, size), h);
  }

  /** `is_solved`: every tile stands on a target of its own colour. */
  predicate IsSolved(b: Board): (solved: bool)
    ensures solved ==> b.tiles.Keys <= b.targets.Keys
  {
    forall p :: p in b.tiles ==> p in b.targets && b.targets[p] == b.tiles[p]
  }

  /** A board without tiles is solved. */
  lemma NoTilesSolved(b: Board)
    requires b.tiles == map[]
    ensures IsSolved(b)
  {
  }

  /** One tile off target, or on a target of another colour, is enough to lose. */
  lemma MisplacedTileUnsolved(b: Board, p: Pos)
    requires p in b.tiles
    requires p !in b.targets || b.targets[p] != b.tiles[p]
    ensures !IsSolved(b)
  {
  }

  /** The right operand of `__eq__`: a game state or any other Python value. */
  datatype Operand = StateOperand(state: GameState) | OtherOperand

  /**
   * `__eq__`: tiles, targets, blanks (in list order) and blockers (in list
   * order) agree; size and history play no part; a non-state is never equal.
   */
  predicate Equals(self: GameState, other: Operand): (eq: bool)
    ensures eq <==> other.StateOperand? && HashKey(self.board) == HashKey(other.state.board) &&
                    self.board.targets == other.state.board.targets && self.board.blockers == other.state.board.blockers
  {
    match other
    case StateOperand(o) =>
      self.board.tiles == o.board.tiles && self.board.targets == o.board.targets &&
      self.board.blanks == o.board.blanks && self.board.blockers == o.board.blockers
    case OtherOperand => false
  }

  /**
   * The value `__hash__` hashes: the set of tile items and the tuple of blanks.
   * Searches deduplicate on this key exactly (integer hash collisions are not
   * modelled).
   */
  datatype Key = Key(tiles: map<Pos, Color>, blanks: seq<Pos>)

  function HashKey(b: Board): (k: Key)
    ensures k.tiles == b.tiles && k.blanks == b.blanks
  {
    Key(b.tiles, b.blanks)
  }

  /** Two boards share a key exactly when their tiles and their blanks, in order, agree; targets, blockers and size play no part. */
  lemma SameKey(a: Board, b: Board)
    ensures HashKey(a) == HashKey(b) <==> a.tiles == b.tiles && a.blanks == b.blanks
  {
  }

  /** The board with the fields of `b` and the tiles and blanks of `k`. */
  function WithKey(b: Board, k: Key): (r: Board)
    ensures HashKey(r) == k
  {
    b.(tiles := k.tiles, blanks := k.blanks)
  }

  /** `__eq__` and `__hash__` agree: equal states hash alike. */
  lemma EqualStatesHashAlike(a: GameState, b: GameState)
    requires Equals(a, StateOperand(b))
    ensures HashKey(a.board) == HashKey(b.board)
  {
  }

  /** `__eq__` ignores the size and the history. */
  lemma EqualsIgnoresSizeAndHistory(a: GameState, b: GameState, size: int, h: History)
    ensures Equals(a, StateOperand(b)) ==
            Equals(a, StateOperand(GameState(b.board.(size := size), h)))
  {
  }

  /** `__eq__` is an equivalence on game states. */
  lemma EqualsIsEquivalence(a: GameState, b: GameState, c: GameState)
    ensures Equals(a, StateOperand(a))
    ensures Equals(a, StateOperand(b)) ==> Equals(b, StateOperand(a))
    ensures Equals(a, StateOperand(b)) && Equals(b, StateOperand(c)) ==> Equals(a, StateOperand(c))
  {
  }

  /** Some position of a non-empty map (Python dictionary iteration order is not modelled). */
  ghost function AnyKey(m: map<Pos, Color>): (p: Pos)
    requires m != map[]
    ensures p in m
  {
    var p :| p in m; p
  }

  /** Taking one key out of a map leaves one entry fewer. */
  lemma RemoveKey(m: map<Pos, Color>, p: Pos)
    requires p in m
    ensures (m - {p}).Keys == m.Keys - {p} && |m - {p}| == |m| - 1
  {
    assert (m - {p}).Keys == m.Keys - {p};
  }

  /**
   * The multiset of colours of a position map: the count dictionaries that
   * the level validator builds, and what a slide preserves.
   */
  ghost function Colours(m: map<Pos, Color>): (bag: multiset<Color>)
    decreases |m|
  {
    if m == map[] then multiset{}
    else
      var p := AnyKey(m);
      RemoveKey(m, p);
      multiset{m[p]} + Colours(m - {p})
  }

  /** Removing any one position takes exactly its colour out of the bag. */
  lemma {:induction false} ColoursRemove(m: map<Pos, Color>, p: Pos)
    requires p in m
    ensures Colours(m) == multiset{m[p]} + Colours(m - {p})
    decreases |m|
  {
    var q := AnyKey(m);
    assert Colours(m) == multiset{m[q]} + Colours(m - {q});
    if q != p {
      var mq, mp := m - {q}, m - {p};
      RemoveKey(m, q);
      RemoveKey(m, p);
      assert mq - {p} == mp - {q};
      var rest := Colours(mq - {p});
      assert Colours(mq) == multiset{m[p]} + rest by { ColoursRemove(mq, p); }
      assert Colours(mp) == multiset{m[q]} + rest by { ColoursRemove(mp, q); }
      calc {
        Colours(m);
        multiset{m[q]} + Colours(mq);
        multiset{m[q]} + multiset{m[p]} + rest;
        multiset{m[p]} + (multiset{m[q]} + rest);
        multiset{m[p]} + Colours(mp);
      }
    }
  }

  /** The bag has one colour per position. */
  lemma {:induction false} ColoursSize(m: map<Pos, Color>)
    ensures |Colours(m)| == |m|
    decreases |m|
  {
    if m != map[] {
      var p := AnyKey(m);
      RemoveKey(m, p);
      ColoursSize(m - {p});
    }
  }

  /** A colour occurs in the bag exactly when some position carries it. */
  lemma {:induction false} ColoursHas(m: map<Pos, Color>, c: Color)
    ensures c in Colours(m) <==> c in m.Values
    decreases |m|
  {
    if m != map[] {
      var p := AnyKey(m);
      RemoveKey(m, p);
      ColoursHas(m - {p}, c);
      assert m.Values == (m - {p}).Values + {m[p]} by {
        forall v | v in m.Values ensures v in (m - {p}).Values + {m[p]} {
          var q :| q in m && m[q] == v;
          if q != p { assert q in (m - {p}); }
        }
      }
    }
  }

  /** Moving one entry to a fresh position under the same colour keeps the bag. */
  lemma ColoursRekey(m: map<Pos, Color>, p: Pos, n: Pos)
    requires p in m && n !in m
    ensures Colours((m - {p})[n := m[p]]) == Colours(m)
  {
    var m' := (m - {p})[n := m[p]];
    assert n in m' && m'[n] == m[p];
    assert m' - {n} == m - {p};
    var rest := Colours(m - {p});
    assert Colours(m) == multiset{m[p]} + rest by { ColoursRemove(m, p); }
    assert Colours(m') == multiset{m[p]} + rest by { ColoursRemove(m', n); }
  }

  /** ASCII `str.upper` on one character. */
  function Upper(c: char): (u: char)
    ensures 'a' <= c <= 'z' ==> 'A' <= u <= 'Z' && u as int == c as int - 32
    ensures !('a' <= c <= 'z') ==> u == c
  {
    if 'a' <= c <= 'z' then (c as int - 32) as char else c
  }

  /** ASCII `str.lower` on one character. */
  function Lower(c: char): (l: char)
    ensures 'A' <= c <= 'Z' ==> 'a' <= l <= 'z' && l as int == c as int + 32
    ensures !('A' <= c <= 'Z') ==> l == c
  {
    if 'A' <= c <= 'Z' then (c as int + 32) as char else c
  }

  /** Changing the case of a letter and back gives the letter again. */
  lemma CaseRoundTrip(c: char)
    ensures 'a' <= c <= 'z' ==> Lower(Upper(c)) == c
    ensures 'A' <= c <= 'Z' ==> Upper(Lower(c)) == c
  {
  }

  /** `color[0]`; only read for colours known to be non-empty. */
  function FirstLetter(c: Color): char
  {
    if c == "" then ' ' else c[0]
  }

  /** Every tile and target colour has a first letter (otherwise `color[0]` raises `IndexError`). */
  predicate Printable(b: Board)
  {
    && (forall p :: p in b.tiles ==> b.tiles[p] != "")
    && (forall p :: p in b.targets ==> b.targets[p] != "")
  }

  /**
   * What a cell shows, by priority: a tile on a target shows the target's
   * capital and the tile's small letter; then a blocker `##`; a blank `__`;
   * a bare target its capital; a tile its letter; anything else `.`.
   */
  function CellText(b: Board, p: Pos): (t: string)
    ensures t == "." || |t| == 2
    ensures t == "." <==> p !in b.tiles && p !in b.targets && p !in b.blanks && p !in b.blockers
  {
    if p in b.tiles && p in b.targets then [Upper(FirstLetter(b.targets[p])), Lower(FirstLetter(b.tiles[p]))]
    else if p in b.blockers then "##"
    else if p in b.blanks then "__"
    else if p in b.targets then [Upper(FirstLetter(b.targets[p])), ' ']
    else if p in b.tiles then [FirstLetter(b.tiles[p]), ' ']
    else "."
  }

  /**
   * The entry of the `board` dictionary of `__str__` at `p` once its first
   * `k` filling loops have run: tiles, targets, blanks, blockers, then tiles
   * standing on targets; each loop overwrites the earlier ones.
   */
  function Stage(b: Board, k: nat, p: Pos): Option<string>
    decreases k
  {
    if k == 0 then None
    else if k == 1 then (if p in b.tiles then Some([FirstLetter(b.tiles[p]), ' ']) else None)
    else if k == 2 then (if p in b.targets then Some([Upper(FirstLetter(b.targets[p])), ' ']) else Stage(b, 1, p))
    else if k == 3 then (if p in b.blanks then Some("__") else Stage(b, 2, p))
    else if k == 4 then (if p in b.blockers then Some("##") else Stage(b, 3, p))
    else if p in b.tiles && p in b.targets then
      Some([Upper(FirstLetter(b.targets[p])), Lower(FirstLetter(b.tiles[p]))])
    else Stage(b, 4, p)
  }

  /** Filling the dictionary loop by loop shows each cell as the priority order says. */
  lemma StageIsCell(b: Board, p: Pos)
    ensures Stage(b, 5, p).Some? <==> p in b.tiles || p in b.targets || p in b.blanks || p in b.blockers
    ensures Stage(b, 5, p).Some? ==> Stage(b, 5, p).value == CellText(b, p)
    ensures Stage(b, 5, p).None? ==> CellText(b, p) == "."
  {
  }

  /** The dictionary entry at `p`, if any. */
  function Lookup(board: map<Pos, string>, p: Pos): Option<string>
  {
    if p in board then Some(board[p]) else None
  }

  /** Row `y` up to column `n`: each cell's text followed by a space. */
  function RowText(b: Board, y: int, n: nat): string
  {
    if n == 0 then "" else RowText(b, y, n - 1) + CellText(b, (n - 1, y)) + " "
  }

  /** The first `n` lines given by `line`, each ended by a newline. */
  function Lines(line: nat -> string, n: nat): string
  {
    if n == 0 then "" else Lines(line, n - 1) + line(n - 1) + "\n"
  }

  /** The rows of the board, each as wide as the board. */
  function Rows(b: Board): nat -> string
  {
    y => RowText(b, y, if b.size > 0 then b.size else 0)
  }

  /** The first `n` rows, each ended by a newline. */
  function BoardText(b: Board, n: nat): string
  {
    Lines(Rows(b), n)
  }

  /** `__str__`: the board drawn row by row, or `IndexError` for an empty colour name. */
  function Render(b: Board): (r: Result<string>)
    ensures r.Ok? <==> Printable(b)
  {
    if Printable(b) then Ok(BoardText(b, if b.size > 0 then b.size else 0)) else Err("IndexError")
  }

  /** The number of newlines in `s`. */
  function Newlines(s: string): nat
  {
    multiset(s)['\n']
  }

  /** No colour starts with a newline. */
  predicate NoNewlineLetters(b: Board)
  {
    && (forall p :: p in b.tiles ==> FirstLetter(b.tiles[p]) != '\n')
    && (forall p :: p in b.targets ==> FirstLetter(b.targets[p]) != '\n')
  }

  /** Ending a line that holds no newline character adds one newline. */
  lemma NewlinesLine(text: string, row: string)
    requires '\n' !in row
    ensures Newlines(text + row + "\n") == Newlines(text) + 1
  {
    assert multiset(text + row + "\n") == multiset(text) + multiset(row) + multiset{'\n'};
    assert '\n' !in multiset(row);
  }

  /** `n` lines none of which holds a newline character make a text of `n` newlines. */
  lemma {:induction false} LinesCount(line: nat -> string, n: nat)
    requires forall y: nat :: y < n ==> '\n' !in line(y)
    ensures Newlines(Lines(line, n)) == n
  {
    if n > 0 {
      var above := Lines(line, n - 1);
      assert Lines(line, n) == above + line(n - 1) + "\n";
      LinesCount(line, n - 1);
      NewlinesLine(above, line(n - 1));
    } else {
      assert multiset(Lines(line, n)) == multiset{};
    }
  }

  /** A row holds no newline character when no colour starts with one. */
  lemma {:induction false} RowHasNoNewline(b: Board, y: int, n: nat)
    requires NoNewlineLetters(b)
    ensures '\n' !in RowText(b, y, n)
  {
    if n > 0 {
      RowHasNoNewline(b, y, n - 1);
      var c := CellText(b, (n - 1, y));
      assert '\n' !in c;
    }
  }

  /** `__str__` draws one line per row of the board. */
  lemma RenderLines(b: Board, n: nat)
    requires NoNewlineLetters(b)
    ensures Newlines(BoardText(b, n)) == n
  {
    forall y: nat | y < n
      ensures '\n' !in Rows(b)(y)
    {
      RowHasNoNewline(b, y, if b.size > 0 then b.size else 0);
    }
    LinesCount(Rows(b), n);
  }

  /** The text `board.get(p, ".")` yields once every filling loop has run. */
  lemma GetIsCell(board: map<Pos, string>, b: Board, p: Pos)
    requires Lookup(board, p) == Stage(b, 5, p)
    ensures (if p in board then board[p] else ".") == CellText(b, p)
  {
    StageIsCell(b, p);
  }

  /** The first two loops of `__str__`: tile letters, then target capitals over them. */
  method FillColours(b: Board) returns (r: Option<map<Pos, string>>)
    ensures r.None? <==> !Printable(b)
    ensures r.Some? ==> forall p :: Lookup(r.value, p) == Stage(b, 2, p)
  {
    var board: map<Pos, string> := map[];
    var rest := b.tiles.Keys;
    while rest != {}
      invariant rest <= b.tiles.Keys
      invariant forall p :: p in b.tiles && p !in rest ==> b.tiles[p] != ""
      invariant forall p :: Lookup(board, p) == if p in b.tiles && p !in rest then Stage(b, 1, p) else None
      decreases rest
    {
      var p :| p in rest;
      if b.tiles[p] == "" {
        return None;
      }
      board := board[p := [b.tiles[p][0], ' ']];
      rest := rest - {p};
    }
    rest := b.targets.Keys;
    while rest != {}
      invariant rest <= b.targets.Keys
      invariant forall p :: p in b.targets && p !in rest ==> b.targets[p] != ""
      invariant forall p :: Lookup(board, p) == if p in b.targets && p !in rest then Stage(b, 2, p) else Stage(b, 1, p)
      decreases rest
    {
      var p :| p in rest;
      if b.targets[p] == "" {
        return None;
      }
      board := board[p := [Upper(b.targets[p][0]), ' ']];
      rest := rest - {p};
    }
    return Some(board);
  }

  /** The next two loops of `__str__`: blanks, then blockers over them. */
  method FillMarks(b: Board, board: map<Pos, string>) returns (r: map<Pos, string>)
    requires forall p :: Lookup(board, p) == Stage(b, 2, p)
    ensures forall p :: Lookup(r, p) == Stage(b, 4, p)
  {
    r := board;
    for i := 0 to |b.blanks|
      invariant forall p :: Lookup(r, p) == if p in b.blanks[..i] then Stage(b, 3, p) else Stage(b, 2, p)
    {
      assert b.blanks[..i + 1] == b.blanks[..i] + [b.blanks[i]];
      r := r[b.blanks[i] := "__"];
    }
    assert b.blanks[..|b.blanks|] == b.blanks;
    for i := 0 to |b.blockers|
      invariant forall p :: Lookup(r, p) == if p in b.blockers[..i] then Stage(b, 4, p) else Stage(b, 3, p)
    {
      assert b.blockers[..i + 1] == b.blockers[..i] + [b.blockers[i]];
      r := r[b.blockers[i] := "##"];
    }
    assert b.blockers[..|b.blockers|] == b.blockers;
  }

  /** The last filling loop of `__str__`: a tile on a target shows both letters. */
  method FillPairs(b: Board, board: map<Pos, string>) returns (r: map<Pos, string>)
    requires Printable(b)
    requires forall p :: Lookup(board, p) == Stage(b, 4, p)
    ensures forall p :: Lookup(r, p) == Stage(b, 5, p)
  {
    r := board;
    var rest := b.tiles.Keys;
    while rest != {}
      invariant rest <= b.tiles.Keys
      invariant forall p :: Lookup(r, p) == if p in b.tiles && p !in rest then Stage(b, 5, p) else Stage(b, 4, p)
      decreases rest
    {
      var p :| p in rest;
      if p in b.targets {
        r := r[p := [Upper(b.targets[p][0]), Lower(b.tiles[p][0])]];
      }
      rest := rest - {p};
    }
  }

  /** The printing loops of `__str__`: `size` rows of `size` cells. */
  method Draw(b: Board, board: map<Pos, string>) returns (output: string)
    requires forall p :: Lookup(board, p) == Stage(b, 5, p)
    ensures output == BoardText(b, if b.size > 0 then b.size else 0)
  {
    var n := if b.size > 0 then b.size else 0;
    output := "";
    for y := 0 to n
      invariant output == BoardText(b, y)
    {
      var row := "";
      for x := 0 to n
        invariant row == RowText(b, y, x)
      {
        GetIsCell(board, b, (x, y));
        row := row + (if (x, y) in board then board[(x, y)] else ".") + " ";
      }
      output := output + row + "\n";
    }
  }

  /** `__str__`: fill the cell dictionary layer by layer, then draw it. */
  method ToString(b: Board) returns (r: Result<string>)
    ensures r == Render(b)
  {
    var filled := FillColours(b);
    if filled.None? {
      return Err("IndexError");
    }
    var board := FillMarks(b, filled.value);
    board := FillPairs(b, board);
    var text := Draw(b, board);
    r := Ok(text);
  }

  /** `is_solved` as the source runs it: scan the tiles, stop at the first one off its target. */
  method CheckSolved(b: Board) returns (solved: bool)
    ensures solved == IsSolved(b)
  {
    var rest := b.tiles.Keys;
    while rest != {}
      invariant rest <= b.tiles.Keys
      invariant forall p :: p in b.tiles && p !in rest ==> p in b.targets && b.targets[p] == b.tiles[p]
      decreases rest
    {
      var p :| p in rest;
      if p !in b.targets || b.targets[p] != b.tiles[p] {
        return false;
      }
      rest := rest - {p};
    }
    return true;
  }
}
