/**
 * What a slide guarantees: when it fails, what it keeps (colours, lines,
 * the blank budget), where it may put tiles and blanks, and that a
 * successful slide leaves every tile stuck, so repeating it fails.
 */
module MoveProperties {
  import opened Wrappers
  import opened GameStates
  import opened Moves

  /** The cell `k` steps from `p` in direction `d`. */
  function Shift(d: Dir, p: Pos, k: nat): (c: Pos)
    ensures Line(d, c) == Line(d, p) && Progress(d, c) == Progress(d, p) + k
    decreases k
  {
    if k == 0 then p else NextAdvances(d, p); Shift(d, Next(d, p), k - 1)
  }

  /**
   * Every cell a tile steps onto was a blank or a target, not a blocker and
   * free of tiles when the tile reached it.
   */
  lemma {:induction false} TravelSteps(d: Dir, p: Pos, tiles: map<Pos, Color>, blanks: seq<Pos>,
                                       targets: map<Pos, Color>, blockers: seq<Pos>, k: nat)
    requires 0 < k <= Progress(d, Travel(d, p, tiles, blanks, targets, blockers)) - Progress(d, p)
    ensures var c := Shift(d, p, k);
            (c in blanks || c in targets) && c !in blockers && c !in tiles
    decreases |Ahead(d, p, Cells(blanks, targets))|
  {
    if CanAdvance(d, p, tiles, blanks, targets, blockers) {
      NextAdvances(d, p);
      if k > 1 {
        AheadShrinks(d, p, Cells(blanks, targets));
        TravelSteps(d, Next(d, p), tiles, blanks, targets, blockers, k - 1);
      }
    }
  }

  /** Sorted sequences have no repeats. */
  lemma SortedDistinct(d: Dir, s: seq<Pos>)
    requires Sorted(d, s)
    ensures forall i, j :: 0 <= i < j < |s| ==> s[i] != s[j]
  {
    forall i, j | 0 <= i < j < |s| ensures s[i] != s[j] {
      BeforeOrder(d, s[i], s[j], s[j]);
    }
  }

  /** `list.remove` keeps every other value. */
  lemma RemoveFirstKeeps(s: seq<Pos>, x: Pos, y: Pos)
    requires x in s && y != x
    ensures y in RemoveFirst(s, x) <==> y in s
  {
    assert multiset(RemoveFirst(s, x))[y] == multiset(s)[y];
  }

  /** The tile being processed is still where it started, under its snapshot colour. */
  ghost predicate Pending(order: seq<Pos>, snapshot: map<Pos, Color>, w: Work)
  {
    forall p :: p in order ==> p in snapshot && p in w.tiles && w.tiles[p] == snapshot[p]
  }

  /** Appending after the list does not move the first occurrence of an element already in it. */
  lemma {:induction false} IndexOfAppend(s: seq<Pos>, t: seq<Pos>, x: Pos)
    requires x in s
    ensures x in s + t && IndexOf(s + t, x) == IndexOf(s, x)
  {
    if s[0] != x {
      assert (s + t)[0] == s[0] && (s + t)[1..] == s[1..] + t;
      IndexOfAppend(s[1..], t, x);
    }
  }

  /** Removing an element already in the list, after appending, is appending after removing. */
  lemma RemoveFirstAppend(s: seq<Pos>, x: Pos, y: Pos)
    requires x in s
    ensures RemoveFirst(s + [y], x) == RemoveFirst(s, x) + [y]
  {
    IndexOfAppend(s, [y], x);
    var i := IndexOf(s, x);
    assert (s + [y])[..i] == s[..i];
    assert (s + [y])[i + 1..] == s[i + 1..] + [y];
  }

  /**
   * Blank bookkeeping of one tile: a vacated non-target cell joins the blanks,
   * a non-target destination leaves them once, target cells are untouched,
   * and the number of tiles stays the same.
   */
  lemma StepBlanks(d: Dir, targets: map<Pos, Color>, blockers: seq<Pos>, w: Work, p: Pos, c: Color)
    requires p in w.tiles
    ensures var n := Travel(d, p, w.tiles, w.blanks, targets, blockers);
            var w' := StepTile(d, targets, blockers, w, p, c);
            n != p ==>
              && multiset(w'.blanks) ==
                 multiset(w.blanks) + (if p !in targets then multiset{p} else multiset{})
                                    - (if n !in targets then multiset{n} else multiset{})
              && w'.blanks == (if n !in targets then RemoveFirst(w.blanks, n) else w.blanks)
                              + (if p !in targets then [p] else [])
              && (p !in targets ==> p in w'.blanks)
              && w'.tiles.Keys == w.tiles.Keys - {p} + {n}
              && |w'.tiles| == |w.tiles|
  {
    var n := Travel(d, p, w.tiles, w.blanks, targets, blockers);
    if n != p {
      var w' := StepTile(d, targets, blockers, w, p, c);
      var appended := if p !in targets then w.blanks + [p] else w.blanks;
      assert multiset(appended) == multiset(w.blanks) + (if p !in targets then multiset{p} else multiset{});
      if p !in targets {
        assert p in appended;
        if n !in targets {
          RemoveFirstKeeps(appended, n, p);
          RemoveFirstAppend(w.blanks, n, p);
        }
      }
      RemoveKey(w.tiles, p);
      assert w'.tiles.Keys == w.tiles.Keys - {p} + {n};
    }
  }

  /** A step changes the tiles and blanks only at the processed tile's old and new cells. */
  lemma StepKeepsCell(d: Dir, targets: map<Pos, Color>, blockers: seq<Pos>, w: Work, p: Pos, c: Color, y: Pos)
    requires y != p && y != Travel(d, p, w.tiles, w.blanks, targets, blockers)
    ensures var w' := StepTile(d, targets, blockers, w, p, c);
            (y in w'.tiles <==> y in w.tiles) && (y in w'.blanks <==> y in w.blanks)
            && (y in w.tiles ==> w'.tiles[y] == w.tiles[y])
  {
    var n := Travel(d, p, w.tiles, w.blanks, targets, blockers);
    if n != p && n !in targets {
      var appended := if p !in targets then w.blanks + [p] else w.blanks;
      RemoveFirstKeeps(appended, n, y);
    }
  }

  /** Processing a tile keeps the later tiles pending. */
  lemma StepKeepsPending(d: Dir, targets: map<Pos, Color>, blockers: seq<Pos>,
                         snapshot: map<Pos, Color>, order: seq<Pos>, w: Work)
    requires |order| > 0 && order[0] !in order[1..]
    requires Pending(order, snapshot, w)
    ensures Pending(order[1..], snapshot,
                    StepTile(d, targets, blockers, w, order[0], snapshot[order[0]]))
  {
    var p := order[0];
    forall q | q in order[1..]
      ensures q in StepTile(d, targets, blockers, w, p, snapshot[p]).tiles
      ensures StepTile(d, targets, blockers, w, p, snapshot[p]).tiles[q] == snapshot[q]
    {
      assert q in w.tiles;
      StepKeepsCell(d, targets, blockers, w, p, snapshot[p], q);
    }
  }

  /** Once a tile has moved, the slide has moved. */
  lemma {:induction false} FoldMovedStays(d: Dir, targets: map<Pos, Color>, blockers: seq<Pos>,
                                          snapshot: map<Pos, Color>, order: seq<Pos>, w: Work)
    requires forall p :: p in order ==> p in snapshot
    requires w.moved
    ensures SlideTiles(d, targets, blockers, snapshot, order, w).moved
    decreases |order|
  {
    if order != [] {
      FoldMovedStays(d, targets, blockers, snapshot, order[1..],
                     StepTile(d, targets, blockers, w, order[0], snapshot[order[0]]));
    }
  }

  /** When every tile is stuck, the loop changes nothing. */
  lemma {:induction false} FoldStill(d: Dir, targets: map<Pos, Color>, blockers: seq<Pos>,
                                     snapshot: map<Pos, Color>, order: seq<Pos>, w: Work)
    requires forall p :: p in order ==> p in snapshot && p in w.tiles
    requires forall p :: p in w.tiles ==> !CanAdvance(d, p, w.tiles, w.blanks, targets, blockers)
    ensures SlideTiles(d, targets, blockers, snapshot, order, w) == w
    decreases |order|
  {
    if order != [] {
      var p := order[0];
      assert Travel(d, p, w.tiles, w.blanks, targets, blockers) == p;
      assert StepTile(d, targets, blockers, w, p, snapshot[p]) == w;
      FoldStill(d, targets, blockers, snapshot, order[1..], w);
    }
  }

  /** A loop that never moved saw every processed tile stuck on the unchanged board. */
  lemma {:induction false} FoldNoMove(d: Dir, targets: map<Pos, Color>, blockers: seq<Pos>,
                                      snapshot: map<Pos, Color>, order: seq<Pos>, w: Work)
    requires forall p :: p in order ==> p in snapshot
    requires !SlideTiles(d, targets, blockers, snapshot, order, w).moved
    ensures forall p :: p in order ==> !CanAdvance(d, p, w.tiles, w.blanks, targets, blockers)
    decreases |order|
  {
    if order != [] {
      var p := order[0];
      var w' := StepTile(d, targets, blockers, w, p, snapshot[p]);
      if Travel(d, p, w.tiles, w.blanks, targets, blockers) != p {
        FoldMovedStays(d, targets, blockers, snapshot, order[1..], w');
      } else {
        assert w' == w;
        FoldNoMove(d, targets, blockers, snapshot, order[1..], w);
      }
    }
  }

  /** A slide fails exactly when no tile can advance (move.py: `moved` stays False). */
  lemma SlideFailsIffStuck(d: Dir, b: Board)
    ensures Slide(d, b).None? <==>
            forall p :: p in b.tiles ==> !CanAdvance(d, p, b.tiles, b.blanks, b.targets, b.blockers)
  {
    SortedKeysSpec(d, b.tiles.Keys);
    var order := SortedKeys(d, b.tiles.Keys);
    var w := Work(b.tiles, b.blanks, false);
    if forall p :: p in b.tiles ==> !CanAdvance(d, p, b.tiles, b.blanks, b.targets, b.blockers) {
      FoldStill(d, b.targets, b.blockers, b.tiles, order, w);
    }
    if Slide(d, b).None? {
      FoldNoMove(d, b.targets, b.blockers, b.tiles, order, w);
    }
  }

  /** No tile of `w` can advance. */
  ghost predicate AllStuck(d: Dir, targets: map<Pos, Color>, blockers: seq<Pos>, w: Work)
  {
    forall x :: x in w.tiles ==> !CanAdvance(d, x, w.tiles, w.blanks, targets, blockers)
  }

  /** A tile heads the rest of a sorted order on its line. */
  lemma SortedHead(d: Dir, order: seq<Pos>, r: Pos)
    requires Sorted(d, order) && |order| > 0 && r in order[1..] && Line(d, r) == Line(d, order[0])
    ensures Progress(d, r) < Progress(d, order[0])
  {
    var j :| 0 <= j < |order[1..]| && order[1..][j] == r;
    assert order[j + 1] == r;
    BeforeOrder(d, order[0], r, r);
  }

  /**
   * Moving tile `o` keeps stuck every tile that is not behind it on its line,
   * and leaves the moved tile itself stuck.
   */
  lemma StepKeepsStuck(d: Dir, targets: map<Pos, Color>, blockers: seq<Pos>, w: Work, o: Pos, c: Color, x: Pos)
    requires o in w.tiles
    requires var n := Travel(d, o, w.tiles, w.blanks, targets, blockers);
             x == n || (!CanAdvance(d, x, w.tiles, w.blanks, targets, blockers) &&
                        (Line(d, x) == Line(d, o) ==> Progress(d, o) < Progress(d, x)))
    ensures var w' := StepTile(d, targets, blockers, w, o, c);
            x in w'.tiles ==> !CanAdvance(d, x, w'.tiles, w'.blanks, targets, blockers)
  {
    var n := Travel(d, o, w.tiles, w.blanks, targets, blockers);
    if n != o {
      var y := Next(d, x);
      NextAdvances(d, x);
      if y != n {
        assert y != o;
        StepKeepsCell(d, targets, blockers, w, o, c, y);
      }
    }
  }

  /**
   * The idempotence invariant of the loop: the tiles already processed (`done`)
   * are stuck, and each lies strictly nearer the edge than every tile still to
   * come on its line.
   */
  ghost predicate StuckInv(d: Dir, targets: map<Pos, Color>, blockers: seq<Pos>,
                           snapshot: map<Pos, Color>, order: seq<Pos>, w: Work, done: set<Pos>)
  {
    && Sorted(d, order)
    && Pending(order, snapshot, w)
    && w.tiles.Keys == done + (set p | p in order)
    && (forall x :: x in done ==> !CanAdvance(d, x, w.tiles, w.blanks, targets, blockers))
    && (forall x, r :: x in done && r in order && Line(d, x) == Line(d, r) ==>
                       Progress(d, r) < Progress(d, x))
  }

  /** The tile positions after processing the head: the rest of the order and the done set. */
  lemma StuckStepKeys(d: Dir, targets: map<Pos, Color>, blockers: seq<Pos>,
                      c: Color, order: seq<Pos>, w: Work, done: set<Pos>)
    requires |order| > 0 && order[0] !in order[1..] && order[0] in w.tiles
    requires w.tiles.Keys == done + (set p | p in order) && order[0] !in done
    ensures var o := order[0];
            StepTile(d, targets, blockers, w, o, c).tiles.Keys ==
            done + {Travel(d, o, w.tiles, w.blanks, targets, blockers)} + (set p | p in order[1..])
  {
    var o := order[0];
    var n := Travel(d, o, w.tiles, w.blanks, targets, blockers);
    var rest := set p | p in order[1..];
    assert (set p | p in order) == {o} + rest by {
      assert order == [o] + order[1..];
    }
    assert o !in rest;
    var keys := StepTile(d, targets, blockers, w, o, c).tiles.Keys;
    if n == o {
      assert keys == w.tiles.Keys;
    } else {
      calc {
        keys;
      == { StepBlanks(d, targets, blockers, w, o, c); }
        w.tiles.Keys - {o} + {n};
      ==
        (done + {o} + rest) - {o} + {n};
      ==
        done + {n} + rest;
      }
    }
  }

  /** Processing the head keeps the done tiles stuck and leaves the moved tile stuck. */
  lemma StuckStepDone(d: Dir, targets: map<Pos, Color>, blockers: seq<Pos>,
                      c: Color, order: seq<Pos>, w: Work, done: set<Pos>)
    requires |order| > 0 && order[0] in w.tiles
    requires forall x :: x in done ==> !CanAdvance(d, x, w.tiles, w.blanks, targets, blockers)
    requires forall x :: x in done && Line(d, x) == Line(d, order[0]) ==> Progress(d, order[0]) < Progress(d, x)
    ensures var o := order[0];
            var w' := StepTile(d, targets, blockers, w, o, c);
            forall x :: x in done + {Travel(d, o, w.tiles, w.blanks, targets, blockers)} && x in w'.tiles ==>
              !CanAdvance(d, x, w'.tiles, w'.blanks, targets, blockers)
  {
    var o := order[0];
    forall x | x in done + {Travel(d, o, w.tiles, w.blanks, targets, blockers)}
      ensures var w' := StepTile(d, targets, blockers, w, o, c);
              x in w'.tiles ==> !CanAdvance(d, x, w'.tiles, w'.blanks, targets, blockers)
    {
      StepKeepsStuck(d, targets, blockers, w, o, c, x);
    }
  }

  /** The moved tile lies beyond every later tile of its line. */
  lemma StuckStepAhead(d: Dir, targets: map<Pos, Color>, blockers: seq<Pos>,
                       order: seq<Pos>, w: Work, done: set<Pos>)
    requires |order| > 0 && Sorted(d, order)
    requires forall x, r :: x in done && r in order && Line(d, x) == Line(d, r) ==>
                            Progress(d, r) < Progress(d, x)
    ensures var n := Travel(d, order[0], w.tiles, w.blanks, targets, blockers);
            forall x, r :: x in done + {n} && r in order[1..] && Line(d, x) == Line(d, r) ==>
                           Progress(d, r) < Progress(d, x)
  {
    var n := Travel(d, order[0], w.tiles, w.blanks, targets, blockers);
    forall x, r | x in done + {n} && r in order[1..] && Line(d, x) == Line(d, r)
      ensures Progress(d, r) < Progress(d, x)
    {
      if x == n {
        SortedHead(d, order, r);
      } else {
        assert r in order;
      }
    }
  }

  /** Processing the head of the order keeps the idempotence invariant, with its destination done. */
  lemma StuckStep(d: Dir, targets: map<Pos, Color>, blockers: seq<Pos>,
                  snapshot: map<Pos, Color>, order: seq<Pos>, w: Work, done: set<Pos>)
    requires |order| > 0
    requires StuckInv(d, targets, blockers, snapshot, order, w, done)
    ensures var o := order[0];
            StuckInv(d, targets, blockers, snapshot, order[1..],
                     StepTile(d, targets, blockers, w, o, snapshot[o]),
                     done + {Travel(d, o, w.tiles, w.blanks, targets, blockers)})
  {
    var o := order[0];
    SortedDistinct(d, order);
    assert o !in order[1..];
    assert Sorted(d, order[1..]);
    assert o !in done;
    StepKeepsPending(d, targets, blockers, snapshot, order, w);
    StuckStepKeys(d, targets, blockers, snapshot[o], order, w, done);
    StuckStepDone(d, targets, blockers, snapshot[o], order, w, done);
    StuckStepAhead(d, targets, blockers, order, w, done);
  }

  /** Under the idempotence invariant the loop ends with every tile stuck. */
  lemma {:induction false} FoldStuck(d: Dir, targets: map<Pos, Color>, blockers: seq<Pos>,
                                     snapshot: map<Pos, Color>, order: seq<Pos>, w: Work, done: set<Pos>)
    requires StuckInv(d, targets, blockers, snapshot, order, w, done)
    ensures AllStuck(d, targets, blockers, SlideTiles(d, targets, blockers, snapshot, order, w))
    decreases |order|
  {
    if order == [] {
      assert w.tiles.Keys == done;
    } else {
      var o := order[0];
      var w' := StepTile(d, targets, blockers, w, o, snapshot[o]);
      StuckStep(d, targets, blockers, snapshot, order, w, done);
      FoldStuck(d, targets, blockers, snapshot, order[1..], w',
                done + {Travel(d, o, w.tiles, w.blanks, targets, blockers)});
    }
  }

  /** After a successful slide the same slide fails: every tile already stopped. */
  lemma SlideIdempotent(d: Dir, b: Board)
    requires Slide(d, b).Some?
    ensures Slide(d, Slide(d, b).value).None?
  {
    SortedKeysSpec(d, b.tiles.Keys);
    var order := SortedKeys(d, b.tiles.Keys);
    var w := Work(b.tiles, b.blanks, false);
    assert b.tiles.Keys == {} + (set p | p in order);
    FoldStuck(d, b.targets, b.blockers, b.tiles, order, w, {});
    assert AllStuck(d, b.targets, b.blockers, SlideTiles(d, b.targets, b.blockers, b.tiles, order, w));
    SlideFailsIffStuck(d, Slide(d, b).value);
  }

  /** Processing one tile keeps the multiset of colours. */
  lemma StepColours(d: Dir, targets: map<Pos, Color>, blockers: seq<Pos>, w: Work, p: Pos)
    requires p in w.tiles
    ensures Colours(StepTile(d, targets, blockers, w, p, w.tiles[p]).tiles) == Colours(w.tiles)
  {
    var n := Travel(d, p, w.tiles, w.blanks, targets, blockers);
    if n != p {
      ColoursRekey(w.tiles, p, n);
    }
  }

  /** The loop keeps the multiset of colours. */
  lemma {:induction false} FoldColours(d: Dir, targets: map<Pos, Color>, blockers: seq<Pos>,
                                       snapshot: map<Pos, Color>, order: seq<Pos>, w: Work)
    requires Sorted(d, order) && Pending(order, snapshot, w)
    ensures Colours(SlideTiles(d, targets, blockers, snapshot, order, w).tiles) == Colours(w.tiles)
    decreases |order|
  {
    if order != [] {
      var p := order[0];
      SortedDistinct(d, order);
      assert p !in order[1..];
      StepKeepsPending(d, targets, blockers, snapshot, order, w);
      StepColours(d, targets, blockers, w, p);
      FoldColours(d, targets, blockers, snapshot, order[1..],
                  StepTile(d, targets, blockers, w, p, snapshot[p]));
    }
  }

  /** A slide keeps the colours of the tiles, with multiplicity, and so their number. */
  lemma SlideKeepsColours(d: Dir, b: Board)
    requires Slide(d, b).Some?
    ensures Colours(Slide(d, b).value.tiles) == Colours(b.tiles)
    ensures |Slide(d, b).value.tiles| == |b.tiles|
  {
    SortedKeysSpec(d, b.tiles.Keys);
    var order := SortedKeys(d, b.tiles.Keys);
    FoldColours(d, b.targets, b.blockers, b.tiles, order, Work(b.tiles, b.blanks, false));
    ColoursSize(Slide(d, b).value.tiles);
    ColoursSize(b.tiles);
  }

  /** Each tile of `tiles` comes from a cell of `snapshot` of its colour, on its line, no further on. */
  ghost predicate Sends(d: Dir, snapshot: map<Pos, Color>, tiles: map<Pos, Color>, origin: map<Pos, Pos>)
  {
    forall x :: x in origin ==>
      && x in tiles && origin[x] in snapshot && snapshot[origin[x]] == tiles[x]
      && Line(d, origin[x]) == Line(d, x) && Progress(d, origin[x]) <= Progress(d, x)
  }

  /** No two tiles come from the same cell. */
  ghost predicate OneToOne(origin: map<Pos, Pos>)
  {
    forall x, y :: x in origin && y in origin && x != y ==> origin[x] != origin[y]
  }

  /** Every cell of `snapshot` is where some tile comes from. */
  ghost predicate Onto(snapshot: map<Pos, Color>, origin: map<Pos, Pos>)
  {
    forall p :: p in snapshot ==> exists x :: x in origin && origin[x] == p
  }

  /**
   * `origin` sends every tile of `tiles` back to the cell of `snapshot` it
   * came from: one-to-one and onto, same colour, same line, never further
   * back than where it started.
   */
  ghost predicate Tracks(d: Dir, snapshot: map<Pos, Color>, tiles: map<Pos, Color>, origin: map<Pos, Pos>)
  {
    origin.Keys == tiles.Keys && Sends(d, snapshot, tiles, origin) && OneToOne(origin) && Onto(snapshot, origin)
  }

  /** Moving the tile at `p`, still in its own cell, to `n` keeps every tile sent to its cell. */
  lemma RekeySends(d: Dir, snapshot: map<Pos, Color>, tiles: map<Pos, Color>, origin: map<Pos, Pos>, p: Pos, n: Pos)
    requires p in tiles && p in snapshot && tiles[p] == snapshot[p]
    requires Line(d, n) == Line(d, p) && Progress(d, p) <= Progress(d, n)
    requires Sends(d, snapshot, tiles, origin)
    ensures Sends(d, snapshot, (tiles - {p})[n := tiles[p]], (origin - {p})[n := p])
  {
  }

  /** Moving the tile at `p`, still in its own cell, to the free cell `n` keeps the map one-to-one. */
  lemma RekeyOneToOne(origin: map<Pos, Pos>, p: Pos, n: Pos)
    requires p in origin && origin[p] == p && n !in origin && OneToOne(origin)
    ensures OneToOne((origin - {p})[n := p])
  {
    var origin' := (origin - {p})[n := p];
    forall x, y | x in origin' && y in origin' && x != y ensures origin'[x] != origin'[y] {
      if x == n {
        assert origin'[y] == origin[y] && y != p;
      } else if y == n {
        assert origin'[x] == origin[x] && x != p;
      }
    }
  }

  /** Moving the tile at `p`, still in its own cell, to `n` keeps every cell a tile's origin. */
  lemma RekeyOnto(snapshot: map<Pos, Color>, origin: map<Pos, Pos>, p: Pos, n: Pos)
    requires p in origin && origin[p] == p && n !in origin && Onto(snapshot, origin)
    ensures Onto(snapshot, (origin - {p})[n := p])
  {
    var origin' := (origin - {p})[n := p];
    forall q | q in snapshot ensures exists x :: x in origin' && origin'[x] == q {
      var x :| x in origin && origin[x] == q;
      if x == p {
        assert origin'[n] == q;
      } else {
        assert origin'[x] == q;
      }
    }
  }

  /** Moving the tile at `p` to the free cell `n` updates the tracking map at both cells. */
  lemma RekeyTracks(d: Dir, snapshot: map<Pos, Color>, tiles: map<Pos, Color>, origin: map<Pos, Pos>, p: Pos, n: Pos)
    requires p in tiles && n !in tiles && p in snapshot && tiles[p] == snapshot[p]
    requires Line(d, n) == Line(d, p) && Progress(d, p) <= Progress(d, n)
    requires Tracks(d, snapshot, tiles, origin) && origin[p] == p
    ensures Tracks(d, snapshot, (tiles - {p})[n := tiles[p]], (origin - {p})[n := p])
  {
    assert n !in origin;
    RekeySends(d, snapshot, tiles, origin, p, n);
    RekeyOneToOne(origin, p, n);
    RekeyOnto(snapshot, origin, p, n);
    assert ((origin - {p})[n := p]).Keys == ((tiles - {p})[n := tiles[p]]).Keys;
  }

  /** The tracking map once the tile at `p` has stopped at `n`. */
  function Retrack(origin: map<Pos, Pos>, p: Pos, n: Pos): map<Pos, Pos>
  {
    if n == p then origin else (origin - {p})[n := p]
  }

  /** Retracking leaves the entries at other cells as they were. */
  lemma RetrackKeeps(origin: map<Pos, Pos>, p: Pos, n: Pos, q: Pos)
    requires q in origin && q != p && q != n
    ensures q in Retrack(origin, p, n) && Retrack(origin, p, n)[q] == origin[q]
  {
  }

  /** Moving one tile updates the tracking map at its old and new cells. */
  lemma StepTracks(d: Dir, targets: map<Pos, Color>, blockers: seq<Pos>,
                   snapshot: map<Pos, Color>, w: Work, p: Pos, origin: map<Pos, Pos>)
    requires p in w.tiles && p in snapshot && w.tiles[p] == snapshot[p]
    requires Tracks(d, snapshot, w.tiles, origin) && origin[p] == p
    ensures Tracks(d, snapshot, StepTile(d, targets, blockers, w, p, snapshot[p]).tiles,
                   Retrack(origin, p, Travel(d, p, w.tiles, w.blanks, targets, blockers)))
  {
    var n := Travel(d, p, w.tiles, w.blanks, targets, blockers);
    if n != p {
      assert StepTile(d, targets, blockers, w, p, snapshot[p]).tiles == (w.tiles - {p})[n := w.tiles[p]];
      RekeyTracks(d, snapshot, w.tiles, origin, p, n);
    }
  }

  /** The loop carries a tracking map along, starting from the identity on pending tiles. */
  lemma {:induction false} FoldTracks(d: Dir, targets: map<Pos, Color>, blockers: seq<Pos>,
                                      snapshot: map<Pos, Color>, order: seq<Pos>, w: Work,
                                      origin: map<Pos, Pos>)
    returns (origin': map<Pos, Pos>)
    requires Sorted(d, order) && Pending(order, snapshot, w)
    requires Tracks(d, snapshot, w.tiles, origin)
    requires forall p :: p in order ==> origin[p] == p
    ensures Tracks(d, snapshot, SlideTiles(d, targets, blockers, snapshot, order, w).tiles, origin')
    decreases |order|
  {
    if order == [] {
      origin' := origin;
    } else {
      var p := order[0];
      var rest := order[1..];
      var w' := StepTile(d, targets, blockers, w, p, snapshot[p]);
      assert p !in rest && Sorted(d, rest) by {
        SortedDistinct(d, order);
      }
      assert Pending(rest, snapshot, w') by {
        StepKeepsPending(d, targets, blockers, snapshot, order, w);
      }
      var n := Travel(d, p, w.tiles, w.blanks, targets, blockers);
      var mid := Retrack(origin, p, n);
      StepTracks(d, targets, blockers, snapshot, w, p, origin);
      assert forall q :: q in rest ==> mid[q] == q by {
        forall q | q in rest ensures mid[q] == q {
          assert q in order && q in w.tiles && q != p && q != n;
          RetrackKeeps(origin, p, n, q);
        }
      }
      origin' := FoldTracks(d, targets, blockers, snapshot, rest, w', mid);
    }
  }

  /**
   * Every tile after a slide came from exactly one tile before it, of the
   * same colour, further along the same row or column in the slide's direction.
   */
  lemma SlideTracksTiles(d: Dir, b: Board) returns (origin: map<Pos, Pos>)
    requires Slide(d, b).Some?
    ensures Tracks(d, b.tiles, Slide(d, b).value.tiles, origin)
  {
    SortedKeysSpec(d, b.tiles.Keys);
    var order := SortedKeys(d, b.tiles.Keys);
    var id := map p | p in b.tiles :: p;
    forall p | p in b.tiles ensures exists x :: x in id && id[x] == p {
      assert id[p] == p;
    }
    origin := FoldTracks(d, b.targets, b.blockers, b.tiles, order, Work(b.tiles, b.blanks, false), id);
  }

  /** Sliding left keeps every tile in its row, at the same or a smaller column. */
  lemma SlideLeftKeepsRows(b: Board, x: Pos)
    requires Slide(Left, b).Some? && x in Slide(Left, b).value.tiles
    ensures exists p :: p in b.tiles && p.1 == x.1 && x.0 <= p.0 &&
                        b.tiles[p] == Slide(Left, b).value.tiles[x]
  {
    var origin := SlideTracksTiles(Left, b);
    var p := origin[x];
    assert p in b.tiles && p.1 == x.1 && x.0 <= p.0;
  }

  /** Blanks plus tiles standing off a target: the number of free non-target cells. */
  function Budget(tiles: map<Pos, Color>, blanks: seq<Pos>, targets: map<Pos, Color>): (n: nat)
    ensures n >= |blanks|
  {
    |blanks| + |tiles.Keys - targets.Keys|
  }

  /** Swapping a member `p` of `k` for a non-member `n` changes how many lie outside `e` accordingly. */
  lemma SwapCard<T>(k: set<T>, e: set<T>, p: T, n: T)
    requires p in k && n !in k
    ensures |k - {p} + {n} - e| == |k - e| - (if p !in e then 1 else 0) + (if n !in e then 1 else 0)
  {
    var rest := k - e - {p};
    if p in e {
      assert k - e == rest;
    } else {
      assert k - e == rest + {p} && p !in rest;
    }
    if n in e {
      assert k - {p} + {n} - e == rest;
    } else {
      assert k - {p} + {n} - e == rest + {n} && n !in rest;
    }
  }

  /** Off-target tiles after moving the tile at `p` to the free cell `n`. */
  lemma RekeyOffTarget(tiles: map<Pos, Color>, targets: map<Pos, Color>, p: Pos, n: Pos, c: Color)
    requires p in tiles && n !in tiles
    ensures |((tiles - {p})[n := c]).Keys - targets.Keys| ==
            |tiles.Keys - targets.Keys| - (if p !in targets then 1 else 0) + (if n !in targets then 1 else 0)
  {
    assert ((tiles - {p})[n := c]).Keys == tiles.Keys - {p} + {n};
    SwapCard(tiles.Keys, targets.Keys, p, n);
  }

  /** The length of the blanks after one tile moved from `p` to `n`. */
  lemma BlanksCount(blanks: seq<Pos>, blanks': seq<Pos>, targets: map<Pos, Color>, p: Pos, n: Pos)
    requires multiset(blanks') ==
             multiset(blanks) + (if p !in targets then multiset{p} else multiset{})
                              - (if n !in targets then multiset{n} else multiset{})
    requires n !in targets ==> n in blanks
    ensures |blanks'| == |blanks| + (if p !in targets then 1 else 0) - (if n !in targets then 1 else 0)
  {
    assert |multiset(blanks')| == |blanks'|;
    if n !in targets {
      assert multiset(blanks)[n] > 0;
    }
  }

  /** Processing one tile keeps the budget. */
  lemma StepBudget(d: Dir, targets: map<Pos, Color>, blockers: seq<Pos>, w: Work, p: Pos, c: Color)
    requires p in w.tiles
    ensures var w' := StepTile(d, targets, blockers, w, p, c);
            Budget(w'.tiles, w'.blanks, targets) == Budget(w.tiles, w.blanks, targets)
  {
    var n := Travel(d, p, w.tiles, w.blanks, targets, blockers);
    if n != p {
      var w' := StepTile(d, targets, blockers, w, p, c);
      StepBlanks(d, targets, blockers, w, p, c);
      assert w'.tiles == (w.tiles - {p})[n := c];
      RekeyOffTarget(w.tiles, targets, p, n, c);
      BlanksCount(w.blanks, w'.blanks, targets, p, n);
    }
  }

  /** The loop keeps the budget. */
  lemma {:induction false} FoldBudget(d: Dir, targets: map<Pos, Color>, blockers: seq<Pos>,
                                      snapshot: map<Pos, Color>, order: seq<Pos>, w: Work)
    requires Sorted(d, order) && Pending(order, snapshot, w)
    ensures var f := SlideTiles(d, targets, blockers, snapshot, order, w);
            Budget(f.tiles, f.blanks, targets) == Budget(w.tiles, w.blanks, targets)
    decreases |order|
  {
    if order != [] {
      var p := order[0];
      SortedDistinct(d, order);
      assert p !in order[1..];
      StepKeepsPending(d, targets, blockers, snapshot, order, w);
      StepBudget(d, targets, blockers, w, p, snapshot[p]);
      FoldBudget(d, targets, blockers, snapshot, order[1..],
                 StepTile(d, targets, blockers, w, p, snapshot[p]));
    }
  }

  /**
   * A slide keeps the number of blanks plus off-target tiles: a tile leaving
   * a non-target cell adds a blank, one entering a non-target cell uses one.
   */
  lemma SlideKeepsBudget(d: Dir, b: Board)
    requires Slide(d, b).Some?
    ensures var n := Slide(d, b).value;
            Budget(n.tiles, n.blanks, n.targets) == Budget(b.tiles, b.blanks, b.targets)
  {
    SortedKeysSpec(d, b.tiles.Keys);
    FoldBudget(d, b.targets, b.blockers, b.tiles, SortedKeys(d, b.tiles.Keys), Work(b.tiles, b.blanks, false));
  }

  /**
   * Tiles and blanks stay inside `cells`, which hold the targets; tile
   * colours stay inside `colours`; the only blanks on targets are among
   * `onTargets`.
   */
  ghost predicate Within(tiles: map<Pos, Color>, blanks: seq<Pos>, targets: map<Pos, Color>,
                         cells: set<Pos>, colours: set<Color>, onTargets: set<Pos>)
  {
    && targets.Keys <= cells
    && (forall p :: p in tiles ==> p in cells && tiles[p] in colours)
    && (forall p :: p in blanks ==> p in cells && (p in targets ==> p in onTargets))
  }

  /** A blank after one tile's move was a blank before, or the cell the tile left when it is no target. */
  lemma StepBlanksFrom(d: Dir, targets: map<Pos, Color>, blockers: seq<Pos>, w: Work, p: Pos, c: Color, q: Pos)
    requires q in StepTile(d, targets, blockers, w, p, c).blanks
    ensures q in w.blanks || (q == p && p !in targets)
  {
    var n := Travel(d, p, w.tiles, w.blanks, targets, blockers);
    if n != p {
      var appended := if p !in targets then w.blanks + [p] else w.blanks;
      assert multiset(StepTile(d, targets, blockers, w, p, c).blanks)[q] <= multiset(appended)[q];
      assert q in appended;
    }
  }

  /** Processing one tile stays within the same cells and colours. */
  lemma StepWithin(d: Dir, targets: map<Pos, Color>, blockers: seq<Pos>, w: Work, p: Pos,
                   cells: set<Pos>, colours: set<Color>, onTargets: set<Pos>)
    requires p in w.tiles && Within(w.tiles, w.blanks, targets, cells, colours, onTargets)
    ensures var w' := StepTile(d, targets, blockers, w, p, w.tiles[p]);
            Within(w'.tiles, w'.blanks, targets, cells, colours, onTargets)
  {
    var w' := StepTile(d, targets, blockers, w, p, w.tiles[p]);
    forall q | q in w'.blanks ensures q in w.blanks || (q == p && p !in targets) {
      StepBlanksFrom(d, targets, blockers, w, p, w.tiles[p], q);
    }
  }

  /** The loop stays within the same cells and colours. */
  lemma {:induction false} FoldWithin(d: Dir, targets: map<Pos, Color>, blockers: seq<Pos>,
                                      snapshot: map<Pos, Color>, order: seq<Pos>, w: Work,
                                      cells: set<Pos>, colours: set<Color>, onTargets: set<Pos>)
    requires Sorted(d, order) && Pending(order, snapshot, w)
    requires Within(w.tiles, w.blanks, targets, cells, colours, onTargets)
    ensures var f := SlideTiles(d, targets, blockers, snapshot, order, w);
            Within(f.tiles, f.blanks, targets, cells, colours, onTargets)
    decreases |order|
  {
    if order != [] {
      var p := order[0];
      SortedDistinct(d, order);
      assert p !in order[1..];
      StepKeepsPending(d, targets, blockers, snapshot, order, w);
      StepWithin(d, targets, blockers, w, p, cells, colours, onTargets);
      FoldWithin(d, targets, blockers, snapshot, order[1..],
                 StepTile(d, targets, blockers, w, p, snapshot[p]), cells, colours, onTargets);
    }
  }

  /**
   * A slide never leaves the cells that held tiles, blanks or targets, never
   * invents a colour, and never turns a target cell into a blank: a blank
   * appears only where a tile left a non-target cell.
   */
  lemma SlideStaysWithin(d: Dir, b: Board, cells: set<Pos>, colours: set<Color>, onTargets: set<Pos>)
    requires Slide(d, b).Some? && Within(b.tiles, b.blanks, b.targets, cells, colours, onTargets)
    ensures var n := Slide(d, b).value; Within(n.tiles, n.blanks, n.targets, cells, colours, onTargets)
  {
    SortedKeysSpec(d, b.tiles.Keys);
    FoldWithin(d, b.targets, b.blockers, b.tiles, SortedKeys(d, b.tiles.Keys),
               Work(b.tiles, b.blanks, false), cells, colours, onTargets);
  }
}
