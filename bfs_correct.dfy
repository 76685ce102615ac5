/**
 * Breadth-first search over exact keys is correct: the path it returns
 * solves the puzzle and no path is shorter, and when it returns none, no
 * path solves it.
 */
module BfsCorrect {
  import opened Wrappers
  import opened GameStates
  import opened Moves
  import opened Reach
  import opened BfsSpec

  /** The keys of the queued boards. */
  ghost function QKeys(q: seq<Entry>): set<Key>
  {
    set e | e in q :: HashKey(e.board)
  }

  /** The keys of the queued boards whose path has `n` moves. */
  ghost function LevelKeys(q: seq<Entry>, n: nat): set<Key>
  {
    set e | e in q && |e.path| == n :: HashKey(e.board)
  }

  lemma QKeysConcat(a: seq<Entry>, b: seq<Entry>)
    ensures QKeys(a + b) == QKeys(a) + QKeys(b)
  {
    assert forall e :: e in a + b <==> e in a || e in b;
  }

  /** The board with key `k` is unsolved and every board one move away has its key in `visited`. */
  ghost predicate Expanded(s: Board, k: Key, visited: set<Key>)
  {
    && !IsSolved(WithKey(s, k))
    && forall d :: Slide(d, WithKey(s, k)).Some? ==> HashKey(Slide(d, WithKey(s, k)).value) in visited
  }

  /** Path lengths never decrease along the queue. */
  ghost predicate Ordered(q: seq<Entry>)
  {
    forall i, j :: 0 <= i < j < |q| ==> |q[i].path| <= |q[j].path|
  }

  /** Every queued path has between `a` and `c` moves. */
  ghost predicate Between(q: seq<Entry>, a: nat, c: nat)
  {
    forall x :: x in q ==> a <= |x.path| <= c
  }

  /** Path lengths in the queue never decrease, and span `lo` (at the front) and at most `lo + 1`. */
  ghost predicate Levels(q: seq<Entry>, lo: nat)
  {
    q != [] ==> |q[0].path| == lo && Ordered(q) && Between(q, lo, lo + 1)
  }

  /** Every board reachable in fewer than `lo` moves has been expanded. */
  ghost predicate Shortest(s: Board, done: set<Key>, lo: nat)
  {
    forall q :: |q| < lo && Run(s, q).Some? ==> HashKey(Run(s, q).value) in done
  }

  /** Every board reachable in at most `lo` moves is expanded or queued with a path of `lo` moves. */
  ghost predicate Frontline(s: Board, done: set<Key>, queue: seq<Entry>, lo: nat)
  {
    forall q :: |q| <= lo && Run(s, q).Some? ==> HashKey(Run(s, q).value) in done + LevelKeys(queue, lo)
  }

  /** The loop invariant of breadth-first search; `done` holds the keys of the expanded boards. */
  ghost predicate BfsInv(s: Board, f: Frontier, done: set<Key>, lo: nat)
  {
    && Tracked(s, f)
    && HashKey(s) in f.visited
    && f.visited == done + QKeys(f.queue)
    && Levels(f.queue, lo)
    && (forall k :: k in done ==> Expanded(s, k, f.visited))
    && Shortest(s, done, lo)
    && Frontline(s, done, f.queue, lo)
  }

  /** What the search promises about the path it returns. */
  ghost predicate Correct(s: Board, path: Option<seq<Dir>>)
  {
    && (path.Some? ==> Solves(s, path.value) && forall q :: Solves(s, q) ==> |path.value| <= |q|)
    && (path.None? ==> forall q :: !Solves(s, q))
  }

  lemma ConcatAssoc<T>(a: seq<T>, b: seq<T>, c: seq<T>)
    ensures a + (b + c) == (a + b) + c
  {
  }

  /** Trying one move appends at most the new board, one move further, and marks its key seen. */
  lemma OfferShape(e: Entry, d: Dir, f: Frontier) returns (added: seq<Entry>)
    ensures Offer(e, d, f).queue == f.queue + added
    ensures forall x :: x in added ==> |x.path| == |e.path| + 1
    ensures Offer(e, d, f).visited == f.visited + QKeys(added)
    ensures Slide(d, e.board).Some? ==> HashKey(Slide(d, e.board).value) in Offer(e, d, f).visited
  {
    var r := Offer(e, d, f);
    if r.queue == f.queue {
      added := [];
      assert QKeys(added) == {};
    } else {
      added := [Entry(Slide(d, e.board).value, e.path + [d])];
      assert QKeys(added) == {HashKey(Slide(d, e.board).value)};
    }
  }

  /**
   * Expanding `e` appends to the queue only boards one move further than
   * `e` and marks exactly their keys as seen.
   */
  lemma {:induction false} ExpandShape(e: Entry, moves: seq<Dir>, f: Frontier) returns (added: seq<Entry>)
    ensures Expand(e, moves, f).queue == f.queue + added
    ensures forall x :: x in added ==> |x.path| == |e.path| + 1
    ensures Expand(e, moves, f).visited == f.visited + QKeys(added)
    decreases |moves|
  {
    if moves == [] {
      added := [];
      assert f.queue + added == f.queue;
      assert QKeys(added) == {};
    } else {
      var f1 := Offer(e, moves[0], f);
      var a1 := OfferShape(e, moves[0], f);
      var a2 := ExpandShape(e, moves[1..], f1);
      added := a1 + a2;
      ConcatAssoc(f.queue, a1, a2);
      QKeysConcat(a1, a2);
    }
  }

  /** Expanding `e` sees the key of every board one of `moves` leads to. */
  lemma {:induction false} ExpandCovers(e: Entry, moves: seq<Dir>, f: Frontier)
    ensures forall d :: d in moves && Slide(d, e.board).Some? ==>
                          HashKey(Slide(d, e.board).value) in Expand(e, moves, f).visited
    decreases |moves|
  {
    if moves != [] {
      var f1 := Offer(e, moves[0], f);
      var _ := OfferShape(e, moves[0], f);
      ExpandCovers(e, moves[1..], f1);
    }
  }

  /** Seeing more keys keeps a board expanded. */
  lemma ExpandedMono(s: Board, k: Key, visited: set<Key>, more: set<Key>)
    requires Expanded(s, k, visited) && visited <= more
    ensures Expanded(s, k, more)
  {
  }

  /** When every seen key is expanded, every board reachable from `s` has been seen. */
  lemma {:induction false} ReachClosed(s: Board, done: set<Key>, q: seq<Dir>)
    requires HashKey(s) in done && forall k :: k in done ==> Expanded(s, k, done)
    requires Run(s, q).Some?
    ensures HashKey(Run(s, q).value) in done
    decreases |q|
  {
    if q != [] {
      var q0, d := q[..|q| - 1], q[|q| - 1];
      assert q == q0 + [d];
      RunSnoc(s, q0, d);
      ReachClosed(s, done, q0);
      RunInSpace(s, q0);
      var b0 := Run(s, q0).value;
      assert Run(s, q) == Slide(d, WithKey(s, HashKey(b0)));
      assert Expanded(s, HashKey(b0), done);
    }
  }

  /** The level the front of the queue is at once its first entry is taken. */
  function NextLevel(q: seq<Entry>, lo: nat): nat
  {
    if |q| > 1 && |q[1].path| == lo then lo else lo + 1
  }

  /** Behind the front entry the queue stays ordered, from the level of its next entry on. */
  lemma LevelsRest(q: seq<Entry>, lo: nat)
    requires Levels(q, lo) && q != []
    ensures Ordered(q[1..]) && Between(q[1..], NextLevel(q, lo), lo + 1)
  {
    var rest := q[1..];
    forall i, j | 0 <= i < j < |rest| ensures |rest[i].path| <= |rest[j].path| {
      assert rest[i] == q[i + 1] && rest[j] == q[j + 1];
    }
    forall x | x in rest ensures NextLevel(q, lo) <= |x.path| <= lo + 1 {
      var i :| 0 <= i < |rest| && rest[i] == x;
      assert x == q[i + 1] && x in q;
      assert |q[0].path| <= |q[1].path|;
      if i > 0 {
        assert |q[1].path| <= |q[i + 1].path|;
      }
    }
  }

  /** Appending paths of the greatest length keeps an ordered queue ordered. */
  lemma OrderedAppend(r: seq<Entry>, added: seq<Entry>, a: nat, c: nat)
    requires Ordered(r) && Between(r, a, c) && Between(added, c, c) && a <= c
    ensures Ordered(r + added) && Between(r + added, a, c)
  {
    var q := r + added;
    forall i, j | 0 <= i < j < |q| ensures |q[i].path| <= |q[j].path| {
      if j < |r| {
        assert q[i] == r[i] && q[j] == r[j];
      } else {
        assert q[j] == added[j - |r|] && q[j] in added;
        if i < |r| {
          assert q[i] == r[i] && q[i] in r;
        } else {
          assert q[i] == added[i - |r|] && q[i] in added;
        }
      }
    }
    assert forall x :: x in q ==> x in r || x in added;
  }

  /** Taking the front entry and appending entries one level further keeps the levels in order. */
  lemma LevelsStep(q: seq<Entry>, added: seq<Entry>, lo: nat)
    requires Levels(q, lo) && q != []
    requires Between(added, lo + 1, lo + 1)
    ensures Levels(q[1..] + added, NextLevel(q, lo))
  {
    var q' := q[1..] + added;
    LevelsRest(q, lo);
    OrderedAppend(q[1..], added, NextLevel(q, lo), lo + 1);
    if q' != [] {
      if |q| > 1 {
        assert q'[0] == q[1..][0];
      } else {
        assert q'[0] == added[0];
      }
    }
  }

  /** The keys at the front level are the front entry's and those behind it; appending keeps them. */
  lemma LevelKeysFront(q: seq<Entry>, added: seq<Entry>, lo: nat)
    requires q != [] && |q[0].path| == lo
    ensures LevelKeys(q, lo) == {HashKey(q[0].board)} + LevelKeys(q[1..], lo)
    ensures LevelKeys(q[1..], lo) <= LevelKeys(q[1..] + added, lo)
  {
    assert q == [q[0]] + q[1..];
    assert forall x :: x in q <==> x == q[0] || x in q[1..];
  }

  /** When every queued path has `lo + 1` moves, none has `lo` and every key is at level `lo + 1`. */
  lemma LevelKeysNext(rest: seq<Entry>, added: seq<Entry>, lo: nat)
    requires Between(rest, lo + 1, lo + 1) && Between(added, lo + 1, lo + 1)
    ensures LevelKeys(rest, lo) == {}
    ensures QKeys(rest + added) == LevelKeys(rest + added, lo + 1)
  {
    assert forall x :: x in rest + added ==> x in rest || x in added;
  }

  /** Expanding the front entry extends `Shortest` to the next level. */
  lemma ShortestStep(s: Board, done: set<Key>, k0: Key, restLevel: set<Key>, lo: nat, lo': nat)
    requires Shortest(s, done, lo)
    requires forall q :: |q| <= lo && Run(s, q).Some? ==> HashKey(Run(s, q).value) in done + {k0} + restLevel
    requires lo' == lo || (lo' == lo + 1 && restLevel == {})
    ensures Shortest(s, done + {k0}, lo')
  {
  }

  /** A sequence of `n + 1` elements is its first `n` and then its last. */
  lemma Snoc<T>(q: seq<T>, n: nat)
    requires |q| == n + 1
    ensures q == q[..n] + [q[n]]
  {
  }

  /** One move from an expanded board leads to a seen key. */
  lemma OneMoreMove(s: Board, q0: seq<Dir>, d: Dir, visited: set<Key>)
    requires Run(s, q0).Some? && Expanded(s, HashKey(Run(s, q0).value), visited)
    requires Run(s, q0 + [d]).Some?
    ensures HashKey(Run(s, q0 + [d]).value) in visited
  {
    RunSnoc(s, q0, d);
    RunInSpace(s, q0);
  }

  /** Expanding the front entry extends `Frontline` to the next level. */
  lemma FrontlineStep(s: Board, done: set<Key>, visited: set<Key>, level: set<Key>,
                      restLevel: set<Key>, lo: nat, lo': nat)
    requires forall q :: |q| <= lo && Run(s, q).Some? ==> HashKey(Run(s, q).value) in done + restLevel
    requires lo' == lo || lo' == lo + 1
    requires lo' == lo ==> restLevel <= level
    requires lo' == lo + 1 ==>
               && restLevel == {} && visited == done + level
               && forall k :: k in done ==> Expanded(s, k, visited)
    ensures forall q :: |q| <= lo' && Run(s, q).Some? ==> HashKey(Run(s, q).value) in done + level
  {
    forall q | |q| <= lo' && Run(s, q).Some?
      ensures HashKey(Run(s, q).value) in done + level
    {
      if |q| > lo {
        var q0, d := q[..lo], q[lo];
        Snoc(q, lo);
        RunSnoc(s, q0, d);
        assert HashKey(Run(s, q0).value) in done;
        OneMoreMove(s, q0, d, visited);
      }
    }
  }

  /** Expanding an unsolved board reached from `s` expands its key. */
  lemma ExpandFront(s: Board, e: Entry, f: Frontier)
    requires Run(s, e.path) == Some(e.board) && !IsSolved(e.board)
    ensures Expanded(s, HashKey(e.board), Expand(e, PossibleMoves, f).visited)
  {
    RunInSpace(s, e.path);
    ExpandCovers(e, PossibleMoves, f);
    forall d: Dir ensures d in PossibleMoves {
      match d
      case Left => assert PossibleMoves[0] == d;
      case Right => assert PossibleMoves[1] == d;
      case Up => assert PossibleMoves[2] == d;
      case Down => assert PossibleMoves[3] == d;
    }
  }

  /** The frontier after expanding the front entry of `f`. */
  ghost function Step(f: Frontier): Frontier
    requires f.queue != []
  {
    Expand(f.queue[0], PossibleMoves, f.(queue := f.queue[1..]))
  }

  /** Expanding the front entry keeps the frontier tracked. */
  lemma StepTracked(s: Board, f: Frontier)
    requires Tracked(s, f) && f.queue != []
    ensures Tracked(s, Step(f))
  {
    var f0 := f.(queue := f.queue[1..]);
    assert f.queue[0] in f.queue;
    assert Tracked(s, f0);
    ExpandTracked(s, f.queue[0], PossibleMoves, f0);
  }

  /** Expanding `e` keeps the seen keys those of `e`, of `done` and of the queue. */
  lemma ExpandKeys(e: Entry, moves: seq<Dir>, f: Frontier, done: set<Key>)
    requires f.visited == done + {HashKey(e.board)} + QKeys(f.queue)
    ensures Expand(e, moves, f).visited == done + {HashKey(e.board)} + QKeys(Expand(e, moves, f).queue)
  {
    var added := ExpandShape(e, moves, f);
    QKeysConcat(f.queue, added);
  }

  /** Expanding the front entry keeps the seen keys those expanded or queued, the front's now expanded. */
  lemma StepKeys(f: Frontier, done: set<Key>)
    requires f.queue != [] && f.visited == done + QKeys(f.queue)
    ensures Step(f).visited == done + {HashKey(f.queue[0].board)} + QKeys(Step(f).queue)
  {
    var e, rest := f.queue[0], f.queue[1..];
    assert f.queue == [e] + rest;
    QKeysConcat([e], rest);
    assert QKeys([e]) == {HashKey(e.board)};
    ExpandKeys(e, PossibleMoves, f.(queue := rest), done);
  }

  /** Expanding the front entry keeps the frontier tracked and its seen keys those expanded or queued. */
  lemma StepVisited(s: Board, f: Frontier, done: set<Key>)
    requires Tracked(s, f) && f.queue != [] && HashKey(s) in f.visited
    requires f.visited == done + QKeys(f.queue)
    ensures Tracked(s, Step(f))
    ensures Step(f).visited == done + {HashKey(f.queue[0].board)} + QKeys(Step(f).queue)
    ensures HashKey(s) in Step(f).visited
  {
    StepTracked(s, f);
    StepKeys(f, done);
  }

  /** Expanding the front entry keeps every expanded key expanded, the front's included. */
  lemma StepExpanded(s: Board, f: Frontier, done: set<Key>, lo: nat)
    requires BfsInv(s, f, done, lo) && f.queue != [] && !IsSolved(f.queue[0].board)
    ensures forall k :: k in done + {HashKey(f.queue[0].board)} ==> Expanded(s, k, Step(f).visited)
  {
    var e := f.queue[0];
    var f0 := f.(queue := f.queue[1..]);
    assert Run(s, e.path) == Some(e.board);
    ExpandFront(s, e, f0);
    forall k | k in done ensures Expanded(s, k, Step(f).visited) {
      ExpandedMono(s, k, f.visited, Step(f).visited);
    }
  }

  /** Expanding the front entry moves the level invariants to the next level. */
  lemma StepLevels(s: Board, f: Frontier, done: set<Key>, lo: nat)
    requires BfsInv(s, f, done, lo) && f.queue != [] && !IsSolved(f.queue[0].board)
    requires Step(f).visited == done + {HashKey(f.queue[0].board)} + QKeys(Step(f).queue)
    requires forall k :: k in done + {HashKey(f.queue[0].board)} ==> Expanded(s, k, Step(f).visited)
    ensures var done', lo' := done + {HashKey(f.queue[0].board)}, NextLevel(f.queue, lo);
            && Levels(Step(f).queue, lo')
            && Shortest(s, done', lo')
            && Frontline(s, done', Step(f).queue, lo')
  {
    var e, rest := f.queue[0], f.queue[1..];
    var f0 := f.(queue := rest);
    var added := ExpandShape(e, PossibleMoves, f0);
    var done', lo' := done + {HashKey(e.board)}, NextLevel(f.queue, lo);
    assert |e.path| == lo;
    assert Between(added, lo + 1, lo + 1);
    LevelsStep(f.queue, added, lo);
    LevelKeysFront(f.queue, added, lo);
    if lo' == lo + 1 {
      LevelsRest(f.queue, lo);
      LevelKeysNext(rest, added, lo);
    }
    ShortestStep(s, done, HashKey(e.board), LevelKeys(rest, lo), lo, lo');
    FrontlineStep(s, done', Step(f).visited, LevelKeys(Step(f).queue, lo'), LevelKeys(rest, lo), lo, lo');
  }

  /** Expanding the unsolved front entry keeps the invariant, with its key expanded. */
  lemma StepInv(s: Board, f: Frontier, done: set<Key>, lo: nat)
    requires BfsInv(s, f, done, lo) && f.queue != [] && !IsSolved(f.queue[0].board)
    ensures BfsInv(s, Step(f), done + {HashKey(f.queue[0].board)}, NextLevel(f.queue, lo))
  {
    StepVisited(s, f, done);
    StepExpanded(s, f, done, lo);
    StepLevels(s, f, done, lo);
  }

  /** Under the invariant, the rest of the search returns a correct answer. */
  lemma {:induction false} BfsLoopCorrect(s: Board, f: Frontier, expanded: nat, done: set<Key>, lo: nat)
    requires BfsInv(s, f, done, lo)
    ensures Correct(s, BfsLoop(s, f, expanded).path)
    decreases |Space(s) - f.visited|, |f.queue|
  {
    if f.queue == [] {
      forall q | Run(s, q).Some? ensures !IsSolved(Run(s, q).value) {
        ReachClosed(s, done, q);
        RunInSpace(s, q);
      }
    } else {
      var e := f.queue[0];
      if IsSolved(e.board) {
        assert |e.path| == lo;
        forall q | Solves(s, q) ensures |e.path| <= |q| {
          RunInSpace(s, q);
        }
      } else {
        var rest := f.(queue := f.queue[1..]);
        var f' := Expand(e, PossibleMoves, rest);
        StepInv(s, f, done, lo);
        assert f' == Step(f);
        assert Tracked(s, rest);
        ExpandTracked(s, e, PossibleMoves, rest);
        FewerUnseen(Space(s), f.visited, f'.visited);
        BfsLoopCorrect(s, f', expanded + 1, done + {HashKey(e.board)}, NextLevel(f.queue, lo));
      }
    }
  }

  /** The invariant holds at the start: only the start board is queued, with no moves. */
  lemma InitialInv(s: Board)
    ensures BfsInv(s, Initial(s), {}, 0)
  {
    var f := Initial(s);
    assert forall x :: x in f.queue ==> x == Entry(s, []);
    assert LevelKeys(f.queue, 0) == {HashKey(s)};
    assert QKeys(f.queue) == {HashKey(s)};
    forall q | |q| <= 0 && Run(s, q).Some?
      ensures HashKey(Run(s, q).value) in {} + LevelKeys(f.queue, 0)
    {
      assert q == [];
    }
  }

  /**
   * Breadth-first search is correct: a returned path solves the puzzle and
   * none is shorter; when no path is returned, no path solves it.
   */
  lemma SearchCorrect(s: Board)
    ensures Correct(s, Search(s).path)
  {
    InitialInv(s);
    BfsLoopCorrect(s, Initial(s), 0, {}, 0);
  }

  /** A start that is already solved gets the empty path: no move is needed. */
  lemma SolvedStartEmptyPath(s: Board)
    requires IsSolved(s)
    ensures Search(s).path == Some([])
  {
    SearchCorrect(s);
    assert Solves(s, []);
  }

  /** A start that is not solved gets no path or a path of at least one move. */
  lemma UnsolvedStartMoves(s: Board)
    requires !IsSolved(s)
    ensures Search(s).path.Some? ==> Search(s).path.value != []
  {
    SearchCorrect(s);
  }

  /** No key is queued twice, and every queued key has been seen. */
  ghost predicate Unique(f: Frontier)
  {
    && (forall i, j :: 0 <= i < j < |f.queue| ==> HashKey(f.queue[i].board) != HashKey(f.queue[j].board))
    && (forall i :: 0 <= i < |f.queue| ==> HashKey(f.queue[i].board) in f.visited)
  }

  /** A board is queued only under a key not seen before, which it then marks seen. */
  lemma OfferUnique(e: Entry, d: Dir, f: Frontier)
    requires Unique(f)
    ensures Unique(Offer(e, d, f))
  {
    var r := Offer(e, d, f);
    if r.queue != f.queue {
      var n := Slide(d, e.board).value;
      assert r.queue == f.queue + [Entry(n, e.path + [d])] && HashKey(n) !in f.visited;
    }
  }

  lemma {:induction false} ExpandUnique(e: Entry, moves: seq<Dir>, f: Frontier)
    requires Unique(f)
    ensures Unique(Expand(e, moves, f))
    decreases |moves|
  {
    if moves != [] {
      OfferUnique(e, moves[0], f);
      ExpandUnique(e, moves[1..], Offer(e, moves[0], f));
    }
  }

  /** The search starts with one queued key, marked seen. */
  lemma InitialUnique(s: Board)
    ensures Unique(Initial(s))
  {
  }

  /** Expanding the front entry never queues a key a second time. */
  lemma StepUnique(f: Frontier)
    requires f.queue != [] && Unique(f)
    ensures Unique(Step(f))
  {
    var rest := f.(queue := f.queue[1..]);
    assert Unique(rest) by {
      forall i, j | 0 <= i < j < |rest.queue|
        ensures HashKey(rest.queue[i].board) != HashKey(rest.queue[j].board)
      {
        assert rest.queue[i] == f.queue[i + 1] && rest.queue[j] == f.queue[j + 1];
      }
    }
    ExpandUnique(f.queue[0], PossibleMoves, rest);
  }

  /** One round of the search loop, which stops at an empty queue or a solved front. */
  ghost function Iteration(f: Frontier): Frontier
  {
    if f.queue == [] || IsSolved(f.queue[0].board) then f else Step(f)
  }

  /** `next` applied `k` times to `x`. */
  ghost function Iterate<T>(next: T -> T, x: T, k: nat): T
  {
    if k == 0 then x else next(Iterate(next, x, k - 1))
  }

  /** One more application of `next` applies it to the result so far. */
  lemma IterateSucc<T>(next: T -> T, x: T, j: nat)
    ensures Iterate(next, x, j + 1) == next(Iterate(next, x, j))
  {
  }

  /** A property every application of `next` keeps holds after any number of them. */
  lemma {:induction false} IterateKeeps<T>(next: T -> T, inv: T -> bool, x: T, k: nat)
    requires inv(x)
    requires forall y :: inv(y) ==> inv(next(y))
    ensures inv(Iterate(next, x, k))
  {
    if k > 0 {
      IterateKeeps(next, inv, x, k - 1);
    }
  }

  /** The frontier after `k` rounds of the search loop. */
  ghost function Rounds(f: Frontier, k: nat): Frontier
  {
    Iterate(Iteration, f, k)
  }

  /** A round of the loop keeps the queue free of repeated keys. */
  lemma IterationUnique(f: Frontier)
    requires Unique(f)
    ensures Unique(Iteration(f))
  {
    if f.queue != [] && !IsSolved(f.queue[0].board) {
      StepUnique(f);
    }
  }

  /** Rounds of the loop keep the queue free of repeated keys. */
  lemma RoundsUnique(f: Frontier, k: nat)
    requires Unique(f)
    ensures Unique(Rounds(f, k))
  {
    forall g | Unique(g)
      ensures Unique(Iteration(g))
    {
      IterationUnique(g);
    }
    IterateKeeps(Iteration, Unique, f, k);
  }

  /** Every frontier the search reaches queues no key twice, and only keys already seen. */
  lemma SearchUnique(s: Board, k: nat)
    ensures Unique(Rounds(Initial(s), k))
  {
    InitialUnique(s);
    RoundsUnique(Initial(s), k);
  }
}
