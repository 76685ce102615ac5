/**
 * The breadth-first `solve` loop: a queue of game states with the names of
 * the moves that reached them, a set of seen keys, and the metrics
 * collector it reports to. Proved equal to the functional search.
 */
module SearchAlgorithm {
  import opened Wrappers
  import opened GameStates
  import opened Moves
  import opened Reach
  import opened BfsSpec
  import opened BfsCorrect
  import opened Metrics

  /** The class names of the moves of `path`. */
  function Names(path: seq<Dir>): (names: seq<string>)
    ensures |names| == |path|
  {
    if path == [] then [] else Names(path[..|path| - 1]) + [MoveName(path[|path| - 1])]
  }

  lemma NamesSnoc(path: seq<Dir>, d: Dir)
    ensures Names(path + [d]) == Names(path) + [MoveName(d)]
  {
    assert (path + [d])[..|path|] == path;
  }

  /** The `i`-th name is the class name of the `i`-th move. */
  lemma {:induction false} NamesAt(path: seq<Dir>, i: nat)
    requires i < |path|
    ensures Names(path)[i] == MoveName(path[i])
    decreases |path|
  {
    if i < |path| - 1 {
      NamesAt(path[..|path| - 1], i);
    }
  }

  /** The names of a found path, if any. */
  function NamesOf(path: Option<seq<Dir>>): (r: Option<seq<string>>)
    ensures r.Some? <==> path.Some?
    ensures r.Some? ==> r.value == Names(path.value)
  {
    match path
    case None => None
    case Some(p) => Some(Names(p))
  }

  /** The concrete queue holds the boards and the move names of the functional queue, all sharing `h`. */
  ghost predicate Mirrors(queue: seq<(GameState, seq<string>)>, entries: seq<Entry>, h: History)
  {
    && |queue| == |entries|
    && forall i :: 0 <= i < |queue| ==>
         queue[i].0 == GameState(entries[i].board, h) && queue[i].1 == Names(entries[i].path)
  }

  /** What the metrics collector `mc` holds after `n` more states were tracked from `before`. */
  ghost predicate Counted(mc: MetricsCollector, count0: nat, peak0: int, start0: real, end0: real,
                          memory: nat -> nat, n: nat)
    reads mc
  {
    && mc.statesGenerated == count0 + n
    && mc.maxMemory == Peak(peak0, memory, count0, mc.statesGenerated)
    && mc.startTime == start0 && mc.endTime == end0
  }

  /** Queuing a mirrored entry keeps the queues mirrored. */
  lemma MirrorsSnoc(queue: seq<(GameState, seq<string>)>, entries: seq<Entry>, h: History,
                    x: (GameState, seq<string>), en: Entry)
    requires Mirrors(queue, entries, h)
    requires x.0 == GameState(en.board, h) && x.1 == Names(en.path)
    ensures Mirrors(queue + [x], entries + [en], h)
  {
  }

  /**
   * One round of the `for move in ...` loop of `BFS.solve`: a successful move
   * is logged in the shared history, and its state is queued with one more
   * move name unless its key was seen.
   */
  method TryMove(current: GameState, names: seq<string>, d: Dir, queue: seq<(GameState, seq<string>)>,
                 visited: set<Key>, ghost e: Entry, ghost r: Frontier, ghost log0: seq<string>)
    returns (queue': seq<(GameState, seq<string>)>, visited': set<Key>)
    requires current == GameState(e.board, current.history) && names == Names(e.path)
    requires Mirrors(queue, r.queue, current.history) && visited == r.visited
    requires current.history.entries == log0 + Names(r.log)
    modifies current.history
    ensures Mirrors(queue', Offer(e, d, r).queue, current.history)
    ensures visited' == Offer(e, d, r).visited
    ensures current.history.entries == log0 + Names(Offer(e, d, r).log)
  {
    queue', visited' := queue, visited;
    var next := Apply(d, current);
    if next.Some? {
      NamesSnoc(r.log, d);
      ConcatAssoc(log0, Names(r.log), [MoveName(d)]);
      var key := HashKey(next.value.board);
      if key !in visited {
        visited' := visited + {key};
        NamesSnoc(e.path, d);
        MirrorsSnoc(queue, r.queue, current.history, (next.value, names + [MoveName(d)]),
                    Entry(next.value.board, e.path + [d]));
        queue' := queue + [(next.value, names + [MoveName(d)])];
      }
    }
  }

  /**
   * The `for move in ...` loop of `BFS.solve` on the state taken off the
   * queue, trying the moves in the order of `POSSIBLE_MOVES`.
   */
  method TryMoves(current: GameState, names: seq<string>, queue: seq<(GameState, seq<string>)>,
                  visited: set<Key>, ghost e: Entry, ghost g: Frontier, ghost log0: seq<string>)
    returns (queue': seq<(GameState, seq<string>)>, visited': set<Key>)
    requires current == GameState(e.board, current.history) && names == Names(e.path)
    requires Mirrors(queue, g.queue, current.history) && visited == g.visited
    requires current.history.entries == log0 + Names(g.log)
    modifies current.history
    ensures Mirrors(queue', Expand(e, PossibleMoves, g).queue, current.history)
    ensures visited' == Expand(e, PossibleMoves, g).visited
    ensures current.history.entries == log0 + Names(Expand(e, PossibleMoves, g).log)
  {
    queue', visited' := queue, visited;
    ghost var r := g;
    var i := 0;
    while i < |PossibleMoves|
      invariant 0 <= i <= |PossibleMoves|
      invariant Expand(e, PossibleMoves[i..], r) == Expand(e, PossibleMoves, g)
      invariant Mirrors(queue', r.queue, current.history) && visited' == r.visited
      invariant current.history.entries == log0 + Names(r.log)
    {
      assert PossibleMoves[i..][1..] == PossibleMoves[i + 1..];
      queue', visited' := TryMove(current, names, PossibleMoves[i], queue', visited', e, r, log0);
      r := Offer(e, PossibleMoves[i], r);
      i := i + 1;
    }
  }

  /** The rest of the concrete queue mirrors the rest of the functional queue. */
  lemma MirrorsTail(queue: seq<(GameState, seq<string>)>, entries: seq<Entry>, h: History)
    requires Mirrors(queue, entries, h) && queue != []
    ensures queue[0].0 == GameState(entries[0].board, h) && queue[0].1 == Names(entries[0].path)
    ensures Mirrors(queue[1..], entries[1..], h)
  {
    forall i | 0 <= i < |queue| - 1
      ensures queue[1..][i].0 == GameState(entries[1..][i].board, h)
      ensures queue[1..][i].1 == Names(entries[1..][i].path)
    {
      assert queue[1..][i] == queue[i + 1] && entries[1..][i] == entries[i + 1];
    }
  }

  /** One round of the search loop on an unsolved front: the outcome is unchanged and the measure drops. */
  lemma Advance(s: Board, f: Frontier, expanded: nat)
    requires Tracked(s, f) && f.queue != [] && !IsSolved(f.queue[0].board)
    ensures Tracked(s, Step(f))
    ensures BfsLoop(s, f, expanded) == BfsLoop(s, Step(f), expanded + 1)
    ensures |Space(s) - Step(f).visited| < |Space(s) - f.visited| ||
            (Step(f).visited == f.visited && |Step(f).queue| < |f.queue|)
  {
    var g := f.(queue := f.queue[1..]);
    assert Tracked(s, g);
    ExpandTracked(s, f.queue[0], PossibleMoves, g);
    FewerUnseen(Space(s), f.visited, Step(f).visited);
  }

  /** The loop goes on from `f`: its queue is not empty and its front is not solved. */
  ghost predicate Continues(f: Frontier)
  {
    f.queue != [] && !IsSolved(f.queue[0].board)
  }

  /** A round from a frontier the loop goes on from is one `Step`. */
  lemma RoundsStep(s: Board, j: nat, k: nat)
    requires k == j + 1 && Continues(Rounds(Initial(s), j))
    ensures Rounds(Initial(s), k) == Step(Rounds(Initial(s), j))
  {
    IterateSucc(Iteration, Initial(s), j);
  }

  /**
   * The frontiers the loop recurses on are the rounds of the loop from the
   * start: while no earlier round has stopped, the `k`-th round is tracked,
   * and the loop from it, with `k` states expanded, gives the search's outcome.
   */
  lemma {:induction false} LoopVisitsRounds(s: Board, k: nat)
    requires forall j :: 0 <= j < k ==> Continues(Rounds(Initial(s), j))
    ensures Tracked(s, Rounds(Initial(s), k))
    ensures BfsLoop(s, Rounds(Initial(s), k), k) == Search(s)
  {
    if k > 0 {
      var k' := k - 1;
      LoopVisitsRounds(s, k');
      var f := Rounds(Initial(s), k');
      assert Continues(f);
      Advance(s, f, k');
      RoundsStep(s, k', k);
    } else {
      assert Rounds(Initial(s), k) == Initial(s);
    }
  }

  /** `track_state` on a collector that has counted `n` states since `count0`. */
  method Track(mc: MetricsCollector, memory: nat -> nat, ghost count0: nat, ghost peak0: int,
               ghost start0: real, ghost end0: real, ghost n: nat)
    requires Counted(mc, count0, peak0, start0, end0, memory, n)
    modifies mc
    ensures Counted(mc, count0, peak0, start0, end0, memory, n + 1)
  {
    PeakSplit(peak0, memory, count0, mc.statesGenerated, mc.statesGenerated + 1);
    mc.TrackState(memory(mc.statesGenerated));
  }

  /**
   * The loop invariant of `BFS.solve`: the concrete queue and seen keys are
   * those of the functional frontier `f`, whose remaining search is the
   * search from `s`, and the history holds the moves tried so far.
   */
  ghost predicate Mirrored(s: Board, f: Frontier, expanded: nat, queue: seq<(GameState, seq<string>)>,
                           visited: set<Key>, h: History, log0: seq<string>)
    reads h
  {
    && Tracked(s, f)
    && Mirrors(queue, f.queue, h) && visited == f.visited
    && BfsLoop(s, f, expanded) == Search(s)
    && h.entries == log0 + Names(f.log)
  }

  /** The loop starts with the start state on an empty path, its key seen and nothing logged. */
  lemma MirroredInitially(start: GameState)
    ensures Mirrored(start.board, Initial(start.board), 0, [(start, [])], {HashKey(start.board)},
                     start.history, start.history.entries)
  {
    assert Names([]) == [];
    assert start.history.entries + [] == start.history.entries;
  }

  /**
   * Where the loop stops: at an empty queue with no path, or at a solved
   * front state with its path; either way with everything logged.
   */
  lemma MirroredStops(s: Board, f: Frontier, expanded: nat, queue: seq<(GameState, seq<string>)>,
                      visited: set<Key>, h: History, log0: seq<string>)
    requires Mirrored(s, f, expanded, queue, visited, h, log0)
    requires queue == [] || IsSolved(queue[0].0.board)
    ensures NamesOf(Search(s).path) == if queue == [] then None else Some(queue[0].1)
    ensures h.entries == log0 + Names(Search(s).log)
    ensures Search(s).expanded == if queue == [] then expanded else expanded + 1
  {
    if queue != [] {
      MirrorsTail(queue, f.queue, h);
    }
  }

  /** The metrics collector, if any, has tracked `n` states since the loop began. */
  ghost predicate Metered(mc: MetricsCollector?, m0: (nat, int, real, real), memory: nat -> nat, n: nat)
    reads mc
  {
    mc != null ==> Counted(mc, m0.0, m0.1, m0.2, m0.3, memory, n)
  }

  /** One round of the loop on an unsolved front state: pop it, track it, and try the four moves. */
  method Round(queue: seq<(GameState, seq<string>)>, visited: set<Key>, h: History,
               mc: MetricsCollector?, memory: nat -> nat,
               ghost s: Board, ghost f: Frontier, ghost expanded: nat, ghost log0: seq<string>,
               ghost m0: (nat, int, real, real))
    returns (queue': seq<(GameState, seq<string>)>, visited': set<Key>)
    requires Mirrored(s, f, expanded, queue, visited, h, log0) && Metered(mc, m0, memory, expanded)
    requires queue != [] && !IsSolved(queue[0].0.board)
    modifies h, mc
    ensures f.queue != [] && Mirrored(s, Step(f), expanded + 1, queue', visited', h, log0)
    ensures Metered(mc, m0, memory, expanded + 1)
    ensures |Space(s) - Step(f).visited| < |Space(s) - f.visited| ||
            (Step(f).visited == f.visited && |Step(f).queue| < |f.queue|)
  {
    MirrorsTail(queue, f.queue, h);
    var current, names := queue[0].0, queue[0].1;
    if mc != null {
      Track(mc, memory, m0.0, m0.1, m0.2, m0.3, expanded);
    }
    queue', visited' := TryMoves(current, names, queue[1..], visited, f.queue[0], f.(queue := f.queue[1..]), log0);
    Advance(s, f, expanded);
  }

  /** The end of the loop: no path at an empty queue, else the solved front state, tracked, and its path. */
  method Finish(queue: seq<(GameState, seq<string>)>, visited: set<Key>, h: History,
                mc: MetricsCollector?, memory: nat -> nat,
                ghost s: Board, ghost f: Frontier, ghost expanded: nat, ghost log0: seq<string>,
                ghost m0: (nat, int, real, real))
    returns (path: Option<seq<string>>)
    requires Mirrored(s, f, expanded, queue, visited, h, log0) && Metered(mc, m0, memory, expanded)
    requires queue == [] || IsSolved(queue[0].0.board)
    modifies mc
    ensures path == NamesOf(Search(s).path)
    ensures h.entries == log0 + Names(Search(s).log)
    ensures Metered(mc, m0, memory, Search(s).expanded)
  {
    MirroredStops(s, f, expanded, queue, visited, h, log0);
    if queue == [] {
      path := None;
    } else {
      if mc != null {
        Track(mc, memory, m0.0, m0.1, m0.2, m0.3, expanded);
      }
      path := Some(queue[0].1);
    }
  }

  /**
   * The `while queue` loop of `BFS.solve`. Every successful move is appended
   * to the history shared by all states; each state taken off the queue is
   * tracked by `mc` (when given) with the memory sample `memory(k)`, `k` the
   * count so far.
   */
  method SearchLoop(start: GameState, mc: MetricsCollector?, memory: nat -> nat)
    returns (path: Option<seq<string>>)
    modifies start.history, mc
    ensures path == NamesOf(Search(start.board).path)
    ensures start.history.entries == old(start.history.entries) + Names(Search(start.board).log)
    ensures mc != null ==>
              Counted(mc, old(mc.statesGenerated), old(mc.maxMemory), old(mc.startTime), old(mc.endTime),
                      memory, Search(start.board).expanded)
  {
    var s := start.board;
    var h := start.history;
    var queue: seq<(GameState, seq<string>)> := [(start, [])];
    var visited := {HashKey(s)};
    ghost var f := Initial(s);
    ghost var expanded: nat := 0;
    ghost var log0 := h.entries;
    ghost var m0 := if mc != null then (mc.statesGenerated, mc.maxMemory, mc.startTime, mc.endTime)
                    else (0, 0, 0.0, 0.0);
    MirroredInitially(start);
    while queue != [] && !IsSolved(queue[0].0.board)
      invariant Mirrored(s, f, expanded, queue, visited, h, log0) && Metered(mc, m0, memory, expanded)
      decreases |Space(s) - f.visited|, |f.queue|
    {
      queue, visited := Round(queue, visited, h, mc, memory, s, f, expanded, log0, m0);
      f := Step(f);
      expanded := expanded + 1;
    }
    path := Finish(queue, visited, h, mc, memory, s, f, expanded, log0, m0);
  }

  /** `BFS`: a search from `initialState` reporting to its own metrics collector. */
  class Bfs {
    const initialState: GameState
    const metricsCollector: MetricsCollector

    constructor (initialState: GameState)
      ensures this.initialState == initialState
      ensures fresh(metricsCollector)
      ensures metricsCollector.startTime == 0.0 && metricsCollector.endTime == 0.0
      ensures metricsCollector.maxMemory == 0 && metricsCollector.statesGenerated == 0
    {
      this.initialState := initialState;
      metricsCollector := new MetricsCollector();
    }

    /**
     * `solve`: the shortest solution as move names with its length, or
     * `None` for both when the level cannot be solved. The clock is read at
     * `startClock` and `stopClock`.
     */
    method Solve(startClock: real, stopClock: real, memory: nat -> nat)
      returns (path: Option<seq<string>>, length: Option<nat>)
      modifies initialState.history, metricsCollector
      ensures path == NamesOf(Search(initialState.board).path)
      ensures length.Some? <==> path.Some?
      ensures length.Some? ==> length.value == |path.value|
      ensures initialState.history.entries ==
              old(initialState.history.entries) + Names(Search(initialState.board).log)
      ensures metricsCollector.startTime == startClock && metricsCollector.endTime == stopClock
      ensures metricsCollector.statesGenerated ==
              old(metricsCollector.statesGenerated) + Search(initialState.board).expanded
      ensures metricsCollector.maxMemory ==
              Peak(old(metricsCollector.maxMemory), memory, old(metricsCollector.statesGenerated),
                   metricsCollector.statesGenerated)
    {
      metricsCollector.Start(startClock);
      path := SearchLoop(initialState, metricsCollector, memory);
      metricsCollector.Stop(stopClock);
      length := if path.Some? then Some(|path.value|) else None;
    }
  }
}
