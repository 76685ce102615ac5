/**
 * The metrics collector of a search: wall-clock start and end, the peak
 * traced memory and the number of states taken off the queue. Clock
 * readings and memory samples are passed in.
 */
module Metrics {
  import opened Wrappers

  /** The larger of two integers. */
  function Max(a: int, b: int): (m: int)
    ensures m >= a && m >= b && (m == a || m == b)
  {
    if a >= b then a else b
  }

  /**
   * The peak after sampling `memory(k)` for every `k` from `from` up to
   * `to`, starting from `peak`.
   */
  function Peak(peak: int, memory: nat -> nat, from: nat, to: nat): (r: int)
    ensures r >= peak
    ensures forall k :: from <= k < to ==> r >= memory(k)
    ensures r == peak || (exists k :: from <= k < to && r == memory(k))
    decreases if from <= to then to - from else 0
  {
    if from >= to then peak else Peak(Max(peak, memory(from)), memory, from + 1, to)
  }

  /** The dictionary `get_metrics` returns. */
  datatype Report = Report(
    time: real,
    memory: int,
    statesGenerated: nat,
    solutionMoves: Option<int>,
    optimalMoves: Option<int>,
    differenceFromOptimal: Option<int>)

  class MetricsCollector {
    var startTime: real
    var endTime: real
    var maxMemory: int
    var statesGenerated: nat

    constructor ()
      ensures startTime == 0.0 && endTime == 0.0 && maxMemory == 0 && statesGenerated == 0
    {
      startTime := 0.0;
      endTime := 0.0;
      maxMemory := 0;
      statesGenerated := 0;
    }

    /** Records the clock reading `now` as the start. */
    method Start(now: real)
      modifies this
      ensures startTime == now
      ensures endTime == old(endTime) && maxMemory == old(maxMemory) && statesGenerated == old(statesGenerated)
    {
      startTime := now;
    }

    /** Records the clock reading `now` as the end. */
    method Stop(now: real)
      modifies this
      ensures endTime == now
      ensures startTime == old(startTime) && maxMemory == old(maxMemory) && statesGenerated == old(statesGenerated)
    {
      endTime := now;
    }

    /** Counts one more state and folds the traced memory `current` into the peak. */
    method TrackState(current: nat)
      modifies this
      ensures statesGenerated == old(statesGenerated) + 1
      ensures maxMemory == Max(old(maxMemory), current)
      ensures startTime == old(startTime) && endTime == old(endTime)
    {
      statesGenerated := statesGenerated + 1;
      maxMemory := Max(maxMemory, current);
    }

    /**
     * The report. The difference from the optimum is absent when there is no
     * solution or it is empty (Python's truthiness of 0); subtracting a
     * missing optimum from a solution raises `TypeError`.
     */
    function GetMetrics(solutionMoves: Option<int>, optimalMoves: Option<int>): (r: Result<Report>)
      reads this
      ensures r.Err? <==> solutionMoves.Some? && solutionMoves.value != 0 && optimalMoves.None?
      ensures r.Ok? ==>
        && r.value.time == endTime - startTime
        && r.value.memory == maxMemory
        && r.value.statesGenerated == statesGenerated
        && r.value.solutionMoves == solutionMoves
        && r.value.optimalMoves == optimalMoves
        && (r.value.differenceFromOptimal.Some? <==> solutionMoves.Some? && solutionMoves.value != 0)
        && (r.value.differenceFromOptimal.Some? ==>
              r.value.differenceFromOptimal.value + optimalMoves.value == solutionMoves.value)
    {
      if solutionMoves.Some? && solutionMoves.value != 0 then
        if optimalMoves.None? then Err("TypeError")
        else
          Ok(Report(endTime - startTime, maxMemory, statesGenerated, solutionMoves, optimalMoves,
                    Some(solutionMoves.value - optimalMoves.value)))
      else
        Ok(Report(endTime - startTime, maxMemory, statesGenerated, solutionMoves, optimalMoves, None))
    }
  }

  /** Tracking states up to `mid` and then up to `to` is tracking them all at once. */
  lemma {:induction false} PeakSplit(peak: int, memory: nat -> nat, from: nat, mid: nat, to: nat)
    requires from <= mid <= to
    ensures Peak(peak, memory, from, to) == Peak(Peak(peak, memory, from, mid), memory, mid, to)
    decreases mid - from
  {
    if from < mid {
      PeakSplit(Max(peak, memory(from)), memory, from + 1, mid, to);
    }
  }
}
