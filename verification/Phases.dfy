/** Indexed provision phases on a host, and the loop that runs them. */
module Phases {
  import opened Text

  /** What happened on the host, in order. */
  datatype Entry = Started(phase: nat) | Succeeded(phase: nat)

  /** The phases that succeeded after the last start of phase 0, Cleanup. */
  function Since(log: seq<Entry>): (done: set<nat>) {
    if log == [] then {}
    else
      var init, last := log[..|log| - 1], log[|log| - 1];
      if last.Succeeded? then Since(init) + {last.phase} else if last.phase == 0 then {} else Since(init)
  }

  /** Phases 0 to n, n included, succeeded since the last Cleanup. */
  predicate DoneUpTo(log: seq<Entry>, n: int) {
    forall i: nat | i <= n :: i in Since(log)
  }

  /** No phase ever started before all earlier ones had succeeded. */
  ghost predicate NoSkip(log: seq<Entry>) {
    forall k | 0 <= k < |log| && log[k].Started? :: DoneUpTo(log[..k], log[k].phase - 1)
  }

  lemma SinceAppend(log: seq<Entry>, e: Entry)
    ensures Since(log + [e]) ==
      if e.Succeeded? then Since(log) + {e.phase} else if e.phase == 0 then {} else Since(log)
  {
    assert (log + [e])[..|log|] == log;
  }

  lemma NoSkipAppend(log: seq<Entry>, e: Entry)
    requires NoSkip(log) && (e.Started? ==> DoneUpTo(log, e.phase - 1))
    ensures NoSkip(log + [e])
  {
    forall k | 0 <= k < |log + [e]| && (log + [e])[k].Started?
      ensures DoneUpTo((log + [e])[..k], (log + [e])[k].phase - 1)
    {
      assert (log + [e])[..k] == log[..k];
      assert k == |log| ==> log[..k] == log;
    }
  }

  // ── The persisted index ──────────────────────────────────────────────────

  /** The last completed phase an annotation names; -1 when it is absent or cleared. */
  function Index(last: Option<int>): int {
    if last.Some? then last.value else -1
  }

  /** Where a run resumes. */
  function StartPhase(last: Option<int>): (n: nat) {
    if last.Some? && last.value >= 0 then last.value + 1 else 0
  }

  // ── Running them ─────────────────────────────────────────────────────────

  type Steps = seq<string>

  /** The phases from `start` up to `stop`, run without a failure. */
  function Trace(start: nat, stop: nat): (r: seq<Entry>)
    requires start <= stop
  {
    if start == stop then [] else Trace(start, stop - 1) + [Started(stop - 1), Succeeded(stop - 1)]
  }

  function Interval(start: nat, stop: nat): (r: seq<nat>)
    requires start <= stop
    ensures |r| == stop - start && forall i | 0 <= i < |r| :: r[i] == start + i
  {
    seq(stop - start, i requires 0 <= i < stop - start => start + i)
  }

  /** `broken`: which command of which phase fails. */
  predicate Breaks(phases: seq<Steps>, i: nat, broken: set<(nat, nat)>)
    requires i < |phases|
  {
    exists j | 0 <= j < |phases[i]| :: (i, j) in broken
  }

  /** The phase a run from `start` ends at: the first one that breaks, else the end. */
  ghost predicate EndsAt(phases: seq<Steps>, start: nat, broken: set<(nat, nat)>, stop: nat) {
    && start <= stop
    && (forall i | start <= i < stop && i < |phases| :: !Breaks(phases, i, broken))
    && (if stop < |phases| then Breaks(phases, stop, broken) else stop == |phases| || stop == start)
  }

  /** A run gets to the end exactly when no command of the phases it was to run fails. */
  lemma RunsThroughIff(phases: seq<Steps>, start: nat, broken: set<(nat, nat)>, stop: nat)
    requires EndsAt(phases, start, broken, stop)
    ensures stop >= |phases| <==>
      forall i, j | start <= i < |phases| && 0 <= j < |phases[i]| :: (i, j) !in broken
  {
    if stop < |phases| {
      var j :| 0 <= j < |phases[stop]| && (stop, j) in broken;
    } else {
      forall i, j | start <= i < |phases| && 0 <= j < |phases[i]|
        ensures (i, j) !in broken
      {
        assert !Breaks(phases, i, broken);
      }
    }
  }

  class Host {
    var log: seq<Entry>
    var reports: seq<nat>              // what the progress callback was called with

    constructor ()
      ensures log == [] && reports == []
    {
      log, reports := [], [];
    }

    method RunPhase(i: nat, steps: Steps, broken: set<(nat, nat)>) returns (ok: bool)
      modifies this`log
      ensures ok <==> !exists j | 0 <= j < |steps| :: (i, j) in broken
      ensures log == old(log) + [Started(i)] + if ok then [Succeeded(i)] else []
    {
      log := log + [Started(i)];
      for j := 0 to |steps|
        invariant forall k | 0 <= k < j :: (i, k) !in broken
        invariant log == old(log) + [Started(i)]
      {
        if (i, j) in broken {
          return false;
        }
      }
      log := log + [Succeeded(i)];
      return true;
    }

    /** Runs every phase from `startPhase` on up to the first failure, in order, and reports each
      * one that succeeded. */
    method RunPhases(phases: seq<Steps>, startPhase: nat, broken: set<(nat, nat)>) returns (ok: bool, ghost stop: nat)
      modifies this
      ensures EndsAt(phases, startPhase, broken, stop)
      ensures ok <==> stop >= |phases|
      ensures log == old(log) + Trace(startPhase, stop) + if ok then [] else [Started(stop)]
      ensures reports == old(reports) + Interval(startPhase, stop)
    {
      stop := startPhase;
      for i := 0 to |phases|
        invariant stop == if i < startPhase then startPhase else i
        invariant forall k | startPhase <= k < i :: !Breaks(phases, k, broken)
        invariant log == old(log) + Trace(startPhase, stop)
        invariant reports == old(reports) + Interval(startPhase, stop)
      {
        if i < startPhase {
          continue;
        }
        ok := RunPhase(i, phases[i], broken);
        if !ok {
          return false, stop;
        }
        reports := reports + [i];
        stop := i + 1;
        assert Trace(startPhase, i + 1) == Trace(startPhase, i) + [Started(i), Succeeded(i)];
      }
      return true, stop;
    }
  }

  lemma {:induction false} TraceDone(log: seq<Entry>, start: nat, stop: nat)
    requires start <= stop && DoneUpTo(log, start - 1) && NoSkip(log)
    ensures DoneUpTo(log + Trace(start, stop), stop - 1) && NoSkip(log + Trace(start, stop))
    decreases stop
  {
    if start == stop {
      assert log + [] == log;
    } else {
      TraceDone(log, start, stop - 1);
      var a := log + Trace(start, stop - 1);
      SinceAppend(a, Started(stop - 1));
      NoSkipAppend(a, Started(stop - 1));
      var b := a + [Started(stop - 1)];
      SinceAppend(b, Succeeded(stop - 1));
      NoSkipAppend(b, Succeeded(stop - 1));
      assert b + [Succeeded(stop - 1)] == log + Trace(start, stop);
    }
  }
}
