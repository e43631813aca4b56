/**
 * The end-of-run hook (python/tach/pytest_plugin.py, `pytest_terminal_summary`):
 * in dry-run mode, the safety-net check that lists the failed tests which
 * skipping would have hidden, followed by recording the run's durations.
 */
module Validation {
  import opened Wrappers
  import opened Seqs
  import opened State
  import opened Durations

  /** A failed report names a non-empty file that resolves into the would-skip set. */
  predicate InWouldSkip(report: TestReport, resolvedWouldSkip: set<string>, resolve: string -> string) {
    report.fspath.Some? && report.fspath.value != [] && resolve(report.fspath.value) in resolvedWouldSkip
  }

  function Flagged(resolvedWouldSkip: set<string>, resolve: string -> string): TestReport -> bool {
    (r: TestReport) => InWouldSkip(r, resolvedWouldSkip, resolve)
  }

  /** The node ids of a list of reports. */
  function NodeIds(reports: seq<TestReport>): (ids: seq<string>)
    ensures |ids| == |reports| && forall i :: 0 <= i < |reports| ==> ids[i] == reports[i].nodeid
  {
    if reports == [] then [] else [reports[0].nodeid] + NodeIds(reports[1..])
  }

  lemma NodeIdsAppend(a: seq<TestReport>, b: seq<TestReport>)
    ensures NodeIds(a + b) == NodeIds(a) + NodeIds(b)
  {
  }

  /** Filtering one more report adds its node id exactly when it is kept. */
  lemma FilteredIdsStep(keep: TestReport -> bool, prefix: seq<TestReport>, report: TestReport)
    ensures NodeIds(Filter(keep, prefix + [report])) ==
      NodeIds(Filter(keep, prefix)) + (if keep(report) then [report.nodeid] else [])
  {
    FilterAppend(keep, prefix, [report]);
    assert [report][1..] == [];
    assert Filter(keep, [report]) == if keep(report) then [report] else [];
    NodeIdsAppend(Filter(keep, prefix), Filter(keep, [report]));
  }

  /** The would-skip failures: the node ids of the flagged failed reports, in report order. */
  function FailedWouldSkipIds(failed: seq<TestReport>, wouldSkipPaths: set<string>, resolve: string -> string): seq<string> {
    NodeIds(Filter(Flagged(ResolvedSet(wouldSkipPaths, resolve), resolve), failed))
  }

  /** The loop that collects the failed reports falling in the would-skip set. */
  method FailedWouldSkip(failed: seq<TestReport>, wouldSkipPaths: set<string>, resolve: string -> string)
    returns (warned: seq<string>)
    ensures warned == FailedWouldSkipIds(failed, wouldSkipPaths, resolve)
  {
    var resolvedWouldSkip := ResolvedSet(wouldSkipPaths, resolve);
    ghost var flagged := Flagged(resolvedWouldSkip, resolve);
    warned := [];
    for i := 0 to |failed|
      invariant warned == NodeIds(Filter(flagged, failed[..i]))
    {
      var report := failed[i];
      assert failed[..i + 1] == failed[..i] + [report];
      FilteredIdsStep(flagged, failed[..i], report);
      if report.fspath.Some? && report.fspath.value != [] {
        var reportPath := resolve(report.fspath.value);
        if reportPath in resolvedWouldSkip {
          warned := warned + [report.nodeid];
        }
      }
    }
    assert failed[..|failed|] == failed;
  }

  /**
   * A node id is warned about exactly when some failed report with that id
   * names a non-empty file resolving to a resolved would-skip path.
   */
  lemma FailedWouldSkipMembers(failed: seq<TestReport>, wouldSkipPaths: set<string>, resolve: string -> string, id: string)
    ensures id in FailedWouldSkipIds(failed, wouldSkipPaths, resolve) <==>
      exists r :: r in failed && r.nodeid == id && r.fspath.Some? && r.fspath.value != []
        && exists p :: p in wouldSkipPaths && resolve(p) == resolve(r.fspath.value)
  {
  }

  /**
   * `pytest_terminal_summary`: with no state it does nothing at all (not even
   * recording durations). Otherwise it marks the run complete, returns the
   * node ids to warn about (empty unless skipping was disabled and some file
   * would have been skipped) and records the durations.
   */
  method TerminalSummary(state: PluginState?, stats: Stats, cache: CacheStore)
    returns (warned: seq<string>, updated: CacheStore)
    requires state != null ==> state.Valid()
    modifies if state != null then {state.handler} else {}
    ensures state == null ==> warned == [] && updated == cache
    ensures state != null ==> state.Valid() && state.handler.testsRanToCompletion
    ensures state != null ==>
      && state.handler.numRemovedItems == old(state.handler.numRemovedItems)
      && state.handler.removedTestPaths == old(state.handler.removedTestPaths)
    ensures state != null && (state.skipEnabled || state.wouldSkipPaths == {}) ==> warned == []
    ensures state != null && !state.skipEnabled && state.wouldSkipPaths != {} ==>
      warned == FailedWouldSkipIds(stats.failed, state.wouldSkipPaths, state.resolve)
    ensures state != null && AllReports(stats) == [] ==> updated == cache
    ensures state != null && AllReports(stats) != [] ==>
      updated == SaveDurations(cache, Merge(CachedDurations(cache), AllReports(stats)))
  {
    warned := [];
    if state == null {
      return [], cache;
    }
    state.handler.testsRanToCompletion := true;
    if !state.skipEnabled && state.wouldSkipPaths != {} {
      warned := FailedWouldSkip(stats.failed, state.wouldSkipPaths, state.resolve);
    }
    updated := RecordTestDurations(stats, cache);
  }
}
