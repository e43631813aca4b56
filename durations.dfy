/**
 * The duration ledger (python/tach/pytest_plugin.py, `_get_cached_durations`,
 * `_save_durations`, `_estimate_skipped_duration`, `_record_test_durations`):
 * a map from test node id to the duration of its last "call" phase, kept in
 * the runner's cache under one key, used to estimate the time that skipping
 * saves.
 *
 * Durations are exact reals.
 */
module Durations {
  import opened Wrappers
  import opened Text

  /** Node id to seconds. */
  type Ledger = map<string, real>

  /** The cache slot holding the ledger: no cache at all, or a cache whose key may be unset. */
  datatype CacheStore = NoCache | Cache(stored: Option<Ledger>)

  /** `_get_cached_durations`: a missing cache or an unset key reads as the empty ledger. */
  function CachedDurations(cache: CacheStore): (ledger: Ledger)
    ensures cache.Cache? && cache.stored.Some? ==> ledger == cache.stored.value
    ensures cache.NoCache? || cache.stored.None? ==> ledger == map[]
  {
    match cache
    case NoCache => map[]
    case Cache(stored) => stored.GetOr(map[])
  }

  /** `_save_durations`: writes the ledger when there is a cache. */
  function SaveDurations(cache: CacheStore, ledger: Ledger): (saved: CacheStore)
    ensures cache.NoCache? ==> saved.NoCache?
    ensures cache.Cache? ==> CachedDurations(saved) == ledger
  {
    if cache.NoCache? then NoCache else Cache(Some(ledger))
  }

  // ---------------------------------------------------------------- estimate

  /** The resolved forms of a set of paths. */
  function ResolvedSet(paths: set<string>, resolve: string -> string): (resolved: set<string>)
    ensures forall p :: p in paths ==> resolve(p) in resolved
    ensures forall q :: q in resolved ==> exists p :: p in paths && resolve(p) == q
  {
    set p | p in paths :: resolve(p)
  }

  /** A ledger entry counts towards the estimate when its node id has a file part that resolves into the set. */
  predicate Matches(nodeid: string, resolvedSkipped: set<string>, resolve: string -> string) {
    HasSep(nodeid) && resolve(FilePart(nodeid)) in resolvedSkipped
  }

  function Contribution(ledger: Ledger, k: string, resolvedSkipped: set<string>, resolve: string -> string): real
    requires k in ledger
  {
    if Matches(k, resolvedSkipped, resolve) then ledger[k] else 0.0
  }

  /** The sum of the matching entries among `keys`. */
  ghost function SumOf(ledger: Ledger, keys: set<string>, resolvedSkipped: set<string>, resolve: string -> string): real
    requires keys <= ledger.Keys
    decreases keys
  {
    if keys == {} then 0.0
    else
      var k :| k in keys;
      Contribution(ledger, k, resolvedSkipped, resolve) + SumOf(ledger, keys - {k}, resolvedSkipped, resolve)
  }

  /** The sum does not depend on which key is taken first. */
  lemma {:induction false} SumOfRemove(ledger: Ledger, keys: set<string>, k: string, resolvedSkipped: set<string>, resolve: string -> string)
    requires keys <= ledger.Keys && k in keys
    ensures SumOf(ledger, keys, resolvedSkipped, resolve) ==
      Contribution(ledger, k, resolvedSkipped, resolve) + SumOf(ledger, keys - {k}, resolvedSkipped, resolve)
    decreases keys
  {
    var j :| j in keys && SumOf(ledger, keys, resolvedSkipped, resolve) ==
      Contribution(ledger, j, resolvedSkipped, resolve) + SumOf(ledger, keys - {j}, resolvedSkipped, resolve);
    if j != k {
      SumOfRemove(ledger, keys - {j}, k, resolvedSkipped, resolve);
      SumOfRemove(ledger, keys - {k}, j, resolvedSkipped, resolve);
      assert keys - {j} - {k} == keys - {k} - {j};
    }
  }

  /** The total of the cached durations of the tests in files that resolve into `skippedPaths`. */
  ghost function MatchingTotal(ledger: Ledger, skippedPaths: set<string>, resolve: string -> string): real {
    SumOf(ledger, ledger.Keys, ResolvedSet(skippedPaths, resolve), resolve)
  }

  /** The estimate: absent for no paths, an empty ledger, or a total that is not positive. */
  ghost function Estimate(cache: CacheStore, skippedPaths: set<string>, resolve: string -> string): Option<real> {
    if skippedPaths == {} then None
    else
      var ledger := CachedDurations(cache);
      if ledger == map[] then None
      else
        var total := MatchingTotal(ledger, skippedPaths, resolve);
        if total > 0.0 then Some(total) else None
  }

  /** `_estimate_skipped_duration`, summing over the ledger's entries in any order. */
  method EstimateSkippedDuration(cache: CacheStore, skippedPaths: set<string>, resolve: string -> string)
    returns (estimate: Option<real>)
    ensures estimate == Estimate(cache, skippedPaths, resolve)
    ensures estimate.Some? ==> estimate.value > 0.0
  {
    if skippedPaths == {} {
      return None;
    }
    var ledger := CachedDurations(cache);
    if ledger == map[] {
      return None;
    }
    var total := 0.0;
    var resolvedSkipped := ResolvedSet(skippedPaths, resolve);
    var remaining := ledger.Keys;
    while remaining != {}
      invariant remaining <= ledger.Keys
      invariant total + SumOf(ledger, remaining, resolvedSkipped, resolve) == MatchingTotal(ledger, skippedPaths, resolve)
      decreases remaining
    {
      var nodeid :| nodeid in remaining;
      SumOfRemove(ledger, remaining, nodeid, resolvedSkipped, resolve);
      if HasSep(nodeid) {
        var filePart := FilePart(nodeid);
        if resolve(filePart) in resolvedSkipped {
          total := total + ledger[nodeid];
        }
      }
      remaining := remaining - {nodeid};
    }
    estimate := if total > 0.0 then Some(total) else None;
  }

  /** With no matching entry the sum is zero. */
  lemma {:induction false} SumOfNoMatch(ledger: Ledger, keys: set<string>, resolvedSkipped: set<string>, resolve: string -> string)
    requires keys <= ledger.Keys
    requires forall k :: k in keys ==> !Matches(k, resolvedSkipped, resolve)
    ensures SumOf(ledger, keys, resolvedSkipped, resolve) == 0.0
    decreases keys
  {
    if keys != {} {
      var k :| k in keys;
      SumOfRemove(ledger, keys, k, resolvedSkipped, resolve);
      SumOfNoMatch(ledger, keys - {k}, resolvedSkipped, resolve);
    }
  }

  /** With positive durations, a matching entry makes the sum positive. */
  lemma {:induction false} SumOfPositive(ledger: Ledger, keys: set<string>, resolvedSkipped: set<string>, resolve: string -> string)
    requires keys <= ledger.Keys
    requires forall k :: k in ledger ==> ledger[k] > 0.0
    ensures SumOf(ledger, keys, resolvedSkipped, resolve) >= 0.0
    ensures (exists k :: k in keys && Matches(k, resolvedSkipped, resolve)) ==> SumOf(ledger, keys, resolvedSkipped, resolve) > 0.0
    decreases keys
  {
    if keys != {} {
      var k :| k in keys;
      SumOfRemove(ledger, keys, k, resolvedSkipped, resolve);
      SumOfPositive(ledger, keys - {k}, resolvedSkipped, resolve);
      if exists j :: j in keys && Matches(j, resolvedSkipped, resolve) {
        var j :| j in keys && Matches(j, resolvedSkipped, resolve);
        SumOfRemove(ledger, keys, j, resolvedSkipped, resolve);
        SumOfPositive(ledger, keys - {j}, resolvedSkipped, resolve);
      }
    }
  }

  /**
   * When every cached duration is positive, an estimate is given exactly when
   * some skipped file has a cached test; otherwise no entry matches and none
   * is given.
   */
  lemma EstimatePresentIffMatch(cache: CacheStore, skippedPaths: set<string>, resolve: string -> string)
    requires forall k :: k in CachedDurations(cache) ==> CachedDurations(cache)[k] > 0.0
    ensures Estimate(cache, skippedPaths, resolve).Some? <==>
      skippedPaths != {} &&
      exists k :: k in CachedDurations(cache) && Matches(k, ResolvedSet(skippedPaths, resolve), resolve)
  {
    var ledger := CachedDurations(cache);
    var resolvedSkipped := ResolvedSet(skippedPaths, resolve);
    SumOfPositive(ledger, ledger.Keys, resolvedSkipped, resolve);
    if !exists k :: k in ledger && Matches(k, resolvedSkipped, resolve) {
      SumOfNoMatch(ledger, ledger.Keys, resolvedSkipped, resolve);
    }
  }

  /** The file part of a node id is the text before its first separator. */
  lemma FilePartAt(s: string, i: nat)
    requires SepAt(s, i) && forall j :: 0 <= j < i ==> !SepAt(s, j)
    ensures FilePart(s) == s[..i]
  {
  }

  /** A node id of the form "<file>::<test>" with no colon in the file name splits at the separator. */
  lemma NodeIdFilePart(file: string, test: string)
    requires ':' !in file
    ensures HasSep(file + "::" + test) && FilePart(file + "::" + test) == file
  {
    var s := file + "::" + test;
    assert SepAt(s, |file|);
    assert forall j :: 0 <= j < |file| ==> s[j] == file[j];
    FilePartAt(s, |file|);
    assert s[..|file|] == file;
  }

  /** A "<file>::<test>" node id matches exactly when its file resolves into the set. */
  lemma NodeIdMatches(nodeid: string, file: string, test: string, resolvedSkipped: set<string>, resolve: string -> string)
    requires ':' !in file && nodeid == file + "::" + test
    ensures Matches(nodeid, resolvedSkipped, resolve) <==> resolve(file) in resolvedSkipped
  {
    NodeIdFilePart(file, test);
  }

  /** A two-entry ledger where only the second entry lies in the one skipped file: the estimate is that entry. */
  lemma EstimateSecondOnly(x: string, y: string, dx: real, dy: real, skipped: string, resolve: string -> string)
    requires x != y && dy > 0.0
    requires !Matches(x, {resolve(skipped)}, resolve) && Matches(y, {resolve(skipped)}, resolve)
    ensures Estimate(Cache(Some(map[x := dx, y := dy])), {skipped}, resolve) == Some(dy)
  {
    var ledger := map[x := dx, y := dy];
    var resolvedSkipped := ResolvedSet({skipped}, resolve);
    assert resolvedSkipped == {resolve(skipped)};
    assert ledger.Keys == {x, y};
    SumOfRemove(ledger, {x, y}, x, resolvedSkipped, resolve);
    assert {x, y} - {x} == {y};
    SumOfRemove(ledger, {y}, y, resolvedSkipped, resolve);
    assert {y} - {y} == {};
  }

  /**
   * Two cached tests, one in each of two files that resolve apart: skipping the
   * second file saves exactly the second test's duration.
   */
  lemma EstimateTwoFiles(resolve: string -> string)
    requires resolve("x_test.py") != resolve("y_test.py")
    ensures Estimate(Cache(Some(map["x_test.py::test_1" := 5.0, "y_test.py::test_2" := 7.0])), {"y_test.py"}, resolve)
      == Some(7.0)
  {
    var x, y := "x_test.py::test_1", "y_test.py::test_2";
    NodeIdMatches(x, "x_test.py", "test_1", {resolve("y_test.py")}, resolve);
    NodeIdMatches(y, "y_test.py", "test_2", {resolve("y_test.py")}, resolve);
    EstimateSecondOnly(x, y, 5.0, 7.0, "y_test.py", resolve);
  }

  // ---------------------------------------------------------------- record

  /**
   * A test report as the terminal reporter keeps it. Attributes that a report
   * may lack (`when`, `duration`, `fspath`) are optional.
   */
  datatype TestReport = TestReport(nodeid: string, when: Option<string>, duration: Option<real>, fspath: Option<string>)

  /** The reporter's "passed", "failed" and "error" categories. */
  datatype Stats = Stats(passed: seq<TestReport>, failed: seq<TestReport>, error: seq<TestReport>)

  /** All reports, category by category. */
  function AllReports(stats: Stats): (reports: seq<TestReport>)
    ensures |reports| == |stats.passed| + |stats.failed| + |stats.error|
  {
    stats.passed + stats.failed + stats.error
  }

  /** Only the "call" phase of a test, when it carries a duration, is recorded. */
  predicate IsCall(report: TestReport) {
    report.when == Some("call") && report.duration.Some?
  }

  /** The ledger after `durations[nodeid] = duration` for each recorded report, in order. */
  function Merge(ledger: Ledger, reports: seq<TestReport>): Ledger
  {
    if reports == [] then ledger
    else
      var last := reports[|reports| - 1];
      var before := Merge(ledger, reports[..|reports| - 1]);
      if IsCall(last) then before[last.nodeid := last.duration.value] else before
  }

  /** The node ids the recorded reports name. */
  function CallIds(reports: seq<TestReport>): set<string> {
    set r | r in reports && IsCall(r) :: r.nodeid
  }

  /** `_record_test_durations`: nothing is written without reports; otherwise the cached ledger is merged and saved. */
  method RecordTestDurations(stats: Stats, cache: CacheStore) returns (updated: CacheStore)
    ensures AllReports(stats) == [] ==> updated == cache
    ensures AllReports(stats) != [] ==> updated == SaveDurations(cache, Merge(CachedDurations(cache), AllReports(stats)))
  {
    var reports := AllReports(stats);
    if reports == [] {
      return cache;
    }
    var durations := CachedDurations(cache);
    for i := 0 to |reports|
      invariant durations == Merge(CachedDurations(cache), reports[..i])
    {
      var report := reports[i];
      assert reports[..i + 1][..i] == reports[..i];
      if report.when == Some("call") && report.duration.Some? {
        durations := durations[report.nodeid := report.duration.value];
      }
    }
    assert reports[..|reports|] == reports;
    updated := SaveDurations(cache, durations);
  }

  /** Recording keeps every earlier entry and adds exactly the recorded node ids. */
  lemma {:induction false} MergeKeys(ledger: Ledger, reports: seq<TestReport>)
    ensures Merge(ledger, reports).Keys == ledger.Keys + CallIds(reports)
  {
    if reports != [] {
      var init, last := reports[..|reports| - 1], reports[|reports| - 1];
      MergeKeys(ledger, init);
      assert reports == init + [last];
      assert CallIds(reports) == CallIds(init) + (if IsCall(last) then {last.nodeid} else {});
    }
  }

  /** An entry for a test not recorded in this run survives the merge unchanged. */
  lemma {:induction false} MergePreserves(ledger: Ledger, reports: seq<TestReport>, k: string)
    requires k !in CallIds(reports)
    ensures k in Merge(ledger, reports) <==> k in ledger
    ensures k in ledger ==> Merge(ledger, reports)[k] == ledger[k]
  {
    if reports != [] {
      var init, last := reports[..|reports| - 1], reports[|reports| - 1];
      assert reports == init + [last];
      assert CallIds(init) <= CallIds(reports);
      MergePreserves(ledger, init, k);
    }
  }

  /** The last recorded report for a node id decides its entry: later reports overwrite earlier ones. */
  lemma {:induction false} MergeLastWins(ledger: Ledger, reports: seq<TestReport>, j: nat)
    requires j < |reports| && IsCall(reports[j])
    requires forall i :: j < i < |reports| && IsCall(reports[i]) ==> reports[i].nodeid != reports[j].nodeid
    ensures reports[j].nodeid in Merge(ledger, reports)
    ensures Merge(ledger, reports)[reports[j].nodeid] == reports[j].duration.value
  {
    var init, last := reports[..|reports| - 1], reports[|reports| - 1];
    if j < |reports| - 1 {
      MergeLastWins(ledger, init, j);
    }
  }
}
