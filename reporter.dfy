/**
 * The collection-finish report (python/tach/pytest_plugin.py,
 * `pytest_report_collectionfinish` with `_pluralize`, `_format_duration` and
 * the nested `_format_paths`).
 *
 * Lines are modelled by their kind and the values they show; the exact
 * wording and the terminal styling are not.
 */
module Reporter {
  import opened Wrappers
  import opened State
  import opened Durations

  /** `_pluralize`: the word, with an "s" added unless the count is exactly one. */
  function Pluralize(word: string, count: int): (r: string)
    ensures |r| == |word| + (if count == 1 then 0 else 1)
    ensures r[..|word|] == word
    ensures count != 1 ==> r[|word|] == 's'
  {
    if count == 1 then word else word + "s"
  }

  /** The three shapes of a formatted duration. */
  datatype DurationText =
    | Seconds(secs: real)                   // "12.3s"
    | MinutesSeconds(minutes: nat, secs: real)  // "4m 5s"
    | HoursMinutes(hours: nat, minutes: nat)    // "1h 2m"

  /** `_format_duration`: seconds below a minute, minutes and seconds below an hour, else hours and minutes. */
  function FormatDuration(seconds: real): (d: DurationText)
    ensures d.Seconds? <==> seconds < 60.0
    ensures d.Seconds? ==> d.secs == seconds
    ensures d.MinutesSeconds? <==> 60.0 <= seconds < 3600.0
    ensures d.MinutesSeconds? ==>
      1 <= d.minutes < 60 && 0.0 <= d.secs < 60.0 && (60 * d.minutes) as real + d.secs == seconds
    ensures d.HoursMinutes? ==>
      && 1 <= d.hours && d.minutes < 60
      && (3600 * d.hours + 60 * d.minutes) as real <= seconds < (3600 * d.hours + 60 * d.minutes + 60) as real
  {
    if seconds < 60.0 then Seconds(seconds)
    else
      var minutes := (seconds / 60.0).Floor;
      var secs := seconds - (60 * minutes) as real;
      assert minutes as real <= seconds / 60.0 < minutes as real + 1.0;
      assert 1 <= minutes;
      if minutes < 60 then MinutesSeconds(minutes, secs)
      else HoursMinutes(minutes / 60, minutes % 60)
  }

  /** The marker in front of a listed path: "-" removed, "+" changed, "?" would be skipped. */
  datatype Marker = Removed | Changed | WouldSkip

  datatype ReportLine =
    | SkippedSummary(tests: nat, testNoun: string, files: nat, fileNoun: string, saved: Option<DurationText>)
    | UnaffectedSummary(tests: nat, testNoun: string, files: nat, fileNoun: string, savable: Option<DurationText>)
    | DisableHint
    | ChangedHeader(count: nat, noun: string)
    | WouldSkipHeader
    | PathLine(marker: Marker, path: string)
    | MoreLine(remaining: nat)

  /** At most this many paths are listed unless the report is verbose. */
  const MaxShown: nat := 5

  /** One line per path, in order. */
  function PathLines(marker: Marker, paths: seq<string>): (lines: seq<ReportLine>)
    ensures |lines| == |paths|
    ensures forall i :: 0 <= i < |paths| ==> lines[i] == PathLine(marker, paths[i])
    ensures forall l :: l in lines ==> l.PathLine? && l.marker == marker && l.path in paths
  {
    if paths == [] then [] else [PathLine(marker, paths[0])] + PathLines(marker, paths[1..])
  }

  /** `_format_paths`: all paths when verbose or few, otherwise the first five and a count of the rest. */
  function FormatPaths(paths: seq<string>, marker: Marker, verbose: bool): (lines: seq<ReportLine>)
    ensures verbose || |paths| <= MaxShown ==> lines == PathLines(marker, paths)
    ensures !verbose && |paths| > MaxShown ==>
      && |lines| == MaxShown + 1
      && lines[..MaxShown] == PathLines(marker, paths[..MaxShown])
      && lines[MaxShown] == MoreLine(|paths| - MaxShown)
    ensures forall l :: l in lines ==> l.MoreLine? || (l.PathLine? && l.marker == marker && l.path in paths)
  {
    if verbose || |paths| <= MaxShown then PathLines(marker, paths)
    else
      var shown := PathLines(marker, paths[..MaxShown]);
      assert (shown + [MoreLine(|paths| - MaxShown)])[..MaxShown] == shown;
      shown + [MoreLine(|paths| - MaxShown)]
  }

  /** What the report is rendered from. `changed` and `removed` list the handler's sets. */
  datatype ReportView = ReportView(
    skipEnabled: bool,
    verbose: bool,
    changed: seq<string>,
    removed: seq<string>,
    numTests: nat,
    estimate: Option<real>)

  /** The "N files changed:" section, present only when some file changed. */
  function ChangedSection(changed: seq<string>): (lines: seq<ReportLine>)
    ensures lines == [] <==> changed == []
    ensures changed != [] ==>
      && |lines| == |changed| + 1
      && lines[0] == ChangedHeader(|changed|, Pluralize("file", |changed|))
      && forall i :: 0 <= i < |changed| ==> lines[i + 1] == PathLine(Changed, changed[i])
    ensures forall l :: l in lines ==> l.ChangedHeader? || (l.PathLine? && l.marker == Changed && l.path in changed)
    ensures forall p :: p in changed ==> PathLine(Changed, p) in lines
  {
    if changed == [] then []
    else [ChangedHeader(|changed|, Pluralize("file", |changed|))] + PathLines(Changed, changed)
  }

  /** The time-saved annotation, shown only for a non-zero estimate (a truthy `estimated_duration`). */
  function Annotation(estimate: Option<real>): (a: Option<DurationText>)
    ensures a.Some? <==> estimate.Some? && estimate.value != 0.0
    ensures a.Some? ==> (a.value.Seconds? <==> estimate.value < 60.0)
  {
    if estimate.Some? && estimate.value != 0.0 then Some(FormatDuration(estimate.value)) else None
  }

  /** The report lines: none when no test is affected; otherwise the enabled or the dry-run shape. */
  function ReportLines(v: ReportView): (lines: seq<ReportLine>)
    ensures lines == [] <==> v.numTests == 0
    ensures v.numTests > 0 ==> (DisableHint in lines <==> !v.skipEnabled)
    ensures v.numTests > 0 && !v.skipEnabled ==>
      && lines[0] == UnaffectedSummary(v.numTests, Pluralize("test", v.numTests),
                                       |v.removed|, Pluralize("file", |v.removed|), Annotation(v.estimate))
      && lines[1] == DisableHint
    ensures v.numTests > 0 && v.skipEnabled ==>
      SkippedSummary(v.numTests, Pluralize("test", v.numTests),
                     |v.removed|, Pluralize("file", |v.removed|), Annotation(v.estimate)) in lines
  {
    if v.numTests == 0 then []
    else
      var files := |v.removed|;
      var tests := v.numTests;
      if v.skipEnabled then
        (if v.verbose then ChangedSection(v.changed) else [])
        + [SkippedSummary(tests, Pluralize("test", tests), files, Pluralize("file", files), Annotation(v.estimate))]
        + FormatPaths(v.removed, Removed, v.verbose)
      else if v.verbose then
        [UnaffectedSummary(tests, Pluralize("test", tests), files, Pluralize("file", files), Annotation(v.estimate)),
         DisableHint]
        + ChangedSection(v.changed)
        + [WouldSkipHeader]
        + PathLines(WouldSkip, v.removed)
      else
        [UnaffectedSummary(tests, Pluralize("test", tests), files, Pluralize("file", files), Annotation(v.estimate)),
         DisableHint]
  }

  /** The number of lines each shape of report has. */
  function LineCount(skipEnabled: bool, verbose: bool, changed: nat, removed: nat): nat {
    var changedLines := if changed == 0 then 0 else 1 + changed;
    if skipEnabled then
      (if verbose then changedLines else 0) + 1 + (if verbose || removed <= MaxShown then removed else MaxShown + 1)
    else if verbose then 2 + changedLines + 1 + removed
    else 2
  }

  /** A report is empty exactly when no test item is removable, and otherwise has the line count of its shape. */
  lemma ReportLineCount(v: ReportView)
    ensures ReportLines(v) == [] <==> v.numTests == 0
    ensures v.numTests > 0 ==> |ReportLines(v)| == LineCount(v.skipEnabled, v.verbose, |v.changed|, |v.removed|)
  {
  }

  /** The path lines of a report that skips: changed files only when verbose, then the removed files. */
  lemma SkippingPaths(v: ReportView)
    requires v.numTests > 0 && v.skipEnabled
    ensures forall l :: l in ReportLines(v) && l.PathLine? ==>
      (l.marker == Changed && v.verbose && l.path in v.changed) || (l.marker == Removed && l.path in v.removed)
  {
    var tests := v.numTests;
    var files := |v.removed|;
    var changed := if v.verbose then ChangedSection(v.changed) else [];
    var summary := SkippedSummary(tests, Pluralize("test", tests), files, Pluralize("file", files), Annotation(v.estimate));
    var paths := FormatPaths(v.removed, Removed, v.verbose);
    assert ReportLines(v) == changed + [summary] + paths;
  }

  /** The path lines of a dry run: none unless verbose, then changed files and would-skip files. */
  lemma DryRunPaths(v: ReportView)
    requires v.numTests > 0 && !v.skipEnabled
    ensures forall l :: l in ReportLines(v) && l.PathLine? ==>
      && v.verbose
      && ((l.marker == Changed && l.path in v.changed) || (l.marker == WouldSkip && l.path in v.removed))
  {
    var tests := v.numTests;
    var files := |v.removed|;
    var summary := UnaffectedSummary(tests, Pluralize("test", tests), files, Pluralize("file", files), Annotation(v.estimate));
    if v.verbose {
      var changed := ChangedSection(v.changed);
      var paths := PathLines(WouldSkip, v.removed);
      assert ReportLines(v) == [summary, DisableHint] + changed + [WouldSkipHeader] + paths;
    } else {
      assert ReportLines(v) == [summary, DisableHint];
    }
  }

  /** A verbose report lists every changed file. */
  lemma VerboseListsChanged(v: ReportView, p: string)
    requires v.numTests > 0 && v.verbose && p in v.changed
    ensures PathLine(Changed, p) in ReportLines(v)
  {
    var changed := ChangedSection(v.changed);
    assert PathLine(Changed, p) in changed;
    var tests := v.numTests;
    var files := |v.removed|;
    if v.skipEnabled {
      var summary := SkippedSummary(tests, Pluralize("test", tests), files, Pluralize("file", files), Annotation(v.estimate));
      var head := changed + [summary];
      assert PathLine(Changed, p) in head;
      assert ReportLines(v) == head + FormatPaths(v.removed, Removed, v.verbose);
    } else {
      var summary := UnaffectedSummary(tests, Pluralize("test", tests), files, Pluralize("file", files), Annotation(v.estimate));
      var head := [summary, DisableHint] + changed;
      assert PathLine(Changed, p) in head;
      assert ReportLines(v) == head + [WouldSkipHeader] + PathLines(WouldSkip, v.removed);
    }
  }

  /**
   * Each kind of path line comes from its own list: changed files only in a
   * verbose report, "?" lines only in a verbose dry run, "-" lines only when
   * skipping; and a verbose report lists every changed file.
   */
  lemma ReportPathsFrom(v: ReportView)
    ensures forall p :: PathLine(Changed, p) in ReportLines(v) ==> v.verbose && p in v.changed
    ensures v.numTests > 0 && v.verbose ==> forall p :: p in v.changed ==> PathLine(Changed, p) in ReportLines(v)
    ensures forall p :: PathLine(WouldSkip, p) in ReportLines(v) ==> !v.skipEnabled && v.verbose && p in v.removed
    ensures forall p :: PathLine(Removed, p) in ReportLines(v) ==> v.skipEnabled && p in v.removed
  {
    if v.numTests > 0 {
      if v.skipEnabled {
        SkippingPaths(v);
      } else {
        DryRunPaths(v);
      }
      if v.verbose {
        forall p | p in v.changed
          ensures PathLine(Changed, p) in ReportLines(v)
        {
          VerboseListsChanged(v, p);
        }
      }
    }
  }

  /** When skipping, every removed path is listed once the report is verbose or there are at most five. */
  lemma ReportListsRemoved(v: ReportView, i: nat)
    requires v.numTests > 0 && v.skipEnabled && i < |v.removed|
    requires v.verbose || |v.removed| <= MaxShown || i < MaxShown
    ensures PathLine(Removed, v.removed[i]) in ReportLines(v)
  {
  }

  /** The state's sets as lists, in an arbitrary order (Python's `list(s)`). */
  method Listing(s: set<string>) returns (r: seq<string>)
    ensures |r| == |s|
    ensures forall x :: x in r <==> x in s
  {
    r := [];
    var remaining := s;
    while remaining != {}
      invariant remaining <= s
      invariant |r| + |remaining| == |s|
      invariant forall x :: x in r <==> x in s && x !in remaining
      decreases remaining
    {
      var x :| x in remaining;
      r := r + [x];
      remaining := remaining - {x};
    }
  }

  /**
   * `pytest_report_collectionfinish`: no lines without state or when no test
   * item is removable; otherwise the report for the state, whose summary
   * counts the removable items and the removed files, with the estimate
   * computed from the would-skip paths.
   */
  method ReportCollectionFinish(state: PluginState?, cache: CacheStore) returns (lines: seq<ReportLine>)
    ensures state == null ==> lines == []
    ensures state != null ==> (lines == [] <==> state.handler.numRemovedItems == 0)
    ensures state != null && state.handler.numRemovedItems > 0 ==>
      |lines| == LineCount(state.skipEnabled, state.verbose,
                           |state.handler.allAffectedModules|, |state.handler.removedTestPaths|)
    ensures state != null && state.handler.numRemovedItems > 0 ==>
      exists v: ReportView ::
        && lines == ReportLines(v)
        && v.skipEnabled == state.skipEnabled && v.verbose == state.verbose
        && v.numTests == state.handler.numRemovedItems
        && |v.removed| == |state.handler.removedTestPaths|
        && (forall p :: p in v.removed <==> p in state.handler.removedTestPaths)
        && |v.changed| == |state.handler.allAffectedModules|
        && (forall p :: p in v.changed <==> p in state.handler.allAffectedModules)
        && v.estimate == Estimate(cache, state.wouldSkipPaths, state.resolve)
  {
    if state == null {
      return [];
    }
    var handler := state.handler;
    var numTests := handler.numRemovedItems;
    if numTests == 0 {
      return [];
    }
    var estimate := EstimateSkippedDuration(cache, state.wouldSkipPaths, state.resolve);
    var changed := Listing(handler.allAffectedModules);
    var removed := Listing(handler.removedTestPaths);
    var v := ReportView(state.skipEnabled, state.verbose, changed, removed, numTests, estimate);
    lines := ReportLines(v);
    ReportLineCount(v);
  }
}
