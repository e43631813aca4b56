/**
 * The configuration phase (python/tach/pytest_plugin.py, `pytest_configure`):
 * whether impact-based skipping is enabled, which base revision to diff
 * against, and what happens when the changed files cannot be determined.
 *
 * Finding and parsing the project configuration, auto-detecting the default
 * branch and resolving the changed files are outside this module; their
 * outcomes are inputs: `configFound` (a project configuration was parsed),
 * `detectedBase` (what `GetDefaultBranch` yields), `changedFiles(base, head)`
 * (None when the change resolver raises) and `resolve` (`Path.resolve`).
 */
module Configure {
  import opened Wrappers
  import opened Text

  /** The command-line options `--tach`, `--tach-base`, `--tach-head`, `--tach-verbose`. */
  datatype Options = Options(tach: bool, tachBase: Option<string>, tachHead: Option<string>, verbose: bool)

  /** What the configuration phase stores for the rest of the run. */
  datatype Settings = Settings(
    skipEnabled: bool,
    verbose: bool,
    base: string,
    head: Option<string>,
    changedFiles: set<string>,
    allAffectedModules: set<string>)

  /** No state (the plugin is inert), a fatal usage error, or the stored settings. */
  datatype ConfigureOutcome = Disabled | UsageError(message: string) | Enabled(settings: Settings)

  /** `getoption("--tach-head") or None`: an empty head means the working tree. */
  function Head(opts: Options): (head: Option<string>)
    ensures head.Some? ==> head.value != [] && head == opts.tachHead
    ensures head.None? <==> (opts.tachHead.None? || opts.tachHead.value == [])
  {
    if opts.tachHead.Some? && opts.tachHead.value != [] then opts.tachHead else None
  }

  /** Skipping is requested by the flag, an explicit base or a non-empty head. */
  predicate SkipRequested(opts: Options) {
    opts.tach || opts.tachBase.Some? || Head(opts).Some?
  }

  /** The explicit base when given, otherwise the detected default branch. */
  function Base(opts: Options, detectedBase: string): (base: string)
    ensures opts.tachBase.Some? ==> base == opts.tachBase.value
    ensures opts.tachBase.None? ==> base == detectedBase
  {
    opts.tachBase.GetOr(detectedBase)
  }

  /** The error raised when skipping was requested but the base could not be diffed against. */
  function UsageMessage(base: string): (msg: string)
    ensures IsInfix(base, msg)
    ensures IsInfix("git fetch origin " + base + ":" + base, msg)
  {
    var pre := "[tach] Could not determine changed files (base='";
    var mid := "'). The base branch may not exist in this checkout. In CI, try: ";
    var fetch := "git fetch origin " + base + ":" + base;
    InfixOfSelf(base);
    InfixExtend(base, pre, base, mid);
    InfixExtend(base, [], pre + base, mid);
    InfixExtend(base, [], pre + base + mid, fetch);
    InfixOfSelf(fetch);
    InfixExtend(fetch, pre + base + mid, fetch, []);
    pre + base + mid + fetch
  }

  function Configure(
    configFound: bool,
    opts: Options,
    detectedBase: string,
    changedFiles: (string, Option<string>) -> Option<set<string>>,
    resolve: string -> string): (r: ConfigureOutcome)
    // Without a project configuration the plugin does nothing.
    ensures !configFound ==> r.Disabled?
    // A resolution failure is fatal exactly when skipping was requested, and names the base.
    ensures r.UsageError? <==>
      configFound && changedFiles(Base(opts, detectedBase), Head(opts)).None? && SkipRequested(opts)
    ensures r.UsageError? ==> IsInfix(Base(opts, detectedBase), r.message)
    ensures r.Enabled? <==> configFound && changedFiles(Base(opts, detectedBase), Head(opts)).Some?
    // The stored settings.
    ensures r.Enabled? ==>
      r.settings.skipEnabled == (opts.tach || opts.tachBase.Some? || (opts.tachHead.Some? && opts.tachHead.value != []))
    ensures r.Enabled? ==> r.settings.base == Base(opts, detectedBase) && r.settings.head == Head(opts)
    ensures r.Enabled? ==> r.settings.verbose == opts.verbose
    ensures r.Enabled? ==> r.settings.changedFiles == changedFiles(r.settings.base, r.settings.head).value
    ensures r.Enabled? ==> forall f :: f in r.settings.changedFiles ==> resolve(f) in r.settings.allAffectedModules
    ensures r.Enabled? ==>
      forall m :: m in r.settings.allAffectedModules ==> exists f :: f in r.settings.changedFiles && resolve(f) == m
  {
    if !configFound then Disabled
    else
      var skipEnabled := SkipRequested(opts);
      var base := Base(opts, detectedBase);
      var head := Head(opts);
      match changedFiles(base, head)
      case None =>
        if skipEnabled then UsageError(UsageMessage(base))
        else Disabled
      case Some(changed) =>
        Enabled(Settings(skipEnabled, opts.verbose, base, head, changed, set f | f in changed :: resolve(f)))
  }
}
