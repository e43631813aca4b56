/**
 * Detection of the repository's default branch, used as the diff base when
 * no explicit base is given (python/tach/pytest_plugin.py, `_get_default_branch`).
 *
 * The git subprocesses are not modelled; their outcomes are inputs:
 * `symbolicRef` is the standard output of `git symbolic-ref
 * refs/remotes/origin/HEAD` when it exits with status 0 (None when it fails
 * or cannot be started), and `branchExists(b)` says whether
 * `git rev-parse --verify b` exits with status 0.
 */
module DefaultBranch {
  import opened Wrappers
  import opened Text
  import opened Seqs

  /** The local branch names tried, in order of preference. */
  const Candidates: seq<string> := ["main", "master"]

  /** The name used when nothing else can be detected. */
  const Fallback: string := "main"

  method GetDefaultBranch(symbolicRef: Option<string>, branchExists: string -> bool)
    returns (branch: string)
    // The remote's default branch wins: the last path component of the trimmed ref.
    ensures symbolicRef.Some? ==> branch == LastComponent(Strip(symbolicRef.value))
    ensures symbolicRef.Some? ==> '/' !in branch
    // Otherwise "main" when it exists, then "master" when it exists ...
    ensures symbolicRef.None? && branchExists("main") ==> branch == "main"
    ensures symbolicRef.None? && !branchExists("main") && branchExists("master") ==> branch == "master"
    // ... and "main" when neither exists.
    ensures symbolicRef.None? && !branchExists("main") && !branchExists("master") ==> branch == Fallback
  {
    if symbolicRef.Some? {
      return LastComponent(Strip(symbolicRef.value));
    }
    var existing: seq<string> := [];
    for i := 0 to |Candidates|
      invariant existing == Filter(branchExists, Candidates[..i])
    {
      var name := Candidates[i];
      if branchExists(name) {
        existing := existing + [name];
      }
      FilterAppend(branchExists, Candidates[..i], [name]);
      assert Candidates[..i + 1] == Candidates[..i] + [name];
    }
    assert Candidates[..|Candidates|] == ["main"] + ["master"];
    FilterAppend(branchExists, ["main"], ["master"]);
    if existing != [] {
      branch := existing[0];
    } else {
      branch := Fallback;
    }
  }
}
