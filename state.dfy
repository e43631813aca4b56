/**
 * The per-run state of the plugin (python/tach/pytest_plugin.py,
 * `TachPluginState` and the attributes of `TachPytestPluginHandler` that the
 * plugin reads and writes), and the test-item list the runner hands to the
 * item-level filter.
 *
 * The handler is a compiled extension: its impact oracle `should_remove_items`
 * is an uninterpreted function `shouldRemove`, and `remove_test_path` adds to
 * the abstract set `removedTestPaths`. `Path.resolve` is the function `resolve`,
 * fixed for the run.
 */
module State {
  import opened Wrappers
  import opened Configure

  /** The parts of the compiled handler that the plugin touches. */
  class Handler {
    const allAffectedModules: set<string>
    const shouldRemove: string -> bool
    var removedTestPaths: set<string>
    var numRemovedItems: nat
    var testsRanToCompletion: bool

    constructor (allAffectedModules: set<string>, shouldRemove: string -> bool)
      ensures this.allAffectedModules == allAffectedModules && this.shouldRemove == shouldRemove
      ensures removedTestPaths == {} && numRemovedItems == 0 && !testsRanToCompletion
    {
      this.allAffectedModules := allAffectedModules;
      this.shouldRemove := shouldRemove;
      removedTestPaths := {};
      numRemovedItems := 0;
      testsRanToCompletion := false;
    }

    /** `remove_test_path`: remembers a test file as removed. */
    method RemoveTestPath(path: string)
      modifies this
      ensures removedTestPaths == old(removedTestPaths) + {path}
      ensures numRemovedItems == old(numRemovedItems) && testsRanToCompletion == old(testsRanToCompletion)
    {
      removedTestPaths := removedTestPaths + {path};
    }
  }

  /** `TachPluginState`, created by the configuration phase and kept in the runner's stash. */
  class PluginState {
    const handler: Handler
    const skipEnabled: bool
    const verbose: bool
    const base: string
    const head: Option<string>
    const resolve: string -> string
    var wouldSkipPaths: set<string>

    /**
     * Paths are recorded as would-skip only together with the handler's removed
     * paths, and only when their resolved form is unchanged and the oracle
     * calls them removable.
     */
    ghost predicate Valid()
      reads this, handler
    {
      && handler.removedTestPaths == wouldSkipPaths
      && forall p :: p in wouldSkipPaths ==>
           resolve(p) !in handler.allAffectedModules && handler.shouldRemove(resolve(p))
    }

    /** The state stored by `pytest_configure` for enabled settings. */
    constructor (settings: Settings, shouldRemove: string -> bool, resolve: string -> string)
      ensures Valid() && fresh(handler)
      ensures handler.allAffectedModules == settings.allAffectedModules && handler.shouldRemove == shouldRemove
      ensures handler.numRemovedItems == 0 && !handler.testsRanToCompletion
      ensures skipEnabled == settings.skipEnabled && verbose == settings.verbose
      ensures base == settings.base && head == settings.head && this.resolve == resolve
      ensures wouldSkipPaths == {}
    {
      handler := new Handler(settings.allAffectedModules, shouldRemove);
      skipEnabled := settings.skipEnabled;
      verbose := settings.verbose;
      base := settings.base;
      head := settings.head;
      this.resolve := resolve;
      wouldSkipPaths := {};
    }
  }

  /** A collected test item: its node id and the path of the file it came from. */
  datatype Item = Item(nodeid: string, path: string)

  /** `x` first occurs in `s` at index `i`, and `r` is `s` with that occurrence cut out. */
  predicate CutFirstAt<T(==)>(s: seq<T>, x: T, i: int, r: seq<T>) {
    0 <= i < |s| && s[i] == x && x !in s[..i] && r == s[..i] + s[i + 1..]
  }

  /** A first occurrence after the head is the first occurrence in the whole list, one index later. */
  lemma CutFirstCons<T>(s: seq<T>, x: T, t: seq<T>)
    requires |s| > 0 && s[0] != x
    requires exists j :: 0 <= j < |s| - 1 && CutFirstAt(s[1..], x, j, t)
    ensures exists i :: 0 <= i < |s| && CutFirstAt(s, x, i, [s[0]] + t)
  {
    var j :| 0 <= j < |s| - 1 && CutFirstAt(s[1..], x, j, t);
    assert s[..j + 1] == [s[0]] + s[1..][..j];
    assert s[j + 2..] == s[1..][j + 1..];
    assert CutFirstAt(s, x, j + 1, [s[0]] + t);
  }

  /** `list.remove(x)`: the list without the first occurrence of `x`. */
  function RemoveFirst<T(==)>(s: seq<T>, x: T): (r: seq<T>)
    requires x in s
    ensures |r| == |s| - 1
    ensures multiset(r) == multiset(s) - multiset{x}
    ensures exists i :: 0 <= i < |s| && CutFirstAt(s, x, i, r)
  {
    assert s == [s[0]] + s[1..];
    if s[0] == x then
      assert CutFirstAt(s, x, 0, s[1..]);
      s[1..]
    else
      var t := RemoveFirst(s[1..], x);
      CutFirstCons(s, x, t);
      [s[0]] + t
  }

  /** The runner's mutable list of collected items. */
  class ItemList {
    var contents: seq<Item>

    constructor (contents: seq<Item>)
      ensures this.contents == contents
    {
      this.contents := contents;
    }

    /** `items.remove(x)`; Python raises when `x` is absent, which the filter never asks. */
    method Remove(x: Item)
      requires x in contents
      modifies this
      ensures contents == RemoveFirst(old(contents), x)
    {
      contents := RemoveFirst(contents, x);
    }
  }
}
