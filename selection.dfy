/**
 * The two collection-time filters (python/tach/pytest_plugin.py,
 * `pytest_collect_file` and `pytest_collection_modifyitems`) and the
 * recursive item count `_count_items`.
 *
 * A missing state in the runner's stash (the plugin disabled) is a null
 * `PluginState?`.
 */
module Selection {
  import opened Wrappers
  import opened Seqs
  import opened State

  /**
   * The file-level filter wraps the runner's own collection of `filePath`,
   * whose result `native` it always passes on unchanged. A non-empty result
   * for a file whose resolved path is not a changed file is recorded as
   * would-skip exactly when the oracle calls it removable, whether or not
   * skipping is enabled.
   */
  method CollectFile<C>(state: PluginState?, filePath: string, native: seq<C>) returns (result: seq<C>)
    requires state != null ==> state.Valid()
    modifies if state != null then {state, state.handler} else {}
    ensures result == native
    ensures state != null ==> state.Valid()
    ensures state != null ==>
      var resolved := state.resolve(filePath);
      var recorded := native != [] && resolved !in state.handler.allAffectedModules && state.handler.shouldRemove(resolved);
      && state.wouldSkipPaths == old(state.wouldSkipPaths) + (if recorded then {filePath} else {})
      && state.handler.numRemovedItems == old(state.handler.numRemovedItems)
      && state.handler.testsRanToCompletion == old(state.handler.testsRanToCompletion)
  {
    if state == null {
      return native;
    }
    result := native;
    if result == [] {
      return;
    }
    var resolved := state.resolve(filePath);
    if resolved in state.handler.allAffectedModules {
      return;
    }
    if state.handler.shouldRemove(resolved) {
      state.handler.RemoveTestPath(filePath);
      state.wouldSkipPaths := state.wouldSkipPaths + {filePath};
    }
  }

  /** The oracle's verdict on an item, asked about the item's (unresolved) path. */
  function OnPath(shouldRemove: string -> bool): (p: Item -> bool)
    ensures forall it :: p(it) == shouldRemove(it.path)
  {
    (it: Item) => shouldRemove(it.path)
  }

  /** `s` without the first `k` of its elements that satisfy `p`. */
  function DropMarked<T>(p: T -> bool, s: seq<T>, k: nat): seq<T>
  {
    if s == [] then []
    else if k > 0 && p(s[0]) then DropMarked(p, s[1..], k - 1)
    else [s[0]] + DropMarked(p, s[1..], k)
  }

  /**
   * Removing the first occurrence of the k-th marked element from a list
   * whose first k marked elements are gone drops one more marked element:
   * no unmarked element can equal it.
   */
  lemma {:induction false} RemoveNextMarked<T>(p: T -> bool, s: seq<T>, k: nat)
    requires k < |Filter(p, s)|
    ensures Filter(p, s)[k] in DropMarked(p, s, k)
    ensures RemoveFirst(DropMarked(p, s, k), Filter(p, s)[k]) == DropMarked(p, s, k + 1)
  {
    var x := s[0];
    if p(x) {
      assert Filter(p, s) == [x] + Filter(p, s[1..]);
      if k > 0 {
        RemoveNextMarked(p, s[1..], k - 1);
      } else {
        DropNothing(p, s[1..]);
      }
    } else {
      assert Filter(p, s) == Filter(p, s[1..]);
      var y := Filter(p, s)[k];
      assert y in Filter(p, s[1..]);
      assert y != x;
      RemoveNextMarked(p, s[1..], k);
    }
  }

  lemma {:induction false} DropNothing<T>(p: T -> bool, s: seq<T>)
    ensures DropMarked(p, s, 0) == s
  {
    if s != [] {
      DropNothing(p, s[1..]);
    }
  }

  /** Dropping every marked element leaves the unmarked ones, in order. */
  lemma {:induction false} DropAllMarked<T>(p: T -> bool, s: seq<T>)
    ensures DropMarked(p, s, |Filter(p, s)|) == Filter(Negate(p), s)
  {
    if s != [] {
      var x, t := s[0], s[1..];
      DropAllMarked(p, t);
      assert Negate(p)(x) == !p(x);
      if p(x) {
        assert Filter(p, s) == [x] + Filter(p, t);
        assert Filter(Negate(p), s) == Filter(Negate(p), t);
      } else {
        assert Filter(p, s) == Filter(p, t);
        assert Filter(Negate(p), s) == [x] + Filter(Negate(p), t);
      }
    }
  }

  /**
   * The item-level filter counts the items the oracle calls removable and
   * stores that count whether or not skipping is enabled; only when it is
   * enabled are those items removed from the runner's list (the survivors
   * keep their order) and reported as deselected.
   */
  method ModifyItems(state: PluginState?, items: ItemList) returns (deselected: Option<seq<Item>>)
    requires state != null ==> state.Valid()
    modifies items, if state != null then {state.handler} else {}
    ensures state == null ==> items.contents == old(items.contents) && deselected.None?
    ensures state != null ==> state.Valid()
    ensures state != null ==>
      var removable := Filter(OnPath(state.handler.shouldRemove), old(items.contents));
      && state.handler.numRemovedItems == |removable|
      && state.handler.removedTestPaths == old(state.handler.removedTestPaths)
      && state.handler.testsRanToCompletion == old(state.handler.testsRanToCompletion)
      && (state.skipEnabled ==>
            && items.contents == Filter(Negate(OnPath(state.handler.shouldRemove)), old(items.contents))
            && deselected == Some(removable))
      && (!state.skipEnabled ==> items.contents == old(items.contents) && deselected.None?)
  {
    deselected := None;
    if state == null {
      return;
    }
    var removable := OnPath(state.handler.shouldRemove);
    var toRemove := Filter(removable, items.contents);
    state.handler.numRemovedItems := |toRemove|;
    if state.skipEnabled {
      ghost var original := items.contents;
      DropNothing(removable, original);
      for i := 0 to |toRemove|
        modifies items
        invariant items.contents == DropMarked(removable, original, i)
      {
        RemoveNextMarked(removable, original, i);
        items.Remove(toRemove[i]);
      }
      DropAllMarked(removable, original);
      deselected := Some(toRemove);
    }
  }

  /** Skipping never runs more items than not skipping: the survivors plus the removed are all the items. */
  lemma {:induction false} SkippingShrinksRun(shouldRemove: string -> bool, items: seq<Item>)
    ensures |Filter(Negate(OnPath(shouldRemove)), items)| == |items| - |Filter(OnPath(shouldRemove), items)|
  {
    FilterPartition(OnPath(shouldRemove), items);
  }

  /** What a collector yields: a test item, or a nested collector (a class, a module). */
  datatype Node = TestItem(nodeid: string) | Collector(children: seq<Node>)

  /** How many children a node has. */
  function Arity(n: Node): nat {
    if n.Collector? then |n.children| else 0
  }

  /** The node ids of the test items under a node, depth first. */
  function Leaves(n: Node): seq<string>
    decreases n, Arity(n) + 1
  {
    match n
    case TestItem(id) => [id]
    case Collector(cs) => LeavesFrom(n, 0)
  }

  function LeavesFrom(c: Node, i: nat): seq<string>
    requires c.Collector? && i <= |c.children|
    decreases c, |c.children| - i
  {
    if i == |c.children| then [] else Leaves(c.children[i]) + LeavesFrom(c, i + 1)
  }

  /** `_count_items`: the number of test items under a collector, recursing into nested collectors. */
  function CountItems(collector: Node): (count: nat)
    requires collector.Collector?
    ensures count == |Leaves(collector)|
    decreases collector, Arity(collector) + 1
  {
    CountFrom(collector, 0)
  }

  function CountFrom(c: Node, i: nat): (count: nat)
    requires c.Collector? && i <= |c.children|
    ensures count == |LeavesFrom(c, i)|
    decreases c, |c.children| - i
  {
    if i == |c.children| then 0
    else
      var child := c.children[i];
      (if child.Collector? then CountItems(child) else 1) + CountFrom(c, i + 1)
  }
}
