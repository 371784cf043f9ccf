/** The recursive caller tree of main.py (`build_recursive_hierarchy`): the
    direct callers of a function, each expanded in turn into its own callers,
    down to a maximum depth, with a set of names already on the path that
    stops cycles.

    The caller lookup (`find_function_callers`, modelled in `Locator`) is a
    parameter here: a function from a name to its ordered caller records. */
module Hierarchy {
  import opened Wrappers
  import opened Locator

  /** A caller record after the tree builder has written its `callers`,
      `total_callers`, `depth` and, for expanded callers, `is_recursive`
      onto it (main.py:303-320). */
  datatype Entry = Entry(
    site: CallSite,
    callers: seq<Entry>,
    totalCallers: int,
    depth: int,
    isRecursive: Option<bool>)

  /** The dictionary `build_recursive_hierarchy` returns. A terminal node
      carries `is_recursive` and no `max_depth_reached`; an expanded node the
      other way round (main.py:282-288, 324-330). */
  datatype Node = Node(
    functionName: string,
    callers: seq<Entry>,
    totalCallers: int,
    depth: int,
    isRecursive: Option<bool>,
    maxDepthReached: Option<bool>)

  /** The node for `name` at `depth`, given the names already on the path. */
  function Resolve(lookup: string -> seq<CallSite>, name: string, maxDepth: int,
                   visited: set<string>, depth: int): Node
    decreases maxDepth - depth, 1, 0
  {
    if depth >= maxDepth || name in visited then
      Node(name, [], 0, depth, Some(name in visited), None)
    else
      var callers := ExpandAll(lookup, name, maxDepth, visited + {name}, depth, lookup(name));
      Node(name, callers, |callers|, depth, None, Some(depth >= maxDepth - 1))
  }

  /** The entries for the caller records `cs` of `name`, in their order;
      `path` is the visited set with `name` added. */
  function ExpandAll(lookup: string -> seq<CallSite>, name: string, maxDepth: int,
                     path: set<string>, depth: int, cs: seq<CallSite>): seq<Entry>
    requires depth < maxDepth
    decreases maxDepth - depth, 0, |cs|
  {
    if cs == [] then []
    else ExpandAll(lookup, name, maxDepth, path, depth, cs[..|cs| - 1])
         + [ExpandOne(lookup, name, maxDepth, path, depth, cs[|cs| - 1])]
  }

  /** One caller record of `name`: a leaf when its caller is unknown or is
      `name` itself, otherwise the callers of the sub-tree for its caller. */
  function ExpandOne(lookup: string -> seq<CallSite>, name: string, maxDepth: int,
                     path: set<string>, depth: int, c: CallSite): Entry
    requires depth < maxDepth
    decreases maxDepth - depth, 0, 0
  {
    if c.callerFunction == "unknown" || c.callerFunction == name then
      Entry(c, [], 0, depth + 1, None)
    else
      var sub := Resolve(lookup, c.callerFunction, maxDepth, path, depth + 1);
      Entry(c, sub.callers, |sub.callers|, depth + 1, Some(sub.isRecursive.GetOr(false)))
  }

  /** The Python `set` passed down the recursion and updated in place. */
  class VisitedSet {
    var elems: set<string>

    /** `set()`, or `visited.copy()` of another set. */
    constructor (elems: set<string>)
      ensures this.elems == elems
    {
      this.elems := elems;
    }
  }

  /** `build_recursive_hierarchy` (main.py:269-330): the tree it returns is
      `Resolve` of the names on entry, and `visited` is back to what it was
      when the call returns. */
  method BuildRecursiveHierarchy(lookup: string -> seq<CallSite>, name: string, maxDepth: int,
                                 visited: VisitedSet, currentDepth: int)
    returns (r: Node)
    modifies visited
    ensures visited.elems == old(visited.elems)
    ensures r == Resolve(lookup, name, maxDepth, old(visited.elems), currentDepth)
    decreases maxDepth - currentDepth
  {
    if currentDepth >= maxDepth || name in visited.elems {
      return Node(name, [], 0, currentDepth, Some(name in visited.elems), None);
    }
    visited.elems := visited.elems + {name};
    var directCallers := lookup(name);
    var recursiveCallers: seq<Entry> := [];
    for i := 0 to |directCallers|
      invariant visited.elems == old(visited.elems) + {name}
      invariant recursiveCallers
                == ExpandAll(lookup, name, maxDepth, visited.elems, currentDepth, directCallers[..i])
    {
      var caller := directCallers[i];
      var callerFunction := caller.callerFunction;
      var entry: Entry;
      if callerFunction == "unknown" || callerFunction == name {
        entry := Entry(caller, [], 0, currentDepth + 1, None);
      } else {
        var copy := new VisitedSet(visited.elems);
        var sub := BuildRecursiveHierarchy(lookup, callerFunction, maxDepth, copy, currentDepth + 1);
        entry := Entry(caller, sub.callers, |sub.callers|, currentDepth + 1, Some(sub.isRecursive.GetOr(false)));
      }
      assert directCallers[..i + 1] == directCallers[..i] + [caller];
      recursiveCallers := recursiveCallers + [entry];
    }
    assert directCallers[..|directCallers|] == directCallers;
    visited.elems := visited.elems - {name};
    return Node(name, recursiveCallers, |recursiveCallers|, currentDepth, None, Some(currentDepth >= maxDepth - 1));
  }

  /** A terminal node: at or past the depth bound, or a name already on the
      path. It has no callers, says whether it was a repeat, has no
      `max_depth_reached`, and does not depend on the lookup at all. In
      particular a bound of 0 gives such a node at depth 0, marked not
      recursive. */
  lemma TerminalNode(lookup1: string -> seq<CallSite>, lookup2: string -> seq<CallSite>,
                     name: string, maxDepth: int, visited: set<string>, depth: int)
    requires depth >= maxDepth || name in visited
    ensures Resolve(lookup1, name, maxDepth, visited, depth)
            == Resolve(lookup2, name, maxDepth, visited, depth)
            == Node(name, [], 0, depth, Some(name in visited), None)
  {
  }

  /** The entries for a list of caller records are, in the same order, the
      entries for each record. */
  lemma {:induction false} ExpandAllEach(lookup: string -> seq<CallSite>, name: string, maxDepth: int,
                                         path: set<string>, depth: int, cs: seq<CallSite>)
    requires depth < maxDepth
    ensures var es := ExpandAll(lookup, name, maxDepth, path, depth, cs);
            |es| == |cs|
            && forall k :: 0 <= k < |cs| ==> es[k] == ExpandOne(lookup, name, maxDepth, path, depth, cs[k])
  {
    if cs != [] {
      ExpandAllEach(lookup, name, maxDepth, path, depth, cs[..|cs| - 1]);
    }
  }

  /** The entries of an expanded node: one per direct caller record, in the
      lookup's order, each one level deeper. A record whose caller is unknown
      or the function itself is a leaf without `is_recursive`; any other is
      marked recursive exactly when its caller is already among the visited
      names, and carries the callers of the sub-tree built on a copy of the
      visited set with `name` added. */
  lemma ExpandedNode(lookup: string -> seq<CallSite>, name: string, maxDepth: int,
                     visited: set<string>, depth: int)
    requires depth < maxDepth && name !in visited
    ensures var n := Resolve(lookup, name, maxDepth, visited, depth);
            && n.totalCallers == |n.callers| == |lookup(name)|
            && n.isRecursive == None && n.maxDepthReached == Some(depth >= maxDepth - 1)
            && forall k :: 0 <= k < |n.callers| ==>
                 var e := n.callers[k];
                 var f := lookup(name)[k].callerFunction;
                 && e.site == lookup(name)[k]
                 && e.depth == depth + 1
                 && e.totalCallers == |e.callers|
                 && (f == "unknown" || f == name ==> e.callers == [] && e.isRecursive == None)
                 && (f != "unknown" && f != name ==>
                       && e.isRecursive == Some(f in visited)
                       && e.callers == Resolve(lookup, f, maxDepth, visited + {name}, depth + 1).callers)
  {
    var path := visited + {name};
    ExpandAllEach(lookup, name, maxDepth, path, depth, lookup(name));
    forall k | 0 <= k < |lookup(name)|
      ensures var f := lookup(name)[k].callerFunction;
              f != "unknown" && f != name ==>
                ExpandOne(lookup, name, maxDepth, path, depth, lookup(name)[k]).isRecursive == Some(f in visited)
    {
      var f := lookup(name)[k].callerFunction;
      if f != "unknown" && f != name {
        assert f in path <==> f in visited;
      }
    }
  }

  /** Every entry of the tree, at any level: its depth is one more than its
      parent's, never beyond the bound, and `total_callers` counts its
      callers. */
  ghost predicate Shaped(e: Entry, depth: int, maxDepth: int)
    decreases e
  {
    && e.depth == depth && depth <= maxDepth
    && e.totalCallers == |e.callers|
    && forall k :: 0 <= k < |e.callers| ==> Shaped(e.callers[k], depth + 1, maxDepth)
  }

  /** Along any chain of expanded entries, no caller is expanded twice: an
      entry that has callers names a function that is not yet on the path. */
  ghost predicate Unrepeated(e: Entry, path: set<string>)
    decreases e
  {
    e.callers != [] ==>
      && e.site.callerFunction !in path
      && forall k :: 0 <= k < |e.callers| ==> Unrepeated(e.callers[k], path + {e.site.callerFunction})
  }

  /** The whole tree is shaped: the node sits at its own depth, counts its
      callers, and every entry below it is shaped. */
  lemma {:induction false} ResolveShaped(lookup: string -> seq<CallSite>, name: string, maxDepth: int,
                                         visited: set<string>, depth: int)
    ensures var n := Resolve(lookup, name, maxDepth, visited, depth);
            && n.functionName == name && n.depth == depth && n.totalCallers == |n.callers|
            && (n.isRecursive.Some? <==> n.maxDepthReached.None?)
            && forall k :: 0 <= k < |n.callers| ==> Shaped(n.callers[k], depth + 1, maxDepth)
    decreases maxDepth - depth, 1
  {
    if !(depth >= maxDepth || name in visited) {
      var path := visited + {name};
      var cs := lookup(name);
      ExpandAllEach(lookup, name, maxDepth, path, depth, cs);
      forall k | 0 <= k < |cs| ensures Shaped(ExpandOne(lookup, name, maxDepth, path, depth, cs[k]), depth + 1, maxDepth) {
        ExpandOneShaped(lookup, name, maxDepth, path, depth, cs[k]);
      }
    }
  }

  lemma {:induction false} ExpandOneShaped(lookup: string -> seq<CallSite>, name: string, maxDepth: int,
                                           path: set<string>, depth: int, c: CallSite)
    requires depth < maxDepth
    ensures Shaped(ExpandOne(lookup, name, maxDepth, path, depth, c), depth + 1, maxDepth)
    decreases maxDepth - depth, 0
  {
    if !(c.callerFunction == "unknown" || c.callerFunction == name) {
      ResolveShaped(lookup, c.callerFunction, maxDepth, path, depth + 1);
    }
  }

  /** The visited set stops every cycle: below an expanded node, no function
      is expanded a second time along any chain of callers, nor is any name
      that was visited on entry. */
  lemma {:induction false} ResolveUnrepeated(lookup: string -> seq<CallSite>, name: string, maxDepth: int,
                                             visited: set<string>, depth: int)
    ensures var n := Resolve(lookup, name, maxDepth, visited, depth);
            && (n.callers != [] ==> name !in visited)
            && forall k :: 0 <= k < |n.callers| ==> Unrepeated(n.callers[k], visited + {name})
    decreases maxDepth - depth, 1
  {
    if !(depth >= maxDepth || name in visited) {
      var path := visited + {name};
      var cs := lookup(name);
      ExpandAllEach(lookup, name, maxDepth, path, depth, cs);
      forall k | 0 <= k < |cs| ensures Unrepeated(ExpandOne(lookup, name, maxDepth, path, depth, cs[k]), path) {
        ExpandOneUnrepeated(lookup, name, maxDepth, path, depth, cs[k]);
      }
    }
  }

  lemma {:induction false} ExpandOneUnrepeated(lookup: string -> seq<CallSite>, name: string, maxDepth: int,
                                               path: set<string>, depth: int, c: CallSite)
    requires depth < maxDepth
    ensures Unrepeated(ExpandOne(lookup, name, maxDepth, path, depth, c), path)
    decreases maxDepth - depth, 0
  {
    var f := c.callerFunction;
    if !(f == "unknown" || f == name) {
      var sub := Resolve(lookup, f, maxDepth, path, depth + 1);
      ResolveUnrepeated(lookup, f, maxDepth, path, depth + 1);
      var e := ExpandOne(lookup, name, maxDepth, path, depth, c);
      assert e.site == c && e.callers == sub.callers;
      assert forall k :: 0 <= k < |e.callers| ==> Unrepeated(e.callers[k], path + {f});
    }
  }

  /** Two functions that call each other: the tree for `a` is `a` called by
      `b`, which is called by `a` again, where the recursion guard stops with
      a leaf marked recursive. */
  lemma MutualRecursionStops(siteB: CallSite, siteA: CallSite)
    requires siteB.callerFunction == "b" && siteA.callerFunction == "a"
    ensures var lookup := (f: string) => if f == "a" then [siteB] else if f == "b" then [siteA] else [];
            Resolve(lookup, "a", 10, {}, 0)
            == Node("a", [Entry(siteB, [Entry(siteA, [], 0, 2, Some(true))], 1, 1, Some(false))],
                    1, 0, None, Some(false))
  {
    var lookup := (f: string) => if f == "a" then [siteB] else if f == "b" then [siteA] else [];
    assert lookup("a") == [siteB] && lookup("b") == [siteA];
    var leaf := Entry(siteA, [], 0, 2, Some(true));
    assert {"a"} + {"b"} == {"a", "b"};
    assert ExpandOne(lookup, "b", 10, {"a", "b"}, 1, siteA) == leaf;
    assert ExpandAll(lookup, "b", 10, {"a", "b"}, 1, [siteA]) == [leaf] by {
      assert [siteA][..0] == [];
    }
    assert Resolve(lookup, "b", 10, {"a"}, 1) == Node("b", [leaf], 1, 1, None, Some(false));
    var top := Entry(siteB, [leaf], 1, 1, Some(false));
    assert ExpandOne(lookup, "a", 10, {} + {"a"}, 0, siteB) == top;
    assert ExpandAll(lookup, "a", 10, {} + {"a"}, 0, [siteB]) == [top] by {
      assert [siteB][..0] == [];
    }
  }
}
