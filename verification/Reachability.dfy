/** The worklist search of the benchmark evaluation: every function reachable from an
    entry function in the direct call map. */
module Reachability {

  type Graph = map<string, seq<string>>

  function Callees(graph: Graph, f: string): seq<string> {
    if f in graph then graph[f] else []
  }

  /** `path` leads from source to target along direct calls. */
  predicate IsPath(graph: Graph, source: string, target: string, path: seq<string>) {
    && |path| > 0 && path[0] == source && path[|path| - 1] == target
    && forall i :: 0 <= i < |path| - 1 ==> path[i + 1] in Callees(graph, path[i])
  }

  ghost predicate Reaches(graph: Graph, source: string, target: string) {
    exists path :: IsPath(graph, source, target, path)
  }

  lemma ReachesItself(graph: Graph, source: string)
    ensures Reaches(graph, source, source)
  {
    assert IsPath(graph, source, source, [source]);
  }

  lemma ReachesCallee(graph: Graph, source: string, f: string, callee: string)
    requires Reaches(graph, source, f) && callee in Callees(graph, f)
    ensures Reaches(graph, source, callee)
  {
    var path :| IsPath(graph, source, f, path);
    assert IsPath(graph, source, callee, path + [callee]);
  }

  /** A set that contains the source and all callees of its members contains whatever a
      path from the source meets. */
  lemma {:induction false} ClosedContainsPath(graph: Graph, source: string, target: string, path: seq<string>,
                                              closed: set<string>)
    requires IsPath(graph, source, target, path) && source in closed
    requires forall f, callee :: f in closed && callee in Callees(graph, f) ==> callee in closed
    ensures target in closed
    decreases |path|
  {
    var last := |path| - 1;
    if last > 0 {
      ClosedContainsPath(graph, source, path[last - 1], path[..last], closed);
      assert path[last] in Callees(graph, path[last - 1]);
    }
  }

  /** All functions the search can ever meet. */
  function Universe(graph: Graph, entry: string): set<string> {
    {entry} + graph.Keys + set f, i | f in graph && 0 <= i < |graph[f]| :: graph[f][i]
  }

  /** Terminates on every finite graph, with cycles and repeated stack entries, because a
      round either sees a new function or shortens the stack. */
  method ReachableFunctions(entry: string, graph: Graph) returns (seen: set<string>)
    ensures forall f :: f in seen <==> Reaches(graph, entry, f)
  {
    seen := {};
    var stack := [entry];
    ReachesItself(graph, entry);
    while stack != []
      invariant seen <= Universe(graph, entry) && forall f :: f in stack ==> f in Universe(graph, entry)
      invariant entry in seen || entry in stack
      invariant forall f :: f in seen || f in stack ==> Reaches(graph, entry, f)
      invariant forall f, callee :: f in seen && callee in Callees(graph, f) ==> callee in seen || callee in stack
      decreases Universe(graph, entry) - seen, |stack|
    {
      var current := stack[|stack| - 1];
      ghost var popped := stack;
      stack := stack[..|stack| - 1];
      assert forall f :: f in popped <==> f in stack || f == current;
      if current in seen {
        continue;
      }
      seen := seen + {current};
      stack := stack + Callees(graph, current);
      forall callee | callee in Callees(graph, current) ensures Reaches(graph, entry, callee) {
        ReachesCallee(graph, entry, current, callee);
      }
    }
    forall f | Reaches(graph, entry, f) ensures f in seen {
      var path :| IsPath(graph, entry, f, path);
      ClosedContainsPath(graph, entry, f, path, seen);
    }
  }
}
