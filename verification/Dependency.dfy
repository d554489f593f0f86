/**
 Invalidation propagation over the cognitive dependency graph
 (crates/coevo-customs/src/dependency.rs, lines 47-82, with the queries of
 crates/coevo-store/src/repos/cognitive_edge_repo.rs and blackboard_repo.rs).
 */
module Dependency {

  /** `source` depends on `target`. */
  datatype Edge = Edge(source: string, target: string)

  predicate DependsOn(edges: seq<Edge>, x: string, y: string) {
    Edge(x, y) in edges
  }

  // ---- Reachability, the meaning of the traversal ----

  /** Each entry after the first is in `valid` and depends on the one before it. */
  predicate IsPath(edges: seq<Edge>, valid: set<string>, p: seq<string>) {
    var n := |p| - 1;
    p != [] && (n == 0 || (IsPath(edges, valid, p[..n]) && p[n] in valid && DependsOn(edges, p[n], p[n - 1])))
  }

  ghost predicate PathFromTo(edges: seq<Edge>, valid: set<string>, p: seq<string>, from: string, to: string) {
    IsPath(edges, valid, p) && p[0] == from && p[|p| - 1] == to
  }

  ghost predicate Reaches(edges: seq<Edge>, valid: set<string>, from: string, to: string) {
    exists p :: PathFromTo(edges, valid, p, from, to)
  }

  /** The root and every entry that depends on it, directly or through valid entries. */
  ghost function Affected(edges: seq<Edge>, valid: set<string>, root: string): (r: set<string>)
    ensures forall x :: x in r <==> Reaches(edges, valid, root, x)
  {
    forall x | Reaches(edges, valid, root, x)
      ensures x in valid + {root}
    {
      EndIsValid(edges, valid, root, x);
    }
    set x | x in valid + {root} && Reaches(edges, valid, root, x)
  }

  lemma EndIsValid(edges: seq<Edge>, valid: set<string>, root: string, x: string)
    requires Reaches(edges, valid, root, x)
    ensures x in valid + {root}
  {
  }

  /** The valid entries after propagating from `root`; the root's own flag is not touched. */
  ghost function After(edges: seq<Edge>, valid: set<string>, root: string): set<string> {
    valid - (Affected(edges, valid, root) - {root})
  }

  lemma RootReached(edges: seq<Edge>, valid: set<string>, root: string)
    ensures Reaches(edges, valid, root, root)
  {
    assert PathFromTo(edges, valid, [root], root, root);
  }

  lemma StepReached(edges: seq<Edge>, valid: set<string>, root: string, x: string, y: string)
    requires Reaches(edges, valid, root, x) && y in valid && DependsOn(edges, y, x)
    ensures Reaches(edges, valid, root, y)
  {
    var p :| PathFromTo(edges, valid, p, root, x);
    assert (p + [y])[..|p|] == p;
    assert PathFromTo(edges, valid, p + [y], root, y);
  }

  /** A set that holds the root and every valid dependent of its members holds all that is reached. */
  lemma {:induction false} ClosedHoldsReached(edges: seq<Edge>, valid: set<string>, closed: set<string>, p: seq<string>)
    requires IsPath(edges, valid, p) && p[0] in closed
    requires forall x, y | x in closed && y in valid && DependsOn(edges, y, x) :: y in closed
    ensures p[|p| - 1] in closed
    decreases |p|
  {
    if |p| > 1 {
      ClosedHoldsReached(edges, valid, closed, p[..|p| - 1]);
    }
  }

  // ---- Bookkeeping of the traversal ----

  /** What has been visited is exactly what is listed, once each, and all of it is reached. */
  ghost predicate Listed(edges: seq<Edge>, valid: set<string>, root: string, visited: set<string>, list: seq<string>) {
    && root in visited
    && (forall x :: x in list <==> x in visited)
    && (forall i, j | 0 <= i < j < |list| :: list[i] != list[j])
    && (forall x | x in visited :: Reaches(edges, valid, root, x))
  }

  /** Visited entries are processed, queued or current; dependents of processed ones are visited. */
  ghost predicate Pending(edges: seq<Edge>, valid: set<string>, visited: set<string>, processed: set<string>,
                          queue: seq<string>, current: set<string>)
  {
    && (forall x | x in visited :: x in processed || x in queue || x in current)
    && (forall x | x in queue :: x in visited)
    && (forall x, y | x in processed && y in valid && DependsOn(edges, y, x) :: y in visited)
  }

  lemma Discover(edges: seq<Edge>, valid: set<string>, root: string, visited: set<string>, list: seq<string>,
                 processed: set<string>, queue: seq<string>, current: string, source: string)
    requires Listed(edges, valid, root, visited, list) && Pending(edges, valid, visited, processed, queue, {current})
    requires current in visited && source !in visited && source in valid && DependsOn(edges, source, current)
    ensures Listed(edges, valid, root, visited + {source}, list + [source])
    ensures Pending(edges, valid, visited + {source}, processed, queue + [source], {current})
  {
    StepReached(edges, valid, root, current, source);
  }

  lemma AllReachedVisited(edges: seq<Edge>, valid: set<string>, root: string, visited: set<string>, list: seq<string>,
                          processed: set<string>)
    requires Listed(edges, valid, root, visited, list) && Pending(edges, valid, visited, processed, [], {})
    ensures forall x :: x in list <==> x in Affected(edges, valid, root)
    ensures forall i, j | 0 <= i < j < |list| :: list[i] != list[j]
    ensures valid - (visited - {root}) == After(edges, valid, root)
  {
    forall x | Reaches(edges, valid, root, x)
      ensures x in visited
    {
      var p :| PathFromTo(edges, valid, p, root, x);
      ClosedHoldsReached(edges, valid, visited, p);
    }
    assert visited == Affected(edges, valid, root);
  }

  lemma StartListed(edges: seq<Edge>, valid: set<string>, root: string)
    ensures Listed(edges, valid, root, {root}, [root]) && Pending(edges, valid, {root}, {}, [root], {})
  {
    RootReached(edges, valid, root);
  }

  lemma Finished(edges: seq<Edge>, valid: set<string>, visited: set<string>, processed: set<string>,
                 queue: seq<string>, current: string)
    requires Pending(edges, valid, visited, processed, queue, {current})
    requires forall y | y in valid && DependsOn(edges, y, current) :: y in visited
    ensures Pending(edges, valid, visited, processed + {current}, queue, {})
  {
  }

  // ---- The stored graph and the traversal ----

  class Store {
    var edges: seq<Edge>
    /** The blackboard entries by id, with their `is_valid` flag. */
    var entries: map<string, bool>

    ghost function ValidSet(): set<string>
      reads this
    {
      set id | id in entries && entries[id]
    }

    lemma KeysHoldValid()
      ensures ValidSet() <= entries.Keys
    {
    }

    method AddEdge(source: string, target: string)
      modifies this
      ensures edges == old(edges) + [Edge(source, target)] && entries == old(entries)
    {
      edges := edges + [Edge(source, target)];
    }

    /** The edges to `target` whose source is an entry that is valid now; their order is not promised. */
    method FindDependents(target: string) returns (dependents: seq<Edge>)
      ensures forall e :: e in dependents <==> e in edges && e.target == target && e.source in ValidSet()
    {
      dependents := [];
      for n := 0 to |edges|
        invariant forall e :: e in dependents <==> e in edges[..n] && e.target == target && e.source in ValidSet()
      {
        assert edges[..n + 1] == edges[..n] + [edges[n]];
        if edges[n].target == target && edges[n].source in entries && entries[edges[n].source] {
          dependents := dependents + [edges[n]];
        }
      }
      assert edges[..|edges|] == edges;
    }

    method Invalidate(id: string)
      modifies this
      ensures edges == old(edges) && entries.Keys == old(entries.Keys)
      ensures ValidSet() == old(ValidSet()) - {id}
    {
      if id in entries {
        entries := entries[id := false];
      }
    }

    /**
     Returns the root and every entry it affects, each once, and clears the flag of those other
     than the root. Cycles are allowed: the unvisited entries and the queue together shrink.
     */
    method PropagateInvalidation(root: string) returns (invalidated: seq<string>)
      modifies this
      ensures edges == old(edges) && entries.Keys == old(entries.Keys)
      ensures forall i, j | 0 <= i < j < |invalidated| :: invalidated[i] != invalidated[j]
      ensures forall x :: x in invalidated <==> x in Affected(edges, old(ValidSet()), root)
      ensures ValidSet() == After(edges, old(ValidSet()), root)
    {
      hide Reaches, Pending, Listed, ValidSet, Affected, After;
      invalidated := [root];
      var visited := {root};
      var queue := [root];
      ghost var graph, valid0 := edges, ValidSet();
      ghost var universe := entries.Keys + {root};
      ghost var processed: set<string> := {};
      StartListed(graph, valid0, root);
      while queue != []
        invariant edges == graph && entries.Keys == old(entries.Keys)
        invariant Listed(graph, valid0, root, visited, invalidated) && visited <= universe
        invariant Pending(graph, valid0, visited, processed, queue, {})
        invariant ValidSet() == valid0 - (visited - {root})
        decreases |universe - visited| + |queue|
      {
        var current := queue[0];
        PopQueue(graph, valid0, visited, processed, queue);
        RootListed(graph, valid0, root, visited, invalidated);
        queue := queue[1..];
        var dependents := FindDependents(current);
        ghost var budget, before := |universe - visited| + |queue|, visited;
        assert forall e | e in dependents :: e in graph && e.target == current && e.source in valid0;
        assert forall y | y in valid0 && Edge(y, current) in graph :: y in before || Edge(y, current) in dependents;
        KeysHoldValid();
        for n := 0 to |dependents|
          invariant edges == graph && entries.Keys == old(entries.Keys)
          invariant Listed(graph, valid0, root, visited, invalidated)
          invariant root in visited && current in visited && visited <= universe
          invariant Pending(graph, valid0, visited, processed, queue, {current})
          invariant before <= visited && forall i | 0 <= i < n :: dependents[i].source in visited
          invariant ValidSet() == valid0 - (visited - {root})
          invariant |universe - visited| + |queue| == budget
        {
          var source := dependents[n].source;
          assert dependents[n] in dependents;
          if source == current || source in visited {
            continue;
          }
          Shrink(universe, valid0, root, visited, source);
          Discover(graph, valid0, root, visited, invalidated, processed, queue, current, source);
          visited := visited + {source};
          queue := queue + [source];
          invalidated := invalidated + [source];
          Invalidate(source);
        }
        Finished(graph, valid0, visited, processed, queue, current);
        processed := processed + {current};
      }
      AllReachedVisited(graph, valid0, root, visited, invalidated, processed);
    }
  }

  /** One more visited entry: one fewer unvisited, one fewer valid. */
  lemma Shrink(universe: set<string>, valid: set<string>, root: string, visited: set<string>, source: string)
    requires source !in visited && source in universe && root in visited
    ensures |universe - (visited + {source})| == |universe - visited| - 1
    ensures (valid - (visited - {root})) - {source} == valid - ((visited + {source}) - {root})
  {
    assert universe - (visited + {source}) == (universe - visited) - {source};
  }

  lemma RootListed(edges: seq<Edge>, valid: set<string>, root: string, visited: set<string>, list: seq<string>)
    requires Listed(edges, valid, root, visited, list)
    ensures root in visited
  {
  }

  lemma PopQueue(edges: seq<Edge>, valid: set<string>, visited: set<string>, processed: set<string>, queue: seq<string>)
    requires queue != [] && Pending(edges, valid, visited, processed, queue, {})
    ensures queue[0] in visited && Pending(edges, valid, visited, processed, queue[1..], {queue[0]})
  {
  }
}
