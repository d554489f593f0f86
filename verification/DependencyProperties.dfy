/** Propagation is closed, idempotent, and independent of the order of already invalid roots. */
module DependencyProperties {
  import opened Dependency

  // ---- One propagation ----

  /** No valid entry other than the root depends on anything that was returned. */
  lemma NoValidDependentLeft(edges: seq<Edge>, valid: set<string>, root: string, x: string, y: string)
    requires x in Affected(edges, valid, root) && DependsOn(edges, y, x) && y in After(edges, valid, root)
    ensures y == root
  {
    StepReached(edges, valid, root, x, y);
  }

  lemma {:induction false} PathMono(edges: seq<Edge>, small: set<string>, large: set<string>, p: seq<string>)
    requires small <= large && IsPath(edges, small, p)
    ensures IsPath(edges, large, p)
    decreases |p|
  {
    if |p| > 1 {
      PathMono(edges, small, large, p[..|p| - 1]);
    }
  }

  lemma ReachesMono(edges: seq<Edge>, small: set<string>, large: set<string>, from: string, to: string)
    requires small <= large && Reaches(edges, small, from, to)
    ensures Reaches(edges, large, from, to)
  {
    var p :| PathFromTo(edges, small, p, from, to);
    PathMono(edges, small, large, p);
    assert PathFromTo(edges, large, p, from, to);
  }

  /** A second run from the same root finds only the root and changes nothing. */
  lemma RepeatChangesNothing(edges: seq<Edge>, valid: set<string>, root: string)
    ensures var once := After(edges, valid, root);
      Affected(edges, once, root) == {root} && After(edges, once, root) == once
  {
    hide Reaches;
    var once := After(edges, valid, root);
    RootReached(edges, once, root);
    forall x | x in Affected(edges, once, root)
      ensures x == root
    {
      ReachesMono(edges, once, valid, root, x);
      EndIsValid(edges, once, root, x);
      assert x in Affected(edges, valid, root);
    }
  }

  // ---- Two propagations ----

  /**
   Along a path whose end the first root does not affect, nothing is affected, so the whole path
   survives the first propagation.
   */
  lemma {:induction false} PathSurvives(edges: seq<Edge>, valid: set<string>, first: string, p: seq<string>)
    requires IsPath(edges, valid, p) && p[|p| - 1] !in Affected(edges, valid, first)
    ensures IsPath(edges, After(edges, valid, first), p)
    decreases |p|
  {
    hide Reaches;
    var n := |p| - 1;
    if n > 0 {
      if p[n - 1] in Affected(edges, valid, first) {
        StepReached(edges, valid, first, p[n - 1], p[n]);
        assert false;
      }
      PathSurvives(edges, valid, first, p[..n]);
    }
  }

  /** An entry that the first root does not affect is reached afterwards exactly when it was before. */
  lemma ReachAfter(edges: seq<Edge>, valid: set<string>, first: string, second: string, x: string)
    requires x !in Affected(edges, valid, first)
    ensures Reaches(edges, After(edges, valid, first), second, x) <==> Reaches(edges, valid, second, x)
  {
    if Reaches(edges, valid, second, x) {
      var p :| PathFromTo(edges, valid, p, second, x);
      PathSurvives(edges, valid, first, p);
      assert PathFromTo(edges, After(edges, valid, first), p, second, x);
    }
    if Reaches(edges, After(edges, valid, first), second, x) {
      ReachesMono(edges, After(edges, valid, first), valid, second, x);
    }
  }

  /**
   `root`, if valid and reached from `other` at all, is reached through entries that do not
   themselves depend on `root`: it does not shelter behind entries that it invalidates itself.
   */
  ghost predicate Exposed(edges: seq<Edge>, valid: set<string>, root: string, other: string) {
    root in valid && Reaches(edges, valid, other, root) ==>
      Reaches(edges, valid - (Affected(edges, valid, root) - {root}), other, root)
  }

  /** Which entries are still valid after two propagations. */
  lemma AfterBoth(edges: seq<Edge>, valid: set<string>, first: string, second: string, x: string)
    requires first != second
    ensures x in After(edges, After(edges, valid, first), second) <==>
      && x in valid
      && (x != first ==> x !in Affected(edges, valid, first))
      && (x != second && x != first ==> x !in Affected(edges, valid, second))
      && (x == first ==> !Reaches(edges, After(edges, valid, first), second, first))
  {
    hide Reaches;
    if x !in Affected(edges, valid, first) {
      ReachAfter(edges, valid, first, second, x);
    }
    RootReached(edges, valid, first);
  }

  /**
   Two propagations commute exactly when neither valid root shelters behind its own dependents.
   On a cycle through two valid roots this fails; with invalid roots it always holds.
   */
  lemma CommuteExactly(edges: seq<Edge>, valid: set<string>, r1: string, r2: string)
    ensures After(edges, After(edges, valid, r1), r2) == After(edges, After(edges, valid, r2), r1)
       <==> r1 == r2 || (Exposed(edges, valid, r1, r2) && Exposed(edges, valid, r2, r1))
    ensures r1 !in valid && r2 !in valid ==>
      After(edges, After(edges, valid, r1), r2) == After(edges, After(edges, valid, r2), r1)
  {
    hide Reaches;
    if r1 != r2 {
      var a, b := After(edges, After(edges, valid, r1), r2), After(edges, After(edges, valid, r2), r1);
      forall x
        ensures x != r1 && x != r2 ==> (x in a <==> x in b)
      {
        AfterBoth(edges, valid, r1, r2, x);
        AfterBoth(edges, valid, r2, r1, x);
      }
      RootAgrees(edges, valid, r1, r2);
      RootAgrees(edges, valid, r2, r1);
    }
  }

  /** The two orders agree on the flag of `root` exactly when it is exposed to `other`. */
  lemma RootAgrees(edges: seq<Edge>, valid: set<string>, root: string, other: string)
    requires root != other
    ensures (root in After(edges, After(edges, valid, root), other)
      <==> root in After(edges, After(edges, valid, other), root))
       <==> Exposed(edges, valid, root, other)
  {
    hide Reaches;
    AfterBoth(edges, valid, root, other, root);
    AfterBoth(edges, valid, other, root, root);
    if Reaches(edges, After(edges, valid, root), other, root) {
      ReachesMono(edges, After(edges, valid, root), valid, other, root);
    }
  }

  /** `a` and `p` depend on each other and `p` on `b`: the order of the roots shows in the flag of `a`. */
  lemma CycleDoesNotCommute(edges: seq<Edge>)
    requires edges == [Edge("p", "a"), Edge("p", "b"), Edge("a", "p")]
    ensures After(edges, After(edges, {"a", "p"}, "a"), "b") != After(edges, After(edges, {"a", "p"}, "b"), "a")
  {
    hide Affected, Reaches, PathFromTo, IsPath;
    var valid := {"a", "p"};
    assert edges[0] in edges && edges[1] in edges && edges[2] in edges;
    RootReached(edges, valid, "a");
    StepReached(edges, valid, "a", "a", "p");
    RootReached(edges, valid, "b");
    StepReached(edges, valid, "b", "b", "p");
    StepReached(edges, valid, "b", "p", "a");
    AfterDropsP(edges, valid);
    AfterBoth(edges, valid, "a", "b", "a");
    AfterBoth(edges, valid, "b", "a", "a");
  }

  lemma AfterDropsP(edges: seq<Edge>, valid: set<string>)
    requires edges == [Edge("p", "a"), Edge("p", "b"), Edge("a", "p")]
    requires valid == {"a", "p"} && Reaches(edges, valid, "a", "p")
    ensures !Reaches(edges, After(edges, valid, "a"), "b", "a")
  {
    hide Reaches, IsPath;
    var left := After(edges, valid, "a");
    assert "p" !in left;
    if Reaches(edges, left, "b", "a") {
      var p := PathOf(edges, left, "b", "a");
      ClosedHoldsReached(edges, left, {"b"}, p);
      assert false;
    }
  }

  lemma PathOf(edges: seq<Edge>, valid: set<string>, from: string, to: string) returns (p: seq<string>)
    requires Reaches(edges, valid, from, to)
    ensures PathFromTo(edges, valid, p, from, to)
  {
    p :| PathFromTo(edges, valid, p, from, to);
  }

  // ---- Any number of propagations ----

  ghost function AfterAll(edges: seq<Edge>, valid: set<string>, roots: seq<string>): set<string> {
    if roots == [] then valid else AfterAll(edges, After(edges, valid, roots[0]), roots[1..])
  }

  /** From invalid roots, what remains is what no root affects, whatever the order and repetitions. */
  lemma {:induction false} RemainsUnaffected(edges: seq<Edge>, valid: set<string>, roots: seq<string>, x: string)
    requires forall r | r in roots :: r !in valid
    ensures x in AfterAll(edges, valid, roots)
       <==> x in valid && forall r | r in roots :: x !in Affected(edges, valid, r)
    decreases |roots|
  {
    hide Reaches;
    if roots == [] {
    } else {
      var first, rest := roots[0], roots[1..];
      var valid' := After(edges, valid, first);
      assert roots == [first] + rest;
      RemainsUnaffected(edges, valid', rest, x);
      if x in valid && x !in Affected(edges, valid, first) {
        forall r | r in rest
          ensures x in Affected(edges, valid', r) <==> x in Affected(edges, valid, r)
        {
          ReachAfter(edges, valid, first, r, x);
        }
      }
    }
  }

  /** Propagating from the same invalid roots in any order ends with the same validity flags. */
  lemma OrderIrrelevant(edges: seq<Edge>, valid: set<string>, roots: seq<string>, roots': seq<string>)
    requires forall r | r in roots :: r !in valid
    requires forall r :: r in roots <==> r in roots'
    ensures AfterAll(edges, valid, roots) == AfterAll(edges, valid, roots')
  {
    hide Affected, AfterAll;
    forall x
      ensures x in AfterAll(edges, valid, roots) <==> x in AfterAll(edges, valid, roots')
    {
      RemainsUnaffected(edges, valid, roots, x);
      RemainsUnaffected(edges, valid, roots', x);
    }
  }
}
