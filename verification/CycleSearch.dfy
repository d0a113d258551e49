/** `detectCycle` of internal/core/dag/dag.go: a depth-first search that recolours
    one shared map while it visits dependencies. */
module CycleSearch {
  import opened Wrappers
  import opened Dag

  datatype Color = White | Gray | Black

  class Search {
    const idx: Index
    var color: map<string, Color>

    /** Black nodes in the order they were finished. */
    ghost var finished: seq<string>

    constructor (idx: Index)
      ensures this.idx == idx && color == map[] && finished == []
    {
      this.idx := idx;
      color := map[];
      finished := [];
    }

    /** A missing map entry reads as the zero colour. */
    function ColorOf(id: string): Color
      reads this`color
    {
      if id in color then color[id] else White
    }

    ghost function Whites(): set<string>
      reads this`color
    {
      set id | id in idx && ColorOf(id) == White
    }

    ghost predicate FinishedOk()
      reads this
    {
      && Topological(idx, finished)
      && (forall x :: ColorOf(x) == Black <==> x in finished)
    }

    /** Gray nodes form the current call stack, or were left gray by a visit that failed. */
    ghost predicate GrayOk(stack: seq<string>, left: set<string>)
      reads this`color
    {
      && (forall x :: ColorOf(x) == Gray <==> x in stack || x in left)
      && (forall x :: x in left ==> ReachesCycle(idx, x))
      && (forall i :: 0 <= i < |stack| - 1 ==> Edge(idx, stack[i], stack[i + 1]))
    }

    /** A call visits a white node under the call stack `stack`. It either blackens the
        node, or names a gray node it found, leaving every gray node able to reach a cycle. */
    method Visit(id: string, ghost stack: seq<string>, ghost left: set<string>)
      returns (bad: Option<string>)
      requires Closed(idx) && id in idx && ColorOf(id) == White
      requires FinishedOk() && GrayOk(stack, left)
      requires stack != [] ==> Edge(idx, stack[|stack| - 1], id)
      modifies this
      ensures FinishedOk()
      ensures Whites() <= old(Whites()) - {id}
      ensures bad.None? ==> GrayOk(stack, left) && ColorOf(id) == Black
      ensures bad.Some? ==> forall x :: ColorOf(x) == Gray ==> ReachesCycle(idx, x)
      ensures bad.Some? ==> bad.value in idx && ReachesCycle(idx, bad.value)
      ensures bad.Some? && left == {} ==> OnCycle(idx, bad.value)
      ensures forall x :: old(ColorOf(x)) == Black ==> ColorOf(x) == Black
      decreases |Whites()|
    {
      ghost var here := stack + [id];
      color := color[id := Gray];
      assert GrayOk(here, left);
      var deps := idx[id].deps;
      var i := 0;
      assert Whites() <= old(Whites()) - {id};
      while i < |deps|
        invariant 0 <= i <= |deps|
        invariant FinishedOk() && GrayOk(here, left)
        invariant Whites() <= old(Whites()) - {id}
        invariant forall k :: 0 <= k < i ==> deps[k] in finished
        invariant forall x :: old(ColorOf(x)) == Black ==> ColorOf(x) == Black
      {
        var dep := deps[i];
        assert Edge(idx, id, dep);
        if ColorOf(dep) == Gray {
          StackClosesCycle(here, left, dep);
          return Some(dep);
        } else if ColorOf(dep) == White {
          ShrinkSet(Whites(), old(Whites()), id);
          bad := Visit(dep, here, left);
          if bad.Some? {
            return;
          }
        }
        i := i + 1;
      }
      Blacken(id, stack, left);
      bad := None;
    }

    /** All dependencies are finished: the node leaves the stack. */
    method Blacken(id: string, ghost stack: seq<string>, ghost left: set<string>)
      requires FinishedOk() && GrayOk(stack + [id], left) && id !in stack && id !in left
      requires id in idx && forall k :: 0 <= k < |idx[id].deps| ==> idx[id].deps[k] in finished
      modifies this
      ensures FinishedOk() && GrayOk(stack, left) && ColorOf(id) == Black && Whites() <= old(Whites())
      ensures forall x :: old(ColorOf(x)) == Black ==> ColorOf(x) == Black
    {
      ghost var here := stack + [id];
      assert id in here;
      assert forall i :: 0 <= i < |stack| - 1 ==> Edge(idx, stack[i], stack[i + 1]) by {
        assert forall i :: 0 <= i < |stack| ==> here[i] == stack[i];
      }
      TopologicalExtend(idx, finished, id);
      color := color[id := Black];
      finished := finished + [id];
    }

    /** A dependency of the top of the stack that is gray itself: everything gray reaches a
        cycle, and the dependency lies on one if no earlier visit failed. */
    lemma StackClosesCycle(here: seq<string>, left: set<string>, dep: string)
      requires here != [] && GrayOk(here, left) && ColorOf(dep) == Gray
      requires Edge(idx, here[|here| - 1], dep)
      ensures ReachesCycle(idx, dep)
      ensures forall x :: ColorOf(x) == Gray ==> ReachesCycle(idx, x)
      ensures left == {} ==> OnCycle(idx, dep)
    {
      if dep !in left {
        var k :| 0 <= k < |here| && here[k] == dep;
        StackReaches(here, k, dep);
      }
      forall x | ColorOf(x) == Gray && x !in left
        ensures ReachesCycle(idx, x)
      {
        var k :| 0 <= k < |here| && here[k] == x;
        StackReaches(here, k, dep);
        ReachesCycleBack(idx, x, dep);
      }
    }

    lemma StackReaches(here: seq<string>, k: nat, dep: string)
      requires k < |here| && Edge(idx, here[|here| - 1], dep)
      requires forall i :: 0 <= i < |here| - 1 ==> Edge(idx, here[i], here[i + 1])
      ensures Reaches(idx, here[k], dep)
      decreases |here| - k
    {
      if k == |here| - 1 {
        EdgeReaches(idx, here[k], dep);
      } else {
        StackReaches(here, k + 1, dep);
        EdgeReaches(idx, here[k], here[k + 1]);
        ReachesTransitive(idx, here[k], here[k + 1], dep);
      }
    }
  }

  lemma ShrinkSet(a: set<string>, b: set<string>, x: string)
    requires x in b && a <= b - {x}
    ensures |a| < |b|
  {
    SubsetSize(a, b - {x});
  }

  /** The search over all ids, in whatever order the map iteration yields them: it reports
      nothing exactly when the graph is acyclic, its first report names a node on a cycle,
      and every report names a node from which a cycle can be reached. */
  method DetectCycle(idx: Index) returns (errs: seq<string>)
    requires Closed(idx)
    ensures errs == [] <==> Acyclic(idx)
    ensures errs != [] ==> errs[0] in idx && OnCycle(idx, errs[0])
    ensures forall i :: 0 <= i < |errs| ==> errs[i] in idx && ReachesCycle(idx, errs[i])
  {
    var s := new Search(idx);
    errs := [];
    var todo := idx.Keys;
    ghost var left: set<string> := {};
    while todo != {}
      invariant fresh(s) && s.idx == idx && todo <= idx.Keys
      invariant s.FinishedOk() && s.GrayOk([], left)
      invariant errs == [] ==> left == {}
      invariant forall x :: x in idx && x !in todo ==> s.ColorOf(x) != White
      invariant errs != [] ==> errs[0] in idx && OnCycle(idx, errs[0])
      invariant forall i :: 0 <= i < |errs| ==> errs[i] in idx && ReachesCycle(idx, errs[i])
      decreases todo
    {
      var id :| id in todo;
      todo := todo - {id};
      if s.ColorOf(id) == White {
        var bad := s.Visit(id, [], left);
        if bad.Some? {
          errs := errs + [bad.value];
          left := set x | x in s.color && s.ColorOf(x) == Gray;
        }
        assert forall x :: x in idx && s.ColorOf(x) == White ==> x in s.Whites();
      }
    }
    if errs == [] {
      forall x | x in idx
        ensures !OnCycle(idx, x)
      {
        assert s.ColorOf(x) == Black;
        TopologicalNoCycle(idx, s.finished, x);
      }
    }
  }
}
