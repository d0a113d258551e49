/** `Graph` and `Registry` of internal/core/dag/dag.go, as objects updated in place. */
module DagGraph {
  import opened Wrappers
  import opened Dag
  import CycleSearch

  datatype Result<+T> = Ok(value: T) | Err(error: GraphError)

  predicate DepsDone(n: Node, done: set<string>) {
    forall d :: d in n.deps ==> d in done
  }

  /** The nodes `Ready` selects, in graph order. */
  function ReadyNodes(nodes: seq<Node>, done: set<string>): seq<Node> {
    if nodes == [] then []
    else
      var n := nodes[|nodes| - 1];
      ReadyNodes(nodes[..|nodes| - 1], done) + if n.id !in done && DepsDone(n, done) then [n] else []
  }

  /** The nodes `ReadyAlwaysRun` selects, in graph order. */
  function PendingAlwaysRun(nodes: seq<Node>, done: set<string>): seq<Node> {
    if nodes == [] then []
    else
      var n := nodes[|nodes| - 1];
      PendingAlwaysRun(nodes[..|nodes| - 1], done) + if n.id !in done && n.alwaysRun then [n] else []
  }

  lemma {:induction false} ReadyExactly(nodes: seq<Node>, done: set<string>)
    ensures forall n :: n in ReadyNodes(nodes, done) <==> n in nodes && n.id !in done && DepsDone(n, done)
    ensures UniqueIds(nodes) ==> UniqueIds(ReadyNodes(nodes, done))
  {
    if nodes != [] {
      var init, last := nodes[..|nodes| - 1], nodes[|nodes| - 1];
      assert nodes == init + [last];
      ReadyExactly(init, done);
    }
  }

  lemma {:induction false} PendingAlwaysRunExactly(nodes: seq<Node>, done: set<string>)
    ensures forall n :: n in PendingAlwaysRun(nodes, done) <==> n in nodes && n.id !in done && n.alwaysRun
    ensures UniqueIds(nodes) ==> UniqueIds(PendingAlwaysRun(nodes, done))
  {
    if nodes != [] {
      var init, last := nodes[..|nodes| - 1], nodes[|nodes| - 1];
      assert nodes == init + [last];
      PendingAlwaysRunExactly(init, done);
    }
  }

  class Graph {
    var nodes: seq<Node>

    constructor ()
      ensures nodes == []
    {
      nodes := [];
    }

    /** Uniqueness of ids is kept by `Add`, and by nothing else. */
    method Add(n: Node) returns (r: Option<GraphError>)
      modifies this
      ensures r.None? <==> n.id !in Ids(old(nodes))
      ensures r.None? ==> nodes == old(nodes) + [n]
      ensures r.Some? ==> nodes == old(nodes) && r.value == DuplicateId(n.id)
      ensures UniqueIds(old(nodes)) ==> UniqueIds(nodes)
    {
      for i := 0 to |nodes|
        invariant nodes == old(nodes)
        invariant forall j :: 0 <= j < i ==> nodes[j].id != n.id
      {
        if nodes[i].id == n.id {
          return Some(DuplicateId(n.id));
        }
      }
      nodes := nodes + [n];
      r := None;
    }

    method Index() returns (idx: Dag.Index)
      ensures idx == IndexOf(nodes)
    {
      idx := map[];
      for i := 0 to |nodes|
        invariant idx == IndexOf(nodes[..i])
      {
        assert nodes[..i + 1][..i] == nodes[..i];
        idx := idx[nodes[i].id := nodes[i]];
      }
      assert nodes[..|nodes|] == nodes;
    }

    /** Accepts exactly the graphs whose dependencies exist and which have no cycle. */
    method Validate() returns (r: Option<GraphError>)
      ensures r.None? <==> ValidNodes(nodes)
      ensures r.Some? && r.value.UnknownDep? ==>
                r.value.dep !in Ids(nodes) && exists n :: n in nodes && n.id == r.value.node && r.value.dep in n.deps
      ensures r.Some? && r.value.Cycles? ==>
                DepsKnown(nodes) && r.value.at != [] && OnCycle(IndexOf(nodes), r.value.at[0])
      ensures r.Some? ==> r.value.UnknownDep? || r.value.Cycles?
    {
      var idx := Index();
      for i := 0 to |nodes|
        invariant forall k, d :: 0 <= k < i && d in nodes[k].deps ==> d in idx
      {
        var deps := nodes[i].deps;
        for j := 0 to |deps|
          invariant forall k :: 0 <= k < j ==> deps[k] in idx
        {
          if deps[j] !in idx {
            assert nodes[i] in nodes && deps[j] in nodes[i].deps;
            return Some(UnknownDep(nodes[i].id, deps[j]));
          }
        }
      }
      assert DepsKnown(nodes);
      var errs := CycleSearch.DetectCycle(idx);
      r := if errs == [] then None else Some(Cycles(errs));
    }

    method Ready(done: set<string>) returns (ready: seq<Node>)
      ensures ready == ReadyNodes(nodes, done)
    {
      ready := [];
      for i := 0 to |nodes|
        invariant ready == ReadyNodes(nodes[..i], done)
      {
        var n := nodes[i];
        assert nodes[..i + 1][..i] == nodes[..i];
        if n.id !in done {
          var complete := DepsComplete(n, done);
          if complete {
            ready := ready + [n];
          }
        }
      }
      assert nodes[..|nodes|] == nodes;
    }

    method ReadyAlwaysRun(done: set<string>) returns (ready: seq<Node>)
      ensures ready == PendingAlwaysRun(nodes, done)
    {
      ready := [];
      for i := 0 to |nodes|
        invariant ready == PendingAlwaysRun(nodes[..i], done)
      {
        var n := nodes[i];
        assert nodes[..i + 1][..i] == nodes[..i];
        if !(n.id in done || !n.alwaysRun) {
          ready := ready + [n];
        }
      }
      assert nodes[..|nodes|] == nodes;
    }

    method DepsComplete(n: Node, done: set<string>) returns (complete: bool)
      ensures complete <==> DepsDone(n, done)
    {
      for i := 0 to |n.deps|
        invariant forall k :: 0 <= k < i ==> n.deps[k] in done
      {
        if n.deps[i] !in done {
          return false;
        }
      }
      complete := true;
    }
  }

  // ---- serialised form ----

  /** The serialised nodes: everything but a node's task. */
  function Strip(nodes: seq<Node>): (s: seq<Node>)
    ensures |s| == |nodes|
    ensures forall i :: 0 <= i < |nodes| ==> s[i] == nodes[i].(task := NoTask)
  {
    if nodes == [] then [] else Strip(nodes[..|nodes| - 1]) + [nodes[|nodes| - 1].(task := NoTask)]
  }

  /** `MarshalJSON` refuses an invalid graph. */
  method Marshal(g: Graph) returns (r: Result<seq<Node>>)
    ensures r.Ok? <==> ValidNodes(g.nodes)
    ensures r.Ok? ==> r.value == Strip(g.nodes)
  {
    var e := g.Validate();
    r := if e.Some? then Err(e.value) else Ok(Strip(g.nodes));
  }

  ghost predicate SameShape(a: seq<Node>, b: seq<Node>) {
    |a| == |b| && forall i :: 0 <= i < |a| ==> a[i].(task := NoTask) == b[i].(task := NoTask)
  }

  lemma SameShapeIndex(a: seq<Node>, b: seq<Node>)
    requires SameShape(a, b)
    ensures IndexOf(a).Keys == IndexOf(b).Keys
    ensures forall id :: id in IndexOf(a) ==> IndexOf(a)[id].(task := NoTask) == IndexOf(b)[id].(task := NoTask)
    ensures forall x, y :: Edge(IndexOf(a), x, y) <==> Edge(IndexOf(b), x, y)
  {
    if a != [] {
      SameShapeIndex(a[..|a| - 1], b[..|b| - 1]);
    }
  }

  lemma SameShapePath(a: seq<Node>, b: seq<Node>, x: string)
    requires SameShape(a, b)
    requires OnCycle(IndexOf(a), x)
    ensures OnCycle(IndexOf(b), x)
  {
    SameShapeIndex(a, b);
    var p :| PathBetween(IndexOf(a), x, x, p);
    assert PathBetween(IndexOf(b), x, x, p);
  }

  lemma SameShapeDeps(a: seq<Node>, b: seq<Node>)
    requires SameShape(a, b) && DepsKnown(a)
    ensures DepsKnown(b)
  {
    assert forall i :: 0 <= i < |a| ==> a[i].id == b[i].id;
    forall n, d | n in b && d in n.deps
      ensures d in Ids(b)
    {
      var i :| 0 <= i < |b| && b[i] == n;
      var m := a[i];
      assert m.(task := NoTask) == n.(task := NoTask);
      assert m in a && d in m.deps;
      assert d in Ids(a);
      var j :| 0 <= j < |a| && a[j].id == d;
      assert b[j].id == d;
    }
  }

  /** Validity depends only on what is serialised. */
  lemma SameShapeValid(a: seq<Node>, b: seq<Node>)
    requires SameShape(a, b)
    ensures ValidNodes(a) <==> ValidNodes(b)
    ensures UniqueIds(a) <==> UniqueIds(b)
    ensures Ids(a) == Ids(b)
  {
    SameShapeIds(a, b);
    if ValidNodes(a) { StillValid(a, b); }
    if ValidNodes(b) { StillValid(b, a); }
  }

  lemma SameShapeIds(a: seq<Node>, b: seq<Node>)
    requires SameShape(a, b)
    ensures UniqueIds(a) <==> UniqueIds(b)
    ensures Ids(a) == Ids(b)
  {
    assert forall i :: 0 <= i < |a| ==> a[i].id == b[i].id;
  }

  lemma StillValid(a: seq<Node>, b: seq<Node>)
    requires SameShape(a, b) && ValidNodes(a)
    ensures ValidNodes(b)
  {
    SameShapeDeps(a, b);
    SameShapeAcyclic(a, b);
  }

  lemma SameShapeAcyclic(a: seq<Node>, b: seq<Node>)
    requires SameShape(a, b) && Acyclic(IndexOf(a))
    ensures Acyclic(IndexOf(b))
  {
    forall x | OnCycle(IndexOf(b), x) { SameShapePath(b, a, x); }
  }

  /** Node types bound to factories; a factory is represented by what it makes. */
  class Registry {
    var factories: map<string, Task>

    constructor ()
      ensures factories == map[]
    {
      factories := map[];
    }

    method Register(typ: string, task: Task)
      modifies this
      ensures factories == old(factories)[typ := task]
    {
      factories := factories[typ := task];
    }

    ghost predicate Knows(nodes: seq<Node>)
      reads this
    {
      forall i :: 0 <= i < |nodes| ==> nodes[i].typ in factories
    }

    /** Restores a graph exactly when every type is registered and the graph is valid. */
    method Unmarshal(data: seq<Node>) returns (r: Result<Graph>)
      ensures r.Ok? <==> Knows(data) && ValidNodes(data)
      ensures r.Ok? ==> fresh(r.value) && |r.value.nodes| == |data|
      ensures r.Ok? ==> forall i :: 0 <= i < |data| ==>
                r.value.nodes[i] == data[i].(task := factories[data[i].typ])
      ensures r.Err? && r.error.UnknownType? ==>
                r.error.typ !in factories && exists n :: n in data && n.typ == r.error.typ && n.id == r.error.node
    {
      var g := new Graph();
      g.nodes := data;
      for i := 0 to |data|
        invariant |g.nodes| == |data| && fresh(g)
        invariant forall k :: 0 <= k < i ==>
                    data[k].typ in factories && g.nodes[k] == data[k].(task := factories[data[k].typ])
        invariant forall k :: i <= k < |data| ==> g.nodes[k] == data[k]
      {
        var n := g.nodes[i];
        if n.typ !in factories {
          assert data[i] in data;
          return Err(UnknownType(n.typ, n.id));
        }
        g.nodes := g.nodes[i := n.(task := factories[n.typ])];
      }
      SameShapeValid(g.nodes, data);
      var e := g.Validate();
      r := if e.Some? then Err(e.value) else Ok(g);
    }
  }

  /** `Validate` alone does not reject two nodes with one id. */
  lemma DuplicatesValidate()
    ensures exists nodes :: ValidNodes(nodes) && !UniqueIds(nodes)
  {
    var n := Node("a", "x", [], false, false, NoTask);
    var nodes := [n, n];
    assert forall m :: m in nodes ==> m.deps == [];
    TopologicalNoCycle(IndexOf(nodes), ["a"], "a");
    assert ValidNodes(nodes);
    assert nodes[0].id == nodes[1].id;
    assert !UniqueIds(nodes);
  }
}
