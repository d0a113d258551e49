/** The graph type of internal/core/dag/dag.go as a value: nodes, the id index,
    paths through dependencies, and what it means for a graph to be acyclic. */
module Dag {
  import opened Wrappers

  /** The executable part of a node. It is not serialised: a registry restores it. */
  datatype Task = NoTask | PhaseTask(phase: string)

  datatype Node = Node(
    id: string,
    typ: string,
    deps: seq<string>,
    alwaysRun: bool,
    mustComplete: bool,
    task: Task)

  datatype GraphError =
    | DuplicateId(id: string)
    | UnknownDep(node: string, dep: string)
    | UnknownType(typ: string, node: string)
    | Cycles(at: seq<string>)

  type Index = map<string, Node>

  function Ids(nodes: seq<Node>): set<string> {
    set i | 0 <= i < |nodes| :: nodes[i].id
  }

  ghost predicate UniqueIds(nodes: seq<Node>) {
    forall i, j :: 0 <= i < j < |nodes| ==> nodes[i].id != nodes[j].id
  }

  /** Every dependency of every listed node is the id of a listed node. */
  ghost predicate DepsKnown(nodes: seq<Node>) {
    forall n, d :: n in nodes && d in n.deps ==> d in Ids(nodes)
  }

  /** The id index: a later node with the same id replaces an earlier one. */
  function IndexOf(nodes: seq<Node>): (idx: Index)
    ensures idx.Keys == Ids(nodes)
    ensures forall id :: id in idx ==> idx[id] in nodes && idx[id].id == id
  {
    if nodes == [] then map[]
    else
      var n := nodes[|nodes| - 1];
      assert forall i :: 0 <= i < |nodes| - 1 ==> nodes[i] == nodes[..|nodes| - 1][i];
      IndexOf(nodes[..|nodes| - 1])[n.id := n]
  }

  lemma IndexOfUnique(nodes: seq<Node>, n: Node)
    requires UniqueIds(nodes) && n in nodes
    ensures n.id in IndexOf(nodes) && IndexOf(nodes)[n.id] == n
  {
    var i :| 0 <= i < |nodes| && nodes[i] == n;
    assert nodes[i].id in Ids(nodes);
    var m := IndexOf(nodes)[n.id];
    var j :| 0 <= j < |nodes| && nodes[j] == m;
  }

  ghost predicate Closed(idx: Index) {
    forall id, d :: id in idx && d in idx[id].deps ==> d in idx
  }

  ghost predicate Edge(idx: Index, a: string, b: string) {
    a in idx && b in idx[a].deps
  }

  /** A path follows at least one dependency edge. */
  ghost predicate IsPath(idx: Index, p: seq<string>) {
    |p| >= 2 && forall i :: 0 <= i < |p| - 1 ==> Edge(idx, p[i], p[i + 1])
  }

  ghost predicate PathBetween(idx: Index, a: string, b: string, p: seq<string>) {
    IsPath(idx, p) && p[0] == a && p[|p| - 1] == b
  }

  ghost predicate Reaches(idx: Index, a: string, b: string) {
    exists p :: PathBetween(idx, a, b, p)
  }

  ghost predicate OnCycle(idx: Index, a: string) {
    Reaches(idx, a, a)
  }

  ghost predicate ReachesCycle(idx: Index, a: string) {
    exists b :: OnCycle(idx, b) && (a == b || Reaches(idx, a, b))
  }

  ghost predicate Acyclic(idx: Index) {
    forall id :: id in idx ==> !OnCycle(idx, id)
  }

  /** What `Validate` promises of a node list. */
  ghost predicate ValidNodes(nodes: seq<Node>) {
    DepsKnown(nodes) && Acyclic(IndexOf(nodes))
  }

  lemma EdgeReaches(idx: Index, a: string, b: string)
    requires Edge(idx, a, b)
    ensures Reaches(idx, a, b)
  {
    assert PathBetween(idx, a, b, [a, b]);
  }

  lemma ReachesTransitive(idx: Index, a: string, b: string, c: string)
    requires Reaches(idx, a, b) && Reaches(idx, b, c)
    ensures Reaches(idx, a, c)
  {
    var p :| PathBetween(idx, a, b, p);
    var q :| PathBetween(idx, b, c, q);
    var r := p + q[1..];
    forall i | 0 <= i < |r| - 1
      ensures Edge(idx, r[i], r[i + 1])
    {
      if i >= |p| - 1 {
        assert r[i] == q[i - (|p| - 1)] && r[i + 1] == q[i + 1 - (|p| - 1)];
      }
    }
    assert PathBetween(idx, a, c, r);
  }

  lemma ReachesCycleBack(idx: Index, a: string, b: string)
    requires Reaches(idx, a, b) && ReachesCycle(idx, b)
    ensures ReachesCycle(idx, a)
  {
    var c :| OnCycle(idx, c) && (b == c || Reaches(idx, b, c));
    if b != c {
      ReachesTransitive(idx, a, b, c);
    }
  }

  /** A listing in which every dependency comes earlier rules cycles out. */
  ghost predicate Topological(idx: Index, order: seq<string>) {
    forall i :: 0 <= i < |order| ==>
      order[i] in idx && forall d :: d in idx[order[i]].deps ==> d in order[..i]
  }

  lemma TopologicalExtend(idx: Index, order: seq<string>, x: string)
    requires Topological(idx, order)
    requires x in idx && forall d :: d in idx[x].deps ==> d in order
    ensures Topological(idx, order + [x])
  {
    var longer := order + [x];
    forall i | 0 <= i < |longer|
      ensures longer[i] in idx && forall d :: d in idx[longer[i]].deps ==> d in longer[..i]
    {
      assert longer[..i] == order[..i];
      if i == |order| {
        assert order[..i] == order;
      }
    }
  }

  lemma {:induction false} TopologicalPath(idx: Index, order: seq<string>, p: seq<string>, i: nat)
    returns (j: nat)
    requires Topological(idx, order)
    requires IsPath(idx, p)
    requires i < |order| && order[i] == p[0]
    ensures j < i && order[j] == p[|p| - 1]
    decreases |p|
  {
    assert Edge(idx, p[0], p[1]);
    j :| 0 <= j < i && order[j] == p[1];
    if |p| > 2 {
      forall k | 0 <= k < |p[1..]| - 1
        ensures Edge(idx, p[1..][k], p[1..][k + 1])
      {
        assert Edge(idx, p[k + 1], p[k + 2]);
      }
      j := TopologicalPath(idx, order, p[1..], j);
    }
  }

  lemma TopologicalNoCycle(idx: Index, order: seq<string>, x: string)
    requires Topological(idx, order)
    requires x in order
    ensures !OnCycle(idx, x)
  {
    if OnCycle(idx, x) {
      var p :| PathBetween(idx, x, x, p);
      // Start from the first occurrence: the cycle would lead to an earlier one.
      var i := FirstOccurrence(order, x);
      var j := TopologicalPath(idx, order, p, i);
      assert false;
    }
  }

  ghost function FirstOccurrence(order: seq<string>, x: string): (i: nat)
    requires x in order
    ensures i < |order| && order[i] == x
    ensures forall j :: 0 <= j < i ==> order[j] != x
  {
    if order[0] == x then 0 else 1 + FirstOccurrence(order[1..], x)
  }

  /** A rank that falls along every dependency rules cycles out. */
  lemma {:induction false} RankFalls(idx: Index, rank: string -> int, p: seq<string>)
    requires IsPath(idx, p)
    requires forall a, b :: Edge(idx, a, b) ==> rank(b) < rank(a)
    ensures rank(p[|p| - 1]) < rank(p[0])
    decreases |p|
  {
    assert Edge(idx, p[0], p[1]);
    if |p| > 2 {
      forall k | 0 <= k < |p[1..]| - 1
        ensures Edge(idx, p[1..][k], p[1..][k + 1])
      {
        assert Edge(idx, p[k + 1], p[k + 2]);
      }
      RankFalls(idx, rank, p[1..]);
    }
  }

  lemma RankedAcyclic(idx: Index, rank: string -> int)
    requires forall a, b :: Edge(idx, a, b) ==> rank(b) < rank(a)
    ensures Acyclic(idx)
  {
    forall id | id in idx
      ensures !OnCycle(idx, id)
    {
      if OnCycle(idx, id) {
        var p :| PathBetween(idx, id, id, p);
        RankFalls(idx, rank, p);
      }
    }
  }

  // ---- progress: an acyclic graph always has a node whose deps are all done ----

  lemma SubsetSize(a: set<string>, b: set<string>)
    requires a <= b
    ensures |a| <= |b|
  {
    assert b == a + (b - a);
  }

  lemma {:induction false} Pigeonhole(p: seq<string>, s: set<string>)
    requires |p| > |s|
    requires forall x :: x in p ==> x in s
    ensures exists i, j :: 0 <= i < j < |p| && p[i] == p[j]
    decreases |p|
  {
    var x := p[0];
    assert x in p;
    if x in p[1..] {
      var j :| 0 <= j < |p[1..]| && p[1..][j] == x;
      assert p[0] == p[j + 1];
    } else {
      forall y | y in p[1..]
        ensures y in s - {x}
      {
        assert y in p;
      }
      Pigeonhole(p[1..], s - {x});
      var i, j :| 0 <= i < j < |p[1..]| && p[1..][i] == p[1..][j];
      assert p[i + 1] == p[j + 1];
    }
  }

  /** If every node of `stuck` waits for another node of `stuck`, walks inside it never end. */
  ghost predicate Waits(idx: Index, stuck: set<string>, x: string) {
    exists d :: Edge(idx, x, d) && d in stuck
  }

  lemma {:induction false} LongWalk(idx: Index, stuck: set<string>, x: string, n: nat)
    returns (p: seq<string>)
    requires x in stuck
    requires forall y :: y in stuck ==> Waits(idx, stuck, y)
    ensures |p| == n + 1
    ensures forall x :: x in p ==> x in stuck
    ensures forall i :: 0 <= i < n ==> Edge(idx, p[i], p[i + 1])
  {
    if n == 0 {
      p := [x];
    } else {
      var q := LongWalk(idx, stuck, x, n - 1);
      var last := q[n - 1];
      assert last in stuck && Waits(idx, stuck, last);
      var d :| Edge(idx, last, d) && d in stuck;
      p := q + [d];
    }
  }

  /** If every node of a set waits for one of the set, the set holds a cycle. */
  lemma WaitingCycle(idx: Index, stuck: set<string>, x: string)
    returns (y: string)
    requires x in stuck
    requires forall y :: y in stuck ==> Waits(idx, stuck, y)
    ensures y in stuck && OnCycle(idx, y)
  {
    var p := LongWalk(idx, stuck, x, |stuck|);
    Pigeonhole(p, stuck);
    var i, j :| 0 <= i < j < |p| && p[i] == p[j];
    var q := p[i..j + 1];
    forall k | 0 <= k < |q| - 1
      ensures Edge(idx, q[k], q[k + 1])
    {
      assert Edge(idx, p[i + k], p[i + k + 1]);
    }
    y := p[i];
    assert y in p;
    assert PathBetween(idx, y, y, q);
  }

  lemma SomeNodeReady(idx: Index, done: set<string>, x: string)
    returns (r: string)
    requires Closed(idx) && Acyclic(idx)
    requires x in idx && x !in done
    ensures r in idx && r !in done && forall d :: d in idx[r].deps ==> d in done
  {
    var stuck := idx.Keys - done;
    if forall y :: y in stuck ==> Waits(idx, stuck, y) {
      var y := WaitingCycle(idx, stuck, x);
    }
    r :| r in stuck && !Waits(idx, stuck, r);
    forall d | d in idx[r].deps
      ensures d in done
    {
      assert Edge(idx, r, d);
    }
  }
}
