/** What every run of the executor guarantees, for every graph that passed Add and Validate,
    every interleaving, every outcome of every task and every moment of cancellation. */
module RunTheorems {
  import opened Dag
  import opened DagGraph
  import opened Backoff
  import opened RunMachine
  import opened RunInvariant

  /** A complete or partial run from its beginning. */
  ghost predicate Run(c: Setup, acts: seq<Action>) {
    GoodSetup(c) && Legal(c, Init(c), acts)
  }

  ghost function End(c: Setup, acts: seq<Action>): State
    requires Run(c, acts)
  {
    Final(c, Init(c), acts)
  }

  lemma EndInv(c: Setup, acts: seq<Action>)
    requires Run(c, acts)
    ensures Inv(c, End(c, acts))
  {
    InitInv(c);
    RunInv(c, Init(c), acts);
  }

  predicate Settled(st: Status) {
    st == Done || st == Failed || st == Cancelled
  }

  // ---- statuses only move forward ----

  ghost predicate Forward(before: Shared, after: Shared, id: string) {
    && (Settled(StatusOf(before, id)) ==> StatusOf(after, id) == StatusOf(before, id))
    && (StatusOf(after, id) == Pending ==> StatusOf(before, id) == Pending)
  }

  lemma HandForward(c: Setup, s: State, ids: set<string>, phase: Phase, id: string)
    requires UniqueIds(c.nodes) && FreshBatch(c, s, ids, phase)
    ensures Forward(s.sh, MarkRunning(s.sh, ids), id)
  {
    HandPending(c, s, ids, phase);
    HandStatus(s.sh, ids);
  }

  lemma WorkerForward(c: Setup, s: State, a: Action, id: string)
    requires Enabled(c, s, a) && IsWorkerAction(a) && StatusOf(s.sh, a.id) == Running
    ensures Forward(s.sh, Apply(c, s, a).sh, id)
  {
    WorkerFrame(c, s, a);
  }

  lemma BatchForward(c: Setup, s: State, a: Action, id: string)
    requires UniqueIds(c.nodes) && NodesOk(c, s) && ControlOk(c, s)
    requires Enabled(c, s, a) && (a.StartBatch? || a.StartTeardown?)
    ensures Forward(s.sh, Apply(c, s, a).sh, id)
  {
    if a.StartBatch? {
      StartBatchFresh(c, s);
      HandForward(c, s, Ids(GetReady(c.nodes, s.sh)), Main, id);
    } else {
      StartTeardownFresh(c, s);
      HandForward(c, s, Ids(PendingAlwaysRun(c.nodes, SettledIds(s.sh))), Teardown, id);
    }
  }

  lemma StepStatus(c: Setup, s: State, a: Action, id: string)
    requires GoodSetup(c) && NodesOk(c, s) && ControlOk(c, s) && Enabled(c, s, a)
    ensures Forward(s.sh, Apply(c, s, a).sh, id)
  {
    if IsWorkerAction(a) {
      WorkerRunning(c, s, a);
      WorkerForward(c, s, a, id);
    } else if a.StartBatch? || a.StartTeardown? {
      BatchForward(c, s, a, id);
    } else if a.SeeCancel? {
      CancelStatus(c, s.sh);
    }
  }

  /** Done, failed and cancelled are final: no later step of either loop overwrites them. */
  lemma {:induction false} SettledIsFinal(c: Setup, s: State, acts: seq<Action>, id: string)
    requires GoodSetup(c) && Inv(c, s) && Legal(c, s, acts)
    requires Settled(StatusOf(s.sh, id))
    ensures StatusOf(Final(c, s, acts).sh, id) == StatusOf(s.sh, id)
    decreases |acts|
  {
    if acts != [] {
      StepStatus(c, s, acts[0], id);
      ApplyInv(c, s, acts[0]);
      SettledIsFinal(c, Apply(c, s, acts[0]), acts[1..], id);
    }
  }

  // ---- dependency safety ----

  /** Outside the teardown phase a node runs only after all its dependencies are done, and
      they stay done. */
  lemma DependencySafety(c: Setup, acts: seq<Action>, n: Node, d: string)
    requires Run(c, acts) && n in c.nodes && d in n.deps
    ensures var s := End(c, acts);
            && n.id in s.procs
            && (StartedIn(s.procs[n.id], Main) ==>
                  d in s.procs[n.id].start.value.done && StatusOf(s.sh, d) == Done)
            && (StatusOf(s.sh, n.id) == Running && !s.pc.TearBatch? ==> StatusOf(s.sh, d) == Done)
  {
    EndInv(c, acts);
    assert NodeOk(c, End(c, acts), n);
  }

  // ---- at most once ----

  /** Each node is handed to executeWithRetry at most once over both loops, restored nodes
      never; Execute is called at most maxRetries + 1 times, and the completed waits are the
      backoff sequence, one before each retry. */
  lemma AtMostOnce(c: Setup, acts: seq<Action>, n: Node)
    requires Run(c, acts) && n in c.nodes
    ensures n.id in End(c, acts).procs
    ensures var p := End(c, acts).procs[n.id];
            && p.handed <= 1
            && (n.id in c.restored ==> p.handed == 0)
            && (p.handed == 0 ==> p.execs == 0 && p.waits == [])
            && p.execs <= Attempts(c.retry)
            && |p.waits| <= p.execs <= |p.waits| + 1
            && (forall k :: 0 <= k < |p.waits| ==> p.waits[k] == Delay(c.retry, k))
  {
    EndInv(c, acts);
    assert NodeOk(c, End(c, acts), n);
    assert WaitsOk(c, End(c, acts).procs[n.id]);
  }

  function FailedIds(sh: Shared): set<string> {
    set id | id in sh.status && sh.status[id] == Failed
  }

  lemma {:induction false} DistinctCount(errs: seq<NodeFailure>, ids: set<string>)
    requires forall i, j :: 0 <= i < j < |errs| ==> errs[i].id != errs[j].id
    requires forall i :: 0 <= i < |errs| ==> errs[i].id in ids
    requires forall id :: id in ids ==> exists i :: 0 <= i < |errs| && errs[i].id == id
    ensures |errs| == |ids|
  {
    if errs != [] {
      var x := errs[0].id;
      forall id | id in ids - {x}
        ensures exists i :: 0 <= i < |errs[1..]| && errs[1..][i].id == id
      {
        var i :| 0 <= i < |errs| && errs[i].id == id;
        assert errs[1..][i - 1].id == id;
      }
      DistinctCount(errs[1..], ids - {x});
    } else {
      assert forall id :: id !in ids;
    }
  }

  /** One error is recorded per failed node, and none for any other. */
  lemma ErrorsCountFailures(c: Setup, acts: seq<Action>)
    requires Run(c, acts)
    ensures var sh := End(c, acts).sh;
            && |sh.errs| == |FailedIds(sh)|
            && forall i :: 0 <= i < |sh.errs| ==> sh.errs[i].id in FailedIds(sh)
  {
    EndInv(c, acts);
    var sh := End(c, acts).sh;
    forall i | 0 <= i < |sh.errs|
      ensures sh.errs[i].id in FailedIds(sh)
    {
      assert StatusOf(sh, sh.errs[i].id) == Failed;
    }
    forall id | id in FailedIds(sh)
      ensures exists i :: 0 <= i < |sh.errs| && sh.errs[i].id == id
    {
      assert StatusOf(sh, id) == Failed;
    }
    DistinctCount(sh.errs, FailedIds(sh));
  }

  // ---- progress ----

  /** At an uncancelled loop head something is ready unless everything is done. */
  lemma HeadProgress(c: Setup, acts: seq<Action>)
    requires Run(c, acts)
    ensures var s := End(c, acts);
            s.pc.Head? && !s.ctxDone ==> (GetReady(c.nodes, s.sh) == [] <==> AllDone(c, s))
  {
    EndInv(c, acts);
    if End(c, acts).pc.Head? && !End(c, acts).ctxDone {
      NothingReadyAllDone(c, End(c, acts));
    }
  }

  /** The executor itself can always move until it returns, whatever the environment does. */
  lemma NoDeadlock(c: Setup, s: State) returns (a: Action)
    requires GoodSetup(c) && Inv(c, s) && !s.pc.Returned?
    ensures Enabled(c, s, a) && !a.CancelContext? && !a.TeardownTimeout?
  {
    if s.pc.Head? {
      a := if s.ctxDone then SeeCancel else if GetReady(c.nodes, s.sh) == [] then NothingReady else StartBatch;
    } else if s.pc.Stopped? {
      a := AfterLoop;
    } else if s.pc.TearHead? {
      a := if PendingAlwaysRun(c.nodes, SettledIds(s.sh)) == [] then TeardownOver else StartTeardown;
    } else if s.pc.Closing? {
      a := Return;
    } else if AllIdle(s) {
      a := if s.pc.Batch? then Barrier else TeardownBarrier;
    } else {
      var id :| id in s.procs && !s.procs[id].worker.Idle?;
      var w := s.procs[id].worker;
      a := if w.AtExecute? then Succeed(id)
           else if w.attempt <= c.retry.maxRetries then BeginAttempt(id) else GiveUp(id);
    }
  }

  // ---- termination ----

  function Sum(w: seq<nat>): nat {
    if w == [] then 0 else w[0] + Sum(w[1..])
  }

  lemma {:induction false} SumAtMost(v: seq<nat>, w: seq<nat>)
    requires |v| == |w| && forall i :: 0 <= i < |v| ==> v[i] <= w[i]
    ensures Sum(v) <= Sum(w)
  {
    if v != [] {
      SumAtMost(v[1..], w[1..]);
    }
  }

  lemma {:induction false} SumDrops(v: seq<nat>, w: seq<nat>, k: nat, drop: nat)
    requires |v| == |w| && forall i :: 0 <= i < |v| ==> v[i] <= w[i]
    requires k < |v| && v[k] + drop <= w[k]
    ensures Sum(v) + drop <= Sum(w)
  {
    if k == 0 {
      SumAtMost(v[1..], w[1..]);
    } else {
      SumDrops(v[1..], w[1..], k - 1, drop);
    }
  }

  lemma {:induction false} SumBound(w: seq<nat>, bound: nat)
    requires forall i :: 0 <= i < |w| ==> w[i] <= bound
    ensures Sum(w) <= bound * |w|
  {
    if w != [] {
      SumBound(w[1..], bound);
    }
  }

  /** Steps a node may still cause. */
  function NodeWork(limit: nat, st: Status, w: Worker): nat {
    if st == Pending then 2 * limit + 4
    else match w
      case Idle => 0
      case AtHead(a, _, _) => if a <= limit then 2 * (limit - a) + 1 else 0
      case AtExecute(a, _) => if a <= limit then 2 * (limit - a) else 0
  }

  ghost function WorkOf(c: Setup, s: State, n: Node): nat
    requires n.id in s.procs
  {
    NodeWork(Attempts(c.retry), StatusOf(s.sh, n.id), s.procs[n.id].worker)
  }

  ghost function WorkList(c: Setup, s: State): (w: seq<nat>)
    requires s.procs.Keys == Ids(c.nodes)
    ensures |w| == |c.nodes|
    ensures forall i :: 0 <= i < |w| ==> c.nodes[i].id in s.procs && w[i] == WorkOf(c, s, c.nodes[i])
  {
    assert forall i :: 0 <= i < |c.nodes| ==> c.nodes[i].id in Ids(c.nodes);
    seq(|c.nodes|, i requires 0 <= i < |c.nodes| && c.nodes[i].id in s.procs => WorkOf(c, s, c.nodes[i]))
  }

  function ControlWork(pc: Pc): nat {
    match pc
    case Returned(_) => 0
    case Closing => 1
    case TearHead => 2
    case TearBatch => 3
    case Stopped => 4
    case Head => 5
    case Batch => 6
  }

  ghost function Work(c: Setup, s: State): nat
    requires s.procs.Keys == Ids(c.nodes)
  {
    Sum(WorkList(c, s)) + ControlWork(s.pc) + (if s.ctxDone then 0 else 1) + (if s.timedOut then 0 else 1)
  }

  ghost predicate WorkFalls(c: Setup, s: State, t: State)
    requires s.procs.Keys == Ids(c.nodes) && t.procs.Keys == Ids(c.nodes)
  {
    Work(c, t) < Work(c, s)
  }

  lemma WorkListDrops(c: Setup, s: State, t: State, k: nat, drop: nat)
    requires s.procs.Keys == Ids(c.nodes) && t.procs.Keys == Ids(c.nodes) && k < |c.nodes|
    requires forall n :: n in c.nodes ==> n.id in s.procs && n.id in t.procs && WorkOf(c, t, n) <= WorkOf(c, s, n)
    requires WorkOf(c, t, c.nodes[k]) + drop <= WorkOf(c, s, c.nodes[k])
    ensures Sum(WorkList(c, t)) + drop <= Sum(WorkList(c, s))
  {
    SumDrops(WorkList(c, t), WorkList(c, s), k, drop);
  }

  lemma WorkerWorkSelf(c: Setup, s: State, a: Action, n: Node)
    requires IsWorkerAction(a) && Enabled(c, s, a) && n.id == a.id && NodeOk(c, s, n)
    ensures n.id in Apply(c, s, a).procs
    ensures WorkOf(c, Apply(c, s, a), n) + 1 <= WorkOf(c, s, n)
  {
  }

  lemma WorkerWork(c: Setup, s: State, a: Action)
    requires UniqueIds(c.nodes) && NodesOk(c, s) && Enabled(c, s, a) && IsWorkerAction(a)
    requires Apply(c, s, a).procs.Keys == Ids(c.nodes)
    ensures WorkFalls(c, s, Apply(c, s, a))
  {
    var t := Apply(c, s, a);
    WorkerFrame(c, s, a);
    var k :| 0 <= k < |c.nodes| && c.nodes[k].id == a.id;
    forall n | n in c.nodes
      ensures n.id in s.procs && n.id in t.procs && WorkOf(c, t, n) <= WorkOf(c, s, n)
    {
      assert NodeOk(c, s, n);
      if n.id == a.id {
        WorkerWorkSelf(c, s, a, n);
      }
    }
    WorkerWorkSelf(c, s, a, c.nodes[k]);
    WorkListDrops(c, s, t, k, 1);
  }

  lemma HandWorkOf(c: Setup, s: State, ids: set<string>, phase: Phase, t: State, n: Node)
    requires n.id in s.procs && HandedOut(c, s, ids, phase, t)
    requires n.id in ids ==> StatusOf(s.sh, n.id) == Pending
    ensures n.id in t.procs && WorkOf(c, t, n) + (if n.id in ids then 3 else 0) <= WorkOf(c, s, n)
  {
    HandStatus(s.sh, ids);
  }

  ghost predicate HandDrops(c: Setup, s: State, ids: set<string>, t: State) {
    forall n :: n in c.nodes ==>
      && n.id in s.procs && n.id in t.procs
      && WorkOf(c, t, n) + (if n.id in ids then 3 else 0) <= WorkOf(c, s, n)
  }

  lemma HandDropsAll(c: Setup, s: State, ids: set<string>, phase: Phase, t: State)
    requires s.procs.Keys == Ids(c.nodes) && HandedOut(c, s, ids, phase, t)
    requires forall id :: id in ids ==> StatusOf(s.sh, id) == Pending
    ensures HandDrops(c, s, ids, t) && t.procs.Keys == Ids(c.nodes)
    ensures ControlWork(t.pc) == ControlWork(s.pc) + 1 && t.ctxDone == s.ctxDone && t.timedOut == s.timedOut
  {
    forall n | n in c.nodes
      ensures n.id in s.procs && n.id in t.procs
      ensures WorkOf(c, t, n) + (if n.id in ids then 3 else 0) <= WorkOf(c, s, n)
    {
      IdOfNode(c.nodes, n);
      HandWorkOf(c, s, ids, phase, t, n);
    }
  }

  lemma HandWork(c: Setup, s: State, ids: set<string>, t: State)
    requires s.procs.Keys == Ids(c.nodes) && t.procs.Keys == Ids(c.nodes)
    requires HandDrops(c, s, ids, t) && ids != {} && ids <= Ids(c.nodes)
    requires ControlWork(t.pc) == ControlWork(s.pc) + 1 && t.ctxDone == s.ctxDone && t.timedOut == s.timedOut
    ensures WorkFalls(c, s, t)
  {
    var id :| id in ids;
    var k :| 0 <= k < |c.nodes| && c.nodes[k].id == id;
    assert c.nodes[k] in c.nodes;
    WorkListDrops(c, s, t, k, 3);
  }

  lemma OtherWork(c: Setup, s: State, a: Action)
    requires s.procs.Keys == Ids(c.nodes) && Enabled(c, s, a)
    requires IsQuietAction(a) || a.SeeCancel?
    requires a.SeeCancel? ==> AllIdle(s)
    ensures WorkFalls(c, s, Apply(c, s, a))
  {
    var t := Apply(c, s, a);
    if a.SeeCancel? {
      CancelStatus(c, s.sh);
    }
    var v, w := WorkList(c, t), WorkList(c, s);
    forall i | 0 <= i < |c.nodes|
      ensures v[i] <= w[i]
    {
      assert WorkOf(c, t, c.nodes[i]) <= WorkOf(c, s, c.nodes[i]);
    }
    SumAtMost(v, w);
  }

  lemma StartBatchWork(c: Setup, s: State, t: State)
    requires UniqueIds(c.nodes) && NodesOk(c, s) && ControlOk(c, s)
    requires Enabled(c, s, StartBatch) && t == Apply(c, s, StartBatch)
    ensures t.procs.Keys == Ids(c.nodes) && WorkFalls(c, s, t)
  {
    var ids := Ids(GetReady(c.nodes, s.sh));
    StartBatchFresh(c, s);
    HandPending(c, s, ids, Main);
    StartBatchStep(c, s, ids);
    HandDropsAll(c, s, ids, Main, t);
    HandWork(c, s, ids, t);
  }

  lemma StartTeardownWork(c: Setup, s: State, t: State)
    requires UniqueIds(c.nodes) && NodesOk(c, s)
    requires Enabled(c, s, StartTeardown) && t == Apply(c, s, StartTeardown)
    ensures t.procs.Keys == Ids(c.nodes) && WorkFalls(c, s, t)
  {
    var ids := Ids(PendingAlwaysRun(c.nodes, SettledIds(s.sh)));
    StartTeardownFresh(c, s);
    HandPending(c, s, ids, Teardown);
    StartTeardownStep(c, s, ids);
    HandDropsAll(c, s, ids, Teardown, t);
    HandWork(c, s, ids, t);
  }

  lemma StepWork(c: Setup, s: State, a: Action)
    requires GoodSetup(c) && Inv(c, s) && Enabled(c, s, a)
    ensures Apply(c, s, a).procs.Keys == Ids(c.nodes)
    ensures WorkFalls(c, s, Apply(c, s, a))
  {
    ApplyInv(c, s, a);
    if IsWorkerAction(a) {
      WorkerWork(c, s, a);
    } else if a.StartBatch? {
      StartBatchWork(c, s, Apply(c, s, a));
    } else if a.StartTeardown? {
      StartTeardownWork(c, s, Apply(c, s, a));
    } else {
      if a.SeeCancel? {
        IdleOutsideBatches(c, s);
      }
      OtherWork(c, s, a);
    }
  }

  lemma {:induction false} LengthBound(c: Setup, s: State, acts: seq<Action>)
    requires GoodSetup(c) && Inv(c, s) && Legal(c, s, acts)
    ensures |acts| <= Work(c, s)
    decreases |acts|
  {
    if acts != [] {
      StepWork(c, s, acts[0]);
      ApplyInv(c, s, acts[0]);
      LengthBound(c, Apply(c, s, acts[0]), acts[1..]);
    }
  }

  ghost function Bound(c: Setup): nat {
    (2 * Attempts(c.retry) + 4) * |c.nodes| + 7
  }

  lemma InitialWork(c: Setup)
    ensures Init(c).procs.Keys == Ids(c.nodes) && Work(c, Init(c)) <= Bound(c)
  {
    SumBound(WorkList(c, Init(c)), 2 * Attempts(c.retry) + 4);
  }

  /** No run is longer than a bound fixed by the graph and the policy; since it can always
      be continued until it returns, every run returns. */
  lemma RunTerminates(c: Setup, acts: seq<Action>)
    requires Run(c, acts)
    ensures |acts| <= Bound(c)
  {
    InitInv(c);
    LengthBound(c, Init(c), acts);
    InitialWork(c);
  }

  // ---- batches ----

  ghost function PendingList(c: Setup, s: State): (w: seq<nat>)
    ensures |w| == |c.nodes|
    ensures forall i :: 0 <= i < |w| ==> w[i] == if StatusOf(s.sh, c.nodes[i].id) == Pending then 1 else 0
  {
    seq(|c.nodes|, i requires 0 <= i < |c.nodes| => if StatusOf(s.sh, c.nodes[i].id) == Pending then 1 else 0)
  }

  lemma StepPending(c: Setup, s: State, a: Action)
    requires GoodSetup(c) && Inv(c, s) && Enabled(c, s, a)
    ensures forall i :: 0 <= i < |c.nodes| ==> PendingList(c, Apply(c, s, a))[i] <= PendingList(c, s)[i]
  {
    forall i | 0 <= i < |c.nodes|
      ensures PendingList(c, Apply(c, s, a))[i] <= PendingList(c, s)[i]
    {
      StepStatus(c, s, a, c.nodes[i].id);
    }
  }

  /** A main batch takes at least one node out of the pending ones. */
  lemma BatchTakesOne(c: Setup, s: State)
    requires GoodSetup(c) && Inv(c, s) && Enabled(c, s, StartBatch)
    ensures Sum(PendingList(c, Apply(c, s, StartBatch))) + 1 <= Sum(PendingList(c, s))
  {
    var v, w := PendingList(c, Apply(c, s, StartBatch)), PendingList(c, s);
    StepPending(c, s, StartBatch);
    var k := FirstTaken(c, s);
    SumDrops(v, w, k, 1);
  }

  lemma StepBatches(c: Setup, s: State, a: Action)
    requires GoodSetup(c) && Inv(c, s) && Enabled(c, s, a)
    ensures Apply(c, s, a).batches + Sum(PendingList(c, Apply(c, s, a))) <= s.batches + Sum(PendingList(c, s))
  {
    if a.StartBatch? {
      BatchTakesOne(c, s);
    } else {
      StepPending(c, s, a);
      SumAtMost(PendingList(c, Apply(c, s, a)), PendingList(c, s));
    }
    BatchCount(c, s, a);
  }

  lemma BatchCount(c: Setup, s: State, a: Action)
    requires Enabled(c, s, a)
    ensures Apply(c, s, a).batches == s.batches + if a.StartBatch? then 1 else 0
  {
  }

  lemma FirstTaken(c: Setup, s: State) returns (k: nat)
    requires GoodSetup(c) && NodesOk(c, s) && ControlOk(c, s) && Enabled(c, s, StartBatch)
    ensures k < |c.nodes| && PendingList(c, s)[k] == 1 && PendingList(c, Apply(c, s, StartBatch))[k] == 0
  {
    k := FirstOfBatch(c, s);
  }

  lemma FirstOfBatch(c: Setup, s: State) returns (k: nat)
    requires GoodSetup(c) && NodesOk(c, s) && ControlOk(c, s) && Enabled(c, s, StartBatch)
    ensures k < |c.nodes| && StatusOf(s.sh, c.nodes[k].id) == Pending
    ensures StatusOf(Apply(c, s, StartBatch).sh, c.nodes[k].id) == Running
  {
    var ready := GetReady(c.nodes, s.sh);
    StartBatchFresh(c, s);
    HandStatus(s.sh, Ids(ready));
    IdOfNode(ready, ready[0]);
    k :| 0 <= k < |c.nodes| && c.nodes[k].id == ready[0].id;
  }

  lemma {:induction false} BatchesFrom(c: Setup, s: State, acts: seq<Action>)
    requires GoodSetup(c) && Inv(c, s) && Legal(c, s, acts)
    ensures Final(c, s, acts).batches <= s.batches + Sum(PendingList(c, s))
    decreases |acts|
  {
    if acts != [] {
      StepBatches(c, s, acts[0]);
      ApplyInv(c, s, acts[0]);
      BatchesFrom(c, Apply(c, s, acts[0]), acts[1..]);
    }
  }

  /** The main loop starts at most one batch per node, the teardown loop at most one in all. */
  lemma BatchBound(c: Setup, acts: seq<Action>)
    requires Run(c, acts)
    ensures End(c, acts).batches <= |c.nodes| && End(c, acts).tearBatches <= 1
  {
    InitInv(c);
    BatchesFrom(c, Init(c), acts);
    SumBound(PendingList(c, Init(c)), 1);
    EndInv(c, acts);
  }

  // ---- results ----

  lemma {:induction false} IdCount(nodes: seq<Node>)
    requires UniqueIds(nodes)
    ensures |Ids(nodes)| == |nodes|
  {
    if nodes != [] {
      var init, last := nodes[..|nodes| - 1], nodes[|nodes| - 1];
      IdCount(init);
      assert last.id !in Ids(init);
      assert Ids(nodes) == Ids(init) + {last.id};
    }
  }

  lemma AllDoneCount(c: Setup, s: State)
    requires UniqueIds(c.nodes) && AllDone(c, s)
    ensures |DoneIds(s.sh)| >= |c.nodes|
  {
    IdCount(c.nodes);
    assert Ids(c.nodes) <= DoneIds(s.sh) by {
      forall id | id in Ids(c.nodes)
        ensures id in DoneIds(s.sh)
      {
        var n := NodeById(c, id);
      }
    }
    SubsetSize(Ids(c.nodes), DoneIds(s.sh));
  }

  /** The four ways Run can end, told apart exactly: an error of the first node to fail,
      "run cancelled" when the cancel was seen and nothing failed, and success, in which
      case every node is done. "Nodes not reached" cannot happen. */
  lemma ResultExact(c: Setup, acts: seq<Action>)
    requires Run(c, acts) && End(c, acts).pc.Returned?
    ensures var s, r := End(c, acts), End(c, acts).pc.result;
            && (r.NodeError? <==> SomeFailed(s.sh))
            && (r.NodeError? ==> s.sh.errs != [] && r.failure == s.sh.errs[0] && StatusOf(s.sh, r.failure.id) == Failed)
            && (r.RunCancelled? <==> !SomeFailed(s.sh) && s.sh.cancelled)
            && (r.Success? <==> !SomeFailed(s.sh) && !s.sh.cancelled)
            && (r.Success? ==> AllDone(c, s))
            && !r.NotReached?
  {
    EndInv(c, acts);
    ReturnedExact(c, End(c, acts));
  }

  lemma ReturnedExact(c: Setup, s: State)
    requires GoodSetup(c) && NodesOk(c, s) && ErrsOk(s) && ForeignOk(c, s) && ControlOk(c, s) && s.pc.Returned?
    ensures var r := s.pc.result;
            && (r.NodeError? <==> SomeFailed(s.sh))
            && (r.NodeError? ==> s.sh.errs != [] && r.failure == s.sh.errs[0] && StatusOf(s.sh, r.failure.id) == Failed)
            && (r.RunCancelled? <==> !SomeFailed(s.sh) && s.sh.cancelled)
            && (r.Success? <==> !SomeFailed(s.sh) && !s.sh.cancelled)
            && (r.Success? ==> AllDone(c, s))
            && !r.NotReached?
  {
    FirstErrorFailed(s);
    if !FailedOrCancelled(s.sh) {
      AllDoneCount(c, s);
    }
  }

  lemma FirstErrorFailed(s: State)
    requires ErrsOk(s)
    ensures s.sh.errs != [] <==> SomeFailed(s.sh)
    ensures s.sh.errs != [] ==> StatusOf(s.sh, s.sh.errs[0].id) == Failed
  {
    FailedIff(s.sh);
    if s.sh.errs != [] {
      assert StatusOf(s.sh, s.sh.errs[0].id) == Failed;
    }
  }

  /** A cancel that reaches the loop head after the last node finished still makes the run
      "cancelled", although every node is and stays done. */
  lemma CancelAfterCompletion(c: Setup, s: State, acts: seq<Action>)
    requires GoodSetup(c) && Inv(c, s) && s.pc.Head? && s.ctxDone && AllDone(c, s)
    requires Legal(c, s, [SeeCancel] + acts) && Final(c, s, [SeeCancel] + acts).pc.Returned?
    ensures var t := Final(c, s, [SeeCancel] + acts);
            t.pc.result == RunCancelled && AllDone(c, t)
  {
    var all := [SeeCancel] + acts;
    assert all[1..] == acts;
    var s1 := Apply(c, s, SeeCancel);
    var t := Final(c, s, all);
    RunInv(c, s, all);
    ApplyInv(c, s, SeeCancel);
    CancelledStays(c, s1, acts);
    forall n | n in c.nodes
      ensures StatusOf(t.sh, n.id) == Done
    {
      SettledIsFinal(c, s, all, n.id);
    }
    OnlyNodesFail(c, t);
  }

  /** A resumed run in which everything was done before meets such a cancel. */
  lemma LateCancelHappens(c: Setup)
    requires GoodSetup(c) && c.restored == Ids(c.nodes)
    ensures Run(c, [CancelContext])
    ensures var s := End(c, [CancelContext]); s.pc.Head? && s.ctxDone && AllDone(c, s) && Enabled(c, s, SeeCancel)
  {
    var s := Init(c);
    assert [CancelContext][1..] == [];
    assert Legal(c, s, [CancelContext]) && Final(c, s, [CancelContext]) == Apply(c, s, CancelContext);
    forall n | n in c.nodes
      ensures StatusOf(s.sh, n.id) == Done
    {
      assert n.id in Ids(c.nodes);
    }
  }

  lemma {:induction false} CancelledStays(c: Setup, s: State, acts: seq<Action>)
    requires Legal(c, s, acts) && s.sh.cancelled
    ensures Final(c, s, acts).sh.cancelled
    decreases |acts|
  {
    if acts != [] {
      CancelledStays(c, Apply(c, s, acts[0]), acts[1..]);
    }
  }

  lemma OnlyNodesFail(c: Setup, s: State)
    requires UniqueIds(c.nodes) && ForeignOk(c, s) && ErrsOk(s) && AllDone(c, s)
    ensures s.sh.errs == []
  {
    if s.sh.errs != [] {
      var id := s.sh.errs[0].id;
      assert StatusOf(s.sh, id) == Failed;
      if id in Ids(c.nodes) {
        var n := NodeById(c, id);
      }
    }
  }

  // ---- teardown and cancellation ----

  /** When Run returns nothing is running, and every AlwaysRun node was restored as done or
      handed out; with a non-negative retry limit it was executed at least once. */
  lemma TeardownCoverage(c: Setup, acts: seq<Action>, n: Node)
    requires Run(c, acts) && End(c, acts).pc.Returned? && n in c.nodes
    ensures var s := End(c, acts);
            && n.id in s.procs
            && StatusOf(s.sh, n.id) != Running && s.procs[n.id].worker.Idle?
            && (n.alwaysRun && n.id !in c.restored ==>
                  s.procs[n.id].handed == 1 && (s.procs[n.id].execs >= 1 <==> c.retry.maxRetries >= 0))
  {
    EndInv(c, acts);
    assert NodeOk(c, End(c, acts), n);
  }

  /** The teardown loop starts AlwaysRun nodes only, and only after the main loop left every
      MustComplete node it had started done or failed. */
  lemma TeardownAfterMustComplete(c: Setup, acts: seq<Action>, n: Node)
    requires Run(c, acts) && n in c.nodes
    ensures var s := End(c, acts);
            && n.id in s.procs
            && (StartedIn(s.procs[n.id], Teardown) ==> n.alwaysRun && TeardownStarted(s.pc))
            && (AfterMain(s.pc) && n.mustComplete && StartedIn(s.procs[n.id], Main) ==>
                  StatusOf(s.sh, n.id) == Done || StatusOf(s.sh, n.id) == Failed)
  {
    EndInv(c, acts);
    assert NodeOk(c, End(c, acts), n);
  }

  lemma TeardownSparesOrdinary(c: Setup, s: State, n: Node)
    requires UniqueIds(c.nodes) && NodesOk(c, s) && Enabled(c, s, StartTeardown)
    requires n in c.nodes && !n.alwaysRun
    ensures n.id in s.procs && n.id in Apply(c, s, StartTeardown).procs
    ensures Apply(c, s, StartTeardown).procs[n.id].handed == s.procs[n.id].handed
  {
    StartTeardownFresh(c, s);
    IdOfNode(c.nodes, n);
    assert n.id in Ids(PendingAlwaysRun(c.nodes, SettledIds(s.sh))) ==> FreshNode(s, n, Teardown);
  }

  lemma CancelledStep(c: Setup, s: State, a: Action, n: Node)
    requires UniqueIds(c.nodes) && NodesOk(c, s) && ControlOk(c, s) && Enabled(c, s, a) && s.sh.cancelled
    requires n in c.nodes && !n.alwaysRun
    ensures n.id in s.procs && n.id in Apply(c, s, a).procs && Apply(c, s, a).sh.cancelled
    ensures Apply(c, s, a).procs[n.id].handed == s.procs[n.id].handed
  {
    IdOfNode(c.nodes, n);
    if a.StartTeardown? {
      TeardownSparesOrdinary(c, s, n);
    }
  }

  /** After the loop head that saw the cancel, no ordinary node is started any more. */
  lemma {:induction false} NoStartAfterCancel(c: Setup, s: State, acts: seq<Action>, n: Node)
    requires GoodSetup(c) && Inv(c, s) && Legal(c, s, acts) && s.sh.cancelled
    requires n in c.nodes && !n.alwaysRun
    ensures n.id in s.procs && n.id in Final(c, s, acts).procs
    ensures Final(c, s, acts).procs[n.id].handed == s.procs[n.id].handed
    decreases |acts|
  {
    assert NodeOk(c, s, n);
    if acts != [] {
      CancelledStep(c, s, acts[0], n);
      ApplyInv(c, s, acts[0]);
      NoStartAfterCancel(c, Apply(c, s, acts[0]), acts[1..], n);
    }
  }

  /** Nodes that were never reached: cancelled once the cancel was seen, still pending when
      the run stopped because of a failure. */
  lemma UnreachedNodes(c: Setup, acts: seq<Action>, n: Node)
    requires Run(c, acts) && n in c.nodes && !n.alwaysRun && n.id !in c.restored
    ensures var s := End(c, acts);
            && n.id in s.procs
            && (s.procs[n.id].handed == 0 ==>
                  StatusOf(s.sh, n.id) == if s.sh.cancelled then Cancelled else Pending)
  {
    EndInv(c, acts);
    assert NodeOk(c, End(c, acts), n);
  }
}
