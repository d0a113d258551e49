/** Crash and recovery: what a stored snapshot says, what resuming from it does, and
    `RecoverRun` of internal/domain/api/api.go. */
module Recovery {
  import opened Wrappers
  import opened Dag
  import opened DagGraph
  import opened Backoff
  import opened RunMachine
  import opened RunInvariant
  import opened RunTheorems
  import opened RunExact
  import opened Executor
  import RunState
  import Config
  import Machines
  import Builder

  /** The ids RecoverRun marks as done. */
  function DoneIn(nodes: seq<NodeStatus>): set<string> {
    set i | 0 <= i < |nodes| && nodes[i].status == Done :: nodes[i].id
  }

  /** Whatever a done node needed is done as well; teardown may have run regardless. */
  ghost predicate ClosedUnderDeps(nodes: seq<Node>, done: set<string>) {
    forall n, d :: n in nodes && n.id in done && !n.alwaysRun && d in n.deps ==> d in done
  }

  /** The ids a snapshot of the state would restore. */
  ghost function SnapshotDone(c: Setup, s: State): set<string> {
    DoneIn(NodeStatuses(c.nodes, s.sh))
  }

  lemma SnapshotDoneExactly(c: Setup, s: State, id: string)
    ensures id in SnapshotDone(c, s) <==> id in Ids(c.nodes) && StatusOf(s.sh, id) == Done
  {
    var list := NodeStatuses(c.nodes, s.sh);
    if id in Ids(c.nodes) && StatusOf(s.sh, id) == Done {
      var i :| 0 <= i < |c.nodes| && c.nodes[i].id == id;
      assert list[i].id == id;
    }
  }

  lemma DoneOrStarted(c: Setup, s: State, n: Node, d: string)
    requires UniqueIds(c.nodes) && DepsKnown(c.nodes) && NodesOk(c, s) && StartsOk(s) && ForeignOk(c, s)
    requires ClosedUnderDeps(c.nodes, c.restored)
    requires n in c.nodes && !n.alwaysRun && d in n.deps && StatusOf(s.sh, n.id) == Done
    ensures d in Ids(c.nodes) && StatusOf(s.sh, d) == Done
  {
    assert NodeOk(c, s, n);
  }

  /** Every snapshot any run can take, at any moment, is closed under dependencies. */
  lemma SnapshotClosed(c: Setup, acts: seq<Action>)
    requires Run(c, acts) && ClosedUnderDeps(c.nodes, c.restored)
    ensures ClosedUnderDeps(c.nodes, SnapshotDone(c, End(c, acts)))
  {
    EndInv(c, acts);
    var s := End(c, acts);
    forall n, d | n in c.nodes && n.id in SnapshotDone(c, s) && !n.alwaysRun && d in n.deps
      ensures d in SnapshotDone(c, s)
    {
      SnapshotDoneExactly(c, s, n.id);
      SnapshotDoneExactly(c, s, d);
      DoneOrStarted(c, s, n, d);
    }
  }

  /** So is every snapshot that reached the storage, early, late or out of order. */
  lemma StoredClosed(c: Setup, log: RunLog, snap: Snapshot)
    requires GoodSetup(c) && GoodLog(c, log) && Seen(c.nodes, log, snap) && ClosedUnderDeps(c.nodes, c.restored)
    ensures ClosedUnderDeps(c.nodes, DoneIn(snap.nodes))
  {
    var moment := SeenAtPrefix(c, log, snap);
    SnapshotClosed(c, Actions(moment));
  }

  /** In a run resumed with `c.restored`, a restored node is never executed and stays done. */
  lemma RestoredNotExecuted(c: Setup, acts: seq<Action>, n: Node)
    requires Run(c, acts) && n in c.nodes && n.id in c.restored
    ensures var s := End(c, acts);
            && n.id in s.procs && s.procs[n.id].handed == 0 && s.procs[n.id].execs == 0
            && StatusOf(s.sh, n.id) == Done
  {
    AtMostOnce(c, acts, n);
    EndInv(c, acts);
  }

  // ---- success ----

  ghost predicate Undisturbed(acts: seq<Action>) {
    forall i :: 0 <= i < |acts| ==> !acts[i].CancelContext? && !acts[i].GiveUp?
  }

  lemma QuietStep(c: Setup, s: State, a: Action)
    requires Enabled(c, s, a) && !a.CancelContext? && !a.GiveUp?
    requires !s.ctxDone && !SomeFailed(s.sh)
    ensures !Apply(c, s, a).ctxDone && !SomeFailed(Apply(c, s, a).sh)
  {
    FailedIff(s.sh);
    FailedIff(Apply(c, s, a).sh);
    if IsWorkerAction(a) {
      WorkerFrame(c, s, a);
    } else if a.StartBatch? {
      HandStatus(s.sh, Ids(GetReady(c.nodes, s.sh)));
    } else if a.StartTeardown? {
      HandStatus(s.sh, Ids(PendingAlwaysRun(c.nodes, SettledIds(s.sh))));
    }
  }

  lemma {:induction false} UndisturbedFrom(c: Setup, s: State, acts: seq<Action>)
    requires Legal(c, s, acts) && Undisturbed(acts) && !s.ctxDone && !SomeFailed(s.sh)
    ensures !Final(c, s, acts).ctxDone && !SomeFailed(Final(c, s, acts).sh)
    decreases |acts|
  {
    if acts != [] {
      QuietStep(c, s, acts[0]);
      UndisturbedFrom(c, Apply(c, s, acts[0]), acts[1..]);
    }
  }

  /** If no task exhausts its attempts and nobody cancels, the run, fresh or resumed,
      returns success with every node done. */
  lemma RemainingTasksSucceed(c: Setup, acts: seq<Action>)
    requires Run(c, acts) && Undisturbed(acts) && End(c, acts).pc.Returned?
    ensures End(c, acts).pc.result == Success && AllDone(c, End(c, acts))
  {
    UndisturbedFrom(c, Init(c), acts);
    EndInv(c, acts);
    ResultExact(c, acts);
  }

  // ---- any number of crashes ----

  datatype Incarnation = Incarnation(setup: Setup, acts: seq<Action>)

  /** `next` resumes from a snapshot some moment of `prev` left behind; not necessarily its
      last one, since snapshots may be lost or stored out of order. */
  ghost predicate ResumesFrom(prev: Incarnation, next: Incarnation, cut: nat) {
    && cut <= |prev.acts| && Run(prev.setup, prev.acts[..cut])
    && next.setup.nodes == prev.setup.nodes
    && next.setup.restored == SnapshotDone(prev.setup, End(prev.setup, prev.acts[..cut]))
  }

  ghost predicate Resumes(prev: Incarnation, next: Incarnation) {
    exists cut: nat :: ResumesFrom(prev, next, cut)
  }

  /** All but the first resume from their predecessor. */
  ghost predicate ResumesAt(lives: seq<Incarnation>, i: int) {
    0 < i < |lives| ==> Resumes(lives[i - 1], lives[i])
  }

  ghost predicate Lives(lives: seq<Incarnation>) {
    && (forall i :: 0 <= i < |lives| ==> Run(lives[i].setup, lives[i].acts))
    && (lives != [] ==> lives[0].setup.restored == {})
    && (forall i :: ResumesAt(lives, i))
  }

  /** Over any chain of crashes and recoveries the restored set stays closed, so dependency
      safety and snapshot closure hold in every incarnation. */
  lemma LivesClosed(lives: seq<Incarnation>, i: nat)
    requires Lives(lives) && i < |lives|
    ensures ClosedUnderDeps(lives[i].setup.nodes, lives[i].setup.restored)
  {
    ClosedAlong(lives, i);
  }

  lemma {:induction false} ClosedAlong(lives: seq<Incarnation>, i: nat)
    requires i < |lives| && lives[0].setup.restored == {} && (forall k :: ResumesAt(lives, k))
    ensures ClosedUnderDeps(lives[i].setup.nodes, lives[i].setup.restored)
  {
    if i > 0 {
      ClosedAlong(lives, i - 1);
      assert ResumesAt(lives, i);
      ResumedClosed(lives[i - 1], lives[i]);
    } else {
      StartedClosed(lives[0].setup);
    }
  }

  lemma StartedClosed(c: Setup)
    requires c.restored == {}
    ensures ClosedUnderDeps(c.nodes, c.restored)
  {
  }

  lemma ResumedClosed(prev: Incarnation, next: Incarnation)
    requires Resumes(prev, next) && ClosedUnderDeps(prev.setup.nodes, prev.setup.restored)
    ensures ClosedUnderDeps(next.setup.nodes, next.setup.restored)
  {
    var cut: nat :| ResumesFrom(prev, next, cut);
    SnapshotClosed(prev.setup, prev.acts[..cut]);
  }

  lemma RestoredKept(prev: Incarnation, next: Incarnation, id: string)
    requires Resumes(prev, next) && id in prev.setup.restored && id in Ids(prev.setup.nodes)
    ensures id in next.setup.restored && id in Ids(next.setup.nodes)
  {
    var cut: nat :| ResumesFrom(prev, next, cut);
    var s := End(prev.setup, prev.acts[..cut]);
    EndInv(prev.setup, prev.acts[..cut]);
    SnapshotDoneExactly(prev.setup, s, id);
  }

  ghost predicate Restored(life: Incarnation, id: string) {
    id in life.setup.restored && id in Ids(life.setup.nodes)
  }

  lemma {:induction false} RestoredForever(lives: seq<Incarnation>, i: nat, j: nat, id: string)
    requires i <= j < |lives| && (forall k :: ResumesAt(lives, k))
    requires Restored(lives[i], id)
    ensures Restored(lives[j], id)
    decreases j - i
  {
    if i < j {
      RestoredForever(lives, i, j - 1, id);
      assert ResumesAt(lives, j);
      RestoredKept(lives[j - 1], lives[j], id);
    }
  }

  /** A node a recovery restored as done is never executed again, in that incarnation or any
      later one. */
  lemma {:induction false} NeverExecutedAgain(lives: seq<Incarnation>, i: nat, j: nat, n: Node)
    requires Lives(lives) && i <= j < |lives|
    requires n.id in lives[i].setup.restored && n in lives[i].setup.nodes && n in lives[j].setup.nodes
    ensures n.id in End(lives[j].setup, lives[j].acts).procs
    ensures End(lives[j].setup, lives[j].acts).procs[n.id].execs == 0
  {
    IdOfNode(lives[i].setup.nodes, n);
    RestoredForever(lives, i, j, n.id);
    RestoredNotExecuted(lives[j].setup, lives[j].acts, n);
  }

  // ---- runs of built graphs ----

  /** Along a path of dependencies below a started node everything is done. */
  lemma {:induction false} AncestorsDone(nodes: seq<Node>, done: set<string>, p: seq<string>)
    requires IsPath(IndexOf(nodes), p) && p[0] in IndexOf(nodes) && ClosedUnderDeps(nodes, done)
    requires forall d :: d in IndexOf(nodes)[p[0]].deps ==> d in done
    requires forall n, m :: n in nodes && m in nodes && m.id in n.deps ==> !m.alwaysRun
    ensures p[|p| - 1] in done
    decreases |p|
  {
    var idx := IndexOf(nodes);
    assert Edge(idx, p[0], p[1]);
    if |p| > 2 {
      var q := p[1..];
      forall k | 0 <= k < |q| - 1
        ensures Edge(idx, q[k], q[k + 1])
      {
        assert Edge(idx, p[k + 1], p[k + 2]);
      }
      assert Edge(idx, q[0], q[1]);
      assert idx[p[0]] in nodes && idx[p[1]] in nodes;
      AncestorsDone(nodes, done, q);
    }
  }

  lemma OnlyTeardownAlwaysRuns(db: Config.Database, n: Node, m: Node)
    requires n in Builder.Built(db) && m in Builder.Built(db) && m.id in n.deps
    ensures !m.alwaysRun
  {
    Builder.BuiltMember(db, n);
    Builder.BuiltMember(db, m);
    var p :| Builder.Present(db, p) && n == Builder.NodeOf(db, p);
    var q :| Builder.Present(db, q) && m == Builder.NodeOf(db, q);
    Builder.NodeDeps(db, p, m.id);
    var r :| r in Builder.DepsOf(db, p) && m.id == Builder.Name(r);
    Builder.NameInjective(q, r);
    Builder.DepsFine(db, p, r);
  }

  /** With what run_stroppy needs done, everything else but teardown is. */
  lemma EverythingBefore(db: Config.Database, done: set<string>, p: Builder.Phase)
    requires ClosedUnderDeps(Builder.Built(db), done)
    requires forall d :: d in Builder.NodeOf(db, Builder.RunStroppy).deps ==> d in done
    requires Builder.Present(db, p) && p != Builder.RunStroppy && p != Builder.Teardown
    ensures Builder.Name(p) in done
  {
    var nodes := Builder.Built(db);
    Builder.RunStroppyIsLast(db, p);
    var path :| PathBetween(IndexOf(nodes), Builder.Name(Builder.RunStroppy), Builder.Name(p), path);
    forall x, y | x in nodes && y in nodes && y.id in x.deps
      ensures !y.alwaysRun
    {
      OnlyTeardownAlwaysRuns(db, x, y);
    }
    Builder.BuiltEdge(db, Builder.RunStroppy, p);
    AncestorsDone(nodes, done, path);
  }

  /** In every run of every built graph, fresh or resumed, run_stroppy starts only when every
      other phase but teardown is done. */
  lemma RunStroppyStartsLast(db: Config.Database, c: Setup, acts: seq<Action>, p: Builder.Phase)
    requires Run(c, acts) && c.nodes == Builder.Built(db) && ClosedUnderDeps(c.nodes, c.restored)
    requires Builder.Present(db, p) && p != Builder.RunStroppy && p != Builder.Teardown
    ensures var s, id := End(c, acts), Builder.Name(Builder.RunStroppy);
            && id in s.procs
            && (s.procs[id].handed > 0 ==> StatusOf(s.sh, Builder.Name(p)) == Done)
  {
    var s, id := End(c, acts), Builder.Name(Builder.RunStroppy);
    var n := Builder.NodeOf(db, Builder.RunStroppy);
    Builder.BuiltId(db, Builder.RunStroppy);
    EndInv(c, acts);
    assert NodeOk(c, s, n);
    if s.procs[id].handed > 0 {
      RunStroppyDeps(db, c, s, n);
      SnapshotClosed(c, acts);
      EverythingBefore(db, SnapshotDone(c, s), p);
      SnapshotDoneExactly(c, s, Builder.Name(p));
    }
  }

  lemma RunStroppyDeps(db: Config.Database, c: Setup, s: State, n: Node)
    requires NodesOk(c, s) && StartsOk(s) && DepsKnown(c.nodes) && n in c.nodes && !n.alwaysRun
    requires n.id in s.procs && s.procs[n.id].handed > 0
    ensures forall d :: d in n.deps ==> d in SnapshotDone(c, s)
  {
    assert NodeOk(c, s, n);
    forall d | d in n.deps
      ensures d in SnapshotDone(c, s)
    {
      SnapshotDoneExactly(c, s, d);
    }
  }

  // ---- Start and RecoverRun ----

  datatype Outcome =
    | InvalidConfig | NoRunState | UndecodableConfig | DepsFailed | BuildFailed | Ran(result: RunResult)

  /** The built registry can restore the stored graph. */
  ghost predicate Restorable(db: Config.Database, data: seq<Node>) {
    ValidNodes(data) && forall i :: 0 <= i < |data| ==> data[i].typ in Builder.FactoriesFrom(db, Builder.ORDER)
  }

  /** The stored graph with its tasks put back if it can be restored, the built graph otherwise. */
  ghost predicate Chosen(db: Config.Database, data: Option<seq<Node>>, nodes: seq<Node>) {
    if data.Some? && Restorable(db, data.value) then
      |nodes| == |data.value|
      && forall i :: 0 <= i < |nodes| ==>
           nodes[i] == data.value[i].(task := Builder.FactoriesFrom(db, Builder.ORDER)[data.value[i].typ])
    else nodes == Builder.Built(db)
  }

  lemma KnownType(db: Config.Database, typ: string)
    ensures typ in Builder.FactoriesFrom(db, Builder.ORDER) <==> typ in Ids(Builder.Built(db))
    ensures typ in Ids(Builder.Built(db)) ==>
              Builder.FactoriesFrom(db, Builder.ORDER)[typ] == PhaseTask(typ)
  {
    Builder.FactoriesExact(db, Builder.ORDER, typ);
    if typ in Ids(Builder.Built(db)) {
      var p := Builder.IdIsPhase(db, typ);
      Builder.OrderComplete(p);
      Builder.FactoryOf(db, Builder.ORDER, p);
    } else if p :| p in Builder.ORDER && Builder.Present(db, p) && Builder.Name(p) == typ {
      Builder.BuiltId(db, p);
    }
  }

  /** The stored graph is used exactly if it is valid and all its types are phases of this
      configuration; then only its tasks are new, each the one of its type. */
  lemma ChosenExact(db: Config.Database, data: seq<Node>, nodes: seq<Node>)
    requires Chosen(db, Some(data), nodes)
    ensures if ValidNodes(data) && (forall n :: n in data ==> n.typ in Ids(Builder.Built(db)))
            then Strip(nodes) == Strip(data) && forall n :: n in nodes ==> n.task == PhaseTask(n.typ)
            else nodes == Builder.Built(db)
  {
    RestorableExact(db, data);
    if Restorable(db, data) {
      forall i | 0 <= i < |nodes|
        ensures nodes[i].task == PhaseTask(nodes[i].typ)
      {
        KnownType(db, data[i].typ);
      }
    }
  }

  lemma RestorableExact(db: Config.Database, data: seq<Node>)
    ensures Restorable(db, data) <==> ValidNodes(data) && forall n :: n in data ==> n.typ in Ids(Builder.Built(db))
  {
    forall i | 0 <= i < |data|
      ensures data[i].typ in Builder.FactoriesFrom(db, Builder.ORDER) <==> data[i].typ in Ids(Builder.Built(db))
    {
      KnownType(db, data[i].typ);
    }
    assert forall i :: 0 <= i < |data| ==> data[i] in data;
  }

  /** The graph of the snapshot, if it will be used, has unique ids. */
  ghost predicate UniqueIfChosen(snap: Snapshot) {
    snap.state.Some? && snap.state.value.runConfig.Some? && snap.graph.Some? ==>
      (Restorable(snap.state.value.runConfig.value.sizing.database, snap.graph.value) ==> UniqueIds(snap.graph.value))
  }

  /** What is known of an executor after its run: the run is complete and the snapshots it
      stored are of its graph and configuration. */
  ghost predicate Finished(e: Executor, result: RunResult)
    reads e, e.graph
  {
    && GoodSetup(e.setup) && GoodLog(e.setup, e.log) && e.SavedOk()
    && Run(e.setup, Actions(e.log)) && End(e.setup, Actions(e.log)).pc == Returned(result)
  }

  /** After a run that was started or recovered with a policy, a failed node's task was called
      once and again for every retry of that policy, and failed each time. */
  lemma FailedAfterAll(e: Executor, result: RunResult, retry: RetryPolicy, n: Node)
    requires Finished(e, result) && e.setup.retry == retry && n in e.setup.nodes && 0 <= retry.maxRetries
    ensures var s := End(e.setup, Actions(e.log));
            StatusOf(s.sh, n.id) == Failed ==>
              && Fails(Actions(e.log), n.id) == retry.maxRetries + 1 && Successes(Actions(e.log), n.id) == 0
              && n.id in s.procs && |s.procs[n.id].waits| == retry.maxRetries
  {
    GivenUpExactly(e.setup, Actions(e.log), n);
  }

  function FilledConfig(config: RunState.RunConfiguration): RunState.RunConfiguration {
    config.(sizing := Machines.Filled(config.sizing))
  }

  method FillMachines(config: RunState.RunConfiguration) returns (filled: RunState.RunConfiguration)
    ensures filled == FilledConfig(config)
  {
    var cfg := new Machines.RunConfig(config.sizing);
    cfg.Fill();
    var sizing := Machines.Sizing(cfg.machines, cfg.machineOverride, cfg.database, cfg.stroppyMachine);
    filled := config.(sizing := sizing);
  }

  /** Starts a run. Whether the configuration validates and whether the dependencies can be
      built is decided elsewhere. */
  method Start(config: RunState.RunConfiguration, retry: RetryPolicy, valid: bool, depsBuilt: bool)
    returns (r: Outcome, exec: Executor?)
    ensures r.InvalidConfig? <==> !valid
    ensures r.DepsFailed? <==> valid && !depsBuilt
    ensures r.BuildFailed? <==> valid && depsBuilt && config.sizing.database.kind.OtherKind?
    ensures !r.NoRunState? && !r.UndecodableConfig?
    ensures r.Ran? ==> exec != null && fresh(exec) && Finished(exec, r.result)
    ensures r.Ran? ==> exec.setup.restored == {} && exec.setup.nodes == Builder.Built(config.sizing.database)
    ensures r.Ran? ==> Recoverable(exec) && HeldFirst(exec.log) == RunState.EMPTY && exec.setup.retry == retry
    ensures r.Ran? ==> exec.config.provider == config.provider && exec.config.sizing == Machines.Filled(config.sizing)
  {
    exec := null;
    if !valid {
      return InvalidConfig, exec;
    }
    var cfg := FillMachines(config);
    if !depsBuilt {
      return DepsFailed, exec;
    }
    var b := new Builder.PhaseBuilder(cfg.sizing.database);
    var ok := b.Build();
    if !ok {
      return BuildFailed, exec;
    }
    Builder.BuiltValid(cfg.sizing.database);
    var state := new RunState.State();
    exec := new Executor(b.g, retry, state, cfg);
    var result := exec.Run();
    r := Ran(result);
  }

  /** Resumes a run from a snapshot. The graph in the snapshot is used if the registry of the
      freshly built graph can restore it, the built graph otherwise; nodes recorded as done
      are marked done, and the rest is run. */
  method RecoverRun(retry: RetryPolicy, snap: Snapshot, depsBuilt: bool)
    returns (r: Outcome, state: RunState.State, exec: Executor?)
    requires UniqueIfChosen(snap)
    ensures r.NoRunState? <==> snap.state.None?
    ensures r.UndecodableConfig? <==> snap.state.Some? && snap.state.value.runConfig.None?
    ensures r.DepsFailed? <==> snap.state.Some? && snap.state.value.runConfig.Some? && !depsBuilt
    ensures r.BuildFailed? <==> snap.state.Some? && snap.state.value.runConfig.Some? && depsBuilt
                                && snap.state.value.runConfig.value.sizing.database.kind.OtherKind?
    ensures !r.InvalidConfig?
    ensures r.BuildFailed? ==> state.Contents() == RunState.ImportOf(snap.state.value)
    ensures r.Ran? ==> exec != null && fresh(exec) && Finished(exec, r.result)
    ensures r.Ran? ==> exec.setup.restored == DoneIn(snap.nodes) && exec.exporter == state
    ensures r.Ran? ==> exec.setup.retry == retry && forall id :: id in exec.setup.restored <==>
              exists i :: 0 <= i < |snap.nodes| && snap.nodes[i].id == id && snap.nodes[i].status == Done
    ensures r.Ran? ==> HeldFirst(exec.log) == RunState.ImportOf(snap.state.value)
    ensures r.Ran? ==> exec.config.provider == snap.state.value.runConfig.value.provider
    ensures r.Ran? ==> exec.config.sizing == Machines.Filled(snap.state.value.runConfig.value.sizing)
    ensures r.Ran? ==> Chosen(snap.state.value.runConfig.value.sizing.database, snap.graph, exec.setup.nodes)
  {
    exec := null;
    state := new RunState.State();
    if snap.state.None? {
      return NoRunState, state, exec;
    }
    if snap.state.value.runConfig.None? {
      return UndecodableConfig, state, exec;
    }
    var cfg := FillMachines(snap.state.value.runConfig.value);
    if !depsBuilt {
      return DepsFailed, state, exec;
    }
    state.ImportRunState(snap.state.value);
    var b := new Builder.PhaseBuilder(cfg.sizing.database);
    var ok := b.Build();
    if !ok {
      return BuildFailed, state, exec;
    }
    Builder.BuiltValid(cfg.sizing.database);
    var graph := ChooseGraph(cfg.sizing.database, b.g, b.reg, snap.graph);
    var result;
    result, exec := RunFrom(graph, retry, state, cfg, snap.nodes);
    r := Ran(result);
  }

  /** Runs what is left of the graph, from the shared state as it is. */
  method RunFrom(graph: Graph, retry: RetryPolicy, state: RunState.State, config: RunState.RunConfiguration,
                 nodes: seq<NodeStatus>)
    returns (result: RunResult, exec: Executor)
    requires UniqueIds(graph.nodes) && ValidNodes(graph.nodes)
    modifies state
    ensures fresh(exec) && Finished(exec, result) && exec.exporter == state && exec.config == config
    ensures exec.setup.nodes == graph.nodes && exec.setup.retry == retry && exec.setup.restored == DoneIn(nodes)
    ensures HeldFirst(exec.log) == old(state.Contents())
  {
    exec := new Executor(graph, retry, state, config);
    MarkRestored(exec, nodes);
    result := exec.Run();
  }

  /** A stored snapshot of a built graph is restored as that graph. */
  lemma BuiltChosen(db: Config.Database, nodes: seq<Node>)
    requires Chosen(db, Some(Strip(Builder.Built(db))), nodes)
    ensures nodes == Builder.Built(db)
  {
    Builder.BuiltValid(db);
    Builder.TypesKnown(db);
    StripValid(Builder.Built(db));
    Builder.RestoredIsBuilt(db, nodes);
  }

  /** A run that was started or recovered, with snapshots to recover from. */
  ghost predicate Recoverable(e: Executor)
    reads e, e.graph
  {
    && GoodSetup(e.setup) && GoodLog(e.setup, e.log) && e.SavedOk()
    && e.setup.nodes == Builder.Built(e.config.sizing.database) && e.exporter != null
    && !e.config.sizing.database.kind.OtherKind?
  }

  /** Any snapshot of the log, resumed, gives the next incarnation. */
  lemma StoredResumes(c: Setup, log: RunLog, snap: Snapshot, next: Incarnation) returns (moment: RunLog)
    requires GoodSetup(c) && GoodLog(c, log) && Seen(c.nodes, log, snap)
    requires next.setup.nodes == c.nodes && next.setup.restored == DoneIn(snap.nodes)
    ensures Passes(log, moment) && ResumesFrom(Incarnation(c, Actions(log)), next, |Actions(moment)|)
    ensures snap.state.Some? ==> RunState.ImportOf(snap.state.value) == moment.held
  {
    moment := SeenAtPrefix(c, log, snap);
    assert Actions(log)[..|Actions(moment)|] == Actions(moment);
  }

  /** Recovering from any snapshot a run stored: the new run resumes the old one at a moment
      of it, begins with the shared state the old one held at that moment, and can be recovered
      from in turn. Chains of such runs are what LivesClosed and NeverExecutedAgain speak of. */
  method RecoverStored(prev: Executor, k: nat, retry: RetryPolicy)
    returns (result: RunResult, exec: Executor, ghost moment: RunLog)
    requires Recoverable(prev) && prev.base <= k < |prev.saved|
    ensures fresh(exec) && Finished(exec, result) && Recoverable(exec)
    ensures Passes(prev.log, moment) && HeldFirst(exec.log) == moment.held && exec.setup.retry == retry
    ensures ResumesFrom(Incarnation(prev.setup, Actions(prev.log)), Incarnation(exec.setup, Actions(exec.log)),
                        |Actions(moment)|)
  {
    var snap := prev.saved[k];
    var db := prev.config.sizing.database;
    StripUnique(Builder.Built(db));
    var r, state, e := RecoverRun(retry, snap, true);
    exec, result := e, r.result;
    BuiltChosen(db, exec.setup.nodes);
    moment := StoredResumes(prev.setup, prev.log, snap, Incarnation(exec.setup, Actions(exec.log)));
  }

  lemma StripUnique(nodes: seq<Node>)
    ensures UniqueIds(nodes) <==> UniqueIds(Strip(nodes))
  {
  }

  method MarkRestored(exec: Executor, nodes: seq<NodeStatus>)
    requires exec.Sh() == InitShared({})
    modifies exec`nodeStatus
    ensures exec.Sh() == InitShared(DoneIn(nodes)) && exec.nodeStatus.Keys == DoneIn(nodes)
  {
    for i := 0 to |nodes|
      invariant exec.Sh() == InitShared(DoneIn(nodes[..i]))
    {
      assert DoneIn(nodes[..i + 1]) == DoneIn(nodes[..i]) + if nodes[i].status == Done then {nodes[i].id} else {};
      if nodes[i].status == Done {
        exec.MarkNodeDone(nodes[i].id);
      }
    }
    assert nodes[..|nodes|] == nodes;
  }

  /** A stored graph may hold several nodes of one id; then so does the graph that is chosen. */
  method ChooseGraph(db: Config.Database, built: Graph, reg: Registry, data: Option<seq<Node>>) returns (g: Graph)
    requires built.nodes == Builder.Built(db) && reg.factories == Builder.FactoriesFrom(db, Builder.ORDER)
    requires UniqueIds(built.nodes) && ValidNodes(built.nodes)
    ensures ValidNodes(g.nodes) && Chosen(db, data, g.nodes)
    ensures UniqueIds(g.nodes) <==> (data.Some? && Restorable(db, data.value) ==> UniqueIds(data.value))
  {
    g := built;
    if data.Some? {
      var restored := reg.Unmarshal(data.value);
      if restored.Ok? {
        g := restored.value;
        SameShapeValid(g.nodes, data.value);
      }
    }
  }

  lemma StripValid(nodes: seq<Node>)
    requires ValidNodes(nodes)
    ensures ValidNodes(Strip(nodes))
  {
    SameShapeValid(nodes, Strip(nodes));
  }
}
