/** The executor of internal/core/dag/executor.go as an object whose methods update its
    fields. `Run` is the source's control flow; its goroutines are stepped one at a time in an
    arbitrary order, their loop variables kept in a worker record. Every step is logged as an
    action of the run state machine, so `Run` can only produce runs of that machine. */
module Executor {
  import opened Wrappers
  import opened Dag
  import opened DagGraph
  import opened Backoff
  import opened RunMachine
  import opened RunInvariant
  import opened RunTheorems
  import RunState

  datatype NodeStatus = NodeStatus(id: string, status: Status, error: Option<ErrorText>)

  datatype Snapshot = Snapshot(
    graph: Option<seq<Node>>,
    nodes: seq<NodeStatus>,
    state: Option<RunState.Saved>,
    finished: bool)

  function StatusOfNode(n: Node, sh: Shared): NodeStatus {
    NodeStatus(n.id, StatusOf(sh, n.id), if n.id in sh.nodeErrors then Some(sh.nodeErrors[n.id]) else None)
  }

  /** The statuses a snapshot lists: one per node, in graph order. */
  function NodeStatuses(nodes: seq<Node>, sh: Shared): seq<NodeStatus> {
    seq(|nodes|, i requires 0 <= i < |nodes| => StatusOfNode(nodes[i], sh))
  }

  /** The run so far: where it began, a further action and the state it led to, or what tasks
      wrote in between. `held` is the content of the shared state at that moment. */
  datatype RunLog =
    | Begin(now: State, held: RunState.View)
    | Step(before: RunLog, action: Action, now: State, held: RunState.View)
    | Written(before: RunLog, now: State, held: RunState.View)

  /** Some task is between its call and its return. */
  predicate Executing(s: State) {
    exists id :: id in s.procs && s.procs[id].worker.AtExecute?
  }

  ghost predicate GoodLog(c: Setup, log: RunLog) {
    match log
    case Begin(s, _) => s == Init(c)
    case Step(before, a, s, held) =>
      GoodLog(c, before) && Enabled(c, before.now, a) && s == Apply(c, before.now, a) && held == before.held
    case Written(before, s, _) => GoodLog(c, before) && s == before.now && Executing(s)
  }

  ghost function Actions(log: RunLog): seq<Action> {
    match log
    case Begin(_, _) => []
    case Step(before, a, _, _) => Actions(before) + [a]
    case Written(before, _, _) => Actions(before)
  }

  ghost function Length(log: RunLog): nat {
    match log
    case Begin(_, _) => 0
    case Step(before, _, _, _) => Length(before) + 1
    case Written(before, _, _) => Length(before)
  }

  /** What the shared state held when the run began. */
  ghost function HeldFirst(log: RunLog): RunState.View {
    if log.Begin? then log.held else HeldFirst(log.before)
  }

  /** A moment of the run. */
  ghost predicate Passes(log: RunLog, moment: RunLog) {
    log == moment || (!log.Begin? && Passes(log.before, moment))
  }

  /** The snapshot shows the statuses and the shared state of that moment. */
  ghost predicate Shows(nodes: seq<Node>, moment: RunLog, snap: Snapshot) {
    && snap.nodes == NodeStatuses(nodes, moment.now.sh)
    && (snap.state.Some? ==> RunState.TakenFrom(snap.state.value, moment.held))
  }

  /** It shows some moment of the run. */
  ghost predicate Seen(nodes: seq<Node>, log: RunLog, snap: Snapshot) {
    Shows(nodes, log, snap) || (!log.Begin? && Seen(nodes, log.before, snap))
  }

  /** Nothing is written to the shared state before the first task is called. */
  lemma {:induction false} HeldUntilCalled(c: Setup, log: RunLog)
    requires GoodSetup(c) && GoodLog(c, log) && forall i :: 0 <= i < |Actions(log)| ==> !Actions(log)[i].BeginAttempt?
    ensures log.held == HeldFirst(log) && !Executing(log.now)
  {
    match log
    case Begin(_, _) =>
    case Step(before, a, _, _) =>
      assert Actions(log) == Actions(before) + [a];
      assert Actions(log)[|Actions(before)|] == a;
      assert forall i :: 0 <= i < |Actions(before)| ==> Actions(log)[i] == Actions(before)[i];
      HeldUntilCalled(c, before);
      NoneCalled(c, before.now, a);
    case Written(before, _, _) =>
      assert Actions(log) == Actions(before);
      HeldUntilCalled(c, before);
  }

  lemma NoneCalled(c: Setup, s: State, a: Action)
    requires Enabled(c, s, a) && !a.BeginAttempt? && !Executing(s)
    ensures !Executing(Apply(c, s, a))
  {
  }

  lemma {:induction false} LegalAppend(c: Setup, s: State, acts: seq<Action>, a: Action)
    requires Legal(c, s, acts) && Enabled(c, Final(c, s, acts), a)
    ensures Legal(c, s, acts + [a])
    ensures Final(c, s, acts + [a]) == Apply(c, Final(c, s, acts), a)
    decreases |acts|
  {
    var more := acts + [a];
    if acts == [] {
      assert more[1..] == [];
    } else {
      assert more[1..] == acts[1..] + [a];
      LegalAppend(c, Apply(c, s, acts[0]), acts[1..], a);
    }
  }

  /** A log is a run of the machine. */
  lemma {:induction false} LogIsRun(c: Setup, log: RunLog)
    requires GoodLog(c, log)
    ensures Legal(c, Init(c), Actions(log)) && Final(c, Init(c), Actions(log)) == log.now
    ensures |Actions(log)| == Length(log)
  {
    if !log.Begin? {
      LogIsRun(c, log.before);
    }
    if log.Step? {
      LegalAppend(c, Init(c), Actions(log.before), log.action);
    }
  }

  lemma {:induction false} LogInv(c: Setup, log: RunLog)
    requires GoodSetup(c) && GoodLog(c, log)
    ensures Inv(c, log.now)
  {
    match log
    case Begin(_, _) => InitInv(c);
    case Step(before, a, _, _) =>
      LogInv(c, before);
      ApplyInv(c, before.now, a);
    case Written(before, _, _) => LogInv(c, before);
  }

  /** Every snapshot seen along the log shows a moment of the run: its statuses, and in the
      shared state exactly what was held then. */
  lemma {:induction false} SeenAtPrefix(c: Setup, log: RunLog, snap: Snapshot) returns (moment: RunLog)
    requires GoodLog(c, log) && Seen(c.nodes, log, snap)
    ensures Passes(log, moment) && GoodLog(c, moment) && Actions(moment) <= Actions(log)
    ensures Legal(c, Init(c), Actions(moment)) && Final(c, Init(c), Actions(moment)) == moment.now
    ensures snap.nodes == NodeStatuses(c.nodes, moment.now.sh)
    ensures snap.state.Some? ==> RunState.ImportOf(snap.state.value) == moment.held
  {
    if Shows(c.nodes, log, snap) {
      LogIsRun(c, log);
      moment := log;
      if snap.state.Some? {
        RunState.ImportTaken(snap.state.value, log.held);
      }
    } else {
      moment := SeenAtPrefix(c, log.before, snap);
    }
  }

  lemma RunOfLog(c: Setup, log: RunLog)
    requires GoodSetup(c) && GoodLog(c, log)
    ensures Run(c, Actions(log)) && |Actions(log)| == Length(log) && End(c, Actions(log)) == log.now
  {
    LogIsRun(c, log);
  }

  lemma LogBound(c: Setup, log: RunLog)
    requires GoodSetup(c) && GoodLog(c, log)
    ensures Length(log) <= Bound(c)
  {
    RunOfLog(c, log);
    RunTerminates(c, Actions(log));
  }

  class Executor {
    const graph: Graph
    const retry: RetryPolicy

    /** What the state exporter reads: the shared state, if there is one, and the configuration. */
    const exporter: RunState.State?
    const config: RunState.RunConfiguration

    var nodeStatus: map<string, Status>
    var nodeErrors: map<string, ErrorText>
    var errs: seq<NodeFailure>
    var cancelled: bool

    /** What reached the storage; it may lose snapshots. */
    var saved: seq<Snapshot>

    /** What was handed to the storage, in order. */
    ghost var offered: seq<Snapshot>

    /** The environment's side: is the caller's context done, has the teardown timed out. */
    var ctxDone: bool
    var timedOut: bool

    ghost var setup: Setup
    ghost var log: RunLog
    ghost var base: nat
    ghost var first: RunState.View

    constructor (graph: Graph, retry: RetryPolicy, exporter: RunState.State?, config: RunState.RunConfiguration)
      ensures this.graph == graph && this.retry == retry && this.exporter == exporter && this.config == config
      ensures Sh() == InitShared({}) && saved == [] && !ctxDone && !timedOut
    {
      this.graph, this.retry, this.exporter, this.config := graph, retry, exporter, config;
      nodeStatus, nodeErrors, errs, cancelled := map[], map[], [], false;
      saved, offered, ctxDone, timedOut := [], [], false, false;
    }

    /** The content of the shared state. */
    ghost function Held(): RunState.View
      reads this, exporter
    {
      if exporter == null then RunState.EMPTY else exporter.Contents()
    }

    ghost function Sh(): Shared
      reads this
    {
      Shared(nodeStatus, nodeErrors, errs, cancelled)
    }

    /** Restores a completed node during recovery. */
    method MarkNodeDone(id: string)
      modifies this`nodeStatus
      ensures Sh() == MarkDone(old(Sh()), id)
      ensures forall r :: old(Sh()) == InitShared(r) ==> Sh() == InitShared(r + {id})
    {
      nodeStatus := nodeStatus[id := Done];
    }

    method MarkNodeFailed(id: string, text: ErrorText)
      modifies this`nodeStatus, this`nodeErrors, this`errs
      ensures Sh() == MarkFailed(old(Sh()), id, text)
    {
      nodeStatus := nodeStatus[id := Failed];
      nodeErrors := nodeErrors[id := text];
      errs := errs + [NodeFailure(id, text)];
    }

    method AnyFailed() returns (failed: bool)
      ensures failed <==> SomeFailed(Sh())
    {
      var rest := nodeStatus.Keys;
      while rest != {}
        invariant rest <= nodeStatus.Keys
        invariant forall id :: id in nodeStatus && id !in rest ==> nodeStatus[id] != Failed
        decreases rest
      {
        var id :| id in rest;
        if nodeStatus[id] == Failed {
          return true;
        }
        rest := rest - {id};
      }
      failed := false;
    }

    method HasFailedOrCancelled() returns (r: bool)
      ensures r <==> FailedOrCancelled(Sh())
    {
      if cancelled {
        return true;
      }
      r := AnyFailed();
    }

    method GetReadyNodes() returns (ready: seq<Node>)
      ensures ready == GetReady(graph.nodes, Sh())
      ensures FailedOrCancelled(Sh()) ==> ready == []
      ensures !FailedOrCancelled(Sh()) ==>
                forall n :: n in ready <==> n in graph.nodes && StatusOf(Sh(), n.id) != Done
                                            && forall d :: d in n.deps ==> StatusOf(Sh(), d) == Done
    {
      ReadyExactly(graph.nodes, DoneIds(Sh()));
      var failed := AnyFailed();
      if failed || cancelled {
        return [];
      }
      var done := set id | id in nodeStatus && nodeStatus[id] == Done;
      assert done == DoneIds(Sh());
      ready := graph.Ready(done);
    }

    method SetRunning(batch: seq<Node>)
      modifies this`nodeStatus
      ensures Sh() == MarkRunning(old(Sh()), Ids(batch))
    {
      for i := 0 to |batch|
        invariant Sh() == MarkRunning(old(Sh()), Ids(batch[..i]))
      {
        assert Ids(batch[..i + 1]) == Ids(batch[..i]) + {batch[i].id};
        RunningOneMore(old(Sh()), Ids(batch[..i]), batch[i].id);
        nodeStatus := nodeStatus[batch[i].id := Running];
      }
      assert batch[..|batch|] == batch;
    }

    method SetCancelled()
      modifies this`nodeStatus, this`cancelled
      ensures Sh() == CancelPending(old(Sh()), graph.nodes)
    {
      cancelled := true;
      for i := 0 to |graph.nodes|
        invariant cancelled && nodeStatus == CancelLoop(old(nodeStatus), graph.nodes[..i])
      {
        var n := graph.nodes[i];
        assert graph.nodes[..i + 1][..i] == graph.nodes[..i];
        if n.id !in nodeStatus || nodeStatus[n.id] == Pending {
          if !n.alwaysRun {
            nodeStatus := nodeStatus[n.id := Cancelled];
          }
        }
      }
      assert graph.nodes[..|graph.nodes|] == graph.nodes;
      CancelLoopIsCancelPending(old(Sh()), graph.nodes);
    }

    method TakeSnapshot() returns (snap: Snapshot)
      ensures snap.nodes == NodeStatuses(graph.nodes, Sh()) && |snap.nodes| == |graph.nodes|
      ensures forall i :: 0 <= i < |graph.nodes| ==>
                var id := graph.nodes[i].id;
                && snap.nodes[i].id == id
                && snap.nodes[i].status == (if id in nodeStatus then nodeStatus[id] else Pending)
                && snap.nodes[i].error == (if id in nodeErrors then Some(nodeErrors[id]) else None)
      ensures snap.graph == if ValidNodes(graph.nodes) then Some(Strip(graph.nodes)) else None
      ensures snap.state == if exporter == null then None else
                Some(RunState.ExportOf(exporter.Contents()).(provider := config.provider, runConfig := Some(config)))
      ensures snap.finished <==> forall n :: n in graph.nodes ==> Settled(StatusOf(Sh(), n.id))
    {
      var data := Marshal(graph);
      var nodes: seq<NodeStatus> := [];
      var finished := true;
      for i := 0 to |graph.nodes|
        invariant |nodes| == i && forall k :: 0 <= k < i ==> nodes[k] == StatusOfNode(graph.nodes[k], Sh())
        invariant finished <==> forall k :: 0 <= k < i ==> Settled(StatusOf(Sh(), graph.nodes[k].id))
      {
        var n := graph.nodes[i];
        var st := if n.id in nodeStatus then nodeStatus[n.id] else Pending;
        var error := if n.id in nodeErrors then Some(nodeErrors[n.id]) else None;
        nodes := nodes + [NodeStatus(n.id, st, error)];
        finished := finished && st != Pending && st != Running;
      }
      var state := None;
      if exporter != null {
        var rs := exporter.ExportRunState();
        state := Some(rs.(provider := config.provider, runConfig := Some(config)));
      }
      snap := Snapshot(if data.Ok? then Some(data.value) else None, nodes, state, finished);
    }

    // ---- the log ----

    /** The log is a run of the machine on this executor's graph and policy. */
    ghost predicate Logged()
      reads this, graph
    {
      setup.nodes == graph.nodes && setup.retry == retry && GoodSetup(setup) && GoodLog(setup, log)
      && HeldFirst(log) == first
    }

    /** The fields hold what the machine's current state says. */
    ghost predicate Linked()
      reads this, exporter
    {
      log.now.sh == Sh() && log.now.ctxDone == ctxDone && log.now.timedOut == timedOut && log.held == Held()
    }

    /** Every snapshot stored since the run began shows a moment of the run, and carries the
        graph and, if there is a shared state, the configuration. */
    ghost predicate SavedOk()
      reads this
    {
      base <= |saved|
      && forall k :: base <= k < |saved| ==> Seen(setup.nodes, log, saved[k]) && Carries(saved[k])
    }

    ghost predicate Carries(snap: Snapshot)
      reads this
    {
      && snap.graph == Some(Strip(setup.nodes))
      && (snap.state.Some? <==> exporter != null)
      && (snap.state.Some? ==> snap.state.value.runConfig == Some(config))
    }

    ghost method Advance(a: Action)
      requires Logged() && SavedOk() && Enabled(setup, log.now, a)
      modifies this`log
      ensures Logged() && SavedOk() && log == Step(old(log), a, Apply(setup, old(log.now), a), old(log.held))
      ensures Length(log) == old(Length(log)) + 1 <= Bound(setup)
    {
      log := Step(log, a, Apply(setup, log.now, a), log.held);
      LogBound(setup, log);
    }

    /** The storage may or may not keep the snapshot; Run ignores its errors. */
    method Save()
      requires Logged() && Linked() && SavedOk()
      modifies this`saved, this`offered
      ensures SavedOk() && old(saved) <= saved
      ensures LastShowsNow()
    {
      var snap := RunSnapshot();
      offered := offered + [snap];
      if * {
        saved := saved + [snap];
      }
    }

    /** The snapshot is of the present moment. */
    ghost predicate ShowsNow(snap: Snapshot)
      reads this, graph, exporter
    {
      && snap.nodes == NodeStatuses(graph.nodes, Sh())
      && (snap.state.Some? <==> exporter != null)
      && (snap.state.Some? ==> RunState.TakenFrom(snap.state.value, Held()))
    }

    ghost predicate LastShowsNow()
      reads this, graph, exporter
    {
      offered != [] && ShowsNow(offered[|offered| - 1])
    }

    /** A snapshot taken during a run. */
    method RunSnapshot() returns (snap: Snapshot)
      requires Logged() && Linked()
      ensures Seen(setup.nodes, log, snap) && Carries(snap) && ShowsNow(snap)
    {
      snap := TakeSnapshot();
    }

    // ---- goroutines ----

    /** A task may write to the shared state at any time between its call and its return. */
    method TasksWrite(workers: map<string, Worker>)
      requires Logged() && Linked() && SavedOk() && WorkersOf(log.now, workers)
      modifies this`log, exporter
      ensures Logged() && Linked() && SavedOk() && log.now == old(log.now) && Length(log) == old(Length(log))
    {
      var v: RunState.View := *;
      if exporter != null && exists id | id in workers :: workers[id].AtExecute? {
        exporter.Write(v);
        LogWrite(v);
      }
    }

    ghost method LogWrite(v: RunState.View)
      requires Logged() && SavedOk() && Executing(log.now)
      modifies this`log
      ensures Logged() && SavedOk() && log == Written(old(log), old(log.now), v)
    {
      log := Written(log, log.now, v);
    }

    /** Between any two steps the environment may cancel the context or, during teardown,
        let the timeout expire. */
    method Environment(teardown: bool)
      requires Logged() && Linked() && SavedOk() && (teardown ==> log.now.pc.TearBatch?)
      modifies this`ctxDone, this`timedOut, this`log
      ensures Logged() && Linked() && SavedOk()
      ensures log.now.pc == old(log.now.pc) && log.now.procs == old(log.now.procs)
      ensures old(Length(log)) <= Length(log)
    {
      var cancel, late := *, *;
      if cancel && !ctxDone {
        ctxDone := true;
        Advance(CancelContext);
      } else if late && teardown && !timedOut {
        timedOut := true;
        Advance(TeardownTimeout);
      }
    }

    /** At the head of the retry loop: give up, be cancelled in the wait, or begin an attempt.
        When the context has ended, the wait may notice it, or its timer fires first. */
    method LoopHead(n: Node, workers: map<string, Worker>, teardown: bool, noticed: bool)
      returns (rest: map<string, Worker>)
      requires Logged() && Linked() && SavedOk() && WorkersOf(log.now, workers) && n in graph.nodes && n.id in workers
      requires workers[n.id].AtHead?
      requires if teardown then log.now.pc.TearBatch? else log.now.pc.Batch?
      modifies this`nodeStatus, this`nodeErrors, this`errs, this`log
      ensures Logged() && Linked() && SavedOk() && WorkersOf(log.now, rest) && rest.Keys <= workers.Keys
      ensures log.now.pc == old(log.now.pc) && old(Length(log)) < Length(log) <= Bound(setup)
      ensures workers[n.id].attempt > retry.maxRetries ==> n.id !in rest && StatusOf(Sh(), n.id) == Failed
      ensures 0 < workers[n.id].attempt <= retry.maxRetries && noticed
              && (if teardown then timedOut else !n.mustComplete && ctxDone) ==>
                n.id !in rest && StatusOf(Sh(), n.id) == Cancelled
      ensures workers[n.id].attempt <= retry.maxRetries && (workers[n.id].attempt == 0 || !noticed) ==>
                n.id in rest && rest[n.id].AtExecute?
    {
      var attempt := workers[n.id].attempt;
      var contextDone := if teardown then timedOut else !n.mustComplete && ctxDone;
      if attempt > retry.maxRetries {
        rest := AttemptsUsedUp(n, workers);
      } else if attempt > 0 && contextDone && noticed {
        rest := CancelInWait(n, workers, teardown);
      } else {
        rest := CallExecute(n, workers);
      }
    }

    method CallExecute(n: Node, workers: map<string, Worker>) returns (rest: map<string, Worker>)
      requires Logged() && Linked() && SavedOk() && WorkersOf(log.now, workers) && n in graph.nodes && n.id in workers
      requires workers[n.id].AtHead? && workers[n.id].attempt <= retry.maxRetries
      modifies this`log
      ensures Logged() && Linked() && SavedOk() && WorkersOf(log.now, rest) && rest.Keys <= workers.Keys
      ensures log.now.pc == old(log.now.pc) && old(Length(log)) < Length(log) <= Bound(setup)
      ensures n.id in rest && rest[n.id].AtExecute?
    {
      var attempt, delay := workers[n.id].attempt, workers[n.id].delay;
      Advance(BeginAttempt(n.id));
      rest := workers[n.id := AtExecute(attempt, if attempt == 0 then delay else NextDelay(delay, retry.maxDelay))];
    }

    method AttemptsUsedUp(n: Node, workers: map<string, Worker>) returns (rest: map<string, Worker>)
      requires Logged() && Linked() && SavedOk() && WorkersOf(log.now, workers) && n in graph.nodes && n.id in workers
      requires workers[n.id].AtHead? && workers[n.id].attempt > retry.maxRetries
      modifies this`nodeStatus, this`nodeErrors, this`errs, this`log
      ensures Logged() && Linked() && SavedOk() && WorkersOf(log.now, rest) && rest.Keys <= workers.Keys
      ensures log.now.pc == old(log.now.pc) && old(Length(log)) < Length(log) <= Bound(setup)
      ensures n.id !in rest && StatusOf(Sh(), n.id) == Failed
    {
      MarkNodeFailed(n.id, AttemptsText(retry.maxRetries + 1, workers[n.id].cause));
      GivesUp(setup, log.now, n.id);
      Advance(GiveUp(n.id));
      WorkerEnds(old(log.now), log.now, workers, n.id);
      rest := workers - {n.id};
    }

    method CancelInWait(n: Node, workers: map<string, Worker>, teardown: bool) returns (rest: map<string, Worker>)
      requires Logged() && Linked() && SavedOk() && WorkersOf(log.now, workers) && n in graph.nodes && n.id in workers
      requires workers[n.id].AtHead? && 0 < workers[n.id].attempt <= retry.maxRetries
      requires if teardown then log.now.pc.TearBatch? && timedOut else log.now.pc.Batch? && ctxDone && !n.mustComplete
      modifies this`nodeStatus, this`nodeErrors, this`log
      ensures Logged() && Linked() && SavedOk() && WorkersOf(log.now, rest) && rest.Keys <= workers.Keys
      ensures log.now.pc == old(log.now.pc) && old(Length(log)) < Length(log) <= Bound(setup)
      ensures n.id !in rest && StatusOf(Sh(), n.id) == Cancelled
    {
      WorkerContext(setup, log, n);
      nodeStatus := nodeStatus[n.id := Cancelled];
      nodeErrors := nodeErrors[n.id := CancelledText];
      Advance(CancelWait(n.id));
      rest := workers - {n.id};
    }

    /** Execute returns: with nil, or with an error that sends the goroutine back to the head. */
    method ExecuteReturns(n: Node, workers: map<string, Worker>, error: Option<string>)
      returns (rest: map<string, Worker>)
      requires Logged() && Linked() && SavedOk() && WorkersOf(log.now, workers) && n in graph.nodes && n.id in workers
      requires workers[n.id].AtExecute?
      modifies this`nodeStatus, this`log
      ensures Logged() && Linked() && SavedOk() && WorkersOf(log.now, rest) && rest.Keys <= workers.Keys
      ensures log.now.pc == old(log.now.pc) && old(Length(log)) < Length(log) <= Bound(setup)
      ensures match error
              case None => n.id !in rest && StatusOf(Sh(), n.id) == Done
              case Some(e) =>
                n.id in rest && rest[n.id] == AtHead(workers[n.id].attempt + 1, workers[n.id].delay, Some(e))
    {
      match error
      case None => rest := ExecuteSucceeds(n, workers);
      case Some(e) => rest := ExecuteFails(n, workers, e);
    }

    method ExecuteFails(n: Node, workers: map<string, Worker>, error: string) returns (rest: map<string, Worker>)
      requires Logged() && Linked() && SavedOk() && WorkersOf(log.now, workers) && n in graph.nodes && n.id in workers
      requires workers[n.id].AtExecute?
      modifies this`log
      ensures Logged() && Linked() && SavedOk() && WorkersOf(log.now, rest) && rest.Keys <= workers.Keys
      ensures log.now.pc == old(log.now.pc) && old(Length(log)) < Length(log) <= Bound(setup)
      ensures n.id in rest && rest[n.id] == AtHead(workers[n.id].attempt + 1, workers[n.id].delay, Some(error))
    {
      var attempt, delay := workers[n.id].attempt, workers[n.id].delay;
      Advance(Fail(n.id, error));
      rest := workers[n.id := AtHead(attempt + 1, delay, Some(error))];
    }

    method ExecuteSucceeds(n: Node, workers: map<string, Worker>) returns (rest: map<string, Worker>)
      requires Logged() && Linked() && SavedOk() && WorkersOf(log.now, workers) && n in graph.nodes && n.id in workers
      requires workers[n.id].AtExecute?
      modifies this`nodeStatus, this`log
      ensures Logged() && Linked() && SavedOk() && WorkersOf(log.now, rest) && rest.Keys <= workers.Keys
      ensures log.now.pc == old(log.now.pc) && old(Length(log)) < Length(log) <= Bound(setup)
      ensures n.id !in rest && StatusOf(Sh(), n.id) == Done
    {
      nodeStatus := nodeStatus[n.id := Done];
      Advance(Succeed(n.id));
      rest := workers - {n.id};
    }

    method StepGoroutine(n: Node, workers: map<string, Worker>, teardown: bool) returns (rest: map<string, Worker>)
      requires Logged() && Linked() && SavedOk() && WorkersOf(log.now, workers) && n in graph.nodes && n.id in workers
      requires if teardown then log.now.pc.TearBatch? else log.now.pc.Batch?
      modifies this`nodeStatus, this`nodeErrors, this`errs, this`saved, this`offered, this`log
      ensures Logged() && Linked() && SavedOk() && WorkersOf(log.now, rest) && rest.Keys <= workers.Keys
      ensures log.now.pc == old(log.now.pc) && old(Length(log)) < Length(log) <= Bound(setup)
    {
      if workers[n.id].AtHead? {
        var noticed := *;
        rest := LoopHead(n, workers, teardown, noticed);
      } else {
        rest := ExecuteAndSave(n, workers);
      }
    }

    method ExecuteAndSave(n: Node, workers: map<string, Worker>) returns (rest: map<string, Worker>)
      requires Logged() && Linked() && SavedOk() && WorkersOf(log.now, workers) && n in graph.nodes && n.id in workers
      requires workers[n.id].AtExecute?
      modifies this`nodeStatus, this`saved, this`offered, this`log
      ensures Logged() && Linked() && SavedOk() && WorkersOf(log.now, rest) && rest.Keys <= workers.Keys
      ensures log.now.pc == old(log.now.pc) && old(Length(log)) < Length(log) <= Bound(setup)
      ensures n.id !in rest ==> LastShowsNow()
    {
      var error: Option<string> := *;
      rest := ExecuteReturns(n, workers, error);
      if n.id !in rest {
        Save();
      }
    }

    /** One goroutine per node. */
    method StartGoroutines(batch: seq<Node>) returns (workers: map<string, Worker>)
      ensures workers == Uniform(Ids(batch), AtHead(0, retry.baseDelay, None))
    {
      workers := map[];
      assert batch[..|batch|] == batch;
      for i := 0 to |batch|
        invariant workers == Uniform(Ids(batch[..i]), AtHead(0, retry.baseDelay, None))
      {
        workers := workers[batch[i].id := AtHead(0, retry.baseDelay, None)];
        assert Ids(batch[..i + 1]) == Ids(batch[..i]) + {batch[i].id};
      }
    }

    /** Starts one goroutine per node of the batch, steps them in any order, and waits for all. */
    method RunGoroutines(batch: seq<Node>, teardown: bool)
      requires Logged() && Linked() && SavedOk() && (forall n :: n in batch ==> n in graph.nodes)
      requires Ids(batch) <= log.now.procs.Keys
      requires WorkersOf(log.now, Uniform(Ids(batch), AtHead(0, retry.baseDelay, None)))
      requires if teardown then log.now.pc.TearBatch? else log.now.pc.Batch?
      modifies this`nodeStatus, this`nodeErrors, this`errs, this`saved, this`offered, this`log,
          this`ctxDone, this`timedOut, exporter
      ensures Logged() && Linked() && SavedOk() && AllIdle(log.now)
      ensures log.now.pc == old(log.now.pc) && old(Length(log)) <= Length(log)
    {
      var workers := StartGoroutines(batch);
      while workers.Keys != {}
        invariant Logged() && Linked() && SavedOk() && WorkersOf(log.now, workers)
        invariant workers.Keys <= Ids(batch)
        invariant log.now.pc == old(log.now.pc) && old(Length(log)) <= Length(log)
        decreases Bound(setup) - Length(log)
      {
        Environment(teardown);
        TasksWrite(workers);
        workers := StepSome(batch, workers, teardown);
      }
    }

    /** Whichever goroutine comes next. */
    method StepSome(batch: seq<Node>, workers: map<string, Worker>, teardown: bool) returns (rest: map<string, Worker>)
      requires Logged() && Linked() && SavedOk() && WorkersOf(log.now, workers)
      requires (forall n :: n in batch ==> n in graph.nodes) && workers.Keys <= Ids(batch) && workers.Keys != {}
      requires if teardown then log.now.pc.TearBatch? else log.now.pc.Batch?
      modifies this`nodeStatus, this`nodeErrors, this`errs, this`saved, this`offered, this`log
      ensures Logged() && Linked() && SavedOk() && WorkersOf(log.now, rest) && rest.Keys <= workers.Keys
      ensures log.now.pc == old(log.now.pc) && old(Length(log)) < Length(log) <= Bound(setup)
    {
      var k :| 0 <= k < |batch| && batch[k].id in workers;
      rest := StepGoroutine(batch[k], workers, teardown);
    }

    // ---- the loops ----

    /** Marks a ready batch as running, and hands it out. */
    method BeginBatch(ready: seq<Node>)
      requires Logged() && Linked() && SavedOk() && log.now.pc.Head? && !ctxDone
      requires ready != [] && ready == GetReady(graph.nodes, Sh())
      modifies this`nodeStatus, this`log
      ensures Logged() && Linked() && SavedOk() && log.now.pc.Batch? && Length(log) == old(Length(log)) + 1
      ensures Ids(ready) <= log.now.procs.Keys && forall n :: n in ready ==> n in graph.nodes
      ensures WorkersOf(log.now, Uniform(Ids(ready), AtHead(0, retry.baseDelay, None)))
    {
      MainBatchFacts(setup, log, ready);
      SetRunning(ready);
      Advance(StartBatch);
    }

    method BeginTeardownBatch(ready: seq<Node>)
      requires Logged() && Linked() && SavedOk() && log.now.pc.TearHead?
      requires ready != [] && ready == PendingAlwaysRun(graph.nodes, SettledIds(Sh()))
      modifies this`nodeStatus, this`log
      ensures Logged() && Linked() && SavedOk() && log.now.pc.TearBatch? && Length(log) == old(Length(log)) + 1
      ensures Ids(ready) <= log.now.procs.Keys && forall n :: n in ready ==> n in graph.nodes
      ensures WorkersOf(log.now, Uniform(Ids(ready), AtHead(0, retry.baseDelay, None)))
    {
      TeardownBatchFacts(setup, log, ready);
      SetRunning(ready);
      Advance(StartTeardown);
    }

    /** One pass of the main loop that finds ready nodes: run them all, then look at the result. */
    method RunBatch(ready: seq<Node>) returns (stop: bool)
      requires Logged() && Linked() && SavedOk() && log.now.pc.Head? && !ctxDone
      requires ready != [] && ready == GetReady(graph.nodes, Sh())
      modifies this`nodeStatus, this`nodeErrors, this`errs, this`saved, this`offered, this`log,
          this`ctxDone, this`timedOut, exporter
      ensures Logged() && Linked() && SavedOk()
      ensures log.now.pc == if stop then Stopped else Head
      ensures old(Length(log)) < Length(log) <= Bound(setup)
    {
      BeginBatch(ready);
      Save();
      RunGoroutines(ready, false);
      stop := EndBatch();
    }

    method EndBatch() returns (stop: bool)
      requires Logged() && Linked() && SavedOk() && log.now.pc.Batch? && AllIdle(log.now)
      modifies this`saved, this`offered, this`log
      ensures Logged() && Linked() && SavedOk()
      ensures log.now.pc == if stop then Stopped else Head
      ensures (stop <==> FailedOrCancelled(Sh())) && (stop ==> LastShowsNow())
      ensures old(Length(log)) < Length(log) <= Bound(setup)
    {
      stop := HasFailedOrCancelled();
      Advance(Barrier);
      if stop {
        Save();
      }
    }

    /** The loop head saw the cancel: nothing ordinary will be started any more. */
    method StopForCancel()
      requires Logged() && Linked() && SavedOk() && log.now.pc.Head? && ctxDone
      modifies this`nodeStatus, this`cancelled, this`saved, this`offered, this`log
      ensures Logged() && Linked() && SavedOk() && log.now.pc.Stopped? && LastShowsNow()
    {
      SetCancelled();
      Advance(SeeCancel);
      Save();
    }

    method MainLoop()
      requires Logged() && Linked() && SavedOk() && log.now.pc.Head?
      modifies this`nodeStatus, this`nodeErrors, this`errs, this`cancelled, this`saved, this`offered, this`log,
          this`ctxDone, this`timedOut, exporter
      ensures Logged() && Linked() && SavedOk() && log.now.pc.Stopped?
    {
      while true
        invariant Logged() && Linked() && SavedOk() && log.now.pc.Head?
        decreases Bound(setup) - Length(log)
      {
        Environment(false);
        if ctxDone {
          StopForCancel();
          return;
        }
        var ready := GetReadyNodes();
        if ready == [] {
          Advance(NothingReady);
          return;
        }
        var stop := RunBatch(ready);
        if stop {
          return;
        }
      }
    }

    method UnsettledAlwaysRun() returns (ready: seq<Node>)
      ensures ready == PendingAlwaysRun(graph.nodes, SettledIds(Sh()))
    {
      var settled := set id | id in nodeStatus
          && (nodeStatus[id] == Done || nodeStatus[id] == Failed || nodeStatus[id] == Cancelled);
      assert settled == SettledIds(Sh());
      ready := graph.ReadyAlwaysRun(settled);
    }

    method TeardownLoop()
      requires Logged() && Linked() && SavedOk() && log.now.pc.TearHead?
      modifies this`nodeStatus, this`nodeErrors, this`errs, this`saved, this`offered, this`log,
          this`ctxDone, this`timedOut, exporter
      ensures Logged() && Linked() && SavedOk() && log.now.pc.Closing?
    {
      while true
        invariant Logged() && Linked() && SavedOk() && log.now.pc.TearHead?
        decreases Bound(setup) - Length(log)
      {
        var ready := UnsettledAlwaysRun();
        if ready == [] {
          Advance(TeardownOver);
          return;
        }
        RunTeardownBatch(ready);
      }
    }

    method RunTeardownBatch(ready: seq<Node>)
      requires Logged() && Linked() && SavedOk() && log.now.pc.TearHead?
      requires ready != [] && ready == PendingAlwaysRun(graph.nodes, SettledIds(Sh()))
      modifies this`nodeStatus, this`nodeErrors, this`errs, this`saved, this`offered, this`log,
          this`ctxDone, this`timedOut, exporter
      ensures Logged() && Linked() && SavedOk() && log.now.pc.TearHead?
      ensures old(Length(log)) < Length(log) <= Bound(setup)
    {
      BeginTeardownBatch(ready);
      RunGoroutines(ready, true);
      EndTeardownBatch();
    }

    method EndTeardownBatch()
      requires Logged() && Linked() && SavedOk() && log.now.pc.TearBatch? && AllIdle(log.now)
      modifies this`saved, this`offered, this`log
      ensures Logged() && Linked() && SavedOk() && log.now.pc.TearHead? && LastShowsNow()
      ensures old(Length(log)) < Length(log) <= Bound(setup)
    {
      Advance(TeardownBarrier);
      Save();
    }

    /** The result, from the fields, as the last part of Run computes it. */
    method ComputeResult() returns (r: RunResult)
      ensures r == ResultOf(graph.nodes, Sh())
    {
      if |errs| > 0 {
        return NodeError(errs[0]);
      }
      if cancelled {
        return RunCancelled;
      }
      var completed := 0;
      var rest := nodeStatus.Keys;
      ghost var seen: set<string> := {};
      while rest != {}
        invariant seen + rest == nodeStatus.Keys && seen !! rest
        invariant completed == |set id | id in seen && nodeStatus[id] == Done|
        decreases rest
      {
        var id :| id in rest;
        CountOneMore(nodeStatus, seen, id);
        rest := rest - {id};
        seen := seen + {id};
        if nodeStatus[id] == Done {
          completed := completed + 1;
        }
      }
      assert (set id | id in seen && nodeStatus[id] == Done) == DoneIds(Sh());
      r := if completed < |graph.nodes| then NotReached(|graph.nodes| - completed) else Success;
    }

    /** Run, for a fresh or recovered executor: it returns if every task does, and what it did
        is a complete run of the machine, which every snapshot it stored is a cut of. */
    method Run() returns (r: RunResult)
      requires UniqueIds(graph.nodes) && ValidNodes(graph.nodes)
      requires Sh() == InitShared(nodeStatus.Keys)
      modifies this`base, this`first, this`nodeStatus, this`nodeErrors, this`errs, this`cancelled, this`saved,
          this`offered, this`ctxDone, this`timedOut, this`setup, this`log, exporter
      ensures setup == Setup(graph.nodes, retry, old(nodeStatus.Keys))
      ensures RunTheorems.Run(setup, Actions(log))
      ensures End(setup, Actions(log)).pc == Returned(r) && End(setup, Actions(log)).sh == Sh()
      ensures GoodSetup(setup) && GoodLog(setup, log) && base == |old(saved)| && SavedOk()
      ensures HeldFirst(log) == old(Held())
      ensures LastShowsNow()
    {
      timedOut := false;
      StartLog();
      LinkContext();
      MainLoop();
      r := Finish();
      RunOfLog(setup, log);
    }

    ghost method StartLog()
      requires UniqueIds(graph.nodes) && ValidNodes(graph.nodes)
      modifies this`setup, this`log, this`base, this`first
      ensures setup == Setup(graph.nodes, retry, nodeStatus.Keys) && base == |saved|
      ensures Logged() && SavedOk() && log == Begin(Init(setup), Held()) && first == Held()
    {
      setup := Setup(graph.nodes, retry, nodeStatus.Keys);
      log, base, first := Begin(Init(setup), Held()), |saved|, Held();
    }

    /** The context may have ended before the run. */
    ghost method LinkContext()
      requires Logged() && SavedOk() && log == Begin(Init(setup), Held()) && setup.restored == nodeStatus.Keys
      requires Sh() == InitShared(nodeStatus.Keys) && !timedOut
      modifies this`log
      ensures Logged() && Linked() && SavedOk() && log.now.pc.Head?
    {
      if ctxDone {
        Advance(CancelContext);
      }
    }

    /** After the main loop: teardown if anything failed or was cancelled, then the result. */
    method Finish() returns (r: RunResult)
      requires Logged() && Linked() && SavedOk() && log.now.pc.Stopped?
      modifies this`nodeStatus, this`nodeErrors, this`errs, this`saved, this`offered, this`log,
          this`ctxDone, this`timedOut, exporter
      ensures Logged() && Linked() && SavedOk() && log.now.pc == Returned(r)
      ensures LastShowsNow()
    {
      var teardown := HasFailedOrCancelled();
      Advance(AfterLoop);
      if teardown {
        TeardownLoop();
      }
      r := Close();
    }

    method Close() returns (r: RunResult)
      requires Logged() && Linked() && SavedOk() && log.now.pc.Closing?
      modifies this`saved, this`offered, this`log
      ensures Logged() && Linked() && SavedOk() && log.now.pc == Returned(r)
      ensures LastShowsNow()
    {
      Save();
      r := ComputeResult();
      Advance(Return);
    }
  }

  lemma CountOneMore(status: map<string, Status>, seen: set<string>, id: string)
    requires seen <= status.Keys && id in status && id !in seen
    ensures |set x | x in seen + {id} && status[x] == Done| ==
              |set x | x in seen && status[x] == Done| + if status[id] == Done then 1 else 0
  {
    var before, after := set x | x in seen && status[x] == Done, set x | x in seen + {id} && status[x] == Done;
    if status[id] == Done {
      assert after == before + {id};
      AddedOne(before, id);
    } else {
      assert after == before;
    }
  }

  lemma AddedOne(s: set<string>, id: string)
    requires id !in s
    ensures |s + {id}| == |s| + 1
  {
  }

  /** At a loop head nothing runs, so after a batch is handed out exactly its goroutines do. */
  lemma HandWorkers(c: Setup, s: State, ids: set<string>, start: Start, t: State)
    requires AllIdle(s) && ids <= s.procs.Keys && t.procs == Hand(s.procs, ids, start, c.retry.baseDelay)
    ensures WorkersOf(t, Uniform(ids, AtHead(0, c.retry.baseDelay, None)))
  {
  }

  lemma MainBatchFacts(c: Setup, log: RunLog, ready: seq<Node>)
    requires GoodSetup(c) && GoodLog(c, log) && log.now.pc.Head? && !log.now.ctxDone
    requires ready != [] && ready == GetReady(c.nodes, log.now.sh)
    ensures Enabled(c, log.now, StartBatch) && forall n :: n in ready ==> n in c.nodes
    ensures Ids(ready) <= log.now.procs.Keys
    ensures WorkersOf(Apply(c, log.now, StartBatch), Uniform(Ids(ready), AtHead(0, c.retry.baseDelay, None)))
  {
    LogInv(c, log);
    ReadyExactly(c.nodes, DoneIds(log.now.sh));
    BatchIds(c.nodes, ready);
    MainWorkers(c, log.now, ready);
  }

  lemma MainWorkers(c: Setup, s: State, ready: seq<Node>)
    requires UniqueIds(c.nodes) && NodesOk(c, s) && Enabled(c, s, StartBatch)
    requires ready == GetReady(c.nodes, s.sh) && Ids(ready) <= s.procs.Keys
    ensures WorkersOf(Apply(c, s, StartBatch), Uniform(Ids(ready), AtHead(0, c.retry.baseDelay, None)))
  {
    IdleOutsideBatches(c, s);
    HandWorkers(c, s, Ids(ready), Start(Main, DoneIds(s.sh)), Apply(c, s, StartBatch));
  }

  lemma TeardownBatchFacts(c: Setup, log: RunLog, ready: seq<Node>)
    requires GoodSetup(c) && GoodLog(c, log) && log.now.pc.TearHead?
    requires ready != [] && ready == PendingAlwaysRun(c.nodes, SettledIds(log.now.sh))
    ensures Enabled(c, log.now, StartTeardown) && forall n :: n in ready ==> n in c.nodes
    ensures Ids(ready) <= log.now.procs.Keys
    ensures WorkersOf(Apply(c, log.now, StartTeardown), Uniform(Ids(ready), AtHead(0, c.retry.baseDelay, None)))
  {
    LogInv(c, log);
    PendingAlwaysRunExactly(c.nodes, SettledIds(log.now.sh));
    BatchIds(c.nodes, ready);
    TeardownWorkers(c, log.now, ready);
  }

  lemma TeardownWorkers(c: Setup, s: State, ready: seq<Node>)
    requires UniqueIds(c.nodes) && NodesOk(c, s) && Enabled(c, s, StartTeardown)
    requires ready == PendingAlwaysRun(c.nodes, SettledIds(s.sh)) && Ids(ready) <= s.procs.Keys
    ensures WorkersOf(Apply(c, s, StartTeardown), Uniform(Ids(ready), AtHead(0, c.retry.baseDelay, None)))
  {
    IdleOutsideBatches(c, s);
    HandWorkers(c, s, Ids(ready), Start(Teardown, DoneIds(s.sh)), Apply(c, s, StartTeardown));
  }

  /** The goroutines that have not returned yet. */
  ghost predicate WorkersOf(s: State, workers: map<string, Worker>) {
    && workers.Keys <= s.procs.Keys
    && (forall id :: id in workers ==> !workers[id].Idle?)
    && (forall id :: id in s.procs ==> s.procs[id].worker == if id in workers then workers[id] else Idle)
  }

  /** One goroutine ends. */
  lemma WorkerEnds(s: State, t: State, workers: map<string, Worker>, id: string)
    requires WorkersOf(s, workers) && id in workers && t.procs.Keys == s.procs.Keys && t.procs[id].worker.Idle?
    requires forall x :: x in s.procs && x != id ==> t.procs[x] == s.procs[x]
    ensures WorkersOf(t, workers - {id})
  {
  }

  /** What a goroutine that gives up does to the machine. */
  lemma GivesUp(c: Setup, s: State, id: string)
    requires Enabled(c, s, GiveUp(id))
    ensures var t := Apply(c, s, GiveUp(id));
            && t == Stop(s, id, MarkFailed(s.sh, id, AttemptsText(c.retry.maxRetries + 1, s.procs[id].worker.cause)))
            && t.procs.Keys == s.procs.Keys && t.procs[id].worker.Idle?
            && forall x :: x in s.procs && x != id ==> t.procs[x] == s.procs[x]
  {
  }

  /** The context a goroutine watches, from its node and the phase. */
  lemma WorkerContext(c: Setup, log: RunLog, n: Node)
    requires GoodSetup(c) && GoodLog(c, log) && n in c.nodes
    requires n.id in log.now.procs && !log.now.procs[n.id].worker.Idle?
    ensures log.now.procs[n.id].start.Some?
    ensures log.now.pc.Batch? ==> (NodeContextDone(c, log.now, n.id) <==> log.now.ctxDone && !n.mustComplete)
    ensures log.now.pc.TearBatch? ==> (NodeContextDone(c, log.now, n.id) <==> log.now.timedOut)
  {
    LogInv(c, log);
    RunningContext(c, log.now, n);
  }

  lemma RunningContext(c: Setup, s: State, n: Node)
    requires UniqueIds(c.nodes) && n in c.nodes && NodesOk(c, s) && !s.procs[n.id].worker.Idle?
    ensures s.procs[n.id].start.Some?
    ensures s.pc.Batch? ==> (NodeContextDone(c, s, n.id) <==> s.ctxDone && !n.mustComplete)
    ensures s.pc.TearBatch? ==> (NodeContextDone(c, s, n.id) <==> s.timedOut)
  {
    assert NodeOk(c, s, n);
    var m := NodeById(c, n.id);
  }

  lemma RunningOneMore(sh: Shared, ids: set<string>, id: string)
    ensures MarkRunning(sh, ids + {id}).status == MarkRunning(sh, ids).status[id := Running]
  {
  }

  ghost function CancelledBy(sh: Shared, ids: set<string>): map<string, Status> {
    sh.status + Uniform(PendingAmong(sh, ids), Cancelled)
  }

  lemma CancelOneId(sh: Shared, ids: set<string>, id: string)
    ensures var m := CancelledBy(sh, ids);
            CancelledBy(sh, ids + {id}) == if id !in m || m[id] == Pending then m[id := Cancelled] else m
  {
  }

  lemma CancellableOneMore(nodes: seq<Node>, i: nat)
    requires i < |nodes|
    ensures CancellableIds(nodes[..i + 1]) ==
              CancellableIds(nodes[..i]) + if nodes[i].alwaysRun then {} else {nodes[i].id}
  {
  }

  /** One more node of the cancel loop. */
  lemma CancelOneMore(sh: Shared, nodes: seq<Node>, i: nat)
    requires i < |nodes|
    ensures var m := CancelPending(sh, nodes[..i]).status;
            CancelPending(sh, nodes[..i + 1]).status ==
              if !nodes[i].alwaysRun && (nodes[i].id !in m || m[nodes[i].id] == Pending)
              then m[nodes[i].id := Cancelled] else m
  {
    CancellableOneMore(nodes, i);
    if nodes[i].alwaysRun {
      assert CancellableIds(nodes[..i + 1]) == CancellableIds(nodes[..i]);
    }
    CancelOneId(sh, CancellableIds(nodes[..i]), nodes[i].id);
  }

  /** The map after the cancel loop went over `nodes`. */
  function CancelLoop(status: map<string, Status>, nodes: seq<Node>): map<string, Status> {
    if nodes == [] then status
    else
      var m := CancelLoop(status, nodes[..|nodes| - 1]);
      var n := nodes[|nodes| - 1];
      if !n.alwaysRun && (n.id !in m || m[n.id] == Pending) then m[n.id := Cancelled] else m
  }

  lemma {:induction false} CancelLoopIsCancelPending(sh: Shared, nodes: seq<Node>)
    ensures CancelLoop(sh.status, nodes) == CancelPending(sh, nodes).status
  {
    if nodes == [] {
      assert CancellableIds(nodes) == {};
    } else {
      var k := |nodes| - 1;
      CancelLoopIsCancelPending(sh, nodes[..k]);
      CancelOneMore(sh, nodes, k);
      assert nodes[..k + 1] == nodes;
    }
  }
}
