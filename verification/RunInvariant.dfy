/** The inductive invariant of the run state machine and its preservation by every action. */
module RunInvariant {
  import opened Wrappers
  import opened Dag
  import opened DagGraph
  import opened Backoff
  import opened RunMachine

  ghost predicate AfterMain(pc: Pc) {
    !pc.Head? && !pc.Batch?
  }

  ghost predicate TeardownStarted(pc: Pc) {
    AfterMain(pc) && !pc.Stopped?
  }

  // ---- per node ----

  /** Attempts and completed waits of a goroutine in the retry loop. */
  ghost predicate WorkerOk(limit: nat, p: Proc) {
    match p.worker
    case Idle => false
    case AtHead(a, _, _) => p.execs == a <= limit && |p.waits| == (if a == 0 then 0 else a - 1)
    case AtExecute(a, _) => p.execs == a < limit && |p.waits| == a
  }

  /** A node that was never handed out. */
  ghost predicate UntouchedOk(c: Setup, n: Node, st: Status, p: Proc, cancelled: bool) {
    && p == IDLE_PROC
    && (st == Pending || st == Cancelled || st == Done)
    && (st == Done <==> n.id in c.restored)
    && (st == Cancelled ==> cancelled && !n.alwaysRun)
  }

  ghost predicate StartedIn(p: Proc, phase: Phase) {
    p.start.Some? && p.start.value.phase == phase
  }

  /** Goroutine progress by status. A Cancelled node was cancelled in a retry wait. */
  ghost predicate ProgressOk(limit: nat, st: Status, p: Proc) {
    match st
    case Pending => false
    case Running => WorkerOk(limit, p)
    case Done => p.worker.Idle? && 1 <= p.execs <= limit && |p.waits| == p.execs - 1
    case Failed => p.worker.Idle? && p.execs == limit && |p.waits| == (if limit == 0 then 0 else limit - 1)
    case Cancelled => p.worker.Idle? && 1 <= p.execs < limit && |p.waits| == p.execs - 1
  }

  /** A node that was handed out, once. */
  ghost predicate HandedOk(c: Setup, n: Node, st: Status, p: Proc, pc: Pc, ctxDone: bool, timedOut: bool) {
    && p.handed == 1 && p.start.Some? && n.id !in c.restored
    && ProgressOk(Attempts(c.retry), st, p)
    && (StartedIn(p, Main) ==> DepsDone(n, p.start.value.done))
    && (StartedIn(p, Teardown) ==> n.alwaysRun && TeardownStarted(pc))
    && (st == Running ==> if StartedIn(p, Main) then pc.Batch? else pc.TearBatch?)
    && (st == Cancelled ==> if StartedIn(p, Main) then ctxDone && !n.mustComplete else timedOut)
  }

  ghost predicate NodeOk(c: Setup, s: State, n: Node) {
    && n.id in s.procs
    && var st, p := StatusOf(s.sh, n.id), s.procs[n.id];
    if p.handed == 0 then UntouchedOk(c, n, st, p, s.sh.cancelled)
    else HandedOk(c, n, st, p, s.pc, s.ctxDone, s.timedOut)
  }

  ghost predicate NodesOk(c: Setup, s: State) {
    && s.procs.Keys == Ids(c.nodes)
    && forall n :: n in c.nodes ==> NodeOk(c, s, n)
  }

  /** Whatever was done when a goroutine started is still done. */
  ghost predicate StartsOk(s: State) {
    forall id, d :: id in s.procs && s.procs[id].start.Some? && d in s.procs[id].start.value.done
      ==> StatusOf(s.sh, d) == Done
  }

  /** Waits already served, and the wait to come, follow the delay sequence. */
  ghost predicate WaitsOk(c: Setup, p: Proc) {
    && (forall i :: 0 <= i < |p.waits| ==> p.waits[i] == Delay(c.retry, i))
    && (p.worker.AtHead? || p.worker.AtExecute? ==> p.worker.delay == Delay(c.retry, |p.waits|))
  }

  ghost predicate AllWaitsOk(c: Setup, s: State) {
    forall id :: id in s.procs ==> WaitsOk(c, s.procs[id])
  }

  // ---- whole state ----

  /** Ids outside the graph can only have been restored. */
  ghost predicate ForeignOk(c: Setup, s: State) {
    && (forall id :: id !in Ids(c.nodes) && id in s.sh.status ==> id in c.restored)
    && (forall id :: id in c.restored ==> StatusOf(s.sh, id) == Done)
  }

  ghost predicate ErrsOk(s: State) {
    && (forall i, j :: 0 <= i < j < |s.sh.errs| ==> s.sh.errs[i].id != s.sh.errs[j].id)
    && (forall i :: 0 <= i < |s.sh.errs| ==> StatusOf(s.sh, s.sh.errs[i].id) == Failed)
    && (forall id :: StatusOf(s.sh, id) == Failed ==> exists i :: 0 <= i < |s.sh.errs| && s.sh.errs[i].id == id)
  }

  ghost predicate AllDone(c: Setup, s: State) {
    forall n :: n in c.nodes ==> StatusOf(s.sh, n.id) == Done
  }

  ghost predicate AlwaysRunTouched(c: Setup, s: State) {
    forall n :: n in c.nodes && n.alwaysRun ==> StatusOf(s.sh, n.id) != Pending
  }

  ghost predicate ControlOk(c: Setup, s: State) {
    && (s.sh.cancelled ==> s.ctxDone && AfterMain(s.pc))
    && (s.pc.Head? ==> !SomeFailed(s.sh))
    && (s.pc.TearHead? || s.pc.TearBatch? ==> FailedOrCancelled(s.sh))
    && (AfterMain(s.pc) ==> FailedOrCancelled(s.sh) || AllDone(c, s))
    && (s.pc.Closing? || s.pc.Returned? ==> AllDone(c, s) || AlwaysRunTouched(c, s))
    && (s.pc.Returned? ==> s.pc.result == ResultOf(c.nodes, s.sh))
  }

  ghost predicate TeardownOk(c: Setup, s: State) {
    && s.tearBatches <= 1
    && (s.tearBatches == 1 ==> TeardownStarted(s.pc) && AlwaysRunTouched(c, s))
    && (s.pc.TearBatch? ==> s.tearBatches == 1)
    && (s.sh.cancelled ==> NonePending(c, s))
  }

  /** After the cancel was seen, only AlwaysRun nodes can still be pending. */
  ghost predicate NonePending(c: Setup, s: State) {
    forall n :: n in c.nodes && !n.alwaysRun ==> StatusOf(s.sh, n.id) != Pending
  }

  ghost predicate Inv(c: Setup, s: State) {
    && NodesOk(c, s) && StartsOk(s) && AllWaitsOk(c, s)
    && ForeignOk(c, s) && ErrsOk(s) && ControlOk(c, s) && TeardownOk(c, s)
  }

  lemma InitInv(c: Setup)
    requires GoodSetup(c)
    ensures Inv(c, Init(c))
  {
    var s := Init(c);
    assert forall id :: StatusOf(s.sh, id) == if id in c.restored then Done else Pending;
    assert !SomeFailed(s.sh);
    forall n | n in c.nodes
      ensures NodeOk(c, s, n)
    {
      IdOfNode(c.nodes, n);
    }
  }

  lemma IdOfNode(nodes: seq<Node>, n: Node)
    requires n in nodes
    ensures n.id in Ids(nodes)
  {
  }

  // ---- one goroutine steps ----

  predicate IsWorkerAction(a: Action) {
    a.BeginAttempt? || a.CancelWait? || a.GiveUp? || a.Succeed? || a.Fail?
  }

  lemma NodeById(c: Setup, id: string) returns (n: Node)
    requires UniqueIds(c.nodes) && id in Ids(c.nodes)
    ensures n in c.nodes && n.id == id
    ensures forall m :: m in c.nodes && m.id == id ==> m == n
  {
    var i :| 0 <= i < |c.nodes| && c.nodes[i].id == id;
    n := c.nodes[i];
  }

  /** What a goroutine step does to its own node. */
  lemma WorkerSelf(c: Setup, s: State, a: Action, n: Node)
    requires IsWorkerAction(a) && Enabled(c, s, a) && n.id == a.id && n in c.nodes
    requires forall m :: m in c.nodes && m.id == n.id ==> m == n
    requires NodeOk(c, s, n)
    ensures NodeOk(c, Apply(c, s, a), n)
  {
    if a.Succeed? || a.Fail? {
      ExecutedSelf(c, s, a, n);
    }
  }

  lemma ExecutedSelf(c: Setup, s: State, a: Action, n: Node)
    requires (a.Succeed? || a.Fail?) && Enabled(c, s, a) && n.id == a.id && n in c.nodes
    requires NodeOk(c, s, n)
    ensures NodeOk(c, Apply(c, s, a), n)
  {
  }

  lemma WorkerWaits(c: Setup, s: State, a: Action)
    requires IsWorkerAction(a) && Enabled(c, s, a) && WaitsOk(c, s.procs[a.id])
    ensures WaitsOk(c, Apply(c, s, a).procs[a.id])
  {
  }

  /** What a goroutine step leaves alone. */
  lemma WorkerFrame(c: Setup, s: State, a: Action)
    requires IsWorkerAction(a) && Enabled(c, s, a)
    ensures var t := Apply(c, s, a);
            && t.pc == s.pc && t.ctxDone == s.ctxDone && t.timedOut == s.timedOut
            && t.sh.cancelled == s.sh.cancelled && t.tearBatches == s.tearBatches
            && t.procs.Keys == s.procs.Keys
            && (forall id :: id in s.procs && id != a.id ==> t.procs[id] == s.procs[id])
            && t.procs[a.id].start == s.procs[a.id].start
            && (forall id :: id != a.id ==> StatusOf(t.sh, id) == StatusOf(s.sh, id))
            && t.sh.status.Keys <= s.sh.status.Keys + {a.id}
  {
  }

  lemma WorkerRunning(c: Setup, s: State, a: Action)
    requires UniqueIds(c.nodes) && NodesOk(c, s) && Enabled(c, s, a) && IsWorkerAction(a)
    ensures StatusOf(s.sh, a.id) == Running && (s.pc.Batch? || s.pc.TearBatch?)
  {
    var n := NodeById(c, a.id);
    assert NodeOk(c, s, n);
  }

  lemma WorkerNodes(c: Setup, s: State, a: Action)
    requires UniqueIds(c.nodes) && NodesOk(c, s) && AllWaitsOk(c, s) && Enabled(c, s, a) && IsWorkerAction(a)
    ensures NodesOk(c, Apply(c, s, a))
  {
    var n := NodeById(c, a.id);
    WorkerSelf(c, s, a, n);
    WorkerFrame(c, s, a);
    var t := Apply(c, s, a);
    forall m | m in c.nodes
      ensures NodeOk(c, t, m)
    {
      assert NodeOk(c, s, m);
    }
  }

  lemma WorkerErrs(c: Setup, s: State, a: Action)
    requires IsWorkerAction(a) && Enabled(c, s, a) && ErrsOk(s) && StatusOf(s.sh, a.id) == Running
    ensures ErrsOk(Apply(c, s, a))
  {
    WorkerFrame(c, s, a);
    var t := Apply(c, s, a);
    if a.GiveUp? {
      assert forall i :: 0 <= i < |s.sh.errs| ==> t.sh.errs[i] == s.sh.errs[i];
      assert t.sh.errs[|s.sh.errs|].id == a.id;
      assert forall id :: StatusOf(t.sh, id) == Failed <==> id == a.id || StatusOf(s.sh, id) == Failed;
    } else {
      assert t.sh.errs == s.sh.errs;
    }
  }

  lemma FailedIff(sh: Shared)
    ensures SomeFailed(sh) <==> exists id :: StatusOf(sh, id) == Failed
  {
    if id :| StatusOf(sh, id) == Failed {
      assert id in sh.status;
    }
    if id :| id in sh.status && sh.status[id] == Failed {
      assert StatusOf(sh, id) == Failed;
    }
  }

  lemma WorkerControl(c: Setup, s: State, a: Action)
    requires IsWorkerAction(a) && Enabled(c, s, a) && StatusOf(s.sh, a.id) == Running
    requires ControlOk(c, s) && TeardownOk(c, s) && (s.pc.Batch? || s.pc.TearBatch?)
    ensures ControlOk(c, Apply(c, s, a)) && TeardownOk(c, Apply(c, s, a))
  {
    WorkerFrame(c, s, a);
    var t := Apply(c, s, a);
    FailedIff(s.sh);
    FailedIff(t.sh);
    if id :| StatusOf(s.sh, id) == Failed {
      assert StatusOf(t.sh, id) == Failed;
    }
    assert StatusOf(t.sh, a.id) != Pending;
  }

  lemma WorkerStarts(c: Setup, s: State, a: Action)
    requires IsWorkerAction(a) && Enabled(c, s, a) && StatusOf(s.sh, a.id) == Running
    requires StartsOk(s) && ForeignOk(c, s) && AllWaitsOk(c, s) && s.procs.Keys == Ids(c.nodes)
    ensures StartsOk(Apply(c, s, a)) && ForeignOk(c, Apply(c, s, a)) && AllWaitsOk(c, Apply(c, s, a))
  {
    WorkerWaits(c, s, a);
    WorkerFrame(c, s, a);
  }

  lemma WorkerInv(c: Setup, s: State, a: Action)
    requires GoodSetup(c) && Inv(c, s) && Enabled(c, s, a) && IsWorkerAction(a)
    ensures Inv(c, Apply(c, s, a))
  {
    WorkerRunning(c, s, a);
    WorkerNodes(c, s, a);
    WorkerErrs(c, s, a);
    WorkerControl(c, s, a);
    WorkerStarts(c, s, a);
  }

  // ---- a batch starts ----

  /** Both loops hand out nodes that no goroutine has had before. */
  ghost predicate FreshNode(s: State, n: Node, phase: Phase) {
    && StatusOf(s.sh, n.id) == Pending
    && (phase == Main ==> DepsDone(n, DoneIds(s.sh)))
    && (phase == Teardown ==> n.alwaysRun)
  }

  ghost predicate FreshBatch(c: Setup, s: State, ids: set<string>, phase: Phase) {
    && ids <= Ids(c.nodes)
    && (forall n :: n in c.nodes && n.id in ids ==> FreshNode(s, n, phase))
  }

  /** The state after handing `ids` to goroutines. */
  ghost predicate HandedOut(c: Setup, s: State, ids: set<string>, phase: Phase, t: State) {
    && t.sh == MarkRunning(s.sh, ids)
    && t.procs == Hand(s.procs, ids, Start(phase, DoneIds(s.sh)), c.retry.baseDelay)
    && t.ctxDone == s.ctxDone && t.timedOut == s.timedOut
    && t.pc == (if phase == Main then Batch else TearBatch)
    && s.pc == (if phase == Main then Head else TearHead)
  }

  lemma HandStatus(sh: Shared, ids: set<string>)
    ensures forall id :: StatusOf(MarkRunning(sh, ids), id) == if id in ids then Running else StatusOf(sh, id)
    ensures MarkRunning(sh, ids).status.Keys == sh.status.Keys + ids
  {
  }

  lemma HandNode(c: Setup, s: State, ids: set<string>, phase: Phase, t: State, n: Node)
    requires NodeOk(c, s, n) && HandedOut(c, s, ids, phase, t)
    requires n.id in ids ==> FreshNode(s, n, phase)
    ensures NodeOk(c, t, n)
  {
    HandStatus(s.sh, ids);
  }

  lemma HandWaits(c: Setup, s: State, ids: set<string>, phase: Phase, t: State, n: Node)
    requires NodeOk(c, s, n) && HandedOut(c, s, ids, phase, t) && WaitsOk(c, s.procs[n.id])
    requires n.id in ids ==> FreshNode(s, n, phase)
    ensures WaitsOk(c, t.procs[n.id])
  {
  }

  lemma HandNodes(c: Setup, s: State, ids: set<string>, phase: Phase, t: State)
    requires UniqueIds(c.nodes)
    requires NodesOk(c, s) && AllWaitsOk(c, s) && FreshBatch(c, s, ids, phase) && HandedOut(c, s, ids, phase, t)
    ensures NodesOk(c, t) && AllWaitsOk(c, t)
  {
    forall n | n in c.nodes
      ensures NodeOk(c, t, n)
    {
      HandNode(c, s, ids, phase, t, n);
    }
    forall id | id in t.procs
      ensures WaitsOk(c, t.procs[id])
    {
      var n := NodeById(c, id);
      HandWaits(c, s, ids, phase, t, n);
    }
  }

  /** Only pending nodes change status. */
  lemma HandPending(c: Setup, s: State, ids: set<string>, phase: Phase)
    requires UniqueIds(c.nodes) && FreshBatch(c, s, ids, phase)
    ensures forall id :: id in ids ==> StatusOf(s.sh, id) == Pending
  {
    forall id | id in ids
      ensures StatusOf(s.sh, id) == Pending
    {
      var n := NodeById(c, id);
    }
  }

  lemma HandStarts(s: State, ids: set<string>, start: Start, base: int, t: State)
    requires StartsOk(s) && t.sh == MarkRunning(s.sh, ids) && t.procs == Hand(s.procs, ids, start, base)
    requires start.done == DoneIds(s.sh)
    requires forall id :: id in ids ==> StatusOf(s.sh, id) == Pending
    ensures StartsOk(t)
  {
    HandStatus(s.sh, ids);
    forall id, d | id in t.procs && t.procs[id].start.Some? && d in t.procs[id].start.value.done
      ensures StatusOf(t.sh, d) == Done
    {
      if id in ids {
        assert d in DoneIds(s.sh);
      } else {
        assert s.procs[id].start == t.procs[id].start;
      }
    }
  }

  lemma HandRest(c: Setup, s: State, ids: set<string>, t: State)
    requires ForeignOk(c, s) && ErrsOk(s) && ids <= Ids(c.nodes) && t.sh == MarkRunning(s.sh, ids)
    requires forall id :: id in ids ==> StatusOf(s.sh, id) == Pending
    ensures ForeignOk(c, t) && ErrsOk(t)
    ensures SomeFailed(t.sh) <==> SomeFailed(s.sh)
  {
    HandStatus(s.sh, ids);
    FailedIff(s.sh);
    FailedIff(t.sh);
    assert forall id :: StatusOf(t.sh, id) == Failed <==> StatusOf(s.sh, id) == Failed;
    assert t.sh.errs == s.sh.errs;
  }

  lemma MemberOfBatch(c: Setup, batch: seq<Node>, n: Node)
    requires UniqueIds(c.nodes) && n in c.nodes && n.id in Ids(batch)
    requires forall m :: m in batch ==> m in c.nodes
    ensures n in batch
  {
    var i :| 0 <= i < |batch| && batch[i].id == n.id;
    assert batch[i] in batch;
    var m := NodeById(c, n.id);
  }

  lemma BatchIds(nodes: seq<Node>, batch: seq<Node>)
    requires forall m :: m in batch ==> m in nodes
    ensures Ids(batch) <= Ids(nodes)
  {
    forall id | id in Ids(batch)
      ensures id in Ids(nodes)
    {
      var i :| 0 <= i < |batch| && batch[i].id == id;
      assert batch[i] in batch;
      IdOfNode(nodes, batch[i]);
    }
  }

  /** At an uncancelled loop head without failures every node is pending or done. */
  lemma QuietHead(c: Setup, s: State, n: Node)
    requires NodeOk(c, s, n) && s.pc.Head? && !s.ctxDone && (s.sh.cancelled ==> s.ctxDone) && !SomeFailed(s.sh)
    ensures StatusOf(s.sh, n.id) == Pending || StatusOf(s.sh, n.id) == Done
  {
    FailedIff(s.sh);
  }

  lemma StartBatchFresh(c: Setup, s: State)
    requires UniqueIds(c.nodes)
    requires NodesOk(c, s) && ControlOk(c, s) && s.pc.Head? && !s.ctxDone
    ensures FreshBatch(c, s, Ids(GetReady(c.nodes, s.sh)), Main)
  {
    var ready := GetReady(c.nodes, s.sh);
    ReadyExactly(c.nodes, DoneIds(s.sh));
    BatchIds(c.nodes, ready);
    forall n | n in c.nodes && n.id in Ids(ready)
      ensures FreshNode(s, n, Main)
    {
      MemberOfBatch(c, ready, n);
      QuietHead(c, s, n);
    }
  }

  /** In the teardown loop an unsettled AlwaysRun node is pending: nothing else is running. */
  lemma StartTeardownFresh(c: Setup, s: State)
    requires UniqueIds(c.nodes)
    requires NodesOk(c, s) && s.pc.TearHead?
    ensures FreshBatch(c, s, Ids(PendingAlwaysRun(c.nodes, SettledIds(s.sh))), Teardown)
  {
    var ready := PendingAlwaysRun(c.nodes, SettledIds(s.sh));
    PendingAlwaysRunExactly(c.nodes, SettledIds(s.sh));
    BatchIds(c.nodes, ready);
    forall n | n in c.nodes && n.id in Ids(ready)
      ensures FreshNode(s, n, Teardown)
    {
      MemberOfBatch(c, ready, n);
      assert NodeOk(c, s, n);
      assert n.id !in SettledIds(s.sh);
    }
  }

  lemma HandInv(c: Setup, s: State, ids: set<string>, phase: Phase, t: State)
    requires UniqueIds(c.nodes) && NodesOk(c, s) && StartsOk(s) && AllWaitsOk(c, s) && ForeignOk(c, s) && ErrsOk(s)
    requires FreshBatch(c, s, ids, phase) && HandedOut(c, s, ids, phase, t)
    ensures NodesOk(c, t) && StartsOk(t) && AllWaitsOk(c, t) && ForeignOk(c, t) && ErrsOk(t)
    ensures SomeFailed(t.sh) <==> SomeFailed(s.sh)
  {
    HandPending(c, s, ids, phase);
    HandNodes(c, s, ids, phase, t);
    HandStarts(s, ids, Start(phase, DoneIds(s.sh)), c.retry.baseDelay, t);
    HandRest(c, s, ids, t);
  }

  lemma StartBatchInv(c: Setup, s: State)
    requires GoodSetup(c) && Inv(c, s) && Enabled(c, s, StartBatch)
    ensures Inv(c, Apply(c, s, StartBatch))
  {
    StartBatchFresh(c, s);
    HandInv(c, s, Ids(GetReady(c.nodes, s.sh)), Main, Apply(c, s, StartBatch));
  }

  /** After one teardown batch no AlwaysRun node is pending, so there is no second one. */
  lemma TeardownReadyEmpty(c: Setup, s: State)
    requires NodesOk(c, s) && s.pc.TearHead?
    ensures PendingAlwaysRun(c.nodes, SettledIds(s.sh)) == [] <==> AlwaysRunTouched(c, s)
  {
    var ready := PendingAlwaysRun(c.nodes, SettledIds(s.sh));
    PendingAlwaysRunExactly(c.nodes, SettledIds(s.sh));
    if ready == [] {
      forall n | n in c.nodes && n.alwaysRun
        ensures StatusOf(s.sh, n.id) != Pending
      {
        assert n !in ready;
      }
    } else {
      assert ready[0] in ready;
      assert NodeOk(c, s, ready[0]);
      assert ready[0].id !in SettledIds(s.sh);
    }
  }

  lemma StartTeardownControl(c: Setup, s: State, t: State, ids: set<string>)
    requires NodesOk(c, s) && ControlOk(c, s) && TeardownOk(c, s) && s.pc.TearHead?
    requires ids == Ids(PendingAlwaysRun(c.nodes, SettledIds(s.sh))) && ids != {}
    requires HandedOut(c, s, ids, Teardown, t) && t.tearBatches == s.tearBatches + 1
    requires SomeFailed(t.sh) <==> SomeFailed(s.sh)
    ensures ControlOk(c, t) && TeardownOk(c, t)
  {
    var ready := PendingAlwaysRun(c.nodes, SettledIds(s.sh));
    TeardownReadyEmpty(c, s);
    PendingAlwaysRunExactly(c.nodes, SettledIds(s.sh));
    HandStatus(s.sh, ids);
    forall n | n in c.nodes && n.alwaysRun
      ensures StatusOf(t.sh, n.id) != Pending
    {
      assert NodeOk(c, s, n);
      if n in ready {
        IdOfNode(ready, n);
      }
    }
  }

  lemma NonEmptyIds(batch: seq<Node>)
    requires batch != []
    ensures Ids(batch) != {}
  {
    IdOfNode(batch, batch[0]);
  }

  lemma StartBatchStep(c: Setup, s: State, ids: set<string>)
    requires Enabled(c, s, StartBatch) && ids == Ids(GetReady(c.nodes, s.sh))
    ensures ids != {} && HandedOut(c, s, ids, Main, Apply(c, s, StartBatch))
  {
    NonEmptyIds(GetReady(c.nodes, s.sh));
  }

  lemma StartTeardownStep(c: Setup, s: State, ids: set<string>)
    requires Enabled(c, s, StartTeardown) && ids == Ids(PendingAlwaysRun(c.nodes, SettledIds(s.sh)))
    ensures ids != {} && HandedOut(c, s, ids, Teardown, Apply(c, s, StartTeardown))
    ensures Apply(c, s, StartTeardown).tearBatches == s.tearBatches + 1
  {
    NonEmptyIds(PendingAlwaysRun(c.nodes, SettledIds(s.sh)));
  }

  lemma StartTeardownInv(c: Setup, s: State, ids: set<string>, t: State)
    requires UniqueIds(c.nodes) && Inv(c, s) && s.pc.TearHead?
    requires ids == Ids(PendingAlwaysRun(c.nodes, SettledIds(s.sh))) && ids != {}
    requires FreshBatch(c, s, ids, Teardown) && HandedOut(c, s, ids, Teardown, t) && t.tearBatches == s.tearBatches + 1
    ensures Inv(c, t)
  {
    HandInv(c, s, ids, Teardown, t);
    StartTeardownControl(c, s, t, ids);
  }

  // ---- the loops and the environment ----

  /** Steps that move only the control point or a context: nobody is running, or nothing moves. */
  lemma QuietNodes(c: Setup, s: State, t: State)
    requires NodesOk(c, s)
    requires t.sh == s.sh && t.procs == s.procs && (s.ctxDone ==> t.ctxDone) && (s.timedOut ==> t.timedOut)
    requires t.pc == s.pc || AllIdle(s)
    requires TeardownStarted(s.pc) ==> TeardownStarted(t.pc)
    ensures NodesOk(c, t)
  {
    forall n | n in c.nodes
      ensures NodeOk(c, t, n)
    {
      assert NodeOk(c, s, n);
    }
  }

  lemma IdleOutsideBatches(c: Setup, s: State)
    requires UniqueIds(c.nodes) && NodesOk(c, s) && !s.pc.Batch? && !s.pc.TearBatch?
    ensures AllIdle(s)
  {
    forall id | id in s.procs
      ensures s.procs[id].worker.Idle?
    {
      var n := NodeById(c, id);
      assert NodeOk(c, s, n);
    }
  }

  ghost predicate IsQuietAction(a: Action) {
    || a.CancelContext? || a.TeardownTimeout? || a.NothingReady? || a.Barrier? || a.AfterLoop?
    || a.TeardownBarrier? || a.TeardownOver? || a.Return?
  }

  /** Nothing ready without a cancel or a failure: everything is done, because the graph
      is acyclic. */
  lemma NothingReadyAllDone(c: Setup, s: State)
    requires GoodSetup(c) && NodesOk(c, s) && ControlOk(c, s)
    requires s.pc.Head? && !s.ctxDone
    ensures GetReady(c.nodes, s.sh) == [] <==> AllDone(c, s)
  {
    var done := DoneIds(s.sh);
    ReadyExactly(c.nodes, done);
    var ready := GetReady(c.nodes, s.sh);
    assert ready != [] ==> ready[0] in ready;
    if !AllDone(c, s) {
      var n :| n in c.nodes && StatusOf(s.sh, n.id) != Done;
      IndexOfUnique(c.nodes, n);
      var idx := IndexOf(c.nodes);
      forall id, d | id in idx && d in idx[id].deps
        ensures d in idx
      {
        assert idx[id] in c.nodes;
      }
      var r := SomeNodeReady(idx, done, n.id);
      assert idx[r] in ReadyNodes(c.nodes, done);
    }
  }

  lemma QuietFrame(c: Setup, s: State, a: Action)
    requires Enabled(c, s, a) && IsQuietAction(a)
    ensures var t := Apply(c, s, a);
            && t.sh == s.sh && t.procs == s.procs && t.tearBatches == s.tearBatches
            && (s.ctxDone ==> t.ctxDone) && (s.timedOut ==> t.timedOut)
            && (TeardownStarted(s.pc) ==> TeardownStarted(t.pc))
            && (t.pc == s.pc || AllIdle(s) || (!s.pc.Batch? && !s.pc.TearBatch?))
  {
  }

  lemma QuietTeardown(c: Setup, s: State, a: Action)
    requires TeardownOk(c, s) && Enabled(c, s, a) && IsQuietAction(a)
    ensures TeardownOk(c, Apply(c, s, a))
  {
    QuietFrame(c, s, a);
  }

  lemma QuietControl(c: Setup, s: State, a: Action)
    requires ControlOk(c, s) && Enabled(c, s, a) && IsQuietAction(a)
    requires a.NothingReady? ==> AllDone(c, s)
    requires a.TeardownOver? ==> AlwaysRunTouched(c, s)
    ensures ControlOk(c, Apply(c, s, a))
  {
  }

  lemma QuietInv(c: Setup, s: State, a: Action)
    requires GoodSetup(c) && Inv(c, s) && Enabled(c, s, a) && IsQuietAction(a)
    ensures Inv(c, Apply(c, s, a))
  {
    if a.NothingReady? {
      NothingReadyAllDone(c, s);
    } else if a.TeardownOver? {
      TeardownReadyEmpty(c, s);
    }
    QuietControl(c, s, a);
    QuietTeardown(c, s, a);
    QuietNodesOk(c, s, a);
    QuietRest(c, s, a);
  }

  lemma QuietNodesOk(c: Setup, s: State, a: Action)
    requires UniqueIds(c.nodes) && NodesOk(c, s) && Enabled(c, s, a) && IsQuietAction(a)
    ensures NodesOk(c, Apply(c, s, a))
  {
    QuietFrame(c, s, a);
    if !s.pc.Batch? && !s.pc.TearBatch? {
      IdleOutsideBatches(c, s);
    }
    QuietNodes(c, s, Apply(c, s, a));
  }

  lemma QuietRest(c: Setup, s: State, a: Action)
    requires StartsOk(s) && AllWaitsOk(c, s) && ForeignOk(c, s) && ErrsOk(s) && Enabled(c, s, a) && IsQuietAction(a)
    ensures var t := Apply(c, s, a); StartsOk(t) && AllWaitsOk(c, t) && ForeignOk(c, t) && ErrsOk(t)
  {
    QuietFrame(c, s, a);
  }

  lemma CancelStatus(c: Setup, sh: Shared)
    ensures forall id :: StatusOf(CancelPending(sh, c.nodes), id) ==
              if id in CancellableIds(c.nodes) && StatusOf(sh, id) == Pending then Cancelled else StatusOf(sh, id)
    ensures CancelPending(sh, c.nodes).status.Keys <= sh.status.Keys + CancellableIds(c.nodes)
  {
  }

  lemma CancellableExactly(c: Setup, n: Node)
    requires UniqueIds(c.nodes) && n in c.nodes
    ensures n.id in CancellableIds(c.nodes) <==> !n.alwaysRun
  {
    var m := NodeById(c, n.id);
  }

  lemma SeeCancelNodes(c: Setup, s: State, t: State)
    requires UniqueIds(c.nodes) && NodesOk(c, s) && s.pc.Head? && s.ctxDone
    requires t == s.(sh := CancelPending(s.sh, c.nodes), pc := Stopped)
    ensures NodesOk(c, t) && NonePending(c, t)
  {
    CancelStatus(c, s.sh);
    forall n | n in c.nodes
      ensures NodeOk(c, t, n) && (!n.alwaysRun ==> StatusOf(t.sh, n.id) != Pending)
    {
      CancellableExactly(c, n);
      assert NodeOk(c, s, n);
    }
  }

  lemma SeeCancelRest(c: Setup, s: State, t: State)
    requires StartsOk(s) && ForeignOk(c, s) && ErrsOk(s)
    requires t == s.(sh := CancelPending(s.sh, c.nodes), pc := Stopped)
    ensures StartsOk(t) && ForeignOk(c, t) && ErrsOk(t)
  {
    CancelStatus(c, s.sh);
    assert CancellableIds(c.nodes) <= Ids(c.nodes);
    assert forall id :: StatusOf(t.sh, id) == Failed <==> StatusOf(s.sh, id) == Failed;
    assert forall id :: StatusOf(t.sh, id) == Done <==> StatusOf(s.sh, id) == Done;
  }

  lemma SeeCancelInv(c: Setup, s: State)
    requires GoodSetup(c) && Inv(c, s) && Enabled(c, s, SeeCancel)
    ensures Inv(c, Apply(c, s, SeeCancel))
  {
    var t := Apply(c, s, SeeCancel);
    SeeCancelNodes(c, s, t);
    SeeCancelRest(c, s, t);
  }

  lemma TeardownBatchInv(c: Setup, s: State)
    requires GoodSetup(c) && Inv(c, s) && Enabled(c, s, StartTeardown)
    ensures Inv(c, Apply(c, s, StartTeardown))
  {
    var ids := Ids(PendingAlwaysRun(c.nodes, SettledIds(s.sh)));
    TeardownHanded(c, s, ids, Apply(c, s, StartTeardown));
    StartTeardownInv(c, s, ids, Apply(c, s, StartTeardown));
  }

  lemma TeardownHanded(c: Setup, s: State, ids: set<string>, t: State)
    requires UniqueIds(c.nodes) && NodesOk(c, s) && Enabled(c, s, StartTeardown) && t == Apply(c, s, StartTeardown)
    requires ids == Ids(PendingAlwaysRun(c.nodes, SettledIds(s.sh)))
    ensures ids != {} && FreshBatch(c, s, ids, Teardown) && HandedOut(c, s, ids, Teardown, t)
    ensures s.pc.TearHead? && t.tearBatches == s.tearBatches + 1
  {
    StartTeardownFresh(c, s);
    StartTeardownStep(c, s, ids);
  }

  lemma ApplyInv(c: Setup, s: State, a: Action)
    requires GoodSetup(c) && Inv(c, s) && Enabled(c, s, a)
    ensures Inv(c, Apply(c, s, a))
  {
    if IsWorkerAction(a) {
      WorkerInv(c, s, a);
    } else if a.StartBatch? {
      StartBatchInv(c, s);
    } else if a.StartTeardown? {
      TeardownBatchInv(c, s);
    } else if a.SeeCancel? {
      SeeCancelInv(c, s);
    } else {
      QuietInv(c, s, a);
    }
  }

  /** The invariant holds in every state of every run. */
  lemma {:induction false} RunInv(c: Setup, s: State, acts: seq<Action>)
    requires GoodSetup(c) && Inv(c, s) && Legal(c, s, acts)
    ensures Inv(c, Final(c, s, acts))
    decreases |acts|
  {
    if acts != [] {
      ApplyInv(c, s, acts[0]);
      RunInv(c, Apply(c, s, acts[0]), acts[1..]);
    }
  }
}
