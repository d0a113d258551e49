/** `Executor.Run` of internal/core/dag/executor.go as a transition system. A state holds
    the fields the mutex protects, where the run loop stands, and one goroutine record per
    node. The environment may cancel the context or let the teardown timeout expire at any
    moment; goroutines step in any order. */
module RunMachine {
  import opened Wrappers
  import opened Dag
  import opened DagGraph
  import opened Backoff

  datatype Status = Pending | Running | Done | Failed | Cancelled

  /** The text recorded for a node; `cause` is the last error its task returned. */
  datatype ErrorText = CancelledText | AttemptsText(attempts: int, cause: Option<string>)

  datatype NodeFailure = NodeFailure(id: string, text: ErrorText)

  /** The executor's fields under its lock. A node without a status has not been touched. */
  datatype Shared = Shared(
    status: map<string, Status>,
    nodeErrors: map<string, ErrorText>,
    errs: seq<NodeFailure>,
    cancelled: bool)

  datatype Phase = Main | Teardown

  /** `handed` counts the calls of executeWithRetry, `start` describes the last one,
      `execs` counts the calls of Execute, `waits` lists the completed backoff waits. */
  datatype Proc = Proc(
    handed: nat,
    start: Option<Start>,
    worker: Worker,
    execs: nat,
    waits: seq<int>)

  datatype Start = Start(phase: Phase, done: set<string>)

  /** Where a goroutine stands in the retry loop: at its head, or inside Execute. */
  datatype Worker =
    | Idle
    | AtHead(attempt: nat, delay: int, cause: Option<string>)
    | AtExecute(attempt: nat, delay: int)

  datatype RunResult = Success | NodeError(failure: NodeFailure) | RunCancelled | NotReached(count: int)

  datatype Pc = Head | Batch | Stopped | TearHead | TearBatch | Closing | Returned(result: RunResult)

  /** What is fixed for one run: the graph, the retry policy, and the ids restored as done. */
  datatype Setup = Setup(nodes: seq<Node>, retry: RetryPolicy, restored: set<string>)

  datatype State = State(
    sh: Shared,
    pc: Pc,
    procs: map<string, Proc>,
    ctxDone: bool,
    timedOut: bool,
    batches: nat,
    tearBatches: nat)

  datatype Action =
    | CancelContext
    | TeardownTimeout
    | SeeCancel
    | NothingReady
    | StartBatch
    | Barrier
    | AfterLoop
    | StartTeardown
    | TeardownBarrier
    | TeardownOver
    | Return
    | BeginAttempt(id: string)
    | CancelWait(id: string)
    | GiveUp(id: string)
    | Succeed(id: string)
    | Fail(id: string, error: string)

  // ---- operations on the shared fields ----

  function StatusOf(sh: Shared, id: string): Status {
    if id in sh.status then sh.status[id] else Pending
  }

  function DoneIds(sh: Shared): set<string> {
    set id | id in sh.status && sh.status[id] == Done
  }

  /** Done, failed or cancelled: what the teardown loop no longer starts. */
  function SettledIds(sh: Shared): set<string> {
    set id | id in sh.status && (sh.status[id] == Done || sh.status[id] == Failed || sh.status[id] == Cancelled)
  }

  predicate SomeFailed(sh: Shared) {
    exists id :: id in sh.status && sh.status[id] == Failed
  }

  predicate FailedOrCancelled(sh: Shared) {
    sh.cancelled || SomeFailed(sh)
  }

  function GetReady(nodes: seq<Node>, sh: Shared): seq<Node> {
    if FailedOrCancelled(sh) then [] else ReadyNodes(nodes, DoneIds(sh))
  }

  ghost function MarkRunning(sh: Shared, ids: set<string>): Shared {
    sh.(status := sh.status + Uniform(ids, Running))
  }

  function CancellableIds(nodes: seq<Node>): set<string> {
    set i | 0 <= i < |nodes| && !nodes[i].alwaysRun :: nodes[i].id
  }

  /** Seeing the cancel: every node not yet started becomes cancelled, except AlwaysRun ones. */
  ghost function PendingAmong(sh: Shared, ids: set<string>): set<string> {
    set id | id in ids && StatusOf(sh, id) == Pending
  }

  ghost function CancelPending(sh: Shared, nodes: seq<Node>): Shared {
    sh.(cancelled := true,
        status := sh.status + Uniform(PendingAmong(sh, CancellableIds(nodes)), Cancelled))
  }

  function MarkDone(sh: Shared, id: string): Shared {
    sh.(status := sh.status[id := Done])
  }

  function MarkFailed(sh: Shared, id: string, text: ErrorText): Shared {
    sh.(status := sh.status[id := Failed],
        nodeErrors := sh.nodeErrors[id := text],
        errs := sh.errs + [NodeFailure(id, text)])
  }

  function MarkCancelled(sh: Shared, id: string): Shared {
    sh.(status := sh.status[id := Cancelled], nodeErrors := sh.nodeErrors[id := CancelledText])
  }

  function ResultOf(nodes: seq<Node>, sh: Shared): RunResult {
    if sh.errs != [] then NodeError(sh.errs[0])
    else if sh.cancelled then RunCancelled
    else if |DoneIds(sh)| < |nodes| then NotReached(|nodes| - |DoneIds(sh)|)
    else Success
  }

  // ---- the transition system ----

  const IDLE_PROC: Proc := Proc(0, None, Idle, 0, [])

  ghost function InitShared(restored: set<string>): Shared {
    Shared(Uniform(restored, Done), map[], [], false)
  }

  ghost function Init(c: Setup): State {
    State(InitShared(c.restored), Head, Uniform(Ids(c.nodes), IDLE_PROC), false, false, 0, 0)
  }

  function Handed(p: Proc, start: Start, baseDelay: int): Proc {
    p.(handed := p.handed + 1, start := Some(start), worker := AtHead(0, baseDelay, None))
  }

  ghost predicate IsHanded(
    r: map<string, Proc>, procs: map<string, Proc>, ids: set<string>, start: Start, baseDelay: int)
  {
    && r.Keys == procs.Keys
    && forall id :: id in procs ==> r[id] == if id in ids then Handed(procs[id], start, baseDelay) else procs[id]
  }

  lemma HandExists(procs: map<string, Proc>, ids: set<string>, start: Start, baseDelay: int)
    returns (r: map<string, Proc>)
    ensures IsHanded(r, procs, ids, start, baseDelay)
  {
    r := procs;
    var rest := ids * procs.Keys;
    while rest != {}
      invariant rest <= ids * procs.Keys && IsHanded(r, procs, ids * procs.Keys - rest, start, baseDelay)
    {
      var id :| id in rest;
      rest := rest - {id};
      r := r[id := Handed(procs[id], start, baseDelay)];
    }
  }

  /** Goroutines for `ids` enter executeWithRetry. */
  ghost function Hand(procs: map<string, Proc>, ids: set<string>, start: Start, baseDelay: int): (r: map<string, Proc>)
    ensures r.Keys == procs.Keys
    ensures forall id :: id in procs ==> r[id] == if id in ids then Handed(procs[id], start, baseDelay) else procs[id]
  {
    assert exists r: map<string, Proc> :: IsHanded(r, procs, ids, start, baseDelay) by {
      var r := HandExists(procs, ids, start, baseDelay);
    }
    var r: map<string, Proc> :| IsHanded(r, procs, ids, start, baseDelay);
    r
  }

  predicate AllIdle(s: State) {
    forall id :: id in s.procs ==> s.procs[id].worker.Idle?
  }

  /** The context a goroutine runs under: the run's for ordinary nodes, none for MustComplete
      nodes, the teardown context for those started by the teardown loop. */
  ghost predicate NodeContextDone(c: Setup, s: State, id: string)
    requires id in s.procs && s.procs[id].start.Some?
  {
    match s.procs[id].start.value.phase
    case Main => s.ctxDone && exists n :: n in c.nodes && n.id == id && !n.mustComplete
    case Teardown => s.timedOut
  }

  ghost predicate Enabled(c: Setup, s: State, a: Action) {
    match a
    case CancelContext => !s.ctxDone
    case TeardownTimeout => !s.timedOut && (s.pc.TearHead? || s.pc.TearBatch?)
    case SeeCancel => s.pc.Head? && s.ctxDone
    case NothingReady => s.pc.Head? && !s.ctxDone && GetReady(c.nodes, s.sh) == []
    case StartBatch => s.pc.Head? && !s.ctxDone && GetReady(c.nodes, s.sh) != []
    case Barrier => s.pc.Batch? && AllIdle(s)
    case AfterLoop => s.pc.Stopped?
    case StartTeardown => s.pc.TearHead? && PendingAlwaysRun(c.nodes, SettledIds(s.sh)) != []
    case TeardownBarrier => s.pc.TearBatch? && AllIdle(s)
    case TeardownOver => s.pc.TearHead? && PendingAlwaysRun(c.nodes, SettledIds(s.sh)) == []
    case Return => s.pc.Closing?
    case BeginAttempt(id) =>
      id in s.procs && s.procs[id].worker.AtHead? && s.procs[id].worker.attempt <= c.retry.maxRetries
    case CancelWait(id) =>
      id in s.procs && s.procs[id].worker.AtHead? && 0 < s.procs[id].worker.attempt <= c.retry.maxRetries
      && s.procs[id].start.Some? && NodeContextDone(c, s, id)
    case GiveUp(id) =>
      id in s.procs && s.procs[id].worker.AtHead? && s.procs[id].worker.attempt > c.retry.maxRetries
    case Succeed(id) => id in s.procs && s.procs[id].worker.AtExecute?
    case Fail(id, _) => id in s.procs && s.procs[id].worker.AtExecute?
  }

  function Stop(s: State, id: string, sh: Shared): State
    requires id in s.procs
  {
    s.(sh := sh, procs := s.procs[id := s.procs[id].(worker := Idle)])
  }

  ghost function Apply(c: Setup, s: State, a: Action): State
    requires Enabled(c, s, a)
  {
    match a
    case CancelContext => s.(ctxDone := true)
    case TeardownTimeout => s.(timedOut := true)
    case SeeCancel => s.(sh := CancelPending(s.sh, c.nodes), pc := Stopped)
    case NothingReady => s.(pc := Stopped)
    case StartBatch =>
      var ids := Ids(GetReady(c.nodes, s.sh));
      s.(sh := MarkRunning(s.sh, ids), pc := Batch, batches := s.batches + 1,
         procs := Hand(s.procs, ids, Start(Main, DoneIds(s.sh)), c.retry.baseDelay))
    case Barrier => s.(pc := if FailedOrCancelled(s.sh) then Stopped else Head)
    case AfterLoop => s.(pc := if FailedOrCancelled(s.sh) then TearHead else Closing)
    case StartTeardown =>
      var ids := Ids(PendingAlwaysRun(c.nodes, SettledIds(s.sh)));
      s.(sh := MarkRunning(s.sh, ids), pc := TearBatch, tearBatches := s.tearBatches + 1,
         procs := Hand(s.procs, ids, Start(Teardown, DoneIds(s.sh)), c.retry.baseDelay))
    case TeardownBarrier => s.(pc := TearHead)
    case TeardownOver => s.(pc := Closing)
    case Return => s.(pc := Returned(ResultOf(c.nodes, s.sh)))
    case BeginAttempt(id) =>
      var p := s.procs[id];
      var w := p.worker;
      var waited := AtExecute(w.attempt, NextDelay(w.delay, c.retry.maxDelay));
      var q := if w.attempt == 0 then p.(worker := AtExecute(0, w.delay))
               else p.(worker := waited, waits := p.waits + [w.delay]);
      s.(procs := s.procs[id := q])
    case CancelWait(id) => Stop(s, id, MarkCancelled(s.sh, id))
    case GiveUp(id) =>
      Stop(s, id, MarkFailed(s.sh, id, AttemptsText(c.retry.maxRetries + 1, s.procs[id].worker.cause)))
    case Succeed(id) =>
      var t := Stop(s, id, MarkDone(s.sh, id));
      t.(procs := t.procs[id := t.procs[id].(execs := t.procs[id].execs + 1)])
    case Fail(id, error) =>
      var p := s.procs[id];
      var again := AtHead(p.worker.attempt + 1, p.worker.delay, Some(error));
      s.(procs := s.procs[id := p.(execs := p.execs + 1, worker := again)])
  }

  /** A run fragment from `s`: the actions `acts`, each enabled when its turn comes. */
  ghost predicate Legal(c: Setup, s: State, acts: seq<Action>)
    decreases |acts|
  {
    acts != [] ==> Enabled(c, s, acts[0]) && Legal(c, Apply(c, s, acts[0]), acts[1..])
  }

  ghost function Final(c: Setup, s: State, acts: seq<Action>): State
    requires Legal(c, s, acts)
    decreases |acts|
  {
    if acts == [] then s else Final(c, Apply(c, s, acts[0]), acts[1..])
  }

  /** What the constructor and Add/Validate give Run: a validated graph with unique ids. */
  ghost predicate GoodSetup(c: Setup) {
    UniqueIds(c.nodes) && ValidNodes(c.nodes)
  }
}
