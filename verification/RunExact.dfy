/** What a run does exactly, said of its actions and statuses alone: which nodes a batch
    starts, how often a task is called before its node is given up, and what stops a run. */
module RunExact {
  import opened Wrappers
  import opened Dag
  import opened DagGraph
  import opened Backoff
  import opened RunMachine
  import opened RunInvariant
  import opened RunTheorems

  // ---- beginnings of runs ----

  lemma {:induction false} LegalPrefix(c: Setup, s: State, acts: seq<Action>, k: nat)
    requires Legal(c, s, acts) && k <= |acts|
    ensures Legal(c, s, acts[..k]) && Legal(c, Final(c, s, acts[..k]), acts[k..])
    ensures Final(c, Final(c, s, acts[..k]), acts[k..]) == Final(c, s, acts)
    decreases k
  {
    if k == 0 {
      assert acts[..0] == [] && acts[0..] == acts;
    } else {
      assert acts[..k][1..] == acts[1..][..k - 1] && acts[1..][k - 1..] == acts[k..];
      LegalPrefix(c, Apply(c, s, acts[0]), acts[1..], k - 1);
    }
  }

  /** The state in which action `k` is taken. */
  ghost function Before(c: Setup, acts: seq<Action>, k: nat): State
    requires Run(c, acts) && k <= |acts|
  {
    LegalPrefix(c, Init(c), acts, k);
    End(c, acts[..k])
  }

  lemma BeforeInv(c: Setup, acts: seq<Action>, k: nat)
    requires Run(c, acts) && k <= |acts|
    ensures Inv(c, Before(c, acts, k)) && Legal(c, Before(c, acts, k), acts[k..])
    ensures Final(c, Before(c, acts, k), acts[k..]) == End(c, acts)
    ensures k < |acts| ==> Enabled(c, Before(c, acts, k), acts[k])
  {
    LegalPrefix(c, Init(c), acts, k);
    EndInv(c, acts[..k]);
  }

  // ---- what a batch starts ----

  /** Not done, with every dependency done. */
  predicate Due(s: State, n: Node) {
    StatusOf(s.sh, n.id) != Done && forall d :: d in n.deps ==> StatusOf(s.sh, d) == Done
  }

  lemma DueIsReady(c: Setup, s: State, n: Node)
    requires UniqueIds(c.nodes) && n in c.nodes && Enabled(c, s, StartBatch)
    ensures n.id in Ids(GetReady(c.nodes, s.sh)) <==> Due(s, n)
  {
    var ready := GetReady(c.nodes, s.sh);
    ReadyExactly(c.nodes, DoneIds(s.sh));
    assert ready == ReadyNodes(c.nodes, DoneIds(s.sh));
    assert n in ready <==> Due(s, n);
    if n in ready {
      IdOfNode(ready, n);
    }
    if n.id in Ids(ready) {
      MemberOfBatch(c, ready, n);
    }
  }

  /** A batch hands out every node that is due, once, and no other. */
  lemma BatchStartsExactly(c: Setup, acts: seq<Action>, n: Node)
    requires Run(c, acts) && Enabled(c, End(c, acts), StartBatch) && n in c.nodes
    ensures var s, t := End(c, acts), Apply(c, End(c, acts), StartBatch);
            && n.id in s.procs && n.id in t.procs
            && t.procs[n.id].handed == s.procs[n.id].handed + (if Due(s, n) then 1 else 0)
            && (Due(s, n) ==> StatusOf(s.sh, n.id) == Pending && StatusOf(t.sh, n.id) == Running)
            && (!Due(s, n) ==> StatusOf(t.sh, n.id) == StatusOf(s.sh, n.id))
  {
    EndInv(c, acts);
    var s := End(c, acts);
    IdOfNode(c.nodes, n);
    DueIsReady(c, s, n);
    StartBatchFresh(c, s);
    HandStatus(s.sh, Ids(GetReady(c.nodes, s.sh)));
  }

  lemma {:induction false} PendingBefore(c: Setup, s: State, acts: seq<Action>, id: string)
    requires GoodSetup(c) && Inv(c, s) && Legal(c, s, acts) && StatusOf(Final(c, s, acts).sh, id) == Pending
    ensures StatusOf(s.sh, id) == Pending
    decreases |acts|
  {
    if acts != [] {
      ApplyInv(c, s, acts[0]);
      PendingBefore(c, Apply(c, s, acts[0]), acts[1..], id);
      StepStatus(c, s, acts[0], id);
    }
  }

  /** A node that is still pending had a dependency that was not done whenever a batch began. */
  lemma LeftPending(c: Setup, acts: seq<Action>, k: nat, n: Node)
    requires Run(c, acts) && k < |acts| && acts[k] == StartBatch
    requires n in c.nodes && StatusOf(End(c, acts).sh, n.id) == Pending
    ensures exists d :: d in n.deps && StatusOf(Before(c, acts, k).sh, d) != Done
  {
    BeforeInv(c, acts, k);
    var s := Before(c, acts, k);
    var t := Apply(c, s, StartBatch);
    ApplyInv(c, s, StartBatch);
    assert acts[k..][1..] == acts[k + 1..];
    PendingBefore(c, t, acts[k + 1..], n.id);
    PendingBefore(c, s, acts[k..], n.id);
    LegalPrefix(c, Init(c), acts, k);
    BatchStartsExactly(c, acts[..k], n);
  }

  // ---- how often a task is called ----

  function Count(acts: seq<Action>, a: Action -> bool): nat {
    if acts == [] then 0 else (if a(acts[0]) then 1 else 0) + Count(acts[1..], a)
  }

  function Fails(acts: seq<Action>, id: string): nat {
    Count(acts, (a: Action) => a.Fail? && a.id == id)
  }

  function Successes(acts: seq<Action>, id: string): nat {
    Count(acts, (a: Action) => a.Succeed? && a.id == id)
  }

  lemma CountStep(acts: seq<Action>, id: string)
    requires acts != []
    ensures Fails(acts, id) == (if acts[0].Fail? && acts[0].id == id then 1 else 0) + Fails(acts[1..], id)
    ensures Successes(acts, id) == (if acts[0].Succeed? && acts[0].id == id then 1 else 0) + Successes(acts[1..], id)
  {
  }

  /** Each call of a task that returned is counted, and each success settles its node. */
  lemma {:induction false} CallsCounted(c: Setup, s: State, acts: seq<Action>, id: string)
    requires GoodSetup(c) && Inv(c, s) && Legal(c, s, acts) && id in s.procs
    ensures id in Final(c, s, acts).procs
    ensures Final(c, s, acts).procs[id].execs == s.procs[id].execs + Fails(acts, id) + Successes(acts, id)
    ensures Successes(acts, id) > 0 ==> StatusOf(Final(c, s, acts).sh, id) == Done
    decreases |acts|
  {
    if acts != [] {
      var t := Apply(c, s, acts[0]);
      CountStep(acts, id);
      StepCalls(c, s, acts[0], id);
      ApplyInv(c, s, acts[0]);
      CallsCounted(c, t, acts[1..], id);
      if acts[0] == Succeed(id) {
        SettledIsFinal(c, t, acts[1..], id);
      }
    }
  }

  lemma StepCalls(c: Setup, s: State, a: Action, id: string)
    requires Enabled(c, s, a) && id in s.procs
    ensures id in Apply(c, s, a).procs
    ensures Apply(c, s, a).procs[id].execs ==
              s.procs[id].execs + (if (a.Fail? || a.Succeed?) && a.id == id then 1 else 0)
    ensures a == Succeed(id) ==> StatusOf(Apply(c, s, a).sh, id) == Done
  {
  }

  /** The error of the last failed call, with what was known before. */
  function LastError(acts: seq<Action>, id: string, before: Option<string>): Option<string> {
    if acts == [] then before
    else LastError(acts[1..], id, if acts[0].Fail? && acts[0].id == id then Some(acts[0].error) else before)
  }

  /** The goroutine and the record of its failure know the last error. */
  ghost predicate CauseKnown(c: Setup, s: State, id: string, last: Option<string>)
    requires id in s.procs
  {
    && (s.procs[id].handed == 0 ==> last == None)
    && (s.procs[id].worker.AtHead? ==> s.procs[id].worker.cause == last)
    && (StatusOf(s.sh, id) == Failed ==>
          id in s.sh.nodeErrors && s.sh.nodeErrors[id] == AttemptsText(c.retry.maxRetries + 1, last))
  }

  lemma HandCause(c: Setup, s: State, a: Action, n: Node, last: Option<string>)
    requires GoodSetup(c) && Inv(c, s) && Enabled(c, s, a) && (a.StartBatch? || a.StartTeardown?)
    requires n in c.nodes && n.id in s.procs && CauseKnown(c, s, n.id, last)
    ensures n.id in Apply(c, s, a).procs && CauseKnown(c, Apply(c, s, a), n.id, last)
  {
    if a.StartBatch? {
      var ids := Ids(GetReady(c.nodes, s.sh));
      StartBatchFresh(c, s);
      StartBatchStep(c, s, ids);
      HandedCause(c, s, ids, Main, Apply(c, s, a), n, last);
    } else {
      var ids := Ids(PendingAlwaysRun(c.nodes, SettledIds(s.sh)));
      TeardownHanded(c, s, ids, Apply(c, s, a));
      HandedCause(c, s, ids, Teardown, Apply(c, s, a), n, last);
    }
  }

  lemma HandedCause(c: Setup, s: State, ids: set<string>, phase: Phase, t: State, n: Node, last: Option<string>)
    requires NodesOk(c, s) && FreshBatch(c, s, ids, phase) && HandedOut(c, s, ids, phase, t)
    requires n in c.nodes && n.id in s.procs && CauseKnown(c, s, n.id, last)
    ensures n.id in t.procs && CauseKnown(c, t, n.id, last)
  {
    assert NodeOk(c, s, n);
    HandStatus(s.sh, ids);
    assert n.id in ids ==> FreshNode(s, n, phase);
  }

  lemma WorkerCause(c: Setup, s: State, a: Action, n: Node, last: Option<string>)
    requires GoodSetup(c) && Inv(c, s) && Enabled(c, s, a) && IsWorkerAction(a)
    requires n in c.nodes && n.id in s.procs && CauseKnown(c, s, n.id, last)
    ensures n.id in Apply(c, s, a).procs
    ensures CauseKnown(c, Apply(c, s, a), n.id, if a.Fail? && a.id == n.id then Some(a.error) else last)
  {
    if a.id == n.id {
      assert NodeOk(c, s, n);
      WorkerRunning(c, s, a);
      OwnCause(c, s, a, last);
    } else {
      ForeignCause(c, s, a, n.id, last);
    }
  }

  lemma ForeignCause(c: Setup, s: State, a: Action, id: string, last: Option<string>)
    requires Enabled(c, s, a) && IsWorkerAction(a) && id in s.procs && a.id != id && CauseKnown(c, s, id, last)
    ensures id in Apply(c, s, a).procs && CauseKnown(c, Apply(c, s, a), id, last)
  {
  }

  lemma OwnCause(c: Setup, s: State, a: Action, last: Option<string>)
    requires Enabled(c, s, a) && IsWorkerAction(a) && a.id in s.procs && CauseKnown(c, s, a.id, last)
    requires s.procs[a.id].handed > 0 && StatusOf(s.sh, a.id) == Running
    ensures a.id in Apply(c, s, a).procs
    ensures CauseKnown(c, Apply(c, s, a), a.id, if a.Fail? then Some(a.error) else last)
  {
  }

  lemma StepCause(c: Setup, s: State, a: Action, n: Node, last: Option<string>)
    requires GoodSetup(c) && Inv(c, s) && Enabled(c, s, a)
    requires n in c.nodes && n.id in s.procs && CauseKnown(c, s, n.id, last)
    ensures n.id in Apply(c, s, a).procs
    ensures CauseKnown(c, Apply(c, s, a), n.id, if a.Fail? && a.id == n.id then Some(a.error) else last)
  {
    if a.StartBatch? || a.StartTeardown? {
      HandCause(c, s, a, n, last);
    } else if IsWorkerAction(a) {
      WorkerCause(c, s, a, n, last);
    } else if a.SeeCancel? {
      CancelStatus(c, s.sh);
    }
  }

  lemma {:induction false} CauseAlong(c: Setup, s: State, acts: seq<Action>, n: Node, last: Option<string>)
    requires GoodSetup(c) && Inv(c, s) && Legal(c, s, acts)
    requires n in c.nodes && n.id in s.procs && CauseKnown(c, s, n.id, last)
    ensures n.id in Final(c, s, acts).procs && CauseKnown(c, Final(c, s, acts), n.id, LastError(acts, n.id, last))
    decreases |acts|
  {
    if acts != [] {
      var a := acts[0];
      StepCause(c, s, a, n, last);
      ApplyInv(c, s, a);
      CauseAlong(c, Apply(c, s, a), acts[1..], n, if a.Fail? && a.id == n.id then Some(a.error) else last);
    }
  }

  /** A node is given up exactly after every attempt the policy allows has failed, with all the
      waits in between, and its recorded text names the number of attempts and the last error.
      It is done exactly by one successful call, or because it was restored. */
  lemma GivenUpExactly(c: Setup, acts: seq<Action>, n: Node)
    requires Run(c, acts) && n in c.nodes
    ensures var s := End(c, acts);
            && n.id in s.procs && s.procs[n.id].execs == Fails(acts, n.id) + Successes(acts, n.id)
            && (StatusOf(s.sh, n.id) == Failed ==>
                  && Fails(acts, n.id) == Attempts(c.retry) && Successes(acts, n.id) == 0
                  && |s.procs[n.id].waits| == Backoff.Waits(c.retry)
                  && n.id in s.sh.nodeErrors
                  && s.sh.nodeErrors[n.id] == AttemptsText(c.retry.maxRetries + 1, LastError(acts, n.id, None)))
            && (StatusOf(s.sh, n.id) == Done <==> n.id in c.restored || Successes(acts, n.id) == 1)
            && Successes(acts, n.id) <= 1 && Fails(acts, n.id) <= Attempts(c.retry)
  {
    var s0, s := Init(c), End(c, acts);
    InitInv(c);
    IdOfNode(c.nodes, n);
    EndInv(c, acts);
    CallsCounted(c, s0, acts, n.id);
    CauseAlong(c, s0, acts, n, None);
    assert NodeOk(c, s, n);
    OneSuccess(c, s0, acts, n);
  }

  /** The fate of a node once the run has returned. */
  lemma ReturnedFate(c: Setup, acts: seq<Action>, n: Node)
    requires Run(c, acts) && n in c.nodes && End(c, acts).pc.Returned?
    ensures var s := End(c, acts);
            n.id in s.procs && (s.procs[n.id].handed > 0 ==>
              (StatusOf(s.sh, n.id) == Failed <==> Fails(acts, n.id) == Attempts(c.retry)))
  {
    GivenUpExactly(c, acts, n);
    EndInv(c, acts);
    assert NodeOk(c, End(c, acts), n);
  }

  lemma {:induction false} OneSuccess(c: Setup, s: State, acts: seq<Action>, n: Node)
    requires GoodSetup(c) && Inv(c, s) && Legal(c, s, acts) && n in c.nodes
    ensures n.id in s.procs
    ensures Successes(acts, n.id) <= 1
    ensures StatusOf(s.sh, n.id) == Done ==> Successes(acts, n.id) == 0
    ensures StatusOf(s.sh, n.id) != Done && StatusOf(Final(c, s, acts).sh, n.id) == Done ==>
              Successes(acts, n.id) == 1
    decreases |acts|
  {
    assert NodeOk(c, s, n);
    if acts != [] {
      CountStep(acts, n.id);
      ApplyInv(c, s, acts[0]);
      OneSuccess(c, Apply(c, s, acts[0]), acts[1..], n);
      StepStatus(c, s, acts[0], n.id);
      OnlySuccess(c, s, acts[0], n);
    }
  }

  /** Only its own success makes a node done, and only while it is not. */
  lemma OnlySuccess(c: Setup, s: State, a: Action, n: Node)
    requires GoodSetup(c) && Inv(c, s) && Enabled(c, s, a) && n in c.nodes
    ensures a == Succeed(n.id) ==> StatusOf(s.sh, n.id) != Done && StatusOf(Apply(c, s, a).sh, n.id) == Done
    ensures a != Succeed(n.id) ==>
              (StatusOf(Apply(c, s, a).sh, n.id) == Done <==> StatusOf(s.sh, n.id) == Done)
  {
    if a.StartBatch? || a.StartTeardown? {
      HandingSettlesNone(c, s, a, n);
    } else if IsWorkerAction(a) {
      WorkerRunning(c, s, a);
      WorkerSettles(c, s, a, n.id);
    } else if a.SeeCancel? {
      CancelStatus(c, s.sh);
    } else {
      QuietFrame(c, s, a);
    }
  }

  lemma WorkerSettles(c: Setup, s: State, a: Action, id: string)
    requires Enabled(c, s, a) && IsWorkerAction(a) && StatusOf(s.sh, a.id) == Running
    ensures a == Succeed(id) ==> StatusOf(Apply(c, s, a).sh, id) == Done
    ensures a != Succeed(id) ==> (StatusOf(Apply(c, s, a).sh, id) == Done <==> StatusOf(s.sh, id) == Done)
  {
  }

  lemma HandingSettlesNone(c: Setup, s: State, a: Action, n: Node)
    requires GoodSetup(c) && Inv(c, s) && Enabled(c, s, a) && (a.StartBatch? || a.StartTeardown?) && n in c.nodes
    ensures StatusOf(Apply(c, s, a).sh, n.id) == Done <==> StatusOf(s.sh, n.id) == Done
  {
    StepStatus(c, s, a, n.id);
    if a.StartBatch? {
      HandStatus(s.sh, Ids(GetReady(c.nodes, s.sh)));
    } else {
      HandStatus(s.sh, Ids(PendingAlwaysRun(c.nodes, SettledIds(s.sh))));
    }
  }

  // ---- what stops a run ----

  /** A node has failed, the cancel was seen, or the context ended before the main loop did. */
  ghost predicate Halted(s: State) {
    || (exists id :: StatusOf(s.sh, id) == Failed)
    || s.sh.cancelled
    || (s.ctxDone && (s.pc.Head? || s.pc.Batch?))
  }

  lemma StillFailed(c: Setup, s: State, a: Action)
    requires GoodSetup(c) && Inv(c, s) && Enabled(c, s, a)
    ensures SomeFailed(s.sh) ==> SomeFailed(Apply(c, s, a).sh)
  {
    if id :| StatusOf(s.sh, id) == Failed {
      StepStatus(c, s, a, id);
      assert StatusOf(Apply(c, s, a).sh, id) == Failed;
    }
    FailedIff(s.sh);
    FailedIff(Apply(c, s, a).sh);
  }

  lemma StepHalted(c: Setup, s: State, a: Action)
    requires GoodSetup(c) && Inv(c, s) && Enabled(c, s, a) && Halted(s)
    ensures Halted(Apply(c, s, a))
  {
    FailedIff(s.sh);
    FailedIff(Apply(c, s, a).sh);
    StillFailed(c, s, a);
  }

  lemma HaltedStartsNothing(c: Setup, s: State, a: Action, n: Node)
    requires GoodSetup(c) && Inv(c, s) && Enabled(c, s, a) && Halted(s) && n in c.nodes && !n.alwaysRun
    ensures n.id in s.procs && n.id in Apply(c, s, a).procs
    ensures Apply(c, s, a).procs[n.id].handed == s.procs[n.id].handed
  {
    IdOfNode(c.nodes, n);
    HaltedNoBatch(c, s, a);
    if a.StartTeardown? {
      TeardownSparesOrdinary(c, s, n);
    } else {
      HandsNothing(c, s, a, n.id);
    }
  }

  lemma HaltedNoBatch(c: Setup, s: State, a: Action)
    requires Enabled(c, s, a) && Halted(s)
    ensures !a.StartBatch?
  {
    FailedIff(s.sh);
  }

  lemma HandsNothing(c: Setup, s: State, a: Action, id: string)
    requires Enabled(c, s, a) && !a.StartBatch? && !a.StartTeardown? && id in s.procs
    ensures id in Apply(c, s, a).procs && Apply(c, s, a).procs[id].handed == s.procs[id].handed
  {
  }

  /** After a failure, or once the context has ended before the main loop did, no ordinary node
      is started any more, whatever happens, and the run does not succeed. */
  lemma {:induction false} HaltedForever(c: Setup, s: State, acts: seq<Action>, n: Node)
    requires GoodSetup(c) && Inv(c, s) && Legal(c, s, acts) && Halted(s) && n in c.nodes && !n.alwaysRun
    ensures n.id in s.procs && n.id in Final(c, s, acts).procs
    ensures Final(c, s, acts).procs[n.id].handed == s.procs[n.id].handed
    decreases |acts|
  {
    if acts != [] {
      StepHalted(c, s, acts[0]);
      HaltedStartsNothing(c, s, acts[0], n);
      ApplyInv(c, s, acts[0]);
      HaltedForever(c, Apply(c, s, acts[0]), acts[1..], n);
    } else {
      IdOfNode(c.nodes, n);
    }
  }

  lemma {:induction false} HaltedStays(c: Setup, s: State, acts: seq<Action>)
    requires GoodSetup(c) && Inv(c, s) && Legal(c, s, acts) && Halted(s)
    ensures Halted(Final(c, s, acts))
    decreases |acts|
  {
    if acts != [] {
      StepHalted(c, s, acts[0]);
      ApplyInv(c, s, acts[0]);
      HaltedStays(c, Apply(c, s, acts[0]), acts[1..]);
    }
  }

  /** A run that returns succeeds exactly if it was never halted: no node failed and the context
      did not end before the main loop. */
  lemma SuccessExact(c: Setup, acts: seq<Action>)
    requires Run(c, acts) && End(c, acts).pc.Returned?
    ensures End(c, acts).pc.result == Success <==> forall k :: 0 <= k <= |acts| ==> !Halted(Before(c, acts, k))
  {
    ResultExact(c, acts);
    var s := End(c, acts);
    FailedIff(s.sh);
    assert acts[..|acts|] == acts;
    assert Before(c, acts, |acts|) == s;
    forall k | 0 <= k <= |acts| && Halted(Before(c, acts, k))
      ensures s.pc.result != Success
    {
      BeforeInv(c, acts, k);
      HaltedStays(c, Before(c, acts, k), acts[k..]);
    }
  }
}
