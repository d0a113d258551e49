/** Where the calls of the command protocol get to: when agents count as connected, what a Send
    and a Poll end with, and when a Send can only wait. None of it depends on the ids. */
module PollProgress {
  import opened Wrappers
  import opened PollProtocol
  import opened PollInvariant
  import opened PollTheorems

  ghost predicate SameCall(a: Send, b: Send) {
    && b.pc == a.pc && b.target == a.target && b.cmd == a.cmd && b.group == a.group && b.seqNo == a.seqNo
    && (a.ctxDone ==> b.ctxDone)
  }

  lemma NotOwnSend(st: State, a: Action, s: nat)
    requires !Own(a) && Enabled(st, a) && s < |st.sends|
    ensures s < |Apply(st, a).sends| && SameCall(st.sends[s], Apply(st, a).sends[s])
  {
  }

  lemma OtherSend(st: State, a: Action, s: nat)
    requires Enabled(st, a) && s < |st.sends|
    requires !(Own(a) && a.s == s)
    ensures s < |Apply(st, a).sends| && SameCall(st.sends[s], Apply(st, a).sends[s])
  {
    if Own(a) {
      OwnFrame(st, a);
    } else {
      NotOwnSend(st, a, s);
    }
  }

  // ---- the states of a run ----

  /** The states of a run: before each step, and at the end. */
  ghost predicate StatesOf(acts: seq<Action>, states: seq<State>) {
    && |states| == |acts| + 1 && states[0] == INITIAL
    && forall k :: 0 <= k < |acts| ==> Leads(states[k], acts[k], states[k + 1])
  }

  ghost predicate Leads(before: State, a: Action, after: State) {
    Enabled(before, a) && after == Apply(before, a)
  }

  /** Every run has them. */
  lemma StatesExist(acts: seq<Action>) returns (states: seq<State>)
    requires Legal(INITIAL, acts)
    ensures StatesOf(acts, states) && states[|acts|] == Final(INITIAL, acts)
  {
    states := StatesFrom(INITIAL, acts);
  }

  lemma {:induction false} StatesFrom(st: State, acts: seq<Action>) returns (states: seq<State>)
    requires Legal(st, acts)
    ensures |states| == |acts| + 1 && states[0] == st && states[|acts|] == Final(st, acts)
    ensures forall k :: 0 <= k < |acts| ==> Leads(states[k], acts[k], states[k + 1])
    decreases |acts|
  {
    states := [st];
    if acts != [] {
      var rest := StatesFrom(Apply(st, acts[0]), acts[1..]);
      states := [st] + rest;
      forall k | 0 <= k < |acts|
        ensures Leads(states[k], acts[k], states[k + 1])
      {
        if k > 0 { assert acts[1..][k - 1] == acts[k]; }
      }
    }
  }

  /** The rest of a run is a run. */
  lemma {:induction false} RestOf(acts: seq<Action>, states: seq<State>, k: nat)
    requires StatesOf(acts, states) && k <= |acts|
    ensures Legal(states[k], acts[k..]) && Final(states[k], acts[k..]) == states[|acts|]
    decreases |acts| - k
  {
    if k < |acts| {
      RestOf(acts, states, k + 1);
      assert Leads(states[k], acts[k], states[k + 1]);
      var rest := acts[k..];
      assert rest[0] == acts[k] && rest[1..] == acts[k + 1..];
    }
  }

  /** They are the states of the run. */
  lemma WholeOf(acts: seq<Action>, states: seq<State>)
    requires StatesOf(acts, states)
    ensures Legal(INITIAL, acts) && Final(INITIAL, acts) == states[|acts|]
  {
    RestOf(acts, states, 0);
    assert acts[0..] == acts;
  }

  // ---- agents ----

  /** Health changes only where a channel is made and where a Poll closes it. */
  lemma HealthStep(st: State, a: Action, m: string)
    requires Enabled(st, a)
    ensures m in Apply(st, a).core.healthy <==>
            m in st.core.healthy || Introducing(st, a, m)
    ensures Closed(Apply(st, a).core, m) <==> Closed(st.core, m) || (a == CallPoll(m) && m in st.core.healthy)
  {
    if Own(a) { OwnHealthStep(st, a, m); }
  }

  lemma OwnHealthStep(st: State, a: Action, m: string)
    requires Own(a) && Enabled(st, a)
    ensures m in Apply(st, a).core.healthy <==>
            m in st.core.healthy || Introducing(st, a, m)
    ensures Closed(Apply(st, a).core, m) <==> Closed(st.core, m)
  {
  }

  /** The step makes a channel for the machine, if there is none: the machine is marked ready, or
      a Send begins to wait for it. */
  ghost predicate Introducing(st: State, a: Action, m: string) {
    a == MarkAgentReady(m) || (a.EnterWait? && a.s < |st.sends| && st.sends[a.s].target == m)
  }

  ghost predicate Known(st: State, m: string) {
    m in st.core.healthy
  }

  ghost predicate Connected(st: State, m: string) {
    Closed(st.core, m)
  }

  lemma LeadsHealth(before: State, a: Action, after: State, m: string)
    requires Leads(before, a, after)
    ensures Known(after, m) <==> Known(before, m) || Introducing(before, a, m)
    ensures Connected(after, m) <==> Connected(before, m) || (a == CallPoll(m) && Known(before, m))
  {
    HealthStep(before, a, m);
  }

  /** How health goes along the states of a run. */
  ghost predicate HealthAlong(acts: seq<Action>, states: seq<State>, m: string) {
    && |states| == |acts| + 1 && !Known(states[0], m) && !Connected(states[0], m)
    && (forall k :: 0 <= k < |acts| ==>
          (Known(states[k + 1], m) <==> Known(states[k], m) || Introducing(states[k], acts[k], m)))
    && (forall k :: 0 <= k < |acts| ==>
          (Connected(states[k + 1], m) <==> Connected(states[k], m) || (acts[k] == CallPoll(m) && Known(states[k], m))))
  }

  lemma StatesHealth(acts: seq<Action>, states: seq<State>, m: string)
    requires StatesOf(acts, states)
    ensures HealthAlong(acts, states, m)
  {
    forall k | 0 <= k < |acts|
      ensures Known(states[k + 1], m) <==> Known(states[k], m) || Introducing(states[k], acts[k], m)
      ensures Connected(states[k + 1], m) <==>
          Connected(states[k], m) || (acts[k] == CallPoll(m) && Known(states[k], m))
    {
      LeadsHealth(states[k], acts[k], states[k + 1], m);
    }
  }

  lemma {:induction false} HealthAt(acts: seq<Action>, states: seq<State>, m: string, n: nat)
    requires HealthAlong(acts, states, m) && n <= |acts|
    ensures Known(states[n], m) <==> exists k :: 0 <= k < n && Introducing(states[k], acts[k], m)
    ensures Connected(states[n], m) <==>
            exists j, k :: 0 <= j < k < n && Introducing(states[j], acts[j], m) && acts[k] == CallPoll(m)
  {
    if n > 0 { HealthAt(acts, states, m, n - 1); }
  }

  /** An agent counts as connected, and from then on for good, exactly when it has polled after
      something made a channel for it. A Poll before that leaves no trace. */
  lemma ConnectedExact(acts: seq<Action>, states: seq<State>, m: string, n: nat)
    requires StatesOf(acts, states) && n <= |acts|
    ensures Known(states[n], m) <==> exists k :: 0 <= k < n && Introducing(states[k], acts[k], m)
    ensures Connected(states[n], m) <==>
            exists j, k :: 0 <= j < k < n && Introducing(states[j], acts[j], m) && acts[k] == CallPoll(m)
  {
    StatesHealth(acts, states, m);
    HealthAt(acts, states, m, n);
  }

  // ---- what a Send ends with ----

  predicate TimedOut(pc: SendPc) {
    (pc.Leaving? || pc.Returned?) && pc.outcome == AgentTimeout
  }

  lemma OwnNotLate(st: State, a: Action)
    requires Own(a) && Enabled(st, a) && Closed(st.core, st.sends[a.s].target) && !TimedOut(st.sends[a.s].pc)
    ensures a.s < |Apply(st, a).sends| && !TimedOut(Apply(st, a).sends[a.s].pc)
  {
  }

  lemma StepNotLate(st: State, a: Action, s: nat)
    requires Enabled(st, a) && s < |st.sends| && Closed(st.core, st.sends[s].target) && !TimedOut(st.sends[s].pc)
    ensures var t := Apply(st, a);
            s < |t.sends| && t.sends[s].target == st.sends[s].target && Closed(t.core, t.sends[s].target)
            && !TimedOut(t.sends[s].pc)
  {
    StepContinues(st, a);
    HealthStep(st, a, st.sends[s].target);
    if Own(a) && a.s == s {
      OwnNotLate(st, a);
    } else {
      OtherSend(st, a, s);
    }
  }

  /** Once its agent is connected, a Send that has not timed out before never does. */
  lemma {:induction false} NeverLate(st: State, acts: seq<Action>, s: nat)
    requires Legal(st, acts) && s < |st.sends| && Closed(st.core, st.sends[s].target) && !TimedOut(st.sends[s].pc)
    ensures s < |Final(st, acts).sends| && Final(st, acts).sends[s].pc != Returned(AgentTimeout)
    decreases |acts|
  {
    if acts != [] {
      StepNotLate(st, acts[0], s);
      NeverLate(Apply(st, acts[0]), acts[1..], s);
    }
  }

  /** How a Send that is about to return, or has returned, comes by its outcome. */
  ghost predicate EndOk(snd: Send) {
    (snd.pc.Leaving? || snd.pc.Returned?) ==>
      match snd.pc.outcome
      case Nil => snd.got.Some? && snd.got.value.status != Failed
      case CommandFailed(error) =>
        snd.got.Some? && snd.got.value.status == Failed && snd.got.value.error == error
      case ContextDone => snd.ctxDone
      case AgentTimeout => true
  }

  ghost predicate EndsOk(sends: seq<Send>) {
    forall i :: 0 <= i < |sends| ==> EndOk(sends[i])
  }

  lemma OwnEnd(st: State, a: Action)
    requires Own(a) && Enabled(st, a) && EndOk(st.sends[a.s])
    ensures a.s < |Apply(st, a).sends| && EndOk(Apply(st, a).sends[a.s])
  {
  }

  lemma OtherEnds(st: State, a: Action)
    requires !Own(a) && Enabled(st, a) && EndsOk(st.sends)
    ensures EndsOk(Apply(st, a).sends)
  {
  }

  lemma {:induction false} EndsInv(st: State, acts: seq<Action>)
    requires Legal(st, acts) && EndsOk(st.sends)
    ensures EndsOk(Final(st, acts).sends)
    decreases |acts|
  {
    if acts != [] {
      if Own(acts[0]) {
        OwnFrame(st, acts[0]);
        OwnEnd(st, acts[0]);
      } else {
        OtherEnds(st, acts[0]);
      }
      EndsInv(Apply(st, acts[0]), acts[1..]);
    }
  }

  /** A Send whose agent is connected when it begins to wait, and whose context does not end,
      returns only with what a report for its command says. */
  lemma ConnectedEnds(acts: seq<Action>, states: seq<State>, k: nat, s: nat)
    requires StatesOf(acts, states) && k < |acts| && acts[k] == EnterWait(s) && s < |states[|acts|].sends|
    requires var snd := states[|acts|].sends[s];
             Closed(states[k].core, snd.target) && snd.pc.Returned? && !snd.ctxDone
    ensures var snd := states[|acts|].sends[s];
            snd.got.Some? && snd.pc.outcome ==
              if snd.got.value.status == Failed then CommandFailed(snd.got.value.error) else Nil
  {
    assert Leads(states[k], acts[k], states[k + 1]);
    RestOf(acts, states, k);
    RunContinues(states[k], acts[k..]);
    NeverLate(states[k], acts[k..], s);
    WholeOf(acts, states);
    EndsInv(INITIAL, acts);
  }

  lemma {:induction false} RunContinues(st: State, acts: seq<Action>)
    requires Legal(st, acts)
    ensures AllContinue(st.sends, Final(st, acts).sends)
    decreases |acts|
  {
    if acts != [] {
      StepContinues(st, acts[0]);
      RunContinues(Apply(st, acts[0]), acts[1..]);
    }
  }

  // ---- when a Send can only wait ----

  ghost predicate CanStep(st: State, s: nat) {
    exists a :: Own(a) && a.s == s && Enabled(st, a)
  }

  /** A Send that has not returned has no step exactly when its context goes on and either eight
      commands wait for its machine or no report has come. */
  lemma StuckExact(st: State, s: nat)
    requires s < |st.sends| && !st.sends[s].pc.Returned?
    ensures Stuck(st, s) <==> !CanStep(st, s)
    ensures Stuck(st, s) <==>
            && !st.sends[s].ctxDone
            && (|| (st.sends[s].pc == Enqueueing && |Lookup(st.core.queues, st.sends[s].target)| >= 8)
                || (st.sends[s].pc == Awaiting && st.sends[s].buf.None?))
  {
    var a := match st.sends[s].pc
             case New => PickID(s)
             case Named => EnterWait(s)
             case WaitingAgent => if Closed(st.core, st.sends[s].target) then AgentSeen(s) else AgentLate(s)
             case Connected => Register(s)
             case Enqueueing => if st.sends[s].ctxDone then EnqueueCancelled(s) else Enqueue(s)
             case Awaiting => if st.sends[s].ctxDone then AwaitCancelled(s) else Receive(s)
             case _ => Unregister(s);
    assert Own(a) && a.s == s;
    if !Stuck(st, s) {
      assert Enabled(st, a);
    }
  }

  function Rank(pc: SendPc): nat {
    match pc
    case New => 7
    case Named => 6
    case WaitingAgent => 5
    case Connected => 4
    case Enqueueing => 3
    case Awaiting => 2
    case Leaving(_) => 1
    case Returned(_) => 0
  }

  function OwnSteps(acts: seq<Action>, s: nat): nat {
    if acts == [] then 0 else (if Own(acts[0]) && acts[0].s == s then 1 else 0) + OwnSteps(acts[1..], s)
  }

  lemma OwnRank(st: State, a: Action)
    requires Own(a) && Enabled(st, a)
    ensures a.s < |Apply(st, a).sends| && Rank(Apply(st, a).sends[a.s].pc) < Rank(st.sends[a.s].pc)
  {
  }

  /** A Send takes at most seven steps, whatever the others do. */
  lemma {:induction false} AtMostSevenSteps(st: State, acts: seq<Action>, s: nat)
    requires Legal(st, acts) && s < |st.sends|
    ensures s < |Final(st, acts).sends|
    ensures OwnSteps(acts, s) + Rank(Final(st, acts).sends[s].pc) <= Rank(st.sends[s].pc) <= 7
    decreases |acts|
  {
    if acts != [] {
      if Own(acts[0]) && acts[0].s == s {
        OwnRank(st, acts[0]);
      } else {
        OtherSend(st, acts[0], s);
      }
      AtMostSevenSteps(Apply(st, acts[0]), acts[1..], s);
    }
  }

  // ---- commands and reports get where they are meant to go ----

  /** The command of a Send past its first select is among those enqueued for its machine. */
  ghost predicate QueuedOk(st: State) {
    forall i :: 0 <= i < |st.sends| ==>
      && (st.sends[i].pc.Awaiting? || st.sends[i].got.Some? ==> st.sends[i].queued)
      && (st.sends[i].queued ==> HasID(st.sends[i].pc) && st.sends[i].cmd in Lookup(st.enqueued, st.sends[i].target))
  }

  lemma EnqueuedGrows(st: State, a: Action, m: string)
    requires Enabled(st, a)
    ensures Lookup(st.enqueued, m) <= Lookup(Apply(st, a).enqueued, m)
  {
    if !a.Enqueue? && !a.PollTake? { QueuesFrame(st, a); }
  }

  lemma OwnQueued(st: State, a: Action)
    requires Own(a) && Enabled(st, a) && QueuedOk(st) && a.s < |Apply(st, a).sends|
    ensures var t, snd := Apply(st, a), Apply(st, a).sends[a.s];
            && (snd.pc.Awaiting? || snd.got.Some? ==> snd.queued)
            && (snd.queued ==> HasID(snd.pc) && snd.cmd in Lookup(t.enqueued, snd.target))
  {
    if a.Enqueue? {
      var t, m := Apply(st, a), st.sends[a.s].target;
      assert Lookup(t.enqueued, m) == Lookup(st.enqueued, m) + [st.sends[a.s].cmd];
    } else if !a.PollTake? {
      OwnQueues(st, a);
    }
  }

  lemma StepQueued(st: State, a: Action)
    requires Enabled(st, a) && QueuedOk(st)
    ensures QueuedOk(Apply(st, a))
  {
    var t := Apply(st, a);
    if Own(a) {
      OwnFrame(st, a);
      OwnQueued(st, a);
      forall i | 0 <= i < |st.sends|
        ensures Lookup(st.enqueued, st.sends[i].target) <= Lookup(t.enqueued, st.sends[i].target)
      {
        EnqueuedGrows(st, a, st.sends[i].target);
      }
    } else {
      OtherQueued(st, a);
    }
  }

  lemma OtherQueued(st: State, a: Action)
    requires !Own(a) && Enabled(st, a) && QueuedOk(st)
    ensures QueuedOk(Apply(st, a))
  {
  }

  lemma {:induction false} QueuedInv(st: State, acts: seq<Action>)
    requires Legal(st, acts) && QueuedOk(st)
    ensures QueuedOk(Final(st, acts))
    decreases |acts|
  {
    if acts != [] {
      StepQueued(st, acts[0]);
      QueuedInv(Apply(st, acts[0]), acts[1..]);
    }
  }

  /** A Send that awaits or has received its report has its command in its machine's queue, or
      the command has been handed out. */
  lemma SentIsQueued(acts: seq<Action>, s: nat)
    requires Legal(INITIAL, acts) && s < |Final(INITIAL, acts).sends|
    requires Final(INITIAL, acts).sends[s].pc.Awaiting? || Final(INITIAL, acts).sends[s].got.Some?
    ensures var st, snd := Final(INITIAL, acts), Final(INITIAL, acts).sends[s];
            snd.cmd in Lookup(st.core.queues, snd.target) || snd.cmd in Lookup(st.polled, snd.target)
  {
    QueuedInv(INITIAL, acts);
    PollsInOrder(acts, Final(INITIAL, acts).sends[s].target);
    AnyEndInv(acts);
    var st, m := Final(INITIAL, acts), Final(INITIAL, acts).sends[s].target;
    assert Lookup(st.enqueued, m) == Lookup(st.polled, m) + Lookup(st.core.queues, m);
  }

  /** What a Send has seen, a delivery brought. */
  ghost predicate Brought(deliveries: seq<Delivery>, s: nat, report: Report) {
    exists d :: 0 <= d < |deliveries| && deliveries[d].done && deliveries[d].channel == Some(s)
        && deliveries[d].report == report
  }

  ghost predicate BroughtOk(st: State) {
    forall i :: 0 <= i < |st.sends| ==>
      && (st.sends[i].first.Some? ==> Brought(st.deliveries, i, st.sends[i].first.value))
      && (st.sends[i].buf.Some? ==> Brought(st.deliveries, i, st.sends[i].buf.value))
      && (st.sends[i].got.Some? ==> Brought(st.deliveries, i, st.sends[i].got.value))
  }

  lemma BroughtKept(a: seq<Delivery>, b: seq<Delivery>, s: nat, report: Report)
    requires Brought(a, s, report) && |a| <= |b|
    requires forall d :: 0 <= d < |a| && a[d].done ==> b[d] == a[d]
    ensures Brought(b, s, report)
  {
    var d :| 0 <= d < |a| && a[d].done && a[d].channel == Some(s) && a[d].report == report;
    assert b[d] == a[d];
  }

  lemma DoneStays(st: State, a: Action)
    requires Enabled(st, a)
    ensures |st.deliveries| <= |Apply(st, a).deliveries|
    ensures forall d :: 0 <= d < |st.deliveries| && st.deliveries[d].done ==>
              Apply(st, a).deliveries[d] == st.deliveries[d]
  {
    if Own(a) { OwnFrame(st, a); }
  }

  /** Where the reports a Send has after a step come from. */
  ghost predicate SameReports(a: Send, b: Send) {
    && (b.first.Some? ==> b.first == a.first)
    && (b.buf.Some? ==> b.buf == a.buf)
    && (b.got.Some? ==> b.got == a.got || b.got == a.buf)
  }

  lemma OwnReports(st: State, a: Action)
    requires Own(a) && Enabled(st, a) && a.s < |Apply(st, a).sends|
    ensures SameReports(st.sends[a.s], Apply(st, a).sends[a.s])
  {
  }

  lemma OtherReports(st: State, a: Action, i: nat)
    requires !Own(a) && !a.Put? && Enabled(st, a) && i < |Apply(st, a).sends|
    ensures if i < |st.sends| then SameReports(st.sends[i], Apply(st, a).sends[i])
            else Apply(st, a).sends[i].first == Apply(st, a).sends[i].buf == Apply(st, a).sends[i].got == None
  {
  }

  lemma StepReports(st: State, a: Action, i: nat)
    requires !a.Put? && Enabled(st, a) && i < |Apply(st, a).sends|
    ensures if i < |st.sends| then SameReports(st.sends[i], Apply(st, a).sends[i])
            else Apply(st, a).sends[i].first == Apply(st, a).sends[i].buf == Apply(st, a).sends[i].got == None
  {
    if Own(a) {
      OwnFrame(st, a);
      OwnReports(st, a);
    } else {
      OtherReports(st, a, i);
    }
  }

  lemma PutReports(st: State, d: nat, i: nat)
    requires Enabled(st, Put(d)) && i < |st.sends|
    ensures var t := Apply(st, Put(d));
            && |t.sends| == |st.sends| && |t.deliveries| == |st.deliveries| && d < |t.deliveries|
            && t.deliveries[d] == st.deliveries[d].(done := true)
            && (SameReports(st.sends[i], t.sends[i])
                || (&& st.deliveries[d].channel == Some(i) && t.sends[i].got == st.sends[i].got
                    && t.sends[i].buf == Some(st.deliveries[d].report)
                    && (t.sends[i].first == st.sends[i].first || t.sends[i].first == Some(st.deliveries[d].report))))
  {
  }

  lemma StepBrought(st: State, a: Action)
    requires Enabled(st, a) && BroughtOk(st)
    ensures BroughtOk(Apply(st, a))
  {
    var t := Apply(st, a);
    DoneStays(st, a);
    forall i | 0 <= i < |t.sends|
      ensures t.sends[i].first.Some? ==> Brought(t.deliveries, i, t.sends[i].first.value)
      ensures t.sends[i].buf.Some? ==> Brought(t.deliveries, i, t.sends[i].buf.value)
      ensures t.sends[i].got.Some? ==> Brought(t.deliveries, i, t.sends[i].got.value)
    {
      if a.Put? { PutReports(st, a.d, i); } else { StepReports(st, a, i); }
      forall r | Brought(st.deliveries, i, r)
        ensures Brought(t.deliveries, i, r)
      {
        BroughtKept(st.deliveries, t.deliveries, i, r);
      }
    }
  }

  lemma {:induction false} BroughtInv(st: State, acts: seq<Action>)
    requires Legal(st, acts) && BroughtOk(st)
    ensures BroughtOk(Final(st, acts))
    decreases |acts|
  {
    if acts != [] {
      StepBrought(st, acts[0]);
      BroughtInv(Apply(st, acts[0]), acts[1..]);
    }
  }

  lemma {:induction false} CalledOnce(acts: seq<Action>, states: seq<State>, d: nat, n: nat)
    requires StatesOf(acts, states) && n <= |acts| && d < |states[n].deliveries|
    ensures exists k :: 0 <= k < n && acts[k] == CallDeliver(states[n].deliveries[d].report)
  {
    if n > 0 {
      var k := n - 1;
      assert Leads(states[k], acts[k], states[n]);
      ReportsFrame(states[k], acts[k], d);
      if d < |states[k].deliveries| {
        CalledOnce(acts, states, d, k);
      } else {
        assert acts[k] == CallDeliver(states[n].deliveries[d].report);
      }
    }
  }

  lemma ReportsFrame(st: State, a: Action, d: nat)
    requires Enabled(st, a) && d < |Apply(st, a).deliveries|
    ensures var t := Apply(st, a);
            if d < |st.deliveries| then t.deliveries[d].report == st.deliveries[d].report
            else a == CallDeliver(t.deliveries[d].report)
  {
    if Own(a) { OwnFrame(st, a); }
  }

  /** The report a Send received is one that DeliverReport was called with, unchanged. */
  lemma ReceivedWasDelivered(acts: seq<Action>, s: nat)
    requires Legal(INITIAL, acts) && s < |Final(INITIAL, acts).sends| && Final(INITIAL, acts).sends[s].got.Some?
    ensures exists k :: 0 <= k < |acts| && acts[k] == CallDeliver(Final(INITIAL, acts).sends[s].got.value)
  {
    BroughtInv(INITIAL, acts);
    var st := Final(INITIAL, acts);
    var d :| 0 <= d < |st.deliveries| && st.deliveries[d].done && st.deliveries[d].channel == Some(s)
             && st.deliveries[d].report == st.sends[s].got.value;
    var states := StatesExist(acts);
    CalledOnce(acts, states, d, |acts|);
  }

  // ---- a Poll that ends with nothing ----

  /** A Poll of that machine is over, with nothing. */
  ghost predicate EndedEmpty(st: State, p: nat, m: string) {
    p < |st.polls| && st.polls[p] == Poll(m, PollNothing)
  }

  lemma EmptyFrame(st: State, a: Action, p: nat, m: string)
    requires Enabled(st, a) && EndedEmpty(Apply(st, a), p, m) && !EndedEmpty(st, p, m)
    ensures a == PollTimeout(p) && p < |st.polls| && st.polls[p] == Poll(m, Polling) && Lookup(st.core.queues, m) == []
  {
    if Own(a) { OwnPolls(st, a); }
  }

  lemma OwnPolls(st: State, a: Action)
    requires Own(a) && Enabled(st, a)
    ensures Apply(st, a).polls == st.polls
  {
  }

  /** A Poll ends with nothing only if the queue was empty at a moment when it was waiting. */
  lemma {:induction false} NothingWasThere(acts: seq<Action>, states: seq<State>, p: nat, m: string, n: nat)
    requires StatesOf(acts, states) && n <= |acts| && EndedEmpty(states[n], p, m)
    ensures exists k :: 0 <= k < n && acts[k] == PollTimeout(p) && p < |states[k].polls|
              && states[k].polls[p] == Poll(m, Polling) && Lookup(states[k].core.queues, m) == []
  {
    if n > 0 {
      var k := n - 1;
      assert Leads(states[k], acts[k], states[n]);
      if EndedEmpty(states[k], p, m) {
        NothingWasThere(acts, states, p, m, k);
      } else {
        EmptyFrame(states[k], acts[k], p, m);
      }
    }
  }

  // ---- the Sends of a SendAll ----

  /** A SendAll keeps its Sends. */
  ghost predicate SameMembers(a: seq<Group>, b: seq<Group>) {
    |a| <= |b| && forall g :: 0 <= g < |a| ==> b[g].lo == a[g].lo && b[g].hi == a[g].hi
  }

  lemma StepMembersKept(st: State, a: Action)
    requires Enabled(st, a)
    ensures SameMembers(st.groups, Apply(st, a).groups)
  {
    if Own(a) { OwnGroups(st, a); }
  }

  lemma OwnGroups(st: State, a: Action)
    requires Own(a) && Enabled(st, a)
    ensures Apply(st, a).groups == st.groups
  {
  }
}
