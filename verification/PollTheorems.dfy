/** What the command protocol guarantees in every run. */
module PollTheorems {
  import opened Wrappers
  import opened Decimal
  import opened PollProtocol
  import opened PollInvariant

  ghost predicate FullInv(st: State) {
    CoreInv(st) && EnqueuedOk(st) && AnyInv(st)
  }

  /** The part that does not depend on ids. */
  ghost predicate AnyInv(st: State) {
    FifoOk(st) && PollsOk(st) && HealthOk(st) && GroupsOk(st) && FreedOk(st)
  }

  lemma StepAny(st: State, a: Action)
    requires Enabled(st, a) && AnyInv(st)
    ensures AnyInv(Apply(st, a))
  {
    StepFifo(st, a);
    StepPolls(st, a);
    StepHealth(st, a);
    StepGroups(st, a);
    StepFreed(st, a);
  }

  lemma {:induction false} AnyRunInv(st: State, acts: seq<Action>)
    requires AnyInv(st) && Legal(st, acts)
    ensures AnyInv(Final(st, acts))
    decreases |acts|
  {
    if acts != [] {
      StepAny(st, acts[0]);
      AnyRunInv(Apply(st, acts[0]), acts[1..]);
    }
  }

  lemma AnyEndInv(acts: seq<Action>)
    requires Legal(INITIAL, acts)
    ensures AnyInv(Final(INITIAL, acts))
  {
    InitialInv();
    AnyRunInv(INITIAL, acts);
  }

  lemma StepFull(st: State, a: Action)
    requires Enabled(st, a) && FullInv(st) && FreshPick(st, a)
    ensures FullInv(Apply(st, a))
  {
    StepInv(st, a);
    StepEnqueued(st, a);
    StepAny(st, a);
  }

  lemma OneStep(st: State, a: Action)
    requires Enabled(st, a)
    ensures Legal(st, [a]) && Final(st, [a]) == Apply(st, a)
  {
    assert [a][1..] == [];
  }

  lemma {:induction false} Appended(st: State, acts: seq<Action>, a: Action)
    requires Legal(st, acts) && Enabled(Final(st, acts), a)
    ensures Legal(st, acts + [a]) && Final(st, acts + [a]) == Apply(Final(st, acts), a)
    decreases |acts|
  {
    if acts == [] {
      assert acts + [a] == [a];
      OneStep(st, a);
    } else {
      assert (acts + [a])[1..] == acts[1..] + [a];
      Appended(Apply(st, acts[0]), acts[1..], a);
    }
  }

  /** A run in which no Send picks an id another Send has. */
  ghost predicate FreshRun(st: State, acts: seq<Action>)
    decreases |acts|
  {
    acts != [] ==> Enabled(st, acts[0]) && FreshPick(st, acts[0]) && FreshRun(Apply(st, acts[0]), acts[1..])
  }

  lemma {:induction false} RunInv(st: State, acts: seq<Action>)
    requires FullInv(st) && FreshRun(st, acts)
    ensures Legal(st, acts) && FullInv(Final(st, acts))
    decreases |acts|
  {
    if acts != [] {
      StepFull(st, acts[0]);
      RunInv(Apply(st, acts[0]), acts[1..]);
    }
  }

  ghost predicate Run(acts: seq<Action>) {
    FreshRun(INITIAL, acts)
  }

  ghost function End(acts: seq<Action>): State
    requires Run(acts)
  {
    EndInv(acts);
    Final(INITIAL, acts)
  }

  lemma NoSends(st: State)
    requires st.sends == [] && st.core.results == map[] && st.deliveries == []
    ensures CoreInv(st)
  {
  }

  lemma NoCommands(st: State)
    requires st.enqueued == map[] && st.polled == map[] && st.core.queues == map[] && st.polls == []
    ensures FifoOk(st) && EnqueuedOk(st) && PollsOk(st)
  {
    assert forall m: string :: Lookup<Command>(map[], m) == [];
  }

  lemma NoGroups(st: State)
    requires st.closes == map[] && st.core.healthy == map[] && st.groups == [] && st.sends == []
    ensures HealthOk(st) && GroupsOk(st) && FreedOk(st)
  {
  }

  lemma InitialInv()
    ensures FullInv(INITIAL)
  {
    NoSends(INITIAL);
    NoCommands(INITIAL);
    NoGroups(INITIAL);
  }

  lemma EndInv(acts: seq<Action>)
    requires Run(acts)
    ensures Legal(INITIAL, acts) && FullInv(Final(INITIAL, acts))
  {
    InitialInv();
    RunInv(INITIAL, acts);
  }

  // ---- generated ids are always fresh ----

  lemma AutoIDInjective(t1: string, n1: nat, t2: string, n2: nat)
    requires AutoID(t1, n1) == AutoID(t2, n2)
    ensures n1 == n2 && t1 == t2
  {
    var s, t := "cmd-" + t1 + "-", "cmd-" + t2 + "-";
    NumeralAtEnd(s, n1, t, n2);
    assert t1 == s[4..|s| - 1] && t2 == t[4..|t| - 1];
  }

  predicate AutoOnly(acts: seq<Action>) {
    forall i :: 0 <= i < |acts| ==>
      && (acts[i].CallSend? ==> acts[i].explicitID == "")
      && (acts[i].CallSendAll? ==> acts[i].explicitID == "")
  }

  ghost predicate AutoOk(st: State) {
    forall i :: 0 <= i < |st.sends| ==>
      if HasID(st.sends[i].pc) then
        1 <= st.sends[i].seqNo <= st.core.cmdSeq && st.sends[i].cmd.id == AutoID(st.sends[i].target, st.sends[i].seqNo)
      else st.sends[i].cmd.id == ""
  }

  lemma AutoStep(st: State, a: Action)
    requires Enabled(st, a) && AutoOk(st)
    requires (a.CallSend? ==> a.explicitID == "") && (a.CallSendAll? ==> a.explicitID == "")
    ensures AutoOk(Apply(st, a)) && FreshPick(st, a)
  {
    if a.PickID? {
      forall i | 0 <= i < |st.sends| && HasID(st.sends[i].pc)
        ensures st.sends[i].cmd.id != AutoID(st.sends[a.s].target, st.core.cmdSeq + 1)
      {
        if st.sends[i].cmd.id == AutoID(st.sends[a.s].target, st.core.cmdSeq + 1) {
          AutoIDInjective(st.sends[i].target, st.sends[i].seqNo, st.sends[a.s].target, st.core.cmdSeq + 1);
        }
      }
      OwnFrame(st, a);
    } else {
      NamesFrame(st, a);
      NewUnnamed(st, a);
      assert Apply(st, a).core.cmdSeq == st.core.cmdSeq;
    }
  }

  lemma NewUnnamed(st: State, a: Action)
    requires Enabled(st, a) && (a.CallSend? ==> a.explicitID == "") && (a.CallSendAll? ==> a.explicitID == "")
    ensures forall i :: |st.sends| <= i < |Apply(st, a).sends| ==> Apply(st, a).sends[i].cmd.id == ""
  {
  }

  /** If every Send leaves the id to the client, no id is ever used twice. */
  lemma {:induction false} AutoIDsAreFresh(st: State, acts: seq<Action>)
    requires AutoOk(st) && Legal(st, acts) && AutoOnly(acts)
    ensures FreshRun(st, acts)
    decreases |acts|
  {
    if acts != [] {
      AutoStep(st, acts[0]);
      AutoIDsAreFresh(Apply(st, acts[0]), acts[1..]);
    }
  }

  // ---- commands ----

  /** Polls hand out a machine's commands in the order they were enqueued, without gaps, in
      every run, whatever the ids. */
  lemma PollsInOrder(acts: seq<Action>, m: string)
    requires Legal(INITIAL, acts)
    ensures var st := Final(INITIAL, acts);
            && Lookup(st.polled, m) <= Lookup(st.enqueued, m)
            && Lookup(st.enqueued, m)[|Lookup(st.polled, m)|..] == Lookup(st.core.queues, m)
            && |Lookup(st.core.queues, m)| <= 8
  {
    AnyEndInv(acts);
    var st := Final(INITIAL, acts);
    assert Lookup(st.enqueued, m) == Lookup(st.polled, m) + Lookup(st.core.queues, m);
  }

  /** Each Poll that got a command has a place of its own in its machine's order, and got what
      was enqueued at that place, in every run, whatever the ids. */
  lemma OnePlaceEach(acts: seq<Action>, p: nat)
    requires Legal(INITIAL, acts) && p < |Final(INITIAL, acts).polls| && Final(INITIAL, acts).polls[p].pc.PollGot?
    ensures var st := Final(INITIAL, acts);
            var m, k := st.polls[p].machine, st.polls[p].pc.index;
            && k < |Lookup(st.enqueued, m)| && Lookup(st.enqueued, m)[k] == st.polls[p].pc.cmd
            && forall q :: (&& 0 <= q < |st.polls| && st.polls[q].pc.PollGot?
                            && st.polls[q].machine == m && st.polls[q].pc.index == k) ==> q == p
  {
    AnyEndInv(acts);
    var st := Final(INITIAL, acts);
    var m, k := st.polls[p].machine, st.polls[p].pc.index;
    assert Lookup(st.enqueued, m) == Lookup(st.polled, m) + Lookup(st.core.queues, m);
    forall q | 0 <= q < |st.polls| && st.polls[q].pc.PollGot? && st.polls[q].machine == m && st.polls[q].pc.index == k
      ensures q == p
    {
      if q < p {
        assert SameMachineGot(st.polls[q], st.polls[p]);
      } else if p < q {
        assert SameMachineGot(st.polls[p], st.polls[q]);
      }
    }
  }

  lemma PolledFromSend(st: State, p: nat) returns (i: nat)
    requires FullInv(st) && p < |st.polls| && st.polls[p].pc.PollGot?
    ensures i < |st.sends| && st.sends[i].target == st.polls[p].machine && st.sends[i].cmd == st.polls[p].pc.cmd
    ensures st.sends[i].queued && HasID(st.sends[i].pc)
  {
    var m, k := st.polls[p].machine, st.polls[p].pc.index;
    assert Lookup(st.enqueued, m)[k] == Lookup(st.polled, m)[k] by {
      assert Lookup(st.enqueued, m) == Lookup(st.polled, m) + Lookup(st.core.queues, m);
    }
    assert FromSend(st.sends, m, Lookup(st.enqueued, m)[k]);
    i :| 0 <= i < |st.sends| && st.sends[i].target == m && st.sends[i].cmd == Lookup(st.enqueued, m)[k]
      && st.sends[i].queued && HasID(st.sends[i].pc);
  }

  /** What a Poll got is the command of a Send to its machine. */
  lemma PolledWasSent(acts: seq<Action>, p: nat)
    requires Run(acts) && p < |End(acts).polls| && End(acts).polls[p].pc.PollGot?
    ensures var st := End(acts);
            exists i :: 0 <= i < |st.sends| && st.sends[i].target == st.polls[p].machine
              && st.sends[i].cmd == st.polls[p].pc.cmd && st.sends[i].queued
  {
    EndInv(acts);
    var i := PolledFromSend(End(acts), p);
  }

  /** A command goes to at most one Poll. */
  lemma AtMostOnePoll(acts: seq<Action>, p: nat, q: nat)
    requires Run(acts) && p < q < |End(acts).polls|
    requires End(acts).polls[p].pc.PollGot? && End(acts).polls[q].pc.PollGot?
    ensures End(acts).polls[p].pc.cmd.id != End(acts).polls[q].pc.cmd.id
  {
    EndInv(acts);
    var st := End(acts);
    var i := PolledFromSend(st, p);
    var j := PolledFromSend(st, q);
    if st.polls[p].machine == st.polls[q].machine {
      assert SameMachineGot(st.polls[p], st.polls[q]);
      SamePlace(st, p, q);
    }
  }

  lemma SamePlace(st: State, p: nat, q: nat)
    requires FifoOk(st) && EnqueuedOk(st) && PollsOk(st) && p < q < |st.polls|
        && SameMachineGot(st.polls[p], st.polls[q])
    ensures st.polls[p].pc.cmd.id != st.polls[q].pc.cmd.id
  {
    var m := st.polls[p].machine;
    assert Lookup(st.enqueued, m) == Lookup(st.polled, m) + Lookup(st.core.queues, m);
    var i, j := st.polls[p].pc.index, st.polls[q].pc.index;
    assert Lookup(st.enqueued, m)[i] == st.polls[p].pc.cmd && Lookup(st.enqueued, m)[j] == st.polls[q].pc.cmd;
  }

  // ---- reports ----

  /** What each return value of Send means. */
  lemma SendOutcome(acts: seq<Action>, s: nat)
    requires Run(acts) && s < |End(acts).sends| && End(acts).sends[s].pc.Returned?
    ensures var snd := End(acts).sends[s];
            && (snd.pc.outcome == Nil <==> snd.got.Some? && snd.got.value.status != Failed)
            && (snd.pc.outcome.CommandFailed? <==> snd.got.Some? && snd.got.value.status == Failed)
            && (snd.pc.outcome.CommandFailed? ==> snd.pc.outcome.error == snd.got.value.error)
            && (snd.got.Some? ==> snd.got == snd.first && snd.got.value.commandID == snd.cmd.id && snd.queued)
            && (snd.pc.outcome == ContextDone ==> snd.ctxDone)
  {
    EndInv(acts);
    assert ChannelOk(End(acts).sends[s]) && ProgressOk(End(acts).sends[s]);
  }

  /** The lookup of a report finds exactly the live Send with its id; a late report, or one
      for an unknown command, finds none. */
  lemma LookupExact(acts: seq<Action>, report: Report, s: nat)
    requires Run(acts) && s < |End(acts).sends|
    ensures var st := End(acts);
            ChannelFor(st.core, report) == Some(s) <==> Live(st.sends[s].pc) && st.sends[s].cmd.id == report.commandID
    ensures ChannelFor(End(acts).core, report).Some? ==> ChannelFor(End(acts).core, report).value < |End(acts).sends|
  {
    EndInv(acts);
  }

  /** A delivery that found a channel belongs to the Send whose id the report carries, and
      once it is over that Send has a first report; an awaiting Send can receive exactly that. */
  lemma FirstReportNotLost(acts: seq<Action>, d: nat)
    requires Run(acts) && d < |End(acts).deliveries| && End(acts).deliveries[d].channel.Some?
    ensures var st, del := End(acts), End(acts).deliveries[d];
            var s := del.channel.value;
            && s < |st.sends| && st.sends[s].cmd.id == del.report.commandID
            && (del.done ==> st.sends[s].first.Some?)
            && (del.done && st.sends[s].pc == Awaiting ==>
                  Enabled(st, Receive(s)) && Apply(st, Receive(s)).sends[s].got == st.sends[s].first)
  {
    EndInv(acts);
    var st, s := End(acts), End(acts).deliveries[d].channel.value;
    assert DeliveryOk(st.sends, st.deliveries[d]);
    assert ChannelOk(st.sends[s]) && ProgressOk(st.sends[s]);
  }

  /** The first report that is put for a Send becomes its first report, and can be received. */
  lemma FirstReportIsPut(acts: seq<Action>, d: nat)
    requires Run(acts) && Enabled(End(acts), Put(d)) && End(acts).deliveries[d].channel.Some?
    ensures var st, del := End(acts), End(acts).deliveries[d];
            var s, after := del.channel.value, Apply(st, Put(d)).sends;
            && s < |st.sends| && s < |after|
            && (st.sends[s].first.None? ==>
                  after[s] == st.sends[s].(buf := Some(del.report), first := Some(del.report)))
  {
    EndInv(acts);
    var st, s := End(acts), End(acts).deliveries[d].channel.value;
    assert DeliveryOk(st.sends, st.deliveries[d]);
    assert ChannelOk(st.sends[s]);
  }

  /** A report for another Send changes nothing, and a later one for this Send at most refills
      the channel it has already received from: what it received and how it ends stay. Before
      it received, not even that. */
  lemma LaterReportsIgnored(acts: seq<Action>, d: nat, s: nat)
    requires Run(acts) && Enabled(End(acts), Put(d)) && s < |End(acts).sends|
    requires End(acts).deliveries[d].channel != Some(s) || End(acts).sends[s].first.Some?
    ensures var before, after := End(acts).sends[s], Apply(End(acts), Put(d)).sends[s];
            && after == before.(buf := after.buf)
            && (End(acts).deliveries[d].channel != Some(s) || before.got.None? ==> after == before)
            && (after.buf != before.buf ==> before.got.Some? && !before.pc.Awaiting?)
  {
    EndInv(acts);
    assert ChannelOk(End(acts).sends[s]) && ProgressOk(End(acts).sends[s]);
  }

  /** The first report of a Send never changes, whatever is delivered later. */
  lemma {:induction false} FirstReportStays(st: State, acts: seq<Action>, s: nat)
    requires Legal(st, acts) && s < |st.sends| && st.sends[s].first.Some?
    ensures s < |Final(st, acts).sends| && Final(st, acts).sends[s].first == st.sends[s].first
    decreases |acts|
  {
    if acts != [] {
      StepContinues(st, acts[0]);
      FirstReportStays(Apply(st, acts[0]), acts[1..], s);
    }
  }

  // ---- health and SendAll ----

  /** No channel is closed twice. */
  lemma ClosedAtMostOnce(acts: seq<Action>, m: string)
    requires Legal(INITIAL, acts)
    ensures m in Final(INITIAL, acts).closes ==> Final(INITIAL, acts).closes[m] == 1
    ensures var core := Final(INITIAL, acts).core;
            m in Final(INITIAL, acts).closes <==> m in core.healthy && core.healthy[m]
  {
    AnyEndInv(acts);
  }

  /** When a SendAll has collected all its sends, it returns nil exactly when all of them did;
      otherwise it returns the error of one of them. */
  lemma SendAllExact(acts: seq<Action>, g: nat)
    requires Legal(INITIAL, acts) && g < |Final(INITIAL, acts).groups|
    requires var group := Final(INITIAL, acts).groups[g]; forall i :: group.lo <= i < group.hi ==> i in group.collected
    ensures var st, group := Final(INITIAL, acts), Final(INITIAL, acts).groups[g];
            && group.hi <= |st.sends|
            && (forall i :: group.lo <= i < group.hi ==> st.sends[i].pc.Returned?)
            && (group.firstErr.None? <==> forall i :: group.lo <= i < group.hi ==> st.sends[i].pc.outcome == Nil)
            && (group.firstErr.Some? ==>
                  exists i :: group.lo <= i < group.hi && st.sends[i].pc.outcome == group.firstErr.value)
  {
    AnyEndInv(acts);
    var st, group := Final(INITIAL, acts), Final(INITIAL, acts).groups[g];
    assert GroupOk(st.sends, g, group);
    if group.firstErr.Some? {
      var i :| i in group.collected && st.sends[i].pc == Returned(group.firstErr.value) && group.firstErr.value != Nil;
      assert group.lo <= i < group.hi && st.sends[i].pc.outcome == group.firstErr.value;
    }
  }

  // ---- the first error of a SendAll frees the others ----

  /** A Send that can do nothing: its queue is full, or no report is there, and its context goes on. */
  predicate Stuck(st: State, s: nat) {
    && s < |st.sends| && !st.sends[s].ctxDone
    && (|| (st.sends[s].pc == Enqueueing && |Lookup(st.core.queues, st.sends[s].target)| >= QUEUE_SIZE)
        || (st.sends[s].pc == Awaiting && st.sends[s].buf.None?))
  }

  /** The way out of a Send whose context has ended. */
  function NextOut(pc: SendPc, s: nat): Action
    requires !pc.Returned?
  {
    match pc
    case New => PickID(s)
    case Named => EnterWait(s)
    case WaitingAgent => WaitCancelled(s)
    case Connected => Register(s)
    case Enqueueing => EnqueueCancelled(s)
    case Awaiting => AwaitCancelled(s)
    case Leaving(_) => Unregister(s)
  }

  function StepsOut(pc: SendPc): (n: nat)
    ensures n <= 3
  {
    match pc
    case New => 3
    case Named => 2
    case WaitingAgent => 1
    case Connected => 3
    case Enqueueing => 2
    case Awaiting => 2
    case Leaving(_) => 1
    case Returned(_) => 0
  }

  ghost predicate LeadsOut(st: State, s: nat, a: Action)
    requires s < |st.sends|
  {
    && Own(a) && a.s == s && Enabled(st, a) && s < |Apply(st, a).sends| && Apply(st, a).sends[s].ctxDone
    && StepsOut(Apply(st, a).sends[s].pc) + 1 == StepsOut(st.sends[s].pc)
  }

  lemma OneOutEarly(st: State, s: nat)
    requires s < |st.sends| && st.sends[s].ctxDone && BeforeRegister(st.sends[s].pc)
    ensures LeadsOut(st, s, NextOut(st.sends[s].pc, s))
  {
  }

  lemma OneOutLate(st: State, s: nat)
    requires s < |st.sends| && st.sends[s].ctxDone && Live(st.sends[s].pc)
    ensures LeadsOut(st, s, NextOut(st.sends[s].pc, s))
  {
  }

  /** A Send whose context has ended returns by at most three steps of its own, whatever the
      state of the queues and of the other calls. */
  lemma {:induction false} CanReturn(st: State, s: nat) returns (acts: seq<Action>)
    requires s < |st.sends| && st.sends[s].ctxDone
    ensures |acts| == StepsOut(st.sends[s].pc) && (forall i :: 0 <= i < |acts| ==> Own(acts[i]) && acts[i].s == s)
    ensures Legal(st, acts) && s < |Final(st, acts).sends| && Final(st, acts).sends[s].pc.Returned?
    decreases StepsOut(st.sends[s].pc)
  {
    acts := [];
    if !st.sends[s].pc.Returned? {
      if BeforeRegister(st.sends[s].pc) { OneOutEarly(st, s); } else { OneOutLate(st, s); }
      var a := NextOut(st.sends[s].pc, s);
      var rest := CanReturn(Apply(st, a), s);
      acts := [a] + rest;
      assert acts[1..] == rest;
    }
  }

  /** Once a SendAll has seen an error, the context of each of its Sends has ended and none of
      them is stuck. */
  lemma FirstErrorFrees(acts: seq<Action>, g: nat, i: nat)
    requires Legal(INITIAL, acts) && g < |Final(INITIAL, acts).groups|
    requires var group := Final(INITIAL, acts).groups[g]; group.firstErr.Some? && group.lo <= i < group.hi
    ensures var st := Final(INITIAL, acts); i < |st.sends| && st.sends[i].ctxDone && !Stuck(st, i)
  {
    AnyEndInv(acts);
  }
}
